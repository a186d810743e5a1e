/** Reading packs and files back: the loops behind `Restore`. */
module Restoring {
  import opened Base
  import opened Records
  import opened Segments
  import opened Pack
  import opened Manifests
  import opened Repositories

  /** Reads the chunks of a pack one after the other. */
  method ReadPackData(repo: Repository, chunks: seq<ChunkRef>) returns (r: Result<Bytes, ReadError>)
    ensures r == ReadAll(repo.env.crypto, repo.writer.segs, chunks)
  {
    hide Read;
    var data: Bytes := [];
    for i := 0 to |chunks|
      invariant ReadAll(repo.env.crypto, repo.writer.segs, chunks[..i]) == Ok(data)
    {
      assert chunks[..i + 1][..i] == chunks[..i];
      var chunk := Read(repo.env.crypto, repo.writer.segs, chunks[i]);
      if chunk.Err? {
        ReadAllFails(repo.env.crypto, repo.writer.segs, chunks, i + 1);
        return Err(chunk.error);
      }
      data := data + chunk.value;
    }
    assert chunks[..|chunks|] == chunks;
    r := Ok(data);
  }

  lemma {:induction false} ReadAllFails(c: Crypto, segs: Segs, refs: seq<ChunkRef>, i: nat)
    requires i <= |refs| && ReadAll(c, segs, refs[..i]).Err?
    ensures ReadAll(c, segs, refs) == ReadAll(c, segs, refs[..i])
    decreases |refs|
  {
    hide Read;
    if i < |refs| {
      assert refs[..|refs| - 1][..i] == refs[..i];
      ReadAllFails(c, segs, refs[..|refs| - 1], i);
    } else {
      assert refs[..i] == refs;
    }
  }

  method ReadPackedFile(repo: Repository, m: Manifest, entry: FileEntry) returns (r: Result<Bytes, RestoreError>)
    ensures r == Manifests.ReadPackedFile(repo.env.crypto, repo.writer.segs, m.packs, entry)
  {
    hide Read, ReadAll, DecodeSpec, PackFileBytes;
    if entry.kind != PackedFile { return Err(NotPacked); }
    if entry.pack.None? { return Err(NoPackRef); }
    var pack := FindPack(m.packs, entry.pack.value.id);
    if pack.None? { return Err(MissingPack); }
    var data := ReadPackData(repo, pack.value.chunks);
    if data.Err? { return Err(ReadFailed(data.error)); }
    var indexes := DecodePackIndex(data.value);
    if indexes.Err? { return Err(BadPack(indexes.error)); }
    var found, i := false, 0;
    assert indexes.value[0..] == indexes.value;
    while i < |indexes.value| && !found
      invariant 0 <= i <= |indexes.value|
      invariant !found ==> FindIndex(indexes.value, entry.path) == FindIndex(indexes.value[i..], entry.path)
      invariant found ==> FindIndex(indexes.value, entry.path).Some? && IsAt(FindIndex(indexes.value, entry.path).value, entry)
      decreases |indexes.value| - i + (if found then 0 else 1)
    {
      var index := indexes.value[i];
      if index.path != entry.path {
        assert indexes.value[i..][1..] == indexes.value[i + 1..];
        i := i + 1;
      } else {
        assert FindIndex(indexes.value[i..], entry.path) == Some(index);
        found := true;
        if index.offset != entry.pack.value.offset || index.length != entry.pack.value.length { return Err(RangeMismatch); }
      }
    }
    if !found { return Err(NotInPack); }
    var fileData := PackFileBytes(data.value, entry.pack.value);
    if fileData.Err? { return Err(BadPack(fileData.error)); }
    if |fileData.value| != entry.size { return Err(SizeDiffers); }
    r := Ok(fileData.value);
  }

  predicate IsAt(index: PackIndex, entry: FileEntry)
    requires entry.pack.Some?
  {
    index.offset == entry.pack.value.offset && index.length == entry.pack.value.length
  }

  /** Writes an entry's bytes out; on a failure part of them may already have been written. */
  method WriteFileEntry(repo: Repository, m: Manifest, entry: FileEntry) returns (written: Bytes, error: Option<RestoreError>)
    ensures Restore(repo.env.crypto, repo.writer.segs, m.packs, entry)
      == if error.None? then Ok(written) else Err(error.value)
  {
    hide Read;
    written, error := [], None;
    match entry.kind
    case File =>
      for i := 0 to |entry.chunks|
        invariant ReadAll(repo.env.crypto, repo.writer.segs, entry.chunks[..i]) == Ok(written)
      {
        assert entry.chunks[..i + 1][..i] == entry.chunks[..i];
        var data := Read(repo.env.crypto, repo.writer.segs, entry.chunks[i]);
        if data.Err? {
          ReadAllFails(repo.env.crypto, repo.writer.segs, entry.chunks, i + 1);
          return written, Some(ReadFailed(data.error));
        }
        written := written + data.value;
      }
      assert entry.chunks[..|entry.chunks|] == entry.chunks;
    case PackedFile =>
      var data := ReadPackedFile(repo, m, entry);
      if data.Err? { return [], Some(data.error); }
      written := data.value;
    case _ =>
      error := Some(Unsupported);
  }
}
