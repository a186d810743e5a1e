/** From an agent's files to a restore: what an agent chunks, packs, uploads and posts is accepted once
    everything is stored, and restores to the files it started from. */
module EndToEnd {
  import opened Base
  import opened Records
  import opened Segments
  import opened Pack
  import opened Manifests
  import opened PutSpec
  import opened Canonical
  import Chunking

  /** The files an agent put into one pack. */
  type PackSource = seq<PackFile>

  /** Where the data of a manifest entry came from. */
  datatype EntrySource = NoData | FileData(data: Bytes) | PackedData(pack: nat, file: nat)

  /** The refs name the chunks of `data`, in order. */
  ghost predicate ChunksOf(c: Crypto, ch: Chunking.Chunker, refs: seq<ChunkRef>, data: Bytes) {
    var pieces := Chunking.Chunks(ch, data);
    |refs| == |pieces| && forall k :: 0 <= k < |refs| ==> refs[k].hash == c.hash(pieces[k])
  }

  ghost predicate HonestPack(c: Crypto, ch: Chunking.Chunker, p: PackManifest, source: PackSource) {
    && !Blank(p.id) && p.format == PACK_FORMAT && EncodeSpec(source).Ok?
    && ChunksOf(c, ch, p.chunks, EncodeSpec(source).value.0)
    && forall i, j :: 0 <= i < j < |source| ==> source[i].path != source[j].path
  }

  ghost predicate HonestEntry(c: Crypto, ch: Chunking.Chunker, packs: seq<PackManifest>, sources: seq<PackSource>, e: FileEntry, s: EntrySource) {
    match s
    case NoData => e.kind == Dir || e.kind == Symlink
    case FileData(data) => e.kind == File && e.size == |data| && ChunksOf(c, ch, e.chunks, data)
    case PackedData(k, j) =>
      && k < |packs| == |sources| && EncodeSpec(sources[k]).Ok? && j < |sources[k]|
      && e.kind == PackedFile && e.chunks == [] && e.path == sources[k][j].path && e.size == |sources[k][j].data|
      && var index := EncodeSpec(sources[k]).value.1[j];
         e.pack == Some(PackFileRef(packs[k].id, index.offset, index.length))
  }

  /** A manifest as an agent builds it from the given packs and files. */
  ghost predicate Honest(c: Crypto, ch: Chunking.Chunker, m: Manifest, packSources: seq<PackSource>, sources: seq<EntrySource>) {
    && m.entries != [] && |packSources| == |m.packs| && |sources| == |m.entries|
    && (forall i, j :: 0 <= i < j < |m.packs| ==> m.packs[i].id != m.packs[j].id)
    && (forall i :: 0 <= i < |m.packs| ==> HonestPack(c, ch, m.packs[i], packSources[i]))
    && (forall i :: 0 <= i < |m.entries| ==> HonestEntry(c, ch, m.packs, packSources, m.entries[i], sources[i]))
  }

  /** The digest tells every chunk the agent names apart from everything else stored. */
  ghost predicate AllFresh(c: Crypto, ch: Chunking.Chunker, segs: Segs, packSources: seq<PackSource>, sources: seq<EntrySource>) {
    && (forall i :: 0 <= i < |packSources| && EncodeSpec(packSources[i]).Ok? ==>
          Fresh(c, segs, Chunking.Chunks(ch, EncodeSpec(packSources[i]).value.0)))
    && (forall i :: 0 <= i < |sources| && sources[i].FileData? ==> Fresh(c, segs, Chunking.Chunks(ch, sources[i].data)))
  }

  /** The bytes an entry must restore to. */
  ghost function Expected(packSources: seq<PackSource>, s: EntrySource): Option<Bytes> {
    match s
    case NoData => None
    case FileData(data) => Some(data)
    case PackedData(k, j) => if k < |packSources| && j < |packSources[k]| then Some(packSources[k][j].data) else None
  }

  lemma {:induction false} PiecesRead(c: Crypto, segs: Segs, index: Index, refs: seq<ChunkRef>, pieces: seq<Bytes>)
    requires IndexOk(c, segs, index) && Stored(index, refs) && |refs| == |pieces|
    requires forall k :: 0 <= k < |refs| ==> refs[k].hash == c.hash(pieces[k])
    requires Fresh(c, segs, pieces)
    ensures ReadAll(c, segs, AllIndexed(index, refs)) == Ok(Flatten(pieces))
    decreases |refs|
  {
    hide Read;
    if refs != [] {
      var n := |refs| - 1;
      PiecesRead(c, segs, index, refs[..n], pieces[..n]);
      assert AllIndexed(index, refs)[..n] == AllIndexed(index, refs[..n]);
      assert RefOk(c, segs, refs[n].hash, index[refs[n].hash]);
      FlattenSnoc(pieces[..n], pieces[n]);
      assert pieces[..n] + [pieces[n]] == pieces;
    }
  }

  /** The stored chunks of `data` read as `data`, and their sizes add up to its length. */
  lemma ChunkedDataReads(c: Crypto, ch: Chunking.Chunker, segs: Segs, index: Index, refs: seq<ChunkRef>, data: Bytes)
    requires IndexOk(c, segs, index) && Stored(index, refs) && ChunksOf(c, ch, refs, data)
    requires Fresh(c, segs, Chunking.Chunks(ch, data))
    ensures ReadAll(c, segs, AllIndexed(index, refs)) == Ok(data)
    ensures Total(index, refs) == WrapInt64(|data|)
    ensures refs != [] <==> data != []
  {
    hide Read, ReadAll, IndexOk, Fresh, Chunking.Chunks, Total;
    Chunking.ChunksConcatenate(ch, data);
    PiecesRead(c, segs, index, refs, Chunking.Chunks(ch, data));
    IndexedReads(c, segs, index, refs);
    NoDataNoChunks(ch);
  }

  lemma NoDataNoChunks(ch: Chunking.Chunker)
    ensures Chunking.Chunks(ch, []) == []
  {
  }

  lemma DigestLengths(c: Crypto, ch: Chunking.Chunker, refs: seq<ChunkRef>, data: Bytes)
    requires c.Sound() && ChunksOf(c, ch, refs, data)
    ensures HashesOk(refs)
  {
    hide Chunking.Chunks;
  }

  lemma {:induction false} FindsIndex(indexes: seq<PackIndex>, j: nat)
    requires j < |indexes| && DistinctPaths(indexes)
    ensures FindIndex(indexes, indexes[j].path) == Some(indexes[j])
  {
    if j > 0 { FindsIndex(indexes[1..], j - 1); }
  }

  lemma {:induction false} FindsPack(packs: seq<PackManifest>, k: nat)
    requires k < |packs| && forall i, j :: 0 <= i < j < |packs| ==> packs[i].id != packs[j].id
    ensures FindPack(packs, packs[k].id) == Some(packs[k])
  {
    if k > 0 { FindsPack(packs[1..], k - 1); }
  }

  /** An honest pack, once stored, is read, decoded and has each path once. */
  lemma HonestPackContent(c: Crypto, ch: Chunking.Chunker, segs: Segs, index: Index, p: PackManifest, source: PackSource)
    requires c.Sound() && IndexOk(c, segs, index) && HonestPack(c, ch, p, source)
    requires Stored(index, p.chunks) && Fresh(c, segs, Chunking.Chunks(ch, EncodeSpec(source).value.0))
    ensures PackContent(c, segs, index, p)
    ensures PackData(c, segs, index, p) == Ok(EncodeSpec(source).value.0)
    ensures DecodeSpec(EncodeSpec(source).value.0) == Ok(EncodeSpec(source).value.1)
    ensures HashesOk(p.chunks) && p.chunks != []
  {
    hide Read, ReadAll, DecodeSpec, IndexOk, Fresh, PackBytes, ChunksOf;
    var bytes, indexes := EncodeSpec(source).value.0, EncodeSpec(source).value.1;
    ChunkedDataReads(c, ch, segs, index, p.chunks, bytes);
    PackRoundTrip(source);
    DigestLengths(c, ch, p.chunks, bytes);
    HeaderNotEmpty(source);
    assert DistinctPaths(indexes);
  }

  lemma HeaderNotEmpty(source: PackSource)
    requires EncodeSpec(source).Ok?
    ensures EncodeSpec(source).value.0 != []
  {
    hide FirstError, PackLen;
  }

  lemma HonestShape(c: Crypto, ch: Chunking.Chunker, p: PackManifest, source: PackSource)
    requires c.Sound() && HonestPack(c, ch, p, source)
    ensures p.chunks != [] && HashesOk(p.chunks)
  {
    hide FirstError, PackLen, PackBytes;
    HeaderNotEmpty(source);
    DigestLengths(c, ch, p.chunks, EncodeSpec(source).value.0);
  }

  lemma HonestPacked(c: Crypto, ch: Chunking.Chunker, segs: Segs, index: Index, m: Manifest, packSources: seq<PackSource>, sources: seq<EntrySource>, i: nat)
    requires c.Sound() && IndexOk(c, segs, index) && Honest(c, ch, m, packSources, sources) && AllFresh(c, ch, segs, packSources, sources)
    requires Complete(index, m, 0) && i < |m.entries| && sources[i].PackedData?
    ensures InPack(c, segs, index, m.packs, m.entries[i])
    ensures |packSources[sources[i].pack][sources[i].file].data| > 0
  {
    hide Read, ReadAll, DecodeSpec, IndexOk, Fresh, PackBytes, ChunksOf, FirstError, PackLen, IsClean, PackData, PackContent;
    var e, k, j := m.entries[i], sources[i].pack, sources[i].file;
    assert HonestEntry(c, ch, m.packs, packSources, e, sources[i]);
    FindsPack(m.packs, k);
    HonestPackContent(c, ch, segs, index, m.packs[k], packSources[k]);
    var indexes := EncodeSpec(packSources[k]).value.1;
    ContentHasDistinctPaths(c, segs, index, m.packs[k]);
    FindsIndex(indexes, j);
    NonEmptyFile(packSources[k], j);
  }

  lemma ContentHasDistinctPaths(c: Crypto, segs: Segs, index: Index, p: PackManifest)
    requires PackContent(c, segs, index, p)
    ensures PackData(c, segs, index, p).Ok? && DecodeSpec(PackData(c, segs, index, p).value).Ok?
    ensures DistinctPaths(DecodeSpec(PackData(c, segs, index, p).value).value)
  {
    hide DecodeSpec, PackData;
  }

  lemma NonEmptyFile(source: PackSource, j: nat)
    requires EncodeSpec(source).Ok? && j < |source|
    ensures |source[j].data| > 0
  {
    NoErrorAnywhere(source, j);
  }

  lemma HonestEntryOk(c: Crypto, ch: Chunking.Chunker, segs: Segs, index: Index, m: Manifest, packSources: seq<PackSource>, sources: seq<EntrySource>, i: nat)
    requires c.Sound() && IndexOk(c, segs, index) && Honest(c, ch, m, packSources, sources) && AllFresh(c, ch, segs, packSources, sources)
    requires Complete(index, m, |m.entries|) && i < |m.entries|
    ensures EntryOk(c, segs, index, m, i)
  {
    hide Read, ReadAll, DecodeSpec, IndexOk, Fresh, EncodeSpec, ChunksOf, InPack, Total;
    var e, s := m.entries[i], sources[i];
    assert HonestEntry(c, ch, m.packs, packSources, e, s);
    match s
    case NoData =>
    case FileData(data) =>
      ChunkedDataReads(c, ch, segs, index, e.chunks, data);
      DigestLengths(c, ch, e.chunks, data);
      WrapSmall(|data|);
    case PackedData(k, j) =>
      HonestPacked(c, ch, segs, index, m, packSources, sources, i);
      FindsPack(m.packs, k);
  }

  /** An agent's manifest is accepted as soon as the index has every digest it names. */
  lemma HonestIsAccepted(c: Crypto, ch: Chunking.Chunker, segs: Segs, index: Index, m: Manifest, packSources: seq<PackSource>, sources: seq<EntrySource>)
    requires c.Sound() && IndexOk(c, segs, index) && Honest(c, ch, m, packSources, sources) && AllFresh(c, ch, segs, packSources, sources)
    requires Complete(index, m, |m.entries|)
    ensures Verdict(c, segs, index, m, Ok(Canonicalized(index, m)))
  {
    hide Read, ReadAll, DecodeSpec, IndexOk, Fresh, EncodeSpec, ChunksOf, EntryOk, PackContent, Canonicalized;
    forall i | 0 <= i < |m.packs| ensures PackShape(m.packs, i) && PackContentAt(c, segs, index, m, i) {
      assert HonestPack(c, ch, m.packs[i], packSources[i]);
      HonestShape(c, ch, m.packs[i], packSources[i]);
      HonestPackContent(c, ch, segs, index, m.packs[i], packSources[i]);
    }
    forall i | 0 <= i < |m.entries| ensures EntryOk(c, segs, index, m, i) {
      HonestEntryOk(c, ch, segs, index, m, packSources, sources, i);
    }
  }

  /** Whatever was accepted of an agent's manifest restores to the agent's own files, packed ones too. */
  lemma UploadedRestores(c: Crypto, ch: Chunking.Chunker, segs: Segs, index: Index, m: Manifest, stored: Manifest,
                         packSources: seq<PackSource>, sources: seq<EntrySource>, i: nat)
    requires c.Sound() && IndexOk(c, segs, index) && Honest(c, ch, m, packSources, sources) && AllFresh(c, ch, segs, packSources, sources)
    requires Verdict(c, segs, index, m, Ok(stored)) && i < |m.entries| && !sources[i].NoData?
    ensures Expected(packSources, sources[i]).Some?
    ensures Restore(c, segs, stored.packs, stored.entries[i]) == Ok(Expected(packSources, sources[i]).value)
  {
    hide Read, ReadAll, DecodeSpec, IndexOk, Fresh, EncodeSpec, ChunksOf, EntryOk, PacksOk, PackContent, Total, UnpackFile, AllIndexed, FindPack;
    var e, s := m.entries[i], sources[i];
    assert HonestEntry(c, ch, m.packs, packSources, e, s);
    match s
    case FileData(data) =>
      ChunkedDataReads(c, ch, segs, index, e.chunks, data);
    case PackedData(k, j) =>
      assert HonestPack(c, ch, m.packs[k], packSources[k]);
      HonestPackContent(c, ch, segs, index, m.packs[k], packSources[k]);
      FindsPack(stored.packs, k);
      assert ReadAll(c, segs, stored.packs[k].chunks) == PackData(c, segs, index, m.packs[k]);
      PackedFileReads(packSources[k], m.packs[k].id, j, e);
  }

  /** ReadPackedFile's checks pass on an honest entry and give the file's bytes. */
  lemma PackedFileReads(source: PackSource, id: Bytes, j: nat, e: FileEntry)
    requires EncodeSpec(source).Ok? && j < |source| && e.path == source[j].path && e.size == |source[j].data|
    requires forall a, b :: 0 <= a < b < |source| ==> source[a].path != source[b].path
    requires e.pack == Some(PackFileRef(id, EncodeSpec(source).value.1[j].offset, EncodeSpec(source).value.1[j].length))
    ensures UnpackFile(EncodeSpec(source).value.0, e) == Ok(source[j].data)
  {
    hide DecodeSpec, PackBytes, FirstError, PackLen, PackFileBytes;
    var indexes := EncodeSpec(source).value.1;
    PackRoundTrip(source);
    assert DistinctPaths(indexes);
    FindsIndex(indexes, j);
    PackedBytesAreTheFiles(source, j, id);
  }
}
