/** Snapshot manifests, and what restoring one of their entries gives back. */
module Manifests {
  import opened Base
  import opened Records
  import opened Segments
  import opened Pack

  datatype EntryType = File | PackedFile | Dir | Symlink | Unknown(name: Bytes)

  datatype Attrs = Attrs(mode: uint32, uid: int, gid: int, mtimeNS: int64, linkTarget: Bytes)

  datatype FileEntry = FileEntry(
    path: Bytes, kind: EntryType, size: int64, attrs: Attrs, chunks: seq<ChunkRef>, pack: Option<PackFileRef>)

  datatype PackManifest = PackManifest(id: Bytes, format: Bytes, chunks: seq<ChunkRef>)

  datatype Manifest = Manifest(id: Bytes, packs: seq<PackManifest>, entries: seq<FileEntry>)

  datatype RestoreError =
    | ReadFailed(read: ReadError) | NotPacked | NoPackRef | MissingPack | BadPack(pack: PackError)
    | RangeMismatch | NotInPack | SizeDiffers | Unsupported

  /** The bytes a list of refs stands for: each chunk read and appended, the first failure ending it. */
  function ReadAll(c: Crypto, segs: Segs, refs: seq<ChunkRef>): (r: Result<Bytes, ReadError>) {
    if refs == [] then Ok([])
    else
      var n := |refs| - 1;
      match ReadAll(c, segs, refs[..n])
      case Err(e) => Err(e)
      case Ok(before) =>
        match Read(c, segs, refs[n])
        case Err(e) => Err(e)
        case Ok(data) => Ok(before + data)
  }

  function FindPack(packs: seq<PackManifest>, id: Bytes): (r: Option<PackManifest>) {
    if packs == [] then None
    else if packs[0].id == id then Some(packs[0])
    else FindPack(packs[1..], id)
  }

  function FindIndex(indexes: seq<PackIndex>, path: Bytes): (r: Option<PackIndex>)
    ensures r.Some? ==> r.value in indexes && r.value.path == path
    ensures r.None? <==> forall x :: x in indexes ==> x.path != path
  {
    if indexes == [] then None
    else if indexes[0].path == path then Some(indexes[0])
    else FindIndex(indexes[1..], path)
  }

  /** What ReadPackedFile makes of the bytes of the pack. */
  function UnpackFile(data: Bytes, entry: FileEntry): Result<Bytes, RestoreError>
    requires entry.pack.Some?
  {
    match DecodeSpec(data)
    case Err(e) => Err(BadPack(e))
    case Ok(indexes) =>
      match FindIndex(indexes, entry.path)
      case None => Err(NotInPack)
      case Some(index) =>
        if index.offset != entry.pack.value.offset || index.length != entry.pack.value.length then Err(RangeMismatch) else
        match PackFileBytes(data, entry.pack.value)
        case Err(e) => Err(BadPack(e))
        case Ok(bytes) => if |bytes| != entry.size then Err(SizeDiffers) else Ok(bytes)
  }

  function ReadPackedFile(c: Crypto, segs: Segs, packs: seq<PackManifest>, entry: FileEntry): Result<Bytes, RestoreError> {
    if entry.kind != PackedFile then Err(NotPacked) else
    if entry.pack.None? then Err(NoPackRef) else
    match FindPack(packs, entry.pack.value.id)
    case None => Err(MissingPack)
    case Some(pack) =>
      match ReadAll(c, segs, pack.chunks)
      case Err(e) => Err(ReadFailed(e))
      case Ok(data) => UnpackFile(data, entry)
  }

  /** The meaning of a manifest entry: the bytes that restoring it writes. */
  function Restore(c: Crypto, segs: Segs, packs: seq<PackManifest>, entry: FileEntry): Result<Bytes, RestoreError> {
    match entry.kind
    case File =>
      (match ReadAll(c, segs, entry.chunks)
       case Err(e) => Err(ReadFailed(e))
       case Ok(data) => Ok(data))
    case PackedFile => ReadPackedFile(c, segs, packs, entry)
    case _ => Err(Unsupported)
  }

  predicate HasBytes(entry: FileEntry) { entry.kind == File || entry.kind == PackedFile }

  // ---- when a store and a manifest may change without the meaning changing ----

  /** Wherever `refs` could be read, `refs'` reads the same from `segs'`. */
  ghost predicate SameData(c: Crypto, segs: Segs, refs: seq<ChunkRef>, segs': Segs, refs': seq<ChunkRef>) {
    && |refs'| == |refs|
    && forall i :: 0 <= i < |refs| && Read(c, segs, refs[i]).Ok? ==> Read(c, segs', refs'[i]) == Read(c, segs, refs[i])
  }

  /** The same manifest, except that its refs may point elsewhere for the same data. */
  ghost predicate SameMeaning(c: Crypto, segs: Segs, m: Manifest, segs': Segs, m': Manifest) {
    && m'.id == m.id && |m'.packs| == |m.packs| && |m'.entries| == |m.entries|
    && (forall i :: 0 <= i < |m.packs| ==>
          m'.packs[i] == m.packs[i].(chunks := m'.packs[i].chunks)
          && SameData(c, segs, m.packs[i].chunks, segs', m'.packs[i].chunks))
    && (forall i :: 0 <= i < |m.entries| ==>
          m'.entries[i] == m.entries[i].(chunks := m'.entries[i].chunks)
          && (m.entries[i].kind == File ==> SameData(c, segs, m.entries[i].chunks, segs', m'.entries[i].chunks)))
  }

  lemma {:induction false} ReadAllSame(c: Crypto, segs: Segs, refs: seq<ChunkRef>, segs': Segs, refs': seq<ChunkRef>)
    requires SameData(c, segs, refs, segs', refs') && ReadAll(c, segs, refs).Ok?
    ensures ReadAll(c, segs', refs') == ReadAll(c, segs, refs)
    decreases |refs|
  {
    hide Read;
    if refs != [] { ReadAllSame(c, segs, refs[..|refs| - 1], segs', refs'[..|refs| - 1]); }
  }

  lemma {:induction false} FindPackSame(packs: seq<PackManifest>, packs': seq<PackManifest>, id: Bytes)
    returns (i: nat)
    requires |packs'| == |packs| && forall k :: 0 <= k < |packs| ==> packs'[k].id == packs[k].id
    requires FindPack(packs, id).Some?
    ensures i < |packs| && FindPack(packs, id) == Some(packs[i]) && FindPack(packs', id) == Some(packs'[i])
  {
    if packs[0].id == id { i := 0; } else { i := FindPackSame(packs[1..], packs'[1..], id); i := i + 1; }
  }

  /** An entry that could be restored restores to the same bytes. */
  lemma RestoreSame(c: Crypto, segs: Segs, m: Manifest, segs': Segs, m': Manifest, i: nat)
    requires SameMeaning(c, segs, m, segs', m') && i < |m.entries|
    requires Restore(c, segs, m.packs, m.entries[i]).Ok?
    ensures Restore(c, segs', m'.packs, m'.entries[i]) == Restore(c, segs, m.packs, m.entries[i])
  {
    hide Read, UnpackFile, SameData;
    var entry := m.entries[i];
    if entry.kind == File {
      ReadAllSame(c, segs, entry.chunks, segs', m'.entries[i].chunks);
    } else {
      var k := FindPackSame(m.packs, m'.packs, entry.pack.value.id);
      ReadAllSame(c, segs, m.packs[k].chunks, segs', m'.packs[k].chunks);
      UnpackIgnoresRefs(ReadAll(c, segs, m.packs[k].chunks).value, entry, m'.entries[i]);
    }
  }

  lemma UnpackIgnoresRefs(data: Bytes, entry: FileEntry, entry': FileEntry)
    requires entry.pack.Some? && entry' == entry.(chunks := entry'.chunks)
    ensures UnpackFile(data, entry') == UnpackFile(data, entry)
  {
  }

  /** The refs that keep chunks alive: those of plain files and of packs. */
  ghost predicate IsLive(m: Manifest, ref: ChunkRef) {
    || (exists e :: e in m.entries && e.kind == File && ref in e.chunks)
    || (exists p :: p in m.packs && ref in p.chunks)
  }

  /** A ref into bytes the store has written, or into a file that is gone for good: growing the store
      cannot change what it reads. */
  predicate Issued(s: Store, ref: ChunkRef) {
    if ref.segment in s.segs then ref.offset + ref.length <= |s.segs[ref.segment]| else ref.segment < s.id
  }

  ghost predicate AllIssued(s: Store, m: Manifest) {
    forall ref :: IsLive(m, ref) ==> Issued(s, ref)
  }

  // ---- stores that only grow ----

  /** The store has grown: old files begin with what they held, and new ones are numbered past the open one. */
  predicate Later(a: Store, b: Store) {
    && Grows(a.segs, b.segs) && a.id <= b.id
    && forall k :: k in b.segs && k !in a.segs ==> k > a.id
  }

  lemma IssuedLater(c: Crypto, a: Store, b: Store, ref: ChunkRef)
    requires Later(a, b) && Issued(a, ref)
    ensures Issued(b, ref) && Read(c, b.segs, ref) == Read(c, a.segs, ref)
  {
    hide DecodeRecord;
    if ref.segment in a.segs && 0 <= ref.offset && 0 <= ref.length {
      assert b.segs[ref.segment][ref.offset..ref.offset + ref.length] == a.segs[ref.segment][ref.offset..ref.offset + ref.length];
    }
  }

  lemma ReadableIsIssued(c: Crypto, s: Store, ref: ChunkRef)
    requires Read(c, s.segs, ref).Ok?
    ensures Issued(s, ref)
  {
    hide DecodeRecord;
  }

  /** Every file is still there, and begins with what it held. */
  predicate Grows(a: Segs, b: Segs) {
    forall k :: k in a ==> k in b && a[k] <= b[k]
  }

  lemma ReadGrows(c: Crypto, a: Segs, b: Segs, ref: ChunkRef)
    requires Grows(a, b) && Read(c, a, ref).Ok?
    ensures Read(c, b, ref) == Read(c, a, ref)
  {
    hide DecodeRecord;
    assert b[ref.segment][ref.offset..ref.offset + ref.length] == a[ref.segment][ref.offset..ref.offset + ref.length];
  }

  lemma GrowthKeepsMeaning(c: Crypto, a: Segs, b: Segs, m: Manifest)
    requires Grows(a, b)
    ensures SameMeaning(c, a, m, b, m)
  {
    hide Read, Grows;
    forall ref: ChunkRef | Read(c, a, ref).Ok? ensures Read(c, b, ref) == Read(c, a, ref) { ReadGrows(c, a, b, ref); }
  }

  lemma WriteIsLater(env: Env, s: Store, data: Bytes)
    requires s.Valid()
    ensures Later(s, WriteChunk(env, s, data).0)
    ensures WriteChunk(env, s, data).1.segment in WriteChunk(env, s, data).0.segs
  {
    hide EncodeRecord;
  }

  /** What the writer just wrote reads back. */
  lemma WriteReadsBack(env: Env, s: Store, data: Bytes)
    requires env.Sound() && env.crypto.Storable(data) && s.Valid()
    ensures var w := WriteChunk(env, s, data);
      && Read(env.crypto, w.0.segs, w.1) == Ok(data) && w.1.hash == env.crypto.hash(data)
      && w.1.originalSize == |data| && w.1.segment == w.0.id
  {
    RecordRoundTrip(env.crypto, env.nonce(s.written), data);
    hide EncodeRecord, DecodeRecord;
    var w := WriteChunk(env, s, data);
    var file, record := w.0.segs[w.1.segment], Record(env, s, data);
    assert file[w.1.offset..w.1.offset + w.1.length] == record;
  }
}
