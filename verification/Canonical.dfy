/** Accepting a manifest: every chunk reference is replaced by the index's, and what is accepted can be restored. */
module Canonical {
  import opened Base
  import opened Records
  import opened Segments
  import opened Pack
  import opened Manifests
  import opened PutSpec
  import opened Repositories
  import opened Restoring

  const PACK_FORMAT: Bytes := [0x54, 0x42, 0x4B, 0x50, 0x41, 0x43, 0x4B, 0x31]  // "TBKPACK1"

  datatype Referrer = FromPack(id: Bytes) | FromEntry(path: Bytes)

  datatype Reference = Reference(hash: Hash, who: Referrer)

  type MissingMap = map<Hash, set<Referrer>>

  datatype Rejection =
    | NoEntries | BadPack(i: nat) | BadPackData(i: nat) | BadEntry(i: nat)
    | MissingChunks(missing: MissingMap)

  // ---- what is checked ----

  predicate IsSpace(b: byte) { b == 0x20 || 0x09 <= b <= 0x0D }

  predicate Blank(id: Bytes) { forall k :: 0 <= k < |id| ==> IsSpace(id[k]) }

  predicate HashesOk(refs: seq<ChunkRef>) { forall k :: 0 <= k < |refs| ==> |refs[k].hash| == 32 }

  predicate Stored(index: Index, refs: seq<ChunkRef>) { forall k :: 0 <= k < |refs| ==> refs[k].hash in index }

  function Indexed(index: Index, ref: ChunkRef): ChunkRef {
    if ref.hash in index then index[ref.hash] else ref
  }

  function AllIndexed(index: Index, refs: seq<ChunkRef>): (r: seq<ChunkRef>)
    ensures |r| == |refs|
  {
    seq(|refs|, k requires 0 <= k < |refs| => Indexed(index, refs[k]))
  }

  /** The int64 sum of the sizes of the stored chunks. */
  function Total(index: Index, refs: seq<ChunkRef>): int64 {
    if refs == [] then 0
    else
      var n := |refs| - 1;
      if refs[n].hash in index then WrapInt64(Total(index, refs[..n]) + index[refs[n].hash].originalSize)
      else Total(index, refs[..n])
  }

  predicate PackShape(packs: seq<PackManifest>, i: nat)
    requires i < |packs|
  {
    && !Blank(packs[i].id) && (forall j :: 0 <= j < i ==> packs[j].id != packs[i].id)
    && packs[i].format == PACK_FORMAT && packs[i].chunks != [] && HashesOk(packs[i].chunks)
  }

  ghost predicate DistinctPaths(indexes: seq<PackIndex>) {
    forall i, j :: 0 <= i < j < |indexes| ==> indexes[i].path != indexes[j].path
  }

  function PackData(c: Crypto, segs: Segs, index: Index, pack: PackManifest): Result<Bytes, ReadError> {
    ReadAll(c, segs, AllIndexed(index, pack.chunks))
  }

  ghost predicate PackContent(c: Crypto, segs: Segs, index: Index, pack: PackManifest) {
    var data := PackData(c, segs, index, pack);
    data.Ok? && DecodeSpec(data.value).Ok? && DistinctPaths(DecodeSpec(data.value).value)
  }

  predicate EntryShape(index: Index, packs: seq<PackManifest>, e: FileEntry) {
    match e.kind
    case Dir => true
    case Symlink => true
    case File =>
      && (e.size > 0 ==> e.chunks != []) && HashesOk(e.chunks)
      && (Stored(index, e.chunks) ==> Total(index, e.chunks) == e.size)
    case PackedFile => e.size > 0 && e.chunks == [] && e.pack.Some? && FindPack(packs, e.pack.value.id).Some?
    case Unknown(_) => false
  }

  predicate IndexMatches(index: PackIndex, e: FileEntry)
    requires e.pack.Some?
  {
    && index.offset == e.pack.value.offset && index.length == e.pack.value.length
    && index.originalSize == e.size && e.pack.value.length == e.size
  }

  ghost predicate InPack(c: Crypto, segs: Segs, index: Index, packs: seq<PackManifest>, e: FileEntry)
    requires e.pack.Some?
  {
    var pack := FindPack(packs, e.pack.value.id);
    && pack.Some? && PackContent(c, segs, index, pack.value)
    && var found := FindIndex(DecodeSpec(PackData(c, segs, index, pack.value).value).value, e.path);
       found.Some? && IndexMatches(found.value, e)
  }

  /** No chunk is missing from the packs or from the first `n` entries. */
  ghost predicate Complete(index: Index, m: Manifest, n: nat)
    requires n <= |m.entries|
  {
    && (forall i :: 0 <= i < |m.packs| ==> Stored(index, m.packs[i].chunks))
    && (forall i :: 0 <= i < n && m.entries[i].kind == File ==> Stored(index, m.entries[i].chunks))
  }

  ghost predicate PackContentAt(c: Crypto, segs: Segs, index: Index, m: Manifest, i: nat)
    requires i < |m.packs|
  {
    PackContent(c, segs, index, m.packs[i])
  }

  /** Pack ranges are only checked while nothing is known to be missing. */
  ghost predicate EntryOk(c: Crypto, segs: Segs, index: Index, m: Manifest, i: nat)
    requires i < |m.entries|
  {
    && EntryShape(index, m.packs, m.entries[i])
    && (m.entries[i].kind == PackedFile && Complete(index, m, i) ==> InPack(c, segs, index, m.packs, m.entries[i]))
  }

  ghost predicate PacksOk(c: Crypto, segs: Segs, index: Index, m: Manifest) {
    && m.entries != [] && (forall i :: 0 <= i < |m.packs| ==> PackShape(m.packs, i))
    && (Complete(index, m, 0) ==> forall i :: 0 <= i < |m.packs| ==> PackContentAt(c, segs, index, m, i))
  }

  // ---- who refers to what ----

  function RefsOf(refs: seq<ChunkRef>, who: Referrer): (r: seq<Reference>)
    ensures |r| == |refs|
  {
    seq(|refs|, k requires 0 <= k < |refs| => Reference(refs[k].hash, who))
  }

  function PackReferences(packs: seq<PackManifest>): seq<Reference> {
    if packs == [] then []
    else PackReferences(packs[..|packs| - 1]) + RefsOf(packs[|packs| - 1].chunks, FromPack(packs[|packs| - 1].id))
  }

  function EntryReferences(entries: seq<FileEntry>): seq<Reference> {
    if entries == [] then []
    else
      var e := entries[|entries| - 1];
      EntryReferences(entries[..|entries| - 1]) + if e.kind == File then RefsOf(e.chunks, FromEntry(e.path)) else []
  }

  /** The digests of `seen` that are not indexed, each with everyone who refers to it. */
  ghost predicate MissingExactly(index: Index, seen: seq<Reference>, missing: MissingMap) {
    && (forall h :: h in missing <==> h !in index && exists who :: Reference(h, who) in seen)
    && (forall h, who :: h in missing ==> (who in missing[h] <==> Reference(h, who) in seen))
  }

  /** The digest is used by a pack or a plain file of the manifest. */
  ghost predicate Uses(m: Manifest, hash: Hash, who: Referrer) {
    match who
    case FromPack(id) => exists p :: p in m.packs && p.id == id && exists ref :: ref in p.chunks && ref.hash == hash
    case FromEntry(path) =>
      exists e :: e in m.entries && e.kind == File && e.path == path && exists ref :: ref in e.chunks && ref.hash == hash
  }

  lemma RefsOfMembers(refs: seq<ChunkRef>, who: Referrer, x: Reference)
    ensures x in RefsOf(refs, who) <==> x.who == who && exists ref :: ref in refs && ref.hash == x.hash
  {
    var r := RefsOf(refs, who);
    if x in r {
      var k :| 0 <= k < |r| && r[k] == x;
      assert refs[k] in refs;
    }
    if ref :| x.who == who && ref in refs && ref.hash == x.hash {
      var k :| 0 <= k < |refs| && refs[k] == ref;
      assert r[k] == x;
    }
  }

  ghost predicate UsedByPack(p: PackManifest, x: Reference) {
    x.who == FromPack(p.id) && exists ref :: ref in p.chunks && ref.hash == x.hash
  }

  ghost predicate UsedByEntry(e: FileEntry, x: Reference) {
    e.kind == File && x.who == FromEntry(e.path) && exists ref :: ref in e.chunks && ref.hash == x.hash
  }

  lemma {:induction false} PackReferencesMembers(packs: seq<PackManifest>, x: Reference)
    ensures x in PackReferences(packs) <==> exists p :: p in packs && UsedByPack(p, x)
  {
    if packs != [] {
      var n := |packs| - 1;
      PackReferencesMembers(packs[..n], x);
      RefsOfMembers(packs[n].chunks, FromPack(packs[n].id), x);
      assert packs == packs[..n] + [packs[n]];
      assert UsedByPack(packs[n], x) <==> x in RefsOf(packs[n].chunks, FromPack(packs[n].id));
    }
  }

  lemma {:induction false} EntryReferencesMembers(entries: seq<FileEntry>, x: Reference)
    ensures x in EntryReferences(entries) <==> exists e :: e in entries && UsedByEntry(e, x)
  {
    if entries != [] {
      var n := |entries| - 1;
      EntryReferencesMembers(entries[..n], x);
      RefsOfMembers(entries[n].chunks, FromEntry(entries[n].path), x);
      assert entries == entries[..n] + [entries[n]];
      assert UsedByEntry(entries[n], x) <==>
        entries[n].kind == File && x in RefsOf(entries[n].chunks, FromEntry(entries[n].path));
    }
  }

  // ---- the verdict ----

  function Canonicalized(index: Index, m: Manifest): Manifest {
    m.(packs := seq(|m.packs|, i requires 0 <= i < |m.packs| => m.packs[i].(chunks := AllIndexed(index, m.packs[i].chunks))),
       entries := seq(|m.entries|, i requires 0 <= i < |m.entries| =>
         if m.entries[i].kind == File then m.entries[i].(chunks := AllIndexed(index, m.entries[i].chunks)) else m.entries[i]))
  }

  /** Exactly one answer is right for a manifest: the first thing wrong with it, or everything that is
      missing, or the manifest with the index's refs. */
  ghost predicate Verdict(c: Crypto, segs: Segs, index: Index, m: Manifest, r: Result<Manifest, Rejection>) {
    match r
    case Ok(m') =>
      && PacksOk(c, segs, index, m) && (forall i :: 0 <= i < |m.entries| ==> EntryOk(c, segs, index, m, i))
      && Complete(index, m, |m.entries|) && m' == Canonicalized(index, m)
    case Err(rejection) =>
      match rejection
      case NoEntries => m.entries == []
      case BadPack(i) =>
        m.entries != [] && i < |m.packs| && !PackShape(m.packs, i) && forall j :: 0 <= j < i ==> PackShape(m.packs, j)
      case BadPackData(i) =>
        && m.entries != [] && (forall j :: 0 <= j < |m.packs| ==> PackShape(m.packs, j)) && Complete(index, m, 0)
        && i < |m.packs| && !PackContentAt(c, segs, index, m, i) && forall j :: 0 <= j < i ==> PackContentAt(c, segs, index, m, j)
      case BadEntry(i) =>
        && PacksOk(c, segs, index, m) && i < |m.entries| && !EntryOk(c, segs, index, m, i)
        && forall j :: 0 <= j < i ==> EntryOk(c, segs, index, m, j)
      case MissingChunks(missing) =>
        && PacksOk(c, segs, index, m) && (forall i :: 0 <= i < |m.entries| ==> EntryOk(c, segs, index, m, i))
        && missing != map[] && MissingExactly(index, PackReferences(m.packs) + EntryReferences(m.entries), missing)
  }

  lemma MissingIsOne(index: Index, seen: seq<Reference>, a: MissingMap, b: MissingMap)
    requires MissingExactly(index, seen, a) && MissingExactly(index, seen, b)
    ensures a == b
  {
    assert a.Keys == b.Keys;
    forall h | h in a ensures a[h] == b[h] {
      forall who ensures who in a[h] <==> who in b[h] { assert who in a[h] <==> Reference(h, who) in seen; }
    }
  }

  /** Something is missing exactly when the manifest is not complete. */
  lemma MissingMeansIncomplete(index: Index, m: Manifest, missing: MissingMap)
    requires MissingExactly(index, PackReferences(m.packs) + EntryReferences(m.entries), missing)
    ensures missing == map[] <==> Complete(index, m, |m.entries|)
    ensures forall h, who :: h in missing && who in missing[h] <==> h !in index && Uses(m, h, who)
  {
    var seen := PackReferences(m.packs) + EntryReferences(m.entries);
    forall h, who ensures Reference(h, who) in seen <==> Uses(m, h, who) {
      UsesIsReferenced(m, h, who);
    }
    if Complete(index, m, |m.entries|) {
      forall h, who | Uses(m, h, who) ensures h in index { CompleteUses(index, m, h, who); }
      assert forall h :: h !in missing;
    } else {
      var h, who := IncompleteUses(index, m);
      assert h in missing;
    }
    forall h, who ensures h in missing && who in missing[h] <==> h !in index && Uses(m, h, who) {
      assert Reference(h, who) in seen <==> Uses(m, h, who);
    }
  }

  lemma UsesIsReferenced(m: Manifest, h: Hash, who: Referrer)
    ensures Reference(h, who) in PackReferences(m.packs) + EntryReferences(m.entries) <==> Uses(m, h, who)
  {
    var x := Reference(h, who);
    PackReferencesMembers(m.packs, x);
    EntryReferencesMembers(m.entries, x);
    if who.FromPack? {
      if p :| p in m.packs && p.id == who.id && exists ref :: ref in p.chunks && ref.hash == h { assert UsedByPack(p, x); }
    } else {
      if e :| e in m.entries && e.kind == File && e.path == who.path && exists ref :: ref in e.chunks && ref.hash == h {
        assert UsedByEntry(e, x);
      }
    }
  }

  lemma CompleteUses(index: Index, m: Manifest, h: Hash, who: Referrer)
    requires Complete(index, m, |m.entries|) && Uses(m, h, who)
    ensures h in index
  {
  }

  lemma IncompleteUses(index: Index, m: Manifest) returns (h: Hash, who: Referrer)
    requires !Complete(index, m, |m.entries|)
    ensures h !in index && Uses(m, h, who)
  {
    if i :| 0 <= i < |m.packs| && !Stored(index, m.packs[i].chunks) {
      var k :| 0 <= k < |m.packs[i].chunks| && m.packs[i].chunks[k].hash !in index;
      assert m.packs[i] in m.packs && m.packs[i].chunks[k] in m.packs[i].chunks;
      h, who := m.packs[i].chunks[k].hash, FromPack(m.packs[i].id);
    } else {
      var i :| 0 <= i < |m.entries| && m.entries[i].kind == File && !Stored(index, m.entries[i].chunks);
      var k :| 0 <= k < |m.entries[i].chunks| && m.entries[i].chunks[k].hash !in index;
      assert m.entries[i] in m.entries && m.entries[i].chunks[k] in m.entries[i].chunks;
      h, who := m.entries[i].chunks[k].hash, FromEntry(m.entries[i].path);
    }
  }

  /** No manifest has two right answers. */
  lemma VerdictIsOne(c: Crypto, segs: Segs, index: Index, m: Manifest, a: Result<Manifest, Rejection>, b: Result<Manifest, Rejection>)
    requires Verdict(c, segs, index, m, a) && Verdict(c, segs, index, m, b)
    ensures a == b
  {
    hide PackShape, PackContentAt, EntryOk, MissingExactly, PackReferences, EntryReferences, Complete, Canonicalized;
    if a.Err? && a.error.MissingChunks? { MissingMeansIncomplete(index, m, a.error.missing); }
    if b.Err? && b.error.MissingChunks? { MissingMeansIncomplete(index, m, b.error.missing); }
    if a.Err? && b.Err? && a.error.MissingChunks? && b.error.MissingChunks? {
      MissingIsOne(index, PackReferences(m.packs) + EntryReferences(m.entries), a.error.missing, b.error.missing);
    }
  }

  // ---- the loops ----

  lemma MissingStart(index: Index)
    ensures MissingExactly(index, [], map[])
  {
  }

  /** What addMissing notes down. */
  function AddMissing(missing: MissingMap, hash: Hash, who: Referrer): MissingMap {
    missing[hash := (if hash in missing then missing[hash] else {}) + {who}]
  }

  lemma MissingAdd(index: Index, seen: seq<Reference>, missing: MissingMap, hash: Hash, who: Referrer)
    requires MissingExactly(index, seen, missing)
    ensures MissingExactly(index, seen + [Reference(hash, who)], if hash in index then missing else AddMissing(missing, hash, who))
  {
    var seen', missing' := seen + [Reference(hash, who)], if hash in index then missing else AddMissing(missing, hash, who);
    assert seen'[|seen|] == Reference(hash, who);
    forall h ensures h in missing' <==> h !in index && exists w :: Reference(h, w) in seen' {
      if w :| Reference(h, w) in seen && h !in index { assert Reference(h, w) in seen'; }
      if h == hash { assert Reference(h, who) in seen'; }
    }
  }

  datatype Resolved = Resolved(refs: seq<ChunkRef>, missing: MissingMap, complete: bool, total: int64)

  lemma NoRefs(index: Index, chunks: seq<ChunkRef>, who: Referrer, seen: seq<Reference>)
    ensures seen + RefsOf(chunks, who)[..0] == seen && Total(index, chunks[..0]) == 0
  {
  }

  lemma NextRef(index: Index, chunks: seq<ChunkRef>, who: Referrer, seen: seq<Reference>, i: nat)
    requires i < |chunks|
    ensures seen + RefsOf(chunks, who)[..i] + [Reference(chunks[i].hash, who)] == seen + RefsOf(chunks, who)[..i + 1]
    ensures Total(index, chunks[..i + 1])
         == if chunks[i].hash in index then WrapInt64(Total(index, chunks[..i]) + index[chunks[i].hash].originalSize) else Total(index, chunks[..i])
  {
    assert chunks[..i + 1][..i] == chunks[..i];
  }

  /** The loop over a chunk list: check each digest, then look it up. None when a digest is malformed. */
  method ResolveChunks(repo: Repository, chunks: seq<ChunkRef>, who: Referrer, before: MissingMap, ghost seen: seq<Reference>)
    returns (r: Option<Resolved>)
    requires MissingExactly(repo.index, seen, before)
    ensures r.None? <==> !HashesOk(chunks)
    ensures r.Some? ==> (
      && r.value.refs == AllIndexed(repo.index, chunks)
      && MissingExactly(repo.index, seen + RefsOf(chunks, who), r.value.missing)
      && (r.value.complete <==> Stored(repo.index, chunks))
      && r.value.total == Total(repo.index, chunks))
  {
    hide MissingExactly, RefsOf, Total, AddMissing;
    var refs, missing, complete, total: int64 := chunks, before, true, 0;
    NoRefs(repo.index, chunks, who, seen);
    for i := 0 to |chunks|
      invariant |refs| == |chunks| && forall k :: i <= k < |chunks| ==> refs[k] == chunks[k]
      invariant forall k :: 0 <= k < i ==> |chunks[k].hash| == 32 && refs[k] == Indexed(repo.index, chunks[k])
      invariant MissingExactly(repo.index, seen + RefsOf(chunks, who)[..i], missing)
      invariant complete <==> forall k :: 0 <= k < i ==> chunks[k].hash in repo.index
      invariant total == Total(repo.index, chunks[..i])
    {
      var hash := refs[i].hash;
      if |hash| != 32 { return None; }
      NextRef(repo.index, chunks, who, seen, i);
      MissingAdd(repo.index, seen + RefsOf(chunks, who)[..i], missing, hash, who);
      if hash !in repo.index {
        missing, complete := AddMissing(missing, hash, who), false;
      } else {
        refs := refs[i := repo.index[hash]];
        total := WrapInt64(total + repo.index[hash].originalSize);
      }
    }
    assert chunks[..|chunks|] == chunks && RefsOf(chunks, who)[..|chunks|] == RefsOf(chunks, who);
    r := Some(Resolved(refs, missing, complete, total));
  }

  /** Files a pack's index by path; None when a path comes twice. */
  method ByPath(indexes: seq<PackIndex>) returns (r: Option<map<Bytes, PackIndex>>)
    ensures r.Some? <==> DistinctPaths(indexes)
    ensures r.Some? ==> forall path :: FindIndex(indexes, path) == if path in r.value then Some(r.value[path]) else None
  {
    var byPath := map[];
    for i := 0 to |indexes|
      invariant forall a, b :: 0 <= a < b < i ==> indexes[a].path != indexes[b].path
      invariant forall path :: path in byPath <==> exists k :: 0 <= k < i && indexes[k].path == path
      invariant forall k :: 0 <= k < i ==> byPath[indexes[k].path] == indexes[k]
    {
      if indexes[i].path in byPath { return None; }
      byPath := byPath[indexes[i].path := indexes[i]];
    }
    forall path ensures FindIndex(indexes, path) == if path in byPath then Some(byPath[path]) else None {
      if FindIndex(indexes, path).Some? {
        var k :| 0 <= k < |indexes| && indexes[k] == FindIndex(indexes, path).value;
      }
    }
    r := Some(byPath);
  }

  /** One pack's own shape, and its chunks looked up. */
  method CheckPack(repo: Repository, m: Manifest, i: nat, seenPacks: set<Bytes>, missing: MissingMap) returns (r: Option<Resolved>)
    requires i < |m.packs| && forall id :: id in seenPacks <==> exists j :: 0 <= j < i && m.packs[j].id == id
    requires MissingExactly(repo.index, PackReferences(m.packs[..i]), missing)
    ensures r.Some? <==> PackShape(m.packs, i)
    ensures r.Some? ==> r.value.refs == AllIndexed(repo.index, m.packs[i].chunks)
    ensures r.Some? ==> MissingExactly(repo.index, PackReferences(m.packs[..i + 1]), r.value.missing)
  {
    hide MissingExactly, AllIndexed, HashesOk, Blank;
    var pack := m.packs[i];
    if Blank(pack.id) || pack.id in seenPacks || pack.format != PACK_FORMAT || |pack.chunks| == 0 { return None; }
    assert m.packs[..i + 1][..i] == m.packs[..i];
    r := ResolveChunks(repo, pack.chunks, FromPack(pack.id), missing, PackReferences(m.packs[..i]));
  }

  /** The first loop, over the packs. */
  method CheckPacks(repo: Repository, m: Manifest) returns (bad: Option<nat>, packs: seq<PackManifest>, missing: MissingMap)
    ensures bad.Some? ==> bad.value < |m.packs| && !PackShape(m.packs, bad.value) && forall j :: 0 <= j < bad.value ==> PackShape(m.packs, j)
    ensures bad.None? ==> (
      && (forall j :: 0 <= j < |m.packs| ==> PackShape(m.packs, j))
      && packs == Canonicalized(repo.index, m).packs
      && MissingExactly(repo.index, PackReferences(m.packs), missing))
  {
    hide MissingExactly, AllIndexed, PackShape, PackReferences;
    ghost var goal := Canonicalized(repo.index, m).packs;
    var seenPacks: set<Bytes> := {};
    packs, missing := m.packs, map[];
    MissingStart(repo.index);
    NoPackReferences(m.packs);
    for i := 0 to |m.packs|
      invariant |packs| == |m.packs| && forall k :: 0 <= k < |packs| ==> packs[k] == if k < i then goal[k] else m.packs[k]
      invariant forall j :: 0 <= j < i ==> PackShape(m.packs, j)
      invariant forall id :: id in seenPacks <==> exists j :: 0 <= j < i && m.packs[j].id == id
      invariant MissingExactly(repo.index, PackReferences(m.packs[..i]), missing)
    {
      var pack := packs[i];
      var resolved := CheckPack(repo, m, i, seenPacks, missing);
      if resolved.None? { return Some(i), packs, missing; }
      seenPacks, missing := seenPacks + {pack.id}, resolved.value.missing;
      packs := packs[i := pack.(chunks := resolved.value.refs)];
    }
    assert m.packs[..|m.packs|] == m.packs;
    bad := None;
  }

  lemma NoPackReferences(packs: seq<PackManifest>)
    ensures PackReferences(packs[..0]) == []
  {
  }

  type PackIndexes = map<Bytes, map<Bytes, PackIndex>>

  /** The tables the packed entries are looked up in say what the packs' own indexes say. */
  ghost predicate TablesOk(c: Crypto, segs: Segs, index: Index, m: Manifest, n: nat, packIndexes: PackIndexes)
    requires n <= |m.packs|
  {
    forall i :: 0 <= i < n ==> TableOk(c, segs, index, m.packs[i], packIndexes)
  }

  ghost predicate TableOk(c: Crypto, segs: Segs, index: Index, pack: PackManifest, packIndexes: PackIndexes) {
    && PackContent(c, segs, index, pack) && pack.id in packIndexes
    && forall path :: FindIndex(DecodeSpec(PackData(c, segs, index, pack).value).value, path)
        == if path in packIndexes[pack.id] then Some(packIndexes[pack.id][path]) else None
  }

  /** The second loop, when nothing is missing so far: read and decode every pack. */
  method ReadPacks(repo: Repository, m: Manifest, packs: seq<PackManifest>) returns (bad: Option<nat>, packIndexes: PackIndexes)
    requires packs == Canonicalized(repo.index, m).packs
    requires forall j :: 0 <= j < |m.packs| ==> PackShape(m.packs, j)
    ensures var c, segs := repo.env.crypto, repo.writer.segs;
      && (bad.Some? ==> bad.value < |m.packs| && !PackContentAt(c, segs, repo.index, m, bad.value)
                        && forall j :: 0 <= j < bad.value ==> PackContentAt(c, segs, repo.index, m, j))
      && (bad.None? ==> TablesOk(c, segs, repo.index, m, |m.packs|, packIndexes))
  {
    hide Read, ReadAll, DecodeSpec, FindIndex, DistinctPaths, AllIndexed;
    packIndexes := map[];
    for i := 0 to |packs|
      invariant TablesOk(repo.env.crypto, repo.writer.segs, repo.index, m, i, packIndexes)
      invariant forall id :: id in packIndexes ==> exists j :: 0 <= j < i && m.packs[j].id == id
    {
      var data := ReadPackData(repo, packs[i].chunks);
      if data.Err? { return Some(i), packIndexes; }
      var indexes := DecodePackIndex(data.value);
      if indexes.Err? { return Some(i), packIndexes; }
      var byPath := ByPath(indexes.value);
      if byPath.None? { return Some(i), packIndexes; }
      assert PackShape(m.packs, i);
      ghost var before := packIndexes;
      packIndexes := packIndexes[packs[i].id := byPath.value];
      forall j | 0 <= j < i + 1 ensures TableOk(repo.env.crypto, repo.writer.segs, repo.index, m.packs[j], packIndexes) {
        if j < i { assert TableOk(repo.env.crypto, repo.writer.segs, repo.index, m.packs[j], before); }
      }
    }
    bad := None;
  }

  lemma {:induction false} FindPackAt(packs: seq<PackManifest>, id: Bytes) returns (i: nat)
    requires FindPack(packs, id).Some?
    ensures i < |packs| && FindPack(packs, id) == Some(packs[i]) && packs[i].id == id
  {
    if packs[0].id == id { i := 0; } else { i := FindPackAt(packs[1..], id); i := i + 1; }
  }

  /** Looking a packed entry up in the tables is looking it up in its pack. */
  lemma TableLookup(c: Crypto, segs: Segs, index: Index, m: Manifest, packIndexes: PackIndexes, e: FileEntry)
    requires TablesOk(c, segs, index, m, |m.packs|, packIndexes)
    requires e.pack.Some? && FindPack(m.packs, e.pack.value.id).Some?
    ensures e.pack.value.id in packIndexes
    ensures var table := packIndexes[e.pack.value.id];
      InPack(c, segs, index, m.packs, e) <==> e.path in table && IndexMatches(table[e.path], e)
  {
    hide Read, ReadAll, DecodeSpec, FindIndex, FindPack, DistinctPaths, IndexMatches, PackData;
    var i := FindPackAt(m.packs, e.pack.value.id);
    assert TableOk(c, segs, index, m.packs[i], packIndexes);
    var found := FindIndex(DecodeSpec(PackData(c, segs, index, m.packs[i]).value).value, e.path);
    assert found == if e.path in packIndexes[e.pack.value.id] then Some(packIndexes[e.pack.value.id][e.path]) else None;
  }

  lemma NothingMissingYet(index: Index, m: Manifest, n: nat, missing: MissingMap)
    requires n <= |m.entries|
    requires MissingExactly(index, PackReferences(m.packs) + EntryReferences(m.entries[..n]), missing)
    ensures missing == map[] <==> Complete(index, m, n)
  {
    hide MissingExactly, Stored, PackReferences, EntryReferences;
    var part := m.(entries := m.entries[..n]);
    MissingMeansIncomplete(index, part, missing);
    assert Complete(index, part, n) <==> Complete(index, m, n);
  }

  /** The checks on one entry, in the order they are made. */
  method CheckEntry(repo: Repository, m: Manifest, i: nat, missing: MissingMap, packIndexes: PackIndexes)
    returns (ok: bool, entry: FileEntry, after: MissingMap)
    requires i < |m.entries|
    requires MissingExactly(repo.index, PackReferences(m.packs) + EntryReferences(m.entries[..i]), missing)
    requires Complete(repo.index, m, 0) ==> TablesOk(repo.env.crypto, repo.writer.segs, repo.index, m, |m.packs|, packIndexes)
    ensures ok <==> EntryOk(repo.env.crypto, repo.writer.segs, repo.index, m, i)
    ensures ok ==> MissingExactly(repo.index, PackReferences(m.packs) + EntryReferences(m.entries[..i + 1]), after)
    ensures ok ==> entry == if m.entries[i].kind == File then m.entries[i].(chunks := AllIndexed(repo.index, m.entries[i].chunks)) else m.entries[i]
  {
    hide MissingExactly, PackReferences, InPack, TablesOk, Total, HashesOk, AllIndexed, Stored, IndexMatches, FindPack, Complete;
    entry, after := m.entries[i], missing;
    ghost var seen := PackReferences(m.packs) + EntryReferences(m.entries[..i]);
    assert m.entries[..i + 1][..i] == m.entries[..i];
    NothingMissingYet(repo.index, m, i, missing);
    match entry.kind
    case Dir =>
      assert EntryReferences(m.entries[..i + 1]) == EntryReferences(m.entries[..i]);
      return true, entry, missing;
    case Symlink =>
      assert EntryReferences(m.entries[..i + 1]) == EntryReferences(m.entries[..i]);
      return true, entry, missing;
    case File =>
      if entry.size > 0 && |entry.chunks| == 0 { return false, entry, missing; }
      var resolved := ResolveChunks(repo, entry.chunks, FromEntry(entry.path), missing, seen);
      if resolved.None? { return false, entry, missing; }
      assert seen + RefsOf(entry.chunks, FromEntry(entry.path)) == PackReferences(m.packs) + EntryReferences(m.entries[..i + 1]);
      entry, after := entry.(chunks := resolved.value.refs), resolved.value.missing;
      if !resolved.value.complete { return true, entry, after; }
      return resolved.value.total == entry.size, entry, after;
    case PackedFile =>
      if entry.size <= 0 || |entry.chunks| != 0 || entry.pack.None? { return false, entry, missing; }
      if FindPack(m.packs, entry.pack.value.id).None? { return false, entry, missing; }
      assert EntryReferences(m.entries[..i + 1]) == EntryReferences(m.entries[..i]);
      if |missing| > 0 { return true, entry, missing; }
      CompleteBefore(repo.index, m, i);
      TableLookup(repo.env.crypto, repo.writer.segs, repo.index, m, packIndexes, entry);
      var table := packIndexes[entry.pack.value.id];
      return entry.path in table && IndexMatches(table[entry.path], entry), entry, missing;
    case Unknown(_) =>
      return false, entry, missing;
  }

  lemma CompleteBefore(index: Index, m: Manifest, n: nat)
    requires n <= |m.entries| && Complete(index, m, n)
    ensures Complete(index, m, 0)
  {
  }

  /** The second loop, over the entries. */
  method CheckEntries(repo: Repository, m: Manifest, before: MissingMap, packIndexes: PackIndexes)
    returns (bad: Option<nat>, entries: seq<FileEntry>, missing: MissingMap)
    requires MissingExactly(repo.index, PackReferences(m.packs), before)
    requires Complete(repo.index, m, 0) ==> TablesOk(repo.env.crypto, repo.writer.segs, repo.index, m, |m.packs|, packIndexes)
    ensures bad.Some? ==> bad.value < |m.entries| && !EntryOk(repo.env.crypto, repo.writer.segs, repo.index, m, bad.value)
    ensures forall j :: 0 <= j < (if bad.Some? then bad.value else |m.entries|) ==> EntryOk(repo.env.crypto, repo.writer.segs, repo.index, m, j)
    ensures bad.None? ==> MissingExactly(repo.index, PackReferences(m.packs) + EntryReferences(m.entries), missing)
    ensures bad.None? ==> entries == Canonicalized(repo.index, m).entries
  {
    hide MissingExactly, PackReferences, AllIndexed, Complete, EntryOk, TablesOk;
    entries, missing := m.entries, before;
    ghost var goal := Canonicalized(repo.index, m).entries;
    assert PackReferences(m.packs) + EntryReferences(m.entries[..0]) == PackReferences(m.packs);
    for i := 0 to |m.entries|
      invariant |entries| == |m.entries| && forall k :: 0 <= k < |entries| ==> entries[k] == if k < i then goal[k] else m.entries[k]
      invariant forall j :: 0 <= j < i ==> EntryOk(repo.env.crypto, repo.writer.segs, repo.index, m, j)
      invariant MissingExactly(repo.index, PackReferences(m.packs) + EntryReferences(m.entries[..i]), missing)
    {
      var ok, entry, after := CheckEntry(repo, m, i, missing, packIndexes);
      if !ok { return Some(i), entries, missing; }
      entries, missing := entries[i := entry], after;
    }
    assert m.entries[..|m.entries|] == m.entries;
    bad := None;
  }

  method CanonicalizeManifestChunks(repo: Repository, m: Manifest) returns (r: Result<Manifest, Rejection>)
    ensures Verdict(repo.env.crypto, repo.writer.segs, repo.index, m, r)
  {
    hide MissingExactly, PackReferences, EntryReferences, Total, AllIndexed, Stored, Complete, PackShape, PackContentAt, EntryOk, TablesOk;
    if |m.entries| == 0 { return Err(NoEntries); }
    var badPack, packs, missing := CheckPacks(repo, m);
    if badPack.Some? { return Err(Rejection.BadPack(badPack.value)); }
    PacksFirst(m);
    NothingMissingYet(repo.index, m, 0, missing);
    var packIndexes: PackIndexes := map[];
    if |missing| == 0 {
      var badData, tables := ReadPacks(repo, m, packs);
      if badData.Some? { return Err(BadPackData(badData.value)); }
      packIndexes := tables;
      TablesContent(repo.env.crypto, repo.writer.segs, repo.index, m, packIndexes);
    }
    var badEntry, entries;
    badEntry, entries, missing := CheckEntries(repo, m, missing, packIndexes);
    if badEntry.Some? { return Err(BadEntry(badEntry.value)); }
    assert m.entries[..|m.entries|] == m.entries;
    NothingMissingYet(repo.index, m, |m.entries|, missing);
    if |missing| > 0 { return Err(MissingChunks(missing)); }
    r := Ok(m.(packs := packs, entries := entries));
  }

  lemma PacksFirst(m: Manifest)
    ensures PackReferences(m.packs) + EntryReferences(m.entries[..0]) == PackReferences(m.packs)
  {
  }

  lemma TablesContent(c: Crypto, segs: Segs, index: Index, m: Manifest, packIndexes: PackIndexes)
    requires TablesOk(c, segs, index, m, |m.packs|, packIndexes)
    ensures forall i :: 0 <= i < |m.packs| ==> PackContentAt(c, segs, index, m, i)
  {
    hide PackContent;
    forall i | 0 <= i < |m.packs| ensures PackContentAt(c, segs, index, m, i) {
      assert TableOk(c, segs, index, m.packs[i], packIndexes);
    }
  }

  // ---- accepted means restorable ----

  lemma WrapSum(a: int, b: int)
    ensures WrapInt64(WrapInt64(a) + b) == WrapInt64(a + b)
  {
    var x, y := (a + TWO63) / TWO64, (WrapInt64(a) + b + TWO63) / TWO64;
    assert a + TWO63 == x * TWO64 + (a + TWO63) % TWO64;
    assert a + b + TWO63 == (x + y) * TWO64 + (WrapInt64(a) + b + TWO63) % TWO64;
    ModOf(a + b + TWO63, x + y, (WrapInt64(a) + b + TWO63) % TWO64);
  }

  lemma ModOf(n: int, q: int, r: int)
    requires n == q * TWO64 + r && 0 <= r < TWO64
    ensures n % TWO64 == r
  {
  }

  /** Refs from a sound index read, and their bytes add up to the total that was checked. */
  lemma {:induction false} IndexedReads(c: Crypto, segs: Segs, index: Index, refs: seq<ChunkRef>)
    requires IndexOk(c, segs, index) && Stored(index, refs)
    ensures ReadAll(c, segs, AllIndexed(index, refs)).Ok?
    ensures Total(index, refs) == WrapInt64(|ReadAll(c, segs, AllIndexed(index, refs)).value|)
    decreases |refs|
  {
    hide Read, WrapInt64;
    if refs != [] {
      var n := |refs| - 1;
      IndexedReads(c, segs, index, refs[..n]);
      assert AllIndexed(index, refs)[..n] == AllIndexed(index, refs[..n]);
      assert RefOk(c, segs, refs[n].hash, index[refs[n].hash]);
      WrapSum(|ReadAll(c, segs, AllIndexed(index, refs[..n])).value|, index[refs[n].hash].originalSize);
    } else {
      WrapSmall(0);
    }
  }

  lemma WrapSmall(n: nat)
    requires n < TWO63
    ensures WrapInt64(n) == n
  {
  }

  /** What an accepted entry restores to: as many bytes as it says. A plain file's size is an int64 sum,
      so its restored length agrees with it modulo 2^64, which is equality for any length an int64 can
      hold; a pack is held in memory, so its length is such a one. */
  lemma AcceptedIsRestorable(c: Crypto, segs: Segs, index: Index, m: Manifest, m': Manifest, i: nat)
    requires IndexOk(c, segs, index) && Verdict(c, segs, index, m, Ok(m'))
    requires i < |m'.entries| && HasBytes(m'.entries[i])
    requires m'.entries[i].kind == PackedFile ==> PackInMemory(c, segs, m', m'.entries[i])
    ensures var restored := Restore(c, segs, m'.packs, m'.entries[i]);
      && restored.Ok? && WrapInt64(|restored.value|) == m'.entries[i].size
      && (|restored.value| < TWO63 ==> |restored.value| == m'.entries[i].size)
  {
    hide Read, ReadAll, PacksOk, InPack, Total, UnpackFile, PackInMemory, FindPack, AllIndexed;
    assert EntryOk(c, segs, index, m, i);
    if m.entries[i].kind == File {
      IndexedReads(c, segs, index, m.entries[i].chunks);
    } else {
      CompleteUpTo(index, m, i);
      PackedIsRestorable(c, segs, index, m, m', m.entries[i]);
    }
  }

  lemma CompleteUpTo(index: Index, m: Manifest, i: nat)
    requires Complete(index, m, |m.entries|) && i < |m.entries|
    ensures Complete(index, m, i)
  {
  }

  /** The pack an entry names, once read, has a length an int can hold. */
  ghost predicate PackInMemory(c: Crypto, segs: Segs, m: Manifest, e: FileEntry) {
    e.pack.Some? && FindPack(m.packs, e.pack.value.id).Some? && ReadAll(c, segs, FindPack(m.packs, e.pack.value.id).value.chunks).Ok?
    ==> |ReadAll(c, segs, FindPack(m.packs, e.pack.value.id).value.chunks).value| < TWO63
  }

  lemma PackedIsRestorable(c: Crypto, segs: Segs, index: Index, m: Manifest, m': Manifest, e: FileEntry)
    requires m' == Canonicalized(index, m) && EntryShape(index, m.packs, e) && e.kind == PackedFile
    requires InPack(c, segs, index, m.packs, e) && PackInMemory(c, segs, m', e)
    ensures var restored := Manifests.ReadPackedFile(c, segs, m'.packs, e);
      restored.Ok? && |restored.value| == e.size
    ensures WrapInt64(e.size) == e.size
  {
    hide Read, ReadAll, DecodeSpec, FindIndex, PackFileBytes, AllIndexed;
    var k := FindPackSame(m.packs, m'.packs, e.pack.value.id);
    var data := PackData(c, segs, index, m.packs[k]).value;
    AcceptedIndexIsSafe(data);
    PackFileBytesExactly(data, e.pack.value);
  }

  /** Everything an accepted manifest keeps alive is where the index says, so the store keeps it. */
  lemma AcceptedIsIssued(c: Crypto, s: Store, index: Index, m: Manifest, m': Manifest)
    requires IndexOk(c, s.segs, index) && Verdict(c, s.segs, index, m, Ok(m'))
    ensures AllIssued(s, m')
    ensures forall ref :: IsLive(m', ref) ==> ref.hash in index && ref == index[ref.hash]
  {
    hide Read, PacksOk, EntryOk;
    forall ref | IsLive(m', ref) ensures ref.hash in index && ref == index[ref.hash] && Issued(s, ref) {
      if e :| e in m'.entries && e.kind == File && ref in e.chunks {
        var i :| 0 <= i < |m'.entries| && m'.entries[i] == e;
        IndexedRef(c, s, index, m.entries[i].chunks, ref);
      } else {
        var p :| p in m'.packs && ref in p.chunks;
        var i :| 0 <= i < |m'.packs| && m'.packs[i] == p;
        IndexedRef(c, s, index, m.packs[i].chunks, ref);
      }
    }
  }

  lemma IndexedRef(c: Crypto, s: Store, index: Index, refs: seq<ChunkRef>, ref: ChunkRef)
    requires IndexOk(c, s.segs, index) && Stored(index, refs) && ref in AllIndexed(index, refs)
    ensures ref.hash in index && ref == index[ref.hash] && Issued(s, ref)
  {
    hide Read;
    var k :| 0 <= k < |refs| && AllIndexed(index, refs)[k] == ref;
    assert RefOk(c, s.segs, refs[k].hash, index[refs[k].hash]);
    ReadableIsIssued(c, s, ref);
  }

  /** The answer "missing" names exactly the digests that packs and plain files use and the index
      lacks, each with its users; it is given only when there are some. */
  lemma MissingIsExact(c: Crypto, segs: Segs, index: Index, m: Manifest, missing: MissingMap)
    requires Verdict(c, segs, index, m, Err(MissingChunks(missing)))
    ensures missing != map[]
    ensures forall h, who :: h in missing && who in missing[h] <==> h !in index && Uses(m, h, who)
    ensures forall h :: h in missing ==> exists who :: Uses(m, h, who)
  {
    hide PacksOk, EntryOk, PackReferences, EntryReferences;
    MissingMeansIncomplete(index, m, missing);
    forall h | h in missing ensures exists who :: Uses(m, h, who) {
      var who :| Reference(h, who) in PackReferences(m.packs) + EntryReferences(m.entries);
      assert who in missing[h];
    }
  }
}
