/** Compaction: every live chunk is copied, manifests are pointed at the copies, and what is left
    behind is removed. No step of it changes what an active snapshot restores to. */
module Compaction {
  import opened Base
  import opened Records
  import opened Segments
  import opened Manifests
  import opened PutSpec
  import opened Repositories

  datatype Report = Report(rewritten: set<Hash>, removedChunks: set<Hash>, removedSegments: set<int>)

  datatype Outcome = Done(report: Report) | ActiveRuns | RewriteFailed(hash: Hash, error: ReadError)

  predicate SameLocation(a: ChunkRef, b: ChunkRef) {
    && a.hash == b.hash && a.segment == b.segment && a.offset == b.offset && a.length == b.length
    && a.originalSize == b.originalSize && a.compressedSize == b.compressedSize
  }

  ghost predicate LiveIn(m: Manifest, hash: Hash) {
    hash != [] && exists ref :: IsLive(m, ref) && ref.hash == hash
  }

  /** The digests some active snapshot needs. */
  ghost predicate Live(v: RepoView, hash: Hash)
    requires v.Active() <= v.manifests.Keys
  {
    exists id :: id in v.Active() && LiveIn(v.manifests[id], hash)
  }

  // ---- pointing a manifest at the copies ----

  function NewRef(newRefs: Index, ref: ChunkRef): ChunkRef {
    if ref.hash in newRefs && !SameLocation(ref, newRefs[ref.hash]) then newRefs[ref.hash] else ref
  }

  function NewRefs(newRefs: Index, refs: seq<ChunkRef>): (r: seq<ChunkRef>)
    ensures |r| == |refs|
  {
    seq(|refs|, i requires 0 <= i < |refs| => NewRef(newRefs, refs[i]))
  }

  function MovedEntries(newRefs: Index, entries: seq<FileEntry>): (r: seq<FileEntry>)
    ensures |r| == |entries|
  {
    seq(|entries|, i requires 0 <= i < |entries| => entries[i].(chunks := NewRefs(newRefs, entries[i].chunks)))
  }

  function MovedPacks(newRefs: Index, packs: seq<PackManifest>): (r: seq<PackManifest>)
    ensures |r| == |packs|
  {
    seq(|packs|, i requires 0 <= i < |packs| => packs[i].(chunks := NewRefs(newRefs, packs[i].chunks)))
  }

  function Moved(newRefs: Index, m: Manifest): Manifest {
    m.(entries := MovedEntries(newRefs, m.entries), packs := MovedPacks(newRefs, m.packs))
  }

  /** The copies read what the originals read, and the reader serves them. */
  ghost predicate Copied(c: Crypto, segs0: Segs, oldRefs: Index, segs: Segs, newRefs: Index) {
    forall h :: h in newRefs ==>
      && h in oldRefs && oldRefs[h].hash == h
      && RefOk(c, segs, h, newRefs[h])
      && Read(c, segs, newRefs[h]) == Read(c, segs0, oldRefs[h])
  }

  lemma NewRefReads(c: Crypto, segs0: Segs, oldRefs: Index, segs: Segs, newRefs: Index, ref: ChunkRef)
    requires NoCollision(c, segs0) && Grows(segs0, segs) && Copied(c, segs0, oldRefs, segs, newRefs)
    requires Read(c, segs0, ref).Ok?
    ensures Read(c, segs, NewRef(newRefs, ref)) == Read(c, segs0, ref)
  {
    hide Read, Grows;
    ReadGrows(c, segs0, segs, ref);
    if ref.hash in newRefs { assert Read(c, segs0, oldRefs[ref.hash]).Ok?; }
  }

  /** While nothing has been removed, the old manifest and the new one both mean what they meant. */
  lemma MovedMeaning(c: Crypto, segs0: Segs, oldRefs: Index, segs: Segs, newRefs: Index, m: Manifest)
    requires NoCollision(c, segs0) && Grows(segs0, segs) && Copied(c, segs0, oldRefs, segs, newRefs)
    ensures SameMeaning(c, segs0, m, segs, Moved(newRefs, m))
  {
    hide Read, Grows, NewRef, Copied, NoCollision;
    forall ref: ChunkRef | Read(c, segs0, ref).Ok? ensures Read(c, segs, NewRef(newRefs, ref)) == Read(c, segs0, ref) {
      NewRefReads(c, segs0, oldRefs, segs, newRefs, ref);
    }
  }

  /** What is left once the files outside `kept` are gone. */
  ghost predicate Trimmed(segs: Segs, segs': Segs, newRefs: Index) {
    && (forall k :: k in segs' ==> k in segs && segs'[k] == segs[k])
    && (forall h :: h in newRefs ==> newRefs[h].segment in segs')
  }

  lemma TrimmedReads(c: Crypto, segs: Segs, segs': Segs, newRefs: Index, ref: ChunkRef)
    requires Trimmed(segs, segs', newRefs) && ref.segment in segs'
    ensures Read(c, segs', ref) == Read(c, segs, ref)
  {
    hide DecodeRecord;
  }

  lemma TrimmedData(c: Crypto, segs0: Segs, oldRefs: Index, segs: Segs, newRefs: Index, segs': Segs, refs: seq<ChunkRef>)
    requires c.Sound() && NoCollision(c, segs0) && Grows(segs0, segs) && Copied(c, segs0, oldRefs, segs, newRefs)
    requires Trimmed(segs, segs', newRefs)
    requires forall ref :: ref in refs && ref.hash != [] ==> ref.hash in newRefs
    ensures SameData(c, segs0, refs, segs', NewRefs(newRefs, refs))
  {
    hide Read, Grows, Copied, NoCollision;
    forall i | 0 <= i < |refs| && Read(c, segs0, refs[i]).Ok?
      ensures Read(c, segs', NewRef(newRefs, refs[i])) == Read(c, segs0, refs[i])
    {
      var ref := refs[i];
      assert |c.hash(Read(c, segs0, ref).value)| == 32;
      assert ref in refs && ref.hash in newRefs;
      NewRefReads(c, segs0, oldRefs, segs, newRefs, ref);
      TrimmedReads(c, segs, segs', newRefs, NewRef(newRefs, ref));
    }
  }

  /** Once every live ref has been moved, the files without a copy in them may go. */
  lemma TrimmedMeaning(c: Crypto, segs0: Segs, oldRefs: Index, segs: Segs, newRefs: Index, segs': Segs, m: Manifest)
    requires c.Sound() && NoCollision(c, segs0) && Grows(segs0, segs) && Copied(c, segs0, oldRefs, segs, newRefs)
    requires Trimmed(segs, segs', newRefs)
    requires forall ref :: IsLive(m, ref) && ref.hash != [] ==> ref.hash in newRefs
    ensures SameMeaning(c, segs0, m, segs', Moved(newRefs, m))
  {
    hide Read, Grows, NewRefs, Copied, NoCollision, Trimmed, SameData;
    forall i | 0 <= i < |m.packs| ensures SameData(c, segs0, m.packs[i].chunks, segs', NewRefs(newRefs, m.packs[i].chunks)) {
      forall ref | ref in m.packs[i].chunks && ref.hash != [] ensures ref.hash in newRefs { assert m.packs[i] in m.packs && IsLive(m, ref); }
      TrimmedData(c, segs0, oldRefs, segs, newRefs, segs', m.packs[i].chunks);
    }
    forall i | 0 <= i < |m.entries| && m.entries[i].kind == File
      ensures SameData(c, segs0, m.entries[i].chunks, segs', NewRefs(newRefs, m.entries[i].chunks))
    {
      forall ref | ref in m.entries[i].chunks && ref.hash != [] ensures ref.hash in newRefs { assert m.entries[i] in m.entries && IsLive(m, ref); }
      TrimmedData(c, segs0, oldRefs, segs, newRefs, segs', m.entries[i].chunks);
    }
  }

  // ---- what every cut leaves ----

  /** Other manifests are as they were, and the files that are left hold what they held, and perhaps more. */
  ghost predicate Untouched(v0: RepoView, v: RepoView) {
    && (forall id :: id in v0.manifests && id !in v0.Active() ==> id in v.manifests && v.manifests[id] == v0.manifests[id])
    && (forall k :: k in v0.store.segs && k in v.store.segs ==> v0.store.segs[k] <= v.store.segs[k])
  }

  /** The disk is sound, and every entry of every active snapshot that could be restored still
      restores to the same bytes. */
  ghost predicate CutOk(env: Env, v0: RepoView, v: RepoView) {
    && RepoOk(env, v) && v.snapshots == v0.snapshots && Untouched(v0, v)
    && forall id :: id in v0.Active() ==> (
        && id in v0.manifests && id in v.manifests
        && SameMeaning(env.crypto, v0.store.segs, v0.manifests[id], v.store.segs, v.manifests[id]))
  }

  lemma MovingTouchesNothing(v0: RepoView, newRefs: Index, v: RepoView, segs': Segs)
    requires Moving(v0, newRefs, v) && Grows(v0.store.segs, v.store.segs)
    requires forall k :: k in segs' ==> k in v.store.segs && segs'[k] == v.store.segs[k]
    ensures Untouched(v0, v.(store := v.store.(segs := segs')))
  {
    hide Moved;
  }

  ghost predicate CutsOk(env: Env, v0: RepoView, cuts: seq<RepoView>) {
    forall i :: 0 <= i < |cuts| ==> CutOk(env, v0, cuts[i])
  }

  /** Manifests as they were or pointed at the copies, over a store that has only grown. */
  ghost predicate Moving(v0: RepoView, newRefs: Index, v: RepoView) {
    && v.snapshots == v0.snapshots && v.manifests.Keys == v0.manifests.Keys
    && forall id :: id in v0.manifests ==>
        v.manifests[id] == v0.manifests[id] || (id in v0.Active() && v.manifests[id] == Moved(newRefs, v0.manifests[id]))
  }

  lemma MovingCut(env: Env, v0: RepoView, oldRefs: Index, newRefs: Index, v: RepoView)
    requires RepoOk(env, v0) && NoCollision(env.crypto, v0.store.segs)
    requires Later(v0.store, v.store) && v.store.Valid() && IndexOk(env.crypto, v.store.segs, v.index)
    requires Copied(env.crypto, v0.store.segs, oldRefs, v.store.segs, newRefs)
    requires Moving(v0, newRefs, v)
    ensures CutOk(env, v0, v)
  {
    hide SameMeaning, Copied, IndexOk, NoCollision, Grows, MovedEntries, MovedPacks, AllIssued, Untouched;
    MovingTouchesNothing(v0, newRefs, v, v.store.segs);
    forall id | id in v0.Active()
      ensures SameMeaning(env.crypto, v0.store.segs, v0.manifests[id], v.store.segs, v.manifests[id])
    {
      GrowthKeepsMeaning(env.crypto, v0.store.segs, v.store.segs, v0.manifests[id]);
      MovedMeaning(env.crypto, v0.store.segs, oldRefs, v.store.segs, newRefs, v0.manifests[id]);
    }
    forall id | id in v.Active() ensures AllIssued(v.store, v.manifests[id]) {
      MovedIssued(env.crypto, v0.store, oldRefs, v.store, newRefs, v0.manifests[id]);
    }
  }

  /** A live ref of a moved manifest is a copy's ref, or a live ref of the old one. */
  lemma MovedLive(newRefs: Index, m: Manifest, ref: ChunkRef) returns (was: ChunkRef)
    requires IsLive(Moved(newRefs, m), ref)
    ensures IsLive(m, was) && ref == NewRef(newRefs, was)
  {
    hide NewRef;
    var m' := Moved(newRefs, m);
    if e :| e in m'.entries && e.kind == File && ref in e.chunks {
      var i :| 0 <= i < |m'.entries| && m'.entries[i] == e;
      var k :| 0 <= k < |e.chunks| && e.chunks[k] == ref;
      was := m.entries[i].chunks[k];
      assert m.entries[i] in m.entries && was in m.entries[i].chunks;
    } else {
      var p :| p in m'.packs && ref in p.chunks;
      var i :| 0 <= i < |m'.packs| && m'.packs[i] == p;
      var k :| 0 <= k < |p.chunks| && p.chunks[k] == ref;
      was := m.packs[i].chunks[k];
      assert m.packs[i] in m.packs && was in m.packs[i].chunks;
    }
  }

  lemma MovedIssued(c: Crypto, s0: Store, oldRefs: Index, s: Store, newRefs: Index, m: Manifest)
    requires Later(s0, s) && AllIssued(s0, m) && Copied(c, s0.segs, oldRefs, s.segs, newRefs)
    ensures AllIssued(s, m) && AllIssued(s, Moved(newRefs, m))
  {
    hide Read, Issued, Later, Moved, IsLive;
    forall ref | IsLive(m, ref) ensures Issued(s, ref) { IssuedLater(c, s0, s, ref); }
    forall ref | IsLive(Moved(newRefs, m), ref) ensures Issued(s, ref) {
      var was := MovedLive(newRefs, m, ref);
      IssuedLater(c, s0, s, was);
      if ref != was { ReadableIsIssued(c, s, ref); }
    }
  }

  lemma TrimmedIssued(s: Store, segs': Segs, newRefs: Index, m: Manifest)
    requires s.Valid() && s.id in segs' && Trimmed(s.segs, segs', newRefs) && AllIssued(s, m)
    ensures AllIssued(s.(segs := segs'), m)
  {
    hide IsLive;
  }

  /** Every live digest of every active snapshot has been copied. */
  ghost predicate AllCopied(v0: RepoView, newRefs: Index)
    requires v0.Active() <= v0.manifests.Keys
  {
    forall id, ref :: id in v0.Active() && IsLive(v0.manifests[id], ref) && ref.hash != [] ==> ref.hash in newRefs
  }

  lemma TrimmedCut(env: Env, v0: RepoView, oldRefs: Index, newRefs: Index, v: RepoView, segs': Segs)
    requires env.Sound() && RepoOk(env, v0) && NoCollision(env.crypto, v0.store.segs) && AllCopied(v0, newRefs)
    requires Later(v0.store, v.store) && v.store.Valid()
    requires Copied(env.crypto, v0.store.segs, oldRefs, v.store.segs, newRefs)
    requires v.index == newRefs && Moving(v0, newRefs, v)
    requires forall id :: id in v0.Active() ==> v.manifests[id] == Moved(newRefs, v0.manifests[id])
    requires Trimmed(v.store.segs, segs', newRefs) && v.store.id in segs'
    ensures CutOk(env, v0, v.(store := v.store.(segs := segs')))
  {
    hide SameMeaning, Read, NoCollision, Grows, MovedEntries, MovedPacks, AllIssued, Untouched;
    MovingTouchesNothing(v0, newRefs, v, segs');
    forall id | id in v0.Active()
      ensures SameMeaning(env.crypto, v0.store.segs, v0.manifests[id], segs', v.manifests[id])
    {
      TrimmedMeaning(env.crypto, v0.store.segs, oldRefs, v.store.segs, newRefs, segs', v0.manifests[id]);
    }
    forall h | h in newRefs ensures RefOk(env.crypto, segs', h, newRefs[h]) {
      TrimmedReads(env.crypto, v.store.segs, segs', newRefs, newRefs[h]);
    }
    forall id | id in v.Active() ensures AllIssued(v.store.(segs := segs'), v.manifests[id]) {
      MovedIssued(env.crypto, v0.store, oldRefs, v.store, newRefs, v0.manifests[id]);
      TrimmedIssued(v.store, segs', newRefs, v.manifests[id]);
    }
  }

  /** The state a finished compaction leaves: the index holds exactly the live digests, every live ref
      of an active manifest is the index's ref, and the files are the ones those refs need (with the
      open one), all of them started by this compaction or empty before it. */
  ghost predicate Compacted(v0: RepoView, v: RepoView)
    requires v0.Active() <= v0.manifests.Keys
  {
    && v.snapshots == v0.snapshots && v.manifests.Keys == v0.manifests.Keys
    && (forall id :: id in v0.manifests && id !in v0.Active() ==> v.manifests[id] == v0.manifests[id])
    && (forall h :: h in v.index <==> Live(v0, h))
    && (forall id, ref :: id in v0.Active() && IsLive(v.manifests[id], ref) && ref.hash != [] ==>
          ref.hash in v.index && SameLocation(ref, v.index[ref.hash]) && ref.segment in v.store.segs)
    && v.store.segs.Keys == (set h | h in v.index :: v.index[h].segment) + {v.store.id}
    && (forall k :: k in v.store.segs && k in v0.store.segs ==> k == v0.store.id && v0.store.segs[k] == [])
  }

  // ---- the loops ----

  method ManifestChunkRefs(m: Manifest) returns (refs: seq<ChunkRef>)
    ensures forall ref :: ref in refs <==> IsLive(m, ref)
  {
    refs := [];
    for i := 0 to |m.entries|
      invariant forall ref :: ref in refs <==> exists j :: 0 <= j < i && m.entries[j].kind == File && ref in m.entries[j].chunks
    {
      if m.entries[i].kind == File { refs := refs + m.entries[i].chunks; }
    }
    ghost var direct := refs;
    for i := 0 to |m.packs|
      invariant forall ref :: ref in refs <==> ref in direct || exists j :: 0 <= j < i && ref in m.packs[j].chunks
    {
      refs := refs + m.packs[i].chunks;
    }
    forall ref ensures ref in refs <==> IsLive(m, ref) {
      if ref in direct {
        var j :| 0 <= j < |m.entries| && m.entries[j].kind == File && ref in m.entries[j].chunks;
        assert m.entries[j] in m.entries;
      }
      if j :| 0 <= j < |m.packs| && ref in m.packs[j].chunks { assert m.packs[j] in m.packs; }
    }
  }

  ghost predicate Needed(ms: seq<Manifest>, hash: Hash) {
    exists m :: m in ms && LiveIn(m, hash)
  }

  ghost predicate RefOf(ms: seq<Manifest>, ref: ChunkRef) {
    exists m :: m in ms && IsLive(m, ref)
  }

  lemma NeededSnoc(ms: seq<Manifest>, m: Manifest)
    ensures forall h :: Needed(ms + [m], h) <==> Needed(ms, h) || LiveIn(m, h)
    ensures forall ref :: RefOf(ms + [m], ref) <==> RefOf(ms, ref) || IsLive(m, ref)
  {
    hide LiveIn, IsLive;
    assert forall x :: x in ms + [m] <==> x in ms || x == m;
  }

  /** One ref for every digest that is needed, and for no other. */
  ghost predicate Noted(ms: seq<Manifest>, refsByHash: Index) {
    && (forall h :: h in refsByHash <==> Needed(ms, h))
    && (forall h :: h in refsByHash ==> refsByHash[h].hash == h && RefOf(ms, refsByHash[h]))
  }

  /** Reads the active manifests and notes one ref for each digest they need. */
  method Gather(repo: Repository, snapshots: seq<Bytes>) returns (manifests: seq<Manifest>, refsByHash: Index)
    requires RepoOk(repo.env, repo.View()) && ToSet(snapshots) <= repo.View().Active()
    ensures |manifests| == |snapshots|
    ensures forall i :: 0 <= i < |snapshots| ==> snapshots[i] in repo.manifests && manifests[i] == repo.manifests[snapshots[i]]
    ensures Noted(manifests, refsByHash)
  {
    hide Noted, IndexOk;
    manifests, refsByHash := [], map[];
    NotedStart();
    for i := 0 to |snapshots|
      invariant |manifests| == i
      invariant forall j :: 0 <= j < i ==> snapshots[j] in repo.manifests && manifests[j] == repo.manifests[snapshots[j]]
      invariant Noted(manifests, refsByHash)
    {
      assert snapshots[i] in ToSet(snapshots);
      var m := repo.ReadManifest(snapshots[i]);
      if m.None? {
        assert false;  // an active snapshot's manifest is on disk under a valid id
      } else {
        var refs := ManifestChunkRefs(m.value);
        refsByHash := NoteRefs(manifests, m.value, refs, refsByHash);
        manifests := manifests + [m.value];
      }
    }
  }

  lemma NotedStart()
    ensures Noted([], map[])
  {
  }

  method NoteRefs(ghost earlier: seq<Manifest>, m: Manifest, refs: seq<ChunkRef>, before: Index) returns (refsByHash: Index)
    requires Noted(earlier, before) && forall ref :: ref in refs <==> IsLive(m, ref)
    ensures Noted(earlier + [m], refsByHash)
  {
    hide IsLive, Needed, RefOf;
    refsByHash := before;
    for k := 0 to |refs|
      invariant forall h :: h in refsByHash <==> h in before || (h != [] && exists q :: 0 <= q < k && refs[q].hash == h)
      invariant forall h :: h in refsByHash ==> refsByHash[h].hash == h && (refsByHash[h] in refs || (h in before && refsByHash[h] == before[h]))
    {
      if refs[k].hash != [] && refs[k].hash !in refsByHash {
        refsByHash := refsByHash[refs[k].hash := refs[k]];
      }
    }
    forall h ensures (h != [] && exists q :: 0 <= q < |refs| && refs[q].hash == h) <==> LiveIn(m, h) {
      if ref :| IsLive(m, ref) && ref.hash == h { assert ref in refs; }
      if q :| 0 <= q < |refs| && refs[q].hash == h { assert refs[q] in refs; }
    }
    NeededSnoc(earlier, m);
  }

  /** Where the copying stands: the copies made so far are indexed, all of them from file `firstId` on,
      and nothing else has changed. */
  ghost predicate Copying(env: Env, v0: RepoView, oldRefs: Index, newRefs: Index, firstId: int, v: RepoView) {
    && v == v0.(store := v.store, index := v.index)
    && v.store.Valid() && v.store.id >= firstId && Later(v0.store, v.store)
    && Copied(env.crypto, v0.store.segs, oldRefs, v.store.segs, newRefs)
    && (forall h :: h in newRefs ==> newRefs[h].segment >= firstId)
    && IndexOk(env.crypto, v.store.segs, v.index)
    && v.index == v0.index + newRefs
  }

  lemma CopyingCut(env: Env, v0: RepoView, oldRefs: Index, newRefs: Index, firstId: int, v: RepoView)
    requires RepoOk(env, v0) && NoCollision(env.crypto, v0.store.segs)
    requires Copying(env, v0, oldRefs, newRefs, firstId, v)
    ensures CutOk(env, v0, v)
  {
    hide Copied, IndexOk, NoCollision, Grows, Moved, CutOk;
    MovingCut(env, v0, oldRefs, newRefs, v);
  }

  /** One RewriteChunkRef: first the copy is on disk, then the index points at it. */
  lemma CopyStep(env: Env, v0: RepoView, oldRefs: Index, newRefs: Index, firstId: int, v: RepoView, hash: Hash, data: Bytes)
    requires env.Sound() && NoCollision(env.crypto, v0.store.segs)
    requires Copying(env, v0, oldRefs, newRefs, firstId, v)
    requires hash in oldRefs && oldRefs[hash].hash == hash && Read(env.crypto, v0.store.segs, oldRefs[hash]) == Ok(data)
    ensures var w := WriteChunk(env, v.store, data);
      && w.1.hash == hash
      && Copying(env, v0, oldRefs, newRefs, firstId, v.(store := w.0))
      && Copying(env, v0, oldRefs, newRefs[hash := w.1], firstId, v.(store := w.0, index := v.index[hash := w.1]))
  {
    hide Read, WriteChunk, Crypto.Sound, Crypto.Storable, Later, IndexOk, Copied;
    var c, w := env.crypto, WriteChunk(env, v.store, data);
    WriteReadsBack(env, v.store, data);
    WriteIsLater(env, v.store, data);
    LaterTransitive(v0.store, v.store, w.0);
    LaterGrows(v.store, w.0);
    LaterGrows(v0.store, v.store);
    ReadGrows(c, v0.store.segs, v.store.segs, oldRefs[hash]);
    CopiedGrows(c, v0.store.segs, oldRefs, v.store.segs, w.0.segs, newRefs);
    IndexGrows(c, v.store.segs, w.0.segs, v.index);
    CopiedAdd(c, v0.store.segs, oldRefs, w.0.segs, newRefs, hash, w.1);
    IndexAdd(c, w.0.segs, v.index, hash, w.1);
  }

  lemma LaterGrows(a: Store, b: Store)
    requires Later(a, b)
    ensures Grows(a.segs, b.segs) && a.id <= b.id
  {
  }

  lemma CopiedAdd(c: Crypto, segs0: Segs, oldRefs: Index, segs: Segs, newRefs: Index, hash: Hash, ref: ChunkRef)
    requires Copied(c, segs0, oldRefs, segs, newRefs)
    requires hash in oldRefs && oldRefs[hash].hash == hash && RefOk(c, segs, hash, ref)
    requires Read(c, segs, ref) == Read(c, segs0, oldRefs[hash])
    ensures Copied(c, segs0, oldRefs, segs, newRefs[hash := ref])
  {
    hide Read;
  }

  lemma IndexAdd(c: Crypto, segs: Segs, index: Index, hash: Hash, ref: ChunkRef)
    requires IndexOk(c, segs, index) && RefOk(c, segs, hash, ref)
    ensures IndexOk(c, segs, index[hash := ref])
  {
    hide Read;
  }

  lemma CopyingFacts(env: Env, v0: RepoView, oldRefs: Index, newRefs: Index, firstId: int, v: RepoView)
    requires Copying(env, v0, oldRefs, newRefs, firstId, v)
    ensures v.store.Valid() && Later(v0.store, v.store)
  {
  }

  lemma CopiedGrows(c: Crypto, segs0: Segs, oldRefs: Index, a: Segs, b: Segs, newRefs: Index)
    requires Copied(c, segs0, oldRefs, a, newRefs) && Grows(a, b)
    ensures Copied(c, segs0, oldRefs, b, newRefs)
  {
    hide Read;
    forall h | h in newRefs ensures RefOk(c, b, h, newRefs[h]) && Read(c, b, newRefs[h]) == Read(c, a, newRefs[h]) {
      RefOkGrows(c, a, b, h, newRefs[h]);
      ReadGrows(c, a, b, newRefs[h]);
    }
  }

  lemma IndexGrows(c: Crypto, a: Segs, b: Segs, index: Index)
    requires IndexOk(c, a, index) && Grows(a, b)
    ensures IndexOk(c, b, index)
  {
    hide Read, Grows;
    forall h | h in index ensures RefOk(c, b, h, index[h]) { RefOkGrows(c, a, b, h, index[h]); }
  }

  /** Rotating puts an empty file in front; the copies start there. */
  lemma RotatedStart(env: Env, v0: RepoView, oldRefs: Index)
    requires RepoOk(env, v0)
    ensures var s := if |v0.store.segs[v0.store.id]| > 0 then Rotate(v0.store) else v0.store;
      && Copying(env, v0, oldRefs, map[], s.id, v0.(store := s))
      && (forall k :: k in v0.store.segs && k >= s.id ==> k == v0.store.id && v0.store.segs[k] == [])
  {
    hide Read;
    var s := if |v0.store.segs[v0.store.id]| > 0 then Rotate(v0.store) else v0.store;
    IndexGrows(env.crypto, v0.store.segs, s.segs, v0.index);
  }

  method RewriteAll(repo: Repository, refsByHash: Index, ghost firstId: int, ghost v0: RepoView)
    returns (failed: Option<(Hash, ReadError)>, newRefs: Index)
    requires repo.writer.env == repo.env && repo.env.Sound()
    requires RepoOk(repo.env, v0) && NoCollision(repo.env.crypto, v0.store.segs)
    requires Copying(repo.env, v0, refsByHash, map[], firstId, repo.View())
    requires forall h :: h in refsByHash ==> refsByHash[h].hash == h && Issued(v0.store, refsByHash[h])
    modifies repo`index, repo`trace, repo.writer
    ensures Copying(repo.env, v0, refsByHash, newRefs, firstId, repo.View())
    ensures |repo.trace| >= |old(repo.trace)| && repo.trace[..|old(repo.trace)|] == old(repo.trace)
    ensures CutsOk(repo.env, v0, repo.trace[|old(repo.trace)|..])
    ensures failed.None? ==> newRefs.Keys == refsByHash.Keys
    ensures failed.Some? ==> failed.value.0 in refsByHash && Read(repo.env.crypto, v0.store.segs, refsByHash[failed.value.0]).Err?
  {
    hide Copying, CutOk, RepoOk, NoCollision, Read, WriteChunk, Env.Sound;
    newRefs, failed := map[], None;
    CopyingFacts(repo.env, v0, refsByHash, newRefs, firstId, repo.View());
    var todo := refsByHash.Keys;
    while todo != {}
      invariant todo <= refsByHash.Keys && newRefs.Keys == refsByHash.Keys - todo
      invariant Copying(repo.env, v0, refsByHash, newRefs, firstId, repo.View())
      invariant repo.View().store.Valid()
      invariant |repo.trace| >= |old(repo.trace)| && repo.trace[..|old(repo.trace)|] == old(repo.trace)
      invariant CutsOk(repo.env, v0, repo.trace[|old(repo.trace)|..])
      decreases todo
    {
      var hash := Pick(todo);
      ghost var v, before := repo.View(), repo.trace;
      CopyingFacts(repo.env, v0, refsByHash, newRefs, firstId, v);
      IssuedLater(repo.env.crypto, v0.store, v.store, refsByHash[hash]);
      var newRef := repo.RewriteChunkRef(refsByHash[hash]);
      if newRef.Err? { return Some((hash, newRef.error)), newRefs; }
      ghost var data := Read(repo.env.crypto, v0.store.segs, refsByHash[hash]).value;
      CopyStep(repo.env, v0, refsByHash, newRefs, firstId, v, hash, data);
      CopyingCut(repo.env, v0, refsByHash, newRefs, firstId, v.(store := repo.View().store));
      newRefs, todo := newRefs[hash := newRef.value], todo - {hash};
      CopyingCut(repo.env, v0, refsByHash, newRefs, firstId, repo.View());
      CopyingFacts(repo.env, v0, refsByHash, newRefs, firstId, repo.View());
    }
  }

  /** The innermost loop: every ref whose digest was copied and whose place differs is replaced. */
  method ReplaceRefs(newRefs: Index, chunks: seq<ChunkRef>) returns (r: seq<ChunkRef>, changed: bool)
    ensures r == NewRefs(newRefs, chunks) && (changed <==> r != chunks)
  {
    r, changed := chunks, false;
    for i := 0 to |chunks|
      invariant |r| == |chunks| && r[i..] == chunks[i..]
      invariant forall k :: 0 <= k < i ==> r[k] == NewRef(newRefs, chunks[k])
      invariant changed <==> r != chunks
    {
      var oldRef := chunks[i];
      if oldRef.hash in newRefs && !SameLocation(oldRef, newRefs[oldRef.hash]) {
        r, changed := r[i := newRefs[oldRef.hash]], true;
        assert r[i] != chunks[i];
      }
    }
  }

  method MoveEntries(newRefs: Index, entries: seq<FileEntry>) returns (r: seq<FileEntry>, changed: bool)
    ensures r == MovedEntries(newRefs, entries) && (changed <==> r != entries)
  {
    r, changed := entries, false;
    for i := 0 to |entries|
      invariant |r| == |entries| && r[i..] == entries[i..]
      invariant r[..i] == MovedEntries(newRefs, entries)[..i]
      invariant changed <==> r != entries
    {
      var chunks, c := ReplaceRefs(newRefs, r[i].chunks);
      ghost var before := r;
      r, changed := r[i := r[i].(chunks := chunks)], changed || c;
      assert r[..i + 1] == before[..i] + [r[i]];
      assert c ==> r[i] != entries[i];
      assert !c ==> r == before;
      assert before != entries ==> before[..i] != entries[..i] by {
        if before[..i] == entries[..i] { assert before == before[..i] + before[i..] == entries; }
      }
      assert r[..i] == before[..i];
    }
    assert r[..|entries|] == r && MovedEntries(newRefs, entries)[..|entries|] == MovedEntries(newRefs, entries);
  }

  method MovePacks(newRefs: Index, packs: seq<PackManifest>) returns (r: seq<PackManifest>, changed: bool)
    ensures r == MovedPacks(newRefs, packs) && (changed <==> r != packs)
  {
    r, changed := packs, false;
    for i := 0 to |packs|
      invariant |r| == |packs| && r[i..] == packs[i..]
      invariant r[..i] == MovedPacks(newRefs, packs)[..i]
      invariant changed <==> r != packs
    {
      var chunks, c := ReplaceRefs(newRefs, r[i].chunks);
      ghost var before := r;
      r, changed := r[i := r[i].(chunks := chunks)], changed || c;
      assert r[..i + 1] == before[..i] + [r[i]];
      assert c ==> r[i] != packs[i];
      assert !c ==> r == before;
      assert before != packs ==> before[..i] != packs[..i] by {
        if before[..i] == packs[..i] { assert before == before[..i] + before[i..] == packs; }
      }
      assert r[..i] == before[..i];
    }
    assert r[..|packs|] == r && MovedPacks(newRefs, packs)[..|packs|] == MovedPacks(newRefs, packs);
  }

  method MoveManifest(newRefs: Index, m: Manifest) returns (r: Manifest, changed: bool)
    ensures r == Moved(newRefs, m) && (changed <==> r != m)
  {
    hide MovedEntries, MovedPacks;
    var entries, entriesChanged := MoveEntries(newRefs, m.entries);
    var packs, packsChanged := MovePacks(newRefs, m.packs);
    r, changed := m.(entries := entries, packs := packs), entriesChanged || packsChanged;
  }

  /** The manifests of `ids` point at the copies, the others are as they were. */
  ghost predicate MovedUpTo(v0: RepoView, newRefs: Index, ids: seq<Bytes>, v: RepoView) {
    && v.manifests.Keys == v0.manifests.Keys
    && forall id :: id in v0.manifests ==>
        v.manifests[id] == if id in ids then Moved(newRefs, v0.manifests[id]) else v0.manifests[id]
  }

  lemma MovedUpToCut(env: Env, v0: RepoView, oldRefs: Index, newRefs: Index, firstId: int, vR: RepoView, ids: seq<Bytes>, v: RepoView)
    requires RepoOk(env, v0) && NoCollision(env.crypto, v0.store.segs)
    requires Copying(env, v0, oldRefs, newRefs, firstId, vR)
    requires v == vR.(manifests := v.manifests) && MovedUpTo(v0, newRefs, ids, v) && ToSet(ids) <= v0.Active()
    ensures CutOk(env, v0, v)
  {
    hide Copied, IndexOk, NoCollision, Later, Moved, CutOk;
    forall id | id in ids ensures id in v0.Active() { assert id in ToSet(ids); }
    MovingCut(env, v0, oldRefs, newRefs, v);
  }

  lemma MovedUpToNext(v0: RepoView, newRefs: Index, ids: seq<Bytes>, v: RepoView, id: Bytes)
    requires MovedUpTo(v0, newRefs, ids, v) && id in v0.manifests
    ensures MovedUpTo(v0, newRefs, ids + [id], v.(manifests := v.manifests[id := Moved(newRefs, v0.manifests[id])]))
  {
    hide Moved;
    assert forall x :: x in ids + [id] <==> x in ids || x == id;
  }

  /** Writes back every manifest that changed. `manifests` were read before anything moved. */
  method WriteMoved(repo: Repository, snapshots: seq<Bytes>, manifests: seq<Manifest>, newRefs: Index,
                    ghost v0: RepoView, ghost oldRefs: Index, ghost firstId: int)
    requires RepoOk(repo.env, v0) && NoCollision(repo.env.crypto, v0.store.segs)
    requires Copying(repo.env, v0, oldRefs, newRefs, firstId, repo.View())
    requires ToSet(snapshots) == v0.Active() && |manifests| == |snapshots|
    requires forall i :: 0 <= i < |snapshots| ==> manifests[i] == v0.manifests[snapshots[i]]
    modifies repo`manifests, repo`trace
    ensures repo.View() == old(repo.View()).(manifests := repo.manifests)
    ensures MovedUpTo(v0, newRefs, snapshots, repo.View())
    ensures |repo.trace| >= |old(repo.trace)| && repo.trace[..|old(repo.trace)|] == old(repo.trace)
    ensures CutsOk(repo.env, v0, repo.trace[|old(repo.trace)|..])
  {
    hide Copying, CutOk, NoCollision, IndexOk, Moved;
    ghost var vR := repo.View();
    MovedUpToStart(repo.env, v0, oldRefs, newRefs, firstId, vR);
    for i := 0 to |snapshots|
      invariant repo.View() == vR.(manifests := repo.manifests)
      invariant MovedUpTo(v0, newRefs, snapshots[..i], repo.View())
      invariant |repo.trace| >= |old(repo.trace)| && repo.trace[..|old(repo.trace)|] == old(repo.trace)
      invariant CutsOk(repo.env, v0, repo.trace[|old(repo.trace)|..])
    {
      var id := snapshots[i];
      assert id in ToSet(snapshots);
      assert snapshots[..i + 1] == snapshots[..i] + [id];
      var m, changed := MoveManifest(newRefs, manifests[i]);
      MovedKeepsId(newRefs, manifests[i]);
      MovedUpToNext(v0, newRefs, snapshots[..i], repo.View(), id);
      if changed {
        var ok := repo.WriteManifest(m);
        forall x | x in snapshots[..i + 1] ensures x in v0.Active() { assert x in ToSet(snapshots); }
        MovedUpToCut(repo.env, v0, oldRefs, newRefs, firstId, vR, snapshots[..i + 1], repo.View());
      } else {
        MovedUpToSame(v0, newRefs, snapshots[..i], repo.View(), id);
      }
    }
    assert snapshots[..|snapshots|] == snapshots;
  }

  lemma MovedKeepsId(newRefs: Index, m: Manifest)
    ensures Moved(newRefs, m).id == m.id
  {
  }

  lemma MovedUpToStart(env: Env, v0: RepoView, oldRefs: Index, newRefs: Index, firstId: int, v: RepoView)
    requires Copying(env, v0, oldRefs, newRefs, firstId, v)
    ensures MovedUpTo(v0, newRefs, [], v)
  {
  }

  /** A manifest that no move changes was already what the move makes of it. */
  lemma MovedUpToSame(v0: RepoView, newRefs: Index, ids: seq<Bytes>, v: RepoView, id: Bytes)
    requires MovedUpTo(v0, newRefs, ids, v) && id in v0.manifests && Moved(newRefs, v0.manifests[id]) == v0.manifests[id]
    ensures MovedUpTo(v0, newRefs, ids + [id], v)
  {
    hide Moved;
    assert forall x :: x in ids + [id] <==> x in ids || x == id;
  }

  // ---- compactRepository ----

  /** What was gathered is one readable-or-not ref for each live digest, and no other digest. */
  lemma GatheredAll(env: Env, v0: RepoView, snapshots: seq<Bytes>, ms: seq<Manifest>, refsByHash: Index)
    requires RepoOk(env, v0) && ToSet(snapshots) == v0.Active() && |ms| == |snapshots|
    requires forall i :: 0 <= i < |snapshots| ==> snapshots[i] in v0.manifests && ms[i] == v0.manifests[snapshots[i]]
    requires Noted(ms, refsByHash)
    ensures forall h :: h in refsByHash <==> Live(v0, h)
    ensures forall h :: h in refsByHash ==> refsByHash[h].hash == h && Issued(v0.store, refsByHash[h]) && LiveRef(v0, refsByHash[h])
    ensures AllCopied(v0, refsByHash)
  {
    hide IndexOk, IsLive, LiveIn, Issued;
    forall m ensures m in ms <==> exists id :: id in v0.Active() && v0.manifests[id] == m {
      if m in ms {
        var i :| 0 <= i < |ms| && ms[i] == m;
        assert snapshots[i] in ToSet(snapshots);
      }
      if id :| id in v0.Active() && v0.manifests[id] == m {
        assert id in ToSet(snapshots);
        var i :| 0 <= i < |snapshots| && snapshots[i] == id;
      }
    }
    forall id, ref | id in v0.Active() && IsLive(v0.manifests[id], ref) && ref.hash != [] ensures ref.hash in refsByHash {
      assert v0.manifests[id] in ms;
      LiveRefIsLive(v0.manifests[id], ref);
    }
  }

  lemma LiveRefIsLive(m: Manifest, ref: ChunkRef)
    requires IsLive(m, ref) && ref.hash != []
    ensures LiveIn(m, ref.hash)
  {
    hide IsLive;
  }

  ghost predicate LiveRef(v: RepoView, ref: ChunkRef)
    requires v.Active() <= v.manifests.Keys
  {
    exists id :: id in v.Active() && IsLive(v.manifests[id], ref)
  }

  /** With every copy made and every active manifest moved, the index is cut down to the copies. */
  lemma PrunedCut(env: Env, v0: RepoView, oldRefs: Index, newRefs: Index, firstId: int, vR: RepoView, ids: seq<Bytes>, v: RepoView)
    requires RepoOk(env, v0) && NoCollision(env.crypto, v0.store.segs)
    requires Copying(env, v0, oldRefs, newRefs, firstId, vR)
    requires v == vR.(manifests := v.manifests, index := newRefs) && MovedUpTo(v0, newRefs, ids, v) && ToSet(ids) <= v0.Active()
    ensures CutOk(env, v0, v)
  {
    hide NoCollision, Later, Moved, CutOk, Read;
    forall id | id in ids ensures id in v0.Active() { assert id in ToSet(ids); }
    MovingCut(env, v0, oldRefs, newRefs, v);
  }

  /** Files no copy is in may go, in any order. */
  lemma RemovedCut(env: Env, v0: RepoView, oldRefs: Index, newRefs: Index, firstId: int, vR: RepoView, ids: seq<Bytes>, v: RepoView, gone: set<int>)
    requires env.Sound() && RepoOk(env, v0) && NoCollision(env.crypto, v0.store.segs) && AllCopied(v0, newRefs)
    requires Copying(env, v0, oldRefs, newRefs, firstId, vR)
    requires v == vR.(manifests := v.manifests, index := newRefs) && MovedUpTo(v0, newRefs, ids, v) && ToSet(ids) == v0.Active()
    requires v.store.id !in gone && forall h :: h in newRefs ==> newRefs[h].segment !in gone
    ensures CutOk(env, v0, v.(store := v.store.(segs := v.store.segs - gone)))
  {
    hide NoCollision, Later, Moved, CutOk, Read, AllCopied, IndexOk, Env.Sound;
    forall id ensures id in ids <==> id in v0.Active() { assert id in ids <==> id in ToSet(ids); }
    assert Trimmed(v.store.segs, v.store.segs - gone, newRefs);
    TrimmedCut(env, v0, oldRefs, newRefs, v, v.store.segs - gone);
  }

  /** After the move, a live ref is where the index has its digest. */
  lemma MovedRefsMatch(c: Crypto, segs: Segs, newRefs: Index, m: Manifest, ref: ChunkRef)
    requires IndexOk(c, segs, newRefs)
    requires forall was :: IsLive(m, was) && was.hash != [] ==> was.hash in newRefs
    requires IsLive(Moved(newRefs, m), ref) && ref.hash != []
    ensures ref.hash in newRefs && SameLocation(ref, newRefs[ref.hash])
  {
    hide Moved, Read, IsLive;
    var was := MovedLive(newRefs, m, ref);
    if was.hash in newRefs { assert RefOk(c, segs, was.hash, newRefs[was.hash]); }
  }

  lemma CopiesAreIndexed(c: Crypto, segs0: Segs, oldRefs: Index, segs: Segs, newRefs: Index)
    requires Copied(c, segs0, oldRefs, segs, newRefs)
    ensures IndexOk(c, segs, newRefs) && forall h :: h in newRefs ==> newRefs[h].segment in segs
  {
    hide Read;
  }

  lemma SegmentsLeft(segs: Segs, newRefs: Index, id: int, segs': Segs)
    requires id in segs && forall h :: h in newRefs ==> newRefs[h].segment in segs
    requires segs' == segs - (segs.Keys - ((set h | h in newRefs :: newRefs[h].segment) + {id}))
    ensures segs'.Keys == (set h | h in newRefs :: newRefs[h].segment) + {id}
  {
  }

  lemma CompactedNow(env: Env, v0: RepoView, oldRefs: Index, newRefs: Index, firstId: int, vR: RepoView, ids: seq<Bytes>, v: RepoView)
    requires RepoOk(env, v0) && AllCopied(v0, newRefs) && (forall h :: h in newRefs <==> Live(v0, h))
    requires Copying(env, v0, oldRefs, newRefs, firstId, vR)
    requires forall k :: k in v0.store.segs && k >= firstId ==> k == v0.store.id && v0.store.segs[k] == []
    requires v == vR.(manifests := v.manifests, index := newRefs, store := v.store) && MovedUpTo(v0, newRefs, ids, v) && ToSet(ids) == v0.Active()
    requires v.store.id == vR.store.id
    requires v.store.segs == vR.store.segs - (vR.store.segs.Keys - ((set h | h in newRefs :: newRefs[h].segment) + {vR.store.id}))
    ensures Compacted(v0, v)
  {
    hide Later, Moved, Read, IndexOk, Live, IsLive, Copied;
    CopiesAreIndexed(env.crypto, v0.store.segs, oldRefs, vR.store.segs, newRefs);
    forall id ensures id in ids <==> id in v0.Active() { assert id in ids <==> id in ToSet(ids); }
    forall id, ref | id in v0.Active() && IsLive(v.manifests[id], ref) && ref.hash != []
      ensures ref.hash in v.index && SameLocation(ref, v.index[ref.hash]) && ref.segment in v.store.segs
    {
      MovedRefsMatch(env.crypto, vR.store.segs, newRefs, v0.manifests[id], ref);
    }
    SegmentsLeft(vR.store.segs, newRefs, v.store.id, v.store.segs);
  }

  lemma PrunedIndex(index: Index, newRefs: Index, removed: set<Hash>)
    requires removed == (index + newRefs).Keys - newRefs.Keys
    ensures (index + newRefs) - removed == newRefs && removed == index.Keys - newRefs.Keys
  {
  }

  lemma CutsAppend(env: Env, v0: RepoView, trace: seq<RepoView>, n: nat, trace': seq<RepoView>)
    requires n <= |trace| <= |trace'| && trace'[..|trace|] == trace
    requires CutsOk(env, v0, trace[n..]) && CutsOk(env, v0, trace'[|trace|..])
    ensures CutsOk(env, v0, trace'[n..]) && trace'[..n] == trace[..n]
  {
    hide CutOk;
    forall i | 0 <= i < |trace'[n..]| ensures CutOk(env, v0, trace'[n..][i]) {
      if n + i < |trace| { assert trace'[n + i] == trace[n..][i]; } else { assert trace'[n + i] == trace'[|trace|..][n + i - |trace|]; }
    }
  }

  lemma Unmoved(env: Env, v0: RepoView, trace: seq<RepoView>)
    requires RepoOk(env, v0)
    ensures CutOk(env, v0, v0) && CutsOk(env, v0, trace[|trace|..])
  {
    hide Read, IndexOk;
  }

  lemma OneCut(env: Env, v0: RepoView, trace: seq<RepoView>, n: nat)
    requires |trace| == n + 1 && CutOk(env, v0, trace[n])
    ensures CutsOk(env, v0, trace[n..])
  {
    hide CutOk;
  }

  lemma StoreOk(env: Env, v: RepoView)
    requires RepoOk(env, v)
    ensures v.store.Valid()
  {
    hide IndexOk;
  }

  lemma CutIsOk(env: Env, v0: RepoView, v: RepoView)
    requires CutOk(env, v0, v)
    ensures RepoOk(env, v)
  {
    hide RepoOk;
  }

  lemma CopyingIndex(env: Env, v0: RepoView, oldRefs: Index, newRefs: Index, firstId: int, v: RepoView)
    requires Copying(env, v0, oldRefs, newRefs, firstId, v)
    ensures v.index == v0.index + newRefs && v.store.Valid() && Later(v0.store, v.store)
    ensures v0.store.segs.Keys <= v.store.segs.Keys
  {
    hide Copied, IndexOk;
    assert Grows(v0.store.segs, v.store.segs);
    forall k | k in v0.store.segs.Keys ensures k in v.store.segs { assert k in v0.store.segs; }
  }

  /** The end of a compaction, once everything live has been copied: move the manifests, prune the
      index, remove the files without a copy. */
  method MoveAndTrim(repo: Repository, snapshots: seq<Bytes>, manifests: seq<Manifest>, newRefs: Index,
                     ghost v0: RepoView, ghost oldRefs: Index, ghost firstId: int)
    returns (report: Report)
    requires repo.writer.env == repo.env && repo.env.Sound() && RepoOk(repo.env, v0) && NoCollision(repo.env.crypto, v0.store.segs)
    requires Copying(repo.env, v0, oldRefs, newRefs, firstId, repo.View())
    requires AllCopied(v0, newRefs) && (forall h :: h in newRefs <==> Live(v0, h))
    requires forall k :: k in v0.store.segs && k >= firstId ==> k == v0.store.id && v0.store.segs[k] == []
    requires ToSet(snapshots) == v0.Active() && |manifests| == |snapshots|
    requires forall i :: 0 <= i < |snapshots| ==> snapshots[i] in v0.manifests && manifests[i] == v0.manifests[snapshots[i]]
    modifies repo, repo.writer
    ensures |repo.trace| >= |old(repo.trace)| && repo.trace[..|old(repo.trace)|] == old(repo.trace)
    ensures CutsOk(repo.env, v0, repo.trace[|old(repo.trace)|..]) && CutOk(repo.env, v0, repo.View())
    ensures Compacted(v0, repo.View())
    ensures report.rewritten == repo.index.Keys && report.removedChunks == v0.index.Keys - repo.index.Keys
    ensures v0.store.segs.Keys - repo.writer.segs.Keys <= report.removedSegments
  {
    hide RepoOk, NoCollision, IndexOk, Copying, CutOk, CutsOk, Compacted, Read, Env.Sound, AllCopied, Live, Moved, Later, MovedUpTo, Young;
    ghost var vR, n := repo.View(), |repo.trace|;
    CopyingIndex(repo.env, v0, oldRefs, newRefs, firstId, vR);
    WriteMoved(repo, snapshots, manifests, newRefs, v0, oldRefs, firstId);
    ghost var t1 := repo.trace;

    var removedChunks := repo.DeleteUnreferenced(newRefs.Keys, None);
    NoneYoung();
    PrunedIndex(v0.index, newRefs, removedChunks);
    ghost var vP := repo.View();
    MovedUpToIgnores(v0, newRefs, snapshots, vP.(index := vR.index), vP);
    PrunedCut(repo.env, v0, oldRefs, newRefs, firstId, vR, snapshots, vP);
    ghost var t2 := repo.trace;
    OneCut(repo.env, v0, t2, |t1|);
    CutsAppend(repo.env, v0, t1, n, t2);

    var keepSegments := set h | h in newRefs :: newRefs[h].segment;
    var removedSegments := repo.DeleteSegmentsExcept(keepSegments);
    forall gone: set<int> | gone <= removedSegments
      ensures CutOk(repo.env, v0, vP.(store := vP.store.(segs := vP.store.segs - gone)))
    {
      RemovedCut(repo.env, v0, oldRefs, newRefs, firstId, vR, snapshots, vP, gone);
    }
    TrimCuts(repo.env, v0, vP, t2, repo.trace, removedSegments);
    CutsAppend(repo.env, v0, t2, n, repo.trace);
    MovedUpToIgnores(v0, newRefs, snapshots, vP, repo.View());
    CompactedNow(repo.env, v0, oldRefs, newRefs, firstId, vR, snapshots, repo.View());
    report := Report(newRefs.Keys, removedChunks, removedSegments);
  }

  lemma SameKeysAllCopied(v0: RepoView, a: Index, b: Index)
    requires v0.Active() <= v0.manifests.Keys && AllCopied(v0, a) && a.Keys == b.Keys
    ensures AllCopied(v0, b)
  {
    hide IsLive;
  }

  lemma NoneYoung()
    ensures forall ref :: !Young(ref, None)
  {
  }

  lemma MovedUpToIgnores(v0: RepoView, newRefs: Index, ids: seq<Bytes>, v: RepoView, v': RepoView)
    requires MovedUpTo(v0, newRefs, ids, v) && v'.manifests == v.manifests
    ensures MovedUpTo(v0, newRefs, ids, v')
  {
    hide Moved;
  }

  lemma TrimCuts(env: Env, v0: RepoView, v: RepoView, trace: seq<RepoView>, trace': seq<RepoView>, removed: set<int>)
    requires |trace'| >= |trace|
    requires forall i :: |trace| <= i < |trace'| ==>
        exists gone: set<int> :: gone <= removed && trace'[i] == v.(store := v.store.(segs := v.store.segs - gone))
    requires forall gone: set<int> :: gone <= removed ==> CutOk(env, v0, v.(store := v.store.(segs := v.store.segs - gone)))
    ensures CutsOk(env, v0, trace'[|trace|..])
  {
    hide CutOk;
  }

  /** The snapshots passed in must be all the active ones. Whatever happens, and wherever it stops,
      every active snapshot restores to what it restored to before. */
  method CompactRepository(repo: Repository, snapshots: seq<Bytes>, activeRuns: nat) returns (r: Outcome)
    requires repo.Valid() && NoCollision(repo.env.crypto, repo.writer.segs)
    requires ToSet(snapshots) == repo.View().Active()
    modifies repo, repo.writer
    ensures repo.Valid()
    ensures |repo.trace| >= |old(repo.trace)| && repo.trace[..|old(repo.trace)|] == old(repo.trace)
    ensures CutsOk(repo.env, old(repo.View()), repo.trace[|old(repo.trace)|..]) && CutOk(repo.env, old(repo.View()), repo.View())
    ensures r.ActiveRuns? <==> activeRuns > 0
    ensures r.ActiveRuns? ==> repo.View() == old(repo.View()) && repo.trace == old(repo.trace)
    ensures r.Done? ==>
      Compacted(old(repo.View()), repo.View()) && r.report.rewritten == repo.index.Keys
    ensures r.Done? ==>
      r.report.removedChunks == old(repo.index).Keys - repo.index.Keys
      && old(repo.writer.segs).Keys - repo.writer.segs.Keys <= r.report.removedSegments
    ensures r.RewriteFailed? ==>
      exists ref :: LiveRef(old(repo.View()), ref) && ref.hash == r.hash && Read(repo.env.crypto, old(repo.writer.segs), ref).Err?
  {
    hide RepoOk, NoCollision, IndexOk, Copying, CutOk, CutsOk, Compacted, Read, WriteChunk, Env.Sound, AllCopied, Noted, Live, LiveRef, IsLive, Copied, Later, MovedUpTo;
    ghost var v0, n := repo.View(), |repo.trace|;
    if activeRuns > 0 {
      Unmoved(repo.env, v0, repo.trace);
      return ActiveRuns;
    }
    var manifests, refsByHash := Gather(repo, snapshots);
    GatheredAll(repo.env, v0, snapshots, manifests, refsByHash);

    StoreOk(repo.env, v0);
    repo.RotateSegmentForMaintenance();
    RotatedStart(repo.env, v0, refsByHash);
    ghost var firstId := repo.writer.id;
    CopyingCut(repo.env, v0, refsByHash, map[], firstId, repo.View());
    ghost var t1 := repo.trace;
    OneCut(repo.env, v0, repo.trace, n);

    var failed, newRefs := RewriteAll(repo, refsByHash, firstId, v0);
    CutsAppend(repo.env, v0, t1, n, repo.trace);
    ghost var vR := repo.View();
    CopyingCut(repo.env, v0, refsByHash, newRefs, firstId, vR);
    if failed.Some? {
      CutIsOk(repo.env, v0, vR);
      return RewriteFailed(failed.value.0, failed.value.1);
    }
    ghost var t2 := repo.trace;
    SameKeysAllCopied(v0, refsByHash, newRefs);
    var report := MoveAndTrim(repo, snapshots, manifests, newRefs, v0, refsByHash, firstId);
    CutsAppend(repo.env, v0, t2, n, repo.trace);
    CutIsOk(repo.env, v0, repo.View());
    r := Done(report);
  }
}
