/** A compaction whose list of snapshots was made before the last manifest was accepted. */
module LateSnapshots {
  import opened Base
  import opened Records
  import opened Segments
  import opened Manifests
  import opened PutSpec
  import opened Repositories
  import opened Canonical
  import opened Compaction
  import opened Lifecycle

  // ---- what is left of a snapshot when files are gone ----

  /** The files that are left hold what they held, and perhaps more. */
  predicate Left(before: Segs, after: Segs) { forall k :: k in before && k in after ==> before[k] <= after[k] }

  /** The refs that restoring the entry reads. */
  function ReadsOf(m: Manifest, e: FileEntry): seq<ChunkRef> {
    match e.kind
    case File => e.chunks
    case PackedFile => if e.pack.Some? && FindPack(m.packs, e.pack.value.id).Some? then FindPack(m.packs, e.pack.value.id).value.chunks else []
    case _ => []
  }

  predicate FilesLeft(segs: Segs, refs: seq<ChunkRef>) { forall k :: 0 <= k < |refs| ==> refs[k].segment in segs }

  /** Every file that restoring the snapshot reads is left. */
  predicate AllFilesLeft(segs: Segs, m: Manifest) { forall e :: e in m.entries ==> FilesLeft(segs, ReadsOf(m, e)) }

  /** A directory, a link, or an empty file: nothing is read to restore it. */
  predicate Chunkless(e: FileEntry) { e.kind != PackedFile && (e.kind == File ==> e.chunks == []) }

  lemma ReadLeft(c: Crypto, before: Segs, after: Segs, ref: ChunkRef)
    requires Left(before, after) && Read(c, before, ref).Ok?
    ensures ref.segment in before && before[ref.segment] != []
    ensures Read(c, after, ref) == if ref.segment in after then Read(c, before, ref) else Err(SegmentMissing)
  {
    hide DecodeRecord;
    if before[ref.segment] == [] { EmptyFileReads(c, before, ref); }
    if ref.segment in after {
      assert after[ref.segment][ref.offset..ref.offset + ref.length] == before[ref.segment][ref.offset..ref.offset + ref.length];
    }
  }

  lemma EmptyFileReads(c: Crypto, segs: Segs, ref: ChunkRef)
    requires ref.segment in segs && segs[ref.segment] == []
    ensures Read(c, segs, ref).Err?
  {
  }

  lemma {:induction false} AllRead(c: Crypto, segs: Segs, refs: seq<ChunkRef>)
    requires ReadAll(c, segs, refs).Ok?
    ensures forall k :: 0 <= k < |refs| ==> Read(c, segs, refs[k]).Ok?
  {
    hide Read;
    if refs != [] { AllRead(c, segs, refs[..|refs| - 1]); }
  }

  lemma AllThere(c: Crypto, segs: Segs, refs: seq<ChunkRef>)
    requires ReadAll(c, segs, refs).Ok?
    ensures FilesLeft(segs, refs) && forall ref :: ref in refs ==> segs[ref.segment] != []
  {
    hide Read;
    AllRead(c, segs, refs);
    forall k | 0 <= k < |refs| ensures refs[k].segment in segs && segs[refs[k].segment] != [] { ReadLeft(c, segs, segs, refs[k]); }
  }

  lemma {:induction false} ReadAllLeft(c: Crypto, before: Segs, after: Segs, refs: seq<ChunkRef>)
    requires Left(before, after) && ReadAll(c, before, refs).Ok?
    ensures ReadAll(c, after, refs).Ok? <==> FilesLeft(after, refs)
    ensures FilesLeft(after, refs) ==> ReadAll(c, after, refs) == ReadAll(c, before, refs)
  {
    hide Read, Left, FilesLeft;
    FilesSnoc(after, refs);
    if refs != [] {
      var n := |refs| - 1;
      ReadAllLeft(c, before, after, refs[..n]);
      ReadLeft(c, before, after, refs[n]);
    }
  }

  lemma FilesSnoc(segs: Segs, refs: seq<ChunkRef>)
    ensures var n := |refs| - 1; FilesLeft(segs, refs) <==> refs == [] || (FilesLeft(segs, refs[..n]) && refs[n].segment in segs)
  {
    if refs != [] { assert refs == refs[..|refs| - 1] + [refs[|refs| - 1]]; }
  }

  lemma ContentStaysExactly(c: Crypto, before: Segs, after: Segs, m: Manifest, i: nat)
    requires Left(before, after) && i < |m.entries| && (HasBytes(m.entries[i]) ==> ContentAt(c, before, m, i).bytes.Some?)
    ensures ContentAt(c, after, m, i) == ContentAt(c, before, m, i) <==> FilesLeft(after, ReadsOf(m, m.entries[i]))
    ensures FilesLeft(before, ReadsOf(m, m.entries[i]))
    ensures forall ref :: ref in ReadsOf(m, m.entries[i]) ==> before[ref.segment] != []
    ensures ReadsOf(m, m.entries[i]) == [] <==> Chunkless(m.entries[i])
  {
    hide Read, ReadAll, Left, UnpackFile, FilesLeft;
    var e := m.entries[i];
    NothingLeft(before);
    NothingLeft(after);
    match e.kind
    case File =>
      AllThere(c, before, e.chunks);
      ReadAllLeft(c, before, after, e.chunks);
    case PackedFile =>
      var pack := FindPack(m.packs, e.pack.value.id).value;
      AllThere(c, before, pack.chunks);
      ReadAllLeft(c, before, after, pack.chunks);
      EmptyReads(c, before);
      NoDataNoIndex(e);
    case _ =>
  }

  lemma NothingLeft(segs: Segs)
    ensures FilesLeft(segs, [])
  {
  }

  lemma EmptyReads(c: Crypto, segs: Segs)
    ensures ReadAll(c, segs, []) == Ok([])
  {
  }

  lemma NoDataNoIndex(e: FileEntry)
    requires e.pack.Some?
    ensures UnpackFile([], e).Err?
  {
  }

  /** With some files gone a snapshot restores what it did if and only if the files it reads are there. */
  lemma SnapshotStaysExactly(c: Crypto, before: Segs, after: Segs, m: Manifest)
    requires Left(before, after) && Whole(Contents(c, before, m))
    ensures Contents(c, after, m) == Contents(c, before, m) <==> AllFilesLeft(after, m)
    ensures AllFilesLeft(before, m)
    ensures AllNew(before, after) ==> (AllFilesLeft(after, m) <==> forall e :: e in m.entries ==> Chunkless(e))
  {
    hide ContentAt, ReadsOf, Left, Chunkless;
    forall i | 0 <= i < |m.entries|
      ensures ContentAt(c, after, m, i) == ContentAt(c, before, m, i) <==> FilesLeft(after, ReadsOf(m, m.entries[i]))
      ensures FilesLeft(before, ReadsOf(m, m.entries[i]))
      ensures AllNew(before, after) ==> (FilesLeft(after, ReadsOf(m, m.entries[i])) <==> Chunkless(m.entries[i]))
    {
      assert Contents(c, before, m)[i] == ContentAt(c, before, m, i);
      KindOf(c, before, m, i);
      ContentStaysExactly(c, before, after, m, i);
      if AllNew(before, after) { NoneLeft(before, after, ReadsOf(m, m.entries[i])); }
    }
    ContentsEqual(c, before, after, m);
  }

  /** No file is left from before, but for the open one if it was empty. */
  ghost predicate AllNew(before: Segs, after: Segs) {
    forall k :: k in after && k in before ==> before[k] == []
  }

  lemma NoneLeft(before: Segs, after: Segs, refs: seq<ChunkRef>)
    requires AllNew(before, after) && FilesLeft(before, refs) && forall ref :: ref in refs ==> before[ref.segment] != []
    ensures FilesLeft(after, refs) <==> refs == []
  {
    if refs != [] { assert refs[0] in refs && refs[0].segment !in after; }
  }

  lemma KindOf(c: Crypto, segs: Segs, m: Manifest, i: nat)
    requires i < |m.entries|
    ensures ContentAt(c, segs, m, i).kind == m.entries[i].kind
  {
  }

  lemma ContentsEqual(c: Crypto, before: Segs, after: Segs, m: Manifest)
    ensures Contents(c, after, m) == Contents(c, before, m) <==> forall i :: 0 <= i < |m.entries| ==> ContentAt(c, after, m, i) == ContentAt(c, before, m, i)
  {
    hide ContentAt;
    var a, b := Contents(c, after, m), Contents(c, before, m);
    assert forall i :: 0 <= i < |m.entries| ==> a[i] == ContentAt(c, after, m, i) && b[i] == ContentAt(c, before, m, i);
  }

  // ---- compaction with a list that is out of date ----

  /** The repository as a list sees it that lacks `late`. */
  function Unlisted(v: RepoView, late: set<Bytes>): RepoView { v.(snapshots := Expired(v.snapshots, late)) }

  /** Wherever a compaction stops that was not told of a snapshot: the snapshot restores what it did if and
      only if the files it reads are left, and so as long as no file has been removed. */
  lemma LateSnapshotAtEveryCut(env: Env, v0: RepoView, promised: map<Bytes, seq<Content>>, late: set<Bytes>, v: RepoView, id: Bytes)
    requires Safe(env, v0, promised) && id in late && late <= v0.Active() && CutOk(env, Unlisted(v0, late), v)
    ensures id in v.manifests && v.manifests[id] == v0.manifests[id]
    ensures Contents(env.crypto, v.store.segs, v.manifests[id]) == promised[id] <==> AllFilesLeft(v.store.segs, v.manifests[id])
    ensures v0.store.segs.Keys <= v.store.segs.Keys ==> Contents(env.crypto, v.store.segs, v.manifests[id]) == promised[id]
  {
    hide Contents, Whole, IndexOk, AllIssued, SameMeaning, ReadsOf;
    SnapshotStaysExactly(env.crypto, v0.store.segs, v.store.segs, v0.manifests[id]);
  }

  /** A compaction that runs to its end leaves it none of its chunks: it restores what it did if and only if
      it has none. */
  lemma LateSnapshotSurvivesExactly(env: Env, v0: RepoView, promised: map<Bytes, seq<Content>>, late: set<Bytes>, v: RepoView, id: Bytes)
    requires Safe(env, v0, promised) && id in late && late <= v0.Active()
    requires CutOk(env, Unlisted(v0, late), v) && Compacted(Unlisted(v0, late), v)
    ensures id in v.manifests && v.manifests[id] == v0.manifests[id]
    ensures Contents(env.crypto, v.store.segs, v.manifests[id]) == promised[id] <==> forall e :: e in v.manifests[id].entries ==> Chunkless(e)
  {
    hide Contents, Whole, IndexOk, AllIssued, SameMeaning, ReadsOf, Live, IsLive, Chunkless, AllFilesLeft;
    SnapshotStaysExactly(env.crypto, v0.store.segs, v.store.segs, v0.manifests[id]);
  }

  /** Where a compaction with this list may stop. */
  ghost predicate StopOk(c: Crypto, v0: RepoView, promised: map<Bytes, seq<Content>>, listed: seq<Bytes>, v: RepoView) {
    && v.snapshots == v0.snapshots
    && (forall id :: id in listed ==> id in v.manifests && id in promised && Contents(c, v.store.segs, v.manifests[id]) == promised[id])
    && forall id :: id in v0.Active() && id !in listed ==> (
        && id in v0.manifests && id in v.manifests && id in promised && v.manifests[id] == v0.manifests[id]
        && (Contents(c, v.store.segs, v.manifests[id]) == promised[id] <==> AllFilesLeft(v.store.segs, v.manifests[id]))
        && (v0.store.segs.Keys <= v.store.segs.Keys ==> Contents(c, v.store.segs, v.manifests[id]) == promised[id]))
  }

  lemma CutStopsOk(env: Env, v0: RepoView, promised: map<Bytes, seq<Content>>, listed: seq<Bytes>, late: set<Bytes>, v: RepoView)
    requires Safe(env, v0, promised) && ToSet(listed) <= v0.Active() && late == v0.Active() - ToSet(listed)
    requires CutOk(env, Unlisted(v0, late), v)
    ensures StopOk(env.crypto, v0, promised, listed, v.(snapshots := v0.snapshots))
  {
    hide Contents, Whole, IndexOk, AllIssued, SameMeaning, AllFilesLeft, CutOk;
    ExpireIsSafe(env, v0, promised, late);
    CompactIsSafe(env, Unlisted(v0, late), promised, v);
    CutKeepsSnapshots(env, Unlisted(v0, late), v);
    OnlyListed(v0, late, ToSet(listed));
    forall id | id in listed ensures id in v.Active() { assert id in ToSet(listed); }
    forall id | id in v0.Active() && id !in listed
      ensures id in v.manifests && v.manifests[id] == v0.manifests[id]
      ensures Contents(env.crypto, v.store.segs, v.manifests[id]) == promised[id] <==> AllFilesLeft(v.store.segs, v.manifests[id])
      ensures v0.store.segs.Keys <= v.store.segs.Keys ==> Contents(env.crypto, v.store.segs, v.manifests[id]) == promised[id]
    {
      LateSnapshotAtEveryCut(env, v0, promised, late, v, id);
    }
  }

  lemma OnlyListed(v: RepoView, late: set<Bytes>, listed: set<Bytes>)
    requires late == v.Active() - listed && listed <= v.Active()
    ensures Unlisted(v, late).Active() == listed
  {
  }

  /** Compaction looks at the list it is given and not at the snapshots: those in the list are safe wherever
      it stops, and of the others those with a chunk are lost when it finishes. */
  method CompactListed(repo: Repository, listed: seq<Bytes>, activeRuns: nat, ghost promised: map<Bytes, seq<Content>>) returns (r: Outcome)
    requires repo.Valid() && Safe(repo.env, repo.View(), promised) && NoCollision(repo.env.crypto, repo.writer.segs)
    requires ToSet(listed) <= repo.View().Active()
    modifies repo, repo.writer
    ensures |repo.trace| >= |old(repo.trace)| && repo.trace[..|old(repo.trace)|] == old(repo.trace)
    ensures forall i :: |old(repo.trace)| <= i < |repo.trace| ==> StopOk(repo.env.crypto, old(repo.View()), promised, listed, repo.trace[i])
    ensures StopOk(repo.env.crypto, old(repo.View()), promised, listed, repo.View())
    ensures r.ActiveRuns? <==> activeRuns > 0
    ensures r.ActiveRuns? ==> repo.View() == old(repo.View())
    ensures r.Done? ==> forall id :: id in repo.View().Active() && id !in listed ==> (id in repo.manifests && id in promised
      && (Contents(repo.env.crypto, repo.writer.segs, repo.manifests[id]) == promised[id] <==> forall e :: e in repo.manifests[id].entries ==> Chunkless(e)))
    ensures r.RewriteFailed? ==> listed != []
  {
    hide Contents, Whole, Compacted, CutOk, NoCollision, IndexOk, AllIssued, Chunkless, RepoOk, Expired, StopOk, AllFilesLeft;
    ghost var v0, n := repo.View(), |repo.trace|;
    var snapshots := repo.snapshots;
    var late := (set id | id in snapshots && snapshots[id]) - ToSet(listed);
    assert late == v0.Active() - ToSet(listed);
    ExpireIsSafe(repo.env, v0, promised, late);
    SafeIsOk(repo.env, Unlisted(v0, late), promised);
    repo.snapshots := Expired(snapshots, late);
    OnlyListed(v0, late, ToSet(listed));
    r := CompactRepository(repo, listed, activeRuns);
    ghost var v, cuts := repo.View(), repo.trace[n..];
    CutStopsOk(repo.env, v0, promised, listed, late, v);
    forall i | 0 <= i < |cuts| ensures StopOk(repo.env.crypto, v0, promised, listed, cuts[i].(snapshots := snapshots)) {
      CutStopsOk(repo.env, v0, promised, listed, late, cuts[i]);
    }
    if r.Done? {
      forall id | id in late
        ensures id in v.manifests
        ensures Contents(repo.env.crypto, v.store.segs, v.manifests[id]) == promised[id] <==> forall e :: e in v.manifests[id].entries ==> Chunkless(e)
      {
        LateSnapshotSurvivesExactly(repo.env, v0, promised, late, v, id);
      }
    }
    repo.snapshots := snapshots;
    repo.trace := repo.trace[..n] + seq(|cuts|, i requires 0 <= i < |cuts| => cuts[i].(snapshots := snapshots));
  }

  /** What nothing rules out: the snapshots are listed, a manifest is accepted and its run ends, the active
      runs are counted, and the compaction starts from the list. */
  method AcceptBeforeCounting(repo: Repository, run: nat, posted: Manifest, ghost promised: map<Bytes, seq<Content>>)
    returns (accepted: Option<Result<Manifest, Rejection>>, r: Outcome)
    requires repo.Valid() && Safe(repo.env, repo.View(), promised) && NoCollision(repo.env.crypto, repo.writer.segs)
    requires var m := Canonicalized(repo.index, posted.(id := RunId(run)));
      forall i :: 0 <= i < |m.entries| ==> PackInMemory(repo.env.crypto, repo.writer.segs, m, m.entries[i])
    modifies repo, repo.writer
    ensures accepted.None? <==> RunId(run) in old(repo.snapshots)
    ensures accepted.Some? ==> (
      Verdict(repo.env.crypto, old(repo.writer.segs), old(repo.index), posted.(id := RunId(run)), accepted.value))
    ensures !r.ActiveRuns? && (r.RewriteFailed? ==> old(repo.View().Active()) != {})
    ensures accepted.Some? && accepted.value.Ok? ==> (
      && repo.snapshots == old(repo.snapshots)[RunId(run) := true]
      && RunId(run) in repo.manifests && repo.manifests[RunId(run)] == accepted.value.value)
    ensures accepted.Some? && accepted.value.Ok? && r.Done? ==> (
      Contents(repo.env.crypto, repo.writer.segs, repo.manifests[RunId(run)])
      == Contents(repo.env.crypto, old(repo.writer.segs), accepted.value.value)
      <==> forall e :: e in repo.manifests[RunId(run)].entries ==> Chunkless(e))
  {
    hide Contents, Whole, NoCollision, Verdict, PackInMemory, Canonicalized, RepoOk, RunId, Chunkless, IndexOk, AllFilesLeft;
    ghost var v := repo.View();
    var listed := ListActiveSnapshots(repo);
    accepted := AcceptManifest(repo, run, posted);
    ghost var promised' := promised;
    assert forall id :: id in listed <==> id in ToSet(listed);
    if accepted.Some? && accepted.value.Ok? {
      AcceptedIsCanonical(repo.env.crypto, v.store.segs, v.index, posted.(id := RunId(run)), accepted.value.value);
      AcceptIsSafe(repo.env, v, promised, RunId(run), posted, accepted.value.value);
      promised' := promised[RunId(run) := Contents(repo.env.crypto, v.store.segs, accepted.value.value)];
    }
    assert ToSet(listed) <= repo.View().Active();
    assert ToSet(listed) == {} ==> listed == [] by { if listed != [] { assert listed[0] in ToSet(listed); } }
    ghost var v1 := repo.View();
    r := CompactListed(repo, listed, 0, promised');
    if accepted.Some? && accepted.value.Ok? { assert RunId(run) in v1.Active() && RunId(run) !in listed; }
  }

  lemma AcceptedIsCanonical(c: Crypto, segs: Segs, index: Index, m: Manifest, m': Manifest)
    requires Verdict(c, segs, index, m, Ok(m'))
    ensures m' == Canonicalized(index, m)
  {
  }

  // ---- one snapshot that is lost ----

  /** A repository that holds one chunk and nothing else. */
  function Holding(env: Env, data: Bytes): Puts { PutEach(env, OpenSpec(env, map[], 1, 0), map[], [data]) }

  function OneFile(env: Env, path: Bytes, data: Bytes, attrs: Attrs): Manifest
    requires |data| < TWO63
  {
    Manifest([], [], [FileEntry(path, File, |data|, attrs, [ChunkRef(env.crypto.hash(data), 0, 0, 0, |data|, 0, 0)], None)])
  }

  lemma HoldingIt(env: Env, data: Bytes)
    requires env.Sound() && env.crypto.Storable(data)
    ensures var p, h := Holding(env, data), env.crypto.hash(data);
      && IndexOk(env.crypto, p.store.segs, p.index) && h in p.index && |h| == 32
      && p.index[h].originalSize == |data| && Read(env.crypto, p.store.segs, p.index[h]) == Ok(data)
    ensures Safe(env, RepoView(Holding(env, data).store, Holding(env, data).index, map[], map[]), map[]) && |data| < TWO63
  {
    assert |data| < TWO63;
    hide PutOne, WriteChunk, Read, Crypto.Storable;
    var s := OpenSpec(env, map[], 1, 0);
    assert [data][..0] == [];
    PutOneOk(env, s, map[], data);
    assert PutEach(env, s, map[], []) == Puts(s, map[], []);
    assert env.crypto.hash(data) in Holding(env, data).index && Holding(env, data).store.Valid();
  }

  /** Its manifest is accepted, and restores. */
  lemma OneFileIsAccepted(env: Env, path: Bytes, data: Bytes, attrs: Attrs, id: Bytes, v: Result<Manifest, Rejection>)
    requires env.Sound() && env.crypto.Storable(data)
    requires Verdict(env.crypto, Holding(env, data).store.segs, Holding(env, data).index, OneFile(env, path, data, attrs).(id := id), v)
    ensures v == Ok(Canonicalized(Holding(env, data).index, OneFile(env, path, data, attrs).(id := id)))
    ensures v.value.packs == [] && |v.value.entries| == 1 && v.value.entries[0].kind == File && |v.value.entries[0].chunks| == 1
    ensures Restore(env.crypto, Holding(env, data).store.segs, [], v.value.entries[0]) == Ok(data)
  {
    HoldingIt(env, data);
    assert |data| < TWO63;
    hide Read, Holding, OneFile, Crypto.Storable, MissingExactly, PacksOk, EntryOk, Canonicalized, Restore;
    OneFileIs(env, path, data, attrs, id, Holding(env, data).store.segs, Holding(env, data).index);
    VerdictIsOne(env.crypto, Holding(env, data).store.segs, Holding(env, data).index, OneFile(env, path, data, attrs).(id := id), v,
                 Ok(Canonicalized(Holding(env, data).index, OneFile(env, path, data, attrs).(id := id))));
  }

  lemma OneFileIs(env: Env, path: Bytes, data: Bytes, attrs: Attrs, id: Bytes, segs: Segs, index: Index)
    requires |data| < TWO63 && (var h := env.crypto.hash(data);
      |h| == 32 && h in index && index[h].originalSize == |data| && Read(env.crypto, segs, index[h]) == Ok(data))
    ensures var m := OneFile(env, path, data, attrs).(id := id); var m' := Canonicalized(index, m);
      && Verdict(env.crypto, segs, index, m, Ok(m')) && m'.packs == [] && |m'.entries| == 1
      && m'.entries[0].kind == File && |m'.entries[0].chunks| == 1 && Restore(env.crypto, segs, [], m'.entries[0]) == Ok(data)
  {
    hide Read;
    var m := OneFile(env, path, data, attrs).(id := id);
    var refs, ref := m.entries[0].chunks, index[env.crypto.hash(data)];
    assert EntryOk(env.crypto, segs, index, m, 0) by { OneSize(index, refs); }
    assert Complete(index, m, 1) && m.packs == [];
    assert PacksOk(env.crypto, segs, index, m);
    assert AllIndexed(index, refs) == [ref];
    assert ReadAll(env.crypto, segs, [ref]) == Ok(data) by {
      assert [ref][..0] == [] && [] + data == data;
      assert ReadAll(env.crypto, segs, []) == Ok([]);
    }
  }

  lemma NoPacksInMemory(env: Env, path: Bytes, data: Bytes, attrs: Attrs, id: Bytes, segs: Segs, index: Index)
    requires |data| < TWO63
    ensures var m := Canonicalized(index, OneFile(env, path, data, attrs).(id := id));
      forall i :: 0 <= i < |m.entries| ==> PackInMemory(env.crypto, segs, m, m.entries[i])
  {
  }

  lemma OneSize(index: Index, refs: seq<ChunkRef>)
    requires |refs| == 1 && refs[0].hash in index && 0 <= index[refs[0].hash].originalSize < TWO63
    ensures Total(index, refs) == index[refs[0].hash].originalSize
  {
    assert refs[..0] == [] && Total(index, []) == 0;
  }

  lemma OneFileDiffers(c: Crypto, before: Segs, after: Segs, m: Manifest, data: Bytes)
    requires |m.entries| == 1 && Restore(c, before, m.packs, m.entries[0]) == Ok(data)
    requires Contents(c, after, m) != Contents(c, before, m)
    ensures Restore(c, after, m.packs, m.entries[0]) != Ok(data)
  {
    hide Restore;
    ContentsEqual(c, before, after, m);
  }

  /** One chunk is stored, the snapshots are listed, a manifest with one file of that chunk is accepted, no
      run is active, and the compaction runs to its end: the snapshot is active, and its file does not restore any more. */
  method AcceptedAndLost(env: Env, path: Bytes, data: Bytes, attrs: Attrs) returns (repo: Repository)
    requires env.Sound() && env.crypto.Storable(data) && NoCollision(env.crypto, Holding(env, data).store.segs)
    ensures repo.View().Active() == {RunId(1)} && RunId(1) in repo.manifests && |repo.manifests[RunId(1)].entries| == 1
    ensures var m := repo.manifests[RunId(1)];
      && Restore(env.crypto, Holding(env, data).store.segs, m.packs, m.entries[0]) == Ok(data)
      && Restore(env.crypto, repo.writer.segs, m.packs, m.entries[0]) != Ok(data)
  {
    hide Safe, NoCollision, IndexOk, PackInMemory, Read, Contents, Verdict, Canonicalized, OneFile, Restore, Crypto.Storable, PutEach, RunId;
    repo := new Repository(env, map[], [], 0, map[], map[], map[]);
    var results := repo.PutChunks([data]);
    HoldingIt(env, data);
    assert Puts(repo.writer.View(), repo.index, results) == Holding(env, data);
    assert repo.View() == RepoView(Holding(env, data).store, Holding(env, data).index, map[], map[]);
    SafeIsOk(env, repo.View(), map[]);
    assert repo.View().Active() == {};
    NoPacksInMemory(env, path, data, attrs, RunId(1), repo.writer.segs, repo.index);
    var posted := OneFile(env, path, data, attrs);
    var accepted, outcome := AcceptBeforeCounting(repo, 1, posted, map[]);
    OneFileIsAccepted(env, path, data, attrs, RunId(1), accepted.value);
    ghost var m := accepted.value.value;
    assert m.entries[0] in m.entries && !Chunkless(m.entries[0]);
    OneFileDiffers(env.crypto, Holding(env, data).store.segs, repo.writer.segs, accepted.value.value, data);
  }
}
