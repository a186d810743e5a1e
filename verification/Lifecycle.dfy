/** The life of a repository: storing, accepting, expiring, cleaning, compacting and reopening, in any
    order and cut off anywhere. What was accepted keeps restoring to the same bytes. */
module Lifecycle {
  import opened Base
  import opened Records
  import opened Segments
  import opened Manifests
  import opened PutSpec
  import opened Repositories
  import opened Canonical
  import opened Compaction

  // ---- what a snapshot holds ----

  datatype Content = Content(path: Bytes, kind: EntryType, size: int64, attrs: Attrs, bytes: Option<Bytes>)

  function ContentAt(c: Crypto, segs: Segs, m: Manifest, i: nat): Content
    requires i < |m.entries|
  {
    var e := m.entries[i];
    var restored := Restore(c, segs, m.packs, e);
    Content(e.path, e.kind, e.size, e.attrs, if restored.Ok? then Some(restored.value) else None)
  }

  /** Everything a restore of the snapshot gives back. */
  function Contents(c: Crypto, segs: Segs, m: Manifest): seq<Content> {
    seq(|m.entries|, i requires 0 <= i < |m.entries| => ContentAt(c, segs, m, i))
  }

  /** Every file is there, with the number of bytes its entry claims. */
  ghost predicate Whole(contents: seq<Content>) {
    forall i :: 0 <= i < |contents| && (contents[i].kind == File || contents[i].kind == PackedFile) ==>
      contents[i].bytes.Some? && WrapInt64(|contents[i].bytes.value|) == contents[i].size
  }

  lemma SameContents(c: Crypto, segs: Segs, m: Manifest, segs': Segs, m': Manifest)
    requires SameMeaning(c, segs, m, segs', m') && Whole(Contents(c, segs, m))
    ensures Contents(c, segs', m') == Contents(c, segs, m)
  {
    hide Restore, SameData;
    forall i | 0 <= i < |m.entries| ensures ContentAt(c, segs', m', i) == ContentAt(c, segs, m, i) {
      if HasBytes(m.entries[i]) {
        assert Contents(c, segs, m)[i].bytes.Some?;
        RestoreSame(c, segs, m, segs', m', i);
      } else {
        OthersHaveNone(c, segs, m, i);
        OthersHaveNone(c, segs', m', i);
      }
    }
  }

  lemma OthersHaveNone(c: Crypto, segs: Segs, m: Manifest, i: nat)
    requires i < |m.entries| && !HasBytes(m.entries[i])
    ensures ContentAt(c, segs, m, i).bytes == None
  {
    hide ReadAll, ReadPackedFile;
  }

  // ---- the server's steps ----

  const RUN_PREFIX: Bytes := [0x72, 0x75, 0x6E, 0x2D]  // "run-"

  function RunId(run: nat): (r: Bytes)
    ensures ValidId(r)
  {
    RUN_PREFIX + Decimal(run)
  }

  /** Checks the posted manifest, replaces its refs by the index's, writes it and records the snapshot. None
      when the run has a snapshot already, deleted or not: then nothing is looked at and nothing changes. */
  method AcceptManifest(repo: Repository, run: nat, posted: Manifest) returns (r: Option<Result<Manifest, Rejection>>)
    requires repo.Valid()
    modifies repo`manifests, repo`snapshots, repo`trace
    ensures repo.Valid()
    ensures r.None? <==> RunId(run) in old(repo.snapshots)
    ensures r.Some? ==> Verdict(repo.env.crypto, repo.writer.segs, repo.index, posted.(id := RunId(run)), r.value)
    ensures r.None? || r.value.Err? ==> repo.View() == old(repo.View())
    ensures r.Some? && r.value.Ok? ==> (repo.View() ==
      old(repo.View()).(manifests := old(repo.manifests)[RunId(run) := r.value.value], snapshots := old(repo.snapshots)[RunId(run) := true]))
  {
    hide Verdict, RunId, ValidId, IndexOk, Env.Sound;
    if RunId(run) in repo.snapshots { return None; }
    var checked := CanonicalizeManifestChunks(repo, posted.(id := RunId(run)));
    if checked.Ok? {
      VerdictKeepsId(repo.env.crypto, repo.writer.segs, repo.index, posted.(id := RunId(run)), checked.value);
      AcceptedIsIssued(repo.env.crypto, repo.writer.View(), repo.index, posted.(id := RunId(run)), checked.value);
      var ok := repo.WriteManifest(checked.value);
      repo.snapshots := repo.snapshots[RunId(run) := true];
    }
    r := Some(checked);
  }

  lemma VerdictKeepsId(c: Crypto, segs: Segs, index: Index, m: Manifest, m': Manifest)
    requires Verdict(c, segs, index, m, Ok(m'))
    ensures m'.id == m.id
  {
    hide PacksOk, EntryOk;
  }

  function Expired(snapshots: map<Bytes, bool>, ids: set<Bytes>): map<Bytes, bool> {
    map id | id in snapshots :: snapshots[id] && id !in ids
  }

  method ExpireSnapshots(repo: Repository, ids: seq<Bytes>)
    modifies repo`snapshots
    ensures repo.snapshots == Expired(old(repo.snapshots), ToSet(ids))
    ensures repo.View() == old(repo.View()).(snapshots := repo.snapshots)
  {
    assert Expired(repo.snapshots, ToSet(ids[..0])) == repo.snapshots;
    for i := 0 to |ids|
      invariant repo.snapshots == Expired(old(repo.snapshots), ToSet(ids[..i]))
    {
      assert ids[..i + 1] == ids[..i] + [ids[i]];
      if ids[i] in repo.snapshots { repo.snapshots := repo.snapshots[ids[i] := false]; }
    }
    assert ids[..|ids|] == ids;
  }

  datatype DeletedSnapshot = DeletedSnapshot(manifestRef: Bytes, deletedAt: Option<int>)

  /** Whether a deleted snapshot's manifest is still kept: always when no retention is set. */
  predicate KeepsMetadata(d: DeletedSnapshot, keepDays: nat, deletedCutoff: int) {
    d.manifestRef != [] && (keepDays == 0 || d.deletedAt.None? || d.deletedAt.value > deletedCutoff)
  }

  datatype LiveSets = LiveSets(manifests: set<Bytes>, hashes: set<Hash>)

  /** The manifests of the snapshots, and the digests they need. */
  method SnapshotLiveSets(repo: Repository, snapshots: seq<Bytes>) returns (live: LiveSets)
    requires RepoOk(repo.env, repo.View()) && ToSet(snapshots) == repo.View().Active()
    ensures live.manifests == ToSet(snapshots)
    ensures forall h :: h in live.hashes <==> Live(repo.View(), h)
  {
    hide RepoOk, Live, IsLive, LiveIn, Noted;
    ghost var v := repo.View();
    ActiveOnDisk(repo.env, v);
    var manifests, hashes: set<Hash> := {}, {};
    for i := 0 to |snapshots|
      invariant manifests == ToSet(snapshots[..i])
      invariant forall h :: h in hashes <==> exists j :: 0 <= j < i && snapshots[j] in repo.manifests && LiveIn(repo.manifests[snapshots[j]], h)
    {
      assert snapshots[..i + 1] == snapshots[..i] + [snapshots[i]];
      assert snapshots[i] in ToSet(snapshots);
      var m := repo.ReadManifest(snapshots[i]);
      if m.None? {
        assert false;  // an active snapshot's manifest is on disk under a valid id
      } else {
        manifests := manifests + {snapshots[i]};
        var more := LiveHashes(m.value);
        hashes := hashes + more;
      }
    }
    assert snapshots[..|snapshots|] == snapshots;
    live := LiveSets(manifests, hashes);
    LiveByPosition(v, snapshots);
  }

  lemma ActiveOnDisk(env: Env, v: RepoView)
    requires RepoOk(env, v)
    ensures forall id :: id in v.Active() ==> id in v.manifests && ValidId(id)
  {
    hide IndexOk;
  }

  lemma LiveByPosition(v: RepoView, snapshots: seq<Bytes>)
    requires ToSet(snapshots) == v.Active() && v.Active() <= v.manifests.Keys
    ensures forall h :: Live(v, h) <==> exists j :: 0 <= j < |snapshots| && snapshots[j] in v.manifests && LiveIn(v.manifests[snapshots[j]], h)
  {
    hide LiveIn;
    forall h | Live(v, h) ensures exists j :: 0 <= j < |snapshots| && snapshots[j] in v.manifests && LiveIn(v.manifests[snapshots[j]], h) {
      var id :| id in v.Active() && LiveIn(v.manifests[id], h);
      assert id in ToSet(snapshots);
    }
    forall j | 0 <= j < |snapshots| ensures snapshots[j] in v.Active() { assert snapshots[j] in ToSet(snapshots); }
  }

  method LiveHashes(m: Manifest) returns (hashes: set<Hash>)
    ensures forall h :: h in hashes <==> LiveIn(m, h)
  {
    hide IsLive;
    var refs := ManifestChunkRefs(m);
    hashes := {};
    for k := 0 to |refs|
      invariant forall h :: h in hashes <==> h != [] && exists q :: 0 <= q < k && refs[q].hash == h
    {
      if refs[k].hash != [] { hashes := hashes + {refs[k].hash}; }
    }
    forall h ensures (h != [] && exists q :: 0 <= q < |refs| && refs[q].hash == h) <==> LiveIn(m, h) {
      if ref :| IsLive(m, ref) && ref.hash == h { assert ref in refs; }
      if q :| 0 <= q < |refs| && refs[q].hash == h { assert refs[q] in refs; }
    }
  }

  ghost predicate KeptAmong(deleted: seq<DeletedSnapshot>, keepDays: nat, deletedCutoff: int, id: Bytes) {
    exists d :: d in deleted && d.manifestRef == id && KeepsMetadata(d, keepDays, deletedCutoff)
  }

  lemma NoneKept(keepDays: nat, deletedCutoff: int)
    ensures forall id :: !KeptAmong([], keepDays, deletedCutoff, id)
  {
  }

  lemma KeptSnoc(deleted: seq<DeletedSnapshot>, d: DeletedSnapshot, keepDays: nat, deletedCutoff: int)
    ensures forall id :: (KeptAmong(deleted + [d], keepDays, deletedCutoff, id)
      <==> KeptAmong(deleted, keepDays, deletedCutoff, id) || (d.manifestRef == id && KeepsMetadata(d, keepDays, deletedCutoff)))
  {
    hide KeepsMetadata;
    assert forall x :: x in deleted + [d] <==> x in deleted || x == d;
  }

  datatype CleanupReport = CleanupReport(removedManifests: set<Bytes>, removedChunks: set<Hash>)

  /** Removes manifest files no snapshot needs and index entries no active snapshot needs, both only
      past the grace period. */
  method CleanupErrorBackupData(repo: Repository, active: seq<Bytes>, deleted: seq<DeletedSnapshot>,
                                keepDays: nat, deletedCutoff: int, expired: set<Bytes>, cutoff: int)
    returns (report: CleanupReport)
    requires repo.Valid() && ToSet(active) == repo.View().Active()
    modifies repo`index, repo`manifests, repo`trace
    ensures repo.View() == old(repo.View()).(manifests := old(repo.manifests) - report.removedManifests,
                                             index := old(repo.index) - report.removedChunks)
    ensures repo.Valid() && report.removedManifests !! repo.View().Active()
    ensures |repo.trace| >= |old(repo.trace)| && repo.trace[..|old(repo.trace)|] == old(repo.trace)
    ensures forall i :: |old(repo.trace)| <= i < |repo.trace| ==> Cleaning(repo.env, old(repo.View()), repo.trace[i])
    ensures forall id :: id in report.removedManifests <==> (
      && id in old(repo.manifests) && id in expired && id !in old(repo.View()).Active()
      && !KeptAmong(deleted, keepDays, deletedCutoff, id))
    ensures forall h :: h in report.removedChunks <==> (
      h in old(repo.index) && !Live(old(repo.View()), h) && !Young(old(repo.index)[h], Some(cutoff)))
  {
    hide RepoOk, Live, Young, Env.Sound, KeptAmong, KeepsMetadata;
    ghost var v := repo.View();
    ActiveOnDisk(repo.env, v);
    var live := SnapshotLiveSets(repo, active);
    var keep := live.manifests;
    assert forall id :: !KeptAmong(deleted[..0], keepDays, deletedCutoff, id) by { NoneKept(keepDays, deletedCutoff); }
    for i := 0 to |deleted|
      invariant repo.View() == v && repo.trace == old(repo.trace)
      invariant forall id :: id in keep <==> id in live.manifests || KeptAmong(deleted[..i], keepDays, deletedCutoff, id)
    {
      KeptSnoc(deleted[..i], deleted[i], keepDays, deletedCutoff);
      assert deleted[..i + 1] == deleted[..i] + [deleted[i]];
      if KeepsMetadata(deleted[i], keepDays, deletedCutoff) { keep := keep + {deleted[i].manifestRef}; }
    }
    assert deleted[..|deleted|] == deleted;
    var removedManifests := repo.DeleteManifestsExcept(keep, expired);
    ghost var trace := repo.trace[|old(repo.trace)|..];
    assert removedManifests !! v.Active();
    var removedChunks := repo.DeleteUnreferenced(live.hashes, Some(cutoff));
    report := CleanupReport(removedManifests, removedChunks);
    assert repo.View() == v.(manifests := v.manifests - removedManifests, index := v.index - removedChunks);
    RemovingIsOk(repo.env, v, removedManifests, removedChunks);
    CleaningCuts(repo.env, v, trace, removedManifests);
  }

  /** The disk part-way through a cleanup: manifests of no active snapshot are gone, and perhaps index entries. */
  ghost predicate Cleaning(env: Env, v: RepoView, w: RepoView) {
    RepoOk(env, w) && exists gone: set<Bytes> :: gone !! v.Active() && w == v.(manifests := v.manifests - gone, index := w.index)
  }

  lemma CleaningCuts(env: Env, v: RepoView, trace: seq<RepoView>, removed: set<Bytes>)
    requires RepoOk(env, v) && removed !! v.Active()
    requires forall i :: 0 <= i < |trace| ==>
      exists gone: set<Bytes> :: gone <= removed && trace[i] == v.(manifests := v.manifests - gone)
    ensures forall i :: 0 <= i < |trace| ==> Cleaning(env, v, trace[i])
  {
    hide RepoOk;
    forall i | 0 <= i < |trace| ensures Cleaning(env, v, trace[i]) {
      var gone: set<Bytes> :| gone <= removed && trace[i] == v.(manifests := v.manifests - gone);
      RemovingIsOk(env, v, gone, {});
      assert v.index - {} == v.index;
    }
  }

  lemma RemovingIsOk(env: Env, v: RepoView, removedManifests: set<Bytes>, removedChunks: set<Hash>)
    requires RepoOk(env, v) && removedManifests !! v.Active()
    ensures RepoOk(env, v.(manifests := v.manifests - removedManifests, index := v.index - removedChunks))
  {
    hide Read, AllIssued;
  }

  // ---- whole runs ----

  /** What was promised for each accepted snapshot is what it restores to. */
  ghost predicate Safe(env: Env, v: RepoView, promised: map<Bytes, seq<Content>>) {
    && RepoOk(env, v)
    && forall id :: id in v.Active() ==>
        id in promised && Whole(promised[id]) && Contents(env.crypto, v.store.segs, v.manifests[id]) == promised[id]
  }

  datatype Step =
    | PutChunks(chunks: seq<Bytes>)
    | TornWrite                                     // records on disk, but the index batch never committed
    | Accept(id: Bytes, posted: Manifest, stored: Manifest)
    | ManifestOnly(stored: Manifest)                // written, but the snapshot was never recorded
    | Expire(ids: set<Bytes>)
    | RemoveManifests(removed: set<Bytes>)
    | RemoveIndexed(removed: set<Hash>)
    | CompactUpTo                                   // the disk after any number of a compaction's writes
    | Reopen(written: nat)

  ghost predicate Next(env: Env, v: RepoView, p: map<Bytes, seq<Content>>, step: Step, v': RepoView, p': map<Bytes, seq<Content>>)
    requires v.store.Valid()
  {
    match step
    case PutChunks(chunks) =>
      var r := PutEach(env, v.store, v.index, chunks);
      env.AllStorable(chunks) && v' == v.(store := r.store, index := r.index) && p' == p
    case TornWrite => Later(v.store, v'.store) && v'.store.Valid() && v' == v.(store := v'.store) && p' == p
    case Accept(id, posted, stored) =>
      && ValidId(id) && id !in v.snapshots && Verdict(env.crypto, v.store.segs, v.index, posted.(id := id), Ok(stored))
      && (forall i :: 0 <= i < |stored.entries| ==> PackInMemory(env.crypto, v.store.segs, stored, stored.entries[i]))
      && v' == v.(manifests := v.manifests[id := stored], snapshots := v.snapshots[id := true])
      && p' == p[id := Contents(env.crypto, v.store.segs, stored)]
    case ManifestOnly(stored) =>
      ValidId(stored.id) && stored.id !in v.snapshots && v' == v.(manifests := v.manifests[stored.id := stored]) && p' == p
    case Expire(ids) => v' == v.(snapshots := Expired(v.snapshots, ids)) && p' == p
    case RemoveManifests(removed) => removed !! v.Active() && v' == v.(manifests := v.manifests - removed) && p' == p
    case RemoveIndexed(removed) => v' == v.(index := v.index - removed) && p' == p
    case CompactUpTo => NoCollision(env.crypto, v.store.segs) && CutOk(env, v, v') && p' == p
    case Reopen(written) => v' == v.(store := OpenSpec(env, v.store.segs, v.store.id, written)) && p' == p
  }

  lemma GrowthIsSafe(env: Env, v: RepoView, promised: map<Bytes, seq<Content>>, v': RepoView)
    requires Safe(env, v, promised)
    requires v' == v.(store := v'.store, index := v'.index) && v'.store.Valid()
    requires Later(v.store, v'.store) && IndexOk(env.crypto, v'.store.segs, v'.index)
    ensures Safe(env, v', promised)
  {
    hide Whole, IndexOk, Contents, Read;
    forall id | id in v.Active()
      ensures Contents(env.crypto, v'.store.segs, v.manifests[id]) == promised[id] && AllIssued(v'.store, v.manifests[id])
    {
      GrowthKeepsMeaning(env.crypto, v.store.segs, v'.store.segs, v.manifests[id]);
      SameContents(env.crypto, v.store.segs, v.manifests[id], v'.store.segs, v.manifests[id]);
      IssuedGrows(env.crypto, v.store, v'.store, v.manifests[id]);
    }
  }

  lemma IssuedGrows(c: Crypto, a: Store, b: Store, m: Manifest)
    requires Later(a, b) && AllIssued(a, m)
    ensures AllIssued(b, m)
  {
    hide IsLive, Later, Issued, Read;
    forall ref | IsLive(m, ref) ensures Issued(b, ref) { IssuedLater(c, a, b, ref); }
  }

  lemma AcceptIsSafe(env: Env, v: RepoView, promised: map<Bytes, seq<Content>>, id: Bytes, posted: Manifest, stored: Manifest)
    requires Safe(env, v, promised) && ValidId(id)
    requires Verdict(env.crypto, v.store.segs, v.index, posted.(id := id), Ok(stored))
    requires forall i :: 0 <= i < |stored.entries| ==> PackInMemory(env.crypto, v.store.segs, stored, stored.entries[i])
    ensures Safe(env, v.(manifests := v.manifests[id := stored], snapshots := v.snapshots[id := true]),
                 promised[id := Contents(env.crypto, v.store.segs, stored)])
  {
    hide IndexOk, Verdict, PackInMemory, Restore, AllIssued, ValidId;
    var c, segs := env.crypto, v.store.segs;
    VerdictKeepsId(c, segs, v.index, posted.(id := id), stored);
    AcceptedIsIssued(c, v.store, v.index, posted.(id := id), stored);
    forall i | 0 <= i < |stored.entries| && HasBytes(stored.entries[i])
      ensures Restore(c, segs, stored.packs, stored.entries[i]).Ok?
      ensures WrapInt64(|Restore(c, segs, stored.packs, stored.entries[i]).value|) == stored.entries[i].size
    {
      AcceptedIsRestorable(c, segs, v.index, posted.(id := id), stored, i);
    }
    assert Whole(Contents(c, segs, stored));
  }

  lemma CompactIsSafe(env: Env, v: RepoView, promised: map<Bytes, seq<Content>>, v': RepoView)
    requires Safe(env, v, promised) && CutOk(env, v, v')
    ensures Safe(env, v', promised)
  {
    hide Whole, IndexOk, Contents, SameMeaning, AllIssued;
    forall id | id in v.Active() ensures Contents(env.crypto, v'.store.segs, v'.manifests[id]) == promised[id] {
      SameContents(env.crypto, v.store.segs, v.manifests[id], v'.store.segs, v'.manifests[id]);
    }
  }

  lemma StepIsSafe(env: Env, v: RepoView, p: map<Bytes, seq<Content>>, step: Step, v': RepoView, p': map<Bytes, seq<Content>>)
    requires env.Sound() && Safe(env, v, p) && Next(env, v, p, step, v', p')
    ensures Safe(env, v', p')
  {
    hide Contents, Whole, Verdict, PackInMemory, AllIssued, PutEach, Read, CutOk, NoCollision;
    match step
    case PutChunks(chunks) =>
      PutEachOk(env, v.store, v.index, chunks);
      GrowthIsSafe(env, v, p, v');
    case TornWrite =>
      IndexGrows(env.crypto, v.store.segs, v'.store.segs, v.index);
      GrowthIsSafe(env, v, p, v');
    case Accept(id, posted, stored) => AcceptIsSafe(env, v, p, id, posted, stored);
    case CompactUpTo => CompactIsSafe(env, v, p, v');
    case Reopen(written) =>
      IndexGrows(env.crypto, v.store.segs, v'.store.segs, v.index);
      GrowthIsSafe(env, v, p, v');
    case Expire(ids) => ExpireIsSafe(env, v, p, ids);
    case ManifestOnly(stored) => LeftoverIsSafe(env, v, p, stored);
    case RemoveManifests(removed) => CleanIsSafe(env, v, p, removed, v.index, v');
    case RemoveIndexed(removed) => CleanIsSafe(env, v, p, {}, v'.index, v');
  }

  lemma LeftoverIsSafe(env: Env, v: RepoView, promised: map<Bytes, seq<Content>>, stored: Manifest)
    requires Safe(env, v, promised) && ValidId(stored.id) && stored.id !in v.snapshots
    ensures Safe(env, v.(manifests := v.manifests[stored.id := stored]), promised)
  {
    hide Contents, Whole, IndexOk, AllIssued, ValidId;
  }

  datatype Moment = Moment(view: RepoView, promised: map<Bytes, seq<Content>>)

  ghost predicate IsRun(env: Env, run: seq<Moment>, steps: seq<Step>) {
    && |run| == |steps| + 1 && Safe(env, run[0].view, run[0].promised)
    && forall k :: 0 <= k < |steps| ==> (run[k].view.store.Valid()
        && Next(env, run[k].view, run[k].promised, steps[k], run[k + 1].view, run[k + 1].promised))
  }

  /** In every run, at every moment, every active snapshot restores to exactly what was accepted. */
  lemma {:induction false} EveryRunIsSafe(env: Env, run: seq<Moment>, steps: seq<Step>, k: nat)
    requires env.Sound() && IsRun(env, run, steps) && k < |run|
    ensures Safe(env, run[k].view, run[k].promised)
  {
    hide Safe, Next;
    if k > 0 {
      EveryRunIsSafe(env, run, steps, k - 1);
      StepIsSafe(env, run[k - 1].view, run[k - 1].promised, steps[k - 1], run[k].view, run[k].promised);
    }
  }

  /** Between any two moments of a run in which a snapshot is active, nothing it restores has changed. */
  lemma {:induction false} SnapshotsNeverChange(env: Env, run: seq<Moment>, steps: seq<Step>, i: nat, j: nat, id: Bytes)
    requires env.Sound() && IsRun(env, run, steps) && i <= j < |run|
    requires id in run[i].view.Active() && id in run[j].view.Active()
    ensures id in run[i].view.manifests && id in run[j].view.manifests
    ensures Contents(env.crypto, run[j].view.store.segs, run[j].view.manifests[id])
         == Contents(env.crypto, run[i].view.store.segs, run[i].view.manifests[id])
    ensures Whole(Contents(env.crypto, run[j].view.store.segs, run[j].view.manifests[id]))
  {
    hide Next, Contents, Whole, IndexOk, AllIssued;
    EveryRunIsSafe(env, run, steps, i);
    EveryRunIsSafe(env, run, steps, j);
    PromiseStays(env, run, steps, i, j, id);
  }

  lemma {:induction false} PromiseStays(env: Env, run: seq<Moment>, steps: seq<Step>, i: nat, j: nat, id: Bytes)
    requires IsRun(env, run, steps) && i <= j < |run| && id in run[i].promised && id in run[i].view.snapshots
    ensures id in run[j].view.snapshots && id in run[j].promised && run[j].promised[id] == run[i].promised[id]
  {
    hide Safe, Verdict, PutEach, Contents, NoCollision, PackInMemory, SameMeaning, RepoOk;
    if i < j {
      PromiseStays(env, run, steps, i, j - 1, id);
      assert Next(env, run[j - 1].view, run[j - 1].promised, steps[j - 1], run[j].view, run[j].promised);
    }
  }

  // ---- a maintenance run ----

  datatype Mode = Retention | CompactReport | Verify | CleanupErrors | Compact | FullCleanup

  predicate Expires(mode: Mode) { mode == Retention || mode == CompactReport || mode == Compact || mode == FullCleanup }

  predicate Cleans(mode: Mode) { mode == CleanupErrors || mode == Compact || mode == FullCleanup }

  predicate Compacts(mode: Mode) { mode == Compact || mode == FullCleanup }

  datatype Maintenance = Maintenance(skipped: bool, cleanup: Option<CleanupReport>, compact: Option<Outcome>)

  method ListActiveSnapshots(repo: Repository) returns (active: seq<Bytes>)
    ensures ToSet(active) == repo.View().Active()
  {
    active := [];
    var todo := repo.snapshots.Keys;
    while todo != {}
      invariant todo <= repo.snapshots.Keys
      invariant ToSet(active) == set id | id in repo.snapshots && id !in todo && repo.snapshots[id]
    {
      var id := Pick(todo);
      todo := todo - {id};
      ghost var before := active;
      if repo.snapshots[id] { active := active + [id]; }
      assert ToSet(active) == ToSet(before) + if repo.snapshots[id] then {id} else {};
    }
  }

  lemma ExpireIsSafe(env: Env, v: RepoView, promised: map<Bytes, seq<Content>>, ids: set<Bytes>)
    requires Safe(env, v, promised)
    ensures Safe(env, v.(snapshots := Expired(v.snapshots, ids)), promised)
  {
    hide Contents, Whole, IndexOk, AllIssued;
  }

  lemma CleanIsSafe(env: Env, v: RepoView, promised: map<Bytes, seq<Content>>, removed: set<Bytes>, index: Index, v': RepoView)
    requires Safe(env, v, promised) && RepoOk(env, v') && removed !! v.Active()
    requires v' == v.(manifests := v.manifests - removed, index := index)
    ensures Safe(env, v', promised)
  {
    hide Contents, Whole, IndexOk, AllIssued;
  }

  lemma CleaningIsSafe(env: Env, v: RepoView, promised: map<Bytes, seq<Content>>, cuts: seq<RepoView>)
    requires Safe(env, v, promised) && forall i :: 0 <= i < |cuts| ==> Cleaning(env, v, cuts[i])
    ensures AllSafe(env, cuts, promised)
  {
    hide Safe, RepoOk;
    forall i | 0 <= i < |cuts| ensures Safe(env, cuts[i], promised) {
      var gone: set<Bytes> :| gone !! v.Active() && cuts[i] == v.(manifests := v.manifests - gone, index := cuts[i].index);
      CleanIsSafe(env, v, promised, gone, cuts[i].index, cuts[i]);
    }
  }

  ghost predicate AllSafe(env: Env, cuts: seq<RepoView>, promised: map<Bytes, seq<Content>>) {
    forall i :: 0 <= i < |cuts| ==> Safe(env, cuts[i], promised)
  }

  lemma CutsAreSafe(env: Env, v0: RepoView, cuts: seq<RepoView>, promised: map<Bytes, seq<Content>>)
    requires Safe(env, v0, promised) && CutsOk(env, v0, cuts)
    ensures AllSafe(env, cuts, promised)
  {
    hide Safe, CutOk;
    forall i | 0 <= i < |cuts| ensures Safe(env, cuts[i], promised) { CompactIsSafe(env, v0, promised, cuts[i]); }
  }

  /** Retention, then cleanup, then compaction, as far as the mode asks for them. `gateFree` says no
      upload or run holds the gate; `expire` are the snapshots the policy lets go. After every write to
      the disk every snapshot still active restores to what was promised. */
  method RunStorageMaintenance(repo: Repository, mode: Mode, gateFree: bool, activeRuns: nat, expire: seq<Bytes>,
                               deleted: seq<DeletedSnapshot>, keepDays: nat, deletedCutoff: int, graceOver: set<Bytes>, cutoff: int,
                               ghost promised: map<Bytes, seq<Content>>)
    returns (r: Maintenance)
    requires repo.Valid() && Safe(repo.env, repo.View(), promised) && NoCollision(repo.env.crypto, repo.writer.segs)
    modifies repo, repo.writer
    ensures repo.Valid() && Safe(repo.env, repo.View(), promised)
    ensures |repo.trace| >= |old(repo.trace)| && AllSafe(repo.env, repo.trace[|old(repo.trace)|..], promised)
    ensures r.skipped <==> Compacts(mode) && !gateFree
    ensures r.skipped ==> repo.View() == old(repo.View())
    ensures !r.skipped ==> (
      && repo.snapshots == (if Expires(mode) then Expired(old(repo.snapshots), ToSet(expire)) else old(repo.snapshots))
      && (r.cleanup.Some? <==> Cleans(mode)) && (r.compact.Some? <==> Compacts(mode)))
    ensures !r.skipped && !Compacts(mode) ==> repo.writer.View() == old(repo.writer.View())
  {
    hide RepoOk, Safe, CutsOk, CutOk, NoCollision, Compacted, Live, LiveRef, Young, Env.Sound, Expired, KeptAmong, Read;
    ghost var n := |repo.trace|;
    if Compacts(mode) && !gateFree { return Maintenance(true, None, None); }
    r := Maintenance(false, None, None);
    if Expires(mode) {
      ExpireIsSafe(repo.env, repo.View(), promised, ToSet(expire));
      SafeIsOk(repo.env, repo.View().(snapshots := Expired(repo.snapshots, ToSet(expire))), promised);
      ExpireSnapshots(repo, expire);
    }
    if Cleans(mode) {
      ghost var v := repo.View();
      var active := ListActiveSnapshots(repo);
      var cleanup := CleanupErrorBackupData(repo, active, deleted, keepDays, deletedCutoff, graceOver, cutoff);
      CleanIsSafe(repo.env, v, promised, cleanup.removedManifests, repo.index, repo.View());
      CleaningIsSafe(repo.env, v, promised, repo.trace[n..]);
      r := r.(cleanup := Some(cleanup));
    }
    assert AllSafe(repo.env, repo.trace[n..], promised);
    if Compacts(mode) {
      ghost var v, trace := repo.View(), repo.trace;
      var active := ListActiveSnapshots(repo);
      var compact := CompactRepository(repo, active, activeRuns);
      CutsAreSafe(repo.env, v, repo.trace[|trace|..], promised);
      CompactIsSafe(repo.env, v, promised, repo.View());
      assert repo.trace[n..] == trace[n..] + repo.trace[|trace|..];
      CutKeepsSnapshots(repo.env, v, repo.View());
      r := r.(compact := Some(compact));
    }
  }

  lemma SafeIsOk(env: Env, v: RepoView, promised: map<Bytes, seq<Content>>)
    requires Safe(env, v, promised)
    ensures RepoOk(env, v)
  {
    hide RepoOk;
  }

  lemma CutKeepsSnapshots(env: Env, v0: RepoView, v: RepoView)
    requires CutOk(env, v0, v)
    ensures v.snapshots == v0.snapshots
  {
    hide RepoOk;
  }
}
