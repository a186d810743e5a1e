/** The agent's chunk catalog is committed without a sync, the server's state with one: what a power loss
    takes back, and when that matters. */
module PowerLoss {
  import opened Base
  import opened Generations
  import opened Protocol
  import opened ProtocolRuns

  /** After a power loss the catalog is an earlier one, and what the agent was doing is over. */
  function Lost(w: World, catalog: map<Hash, nat>): World {
    w.(confirmed := catalog, sync := Idle, running := false, asked := {}, answered := {}, found := {})
  }

  /** What happens until the power is lost, and how far back that takes the catalog. */
  datatype Session = Session(run: seq<World>, steps: seq<Step>, back: nat)

  ghost predicate SessionOk(s: Session) {
    && IsPath(s.run, s.steps) && AllOrderly(s.run, s.steps) && (forall k :: 0 <= k < |s.steps| ==> OwnStamp(s.steps[k]))
    && s.back < |s.run|
  }

  /** The steps that change the catalog ahead of the server's row. */
  predicate Prepares(step: Step) { step.Apply? || step.Reset? }

  /** What is recorded rests on nothing that is lost: a new row on no change of the catalog that went before
      it, and a first row on no catalog that was emptied before it. */
  ghost predicate DurableFirst(s: Session) {
    && SessionOk(s)
    && (forall j, k :: s.back <= j < k < |s.steps| && Prepares(s.steps[j]) ==> !s.steps[k].Upsert?)
    && (forall k :: s.back <= k < |s.steps| && s.steps[k].FirstUpsert? ==> s.run[s.back].confirmed == map[])
  }

  ghost predicate AreSessions(ss: seq<Session>, durable: bool) {
    && ss != [] && (forall i :: 0 <= i < |ss| ==> SessionOk(ss[i]) && (durable ==> DurableFirst(ss[i])))
    && Start(ss[0].run[0])
    && forall i :: 0 < i < |ss| ==> ss[i].run[0] == Lost(Last(ss[i - 1].run), ss[i - 1].run[ss[i - 1].back].confirmed)
  }

  /** All is well at every moment of every session. */
  ghost predicate AllOk(ss: seq<Session>) {
    forall i, k :: 0 <= i < |ss| && 0 <= k < |ss[i].run| ==> CacheOk(ss[i].run[k])
  }

  /** The catalog, were it to come back now, would keep its promise; and as long as no change of it waits to
      be recorded that would be lost with it (`whole`), its promise once that is recorded. */
  ghost predicate StillOk(w: World, catalog: map<Hash, nat>, whole: bool) {
    forall h :: h in catalog ==> (
      && h != [] && catalog[h] <= w.journal.generation && Accounted(w, h, Max(catalog[h], w.lastInvalidation))
      && (whole && w.sync.Applied? ==> Accounted(w, h, Max(catalog[h], w.sync.to))))
  }

  lemma Both(w: World, h: Hash, a: nat, b: nat)
    requires Accounted(w, h, a) && Accounted(w, h, b)
    ensures Accounted(w, h, Max(a, b))
  {
  }

  lemma OwnIsOk(w: World)
    requires Inv(w) && StampsOk(w) && CacheOk(w)
    ensures StillOk(w, w.confirmed, true)
  {
    hide LossOk, Accounted, QueryOk;
    if w.sync.Applied? {
      forall h | h in w.confirmed ensures Accounted(w, h, Max(w.confirmed[h], w.sync.to)) {
        Both(w, h, Max(w.confirmed[h], w.lastInvalidation), w.sync.to);
        AccountedBefore(w, h, Max(Max(w.confirmed[h], w.lastInvalidation), w.sync.to), Max(w.confirmed[h], w.sync.to));
      }
    }
  }

  lemma StaysOk(w: World, step: Step, w': World, catalog: map<Hash, nat>, whole: bool)
    requires Inv(w) && Next(w, step, w') && Orderly(w, step) && StillOk(w, catalog, whole)
    requires (step.Upsert? ==> whole) && (step.FirstUpsert? ==> catalog == map[])
    ensures StillOk(w', catalog, whole && !Prepares(step))
  {
    hide LossOk, IsNewest, IsNewestOf, Accounted, InPending, QueryOk;
    HistoryGrows(w, step, w');
    forall h | h in catalog
      ensures Accounted(w', h, Max(catalog[h], w'.lastInvalidation))
      ensures whole && !Prepares(step) && w'.sync.Applied? ==> Accounted(w', h, Max(catalog[h], w'.sync.to))
    {
      AccountedStays(w, step, w', h, Max(catalog[h], w.lastInvalidation));
      if whole && w.sync.Applied? { AccountedStays(w, step, w', h, Max(catalog[h], w.sync.to)); }
    }
  }

  /** No change of the catalog among the steps from `back` up to `k`. */
  predicate Unprepared(s: Session, k: nat) { forall j :: s.back <= j < k && j < |s.steps| ==> !Prepares(s.steps[j]) }

  lemma {:induction false} CatalogStaysOk(s: Session, k: nat)
    requires DurableFirst(s) && Inv(s.run[0]) && StampsOk(s.run[0]) && CacheOk(s.run[0]) && s.back <= k < |s.run|
    ensures StillOk(s.run[k], s.run[s.back].confirmed, Unprepared(s, k))
    decreases k
  {
    hide Next, Orderly, Inv, StampsOk, CacheOk, StillOk, Prepares, OwnStamp;
    if k == s.back {
      EveryPath(s.run, s.steps, k);
      OwnStampsKeep(s.run, s.steps, k);
      OwnIsOk(s.run[k]);
      assert Unprepared(s, k);
    } else {
      CatalogStaysOk(s, k - 1);
      EveryPath(s.run, s.steps, k - 1);
      StaysOk(s.run[k - 1], s.steps[k - 1], s.run[k], s.run[s.back].confirmed, Unprepared(s, k - 1));
      assert Unprepared(s, k) <==> Unprepared(s, k - 1) && !Prepares(s.steps[k - 1]);
    }
  }

  lemma LostIsOk(w: World, catalog: map<Hash, nat>, whole: bool)
    requires Inv(w) && StillOk(w, catalog, whole)
    ensures Inv(Lost(w, catalog)) && StampsOk(Lost(w, catalog)) && CacheOk(Lost(w, catalog))
  {
    hide LossOk, InPending, DeletedAfter, QueryOk;
    var w' := Lost(w, catalog);
    SameLoss(w, w');
    forall h ensures InPending(w', h) <==> InPending(w, h) { SamePending(w, w', h); }
    forall h | h in catalog ensures Accounted(w', h, Max(catalog[h], w.lastInvalidation)) && Accounted(w', h, w.lastInvalidation) {
      SameAccounted(w, w', h, Max(catalog[h], w.lastInvalidation));
      AccountedBefore(w', h, Max(catalog[h], w.lastInvalidation), w.lastInvalidation);
    }
  }

  lemma SameAccounted(w: World, w': World, h: Hash, after: nat)
    requires w'.index == w.index && w'.pending == w.pending && w'.history == w.history && Accounted(w, h, after)
    ensures Accounted(w', h, after)
  {
  }

  /** However often the power is lost, and whatever the catalog loses each time: as long as nothing was
      recorded that rests on what is lost, each catalog that comes back keeps its promise. */
  lemma {:induction false} EverySessionKeepsTheCache(ss: seq<Session>, i: nat, k: nat)
    requires AreSessions(ss, true) && i < |ss| && k < |ss[i].run|
    ensures Inv(ss[i].run[k]) && StampsOk(ss[i].run[k]) && CacheOk(ss[i].run[k])
    decreases i
  {
    hide Next, Orderly, Inv, StampsOk, CacheOk, StillOk, Prepares, OwnStamp, Start, Lost;
    var s := ss[i];
    if i == 0 {
      StartIsOk(s.run[0]);
    } else {
      var before := ss[i - 1];
      EverySessionKeepsTheCache(ss, i - 1, 0);
      CatalogStaysOk(before, |before.steps|);
      EveryPath(before.run, before.steps, |before.steps|);
      LostIsOk(Last(before.run), before.run[before.back].confirmed, Unprepared(before, |before.steps|));
    }
    EveryPath(s.run, s.steps, k);
    OwnStampsKeep(s.run, s.steps, k);
  }

  /** A catch-up that names one digest, taken in and recorded. */
  lemma TakeOne(run: seq<World>, steps: seq<Step>, h: Hash) returns (run': seq<World>, steps': seq<Step>)
    requires Path(OWN, -1, run, steps) && (var w := Last(run);
      && w.sync == Reading(1) && w.known && w.lastInvalidation == 0 && w.journal == Journal(1, {Deletion(1, h, 0)}, 0) && w.prunes == []
      && w.confirmed == map[h := 0])
    ensures Path(OWN, -1, run', steps') && run'[0] == run[0] && |steps'| == |steps| + 3 && run <= run'
    ensures Last(run') == Last(run).(confirmed := map[], lastInvalidation := 1, sync := Idle)
    ensures steps <= steps'
  {
    hide Path;
    var w := Last(run);
    var a := Answer(0, 1, {h}, true, NoReason);
    assert Since(w.journal.rows, 0, 1) == {Deletion(1, h, 0)};
    assert Hashes({Deletion(1, h, 0)}) == {h} by { assert Deletion(1, h, 0) in {Deletion(1, h, 0)}; }
    run', steps' := Go(OWN, -1, run, steps, AskRows(true), w.(sync := Answered(a)));
    assert Applying(w.confirmed, a) == map[];
    run', steps' := Go(OWN, -1, run', steps', Apply, w.(confirmed := map[], sync := Applied(1)));
    run', steps' := Go(OWN, -1, run', steps', Upsert, w.(confirmed := map[], lastInvalidation := 1, sync := Idle));
  }

  /** The answer that names a deleted digest is applied and recorded, and then the catalog comes back from
      before: the digest is confirmed again, and nothing will ever name it. */
  lemma RecordedButLost(h: Hash) returns (ss: seq<Session>)
    requires h != []
    ensures AreSessions(ss, false) && !AllOk(ss)
    ensures |ss| == 2 && var w := ss[1].run[0]; h in w.confirmed && !Accounted(w, h, w.lastInvalidation)
  {
    hide Path, Next, Orderly, CacheOk, Start;
    var run, steps := ConfirmedAndGone(-1, h);
    JournalOf(h);
    run, steps := Ask(-1, run, steps);
    var back := |steps|;
    ghost var catalog := run[back].confirmed;
    run, steps := TakeOne(run, steps, h);
    AsSession(run, steps, back);
    var w := Lost(Last(run), catalog);
    NotAccounted(w, h);
    ss := [Session(run, steps, back), Session([w], [], 0)];
    assert !CacheOk(ss[1].run[0]);
  }

  lemma AsSession(run: seq<World>, steps: seq<Step>, back: nat)
    requires Path(OWN, -1, run, steps) && run[0] == Nothing() && back < |run|
    ensures SessionOk(Session(run, steps, back)) && Start(run[0])
  {
    hide Next, Orderly;
    PathFromStart(OWN, -1, run, steps);
    forall k | 0 <= k < |steps| ensures OwnStamp(steps[k]) { assert Obeys(OWN, steps[k]); }
  }

  /** The cache keeps its promise over every power loss if and only if the catalog is made durable before an
      answer is recorded. */
  lemma DurableExactly(durable: bool)
    ensures (forall ss: seq<Session> :: AreSessions(ss, durable) ==> AllOk(ss)) <==> durable
  {
    hide AreSessions, CacheOk;
    if durable {
      forall ss: seq<Session> | AreSessions(ss, durable) ensures AllOk(ss) {
        forall i, k | 0 <= i < |ss| && 0 <= k < |ss[i].run| ensures CacheOk(ss[i].run[k]) { EverySessionKeepsTheCache(ss, i, k); }
      }
    } else {
      var ss := RecordedButLost([1]);
    }
  }
}
