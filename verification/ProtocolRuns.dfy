/** Runs of the protocol that go wrong, and that each thing an orderly run avoids has one. */
module ProtocolRuns {
  import opened Base
  import opened Generations
  import opened Protocol

  /** Which stamps an agent gives: by the generation of the digest's own answer, and the stamp. */
  type StampRule = (nat, nat) -> bool

  predicate Obeys(rule: StampRule, step: Step) { step.Mark? ==> rule(step.query.generation, step.stamp) }

  /** A path of steps that obey the rule, all of them orderly, except perhaps number `loose`. */
  ghost predicate Path(rule: StampRule, loose: int, run: seq<World>, steps: seq<Step>): (r: bool)
    ensures r ==> |run| == |steps| + 1
  {
    && IsPath(run, steps) && (forall k :: 0 <= k < |steps| ==> Obeys(rule, steps[k]))
    && forall k :: 0 <= k < |steps| && k != loose ==> Orderly(run[k], steps[k])
  }

  /** The stamping rule keeps the cache promise in every orderly run. */
  ghost predicate KeepsEveryRun(rule: StampRule) {
    forall run: seq<World>, steps: seq<Step> {:trigger IsRun(run, steps)} ::
      IsRun(run, steps) && Path(rule, -1, run, steps) ==> CacheOk(run[|steps|])
  }

  ghost function Last(run: seq<World>): World
    requires run != []
  {
    run[|run| - 1]
  }

  /** One step more. */
  lemma Go(rule: StampRule, loose: int, run: seq<World>, steps: seq<Step>, step: Step, w: World)
    returns (run': seq<World>, steps': seq<Step>)
    requires Path(rule, loose, run, steps) && Next(Last(run), step, w) && Obeys(rule, step)
    requires |steps| == loose || Orderly(Last(run), step)
    ensures Path(rule, loose, run', steps') && run' == run + [w] && steps' == steps + [step] && Last(run') == w && run'[0] == run[0]
  {
    hide Next, Orderly, Obeys;
    run', steps' := run + [w], steps + [step];
  }

  // ---- letting generations pass ----

  /** `x` deleted once for each of the `n` generations after `from`. */
  function RowsOf(x: Hash, from: nat, n: nat): set<Deletion> { set k | from < k <= from + n :: Deletion(k, x, 0) }

  ghost function Later(w: World, x: Hash, n: nat): World {
    var rows := RowsOf(x, w.journal.generation, n);
    w.(journal := w.journal.(generation := w.journal.generation + n, rows := w.journal.rows + rows), history := w.history + rows)
  }

  lemma Round(rule: StampRule, loose: int, run: seq<World>, steps: seq<Step>, x: Hash)
    returns (run': seq<World>, steps': seq<Step>)
    requires Path(rule, loose, run, steps) && Last(run).pending == [] && Last(run).prunes == []
    requires x != [] && x !in Last(run).index
    ensures Path(rule, loose, run', steps') && run'[0] == run[0] && Last(run') == Later(Last(run), x, 1)
    ensures |steps'| == |steps| + 3
  {
    hide Path, Later;
    var w := Last(run);
    var w1 := w.(index := w.index + {x});
    var w2 := w.(pending := [{x}]);
    assert w1.index - {x} == w.index;
    RoundSteps(w, x);
    run', steps' := Go(rule, loose, run, steps, Put({x}), w1);
    run', steps' := Go(rule, loose, run', steps', Delete({x}), w2);
    run', steps' := Go(rule, loose, run', steps', Bump(0, 0), Later(w, x, 1));
  }

  lemma RoundSteps(w: World, x: Hash)
    requires w.pending == [] && w.prunes == [] && x != [] && x !in w.index
    ensures Next(w.(index := w.index + {x}), Delete({x}), w.(pending := [{x}]))
    ensures Next(w.(pending := [{x}]), Bump(0, 0), Later(w, x, 1))
  {
    assert w.index + {x} - {x} == w.index;
    assert RowsOf(x, w.journal.generation, 1) == Rows(w.journal.generation + 1, {x}, 0);
    assert [{x}][..0] + [{x}][1..] == [];
  }

  lemma {:induction false} Rounds(rule: StampRule, loose: int, run: seq<World>, steps: seq<Step>, x: Hash, n: nat)
    returns (run': seq<World>, steps': seq<Step>)
    requires Path(rule, loose, run, steps) && Last(run).pending == [] && Last(run).prunes == []
    requires x != [] && x !in Last(run).index
    ensures Path(rule, loose, run', steps') && run'[0] == run[0] && Last(run') == Later(Last(run), x, n)
    decreases n
  {
    hide Path;
    run', steps' := run, steps;
    var w := Last(run);
    if n > 0 {
      run', steps' := Rounds(rule, loose, run, steps, x, n - 1);
      run', steps' := Round(rule, loose, run', steps', x);
      assert RowsOf(x, w.journal.generation, n) == RowsOf(x, w.journal.generation, n - 1) + RowsOf(x, w.journal.generation + n - 1, 1);
    }
    assert n == 0 ==> RowsOf(x, w.journal.generation, n) == {};
  }

  // ---- pieces of runs ----

  /** The agent meets the server. */
  lemma Meet(rule: StampRule, loose: int, run: seq<World>, steps: seq<Step>) returns (run': seq<World>, steps': seq<Step>)
    requires Path(rule, loose, run, steps) && (var w := Last(run);
      w.sync.Idle? && !w.running && !w.known && (w.confirmed == map[] || loose == |steps| + 1))
    ensures Path(rule, loose, run', steps') && run'[0] == run[0] && |steps'| == |steps| + 2
    ensures var w := Last(run); Last(run') == w.(known := true, lastInvalidation := w.journal.generation)
    ensures steps'[|steps| + 1] == FirstUpsert
  {
    hide Path;
    var w := Last(run);
    var g := w.journal.generation;
    run', steps' := Go(rule, loose, run, steps, Heartbeat(g, 0), w.(sync := Beat(g, 0)));
    run', steps' := Go(rule, loose, run', steps', FirstUpsert, w.(known := true, lastInvalidation := g));
  }

  /** In a run the server is asked for a digest it has. */
  lemma Find(rule: StampRule, loose: int, run: seq<World>, steps: seq<Step>, h: Hash) returns (run': seq<World>, steps': seq<Step>)
    requires Path(rule, loose, run, steps) && (var w := Last(run); w.running && w.asked == {} && h != [] && h in w.index)
    ensures Path(rule, loose, run', steps') && run'[0] == run[0] && |steps'| == |steps| + 2
    ensures var w := Last(run); var q := Query(h, w.journal.generation);
      Last(run') == w.(answered := w.answered + {q}, found := w.found + {q})
  {
    hide Path;
    var w := Last(run);
    var q := Query(h, w.journal.generation);
    run', steps' := Go(rule, loose, run, steps, ReadGeneration(h), w.(asked := {q}));
    assert {q} - {q} == {};
    run', steps' := Go(rule, loose, run', steps', ReadIndex(q), w.(answered := w.answered + {q}, found := w.found + {q}));
  }

  ghost function Gone(w: World, h: Hash, now: int): World {
    w.(index := w.index - {h}, journal := Bumped(w.journal, {h}, now), history := w.history + Rows(w.journal.generation + 1, {h}, now))
  }

  /** The server deletes a digest and says so. */
  lemma Lose(rule: StampRule, loose: int, run: seq<World>, steps: seq<Step>, h: Hash, now: int) returns (run': seq<World>, steps': seq<Step>)
    requires Path(rule, loose, run, steps) && (var w := Last(run);
      h in w.index && w.pending == [] && (loose == |steps| + 1 || Orderly(w, Bump(0, now))))
    ensures Path(rule, loose, run', steps') && run'[0] == run[0] && |steps'| == |steps| + 2 && Last(run') == Gone(Last(run), h, now)
    ensures steps' == steps + [Delete({h}), Bump(0, now)]
  {
    hide Path;
    var w := Last(run);
    assert [{h}][..0] + [{h}][1..] == [];
    run', steps' := Go(rule, loose, run, steps, Delete({h}), w.(index := w.index - {h}, pending := [{h}]));
    run', steps' := Go(rule, loose, run', steps', Bump(0, now), Gone(w, h, now));
  }

  /** A run of the agent begins. */
  lemma Begin(rule: StampRule, loose: int, run: seq<World>, steps: seq<Step>, h: Hash) returns (run': seq<World>, steps': seq<Step>)
    requires Path(rule, loose, run, steps) && (var w := Last(run); w.sync.Idle? && !w.running && h != [])
    ensures Path(rule, loose, run', steps') && run'[0] == run[0] && |steps'| == |steps| + 2
    ensures var w := Last(run); Last(run') == w.(index := w.index + {h}, running := true, base := w.journal.generation)
  {
    hide Path;
    var w := Last(run);
    var g := w.journal.generation;
    run', steps' := Go(rule, loose, run, steps, Put({h}), w.(index := w.index + {h}));
    run', steps' := Go(rule, loose, run', steps', StartRun(g), w.(index := w.index + {h}, running := true, base := g));
  }

  /** The first world: nothing anywhere. */
  function Nothing(): World {
    World({}, [], Journal(0, {}, 0), [], {}, false, 0, map[], Idle, false, 0, {}, {}, {})
  }

  lemma Outset(rule: StampRule, loose: int)
    ensures Path(rule, loose, [Nothing()], []) && Start(Nothing())
  {
  }

  lemma PathFromStart(rule: StampRule, loose: int, run: seq<World>, steps: seq<Step>)
    requires Path(rule, loose, run, steps) && run[0] == Nothing()
    ensures IsRun(run, steps) && (forall k :: 0 <= k < |steps| && k != loose ==> Orderly(run[k], steps[k]))
  {
    hide Next, Orderly;
  }

  // ---- answers put together from several requests ----

  /** The digest is found at generation `g`, deleted right after, and confirmed at `s`: the generation of
      another answer of the same run, put together with its own. */
  lemma CombinedStampBreaksTheCache(rule: StampRule, h: Hash, x: Hash, g: nat, s: nat) returns (run: seq<World>, steps: seq<Step>)
    requires h != [] && x != [] && h != x && g < s && rule(g, s)
    ensures IsRun(run, steps) && Path(rule, -1, run, steps) && !CacheOk(run[|steps|])
    ensures steps != [] && steps[|steps| - 1] == Mark(Query(h, g), {Query(h, g), Query(x, s)}, s)
  {
    hide Path, Next, CacheOk;
    Outset(rule, -1);
    run, steps := Rounds(rule, -1, [Nothing()], [], x, g);
    run, steps := Meet(rule, -1, run, steps);
    run, steps := Begin(rule, -1, run, steps, h);
    run, steps := Find(rule, -1, run, steps, h);
    run, steps := Lose(rule, -1, run, steps, h, 0);
    run, steps := Rounds(rule, -1, run, steps, x, s - g - 1);
    run, steps := MarkTogether(rule, run, steps, h, x, g, s);
    PathFromStart(rule, -1, run, steps);
  }

  lemma MarkTogether(rule: StampRule, run: seq<World>, steps: seq<Step>, h: Hash, x: Hash, g: nat, s: nat)
    returns (run': seq<World>, steps': seq<Step>)
    requires h != [] && x != [] && h != x && g < s && rule(g, s) && Path(rule, -1, run, steps)
    requires var w := Last(run);
      && w.running && w.asked == {} && w.answered == w.found == {Query(h, g)} && w.journal.generation == s
      && h !in w.index && w.pending == [] && forall d :: d in w.history && d.hash == h ==> d.generation <= s
    ensures Path(rule, -1, run', steps') && run'[0] == run[0] && !CacheOk(Last(run'))
    ensures steps' != [] && steps'[|steps'| - 1] == Mark(Query(h, g), {Query(h, g), Query(x, s)}, s)
  {
    hide Path, CacheOk;
    var w := Last(run);
    var q, p := Query(h, g), Query(x, s);
    run', steps' := Go(rule, -1, run, steps, Put({x}), w.(index := w.index + {x}));
    run', steps' := Find(rule, -1, run', steps', x);
    var w1 := Last(run');
    assert w1.answered == {q, p} && q in {q, p} && p in {q, p};
    run', steps' := Go(rule, -1, run', steps', Mark(q, {q, p}, s), w1.(confirmed := w1.confirmed[h := s], found := w1.found - {q}));
    NotAccounted(Last(run'), h);
  }

  /** A digest that is confirmed at a generation it was deleted at or before breaks the promise. */
  lemma NotAccounted(w: World, h: Hash)
    requires h in w.confirmed && h !in w.index && w.pending == []
    requires forall d :: d in w.history && d.hash == h ==> d.generation <= Max(w.confirmed[h], w.lastInvalidation)
    ensures !CacheOk(w)
    ensures (forall d :: d in w.history && d.hash == h ==> d.generation <= w.lastInvalidation) ==> !Accounted(w, h, w.lastInvalidation)
  {
    assert !Accounted(w, h, Max(w.confirmed[h], w.lastInvalidation));
  }

  /** An agent's stamps keep the cache promise in every orderly run if and only if no digest is ever
      confirmed at a newer generation than its own answer's. */
  lemma StampingRuleExactly(rule: StampRule)
    ensures KeepsEveryRun(rule) <==> forall g: nat, s: nat :: rule(g, s) ==> s <= g
  {
    hide Path, CacheOk;
    if forall g: nat, s: nat :: rule(g, s) ==> s <= g {
      forall run: seq<World>, steps: seq<Step> | IsRun(run, steps) && Path(rule, -1, run, steps) ensures CacheOk(run[|steps|]) {
        RuleKeeps(rule, run, steps);
      }
    } else {
      var g: nat, s: nat :| rule(g, s) && s > g;
      var run, steps := CombinedStampBreaksTheCache(rule, [1], [2], g, s);
    }
  }

  lemma RuleKeeps(rule: StampRule, run: seq<World>, steps: seq<Step>)
    requires forall g: nat, s: nat :: rule(g, s) ==> s <= g
    requires IsRun(run, steps) && Path(rule, -1, run, steps)
    ensures CacheOk(run[|steps|])
  {
    hide CacheOk, Next, Orderly, Accounted;
    EveryRunKeepsTheCache(run, steps, |steps|);
  }

  // ---- what an orderly run avoids ----

  const OWN: StampRule := (g, s) => s <= g

  /** All steps but one are orderly, stamps are each answer's own, and yet at the end a confirmed digest is
      gone and nothing will ever tell the agent. */
  ghost predicate GoesWrong(run: seq<World>, steps: seq<Step>, loose: nat, h: Hash) {
    && IsRun(run, steps) && (forall k :: 0 <= k < |steps| && k != loose ==> Orderly(run[k], steps[k]))
    && (forall k :: 0 <= k < |steps| ==> OwnStamp(steps[k]))
    && var w := run[|steps|]; h in w.confirmed && !Accounted(w, h, w.lastInvalidation) && w.sync.Idle?
  }

  lemma WentWrong(loose: nat, run: seq<World>, steps: seq<Step>, h: Hash)
    requires Path(OWN, loose, run, steps) && run[0] == Nothing() && (var w := Last(run);
      h in w.confirmed && h !in w.index && w.pending == [] && w.sync.Idle? && forall d :: d in w.history && d.hash == h ==> d.generation <= w.lastInvalidation)
    ensures GoesWrong(run, steps, loose, h)
  {
    hide Next, Orderly, CacheOk;
    PathFromStart(OWN, loose, run, steps);
    NotAccounted(Last(run), h);
    forall k | 0 <= k < |steps| ensures OwnStamp(steps[k]) { assert Obeys(OWN, steps[k]); }
  }

  /** In a run of the agent `h` is uploaded by someone, found, and confirmed at its own answer's generation. */
  lemma Confirm(loose: int, run: seq<World>, steps: seq<Step>, h: Hash) returns (run': seq<World>, steps': seq<Step>)
    requires Path(OWN, loose, run, steps) && h != [] && (var w := Last(run);
      w.sync.Idle? && !w.running && w.asked == w.answered == w.found == {})
    ensures Path(OWN, loose, run', steps') && run'[0] == run[0] && |steps'| == |steps| + 6
    ensures var w := Last(run); var g := w.journal.generation;
      Last(run') == w.(index := w.index + {h}, base := g, confirmed := w.confirmed[h := g])
  {
    hide Path, Next;
    run', steps' := Begin(OWN, loose, run, steps, h);
    run', steps' := Find(OWN, loose, run', steps', h);
    run', steps' := MarkAndEnd(loose, run', steps', h);
  }

  lemma MarkAndEnd(loose: int, run: seq<World>, steps: seq<Step>, h: Hash) returns (run': seq<World>, steps': seq<Step>)
    requires Path(OWN, loose, run, steps) && (var w := Last(run);
      w.running && w.asked == {} && w.answered == w.found == {Query(h, w.journal.generation)})
    ensures Path(OWN, loose, run', steps') && run'[0] == run[0] && |steps'| == |steps| + 2
    ensures var w := Last(run);
      Last(run') == w.(running := false, answered := {}, found := {}, confirmed := w.confirmed[h := w.journal.generation])
  {
    hide Path;
    var w := Last(run);
    var g := w.journal.generation;
    var q := Query(h, g);
    assert {q} - {q} == {} && q in {q};
    run', steps' := Go(OWN, loose, run, steps, Mark(q, {q}, g), w.(confirmed := w.confirmed[h := g], found := {}));
    run', steps' := Go(OWN, loose, run', steps', EndRun, w.(running := false, answered := {}, found := {}, confirmed := w.confirmed[h := g]));
  }

  /** What the agent does with a complete answer that names nothing. */
  lemma TakeEmpty(loose: int, run: seq<World>, steps: seq<Step>, to: nat) returns (run': seq<World>, steps': seq<Step>)
    requires Path(OWN, loose, run, steps) && (var w := Last(run);
      w.sync == Reading(to) && Since(w.journal.rows, w.lastInvalidation, to) == {} && (loose == |steps| || Orderly(w, AskRows(true))))
    ensures Path(OWN, loose, run', steps') && run'[0] == run[0]
    ensures var w := Last(run);
      Last(run') == w.(confirmed := map h | h in w.confirmed :: to, lastInvalidation := to, sync := Idle)
    ensures steps' == steps + [AskRows(true), Apply, Upsert]
  {
    hide Path, Next, Orderly;
    var w := Last(run);
    EmptyAnswer(w, to);
    var a := Answer(w.lastInvalidation, to, {}, true, NoReason);
    run', steps' := Go(OWN, loose, run, steps, AskRows(true), w.(sync := Answered(a)));
    TakenSteps(w, a);
    var moved := map h | h in w.confirmed :: to;
    run', steps' := Go(OWN, loose, run', steps', Apply, w.(confirmed := moved, sync := Applied(to)));
    run', steps' := Go(OWN, loose, run', steps', Upsert, w.(confirmed := moved, lastInvalidation := to, sync := Idle));
  }

  lemma EmptyAnswer(w: World, to: nat)
    requires w.sync == Reading(to) && Since(w.journal.rows, w.lastInvalidation, to) == {}
    ensures Next(w, AskRows(true), w.(sync := Answered(Answer(w.lastInvalidation, to, {}, true, NoReason))))
  {
    assert Hashes({}) == {};
  }

  lemma TakenSteps(w: World, a: Answer)
    requires a.complete && a.hashes == {}
    ensures var moved := map h | h in w.confirmed :: a.to;
      var w1, w2 := w.(sync := Answered(a)), w.(confirmed := moved, sync := Applied(a.to));
      && Next(w1, Apply, w2) && Next(w2, Upsert, w.(confirmed := moved, lastInvalidation := a.to, sync := Idle))
      && Orderly(w1, Apply) && Orderly(w2, Upsert)
  {
    assert Applying(w.confirmed, a) == map h | h in w.confirmed :: a.to;
  }

  lemma Ask(loose: int, run: seq<World>, steps: seq<Step>) returns (run': seq<World>, steps': seq<Step>)
    requires Path(OWN, loose, run, steps) && (var w := Last(run);
      w.sync.Idle? && !w.running && w.known && w.journal.availableFrom <= w.lastInvalidation < w.journal.generation)
    ensures Path(OWN, loose, run', steps') && run'[0] == run[0] && |steps'| == |steps| + 2
    ensures var w := Last(run); Last(run') == w.(sync := Reading(w.journal.generation))
    ensures steps <= steps'
  {
    hide Path;
    var w := Last(run);
    var g := w.journal.generation;
    run', steps' := Go(OWN, loose, run, steps, Heartbeat(g, 0), w.(sync := Beat(g, 0)));
    run', steps' := Go(OWN, loose, run', steps', AskState, w.(sync := Reading(g)));
  }

  /** The first two statements of a prune of everything there is. */
  lemma Cutting(loose: int, run: seq<World>, steps: seq<Step>, newest: nat) returns (run': seq<World>, steps': seq<Step>)
    requires Path(OWN, loose, run, steps) && (var w := Last(run);
      w.prunes == [] && IsNewest(w.journal.rows, 5, newest) && forall d :: d in w.journal.rows ==> d.createdAt < 5)
    ensures Path(OWN, loose, run', steps') && run'[0] == run[0] && |steps'| == |steps| + 2
    ensures var w := Last(run); Last(run') == w.(journal := w.journal.(rows := {}), prunes := [Cut(newest)])
  {
    hide Path;
    var w := Last(run);
    assert Kept(w.journal.rows, 5) == {};
    run', steps' := Go(OWN, loose, run, steps, PruneSelect(5, newest), w.(prunes := [Selected(5, newest)]));
    run', steps' := Go(OWN, loose, run', steps', PruneDelete(0), w.(journal := w.journal.(rows := {}), prunes := [Cut(newest)]));
  }

  /** `h` was confirmed, then deleted and journaled, and the agent does not know yet. */
  lemma ConfirmedAndGone(loose: int, h: Hash) returns (run: seq<World>, steps: seq<Step>)
    requires h != []
    requires loose !in {1, 9}
    ensures Path(OWN, loose, run, steps) && run[0] == Nothing() && |steps| == 10
    ensures Last(run) == Gone(Nothing().(index := {h}, known := true, confirmed := map[h := 0]), h, 0)
  {
    hide Path, Next;
    Outset(OWN, loose);
    run, steps := Meet(OWN, loose, [Nothing()], []);
    run, steps := Confirm(loose, run, steps, h);
    run, steps := Lose(OWN, loose, run, steps, h, 0);
  }

  /** A catch-up between the second and the third statement of a prune. */
  lemma AskedBetweenDeleteAndRaise(h: Hash) returns (run: seq<World>, steps: seq<Step>, loose: nat)
    requires h != []
    ensures GoesWrong(run, steps, loose, h) && loose < |steps| && steps[loose] == AskRows(true)
  {
    hide Path, Next;
    loose := 14;
    run, steps := ConfirmedAndGone(loose, h);
    JournalOf(h);
    run, steps := Cutting(loose, run, steps, 1);
    run, steps := Ask(loose, run, steps);
    run, steps := TakeEmpty(loose, run, steps, 1);
    WentWrong(loose, run, steps, h);
  }

  lemma JournalOf(h: Hash)
    requires h != []
    ensures Rows(1, {h}, 0) == {Deletion(1, h, 0)}
    ensures IsNewest({Deletion(1, h, 0)}, 5, 1)
  {
  }

  /** A whole prune between the two reads of a catch-up: a transaction around the prune alone would not help. */
  lemma PrunedBetweenReads(h: Hash) returns (run: seq<World>, steps: seq<Step>, loose: nat)
    requires h != []
    ensures GoesWrong(run, steps, loose, h) && loose < |steps| && steps[loose] == AskRows(true)
  {
    hide Path, Next;
    loose := 15;
    run, steps := ConfirmedAndGone(loose, h);
    JournalOf(h);
    run, steps := Ask(loose, run, steps);
    run, steps := Cutting(loose, run, steps, 1);
    run, steps := Raise(loose, run, steps);
    run, steps := TakeEmpty(loose, run, steps, 1);
    WentWrong(loose, run, steps, h);
  }

  lemma Raise(loose: int, run: seq<World>, steps: seq<Step>) returns (run': seq<World>, steps': seq<Step>)
    requires Path(OWN, loose, run, steps) && (var w := Last(run); |w.prunes| == 1 && w.prunes[0].Cut?)
    ensures Path(OWN, loose, run', steps') && run'[0] == run[0] && |steps'| == |steps| + 1
    ensures var w := Last(run); Last(run') == w.(journal := Raised(w.journal, w.prunes[0].newest), prunes := [])
    ensures steps <= steps'
  {
    hide Path;
    var w := Last(run);
    assert w.prunes[..0] + w.prunes[1..] == [];
    run', steps' := Go(OWN, loose, run, steps, PruneRaise(0), w.(journal := Raised(w.journal, w.prunes[0].newest), prunes := []));
  }

  /** A deletion journaled, after a prune has looked, under a time that the prune cuts off. */
  lemma JournaledUnderOldTime(h: Hash) returns (run: seq<World>, steps: seq<Step>, loose: nat)
    requires h != []
    ensures GoesWrong(run, steps, loose, h) && loose < |steps| && steps[loose] == Bump(0, 0)
  {
    hide Path, Next;
    loose := 10;
    Outset(OWN, loose);
    run, steps := Meet(OWN, loose, [Nothing()], []);
    run, steps := Confirm(loose, run, steps, h);
    run, steps := Select(loose, run, steps);
    run, steps := Lose(OWN, loose, run, steps, h, 0);
    JournalOf(h);
    run, steps := CutAway(loose, run, steps);
    run, steps := Raise(loose, run, steps);
    run, steps := Ask(loose, run, steps);
    run, steps := TakeEmpty(loose, run, steps, 1);
    WentWrong(loose, run, steps, h);
  }

  lemma Select(loose: int, run: seq<World>, steps: seq<Step>) returns (run': seq<World>, steps': seq<Step>)
    requires Path(OWN, loose, run, steps) && (var w := Last(run); w.prunes == [] && w.journal.rows == {})
    ensures Path(OWN, loose, run', steps') && run'[0] == run[0] && |steps'| == |steps| + 1
    ensures Last(run') == Last(run).(prunes := [Selected(5, 0)])
  {
    hide Path;
    var w := Last(run);
    run', steps' := Go(OWN, loose, run, steps, PruneSelect(5, 0), w.(prunes := [Selected(5, 0)]));
  }

  lemma CutAway(loose: int, run: seq<World>, steps: seq<Step>) returns (run': seq<World>, steps': seq<Step>)
    requires Path(OWN, loose, run, steps) && (var w := Last(run);
      w.prunes == [Selected(5, 0)] && forall d :: d in w.journal.rows ==> d.createdAt < 5)
    ensures Path(OWN, loose, run', steps') && run'[0] == run[0] && |steps'| == |steps| + 1
    ensures var w := Last(run); Last(run') == w.(journal := w.journal.(rows := {}), prunes := [Cut(0)])
    ensures steps <= steps'
  {
    hide Path;
    var w := Last(run);
    assert Kept(w.journal.rows, 5) == {};
    run', steps' := Go(OWN, loose, run, steps, PruneDelete(0), w.(journal := w.journal.(rows := {}), prunes := [Cut(0)]));
  }

  /** A run before the server was ever recorded, because recording it failed, and the record made later. */
  lemma RecordedAfterARun(h: Hash) returns (run: seq<World>, steps: seq<Step>, loose: nat)
    requires h != []
    ensures GoesWrong(run, steps, loose, h) && loose < |steps| && steps[loose] == FirstUpsert
  {
    hide Path, Next;
    loose := 9;
    Outset(OWN, loose);
    run, steps := Confirm(loose, [Nothing()], [], h);
    run, steps := Lose(OWN, loose, run, steps, h, 0);
    run, steps := Meet(OWN, loose, run, steps);
    WentWrong(loose, run, steps, h);
  }
}
