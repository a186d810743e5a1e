/** The agent's cache of what the server holds, and the server that deletes, bumps, prunes and answers,
    in every interleaving. */
module Protocol {
  import opened Base
  import opened Generations

  /** A check or an upload on its way: the generation the server read first, and the digest. */
  datatype Query = Query(hash: Hash, generation: nat)

  /** A prune under way: after its first statement, and after its second. One that is never finished stays here. */
  datatype Prune = Selected(cutoff: int, newest: nat) | Cut(newest: nat)

  /** Where a sync of the catalog stands. */
  datatype Sync =
    | Idle
    | Beat(generation: nat, availableFrom: nat)       // the heartbeat came in
    | Reading(to: nat)                                // the server has read its state for a catch-up, not the rows
    | Answered(answer: Answer)                        // the invalidations came in
    | Applied(to: nat)                                // the catalog has been updated, the server's row has not

  datatype World = World(
    index: set<Hash>,
    pending: seq<set<Hash>>,      // deleted from the index, not bumped yet
    journal: Journal,
    prunes: seq<Prune>,
    history: set<Deletion>,       // every row ever journaled
    known: bool,                  // the agent has a row for this server
    lastInvalidation: nat,
    confirmed: map<Hash, nat>,    // digest to the generation it was confirmed at
    sync: Sync,
    running: bool,                // a backup run is under way
    base: nat,                    // the generation it started from
    asked: set<Query>,            // the server has read the generation, not the index yet
    answered: set<Query>,         // the run has the answer
    found: set<Query>)            // the server has it, the agent has not noted it yet

  datatype Step =
    | Put(hashes: set<Hash>)                   // anyone's upload
    | Delete(hashes: set<Hash>)                // cleanup or compaction prunes the index
    | Bump(i: nat, now: int)                   // and later journals what it deleted
    | PruneSelect(cutoff: int, newest: nat)    // the three statements of a prune
    | PruneDelete(i: nat)
    | PruneRaise(i: nat)
    | Heartbeat(generation: nat, availableFrom: nat)
    | FirstUpsert                              // no row yet: start from the heartbeat's generation
    | Reset                                    // the heartbeat names another repository: the catalog is emptied
    | AskState                                 // the two reads of a catch-up
    | AskRows(complete: bool)
    | Apply
    | Upsert
    | GiveUp                                   // the sync ends or fails where it is; or the agent restarts
    | StartRun(base: nat)                      // whether the sync before it worked or not
    | ReadGeneration(hash: Hash)               // the first half of answering a check or an upload
    | ReadIndex(query: Query)                  // a check was answered
    | PutChunk(query: Query)                   // an upload stored it
    | Mark(query: Query, combined: set<Query>, stamp: nat)  // confirmed at the newest of the answers put together
    | MarkAtBase(query: Query)                 // confirmed at the run's own generation
    | Unmark(hash: Hash)                       // noted as missing
    | EndRun

  ghost predicate InPending(w: World, h: Hash) { exists i :: 0 <= i < |w.pending| && h in w.pending[i] }

  ghost predicate DeletedAfter(w: World, h: Hash, after: nat) {
    exists d :: d in w.history && d.hash == h && d.generation > after
  }

  /** The server has it, or is about to say it is gone, or has said so after generation `after`. */
  ghost predicate Accounted(w: World, h: Hash, after: nat) {
    h in w.index || InPending(w, h) || DeletedAfter(w, h, after)
  }

  function Applying(confirmed: map<Hash, nat>, a: Answer): map<Hash, nat> {
    map h | h in confirmed && h !in a.hashes :: a.to
  }

  /** The newest generation among the answers. */
  ghost predicate IsNewestOf(combined: set<Query>, stamp: nat) {
    (forall q :: q in combined ==> q.generation <= stamp) && exists q :: q in combined && q.generation == stamp
  }

  ghost predicate Next(w: World, step: Step, w': World) {
    match step
    case Put(hashes) => (forall h :: h in hashes ==> h != []) && w' == w.(index := w.index + hashes)
    case Delete(hashes) =>
      {} != hashes <= w.index && w' == w.(index := w.index - hashes, pending := w.pending + [hashes])
    case Bump(i, now) =>
      && i < |w.pending|
      && w' == w.(pending := w.pending[..i] + w.pending[i + 1..], journal := Bumped(w.journal, w.pending[i], now),
                  history := w.history + Rows(w.journal.generation + 1, w.pending[i], now))
    case PruneSelect(cutoff, newest) =>
      IsNewest(w.journal.rows, cutoff, newest) && w' == w.(prunes := w.prunes + [Selected(cutoff, newest)])
    case PruneDelete(i) =>
      && i < |w.prunes| && w.prunes[i].Selected?
      && w' == w.(journal := Half(w.journal, w.prunes[i].cutoff), prunes := w.prunes[i := Cut(w.prunes[i].newest)])
    case PruneRaise(i) =>
      && i < |w.prunes| && w.prunes[i].Cut?
      && w' == w.(journal := Raised(w.journal, w.prunes[i].newest), prunes := w.prunes[..i] + w.prunes[i + 1..])
    case Heartbeat(generation, availableFrom) =>  // a sync may come back to an older heartbeat
      && w.sync.Idle? && !w.running && generation <= w.journal.generation && availableFrom <= w.journal.availableFrom
      && w' == w.(sync := Beat(generation, availableFrom))
    case FirstUpsert =>
      w.sync.Beat? && !w.known && w' == w.(known := true, lastInvalidation := w.sync.generation, sync := Idle)
    case Reset =>
      w.sync.Beat? && w.known && w' == w.(confirmed := map[], sync := Applied(w.sync.generation))
    case AskState =>
      && w.sync.Beat? && w.known && w.sync.generation > w.lastInvalidation && w.lastInvalidation >= w.sync.availableFrom
      && w' == w.(sync := if w.lastInvalidation < w.journal.availableFrom
                          then Answered(Answer(w.lastInvalidation, w.journal.generation, {}, false, JournalCompacted))
                          else Reading(w.journal.generation))
    case AskRows(complete) =>  // the rows were counted in between: there may have been too many
      && w.sync.Reading? && w' == w.(sync := Answered(AnswerOf(w, complete)))
    case Apply =>
      && w.sync.Answered? && w.sync.answer.complete
      && w' == w.(confirmed := Applying(w.confirmed, w.sync.answer), sync := Applied(w.sync.answer.to))
    case Upsert => w.sync.Applied? && w' == w.(lastInvalidation := w.sync.to, sync := Idle)
    case GiveUp => w' == w.(sync := Idle, running := false, asked := {}, answered := {}, found := {})
    case StartRun(base) =>
      w.sync.Idle? && !w.running && base <= w.journal.generation && w' == w.(running := true, base := base)
    case ReadGeneration(hash) => w.running && hash != [] && w' == w.(asked := w.asked + {Query(hash, w.journal.generation)})
    case ReadIndex(query) =>
      && query in w.asked
      && w' == w.(asked := w.asked - {query}, answered := w.answered + {query},
                  found := if query.hash in w.index then w.found + {query} else w.found)
    case PutChunk(query) =>
      && query in w.asked
      && w' == w.(index := w.index + {query.hash}, asked := w.asked - {query}, answered := w.answered + {query}, found := w.found + {query})
    case Mark(query, combined, stamp) =>
      && query in w.found && query in combined && combined <= w.answered && IsNewestOf(combined, stamp)
      && w' == w.(confirmed := w.confirmed[query.hash := stamp], found := w.found - {query})
    case MarkAtBase(query) =>
      query in w.found && w' == w.(confirmed := w.confirmed[query.hash := w.base], found := w.found - {query})
    case Unmark(hash) => w.running && w' == w.(confirmed := w.confirmed - {hash})
    case EndRun => w.running && w' == w.(running := false, asked := {}, answered := {}, found := {})
  }

  ghost function AnswerOf(w: World, complete: bool): Answer
    requires w.sync.Reading?
  {
    Answer(w.lastInvalidation, w.sync.to, if complete then Hashes(Since(w.journal.rows, w.lastInvalidation, w.sync.to)) else {},
           complete, if complete then NoReason else ResponseLimitExceeded)
  }

  /** The steps the code does not keep apart, kept apart. A catch-up reads rows only while the journal is
      whole from the agent's last generation on, no prune under way having cut beyond it. A deletion is not
      journaled under a time before the cutoff of a prune that has already looked. And the first record of
      a server is made while nothing is confirmed. */
  ghost predicate Orderly(w: World, step: Step) {
    && (step.AskRows? && step.complete ==> WholeSince(w, w.lastInvalidation))
    && (step.Bump? ==> forall k :: 0 <= k < |w.prunes| && w.prunes[k].Selected? ==> step.now >= w.prunes[k].cutoff)
    && (step.FirstUpsert? ==> w.confirmed == map[])
  }

  predicate WholeSince(w: World, since: nat) {
    w.journal.availableFrom <= since && forall k :: 0 <= k < |w.prunes| && w.prunes[k].Cut? ==> w.prunes[k].newest <= since
  }

  /** What the journal has lost is below `availableFrom`, or below what some prune is about to raise it to. */
  ghost predicate LossOk(w: World) {
    && w.journal.rows <= w.history && w.journal.availableFrom <= w.journal.generation
    && (forall d :: d in w.history ==> 1 <= d.generation <= w.journal.generation)
    && (forall d :: d in w.history ==> d in w.journal.rows || d.generation <= w.journal.availableFrom || BeingCut(w, d.generation))
    && (forall k :: 0 <= k < |w.prunes| ==> w.prunes[k].newest <= w.journal.generation && SelectionOk(w, w.prunes[k]))
  }

  ghost predicate BeingCut(w: World, generation: nat) {
    exists k :: 0 <= k < |w.prunes| && w.prunes[k].Cut? && generation <= w.prunes[k].newest
  }

  ghost predicate SelectionOk(w: World, p: Prune) {
    p.Selected? ==> forall d :: d in w.journal.rows && d.createdAt < p.cutoff ==> d.generation <= p.newest
  }

  /** The invariant of every reachable state. */
  ghost predicate Inv(w: World) {
    && LossOk(w)
    && w.lastInvalidation <= w.journal.generation && w.base <= w.journal.generation
    && (forall h :: h in w.index || InPending(w, h) ==> h != [])
    && (w.running ==> w.sync.Idle?) && (w.asked + w.answered + w.found != {} ==> w.running)
    && SyncOk(w)
    && (forall q :: q in w.asked || q in w.answered || q in w.found ==> QueryOk(w, q))
    && (forall q :: q in w.found ==> Accounted(w, q.hash, q.generation))
    && (forall h :: h in w.confirmed ==> h != [] && Accounted(w, h, w.lastInvalidation))
  }

  predicate QueryOk(w: World, q: Query) {
    w.lastInvalidation <= q.generation <= w.journal.generation && w.base <= q.generation && q.hash != []
  }

  /** An answer on its way has every deletion since the agent's last one. */
  ghost predicate SyncOk(w: World) {
    match w.sync
    case Idle => true
    case Beat(generation, _) => generation <= w.journal.generation
    case Reading(to) => w.known && w.lastInvalidation < to <= w.journal.generation
    case Answered(a) =>
      && w.known && a.from == w.lastInvalidation <= a.to <= w.journal.generation
      && (a.complete ==> a.hashes == Hashes(Since(w.history, a.from, a.to)))
    case Applied(to) =>
      && w.known && to <= w.journal.generation
      && forall h :: h in w.confirmed ==> Accounted(w, h, to)
  }

  /** What the cache promises of each digest: the server has it, or its deletion is yet to be journaled,
      or it was journaled after both the confirmation and the last applied answer. */
  ghost predicate CacheOk(w: World) {
    forall h :: h in w.confirmed ==> Accounted(w, h, Max(w.confirmed[h], w.lastInvalidation))
  }

  function Max(a: nat, b: nat): nat { if a > b then a else b }

  /** The stamp is no newer than the server's own answer: every answer to a single request. */
  predicate OwnStamp(step: Step) {
    step.Mark? ==> step.stamp <= step.query.generation
  }

  lemma AccountedStays(w: World, step: Step, w': World, h: Hash, after: nat)
    requires Next(w, step, w') && h != [] && after <= w.journal.generation && Accounted(w, h, after)
    ensures Accounted(w', h, after)
  {
    hide IsNewest;
    if step.Bump? {
      BumpAccounts(w, step.i, step.now, w', h, after);
    } else if step.Delete? {
      DeleteAccounts(w, step.hashes, w', h);
    } else {
      assert w'.history == w.history && w'.pending == w.pending && w.index <= w'.index;
    }
  }

  lemma DeleteAccounts(w: World, hashes: set<Hash>, w': World, h: Hash)
    requires w' == w.(index := w.index - hashes, pending := w.pending + [hashes])
    ensures h in w.index ==> h in w'.index || InPending(w', h)
    ensures InPending(w, h) ==> InPending(w', h)
  {
    assert w'.pending[|w.pending|] == hashes;
    if i :| 0 <= i < |w.pending| && h in w.pending[i] { assert w'.pending[i] == w.pending[i]; }
  }

  lemma BumpAccounts(w: World, i: nat, now: int, w': World, h: Hash, after: nat)
    requires Next(w, Bump(i, now), w') && h != [] && after <= w.journal.generation && Accounted(w, h, after)
    ensures Accounted(w', h, after)
  {
    if k :| 0 <= k < |w.pending| && h in w.pending[k] {
      if k == i {
        assert Deletion(w.journal.generation + 1, h, now) in w'.history;
      } else {
        var k' := if k < i then k else k - 1;
        assert w'.pending[k'] == w.pending[k];
      }
    }
  }

  /** A complete answer, applied: whatever it does not name is accounted for after it. */
  lemma ApplyAccounts(w: World, h: Hash)
    requires Inv(w) && w.sync.Answered? && w.sync.answer.complete
    requires h in w.confirmed && h !in w.sync.answer.hashes
    ensures Accounted(w, h, w.sync.answer.to)
  {
    hide LossOk;
    var a := w.sync.answer;
    if !(h in w.index || InPending(w, h)) {
      var d :| d in w.history && d.hash == h && d.generation > w.lastInvalidation;
      assert d.generation <= a.to ==> d in Since(w.history, a.from, a.to);
    }
  }

  // ---- the journal and its prunes ----

  lemma HistoryGrows(w: World, step: Step, w': World)
    requires Next(w, step, w')
    ensures w.history <= w'.history && w'.journal.generation >= w.journal.generation
    ensures forall d :: d in w'.history && d !in w.history ==> d.generation > w.journal.generation
  {
    hide IsNewest;
  }

  lemma BumpLoses(w: World, step: Step, w': World)
    requires LossOk(w) && Next(w, step, w') && Orderly(w, step) && step.Bump?
    ensures LossOk(w')
  {
    forall d | d in w'.history ensures d in w'.journal.rows || d.generation <= w'.journal.availableFrom || BeingCut(w', d.generation) {
      if d in w.history && BeingCut(w, d.generation) { assert BeingCut(w', d.generation); }
    }
    forall k | 0 <= k < |w'.prunes| ensures SelectionOk(w', w'.prunes[k]) { assert SelectionOk(w, w.prunes[k]); }
  }

  lemma SelectLoses(w: World, step: Step, w': World)
    requires LossOk(w) && Next(w, step, w') && step.PruneSelect?
    ensures LossOk(w')
  {
    forall d | d in w'.history ensures d in w'.journal.rows || d.generation <= w'.journal.availableFrom || BeingCut(w', d.generation) {
      if k :| 0 <= k < |w.prunes| && w.prunes[k].Cut? && d.generation <= w.prunes[k].newest { assert w'.prunes[k] == w.prunes[k]; }
    }
    forall k | 0 <= k < |w'.prunes| ensures SelectionOk(w', w'.prunes[k]) {
      if k < |w.prunes| { assert SelectionOk(w, w.prunes[k]); }
    }
  }

  lemma DeleteLoses(w: World, step: Step, w': World)
    requires LossOk(w) && Next(w, step, w') && step.PruneDelete?
    ensures LossOk(w')
  {
    var i := step.i;
    assert SelectionOk(w, w.prunes[i]);
    forall d | d in w'.history ensures d in w'.journal.rows || d.generation <= w'.journal.availableFrom || BeingCut(w', d.generation) {
      if k :| 0 <= k < |w.prunes| && w.prunes[k].Cut? && d.generation <= w.prunes[k].newest { assert w'.prunes[k] == w.prunes[k]; }
      if d in w.journal.rows && d !in w'.journal.rows { assert w'.prunes[i].Cut? && d.generation <= w'.prunes[i].newest; }
    }
    forall k | 0 <= k < |w'.prunes| ensures w'.prunes[k].newest <= w'.journal.generation && SelectionOk(w', w'.prunes[k]) {
      assert SelectionOk(w, w.prunes[k]);
    }
  }

  lemma RaiseLoses(w: World, step: Step, w': World)
    requires LossOk(w) && Next(w, step, w') && step.PruneRaise?
    ensures LossOk(w')
  {
    var i := step.i;
    forall d | d in w'.history ensures d in w'.journal.rows || d.generation <= w'.journal.availableFrom || BeingCut(w', d.generation) {
      if k :| 0 <= k < |w.prunes| && w.prunes[k].Cut? && d.generation <= w.prunes[k].newest {
        if k != i { assert w'.prunes[if k < i then k else k - 1] == w.prunes[k]; }
      }
    }
    forall k | 0 <= k < |w'.prunes| ensures w'.prunes[k].newest <= w'.journal.generation && SelectionOk(w', w'.prunes[k]) {
      assert SelectionOk(w, w.prunes[if k < i then k else k + 1]);
    }
  }

  lemma LossStays(w: World, step: Step, w': World)
    requires LossOk(w) && Next(w, step, w') && Orderly(w, step)
    ensures LossOk(w')
  {
    hide IsNewest;
    if step.Bump? { BumpLoses(w, step, w'); }
    else if step.PruneSelect? { SelectLoses(w, step, w'); }
    else if step.PruneDelete? { DeleteLoses(w, step, w'); }
    else if step.PruneRaise? { RaiseLoses(w, step, w'); }
    else { SameLoss(w, w'); }
  }

  lemma SameLoss(w: World, w': World)
    requires LossOk(w) && w'.journal == w.journal && w'.prunes == w.prunes && w'.history == w.history
    ensures LossOk(w')
  {
    forall g: nat | BeingCut(w, g) ensures BeingCut(w', g) { }
    forall k | 0 <= k < |w.prunes| ensures SelectionOk(w', w.prunes[k]) { assert SelectionOk(w, w.prunes[k]); }
  }

  /** Rows read while the journal is whole are all there ever were. */
  lemma WholeReads(w: World, to: nat)
    requires LossOk(w) && WholeSince(w, w.lastInvalidation)
    ensures Since(w.journal.rows, w.lastInvalidation, to) == Since(w.history, w.lastInvalidation, to)
  {
    forall d | d in Since(w.history, w.lastInvalidation, to) ensures d in w.journal.rows {
      assert !BeingCut(w, d.generation);
    }
  }

  /** Nothing coming in between, the two reads give what ChunkInvalidationsSince gives. */
  lemma AskedInOneGo(w: World, limit: int, a: Answer, w1: World, w2: World)
    requires Next(w, AskState, w1) && IsAnswer(w.journal, w.lastInvalidation, limit, a) && w.lastInvalidation < w.journal.generation
    requires w2 == w.(sync := Answered(a))
    ensures w1 == w2 || Next(w1, AskRows(a.complete), w2)
  {
  }

  // ---- every step keeps the invariant ----

  lemma NonEmptyStays(w: World, step: Step, w': World)
    requires Inv(w) && Next(w, step, w')
    ensures forall h :: h in w'.index || InPending(w', h) ==> h != []
  {
    hide LossOk, IsNewest, SyncOk, Accounted;
    forall h | h in w'.index || InPending(w', h) ensures h != [] {
      if h !in w'.index {
        var k :| 0 <= k < |w'.pending| && h in w'.pending[k];
        if step.Delete? {
          if k < |w.pending| { assert h in w.pending[k]; } else { assert h in w.index; }
        } else if step.Bump? {
          assert h in w.pending[if k < step.i then k else k + 1];
        } else {
          assert h in w.pending[k];
        }
      }
    }
  }

  lemma SinceStays(w: World, w': World, from: nat, to: nat)
    requires w.history <= w'.history && to <= w.journal.generation
    requires forall d :: d in w'.history && d !in w.history ==> d.generation > w.journal.generation
    ensures Since(w'.history, from, to) == Since(w.history, from, to)
  {
  }

  lemma SyncStays(w: World, step: Step, w': World)
    requires Inv(w) && Next(w, step, w') && Orderly(w, step)
    ensures SyncOk(w')
  {
    hide LossOk, IsNewest, IsNewestOf, Accounted, Since, Hashes, InPending, WholeSince, Orderly;
    match w'.sync
    case Idle =>
    case Beat(_, _) => HistoryGrows(w, step, w');
    case Reading(_) => HistoryGrows(w, step, w');
    case Answered(_) => AnsweredStays(w, step, w');
    case Applied(_) => AppliedStays(w, step, w');
  }

  lemma AnsweredStays(w: World, step: Step, w': World)
    requires Inv(w) && Next(w, step, w') && Orderly(w, step) && w'.sync.Answered?
    ensures SyncOk(w')
  {
    hide LossOk, IsNewest, IsNewestOf, Accounted, Since, Hashes, InPending, WholeSince;
    var a := w'.sync.answer;
    HistoryGrows(w, step, w');
    if step.AskRows? {
      if a.complete { WholeReads(w, a.to); }
    } else if !step.AskState? {
      SinceStays(w, w', a.from, a.to);
    }
  }

  lemma AppliedStays(w: World, step: Step, w': World)
    requires Inv(w) && Next(w, step, w') && w'.sync.Applied?
    ensures SyncOk(w')
  {
    hide LossOk, IsNewest, IsNewestOf, Accounted, Since, Hashes, InPending;
    HistoryGrows(w, step, w');
    forall h | h in w'.confirmed ensures Accounted(w', h, w'.sync.to) {
      if step.Apply? { ApplyAccounts(w, h); }
      AccountedStays(w, step, w', h, w'.sync.to);
    }
  }

  lemma FoundStays(w: World, step: Step, w': World, q: Query)
    requires Inv(w) && Next(w, step, w') && q in w'.found
    ensures Accounted(w', q.hash, q.generation)
  {
    hide LossOk, IsNewest, IsNewestOf, SyncOk, Accounted;
    if q in w.found {
      AccountedStays(w, step, w', q.hash, q.generation);
    } else {
      assert q.hash in w'.index;
      IndexedIsAccounted(w', q.hash, q.generation);
    }
  }

  lemma IndexedIsAccounted(w: World, h: Hash, after: nat)
    requires h in w.index
    ensures Accounted(w, h, after)
  {
  }

  lemma AccountedBefore(w: World, h: Hash, after: nat, before: nat)
    requires Accounted(w, h, after) && before <= after
    ensures Accounted(w, h, before)
  {
  }

  lemma ConfirmedStays(w: World, step: Step, w': World, h: Hash)
    requires Inv(w) && Next(w, step, w') && Orderly(w, step) && h in w'.confirmed
    ensures h != [] && Accounted(w', h, w'.lastInvalidation)
  {
    hide LossOk, IsNewest, IsNewestOf, Accounted;
    if (step.Mark? || step.MarkAtBase?) && h == step.query.hash {
      AccountedStays(w, step, w', h, step.query.generation);
      AccountedBefore(w', h, step.query.generation, w'.lastInvalidation);
    } else if step.Upsert? {
      AccountedStays(w, step, w', h, w.sync.to);
    } else {
      AccountedStays(w, step, w', h, w.lastInvalidation);
    }
  }

  lemma QueriesStay(w: World, step: Step, w': World)
    requires Inv(w) && Next(w, step, w')
    ensures w'.lastInvalidation <= w'.journal.generation && w'.base <= w'.journal.generation
    ensures (w'.running ==> w'.sync.Idle?) && (w'.asked + w'.answered + w'.found != {} ==> w'.running)
    ensures forall q :: q in w'.asked || q in w'.answered || q in w'.found ==> QueryOk(w', q)
  {
    hide LossOk, IsNewest, IsNewestOf, Accounted, InPending;
    HistoryGrows(w, step, w');
  }

  /** Every step keeps the invariant. */
  lemma StepKeepsInv(w: World, step: Step, w': World)
    requires Inv(w) && Next(w, step, w') && Orderly(w, step)
    ensures Inv(w')
  {
    hide LossOk, IsNewest, IsNewestOf, SyncOk, Accounted, InPending, QueryOk;
    LossStays(w, step, w');
    NonEmptyStays(w, step, w');
    SyncStays(w, step, w');
    QueriesStay(w, step, w');
    forall q | q in w'.found ensures Accounted(w', q.hash, q.generation) { FoundStays(w, step, w', q); }
    forall h | h in w'.confirmed ensures h != [] && Accounted(w', h, w'.lastInvalidation) { ConfirmedStays(w, step, w', h); }
  }

  // ---- the cache ----

  /** As long as each confirmation carries no more than its own answer's generation, the cache promise is kept. */
  lemma StepKeepsCache(w: World, step: Step, w': World)
    requires Inv(w) && CacheOk(w) && Next(w, step, w') && Orderly(w, step) && OwnStamp(step)
    requires StampsOk(w)
    ensures CacheOk(w')
  {
    hide LossOk, IsNewest, IsNewestOf, SyncOk, Accounted, InPending, Next, Inv, Orderly, OwnStamp;
    forall h | h in w'.confirmed ensures Accounted(w', h, Max(w'.confirmed[h], w'.lastInvalidation)) {
      if step.Apply? {
        ApplyCaches(w, w', h);
      } else if step.Upsert? {
        UpsertCaches(w, w', h);
      } else {
        CachedStays(w, step, w', h);
      }
    }
  }

  lemma CachedStays(w: World, step: Step, w': World, h: Hash)
    requires Inv(w) && CacheOk(w) && StampsOk(w) && Next(w, step, w') && Orderly(w, step) && OwnStamp(step)
    requires !step.Apply? && !step.Upsert? && h in w'.confirmed
    ensures Accounted(w', h, Max(w'.confirmed[h], w'.lastInvalidation))
  {
    hide LossOk, IsNewest, IsNewestOf, SyncOk, Accounted, InPending;
    if (step.Mark? || step.MarkAtBase?) && h == step.query.hash {
      AccountedStays(w, step, w', h, step.query.generation);
      AccountedBefore(w', h, step.query.generation, Max(w'.confirmed[h], w.lastInvalidation));
    } else {
      AccountedStays(w, step, w', h, Max(w.confirmed[h], w.lastInvalidation));
    }
  }

  lemma ApplyCaches(w: World, w': World, h: Hash)
    requires Inv(w) && Next(w, Apply, w') && h in w'.confirmed
    ensures Accounted(w', h, Max(w'.confirmed[h], w'.lastInvalidation))
  {
    ApplyAccounts(w, h);
    hide LossOk, Accounted, Inv;
    AccountedStays(w, Apply, w', h, w.sync.answer.to);
  }

  /** Between applying and recording the answer nothing is confirmed later than the answer. */
  lemma UpsertCaches(w: World, w': World, h: Hash)
    requires Inv(w) && CacheOk(w) && Next(w, Upsert, w') && h in w'.confirmed
    ensures Accounted(w', h, Max(w'.confirmed[h], w'.lastInvalidation))
  {
    hide LossOk, InPending;
    SamePending(w, w', h);
    assert Accounted(w, h, w.sync.to);
    assert Accounted(w, h, Max(w.confirmed[h], w.lastInvalidation));
  }

  lemma SamePending(w: World, w': World, h: Hash)
    requires w'.pending == w.pending
    ensures InPending(w', h) <==> InPending(w, h)
  {
  }

  /** Stamps are generations the server has reached. */
  ghost predicate StampsOk(w: World) {
    forall h :: h in w.confirmed ==> w.confirmed[h] <= w.journal.generation
  }

  lemma StepKeepsStamps(w: World, step: Step, w': World)
    requires Inv(w) && StampsOk(w) && Next(w, step, w')
    ensures StampsOk(w')
  {
    hide LossOk, IsNewest, Accounted, InPending;
    HistoryGrows(w, step, w');
  }

  /** Whatever happened to the stamps before, a complete answer restores the cache promise. */
  lemma ApplyRestoresCache(w: World, w': World)
    requires Inv(w) && Next(w, Apply, w')
    ensures CacheOk(w')
  {
    hide LossOk, Accounted, Inv;
    forall h | h in w'.confirmed ensures Accounted(w', h, Max(w'.confirmed[h], w'.lastInvalidation)) { ApplyCaches(w, w', h); }
  }

  /** One confirmation breaks the promise only when its stamp is newer than its own answer, and the digest
      was deleted in between. */
  lemma MarkKeepsExactly(w: World, query: Query, combined: set<Query>, stamp: nat, w': World)
    requires Inv(w) && StampsOk(w) && CacheOk(w) && Next(w, Mark(query, combined, stamp), w')
    ensures CacheOk(w') <==> (query.hash in w.index || InPending(w, query.hash)
      || exists d :: d in w.history && d.hash == query.hash && d.generation > Max(stamp, w.lastInvalidation))
    ensures stamp <= query.generation ==> CacheOk(w')
    ensures !CacheOk(w') ==> exists d :: d in w.history && d.hash == query.hash && query.generation < d.generation <= stamp
  {
    hide LossOk, SyncOk, InPending, IsNewestOf;
    var step := Mark(query, combined, stamp);
    if stamp <= query.generation { StepKeepsCache(w, step, w'); }
    assert w'.confirmed[query.hash] == stamp;
    if Accounted(w', query.hash, Max(stamp, w.lastInvalidation)) {
      forall h | h in w'.confirmed ensures Accounted(w', h, Max(w'.confirmed[h], w'.lastInvalidation)) {
        if h != query.hash {
          assert Accounted(w, h, Max(w.confirmed[h], w.lastInvalidation));
          AccountedStays(w, step, w', h, Max(w.confirmed[h], w.lastInvalidation));
        }
      }
    }
    SamePending(w, w', query.hash);
    assert QueryOk(w, query);
    if !CacheOk(w') {
      assert Accounted(w, query.hash, query.generation);
      var d :| d in w.history && d.hash == query.hash && d.generation > query.generation;
      assert d.generation <= stamp;
    }
  }

  /** What a backup may reuse without asking: a digest confirmed at or above the run's own generation.
      If the server no longer has it, it was deleted after that generation, or its bump is still due. */
  lemma ReuseIsSafe(w: World, h: Hash, base: nat)
    requires CacheOk(w) && h in w.confirmed && w.confirmed[h] >= base && h !in w.index
    ensures InPending(w, h) || DeletedAfter(w, h, base)
  {
  }

  // ---- runs ----

  ghost predicate Start(w: World) {
    && w.journal == Journal(0, {}, 0) && w.history == {} && w.pending == [] && w.prunes == [] && [] !in w.index
    && !w.known && w.lastInvalidation == 0 && w.confirmed == map[] && w.sync.Idle?
    && !w.running && w.base == 0 && w.asked == w.answered == w.found == {}
  }

  ghost predicate IsPath(run: seq<World>, steps: seq<Step>) {
    |run| == |steps| + 1 && forall k :: 0 <= k < |steps| ==> Next(run[k], steps[k], run[k + 1])
  }

  ghost predicate IsRun(run: seq<World>, steps: seq<Step>) { IsPath(run, steps) && Start(run[0]) }

  ghost predicate AllOrderly(run: seq<World>, steps: seq<Step>)
    requires |run| == |steps| + 1
  {
    forall k :: 0 <= k < |steps| ==> Orderly(run[k], steps[k])
  }

  lemma {:induction false} EveryPath(run: seq<World>, steps: seq<Step>, k: nat)
    requires IsPath(run, steps) && AllOrderly(run, steps) && k < |run| && Inv(run[0]) && StampsOk(run[0])
    ensures Inv(run[k]) && StampsOk(run[k])
  {
    hide Next, Inv, StampsOk, Orderly;
    if k > 0 {
      EveryPath(run, steps, k - 1);
      StepKeepsInv(run[k - 1], steps[k - 1], run[k]);
      StepKeepsStamps(run[k - 1], steps[k - 1], run[k]);
    }
  }

  lemma EveryRun(run: seq<World>, steps: seq<Step>, k: nat)
    requires IsRun(run, steps) && AllOrderly(run, steps) && k < |run|
    ensures Inv(run[k]) && StampsOk(run[k])
  {
    hide Next, Inv, StampsOk, Orderly;
    StartIsOk(run[0]);
    EveryPath(run, steps, k);
  }

  lemma StartIsOk(w: World)
    requires Start(w)
    ensures Inv(w) && StampsOk(w) && CacheOk(w)
  {
  }

  /** In every orderly interleaving, every confirmed digest is in the index, or its deletion awaits its
      bump, or it was deleted at a generation above the last applied one; with each confirmation stamped no
      newer than its own answer, above the confirming one too. */
  lemma {:induction false} EveryRunKeepsTheCache(run: seq<World>, steps: seq<Step>, k: nat)
    requires IsRun(run, steps) && AllOrderly(run, steps) && k < |run|
    ensures forall h :: h in run[k].confirmed ==> Accounted(run[k], h, run[k].lastInvalidation)
    ensures (forall j :: 0 <= j < k ==> OwnStamp(steps[j])) ==> CacheOk(run[k])
  {
    EveryRun(run, steps, k);
    StartIsOk(run[0]);
    if forall j :: 0 <= j < k ==> OwnStamp(steps[j]) { OwnStampsKeep(run, steps, k); }
  }

  lemma {:induction false} OwnStampsKeep(run: seq<World>, steps: seq<Step>, k: nat)
    requires IsPath(run, steps) && AllOrderly(run, steps) && k < |run| && Inv(run[0]) && StampsOk(run[0]) && CacheOk(run[0])
    requires forall j :: 0 <= j < k ==> OwnStamp(steps[j])
    ensures CacheOk(run[k])
  {
    hide Next, StampsOk, CacheOk, Inv, OwnStamp, Orderly;
    if k > 0 {
      OwnStampsKeep(run, steps, k - 1);
      EveryPath(run, steps, k - 1);
      StepKeepsCache(run[k - 1], steps[k - 1], run[k]);
    }
  }

  /** Whenever a complete answer is applied in an orderly run, it names every digest deleted since the last one. */
  lemma AppliedAnswersAreComplete(run: seq<World>, steps: seq<Step>, k: nat, d: Deletion)
    requires IsRun(run, steps) && AllOrderly(run, steps) && k < |steps| && steps[k].Apply? && run[k].sync.Answered?
    requires d in run[k].history && run[k].lastInvalidation < d.generation <= run[k].sync.answer.to
    ensures d.hash in run[k].sync.answer.hashes && d.hash !in run[k + 1].confirmed
  {
    hide LossOk, Accounted, Orderly;
    EveryRun(run, steps, k);
    var a := run[k].sync.answer;
    assert Next(run[k], steps[k], run[k + 1]);
    assert d in Since(run[k].history, a.from, a.to);
  }
}
