/** The server's chunk generation and its journal of deleted digests, pruned over time. */
module Generations {
  import opened Base

  /** One journal row: `hash` was deleted, and the bump to `generation` said so. */
  datatype Deletion = Deletion(generation: nat, hash: Hash, createdAt: int)

  datatype Journal = Journal(generation: nat, rows: set<Deletion>, availableFrom: nat)

  datatype Reason = NoReason | JournalCompacted | ResponseLimitExceeded

  datatype Answer = Answer(from: nat, to: nat, hashes: set<Hash>, complete: bool, reason: Reason)

  const DEFAULT_MAX_HASHES := 100000

  function Rows(generation: nat, hashes: set<Hash>, now: int): set<Deletion> {
    set h | h in hashes && h != [] :: Deletion(generation, h, now)
  }

  function Bumped(j: Journal, hashes: set<Hash>, now: int): Journal {
    Journal(j.generation + 1, j.rows + Rows(j.generation + 1, hashes, now), j.availableFrom)
  }

  /** Rows from before the cutoff are gone, and the journal says from which generation on it is whole:
      the highest generation it lost. */
  predicate IsPruned(j: Journal, cutoff: int, j': Journal) {
    && j'.generation == j.generation
    && j'.rows == (set d | d in j.rows && d.createdAt >= cutoff)
    && j'.availableFrom >= j.availableFrom
    && (forall d :: d in j.rows && d.createdAt < cutoff ==> d.generation <= j'.availableFrom)
    && (j'.availableFrom == j.availableFrom
        || exists d :: d in j.rows && d.createdAt < cutoff && d.generation == j'.availableFrom)
  }

  function Since(rows: set<Deletion>, since: nat, to: nat): set<Deletion> {
    set d | d in rows && since < d.generation <= to
  }

  ghost function Hashes(rows: set<Deletion>): set<Hash> {
    set d | d in rows :: d.hash
  }

  /** `history` is every row ever journaled; those the journal has lost are at or below `availableFrom`. */
  ghost predicate HistoryOk(j: Journal, history: set<Deletion>) {
    && j.rows <= history && j.availableFrom <= j.generation
    && forall d :: d in history ==> (1 <= d.generation <= j.generation && (d in j.rows || d.generation <= j.availableFrom))
  }

  /** What the server may answer an agent that has applied everything up to `since`. */
  ghost predicate IsAnswer(j: Journal, since: nat, limit: int, a: Answer) {
    var wanted := Since(j.rows, since, j.generation);
    && a.from == since && a.to == j.generation
    && (a.complete <==> since >= j.generation || (since >= j.availableFrom && |wanted| <= limit))
    && a.hashes == (if a.complete then Hashes(wanted) else {})
    && a.reason == (if a.complete then NoReason else if since < j.availableFrom then JournalCompacted else ResponseLimitExceeded)
  }

  /** A complete answer names every digest ever deleted since, pruned or not, and nothing else. */
  lemma CompleteAnswerHasAll(j: Journal, history: set<Deletion>, since: nat, limit: int, a: Answer)
    requires HistoryOk(j, history) && IsAnswer(j, since, limit, a) && a.complete
    ensures a.hashes == Hashes(Since(history, since, a.to))
  {
    if since >= j.generation {
      assert Since(history, since, a.to) == {} == Since(j.rows, since, a.to);
    } else {
      assert Since(history, since, a.to) == Since(j.rows, since, a.to);
    }
  }

  lemma BumpKeepsHistory(j: Journal, history: set<Deletion>, hashes: set<Hash>, now: int)
    requires HistoryOk(j, history)
    ensures HistoryOk(Bumped(j, hashes, now), history + Rows(j.generation + 1, hashes, now))
  {
  }

  lemma PruneKeepsHistory(j: Journal, history: set<Deletion>, cutoff: int, j': Journal)
    requires HistoryOk(j, history) && IsPruned(j, cutoff, j')
    ensures HistoryOk(j', history)
  {
  }

  // ---- a catch-up that reads in the middle of a prune ----

  function Kept(rows: set<Deletion>, cutoff: int): set<Deletion> { set d | d in rows && d.createdAt >= cutoff }

  /** Between the DELETE and the UPDATE: the rows are gone, and the journal still claims them. The same is
      read when a catch-up reads the state before a prune and the rows after it. */
  function Half(j: Journal, cutoff: int): Journal { j.(rows := Kept(j.rows, cutoff)) }

  /** A catch-up that takes the state and the rows of a half-pruned journal for a whole one has every
      deletion if and only if the agent had already applied all that the prune takes away. */
  lemma HalfPrunedExactly(j: Journal, history: set<Deletion>, cutoff: int, since: nat, limit: int, a: Answer)
    requires HistoryOk(j, history) && IsAnswer(Half(j, cutoff), since, limit, a) && a.complete
    ensures Since(history, since, a.to) == Since(Half(j, cutoff).rows, since, a.to)
      <==> forall d :: d in j.rows && d.createdAt < cutoff ==> d.generation <= since
    ensures (forall d :: d in j.rows && d.createdAt < cutoff ==> d.generation <= since) ==> a.hashes == Hashes(Since(history, since, a.to))
  {
    var all, left := Since(history, since, a.to), Since(Half(j, cutoff).rows, since, a.to);
    if all == left {
      forall d | d in j.rows && d.createdAt < cutoff ensures d.generation <= since {
        assert d in history && d !in left;
        assert d !in all;
      }
    }
    if forall d :: d in j.rows && d.createdAt < cutoff ==> d.generation <= since {
      forall d | d in all ensures d in left { }
    }
  }

  /** Such an answer is given: the journal's one deletion is pruned, and an agent that has none is told
      that there was none. */
  lemma HalfPrunedJournalLies(hash: Hash)
    ensures
      var d := Deletion(1, hash, 0);
      var half := Half(Journal(1, {d}, 0), 5);
      && IsPruned(Journal(1, {d}, 0), 5, half.(availableFrom := 1))
      && IsAnswer(half, 0, DEFAULT_MAX_HASHES, Answer(0, 1, {}, true, NoReason))
      && hash in Hashes(Since({d}, 0, 1))
  {
    var d := Deletion(1, hash, 0);
    assert d in Journal(1, {d}, 0).rows && d.createdAt < 5 && d.generation == 1;
    assert d in Since({d}, 0, 1);
    assert Since({}, 0, 1) == {};
  }

  /** `newest` is the highest generation among the rows from before the cutoff, 0 if there are none. */
  predicate IsNewest(rows: set<Deletion>, cutoff: int, newest: nat) {
    && (forall d :: d in rows && d.createdAt < cutoff ==> d.generation <= newest)
    && (newest == 0 || exists d :: d in rows && d.createdAt < cutoff && d.generation == newest)
  }

  /** The three statements, with nothing in between, prune the journal. */
  lemma ThreeStatementsPrune(j: Journal, cutoff: int, newest: nat)
    requires IsNewest(j.rows, cutoff, newest)
    ensures IsPruned(j, cutoff, Raised(Half(j, cutoff), newest))
  {
  }

  function Raised(j: Journal, newest: nat): Journal {
    j.(availableFrom := if newest > j.availableFrom then newest else j.availableFrom)
  }

  lemma SinceOneMore(rows: set<Deletion>, todo: set<Deletion>, d: Deletion, since: nat, to: nat)
    requires d in todo && todo <= rows
    ensures Since(rows - (todo - {d}), since, to) == Since(rows - todo, since, to) + (if since < d.generation <= to then {d} else {})
  {
  }

  lemma SinceNone(rows: set<Deletion>, since: nat, to: nat)
    ensures Since(rows - rows, since, to) == {}
  {
  }

  class StateStore {
    var generation: nat
    var rows: set<Deletion>
    var availableFrom: nat
    ghost var history: set<Deletion>

    ghost function View(): Journal
      reads this
    {
      Journal.Journal(generation, rows, availableFrom)
    }

    ghost predicate Valid()
      reads this
    {
      HistoryOk(View(), history)
    }

    constructor ()
      ensures Valid() && View() == Journal.Journal(0, {}, 0) && history == {}
    {
      generation, rows, availableFrom, history := 0, {}, 0, {};
    }

    /** One transaction: the counter goes up and every non-empty digest is journaled under it. */
    method BumpChunkGeneration(hashes: seq<Hash>, now: int) returns (bumped: nat)
      requires Valid()
      modifies this
      ensures Valid()
      ensures View() == Bumped(old(View()), ToSet(hashes), now) && bumped == generation
      ensures history == old(history) + Rows(generation, ToSet(hashes), now)
    {
      BumpKeepsHistory(View(), history, ToSet(hashes), now);
      var next, staged := generation + 1, rows;
      assert Rows(next, ToSet(hashes[..0]), now) == {};
      for i := 0 to |hashes|
        invariant View() == old(View()) && history == old(history)
        invariant staged == rows + Rows(next, ToSet(hashes[..i]), now)
      {
        assert hashes[..i + 1] == hashes[..i] + [hashes[i]];
        ghost var more := if hashes[i] == [] then {} else {Deletion(next, hashes[i], now)};
        assert Rows(next, ToSet(hashes[..i + 1]), now) == Rows(next, ToSet(hashes[..i]), now) + more;
        if hashes[i] != [] { staged := staged + {Deletion(next, hashes[i], now)}; }
      }
      assert hashes[..|hashes|] == hashes;
      generation, rows, bumped := next, staged, next;
      history := history + Rows(next, ToSet(hashes), now);
    }

    /** The first statement of a prune. */
    method SelectNewest(cutoff: int) returns (newest: nat)
      ensures IsNewest(rows, cutoff, newest)
    {
      var todo := rows;
      newest := 0;
      while todo != {}
        invariant todo <= rows
        invariant forall d :: d in rows && d !in todo && d.createdAt < cutoff ==> d.generation <= newest
        invariant newest == 0 || exists d :: d in rows && d.createdAt < cutoff && d.generation == newest
      {
        var d := Pick(todo);
        todo := todo - {d};
        if d.createdAt < cutoff && newest < d.generation { newest := d.generation; }
      }
    }

    /** The second: from here to the third, the journal claims rows it has lost. */
    method DeleteBefore(cutoff: int) returns (removed: nat)
      modifies this`rows
      ensures View() == Half(old(View()), cutoff) && removed == |old(rows)| - |rows|
    {
      var kept, todo := {}, rows;
      while todo != {}
        invariant View() == old(View()) && todo <= rows && kept == Kept(rows - todo, cutoff)
      {
        var d := Pick(todo);
        assert rows - (todo - {d}) == (rows - todo) + {d};
        todo := todo - {d};
        if d.createdAt >= cutoff { kept := kept + {d}; }
      }
      assert rows - todo == rows;
      SubsetSize(kept, rows);
      removed := |rows| - |kept|;
      rows := kept;
    }

    /** The third. */
    method RaiseAvailable(newest: nat)
      modifies this`availableFrom
      ensures View() == Raised(old(View()), newest)
    {
      if newest > availableFrom { availableFrom := newest; }
    }

    /** A whole prune: three statements, each on its own. A zero cutoff prunes nothing. */
    method PruneChunkInvalidations(cutoff: Option<int>) returns (removed: nat)
      requires Valid()
      modifies this`rows, this`availableFrom
      ensures Valid()
      ensures cutoff.None? ==> View() == old(View()) && removed == 0
      ensures cutoff.Some? ==> IsPruned(old(View()), cutoff.value, View()) && removed == |old(rows)| - |rows|
    {
      if cutoff.None? { return 0; }
      var newest := SelectNewest(cutoff.value);
      ThreeStatementsPrune(View(), cutoff.value, newest);
      removed := DeleteBefore(cutoff.value);
      RaiseAvailable(newest);
      PruneKeepsHistory(old(View()), history, cutoff.value, View());
    }

    /** The first read of a catch-up. */
    method RepositoryState() returns (generation: nat, availableFrom: nat)
      ensures generation == this.generation && availableFrom == this.availableFrom
    {
      generation, availableFrom := this.generation, this.availableFrom;
    }

    /** The second: how many rows there are now. */
    method CountSince(since: nat, to: nat) returns (count: nat)
      ensures count == |Since(rows, since, to)|
    {
      hide Since;
      var counted, todo := {}, rows;
      SinceNone(rows, since, to);
      while todo != {}
        invariant todo <= rows && counted == Since(rows - todo, since, to)
      {
        var d := Pick(todo);
        SinceOneMore(rows, todo, d, since, to);
        todo := todo - {d};
        if since < d.generation <= to { counted := counted + {d}; }
      }
      assert rows - todo == rows;
      count := |counted|;
    }

    /** The third: the digests of the rows there are now. */
    method ListSince(since: nat, to: nat) returns (hashes: set<Hash>)
      ensures hashes == Hashes(Since(rows, since, to))
    {
      var wanted := Since(rows, since, to);
      var todo := wanted;
      hashes := {};
      while todo != {}
        invariant todo <= wanted && hashes == Hashes(wanted - todo)
      {
        var d := Pick(todo);
        assert wanted - (todo - {d}) == (wanted - todo) + {d};
        todo := todo - {d};
        hashes := hashes + {d.hash};
      }
      assert wanted - todo == wanted;
    }

    /** A whole answer: three reads, each on its own. */
    method ChunkInvalidationsSince(sinceGeneration: int, maxHashes: int) returns (a: Answer)
      requires Valid()
      ensures IsAnswer(View(), if sinceGeneration < 0 then 0 else sinceGeneration,
                       if maxHashes <= 0 then DEFAULT_MAX_HASHES else maxHashes, a)
      ensures a.complete ==> a.hashes == Hashes(Since(history, a.from, a.to))
    {
      var since: nat := if sinceGeneration < 0 then 0 else sinceGeneration;
      var limit := if maxHashes <= 0 then DEFAULT_MAX_HASHES else maxHashes;
      var to, available := RepositoryState();
      a := Answer(since, to, {}, true, NoReason);
      if since < to {
        if since < available { return a.(complete := false, reason := JournalCompacted); }
        var count := CountSince(since, to);
        if count > limit { return a.(complete := false, reason := ResponseLimitExceeded); }
        var hashes := ListSince(since, to);
        a := a.(hashes := hashes);
      } else {
        assert Since(rows, since, to) == {};
      }
      CompleteAnswerHasAll(View(), history, since, limit, a);
    }
  }
}
