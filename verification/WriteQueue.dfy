/** The server's write queue: requests of many agents are coalesced into one repository write, and each
    gets one result. Every method is one step that the queue's lock or its single worker makes; they may
    come in any order. */
module WriteQueue {
  import opened Base
  import opened Records
  import opened Segments
  import opened PutSpec
  import opened Repositories

  datatype QueueError = Cancelled | QueueClosed | MaintenanceRunning | PutFailed

  datatype Outcome = Refs(results: seq<PutResult>) | Failed(error: QueueError)

  datatype EnqueueError = CtxDone | Closed | TooManyRequests | RequestTooLarge | TooManyBytes

  datatype Reply = Reply(id: nat, outcome: Outcome)

  /** What the worker has in hand. */
  datatype Phase =
    | Idle
    | Collecting(batch: seq<nat>, total: nat)
    | Checking(active: seq<nat>, left: seq<nat>)
    | Finishing(todo: seq<Reply>)

  function Ids(todo: seq<Reply>): (r: seq<nat>)
    ensures |r| == |todo|
  {
    seq(|todo|, i requires 0 <= i < |todo| => todo[i].id)
  }

  function InHand(p: Phase): seq<nat> {
    match p
    case Idle => []
    case Collecting(batch, _) => batch
    case Checking(active, left) => active + left
    case Finishing(todo) => Ids(todo)
  }

  function ChunkBytes(chunks: seq<Bytes>): nat {
    if chunks == [] then 0 else ChunkBytes(chunks[..|chunks| - 1]) + |chunks[|chunks| - 1]|
  }

  type Requests = map<nat, seq<Bytes>>

  function TotalBytes(ids: seq<nat>, requests: Requests): nat
    requires forall i :: 0 <= i < |ids| ==> ids[i] in requests
  {
    if ids == [] then 0 else TotalBytes(ids[..|ids| - 1], requests) + ChunkBytes(requests[ids[|ids| - 1]])
  }

  function Without<T>(s: seq<T>, i: nat): seq<T>
    requires i < |s|
  {
    s[..i] + s[i + 1..]
  }

  lemma {:induction false} TotalWithout(ids: seq<nat>, i: nat, requests: Requests)
    requires i < |ids| && forall k :: 0 <= k < |ids| ==> ids[k] in requests
    ensures TotalBytes(ids, requests) == TotalBytes(Without(ids, i), requests) + ChunkBytes(requests[ids[i]])
    decreases |ids|
  {
    var n := |ids| - 1;
    if i < n {
      TotalWithout(ids[..n], i, requests);
      assert Without(ids, i)[..n - 1] == Without(ids[..n], i);
    } else {
      assert Without(ids, i) == ids[..n];
    }
  }

  lemma {:induction false} TotalSame(ids: seq<nat>, requests: Requests, requests': Requests)
    requires forall k :: 0 <= k < |ids| ==> ids[k] in requests && ids[k] in requests' && requests'[ids[k]] == requests[ids[k]]
    ensures TotalBytes(ids, requests') == TotalBytes(ids, requests)
    decreases |ids|
  {
    if ids != [] { TotalSame(ids[..|ids| - 1], requests, requests'); }
  }

  /** The refs of a request are those of its own chunks, in its own order. */
  ghost predicate OutcomeOk(c: Crypto, chunks: seq<Bytes>, o: Outcome) {
    o.Refs? ==> |o.results| == |chunks| && forall i :: 0 <= i < |chunks| ==> o.results[i].ref.hash == c.hash(chunks[i])
  }

  /** Every accepted request is unfinished, in one place only, or has its one result. */
  ghost predicate Settled(all: seq<nat>, requests: Requests, results: map<nat, Outcome>) {
    && Distinct(all)
    && (forall i :: 0 <= i < |all| ==> all[i] in requests && all[i] !in results)
    && (forall id :: id in requests ==> id in all || id in results)
    && (forall id :: id in results ==> id in requests)
  }

  lemma SettledFinish(all: seq<nat>, requests: Requests, results: map<nat, Outcome>, i: nat, o: Outcome)
    requires Settled(all, requests, results) && i < |all|
    ensures Settled(Without(all, i), requests, results[all[i] := o])
  {
    var rest := Without(all, i);
    forall a, b | 0 <= a < b < |rest| ensures rest[a] != rest[b] {
      assert rest[a] == all[if a < i then a else a + 1] && rest[b] == all[if b < i then b else b + 1];
    }
    forall k | 0 <= k < |rest| ensures rest[k] in requests && rest[k] !in results[all[i] := o] {
      assert rest[k] == all[if k < i then k else k + 1];
    }
    forall id | id in requests ensures id in rest || id in results[all[i] := o] {
      if id in all {
        var k :| 0 <= k < |all| && all[k] == id;
        if k != i { assert rest[if k < i then k else k - 1] == id; }
      }
    }
  }

  lemma SettledNew(all: seq<nat>, requests: Requests, results: map<nat, Outcome>, id: nat, chunks: seq<Bytes>)
    requires Settled(all, requests, results) && id !in requests
    ensures Settled(all + [id], requests[id := chunks], results)
  {
    var all' := all + [id];
    assert all'[|all|] == id;
    assert forall x :: x in all' <==> x in all || x == id;
  }

  // ---- one write for many requests ----

  function Lists(ids: seq<nat>, requests: Requests): (r: seq<seq<Bytes>>)
    ensures |r| == |ids|
  {
    seq(|ids|, i requires 0 <= i < |ids| => if ids[i] in requests then requests[ids[i]] else [])
  }

  /** The slice of the combined results that belongs to request `i` is what putting its chunks right
      after those of the requests before it gives. */
  lemma SliceIsOwn(env: Env, s: Store, index: Index, lists: seq<seq<Bytes>>, i: nat)
    requires s.Valid() && i < |lists|
    ensures var before := PutEach(env, s, index, Flatten(lists[..i]));
      var from := |Flatten(lists[..i])|;
      && from + |lists[i]| <= |Flatten(lists)|
      && PutEach(env, s, index, Flatten(lists)).results[from..from + |lists[i]|] == PutEach(env, before.store, before.index, lists[i]).results
  {
    hide PutEach;
    var head, tail := Flatten(lists[..i]), Flatten(lists[i + 1..]);
    FlattenAppend(lists[..i], lists[i..]);
    assert lists[..i] + lists[i..] == lists && lists[i..] == [lists[i]] + lists[i + 1..];
    assert Flatten(lists) == head + (lists[i] + tail) == (head + lists[i]) + tail;
    PutEachSplits(env, s, index, head + lists[i], tail);
    PutEachSplits(env, s, index, head, lists[i]);
  }

  lemma {:induction false} StorableParts(env: Env, lists: seq<seq<Bytes>>)
    requires forall i :: 0 <= i < |lists| ==> env.AllStorable(lists[i])
    ensures env.AllStorable(Flatten(lists))
  {
    hide Crypto.Storable;
    if lists != [] { StorableParts(env, lists[1..]); }
  }

  /** Each slice has the refs of the request's own chunks. */
  lemma SliceRefs(env: Env, s: Store, index: Index, lists: seq<seq<Bytes>>, i: nat)
    requires env.Sound() && s.Valid() && IndexOk(env.crypto, s.segs, index) && i < |lists|
    requires forall k :: 0 <= k < |lists| ==> env.AllStorable(lists[k])
    ensures var from := |Flatten(lists[..i])|;
      && from + |lists[i]| <= |Flatten(lists)|
      && OutcomeOk(env.crypto, lists[i], Refs(PutEach(env, s, index, Flatten(lists)).results[from..from + |lists[i]|]))
  {
    hide PutEach, Crypto.Sound, Crypto.Storable, Read;
    SliceIsOwn(env, s, index, lists, i);
    StorableParts(env, lists[..i]);
    PutEachOk(env, s, index, Flatten(lists[..i]));
    var before := PutEach(env, s, index, Flatten(lists[..i]));
    forall k | 0 <= k < |lists[i]| ensures PutEach(env, before.store, before.index, lists[i]).results[k].ref.hash == env.crypto.hash(lists[i][k]) {
      PutEachResults(env, before.store, before.index, lists[i], k);
      PutEachOk(env, before.store, before.index, lists[i]);
    }
  }

  /** The counters are those of the unfinished requests, and keep the limits. */
  ghost predicate Counted(all: seq<nat>, requests: Requests, queuedRequests: int, queuedBytes: int) {
    && (forall i :: 0 <= i < |all| ==> all[i] in requests)
    && queuedRequests == |all| && queuedBytes == TotalBytes(all, requests)
  }

  ghost predicate OutcomesOk(env: Env, requests: Requests, results: map<nat, Outcome>, phase: Phase) {
    && (forall id :: id in requests ==> env.AllStorable(requests[id]))
    && (forall id :: id in results && id in requests ==> OutcomeOk(env.crypto, requests[id], results[id]))
    && (phase.Finishing? ==> forall k :: 0 <= k < |phase.todo| && phase.todo[k].id in requests ==>
          OutcomeOk(env.crypto, requests[phase.todo[k].id], phase.todo[k].outcome))
  }

  /** What request `k` gets: the results of putting its own chunks, right after those of the requests before it. */
  ghost predicate OwnResults(env: Env, s: Store, index: Index, lists: seq<seq<Bytes>>, k: nat, o: Outcome)
    requires s.Valid() && k < |lists|
  {
    var before := PutEach(env, s, index, Flatten(lists[..k]));
    o == Refs(PutEach(env, before.store, before.index, lists[k]).results)
  }

  class AgentRepoWriteQueue {
    const repo: Repository
    const maxRequests: nat
    const maxBytes: nat
    const coalesceMaxBytes: nat
    var channel: seq<nat>
    var phase: Phase
    var queuedRequests: int
    var queuedBytes: int
    var closed: bool
    var requests: Requests           // what was accepted, by number
    var results: map<nat, Outcome>   // what was sent on each request's result channel
    var nextId: nat

    /** Everything accepted and not finished: what the worker has, then what is queued. */
    function All(): seq<nat>
      reads this
    {
      InHand(phase) + channel
    }

    ghost predicate Valid()
      reads this, repo, repo.writer
    {
      && repo.writer.env == repo.env && repo.env.Sound() && repo.writer.View().Valid()
      && IndexOk(repo.env.crypto, repo.writer.segs, repo.index)
      && Settled(All(), requests, results) && (forall id :: id in requests ==> id < nextId)
      && Counted(All(), requests, queuedRequests, queuedBytes) && queuedRequests <= maxRequests && queuedBytes <= maxBytes
      && OutcomesOk(repo.env, requests, results, phase)
      && (phase.Finishing? ==> phase.todo != [])
    }

    constructor (repo: Repository, maxRequests: int, maxBytes: int, coalesceMaxBytes: int)
      requires repo.Valid()
      ensures Valid() && requests == map[] && results == map[] && phase == Idle && channel == [] && !closed && this.repo == repo
      ensures this.maxRequests == if maxRequests <= 0 then 64 else maxRequests
      ensures this.maxBytes == if maxBytes <= 0 then 512 * 1024 * 1024 else maxBytes
    {
      this.repo := repo;
      this.maxRequests := if maxRequests <= 0 then 64 else maxRequests;
      this.maxBytes := if maxBytes <= 0 then 512 * 1024 * 1024 else maxBytes;
      this.coalesceMaxBytes := if coalesceMaxBytes <= 0 then 128 * 1024 * 1024 else coalesceMaxBytes;
      channel, phase, queuedRequests, queuedBytes, closed := [], Idle, 0, 0, false;
      requests, results, nextId := map[], map[], 0;
    }

    /** Accepts a request, or says why not. The channel is as long as the request limit, so it is never full here. */
    method Enqueue(chunks: seq<Bytes>, ctxDone: bool) returns (r: Result<nat, EnqueueError>)
      requires Valid() && repo.env.AllStorable(chunks)
      modifies this
      ensures Valid() && results == old(results) && closed == old(closed) && phase == old(phase)
      ensures r.Ok? ==> r.value !in old(requests) && requests == old(requests)[r.value := chunks] && channel == old(channel) + [r.value]
      ensures r.Err? ==> requests == old(requests) && channel == old(channel) && queuedRequests == old(queuedRequests)
      ensures r.Ok? <==> (!ctxDone && !old(closed) && |old(All())| < maxRequests && old(queuedBytes) + ChunkBytes(chunks) <= maxBytes)
      ensures r == Err(Closed) <==> !ctxDone && old(closed)
    {
      hide OutcomeOk, TotalBytes, Settled, IndexOk, Env.Sound, Env.AllStorable;
      if ctxDone { return Err(CtxDone); }
      if closed { return Err(Closed); }
      var bytes := ChunkBytes(chunks);
      if queuedRequests >= maxRequests { return Err(TooManyRequests); }
      if bytes > maxBytes { return Err(RequestTooLarge); }
      if queuedBytes + bytes > maxBytes { return Err(TooManyBytes); }
      if |channel| >= maxRequests {
        assert false;  // the channel-full branch
      } else {
        var id := nextId;
        SettledKeys(phase, channel, requests, results);
        SettledNew(All(), requests, results, id, chunks);
        TotalNew(All(), requests, id, chunks);
        assert InHand(phase) + (channel + [id]) == All() + [id];
        queuedRequests, queuedBytes := queuedRequests + 1, queuedBytes + bytes;
        requests, channel, nextId := requests[id := chunks], channel + [id], nextId + 1;
        OutcomesNew(repo.env, old(requests), results, phase, id, chunks);
        r := Ok(id);
      }
    }

    /** The worker takes a request and starts to collect. */
    method Take()
      requires Valid() && phase.Idle? && channel != []
      modifies this`channel, this`phase
      ensures Valid() && All() == old(All()) && phase.Collecting? && phase.batch == [old(channel[0])] && channel == old(channel[1..])
    {
      hide OutcomeOk, Settled, IndexOk, Env.Sound, Counted;
      var id := channel[0];
      SettledKeys(phase, channel, requests, results);
      phase, channel := Collecting([id], ChunkBytes(requests[id])), channel[1..];
      assert All() == old(All());
    }

    /** Another queued request joins the batch while it is below the coalescing limit. */
    method CollectOne()
      requires Valid() && phase.Collecting? && channel != [] && phase.total < coalesceMaxBytes
      modifies this`channel, this`phase
      ensures Valid() && All() == old(All()) && phase.Collecting? && phase.batch == old(phase.batch) + [old(channel[0])] && channel == old(channel[1..])
    {
      hide OutcomeOk, Settled, IndexOk, Env.Sound, Counted;
      var id := channel[0];
      SettledKeys(phase, channel, requests, results);
      phase, channel := Collecting(phase.batch + [id], phase.total + ChunkBytes(requests[id])), channel[1..];
      assert All() == old(All());
    }

    /** The window is over, the limit reached or the queue closed. */
    method EndCollect()
      requires Valid() && phase.Collecting?
      modifies this`phase
      ensures Valid() && All() == old(All()) && phase == Checking([], old(phase.batch))
    {
      hide OutcomeOk, Settled, IndexOk, Env.Sound, Counted;
      phase := Checking([], phase.batch);
      assert All() == old(All());
    }

    /** Takes a finished request off the counters and sends its result. */
    method Finish(id: nat, outcome: Outcome)
      requires id in requests
      modifies this`queuedRequests, this`queuedBytes, this`results
      ensures results == old(results)[id := outcome]
      ensures queuedRequests == if old(queuedRequests) - 1 < 0 then 0 else old(queuedRequests) - 1
      ensures queuedBytes == if old(queuedBytes) - ChunkBytes(requests[id]) < 0 then 0 else old(queuedBytes) - ChunkBytes(requests[id])
    {
      queuedRequests := queuedRequests - 1;
      queuedBytes := queuedBytes - ChunkBytes(requests[id]);
      if queuedRequests < 0 { queuedRequests := 0; }
      if queuedBytes < 0 { queuedBytes := 0; }
      results := results[id := outcome];
    }

    /** A request is looked at before the write: if its caller has gone, it is finished here. */
    method CheckOne(ctxDone: bool)
      requires Valid() && phase.Checking? && phase.left != []
      modifies this`phase, this`queuedRequests, this`queuedBytes, this`results
      ensures Valid() && channel == old(channel)
      ensures var id := old(phase.left[0]);
        if ctxDone then results == old(results)[id := Failed(Cancelled)] && id !in old(results) && phase == Checking(old(phase.active), old(phase.left[1..]))
        else results == old(results) && phase == Checking(old(phase.active) + [id], old(phase.left[1..]))
    {
      hide OutcomeOk, Settled, IndexOk, Env.Sound, TotalBytes;
      var active, left := phase.active, phase.left;
      ghost var all := All();
      if ctxDone {
        assert all[|active|] == left[0];
        FinishFacts(all, requests, results, |active|, Failed(Cancelled));
        FailedOk(repo.env.crypto, requests[left[0]], Cancelled);
        Finish(left[0], Failed(Cancelled));
        phase := Checking(active, left[1..]);
        assert All() == Without(all, |active|);
        OutcomesFinish(repo.env, requests, old(results), old(phase), left[0], Failed(Cancelled), phase);
      } else {
        phase := Checking(active + [left[0]], left[1..]);
        assert All() == all;
      }
    }

    /** What the worker does with the requests that are still wanted: fail them all, or write all their
        chunks at once and cut the results up again. */
    method Write(gateOpen: bool, putFails: bool)
      requires Valid() && phase.Checking? && phase.left == []
      modifies this`phase, repo`index, repo.writer
      ensures Valid() && All() == old(All()) && results == old(results) && (phase.Finishing? || phase.Idle?)
      ensures phase.Idle? <==> old(phase.active) == []
      ensures phase.Finishing? ==> Ids(phase.todo) == old(phase.active)
      ensures phase.Finishing? && (old(closed) || !gateOpen || putFails) ==> forall k :: 0 <= k < |phase.todo| ==> phase.todo[k].outcome.Failed?
      ensures phase.Finishing? && !(old(closed) || !gateOpen || putFails) ==> (
        var s, index, lists := old(repo.writer.View()), old(repo.index), Lists(old(phase.active), requests);
        && Puts(repo.writer.View(), repo.index, PutEach(repo.env, s, index, Flatten(lists)).results) == PutEach(repo.env, s, index, Flatten(lists))
        && (forall k :: 0 <= k < |phase.todo| ==> OwnResults(repo.env, s, index, lists, k, phase.todo[k].outcome)))
    {
      hide OutcomeOk, Settled, IndexOk, Env.Sound, Counted, PutEach, Env.AllStorable, OutcomesOk;
      var active := phase.active;
      assert InHand(phase) == active;
      if |active| == 0 { phase := Idle; assert All() == old(All()); IdleOk(repo.env, requests, results, old(phase)); return; }
      if closed { FailAll(active, QueueClosed); return; }
      if !gateOpen { FailAll(active, MaintenanceRunning); return; }
      if putFails { FailAll(active, PutFailed); return; }
      WriteCombined(active);
    }

    method FailAll(active: seq<nat>, error: QueueError)
      requires Valid() && phase == Checking(active, []) && active != []
      modifies this`phase
      ensures Valid() && All() == old(All()) && phase.Finishing? && Ids(phase.todo) == active
      ensures forall k :: 0 <= k < |phase.todo| ==> phase.todo[k].outcome.Failed?
    {
      hide Settled, IndexOk, Env.Sound, Counted;
      phase := Finishing(seq(|active|, k requires 0 <= k < |active| => Reply(active[k], Failed(error))));
      assert Ids(phase.todo) == active == active + [];
    }

    /** Joins the chunk lists, and notes where each begins. */
    method Combine(active: seq<nat>) returns (offsets: seq<nat>, combined: seq<Bytes>)
      requires forall i :: 0 <= i < |active| ==> active[i] in requests
      ensures var lists := Lists(active, requests);
        |offsets| == |active| && combined == Flatten(lists) && forall k :: 0 <= k < |offsets| ==> offsets[k] == |Flatten(lists[..k])|
    {
      ghost var lists := Lists(active, requests);
      offsets, combined := [], [];
      for i := 0 to |active|
        invariant |offsets| == i && combined == Flatten(lists[..i])
        invariant forall k :: 0 <= k < i ==> offsets[k] == |Flatten(lists[..k])|
      {
        assert lists[..i + 1] == lists[..i] + [lists[i]];
        FlattenSnoc(lists[..i], lists[i]);
        offsets := offsets + [|combined|];
        combined := combined + requests[active[i]];
      }
      assert lists[..|active|] == lists;
    }

    /** Cuts the combined results up again. */
    method CutUp(active: seq<nat>, offsets: seq<nat>, results: seq<PutResult>, ghost s: Store, ghost index: Index) returns (todo: seq<Reply>)
      requires repo.env.Sound() && s.Valid() && IndexOk(repo.env.crypto, s.segs, index)
      requires forall i :: 0 <= i < |active| ==> active[i] in requests && repo.env.AllStorable(requests[active[i]])
      requires |offsets| == |active| && forall k :: 0 <= k < |offsets| ==> offsets[k] == |Flatten(Lists(active, requests)[..k])|
      requires results == PutEach(repo.env, s, index, Flatten(Lists(active, requests))).results
      ensures |todo| == |active| && forall k :: 0 <= k < |todo| ==> (
        && todo[k].id == active[k] && OwnResults(repo.env, s, index, Lists(active, requests), k, todo[k].outcome)
        && OutcomeOk(repo.env.crypto, requests[active[k]], todo[k].outcome))
    {
      hide OutcomeOk, IndexOk, Env.Sound, PutEach, Env.AllStorable, OwnResults;
      ghost var lists := Lists(active, requests);
      todo := [];
      for i := 0 to |active|
        invariant |todo| == i
        invariant forall k :: 0 <= k < i ==> (
          && todo[k].id == active[k] && OwnResults(repo.env, s, index, lists, k, todo[k].outcome)
          && OutcomeOk(repo.env.crypto, requests[active[k]], todo[k].outcome))
      {
        SliceOwn(repo.env, s, index, lists, i);
        SliceRefs(repo.env, s, index, lists, i);
        var start, end := offsets[i], offsets[i] + |requests[active[i]]|;
        todo := todo + [Reply(active[i], Refs(results[start..end]))];
      }
    }

    /** One PutChunks for the whole batch; each request gets its own part of the results. */
    method WriteCombined(active: seq<nat>)
      requires Valid() && phase == Checking(active, []) && active != []
      modifies this`phase, repo`index, repo.writer
      ensures Valid() && All() == old(All()) && phase.Finishing? && Ids(phase.todo) == active
      ensures var s, index, lists := old(repo.writer.View()), old(repo.index), Lists(active, requests);
        && Puts(repo.writer.View(), repo.index, PutEach(repo.env, s, index, Flatten(lists)).results) == PutEach(repo.env, s, index, Flatten(lists))
        && (forall k :: 0 <= k < |phase.todo| ==> OwnResults(repo.env, s, index, lists, k, phase.todo[k].outcome))
    {
      hide OutcomeOk, Settled, IndexOk, Env.Sound, Counted, PutEach, Env.AllStorable, OwnResults, OutcomesOk;
      assert InHand(phase) == active;
      SettledKeys(phase, channel, requests, results);
      AllStorableOf(repo.env, requests, results, phase, active);
      var todo := PutCombined(active);
      OutcomesWritten(repo.env, requests, results, phase, todo);
      phase := Finishing(todo);
      assert Ids(todo) == active == active + [];
    }

    method PutCombined(active: seq<nat>) returns (todo: seq<Reply>)
      requires repo.writer.env == repo.env && repo.env.Sound() && repo.writer.View().Valid()
      requires IndexOk(repo.env.crypto, repo.writer.View().segs, repo.index)
      requires forall i :: 0 <= i < |active| ==> active[i] in requests && repo.env.AllStorable(requests[active[i]])
      modifies repo`index, repo.writer
      ensures repo.writer.View().Valid() && IndexOk(repo.env.crypto, repo.writer.View().segs, repo.index)
      ensures var s, index, lists := old(repo.writer.View()), old(repo.index), Lists(active, requests);
        && Puts(repo.writer.View(), repo.index, PutEach(repo.env, s, index, Flatten(lists)).results) == PutEach(repo.env, s, index, Flatten(lists))
        && |todo| == |active| && forall k :: 0 <= k < |todo| ==> (
             && todo[k].id == active[k] && OwnResults(repo.env, s, index, lists, k, todo[k].outcome)
             && OutcomeOk(repo.env.crypto, requests[active[k]], todo[k].outcome))
    {
      hide OutcomeOk, IndexOk, Env.Sound, PutEach, Env.AllStorable, OwnResults, Read;
      ghost var s, index, lists := repo.writer.View(), repo.index, Lists(active, requests);
      var offsets, combined := Combine(active);
      StorableParts(repo.env, lists);
      PutEachOk(repo.env, s, index, combined);
      var written := repo.PutChunks(combined);
      todo := CutUp(active, offsets, written, s, index);
    }

    /** The worker finishes the next request of its batch. */
    method FinishOne()
      requires Valid() && phase.Finishing? && phase.todo != []
      modifies this`phase, this`queuedRequests, this`queuedBytes, this`results
      ensures Valid() && channel == old(channel)
      ensures var reply := old(phase.todo[0]);
        && reply.id !in old(results) && results == old(results)[reply.id := reply.outcome]
        && phase == (if |old(phase.todo)| == 1 then Idle else Finishing(old(phase.todo[1..])))
    {
      hide OutcomeOk, Settled, IndexOk, Env.Sound, TotalBytes;
      var todo := phase.todo;
      ghost var all := All();
      assert all[0] == todo[0].id;
      FinishFacts(all, requests, results, 0, todo[0].outcome);
      Finish(todo[0].id, todo[0].outcome);
      phase := if |todo| == 1 then Idle else Finishing(todo[1..]);
      assert Ids(todo)[1..] == InHand(phase);
      assert All() == Without(all, 0);
      OutcomesFinish(repo.env, requests, old(results), old(phase), todo[0].id, todo[0].outcome, phase);
    }

    /** After this nothing more is accepted. */
    method Close()
      requires Valid()
      modifies this`closed
      ensures Valid() && closed
    {
      closed := true;
    }

    /** Whoever closes the queue, and the worker on its way out, fail what is still queued, one at a time. */
    method FailQueuedOne()
      requires Valid() && closed && channel != []
      modifies this`channel, this`queuedRequests, this`queuedBytes, this`results
      ensures Valid() && phase == old(phase) && channel == old(channel[1..])
      ensures old(channel[0]) !in old(results) && results == old(results)[old(channel[0]) := Failed(QueueClosed)]
    {
      hide OutcomeOk, Settled, IndexOk, Env.Sound, TotalBytes;
      ghost var all, n := All(), |InHand(phase)|;
      var id := channel[0];
      assert all[n] == id;
      FinishFacts(all, requests, results, n, Failed(QueueClosed));
      Finish(id, Failed(QueueClosed));
      channel := channel[1..];
      assert All() == Without(all, n);
      OutcomesFailed(repo.env, requests, old(results), phase, id);
    }

    /** The worker goes on until nothing is left, with nothing new coming in: then every request that was
        ever accepted has exactly one result, and the counters are back at zero. */
    method RunUntilQuiet(gateOpen: bool, putFails: bool, gone: set<nat>)
      requires Valid()
      modifies this, repo`index, repo.writer
      ensures Valid() && channel == [] && phase == Idle
      ensures requests == old(requests) && results.Keys == requests.Keys && queuedRequests == 0 && queuedBytes == 0
      ensures forall id :: id in old(results) ==> results[id] == old(results)[id]
    {
      hide OutcomeOk, Settled, IndexOk, Env.Sound, Counted, OutcomesOk, PutEach, OwnResults, Env.AllStorable;
      while !(phase.Idle? && channel == [])
        invariant Valid() && requests == old(requests)
        invariant forall id :: id in old(results) ==> id in results && results[id] == old(results)[id]
        decreases 7 * |channel| + Work(phase)
      {
        if phase.Idle? {
          Take();
        } else if phase.Collecting? {
          if channel != [] && phase.total < coalesceMaxBytes { CollectOne(); } else { EndCollect(); }
        } else if phase.Checking? {
          if phase.left != [] { CheckOne(phase.left[0] in gone); } else { Write(gateOpen, putFails); }
        } else {
          FinishOne();
        }
      }
      assert All() == [];
      AllSettled(requests, results, queuedRequests, queuedBytes);
    }
  }

  /** The steps a batch still has before it. */
  function Work(p: Phase): nat {
    match p
    case Idle => 0
    case Collecting(batch, _) => 4 * |batch| + 2
    case Checking(active, left) => 2 * |active| + 3 * |left| + 1
    case Finishing(todo) => |todo|
  }

  lemma FailedOk(c: Crypto, chunks: seq<Bytes>, e: QueueError)
    ensures OutcomeOk(c, chunks, Failed(e))
  {
  }

  /** Everything unfinished was accepted, and so was everything that has a result. */
  lemma SettledKeys(phase: Phase, channel: seq<nat>, requests: Requests, results: map<nat, Outcome>)
    requires Settled(InHand(phase) + channel, requests, results)
    ensures forall id :: id in results ==> id in requests
    ensures forall k :: 0 <= k < |channel| ==> channel[k] in requests
    ensures forall k :: 0 <= k < |InHand(phase)| ==> InHand(phase)[k] in requests
    ensures phase.Finishing? ==> forall k :: 0 <= k < |phase.todo| ==> phase.todo[k].id in requests
  {
    var all := InHand(phase) + channel;
    forall k | 0 <= k < |channel| ensures channel[k] in requests { assert all[|InHand(phase)| + k] == channel[k]; }
    forall k | 0 <= k < |InHand(phase)| ensures InHand(phase)[k] in requests { assert all[k] == InHand(phase)[k]; }
    if phase.Finishing? {
      forall k | 0 <= k < |phase.todo| ensures phase.todo[k].id in requests { assert InHand(phase)[k] == phase.todo[k].id; }
    }
  }

  lemma AllStorableOf(env: Env, requests: Requests, results: map<nat, Outcome>, phase: Phase, active: seq<nat>)
    requires OutcomesOk(env, requests, results, phase) && forall i :: 0 <= i < |active| ==> active[i] in requests
    ensures forall i :: 0 <= i < |active| ==> env.AllStorable(Lists(active, requests)[i]) && env.AllStorable(requests[active[i]])
  {
    hide OutcomeOk, Env.AllStorable;
  }

  lemma OutcomesWritten(env: Env, requests: Requests, results: map<nat, Outcome>, phase: Phase, todo: seq<Reply>)
    requires OutcomesOk(env, requests, results, phase)
    requires forall k :: 0 <= k < |todo| ==> todo[k].id in requests && OutcomeOk(env.crypto, requests[todo[k].id], todo[k].outcome)
    ensures OutcomesOk(env, requests, results, Finishing(todo))
  {
    hide OutcomeOk, Env.AllStorable;
  }

  lemma SliceOwn(env: Env, s: Store, index: Index, lists: seq<seq<Bytes>>, k: nat)
    requires s.Valid() && k < |lists|
    ensures var from := |Flatten(lists[..k])|;
      && from + |lists[k]| <= |Flatten(lists)|
      && OwnResults(env, s, index, lists, k, Refs(PutEach(env, s, index, Flatten(lists)).results[from..from + |lists[k]|]))
  {
    hide PutEach;
    SliceIsOwn(env, s, index, lists, k);
  }

  lemma OutcomesFailed(env: Env, requests: Requests, results: map<nat, Outcome>, phase: Phase, id: nat)
    requires OutcomesOk(env, requests, results, phase)
    ensures OutcomesOk(env, requests, results[id := Failed(QueueClosed)], phase)
  {
    hide Env.AllStorable;
  }

  lemma AllSettled(requests: Requests, results: map<nat, Outcome>, queuedRequests: int, queuedBytes: int)
    requires Settled([], requests, results) && Counted([], requests, queuedRequests, queuedBytes)
    ensures results.Keys == requests.Keys && queuedRequests == 0 && queuedBytes == 0
  {
  }

  lemma TotalNew(all: seq<nat>, requests: Requests, id: nat, chunks: seq<Bytes>)
    requires (forall i :: 0 <= i < |all| ==> all[i] in requests) && id !in requests
    ensures forall i :: 0 <= i < |all + [id]| ==> (all + [id])[i] in requests[id := chunks]
    ensures TotalBytes(all + [id], requests[id := chunks]) == TotalBytes(all, requests) + ChunkBytes(chunks)
  {
    var all', requests' := all + [id], requests[id := chunks];
    assert all'[..|all|] == all;
    forall i | 0 <= i < |all| ensures all[i] in requests' && requests'[all[i]] == requests[all[i]] { assert all[i] != id; }
    TotalSame(all, requests, requests');
  }

  lemma OutcomesNew(env: Env, requests: Requests, results: map<nat, Outcome>, phase: Phase, id: nat, chunks: seq<Bytes>)
    requires OutcomesOk(env, requests, results, phase) && env.AllStorable(chunks) && id !in requests && id !in results
    requires phase.Finishing? ==> forall k :: 0 <= k < |phase.todo| ==> phase.todo[k].id in requests
    ensures OutcomesOk(env, requests[id := chunks], results, phase)
  {
    hide OutcomeOk, Env.AllStorable;
  }

  lemma OutcomesFinish(env: Env, requests: Requests, results: map<nat, Outcome>, phase: Phase, id: nat, o: Outcome, phase': Phase)
    requires OutcomesOk(env, requests, results, phase) && id in requests && OutcomeOk(env.crypto, requests[id], o)
    requires phase'.Finishing? ==> phase.Finishing? && phase.todo != [] && phase'.todo == phase.todo[1..]
    ensures OutcomesOk(env, requests, results[id := o], phase')
  {
    hide OutcomeOk, Env.AllStorable;
  }

  lemma IdleOk(env: Env, requests: Requests, results: map<nat, Outcome>, phase: Phase)
    requires OutcomesOk(env, requests, results, phase)
    ensures OutcomesOk(env, requests, results, Idle)
  {
    hide OutcomeOk, Env.AllStorable;
  }

  lemma FinishFacts(all: seq<nat>, requests: Requests, results: map<nat, Outcome>, i: nat, o: Outcome)
    requires Settled(all, requests, results) && i < |all|
    ensures all[i] in requests && all[i] !in results
    ensures forall k :: 0 <= k < |all| ==> all[k] in requests
    ensures Settled(Without(all, i), requests, results[all[i] := o])
    ensures forall k :: 0 <= k < |Without(all, i)| ==> Without(all, i)[k] in requests
    ensures TotalBytes(all, requests) == TotalBytes(Without(all, i), requests) + ChunkBytes(requests[all[i]])
  {
    SettledFinish(all, requests, results, i, o);
    TotalWithout(all, i, requests);
  }
}
