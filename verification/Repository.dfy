/** The chunk repository: segment files, the digest index, manifests and the snapshot table. */
module Repositories {
  import opened Base
  import opened Records
  import opened Segments
  import opened Manifests
  import opened PutSpec
  import Pack

  /** Everything on disk. `snapshots` maps a manifest id to whether its snapshot is active. */
  datatype RepoView = RepoView(
    store: Store, index: Index, manifests: map<Bytes, Manifest>, snapshots: map<Bytes, bool>)
  {
    ghost function Active(): set<Bytes> { set id | id in snapshots && snapshots[id] }
  }

  const BACKSLASH: byte := 0x5C

  /** Ids that name a file in the manifests directory and nothing outside it. */
  predicate ValidId(id: Bytes) {
    && id != [] && Pack.SLASH !in id && BACKSLASH !in id
    && forall i :: 0 <= i < |id| - 1 ==> !(id[i] == Pack.DOT && id[i + 1] == Pack.DOT)
  }

  /** What holds of the disk between any two steps. */
  ghost predicate RepoOk(env: Env, v: RepoView) {
    && v.store.Valid()
    && IndexOk(env.crypto, v.store.segs, v.index)
    && (forall id :: id in v.manifests ==> v.manifests[id].id == id && ValidId(id))
    && v.Active() <= v.manifests.Keys
    && (forall id :: id in v.Active() ==> AllIssued(v.store, v.manifests[id]))
  }

  /** A digest whose entry the grace period still protects; no cutoff protects nothing, and neither does a zero time. */
  predicate Young(ref: ChunkRef, cutoff: Option<int>) {
    cutoff.Some? && ref.createdAt != 0 && ref.createdAt > cutoff.value
  }

  // ---- PutChunks: one index lookup and one segment write per distinct new digest ----

  /** How a request of the batch is answered: from the index, by the write of its own, or by an
      earlier request's write. */
  datatype Slot = Existing(ref: ChunkRef) | First(k: nat) | Alias(k: nat)

  function Answer(slot: Slot, refs: seq<ChunkRef>): PutResult
    requires slot.Existing? || slot.k < |refs|
  {
    match slot
    case Existing(ref) => PutResult(ref, true)
    case First(k) => PutResult(refs[k], false)
    case Alias(k) => PutResult(refs[k], true)
  }

  function PutBatch(index: Index, refs: seq<ChunkRef>): Index {
    if refs == [] then index else PutBatch(index, refs[..|refs| - 1])[refs[|refs| - 1].hash := refs[|refs| - 1]]
  }

  /** `pending` are the chunks to write, found by digest; none of them is indexed yet. */
  ghost predicate Listed(c: Crypto, index: Index, pending: seq<Bytes>, byHash: map<Hash, nat>) {
    && (forall h :: h in byHash ==> byHash[h] < |pending| && c.hash(pending[byHash[h]]) == h && h !in index)
    && (forall k :: 0 <= k < |pending| ==> c.hash(pending[k]) in byHash && byHash[c.hash(pending[k])] == k)
  }

  /** The index `r` is `index` with the refs of the pending writes added. */
  ghost predicate Merged(index: Index, byHash: map<Hash, nat>, refs: seq<ChunkRef>, r: Index) {
    && (forall h :: h in byHash ==> byHash[h] < |refs|)
    && (forall h :: h in r <==> h in index || h in byHash)
    && (forall h :: h in index && h !in byHash ==> r[h] == index[h])
    && (forall h :: h in byHash ==> r[h] == refs[byHash[h]])
  }

  ghost predicate Answered(slots: seq<Slot>, refs: seq<ChunkRef>, results: seq<PutResult>) {
    && |slots| == |results|
    && forall j :: 0 <= j < |slots| ==> (slots[j].Existing? || slots[j].k < |refs|) && results[j] == Answer(slots[j], refs)
  }

  /** `done` requests sorted into slots: writing `pending` now would give what putting `done` one by one gives. */
  ghost predicate Sorted(env: Env, s: Store, index: Index, done: seq<Bytes>, pending: seq<Bytes>,
                         byHash: map<Hash, nat>, slots: seq<Slot>)
    requires s.Valid()
  {
    var w, r := WriteAll(env, s, pending), PutEach(env, s, index, done);
    && Listed(env.crypto, index, pending, byHash)
    && r.store == w.0
    && r.index == PutBatch(index, w.1) && Merged(index, byHash, w.1, r.index)
    && Answered(slots, w.1, r.results)
  }

  lemma SortedStart(env: Env, s: Store, index: Index)
    requires s.Valid()
    ensures Sorted(env, s, index, [], [], map[], [])
  {
  }

  lemma PutEachSnoc(env: Env, s: Store, index: Index, done: seq<Bytes>, data: Bytes)
    requires s.Valid()
    ensures var r := PutEach(env, s, index, done); var last := PutOne(env, r.store, r.index, data);
      PutEach(env, s, index, done + [data]) == Puts(last.0, last.1, r.results + [last.2])
  {
    hide PutOne;
    assert (done + [data])[..|done|] == done;
  }

  lemma WriteAllSnoc(env: Env, s: Store, pending: seq<Bytes>, data: Bytes)
    requires s.Valid()
    ensures var w := WriteAll(env, s, pending); var last := WriteChunk(env, w.0, data);
      WriteAll(env, s, pending + [data]) == (last.0, w.1 + [last.1])
  {
    hide WriteChunk;
    assert (pending + [data])[..|pending|] == pending;
  }

  lemma SortedOld(env: Env, s: Store, index: Index, done: seq<Bytes>, pending: seq<Bytes>,
                  byHash: map<Hash, nat>, slots: seq<Slot>, data: Bytes)
    requires s.Valid() && Sorted(env, s, index, done, pending, byHash, slots)
    requires env.crypto.hash(data) in index || env.crypto.hash(data) in byHash
    ensures var h := env.crypto.hash(data);
      Sorted(env, s, index, done + [data], pending, byHash,
             slots + [if h in byHash then Alias(byHash[h]) else Existing(index[h])])
  {
    PutEachSnoc(env, s, index, done, data);
    hide WriteChunk, WriteAll, PutEach, PutBatch;
  }

  lemma SortedNew(env: Env, s: Store, index: Index, done: seq<Bytes>, pending: seq<Bytes>,
                  byHash: map<Hash, nat>, slots: seq<Slot>, data: Bytes)
    requires s.Valid() && Sorted(env, s, index, done, pending, byHash, slots)
    requires env.crypto.hash(data) !in index && env.crypto.hash(data) !in byHash
    ensures Sorted(env, s, index, done + [data], pending + [data],
                   byHash[env.crypto.hash(data) := |pending|], slots + [First(|pending|)])
  {
    var h, w := env.crypto.hash(data), WriteAll(env, s, pending);
    var last := WriteChunk(env, w.0, data);
    assert last.1.hash == h;
    hide WriteChunk, WriteAll, PutEach, Listed, Merged, Answered;
    PutEachSnoc(env, s, index, done, data);
    WriteAllSnoc(env, s, pending, data);
    assert (w.1 + [last.1])[..|w.1|] == w.1;
    var r := PutEach(env, s, index, done);
    MergedNew(index, byHash, w.1, r.index, last.1);
    ListedNew(env.crypto, index, pending, byHash, data);
    AnsweredNew(slots, w.1, r.results, last.1);
  }

  lemma ListedNew(c: Crypto, index: Index, pending: seq<Bytes>, byHash: map<Hash, nat>, data: Bytes)
    requires Listed(c, index, pending, byHash) && c.hash(data) !in index && c.hash(data) !in byHash
    ensures Listed(c, index, pending + [data], byHash[c.hash(data) := |pending|])
  {
  }

  lemma MergedNew(index: Index, byHash: map<Hash, nat>, refs: seq<ChunkRef>, r: Index, ref: ChunkRef)
    requires Merged(index, byHash, refs, r)
    ensures Merged(index, byHash[ref.hash := |refs|], refs + [ref], r[ref.hash := ref])
    ensures ref.hash in r <==> ref.hash in index || ref.hash in byHash
  {
  }

  lemma AnsweredNew(slots: seq<Slot>, refs: seq<ChunkRef>, results: seq<PutResult>, ref: ChunkRef)
    requires Answered(slots, refs, results)
    ensures Answered(slots + [First(|refs|)], refs + [ref], results + [PutResult(ref, false)])
  {
  }

  lemma SortedEnd(env: Env, s: Store, index: Index, chunks: seq<Bytes>, pending: seq<Bytes>,
                  byHash: map<Hash, nat>, slots: seq<Slot>, results: seq<PutResult>)
    requires s.Valid() && Sorted(env, s, index, chunks, pending, byHash, slots)
    requires |results| == |chunks|
    requires Answered(slots, WriteAll(env, s, pending).1, results)
    ensures var w := WriteAll(env, s, pending);
      PutEach(env, s, index, chunks) == Puts(w.0, PutBatch(index, w.1), results)
  {
    hide WriteChunk, PutBatch, WriteAll, PutEach;
    assert PutEach(env, s, index, chunks).results == results;
  }

  ghost predicate FiledAt(slot: Slot, j: nat, result: PutResult, resultIndexes: seq<nat>, aliases: map<nat, seq<nat>>) {
    match slot
    case Existing(ref) => result == PutResult(ref, true)
    case First(k) => k < |resultIndexes| && resultIndexes[k] == j
    case Alias(k) => k < |resultIndexes| && k in aliases && j in aliases[k]
  }

  /** Where each answered request's result is, and where the others are noted down. */
  ghost predicate Filed(slots: seq<Slot>, results: seq<PutResult>, resultIndexes: seq<nat>, aliases: map<nat, seq<nat>>) {
    && |slots| <= |results|
    && (forall j :: 0 <= j < |slots| ==> FiledAt(slots[j], j, results[j], resultIndexes, aliases))
    && (forall k :: 0 <= k < |resultIndexes| ==> resultIndexes[k] < |slots| && slots[resultIndexes[k]] == First(k))
    && (forall k :: k in aliases ==> k < |resultIndexes| && AliasesOf(slots, k, aliases[k]))
  }

  ghost predicate AliasesOf(slots: seq<Slot>, k: nat, list: seq<nat>) {
    forall a :: 0 <= a < |list| ==> list[a] < |slots| && slots[list[a]] == Alias(k)
  }

  lemma FiledStart(results: seq<PutResult>)
    ensures Filed([], results, [], map[])
  {
  }

  lemma FiledExisting(slots: seq<Slot>, results: seq<PutResult>, resultIndexes: seq<nat>, aliases: map<nat, seq<nat>>, ref: ChunkRef)
    requires Filed(slots, results, resultIndexes, aliases) && |slots| < |results|
    ensures Filed(slots + [Existing(ref)], results[|slots| := PutResult(ref, true)], resultIndexes, aliases)
  {
  }

  lemma FiledFirst(slots: seq<Slot>, results: seq<PutResult>, resultIndexes: seq<nat>, aliases: map<nat, seq<nat>>)
    requires Filed(slots, results, resultIndexes, aliases) && |slots| < |results|
    ensures Filed(slots + [First(|resultIndexes|)], results, resultIndexes + [|slots|], aliases)
  {
  }

  lemma FiledAlias(slots: seq<Slot>, results: seq<PutResult>, resultIndexes: seq<nat>, aliases: map<nat, seq<nat>>, k: nat)
    requires Filed(slots, results, resultIndexes, aliases) && |slots| < |results| && k < |resultIndexes|
    ensures Filed(slots + [Alias(k)], results, resultIndexes,
                  aliases[k := (if k in aliases then aliases[k] else []) + [|slots|]])
  {
    var before := if k in aliases then aliases[k] else [];
    var slots', list := slots + [Alias(k)], before + [|slots|];
    var aliases' := aliases[k := list];
    assert list[|before|] == |slots|;
    forall j | 0 <= j < |slots'| ensures FiledAt(slots'[j], j, results[j], resultIndexes, aliases') {
      if j < |slots| { assert FiledAt(slots[j], j, results[j], resultIndexes, aliases); }
    }
    forall p | p in aliases' ensures AliasesOf(slots', p, aliases'[p]) {
      assert p in aliases ==> AliasesOf(slots, p, aliases[p]);
    }
  }

  method FillResults(noted: seq<PutResult>, refs: seq<ChunkRef>, resultIndexes: seq<nat>,
                     aliases: map<nat, seq<nat>>, ghost slots: seq<Slot>)
    returns (results: seq<PutResult>)
    requires Filed(slots, noted, resultIndexes, aliases) && |slots| == |noted| && |refs| == |resultIndexes|
    ensures Answered(slots, refs, results)
  {
    results := noted;
    for p := 0 to |refs|
      invariant |results| == |noted|
      invariant forall j :: 0 <= j < |slots| && (slots[j].Existing? || slots[j].k < p) ==> results[j] == Answer(slots[j], refs)
    {
      results := results[resultIndexes[p] := PutResult(refs[p], false)];
      if p in aliases {
        for a := 0 to |aliases[p]|
          invariant |results| == |noted|
          invariant forall j :: 0 <= j < |slots| && (slots[j].Existing? || slots[j].k < p || slots[j] == First(p)) ==>
            results[j] == Answer(slots[j], refs)
          invariant forall b :: 0 <= b < a ==> aliases[p][b] < |noted| && results[aliases[p][b]] == PutResult(refs[p], true)
        {
          assert AliasesOf(slots, p, aliases[p]);
          results := results[aliases[p][a] := PutResult(refs[p], true)];
        }
      }
    }
  }

  lemma NothingPending(env: Env, s: Store, index: Index, chunks: seq<Bytes>, byHash: map<Hash, nat>, slots: seq<Slot>,
                       results: seq<PutResult>, resultIndexes: seq<nat>, aliases: map<nat, seq<nat>>)
    requires s.Valid() && Sorted(env, s, index, chunks, [], byHash, slots)
    requires |results| == |chunks| && resultIndexes == [] && Filed(slots, results, resultIndexes, aliases)
    ensures PutEach(env, s, index, chunks) == Puts(s, index, results)
  {
    assert WriteAll(env, s, []) == (s, []);
    SortedEnd(env, s, index, chunks, [], byHash, slots, results);
  }

  class Repository {
    const env: Env
    const writer: SegmentWriter
    var index: Index
    var manifests: map<Bytes, Manifest>
    var snapshots: map<Bytes, bool>
    ghost var trace: seq<RepoView>  // the disk after each single change a maintenance step makes

    ghost function View(): RepoView
      reads this, writer
    {
      RepoView(writer.View(), index, manifests, snapshots)
    }

    ghost predicate Valid()
      reads this, writer
    {
      writer.env == env && env.Sound() && RepoOk(env, View())
    }

    /** Open the repository over what is on disk; on an empty disk everything is empty. */
    constructor (env: Env, files: Segs, ids: seq<int>, written: nat, index: Index,
                 manifests: map<Bytes, Manifest>, snapshots: map<Bytes, bool>)
      requires ToSet(ids) == files.Keys && forall i, j :: 0 <= i < j < |ids| ==> ids[i] <= ids[j]
      ensures this.env == env && writer.env == env && fresh(writer)
      ensures writer.View().Valid()
      ensures View() == RepoView(OpenSpec(env, files, if ids == [] then 1 else ids[|ids| - 1], written), index, manifests, snapshots)
      ensures trace == [View()]
    {
      this.env, this.index, this.manifests, this.snapshots := env, index, manifests, snapshots;
      writer := new SegmentWriter(env, files, ids, written);
      new;
      trace := [View()];
    }

    /** The loop over the requests: answer what the index has, list each new digest once, and note
        the requests that wait for a listed one. */
    method SortRequests(chunks: seq<Bytes>)
      returns (results: seq<PutResult>, pendingWrites: seq<Bytes>, resultIndexes: seq<nat>, aliases: map<nat, seq<nat>>,
               ghost byHash: map<Hash, nat>, ghost slots: seq<Slot>)
      requires writer.View().Valid()
      ensures Sorted(env, writer.View(), index, chunks, pendingWrites, byHash, slots)
      ensures |results| == |chunks| && |resultIndexes| == |pendingWrites| && |slots| == |chunks|
      ensures Filed(slots, results, resultIndexes, aliases)
    {
      hide Sorted, Filed;
      var pendingByHash: map<Hash, nat> := map[];
      var zero := PutResult(ChunkRef([], 0, 0, 0, 0, 0, 0), false);
      results, pendingWrites, resultIndexes, aliases, slots := seq(|chunks|, i => zero), [], [], map[], [];
      ghost var s := writer.View();
      SortedStart(env, s, index);
      FiledStart(results);
      for i := 0 to |chunks|
        invariant writer.View() == s
        invariant Sorted(env, s, index, chunks[..i], pendingWrites, pendingByHash, slots)
        invariant |results| == |chunks| && |resultIndexes| == |pendingWrites| && |slots| == i
        invariant forall h :: h in pendingByHash ==> pendingByHash[h] < |pendingWrites|
        invariant Filed(slots, results, resultIndexes, aliases)
      {
        assert chunks[..i + 1] == chunks[..i] + [chunks[i]];
        var hash := env.crypto.hash(chunks[i]);
        if hash in pendingByHash {
          SortedOld(env, s, index, chunks[..i], pendingWrites, pendingByHash, slots, chunks[i]);
          var k := pendingByHash[hash];
          FiledAlias(slots, results, resultIndexes, aliases, k);
          aliases := aliases[k := (if k in aliases then aliases[k] else []) + [i]];
          slots := slots + [Alias(k)];
        } else if hash in index {
          SortedOld(env, s, index, chunks[..i], pendingWrites, pendingByHash, slots, chunks[i]);
          FiledExisting(slots, results, resultIndexes, aliases, index[hash]);
          results := results[i := PutResult(index[hash], true)];
          slots := slots + [Existing(index[hash])];
        } else {
          SortedNew(env, s, index, chunks[..i], pendingWrites, pendingByHash, slots, chunks[i]);
          FiledFirst(slots, results, resultIndexes, aliases);
          slots := slots + [First(|pendingWrites|)];
          pendingByHash := pendingByHash[hash := |pendingWrites|];
          resultIndexes := resultIndexes + [i];
          pendingWrites := pendingWrites + [chunks[i]];
        }
      }
      assert chunks[..|chunks|] == chunks;
      byHash := pendingByHash;
    }

    /** The batch does what putting its chunks one by one does, to the same store, with the same refs. */
    method PutChunks(chunks: seq<Bytes>) returns (results: seq<PutResult>)
      requires writer.env == env && writer.View().Valid()
      modifies this`index, writer
      ensures writer.View().Valid()
      ensures Puts(writer.View(), index, results) == PutEach(env, old(writer.View()), old(index), chunks)
    {
      hide WriteAll, PutEach, Sorted, Filed;
      ghost var s := writer.View();
      var noted, pendingWrites, resultIndexes, aliases, byHash, slots := SortRequests(chunks);
      results := noted;
      if |pendingWrites| == 0 {
        NothingPending(env, s, index, chunks, byHash, slots, results, resultIndexes, aliases);
        return;
      }
      var refs := writer.WriteChunks(pendingWrites);
      CommitBatch(refs);
      results := FillResults(noted, refs, resultIndexes, aliases, slots);
      SortedEnd(env, s, old(index), chunks, pendingWrites, byHash, slots, results);
    }

    /** The index batch: all its entries are set in one commit. */
    method CommitBatch(refs: seq<ChunkRef>)
      modifies this`index
      ensures index == PutBatch(old(index), refs)
    {
      var staged := index;
      for i := 0 to |refs|
        invariant staged == PutBatch(index, refs[..i]) && index == old(index)
      {
        assert refs[..i + 1][..i] == refs[..i];
        staged := staged[refs[i].hash := refs[i]];
      }
      assert refs[..|refs|] == refs;
      index := staged;
    }

    // ---- maintenance: every single change to the disk is one entry of `trace` ----

    method ReadManifest(id: Bytes) returns (r: Option<Manifest>)
      ensures r == if ValidId(id) && id in manifests then Some(manifests[id]) else None
    {
      if !ValidId(id) { return None; }
      r := if id in manifests then Some(manifests[id]) else None;
    }

    /** Replaces the manifest file in one step: temporary file, sync, rename. */
    method WriteManifest(m: Manifest) returns (ok: bool)
      modifies this`manifests, this`trace
      ensures ok == ValidId(m.id)
      ensures View() == old(View()).(manifests := if ok then old(manifests)[m.id := m] else old(manifests))
      ensures trace == old(trace) + if ok then [View()] else []
    {
      ok := ValidId(m.id);
      if ok {
        manifests := manifests[m.id := m];
        trace := trace + [View()];
      }
    }

    method RotateSegmentForMaintenance()
      requires writer.View().Valid()
      modifies this`trace, writer
      ensures View() == old(View()).(store := if |old(writer.segs[writer.id])| > 0 then Rotate(old(writer.View())) else old(writer.View()))
      ensures trace == old(trace) + [View()]
    {
      if |writer.segs[writer.id]| > 0 { writer.RotateFile(); }
      trace := trace + [View()];
    }

    /** Copies one chunk to the open segment and points the index at the copy: two writes to the disk. */
    method RewriteChunkRef(oldRef: ChunkRef) returns (r: Result<ChunkRef, ReadError>)
      requires writer.env == env && writer.View().Valid()
      modifies this`index, this`trace, writer
      ensures var was := old(View());
        match Read(env.crypto, was.store.segs, oldRef)
        case Err(e) => r == Err(e) && View() == was && trace == old(trace)
        case Ok(data) =>
          var w := WriteChunk(env, was.store, data);
          && r == Ok(w.1)
          && View() == was.(store := w.0, index := was.index[oldRef.hash := w.1])
          && trace == old(trace) + [was.(store := w.0), View()]
    {
      hide DecodeRecord, EncodeRecord;
      var data := Read(env.crypto, writer.segs, oldRef);
      if data.Err? { return Err(data.error); }
      var newRef := writer.AppendRecord(data.value);
      trace := trace + [View()];
      index := index[newRef.hash := newRef];
      trace := trace + [View()];
      r := Ok(newRef);
    }

    /** Deletes, in one batch, the index entries that are neither kept nor younger than the cutoff. */
    method DeleteUnreferenced(keep: set<Hash>, cutoff: Option<int>) returns (removed: set<Hash>)
      modifies this`index, this`trace
      ensures removed == set h | h in old(index) && h !in keep && !Young(old(index)[h], cutoff)
      ensures View() == old(View()).(index := old(index) - removed)
      ensures trace == old(trace) + [View()]
    {
      removed := {};
      var todo := index.Keys;
      while todo != {}
        invariant todo <= index.Keys && index == old(index) && View() == old(View()) && trace == old(trace)
        invariant removed == set h | h in index && h !in todo && h !in keep && !Young(index[h], cutoff)
      {
        var hash := Pick(todo);
        todo := todo - {hash};
        if hash !in keep && !Young(index[hash], cutoff) { removed := removed + {hash}; }
      }
      index := index - removed;
      trace := trace + [View()];
    }

    /** Removes every segment file that is not kept and not the open one, one file at a time. */
    method DeleteSegmentsExcept(keep: set<int>) returns (removed: set<int>)
      requires writer.View().Valid()
      modifies this`trace, writer
      ensures removed == old(writer.segs.Keys) - (keep + {writer.id}) && writer.id == old(writer.id)
      ensures View() == old(View()).(store := old(writer.View()).(segs := old(writer.segs) - removed))
      ensures |trace| >= |old(trace)| && trace[..|old(trace)|] == old(trace)
      ensures forall i :: |old(trace)| <= i < |trace| ==>
        exists gone: set<int> :: gone <= removed
          && trace[i] == old(View()).(store := old(writer.View()).(segs := old(writer.segs) - gone))
    {
      var todo: set<int> := writer.segs.Keys - (keep + {writer.id});
      removed := {};
      ghost var all := todo;
      assert writer.segs - removed == writer.segs;
      while todo != {}
        invariant todo + removed == all && todo !! removed && all == old(writer.segs.Keys) - (keep + {writer.id})
        invariant View() == old(View()).(store := old(writer.View()).(segs := old(writer.segs) - removed))
        invariant |trace| >= |old(trace)| && trace[..|old(trace)|] == old(trace)
        invariant forall i :: |old(trace)| <= i < |trace| ==>
          exists gone: set<int> :: gone <= all
            && trace[i] == old(View()).(store := old(writer.View()).(segs := old(writer.segs) - gone))
      {
        var file := Pick(todo);
        todo, removed := todo - {file}, removed + {file};
        writer.RemoveFile(file);
        assert writer.segs == old(writer.segs) - removed;
        trace := trace + [View()];
      }
    }

    /** Removes the manifest files that are neither kept nor newer than the grace period (`expired`). */
    method DeleteManifestsExcept(keep: set<Bytes>, expired: set<Bytes>) returns (removed: set<Bytes>)
      modifies this`manifests, this`trace
      ensures removed == old(manifests).Keys * expired - keep
      ensures View() == old(View()).(manifests := old(manifests) - removed)
      ensures |trace| >= |old(trace)| && trace[..|old(trace)|] == old(trace)
      ensures forall i :: |old(trace)| <= i < |trace| ==>
        exists gone: set<Bytes> :: gone <= removed && trace[i] == old(View()).(manifests := old(manifests) - gone)
    {
      removed := {};
      ghost var all := manifests.Keys * expired - keep;
      var todo: set<Bytes> := manifests.Keys;
      assert manifests - removed == manifests;
      while todo != {}
        invariant todo <= old(manifests.Keys) && removed == (old(manifests).Keys - todo) * expired - keep
        invariant View() == old(View()).(manifests := old(manifests) - removed)
        invariant |trace| >= |old(trace)| && trace[..|old(trace)|] == old(trace)
        invariant forall i :: |old(trace)| <= i < |trace| ==>
          exists gone: set<Bytes> :: gone <= all && trace[i] == old(View()).(manifests := old(manifests) - gone)
      {
        var id := Pick(todo);
        todo := todo - {id};
        if id !in keep && id in expired {
          removed := removed + {id};
          manifests := manifests - {id};
          assert manifests == old(manifests) - removed;
          trace := trace + [View()];
        }
      }
    }
  }
}
