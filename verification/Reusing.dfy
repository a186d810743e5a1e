/** Whether the chunks of an unchanged file are still stored, so that the list the catalog has of them
    can be used again. */
module Reusing {
  import opened Base
  import opened Batching

  type Checks = (nat, seq<Hash>) -> Option<CheckResponse>  // the answer to each check request, by number

  function Limit(maxChunks: int): (r: nat)
    ensures r > 0
  {
    if maxChunks <= 0 then 10000 else maxChunks
  }

  /** The requests a list of digests takes. */
  function Batches(hashes: seq<Hash>, limit: nat): (r: seq<seq<Hash>>)
    requires limit > 0
    ensures r != []
  {
    if |hashes| <= limit then [hashes] else [hashes[..limit]] + Batches(hashes[limit..], limit)
  }

  /** No digest is in two of the requests. */
  predicate Apart(batches: seq<seq<Hash>>) {
    forall a, b :: 0 <= a < b < |batches| ==> ToSet(batches[a]) !! ToSet(batches[b])
  }

  /** Every request is answered, and answered properly. */
  predicate AllAnswered(check: Checks, batches: seq<seq<Hash>>, repositoryId: Bytes, compact: bool) {
    forall k :: 0 <= k < |batches| ==> check(k, batches[k]).Some? && CheckOk(batches[k], repositoryId, check(k, batches[k]).value, compact)
  }

  /** What is called missing is what the server does not have. */
  ghost predicate Truthful(check: Checks, index: set<Hash>) {
    forall k, batch :: check(k, batch).Some? ==>
      forall h :: h in batch ==> (h in check(k, batch).value.missing <==> h !in index)
  }

  /** The highest generation among the answers. */
  function Newest(check: Checks, batches: seq<seq<Hash>>): nat
    requires forall k :: 0 <= k < |batches| ==> check(k, batches[k]).Some?
  {
    if batches == [] then 0
    else
      var n := |batches| - 1;
      var before, last := Newest(check, batches[..n]), check(n, batches[n]).value.generation;
      if last > before then last else before
  }

  /** Two lists that have each digest once, in one of them. */
  predicate Parted(a: seq<Hash>, b: seq<Hash>) { Distinct(a) && Distinct(b) && ToSet(a) !! ToSet(b) }

  lemma DistinctJoin(a: seq<Hash>, b: seq<Hash>)
    ensures Distinct(a + b) <==> Distinct(a) && Distinct(b) && ToSet(a) !! ToSet(b)
  {
    var s := a + b;
    if Distinct(s) {
      forall i, j | 0 <= i < j < |a| ensures a[i] != a[j] { assert s[i] != s[j]; }
      forall i, j | 0 <= i < j < |b| ensures b[i] != b[j] { assert s[|a| + i] != s[|a| + j]; }
      forall x | x in ToSet(a) ensures x !in ToSet(b) {
        var i :| 0 <= i < |a| && a[i] == x;
        forall j | 0 <= j < |b| ensures b[j] != x { assert s[i] != s[|a| + j]; }
      }
    } else if Distinct(a) && Distinct(b) {
      var i, j :| 0 <= i < j < |s| && s[i] == s[j];
      assert s[i] in ToSet(a) && s[i] in ToSet(b);
    }
  }

  lemma JoinedSet(a: seq<Hash>, b: seq<Hash>)
    ensures ToSet(a + b) == ToSet(a) + ToSet(b)
  {
  }

  lemma PartedJoin(a: seq<Hash>, b: seq<Hash>, c: seq<Hash>, d: seq<Hash>)
    ensures Parted(a + c, b + d) <==> Parted(a, b) && Parted(c, d) && ToSet(a) + ToSet(b) !! ToSet(c) + ToSet(d)
  {
    hide Distinct, ToSet;
    DistinctJoin(a, c);
    DistinctJoin(b, d);
    JoinedSet(a, c);
    JoinedSet(b, d);
  }

  lemma {:induction false} InFlatten(batches: seq<seq<Hash>>, h: Hash)
    ensures h in Flatten(batches) <==> exists a :: 0 <= a < |batches| && h in batches[a]
  {
    if batches != [] {
      InFlatten(batches[1..], h);
      if h in Flatten(batches[1..]) {
        var a :| 0 <= a < |batches[1..]| && h in batches[1..][a];
        assert h in batches[a + 1];
      }
      if a :| 0 <= a < |batches| && h in batches[a] {
        assert a > 0 ==> h in batches[1..][a - 1];
      }
    }
  }

  lemma ApartSnoc(batches: seq<seq<Hash>>, b: seq<Hash>)
    ensures Apart(batches + [b]) <==> Apart(batches) && ToSet(Flatten(batches)) !! ToSet(b)
  {
    var more := batches + [b];
    forall h ensures h in Flatten(batches) <==> exists a :: 0 <= a < |batches| && h in batches[a] { InFlatten(batches, h); }
    if Apart(more) {
      forall i, j | 0 <= i < j < |batches| ensures ToSet(batches[i]) !! ToSet(batches[j]) {
        assert ToSet(more[i]) !! ToSet(more[j]);
      }
      forall h | h in ToSet(Flatten(batches)) ensures h !in ToSet(b) {
        var a :| 0 <= a < |batches| && h in batches[a];
        assert ToSet(more[a]) !! ToSet(more[|batches|]);
        assert h in ToSet(more[a]);
      }
    } else if Apart(batches) {
      var i, j :| 0 <= i < j < |more| && !(ToSet(more[i]) !! ToSet(more[j]));
      var h :| h in ToSet(more[i]) && h in ToSet(more[j]);
      assert h in batches[i];
    }
  }

  /** An answer put together from parts that name everything once can be used, and no other can. */
  lemma CombinedOk(hashes: seq<Hash>, repositoryId: Bytes, combined: CheckResponse, compact: bool)
    requires ToSet(combined.present) + ToSet(combined.missing) == ToSet(hashes) && [] !in hashes
    requires RepositoryMatches(repositoryId, combined.repositoryId)
    ensures CheckOk(hashes, repositoryId, combined, compact) <==> Parted(combined.present, combined.missing)
  {
    hide Distinct;
    Apart2(combined.present, combined.missing);
    forall i | 0 <= i < |combined.present| ensures combined.present[i] in hashes { assert combined.present[i] in ToSet(combined.present); }
    forall i | 0 <= i < |combined.missing| ensures combined.missing[i] in hashes { assert combined.missing[i] in ToSet(combined.missing); }
    forall i | 0 <= i < |hashes| ensures hashes[i] in combined.present || hashes[i] in combined.missing { assert hashes[i] in ToSet(hashes); }
  }

  lemma Apart2(a: seq<Hash>, b: seq<Hash>)
    ensures ToSet(a) !! ToSet(b) <==> forall i, j :: 0 <= i < |a| && 0 <= j < |b| ==> a[i] != b[j]
  {
    Batching.Apart(a, b);
  }

  lemma NextBatch(hashes: seq<Hash>, start: nat, end: nat, limit: nat, done: seq<seq<Hash>>)
    requires start < |hashes| && limit > 0 && end == (if start + limit > |hashes| then |hashes| else start + limit)
    requires Flatten(done) == hashes[..start] && Batches(hashes, limit) == done + Batches(hashes[start..], limit)
    ensures Flatten(done + [hashes[start..end]]) == hashes[..end]
    ensures Batches(hashes, limit) == (done + [hashes[start..end]]) + (if end < |hashes| then Batches(hashes[end..], limit) else [])
  {
    hide Flatten;
    FlattenSnoc(done, hashes[start..end]);
    assert hashes[..end] == hashes[..start] + hashes[start..end];
    FirstBatch(hashes, start, end, limit);
    Associative(done, [hashes[start..end]], if end < |hashes| then Batches(hashes[end..], limit) else []);
  }

  lemma FirstBatch(hashes: seq<Hash>, start: nat, end: nat, limit: nat)
    requires start < |hashes| && limit > 0 && end == (if start + limit > |hashes| then |hashes| else start + limit)
    ensures Batches(hashes[start..], limit) == [hashes[start..end]] + (if end < |hashes| then Batches(hashes[end..], limit) else [])
  {
    var rest := hashes[start..];
    if end < |hashes| {
      assert rest[..limit] == hashes[start..end] && rest[limit..] == hashes[end..];
    } else {
      assert rest == hashes[start..end];
    }
  }

  /** The two lists of one proper answer part the digests that were asked for. */
  lemma AnswerParts(batch: seq<Hash>, existing: seq<Hash>, missing: seq<Hash>)
    requires Distinct(existing) && Distinct(missing) && forall i :: 0 <= i < |missing| ==> missing[i] in batch
    requires forall h :: h in existing <==> h in batch && h !in missing
    ensures Parted(existing, missing) && ToSet(existing) + ToSet(missing) == ToSet(batch)
  {
    hide Distinct;
  }

  /** The lists so far and those of one more request. */
  lemma Joined(a: seq<Hash>, b: seq<Hash>, c: seq<Hash>, d: seq<Hash>, before: seq<Hash>, batch: seq<Hash>, done: seq<seq<Hash>>)
    requires ToSet(a) + ToSet(b) == ToSet(before) && Flatten(done) == before && (Parted(a, b) <==> Apart(done))
    requires Parted(c, d) && ToSet(c) + ToSet(d) == ToSet(batch)
    ensures ToSet(a + c) + ToSet(b + d) == ToSet(before + batch)
    ensures Parted(a + c, b + d) <==> Apart(done + [batch])
  {
    hide Parted, Apart, ToSet, Flatten;
    PartedJoin(a, b, c, d);
    ApartSnoc(done, batch);
    JoinedSet(a, c);
    JoinedSet(b, d);
    JoinedSet(before, batch);
  }

  /** One request: its answer, checked, and the digests it says are there. */
  method AskBatch(check: Checks, k: nat, batch: seq<Hash>, repositoryId: Bytes, compact: bool, ghost index: set<Hash>)
    returns (r: Option<CheckResponse>, existing: seq<Hash>)
    requires Truthful(check, index)
    ensures r.Some? <==> check(k, batch).Some? && CheckOk(batch, repositoryId, check(k, batch).value, compact)
    ensures r.Some? ==>
      && r == check(k, batch) && [] !in batch && RepositoryMatches(repositoryId, r.value.repositoryId)
      && Parted(existing, r.value.missing) && ToSet(existing) + ToSet(r.value.missing) == ToSet(batch)
      && forall h :: h in r.value.missing <==> h in batch && h !in index
  {
    hide Distinct, ToSet, Parted, Truthful;
    var answer := check(k, batch);
    if answer.None? { return None, []; }
    var checked := answer.value;
    var ok := ValidateChunkCheckResponse(batch, repositoryId, checked, compact);
    if !ok { return None, []; }
    existing := ExistingChunkHashes(batch, checked, compact);
    AnswerParts(batch, existing, checked.missing);
    TruthfulAnswer(check, index, k, batch);
    r := Some(checked);
  }

  /** Asks in as many requests as it takes, checks each answer, and puts them together: the parts'
      digests side by side, under the newest of their generations. The result passes the checks a single
      answer has to pass exactly when no digest was asked for in two requests. */
  method CheckChunksBatched(check: Checks, hashes: seq<Hash>, repositoryId: Bytes, maxChunks: int, compact: bool, ghost index: set<Hash>)
    returns (r: Option<CheckResponse>)
    requires Truthful(check, index)
    ensures |hashes| <= Limit(maxChunks) ==> r == check(0, hashes)
    ensures |hashes| > Limit(maxChunks) ==> (r.Some? <==> AllAnswered(check, Batches(hashes, Limit(maxChunks)), repositoryId, compact))
    ensures |hashes| > Limit(maxChunks) && r.Some? ==>
      && (CheckOk(hashes, repositoryId, r.value, compact) <==> Apart(Batches(hashes, Limit(maxChunks))))
      && (forall h :: h in r.value.missing <==> h in hashes && h !in index)
      && r.value.generation == Newest(check, Batches(hashes, Limit(maxChunks)))
  {
    hide Distinct, ToSet, Parted, Batches, Apart, Flatten, Truthful, CheckOk, Newest;
    var limit := Limit(maxChunks);
    if |hashes| <= limit { return check(0, hashes); }
    var combined := CheckResponse(repositoryId, 0, [], []);
    var start, calls := 0, 0;
    ghost var done: seq<seq<Hash>> := [];
    NothingYet(hashes, check);
    while start < |hashes|
      invariant start <= |hashes| && calls == |done| && Flatten(done) == hashes[..start] && [] !in hashes[..start]
      invariant Batches(hashes, limit) == done + (if start < |hashes| then Batches(hashes[start..], limit) else [])
      invariant AllAnswered(check, done, repositoryId, compact) && combined.generation == Newest(check, done)
      invariant repositoryId != [] ==> combined.repositoryId == repositoryId
      invariant ToSet(combined.present) + ToSet(combined.missing) == ToSet(hashes[..start])
      invariant Parted(combined.present, combined.missing) <==> Apart(done)
      invariant forall h :: h in combined.missing <==> h in hashes[..start] && h !in index
    {
      var end := if start + limit > |hashes| then |hashes| else start + limit;
      var batch := hashes[start..end];
      NextBatch(hashes, start, end, limit, done);
      var checked, existing := AskBatch(check, calls, batch, repositoryId, compact, index);
      if checked.None? {
        Unanswered(check, Batches(hashes, limit), done, batch, repositoryId, compact);
        return None;
      }
      Joined(combined.present, combined.missing, existing, checked.value.missing, hashes[..start], batch, done);
      assert hashes[..end] == hashes[..start] + batch;
      NewestSnoc(check, done, batch);
      combined := CheckResponse(
        if combined.repositoryId == [] then checked.value.repositoryId else combined.repositoryId,
        if checked.value.generation > combined.generation then checked.value.generation else combined.generation,
        combined.present + existing, combined.missing + checked.value.missing);
      done := done + [batch];
      start, calls := end, calls + 1;
    }
    assert hashes[..start] == hashes && done + [] == done;
    CombinedOk(hashes, repositoryId, combined, compact);
    r := Some(combined);
  }

  lemma NothingYet(hashes: seq<Hash>, check: Checks)
    ensures Newest(check, []) == 0 && Flatten<Hash>([]) == hashes[..0] == [] && ToSet<Hash>([]) == {} && Parted([], []) && Apart([])
  {
  }

  lemma NewestSnoc(check: Checks, done: seq<seq<Hash>>, batch: seq<Hash>)
    requires forall k :: 0 <= k < |done| ==> check(k, done[k]).Some?
    requires check(|done|, batch).Some?
    ensures var last, before := check(|done|, batch).value.generation, Newest(check, done);
      Newest(check, done + [batch]) == if last > before then last else before
  {
    assert (done + [batch])[..|done|] == done;
  }

  lemma TruthfulAnswer(check: Checks, index: set<Hash>, k: nat, batch: seq<Hash>)
    requires Truthful(check, index) && check(k, batch).Some?
    ensures forall h :: h in batch ==> (h in check(k, batch).value.missing <==> h !in index)
  {
  }

  lemma Unanswered(check: Checks, batches: seq<seq<Hash>>, done: seq<seq<Hash>>, batch: seq<Hash>, repositoryId: Bytes, compact: bool)
    requires |done| < |batches| && batches[|done|] == batch
    requires check(|done|, batch).None? || !CheckOk(batch, repositoryId, check(|done|, batch).value, compact)
    ensures !AllAnswered(check, batches, repositoryId, compact)
  {
    hide CheckOk;
  }

  datatype CatalogChunk = CatalogChunk(hash: Hash, size: nat)

  predicate Trusted(confirmed: map<Hash, nat>, base: nat, h: Hash) { h in confirmed && confirmed[h] >= base }

  /** The digests that have to be asked for, repeats and all. */
  function Stale(confirmed: map<Hash, nat>, base: nat, chunks: seq<CatalogChunk>): (r: seq<Hash>)
    ensures forall h :: h in r <==> !Trusted(confirmed, base, h) && exists i :: 0 <= i < |chunks| && chunks[i].hash == h
  {
    if chunks == [] then []
    else
      var n := |chunks| - 1;
      Stale(confirmed, base, chunks[..n]) + (if Trusted(confirmed, base, chunks[n].hash) then [] else [chunks[n].hash])
  }

  /** Asks for all of them, and checks the answer once more as a whole. */
  method AskStale(check: Checks, stale: seq<Hash>, repositoryId: Bytes, maxChunks: int, compact: bool, ghost index: set<Hash>)
    returns (r: Option<CheckResponse>)
    requires Truthful(check, index)
    ensures var batches := Batches(stale, Limit(maxChunks));
      && (r.Some? <==> AllAnswered(check, batches, repositoryId, compact) && Apart(batches))
      && (r.Some? ==> CheckOk(stale, [], r.value.(repositoryId := []), compact) && r.value.generation == Newest(check, batches))
    ensures r.Some? ==> forall h :: h in r.value.missing <==> h in stale && h !in index
  {
    hide CheckOk, Batches, Apart, Newest, Truthful;
    var answer := CheckChunksBatched(check, stale, repositoryId, maxChunks, compact, index);
    if |stale| <= Limit(maxChunks) { OneRequest(check, stale, Limit(maxChunks), repositoryId, compact); }
    if answer.None? { return None; }
    var checked := answer.value;
    var ok := ValidateChunkCheckResponse(stale, repositoryId, checked, compact);
    if !ok { return None; }
    if |stale| <= Limit(maxChunks) { TruthfulAnswer(check, index, 0, stale); }
    OnlyAsked(stale, repositoryId, checked, compact);
    r := Some(checked);
  }

  /** A file's old chunk list may be used again if every chunk is trusted or the server still has it.
      With more digests to ask for than fit in a request, this only works out when none of them is asked
      for in two requests: a file that repeats a chunk further apart than that is never reused. */
  method EnsureCatalogChunksConfirmed(check: Checks, confirmed: map<Hash, nat>, chunks: seq<CatalogChunk>, base: nat, repositoryId: Bytes,
                                      maxChunks: int, compact: bool, ghost index: set<Hash>)
    returns (r: Option<bool>, confirmed': map<Hash, nat>)
    requires Truthful(check, index)
    ensures var stale := Stale(confirmed, base, chunks);
      var batches := Batches(stale, Limit(maxChunks));
      && (r.Some? <==> stale == [] || (AllAnswered(check, batches, repositoryId, compact) && Apart(batches)))
      && (r.Some? ==> (r.value <==> forall i :: 0 <= i < |chunks| ==> Trusted(confirmed, base, chunks[i].hash) || chunks[i].hash in index))
      && (r.Some? && stale != [] ==> forall h :: h in confirmed' <==> if h in stale then h in index else h in confirmed)
      && (r.Some? && stale != [] ==> forall h :: h in confirmed' ==> confirmed'[h] == if h in stale then Newest(check, batches) else confirmed[h])
      && (r.None? || stale == [] ==> confirmed' == confirmed)
  {
    hide CheckOk, Distinct, ToSet, Batches, Apart, Newest, Truthful;
    confirmed' := confirmed;
    var stale: seq<Hash> := [];
    for i := 0 to |chunks|
      invariant stale == Stale(confirmed, base, chunks[..i])
    {
      assert chunks[..i + 1][..i] == chunks[..i];
      if !(chunks[i].hash in confirmed && confirmed[chunks[i].hash] >= base) { stale := stale + [chunks[i].hash]; }
    }
    assert chunks[..|chunks|] == chunks;
    if |stale| == 0 { return Some(true), confirmed; }
    var answer := AskStale(check, stale, repositoryId, maxChunks, compact, index);
    if answer.None? { return None, confirmed; }
    var checked := answer.value;
    var existing := ExistingChunkHashes(stale, checked, compact);
    confirmed' := MarkAll(confirmed, existing, checked.generation, checked.missing);
    r := Some(|checked.missing| == 0);
    if |checked.missing| != 0 {
      var h := checked.missing[0];
      assert h in stale && h !in index;
    }
  }

  /** What fits in one request is asked for in one, and repeats in it do no harm. */
  lemma OneRequest(check: Checks, hashes: seq<Hash>, limit: nat, repositoryId: Bytes, compact: bool)
    requires 0 < limit && |hashes| <= limit
    ensures Batches(hashes, limit) == [hashes] && Apart([hashes])
    ensures AllAnswered(check, [hashes], repositoryId, compact) <==>
      check(0, hashes).Some? && CheckOk(hashes, repositoryId, check(0, hashes).value, compact)
    ensures check(0, hashes).Some? ==> Newest(check, [hashes]) == check(0, hashes).value.generation
  {
    hide CheckOk, Newest;
    assert [hashes][0] == hashes;
    if check(0, hashes).Some? { NewestOfOne(check, hashes); }
  }

  lemma NewestOfOne(check: Checks, hashes: seq<Hash>)
    requires check(0, hashes).Some?
    ensures Newest(check, [hashes]) == check(0, hashes).value.generation
  {
    assert [hashes][..0] == [];
  }

  lemma OnlyAsked(hashes: seq<Hash>, repositoryId: Bytes, checked: CheckResponse, compact: bool)
    requires CheckOk(hashes, repositoryId, checked, compact)
    ensures CheckOk(hashes, [], checked.(repositoryId := []), compact)
    ensures forall h :: h in checked.missing ==> h in hashes
  {
    hide Distinct;
  }

  /** Notes the answer in the catalog. */
  method MarkAll(confirmed: map<Hash, nat>, existing: seq<Hash>, generation: nat, missing: seq<Hash>) returns (r: map<Hash, nat>)
    requires forall h :: h in existing ==> h !in missing
    ensures forall h :: h in r <==> h in existing || (h in confirmed && h !in missing)
    ensures forall h :: h in r ==> r[h] == if h in existing then generation else confirmed[h]
  {
    r := confirmed;
    for i := 0 to |existing|
      invariant forall h :: h in r <==> h in existing[..i] || h in confirmed
      invariant forall h :: h in r ==> r[h] == if h in existing[..i] then generation else confirmed[h]
    {
      r := r[existing[i] := generation];
    }
    assert existing[..|existing|] == existing;
    for i := 0 to |missing|
      invariant forall h :: h in r <==> (h in existing || h in confirmed) && h !in missing[..i]
      invariant forall h :: h in r ==> r[h] == if h in existing then generation else confirmed[h]
    {
      r := r - {missing[i]};
    }
    assert missing[..|missing|] == missing;
  }

  // ---- files whose chunk lists can never be used again ----

  /** The request that asks for the digest at `i`. */
  function RequestOf(i: nat, limit: nat): nat
    requires limit > 0
  {
    i / limit
  }

  /** Equal digests are asked for in the same request. */
  predicate RepeatsTogether(hashes: seq<Hash>, limit: nat)
    requires limit > 0
  {
    forall i, j :: 0 <= i < j < |hashes| && hashes[i] == hashes[j] ==> RequestOf(i, limit) == RequestOf(j, limit)
  }

  /** Division is unique. */
  lemma Quotient(i: nat, limit: nat, q: nat, r: nat)
    requires r < limit && i == q * limit + r
    ensures i / limit == q
  {
    var p := i / limit;
    assert i == p * limit + i % limit;
    assert (p - q) * limit == p * limit - q * limit;
    NoSmallMultiple(p - q, limit);
  }

  lemma NoSmallMultiple(d: int, limit: nat)
    ensures d == 0 || d * limit >= limit || d * limit + limit <= 0
  {
    if d > 0 {
      NoLess(1, d, limit);
    } else if d < 0 {
      NoLess(d, -1, limit);
    }
  }

  lemma NoLess(a: int, b: int, limit: nat)
    requires a <= b
    ensures a * limit <= b * limit
  {
  }

  lemma Quotients(i: nat, limit: nat)
    requires limit > 0
    ensures i < limit ==> RequestOf(i, limit) == 0
    ensures i >= limit ==> RequestOf(i, limit) == RequestOf(i - limit, limit) + 1
  {
    if i < limit {
      Quotient(i, limit, 0, i);
    } else {
      var q, r := (i - limit) / limit, (i - limit) % limit;
      Quotient(i, limit, q + 1, r);
    }
  }

  lemma {:induction false} BatchesJoin(hashes: seq<Hash>, limit: nat)
    requires limit > 0
    ensures Flatten(Batches(hashes, limit)) == hashes
  {
    if |hashes| > limit {
      BatchesJoin(hashes[limit..], limit);
      assert hashes == hashes[..limit] + hashes[limit..];
    }
  }

  lemma ApartCons(head: seq<Hash>, batches: seq<seq<Hash>>)
    ensures Apart([head] + batches) <==> Apart(batches) && ToSet(head) !! ToSet(Flatten(batches))
  {
    var more := [head] + batches;
    forall h ensures h in Flatten(batches) <==> exists a :: 0 <= a < |batches| && h in batches[a] { InFlatten(batches, h); }
    if Apart(more) {
      forall i, j | 0 <= i < j < |batches| ensures ToSet(batches[i]) !! ToSet(batches[j]) {
        assert ToSet(more[i + 1]) !! ToSet(more[j + 1]);
      }
      forall h | h in ToSet(Flatten(batches)) ensures h !in ToSet(head) {
        var a :| 0 <= a < |batches| && h in batches[a];
        assert ToSet(more[0]) !! ToSet(more[a + 1]);
        assert h in ToSet(more[a + 1]);
      }
    }
    if Apart(batches) && ToSet(head) !! ToSet(Flatten(batches)) {
      forall i, j | 0 <= i < j < |more| ensures ToSet(more[i]) !! ToSet(more[j]) {
        if i > 0 {
          assert ToSet(batches[i - 1]) !! ToSet(batches[j - 1]);
        } else {
          forall h | h in more[j] ensures h !in ToSet(head) { assert h in batches[j - 1]; }
        }
      }
    }
  }

  /** No digest is in two requests if and only if equal ones stand in the same stretch of `limit`. */
  lemma {:induction false} ApartExactly(hashes: seq<Hash>, limit: nat)
    requires limit > 0
    ensures Apart(Batches(hashes, limit)) <==> RepeatsTogether(hashes, limit)
    decreases |hashes|
  {
    hide Apart, Flatten, RequestOf;
    if |hashes| <= limit {
      OneBatch(hashes);
      forall i | 0 <= i < |hashes| ensures RequestOf(i, limit) == 0 { Quotients(i, limit); }
    } else {
      var head, rest := hashes[..limit], hashes[limit..];
      ApartCons(head, Batches(rest, limit));
      BatchesJoin(rest, limit);
      ApartExactly(rest, limit);
      TogetherSplits(hashes, limit);
    }
  }

  lemma OneBatch(hashes: seq<Hash>)
    ensures Apart([hashes])
  {
  }

  lemma TogetherSplits(hashes: seq<Hash>, limit: nat)
    requires 0 < limit < |hashes|
    ensures RepeatsTogether(hashes, limit) <==> RepeatsTogether(hashes[limit..], limit) && ToSet(hashes[..limit]) !! ToSet(hashes[limit..])
  {
    hide RequestOf;
    var head, rest := hashes[..limit], hashes[limit..];
    forall i | 0 <= i < |hashes| ensures i < limit ==> RequestOf(i, limit) == 0
      ensures i >= limit ==> RequestOf(i, limit) == RequestOf(i - limit, limit) + 1 && hashes[i] == rest[i - limit]
    {
      Quotients(i, limit);
    }
    if RepeatsTogether(hashes, limit) {
      forall i, j | 0 <= i < j < |rest| && rest[i] == rest[j] ensures RequestOf(i, limit) == RequestOf(j, limit) {
        assert hashes[limit + i] == hashes[limit + j];
      }
      forall h | h in ToSet(head) ensures h !in ToSet(rest) {
        var i :| 0 <= i < limit && hashes[i] == h;
        forall j | 0 <= j < |rest| ensures rest[j] != h { assert hashes[limit + j] == rest[j]; }
      }
    }
    if RepeatsTogether(rest, limit) && ToSet(head) !! ToSet(rest) {
      forall i, j | 0 <= i < j < |hashes| && hashes[i] == hashes[j] ensures RequestOf(i, limit) == RequestOf(j, limit) {
        if j >= limit {
          assert hashes[j] in ToSet(rest);
        }
        assert i < limit ==> hashes[i] in ToSet(head);
      }
    }
  }

  /** Two digests fit in a request, and the file begins and ends with the same chunk: whatever the server
      has and answers, the list is not used again. */
  method RepeatedChunkIsRefused(check: Checks, x: Hash, y: Hash, repositoryId: Bytes, compact: bool, ghost index: set<Hash>)
    returns (r: Option<bool>)
    requires Truthful(check, index)
    ensures r.None?
  {
    hide Apart, Truthful, AllAnswered, Newest;
    var chunks := [CatalogChunk(x, 1), CatalogChunk(y, 1), CatalogChunk(x, 1)];
    assert Stale(map[], 0, chunks) == [x, y, x] by { AllStale(chunks[0], chunks[1], chunks[2]); }
    ApartExactly([x, y, x], 2);
    assert [x, y, x][0] == [x, y, x][2] && RequestOf(0, 2) != RequestOf(2, 2);
    var confirmed;
    r, confirmed := EnsureCatalogChunksConfirmed(check, map[], chunks, 0, repositoryId, 2, compact, index);
  }

  lemma AllStale(a: CatalogChunk, b: CatalogChunk, c: CatalogChunk)
    ensures Stale(map[], 0, [a, b, c]) == [a.hash, b.hash, c.hash]
  {
    assert [a, b, c][..2] == [a, b] && [a, b][..1] == [a] && [a][..0] == [];
    assert Stale(map[], 0, [a]) == [a.hash];
    assert Stale(map[], 0, [a, b]) == [a.hash, b.hash];
  }
}
