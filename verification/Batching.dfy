/** What the agent's two chunk batchers share: checking the server's answers, and the books that say
    which slot of which file entry waits for which chunk. */
module Batching {
  import opened Base

  // ---- the server's answers ----

  datatype CheckResponse = CheckResponse(repositoryId: Bytes, generation: nat, present: seq<Hash>, missing: seq<Hash>)

  predicate RepositoryMatches(want: Bytes, got: Bytes) { want == [] || got == [] || got == want }

  /** A check answer that can be used: what it lists was asked for, each digest at most once, and unless
      it is in the compact form nothing was left out. */
  predicate CheckOk(requested: seq<Hash>, repositoryId: Bytes, checked: CheckResponse, allowCompact: bool) {
    && RepositoryMatches(repositoryId, checked.repositoryId)
    && [] !in requested
    && (forall i :: 0 <= i < |checked.present| ==> checked.present[i] in requested) && Distinct(checked.present)
    && (forall i :: 0 <= i < |checked.missing| ==> checked.missing[i] in requested) && Distinct(checked.missing)
    && (forall i, j :: 0 <= i < |checked.present| && 0 <= j < |checked.missing| ==> checked.present[i] != checked.missing[j])
    && (!(allowCompact && checked.present == []) ==>
          forall i :: 0 <= i < |requested| ==> requested[i] in checked.present || requested[i] in checked.missing)
  }

  lemma DistinctSnoc<T>(s: seq<T>, x: T)
    ensures Distinct(s + [x]) <==> Distinct(s) && x !in s
  {
    var t := s + [x];
    if Distinct(t) {
      forall i, j | 0 <= i < j < |s| ensures s[i] != s[j] { assert t[i] != t[j]; }
      forall i | 0 <= i < |s| ensures s[i] != x { assert t[i] != t[|s|]; }
    }
  }

  lemma DistinctPrefix<T>(s: seq<T>, n: nat)
    requires Distinct(s) && n <= |s|
    ensures Distinct(s[..n])
  {
    forall i, j | 0 <= i < j < n ensures s[..n][i] != s[..n][j] { assert s[i] != s[j]; }
  }

  /** Goes through one of the two lists of an answer. */
  method TakeList(listed: seq<Hash>, requested: set<Hash>, taken: set<Hash>) returns (ok: bool, seen: set<Hash>)
    ensures ok <==> ToSet(listed) <= requested && Distinct(listed) && ToSet(listed) !! taken
    ensures ok ==> seen == ToSet(listed)
  {
    hide Distinct;
    seen := {};
    assert Distinct(listed[..0]) by { DistinctNone<Hash>(); }
    for i := 0 to |listed|
      invariant seen == ToSet(listed[..i]) && seen <= requested && seen !! taken && Distinct(listed[..i])
    {
      var hash := listed[i];
      assert listed[..i + 1] == listed[..i] + [hash];
      DistinctSnoc(listed[..i], hash);
      if hash !in requested || hash in taken || hash in seen {
        assert hash in ToSet(listed);
        if Distinct(listed) { DistinctPrefix(listed, i + 1); }
        return false, seen;
      }
      seen := seen + {hash};
    }
    assert listed[..|listed|] == listed;
    ok := true;
  }

  lemma DistinctNone<T>()
    ensures Distinct<T>([])
  {
  }

  method ValidateChunkCheckResponse(requested: seq<Hash>, repositoryId: Bytes, checked: CheckResponse, allowCompact: bool) returns (ok: bool)
    ensures ok <==> CheckOk(requested, repositoryId, checked, allowCompact)
  {
    hide Distinct;
    if repositoryId != [] && checked.repositoryId != [] && checked.repositoryId != repositoryId { return false; }
    var requestedSet: set<Hash> := {};
    for i := 0 to |requested|
      invariant requestedSet == ToSet(requested[..i]) && [] !in requested[..i]
    {
      assert requested[..i + 1] == requested[..i] + [requested[i]];
      if requested[i] == [] { return false; }
      requestedSet := requestedSet + {requested[i]};
    }
    assert requested[..|requested|] == requested;
    var existsOk, existing := TakeList(checked.present, requestedSet, {});
    AsSet(checked.present, requested);
    if !existsOk { return false; }
    var missingOk, absent := TakeList(checked.missing, requestedSet, existing);
    AsSet(checked.missing, requested);
    Apart(checked.present, checked.missing);
    if !missingOk { return false; }
    if !(allowCompact && |checked.present| == 0) {
      var todo := requestedSet;
      while todo != {}
        invariant todo <= requestedSet && requestedSet - todo <= existing + absent
      {
        var hash := Pick(todo);
        if hash !in existing && hash !in absent {
          assert hash in requested;
          return false;
        }
        todo := todo - {hash};
      }
      forall i | 0 <= i < |requested| ensures requested[i] in checked.present || requested[i] in checked.missing {
        assert requested[i] in requestedSet - todo;
      }
    }
    ok := true;
  }

  lemma AsSet(listed: seq<Hash>, requested: seq<Hash>)
    ensures ToSet(listed) <= ToSet(requested) <==> forall i :: 0 <= i < |listed| ==> listed[i] in requested
  {
    forall i | 0 <= i < |listed| ensures listed[i] in ToSet(listed) { }
  }

  lemma Apart(a: seq<Hash>, b: seq<Hash>)
    ensures ToSet(b) !! ToSet(a) <==> forall i, j :: 0 <= i < |a| && 0 <= j < |b| ==> a[i] != b[j]
  {
    forall i | 0 <= i < |a| ensures a[i] in ToSet(a) { }
    forall j | 0 <= j < |b| ensures b[j] in ToSet(b) { }
    if (forall i, j :: 0 <= i < |a| && 0 <= j < |b| ==> a[i] != b[j]) {
      forall x | x in ToSet(b) ensures x !in ToSet(a) { }
    }
  }

  /** The digests the server has: as listed, or in the compact form everything it did not call missing. */
  method ExistingChunkHashes(requested: seq<Hash>, checked: CheckResponse, allowCompact: bool) returns (existing: seq<Hash>)
    requires CheckOk(requested, [], checked.(repositoryId := []), allowCompact)
    ensures Distinct(existing)
    ensures forall h :: h in existing <==> h in requested && h !in checked.missing
  {
    if !(allowCompact && |checked.present| == 0) { return checked.present; }
    existing := [];
    var seen: set<Hash> := {};
    for i := 0 to |requested|
      invariant forall h :: h in seen <==> h in requested[..i]
      invariant Distinct(existing) && forall h :: h in existing <==> h in requested[..i] && h !in checked.missing
    {
      var hash := requested[i];
      if hash !in seen {
        seen := seen + {hash};
        if hash !in checked.missing { existing := existing + [hash]; }
      }
    }
    assert requested[..|requested|] == requested;
  }

  datatype UploadAck = UploadAck(hash: Hash, present: Option<bool>, uploaded: bool, refHash: Hash, refSize: int, originalSize: int)

  datatype UploadResponse = UploadResponse(repositoryId: Bytes, generation: nat, chunks: seq<UploadAck>)

  /** An acknowledgement of a chunk of `size` bytes that can be used. */
  predicate AckOk(a: UploadAck, size: nat, allowCompact: bool) {
    && a.present != Some(false) && (a.present.None? ==> allowCompact)
    && (a.refHash == [] ==> allowCompact && a.originalSize > 0)
    && (a.refHash != [] ==> a.refHash == a.hash)
    && (a.originalSize != 0 ==> a.originalSize == size)
    && (if a.refHash == [] then a.originalSize else a.refSize) == size
  }

  /** Each acknowledgement is for a chunk that was sent, usable, and the only one for it. */
  predicate AcksOk(requested: map<Hash, nat>, acks: seq<UploadAck>, allowCompact: bool) {
    && (forall i :: 0 <= i < |acks| ==> acks[i].hash in requested && AckOk(acks[i], requested[acks[i].hash], allowCompact))
    && (forall i, j :: 0 <= i < j < |acks| ==> acks[i].hash != acks[j].hash)
  }

  function AckHashes(acks: seq<UploadAck>): set<Hash> { set i | 0 <= i < |acks| :: acks[i].hash }

  predicate UploadOk(requested: map<Hash, nat>, repositoryId: Bytes, response: UploadResponse, allowCompact: bool) {
    && RepositoryMatches(repositoryId, response.repositoryId)
    && [] !in requested
    && AcksOk(requested, response.chunks, allowCompact) && AckHashes(response.chunks) == requested.Keys
  }

  /** A ref as far as the agent uses it. */
  datatype Ref = Ref(hash: Hash, size: nat)

  datatype Ack = Ack(ref: Ref, uploaded: bool)

  /** The checks on one acknowledgement; in the compact form it gets its ref here. */
  method CheckAck(chunk: UploadAck, size: nat, allowCompact: bool) returns (r: Option<Ack>)
    ensures r == if AckOk(chunk, size, allowCompact) then Some(Ack(Ref(chunk.hash, size), chunk.uploaded)) else None
  {
    if chunk.present == Some(false) { return None; }
    if chunk.present.None? && !allowCompact { return None; }
    var refSize := chunk.refSize;
    if chunk.refHash == [] {
      if !allowCompact || chunk.originalSize <= 0 { return None; }
      refSize := chunk.originalSize;
    } else if chunk.refHash != chunk.hash {
      return None;
    }
    if chunk.originalSize != 0 && chunk.originalSize != size { return None; }
    if refSize != size { return None; }
    r := Some(Ack(Ref(chunk.hash, size), chunk.uploaded));
  }

  /** None when the answer cannot be used; otherwise one acknowledgement for each chunk sent, under the
      chunk's own digest and with its own size. */
  method ValidateChunkUploadResponse(requested: map<Hash, nat>, repositoryId: Bytes, response: UploadResponse, allowCompact: bool)
    returns (r: Option<map<Hash, Ack>>)
    ensures r.Some? <==> UploadOk(requested, repositoryId, response, allowCompact)
    ensures r.Some? ==> r.value.Keys == requested.Keys && forall h :: h in requested ==> r.value[h].ref == Ref(h, requested[h])
  {
    hide AckOk;
    if repositoryId != [] && response.repositoryId != [] && response.repositoryId != repositoryId { return None; }
    if [] in requested { return None; }
    var byHash: map<Hash, Ack> := map[];
    for i := 0 to |response.chunks|
      invariant forall h :: h in byHash ==> h in requested && byHash[h].ref == Ref(h, requested[h])
      invariant AcksOk(requested, response.chunks[..i], allowCompact) && byHash.Keys == AckHashes(response.chunks[..i])
    {
      var chunk := response.chunks[i];
      assert response.chunks[..i + 1] == response.chunks[..i] + [chunk];
      AcksSnoc(requested, response.chunks[..i], chunk, allowCompact);
      if chunk.hash !in requested { AcksPrefix(requested, response.chunks, i + 1, allowCompact); return None; }
      if chunk.hash in byHash { AcksPrefix(requested, response.chunks, i + 1, allowCompact); return None; }
      var ack := CheckAck(chunk, requested[chunk.hash], allowCompact);
      if ack.None? { AcksPrefix(requested, response.chunks, i + 1, allowCompact); return None; }
      byHash := byHash[chunk.hash := ack.value];
    }
    assert response.chunks[..|response.chunks|] == response.chunks;
    if byHash.Keys != requested.Keys { return None; }
    r := Some(byHash);
  }

  lemma AcksSnoc(requested: map<Hash, nat>, acks: seq<UploadAck>, a: UploadAck, allowCompact: bool)
    ensures AcksOk(requested, acks + [a], allowCompact) <==>
      AcksOk(requested, acks, allowCompact) && a.hash in requested && AckOk(a, requested[a.hash], allowCompact) && a.hash !in AckHashes(acks)
    ensures AckHashes(acks + [a]) == AckHashes(acks) + {a.hash}
  {
    hide AckOk;
    var all := acks + [a];
    assert all[|acks|] == a && forall i :: 0 <= i < |acks| ==> all[i] == acks[i];
    if AcksOk(requested, all, allowCompact) {
      forall i | 0 <= i < |acks| ensures acks[i].hash in requested && AckOk(acks[i], requested[acks[i].hash], allowCompact) && acks[i].hash != a.hash {
        assert all[i].hash != all[|acks|].hash;
      }
    }
    forall h ensures h in AckHashes(all) <==> h in AckHashes(acks) + {a.hash} {
      if h in AckHashes(acks) { var i :| 0 <= i < |acks| && acks[i].hash == h; assert all[i].hash == h; }
      if h == a.hash { assert all[|acks|].hash == h; }
    }
  }

  lemma AcksPrefix(requested: map<Hash, nat>, acks: seq<UploadAck>, n: nat, allowCompact: bool)
    requires n <= |acks|
    ensures AcksOk(requested, acks, allowCompact) ==> AcksOk(requested, acks[..n], allowCompact)
  {
    hide AckOk;
  }

  // ---- the books ----

  /** A place in a file entry's chunk list: filled, or still waiting for its chunk. */
  datatype Slot = Unfilled | Filled(ref: Ref)

  datatype Waiter = Waiter(entry: nat, index: nat)

  datatype PendingChunk = PendingChunk(size: nat, waiters: seq<Waiter>)

  type Entries = map<nat, seq<Slot>>

  type ByHash = map<Hash, PendingChunk>

  function Slots(entries: Entries, e: nat): seq<Slot> { if e in entries then entries[e] else [] }

  function CountUnfilled(s: seq<Slot>): nat {
    if s == [] then 0 else CountUnfilled(s[..|s| - 1]) + (if s[|s| - 1].Unfilled? then 1 else 0)
  }

  function SizeOf(c: PendingChunk): nat { c.size }

  function Waiting(c: PendingChunk): nat { |c.waiters| }

  function ChunkRequestBytes(size: nat): nat { 32 + 8 + size }

  /** How many of the chunks this upload stored. */
  function UploadedOf(hashes: seq<Hash>, acks: map<Hash, Ack>): nat {
    if hashes == [] then 0
    else
      var n := |hashes| - 1;
      UploadedOf(hashes[..n], acks) + (if hashes[n] in acks && acks[hashes[n]].uploaded then 1 else 0)
  }

  lemma {:induction false} NoneUploaded(hashes: seq<Hash>)
    ensures UploadedOf(hashes, map[]) == 0
  {
    if hashes != [] { NoneUploaded(hashes[..|hashes| - 1]); }
  }

  /** The catalog's confirmed digests with `hashes` noted at `stamp`. */
  function Marked(confirmed: map<Hash, nat>, hashes: seq<Hash>, stamp: nat): map<Hash, nat> {
    map h | h in confirmed.Keys + ToSet(hashes) :: if h in hashes then stamp else confirmed[h]
  }

  /** The same with a whole batch noted: what was found at `found`, what had to be sent at `sent`. */
  function Noted(confirmed: map<Hash, nat>, batch: seq<Hash>, missing: seq<Hash>, found: nat, sent: nat): map<Hash, nat> {
    map h | h in confirmed.Keys + ToSet(batch) :: if h in missing then sent else if h in batch then found else confirmed[h]
  }

  lemma MarkedTwice(confirmed: map<Hash, nat>, batch: seq<Hash>, existing: seq<Hash>, missing: seq<Hash>, found: nat, sent: nat)
    requires (forall h :: h in existing <==> h in batch && h !in missing) && forall h :: h in missing ==> h in batch
    ensures Marked(Marked(confirmed, existing, found), missing, sent) == Noted(confirmed, batch, missing, found, sent)
  {
  }

  /** The bytes of an upload body that carries the listed chunks. */
  function BodyBytes(listed: seq<Hash>, byHash: ByHash): nat
    requires forall i :: 0 <= i < |listed| ==> listed[i] in byHash
  {
    if listed == [] then 12 else BodyBytes(listed[..|listed| - 1], byHash) + ChunkRequestBytes(byHash[listed[|listed| - 1]].size)
  }

  /** A waiter's slot exists, is empty, and is to hold this chunk. */
  predicate WaiterOk(w: Waiter, ref: Ref, entries: Entries, added: Entries) {
    && w.index < |Slots(entries, w.entry)| == |Slots(added, w.entry)|
    && Slots(entries, w.entry)[w.index] == Unfilled && Slots(added, w.entry)[w.index] == Filled(ref)
  }

  ghost predicate ChunkOk(h: Hash, c: PendingChunk, entries: Entries, added: Entries) {
    && (forall i :: 0 <= i < |c.waiters| ==> WaiterOk(c.waiters[i], Ref(h, c.size), entries, added))
    && Distinct(c.waiters)
  }

  /** Every slot holds the chunk that was added there, or waits for it. */
  ghost predicate SlotOk(e: nat, i: nat, byHash: ByHash, entries: Entries, added: Entries)
    requires i < |Slots(entries, e)| == |Slots(added, e)|
  {
    var want := Slots(added, e)[i];
    want.Filled? && (Slots(entries, e)[i] == want
      || (Slots(entries, e)[i] == Unfilled && want.ref.hash in byHash && Waiter(e, i) in byHash[want.ref.hash].waiters))
  }

  /** `added` is what was asked for, `entries` what is there so far. */
  ghost predicate Booked(byHash: ByHash, entries: Entries, added: Entries) {
    && (forall e :: |Slots(entries, e)| == |Slots(added, e)|)
    && (forall e, i :: 0 <= i < |Slots(added, e)| ==> SlotOk(e, i, byHash, entries, added))
    && (forall h :: h in byHash ==> ChunkOk(h, byHash[h], entries, added))
  }

  /** The counter of each entry is the number of its empty slots. */
  ghost predicate Counted(byEntry: map<nat, nat>, entries: Entries) {
    forall e :: CountUnfilled(Slots(entries, e)) == (if e in byEntry then byEntry[e] else 0) && (e in byEntry ==> byEntry[e] > 0)
  }

  function Append(entries: Entries, e: nat, slot: Slot): Entries { entries[e := Slots(entries, e) + [slot]] }

  function Plus(byEntry: map<nat, nat>, e: nat): map<nat, nat> {
    byEntry[e := (if e in byEntry then byEntry[e] else 0) + 1]
  }

  /** One slot less to fill; the last one takes the entry off the table. */
  function Minus(byEntry: map<nat, nat>, e: nat): map<nat, nat> {
    if e !in byEntry || byEntry[e] <= 1 then byEntry - {e} else byEntry[e := byEntry[e] - 1]
  }

  lemma CountSnoc(s: seq<Slot>, slot: Slot)
    ensures CountUnfilled(s + [slot]) == CountUnfilled(s) + (if slot.Unfilled? then 1 else 0)
  {
    assert (s + [slot])[..|s|] == s;
  }

  lemma {:induction false} CountFill(s: seq<Slot>, i: nat, ref: Ref)
    requires i < |s| && s[i].Unfilled?
    ensures CountUnfilled(s[i := Filled(ref)]) + 1 == CountUnfilled(s)
    decreases |s|
  {
    var n := |s| - 1;
    if i < n {
      CountFill(s[..n], i, ref);
      assert s[i := Filled(ref)][..n] == s[..n][i := Filled(ref)];
    } else {
      assert s[i := Filled(ref)][..n] == s[..n];
    }
  }

  lemma CountedAppend(byEntry: map<nat, nat>, entries: Entries, e: nat, slot: Slot)
    requires Counted(byEntry, entries)
    ensures Counted(if slot.Unfilled? then Plus(byEntry, e) else byEntry, Append(entries, e, slot))
  {
    CountSnoc(Slots(entries, e), slot);
    hide CountUnfilled;
  }

  /** Appending a slot leaves the earlier ones as they were. */
  lemma OldSlot(f: nat, i: nat, byHash: ByHash, byHash': ByHash, entries: Entries, added: Entries, e: nat, slot: Slot, want: Slot)
    requires |Slots(entries, e)| == |Slots(added, e)|
    requires i < |Slots(added, f)| == |Slots(entries, f)| && SlotOk(f, i, byHash, entries, added)
    requires forall h :: h in byHash ==> h in byHash' && forall w :: w in byHash[h].waiters ==> w in byHash'[h].waiters
    ensures |Slots(Append(entries, e, slot), f)| == |Slots(Append(added, e, want), f)|
    ensures SlotOk(f, i, byHash', Append(entries, e, slot), Append(added, e, want))
  {
  }

  lemma OldChunk(h: Hash, c: PendingChunk, entries: Entries, added: Entries, e: nat, slot: Slot, want: Slot)
    requires |Slots(entries, e)| == |Slots(added, e)| && ChunkOk(h, c, entries, added)
    ensures ChunkOk(h, c, Append(entries, e, slot), Append(added, e, want))
  {
  }

  lemma Appended(entries: Entries, e: nat, slot: Slot, f: nat)
    ensures Slots(Append(entries, e, slot), f) == if f == e then Slots(entries, e) + [slot] else Slots(entries, f)
  {
  }

  lemma Lengths(entries: Entries, added: Entries, e: nat, slot: Slot, want: Slot)
    requires forall f :: |Slots(entries, f)| == |Slots(added, f)|
    ensures forall f :: |Slots(Append(entries, e, slot), f)| == |Slots(Append(added, e, want), f)|
  {
    forall f ensures |Slots(Append(entries, e, slot), f)| == |Slots(Append(added, e, want), f)| {
      Appended(entries, e, slot, f);
      Appended(added, e, want, f);
      assert |Slots(entries, f)| == |Slots(added, f)|;
    }
  }

  /** The slots stay in order when one is appended, provided the new one is in order. */
  lemma SlotsStay(byHash: ByHash, byHash': ByHash, entries: Entries, added: Entries, e: nat, slot: Slot, want: Slot)
    requires Booked(byHash, entries, added)
    requires forall h :: h in byHash ==> h in byHash' && forall w :: w in byHash[h].waiters ==> w in byHash'[h].waiters
    requires want.Filled? && (slot == want || (slot == Unfilled && want.ref.hash in byHash' && Waiter(e, |Slots(entries, e)|) in byHash'[want.ref.hash].waiters))
    ensures forall f :: |Slots(Append(entries, e, slot), f)| == |Slots(Append(added, e, want), f)|
    ensures forall f, i :: 0 <= i < |Slots(Append(added, e, want), f)| ==> SlotOk(f, i, byHash', Append(entries, e, slot), Append(added, e, want))
  {
    hide Append, Slots, ChunkOk;
    Lengths(entries, added, e, slot, want);
    var entries', added' := Append(entries, e, slot), Append(added, e, want);
    forall f, i | 0 <= i < |Slots(added', f)| ensures SlotOk(f, i, byHash', entries', added') {
      Appended(entries, e, slot, f);
      Appended(added, e, want, f);
      assert |Slots(entries, f)| == |Slots(added, f)|;
      if i < |Slots(added, f)| { OldSlot(f, i, byHash, byHash', entries, added, e, slot, want); }
    }
  }

  /** A chunk that is already confirmed goes straight into its slot. */
  lemma BookFilled(byHash: ByHash, entries: Entries, added: Entries, byEntry: map<nat, nat>, e: nat, ref: Ref)
    requires Booked(byHash, entries, added) && Counted(byEntry, entries)
    ensures Booked(byHash, Append(entries, e, Filled(ref)), Append(added, e, Filled(ref)))
    ensures Counted(byEntry, Append(entries, e, Filled(ref)))
  {
    CountedAppend(byEntry, entries, e, Filled(ref));
    SlotsStay(byHash, byHash, entries, added, e, Filled(ref), Filled(ref));
    hide Counted, ChunkOk, SlotOk, Append, Slots;
    forall h | h in byHash ensures ChunkOk(h, byHash[h], Append(entries, e, Filled(ref)), Append(added, e, Filled(ref))) {
      OldChunk(h, byHash[h], entries, added, e, Filled(ref), Filled(ref));
    }
  }

  /** Another slot is appended that waits for the chunk `hash`, whose record becomes `c`. */
  lemma BookWaiting(byHash: ByHash, entries: Entries, added: Entries, byEntry: map<nat, nat>, e: nat, hash: Hash, c: PendingChunk)
    requires Booked(byHash, entries, added) && Counted(byEntry, entries)
    requires Waiter(e, |Slots(entries, e)|) in c.waiters
    requires hash in byHash ==> forall w :: w in byHash[hash].waiters ==> w in c.waiters
    requires ChunkOk(hash, c, Append(entries, e, Unfilled), Append(added, e, Filled(Ref(hash, c.size))))
    ensures Booked(byHash[hash := c], Append(entries, e, Unfilled), Append(added, e, Filled(Ref(hash, c.size))))
    ensures Counted(Plus(byEntry, e), Append(entries, e, Unfilled))
  {
    CountedAppend(byEntry, entries, e, Unfilled);
    var want, byHash' := Filled(Ref(hash, c.size)), byHash[hash := c];
    SlotsStay(byHash, byHash', entries, added, e, Unfilled, want);
    hide Counted, ChunkOk, SlotOk, Append, Slots;
    forall h | h in byHash' ensures ChunkOk(h, byHash'[h], Append(entries, e, Unfilled), Append(added, e, want)) {
      if h != hash { OldChunk(h, byHash[h], entries, added, e, Unfilled, want); }
    }
  }

  /** One more slot waits for a chunk that is on its way. */
  lemma BookWaiter(byHash: ByHash, entries: Entries, added: Entries, byEntry: map<nat, nat>, e: nat, hash: Hash)
    requires Booked(byHash, entries, added) && Counted(byEntry, entries) && hash in byHash
    ensures var c := byHash[hash];
      var c' := c.(waiters := c.waiters + [Waiter(e, |Slots(entries, e)|)]);
      && Booked(byHash[hash := c'], Append(entries, e, Unfilled), Append(added, e, Filled(Ref(hash, c.size))))
      && Counted(Plus(byEntry, e), Append(entries, e, Unfilled))
  {
    var c, w := byHash[hash], Waiter(e, |Slots(entries, e)|);
    var c' := c.(waiters := c.waiters + [w]);
    assert c'.waiters[|c.waiters|] == w;
    assert ChunkOk(hash, c, entries, added) && |Slots(entries, e)| == |Slots(added, e)|;
    hide Counted, Booked;
    OldChunk(hash, c, entries, added, e, Unfilled, Filled(Ref(hash, c.size)));
    DistinctSnoc(c.waiters, w);
    BookWaiting(byHash, entries, added, byEntry, e, hash, c');
  }

  /** A chunk is put on the list, with its first waiter. */
  lemma BookNew(byHash: ByHash, entries: Entries, added: Entries, byEntry: map<nat, nat>, e: nat, hash: Hash, size: nat)
    requires Booked(byHash, entries, added) && Counted(byEntry, entries) && hash !in byHash
    ensures var byHash' := byHash[hash := PendingChunk(size, [Waiter(e, |Slots(entries, e)|)])];
      && Booked(byHash', Append(entries, e, Unfilled), Append(added, e, Filled(Ref(hash, size))))
      && Counted(Plus(byEntry, e), Append(entries, e, Unfilled))
  {
    var c := PendingChunk(size, [Waiter(e, |Slots(entries, e)|)]);
    assert |Slots(entries, e)| == |Slots(added, e)|;
    hide Counted, Booked;
    BookWaiting(byHash, entries, added, byEntry, e, hash, c);
  }

  /** The entries after the waiters `ws[..n]` got their ref. */
  ghost predicate FilledUpTo(entries: Entries, ws: seq<Waiter>, n: nat, ref: Ref, r: Entries)
    requires n <= |ws|
  {
    && (forall e :: |Slots(r, e)| == |Slots(entries, e)|)
    && forall e, i :: 0 <= i < |Slots(entries, e)| ==>
        Slots(r, e)[i] == if Waiter(e, i) in ws[..n] then Filled(ref) else Slots(entries, e)[i]
  }

  lemma FillOne(entries: Entries, added: Entries, chunk: PendingChunk, ref: Ref, k: nat, r: Entries)
    requires ChunkOk(ref.hash, chunk, entries, added) && chunk.size == ref.size && k < |chunk.waiters|
    requires FilledUpTo(entries, chunk.waiters, k, ref, r)
    ensures var w := chunk.waiters[k];
      && w.index < |Slots(r, w.entry)| && Slots(r, w.entry)[w.index] == Unfilled
      && FilledUpTo(entries, chunk.waiters, k + 1, ref, r[w.entry := Slots(r, w.entry)[w.index := Filled(ref)]])
  {
    var ws, w := chunk.waiters, chunk.waiters[k];
    assert WaiterOk(w, ref, entries, added);
    assert w !in ws[..k];
    assert ws[..k + 1] == ws[..k] + [w];
  }

  lemma CountedFill(byEntry: map<nat, nat>, entries: Entries, w: Waiter, ref: Ref)
    requires Counted(byEntry, entries) && w.index < |Slots(entries, w.entry)| && Slots(entries, w.entry)[w.index] == Unfilled
    ensures Counted(Minus(byEntry, w.entry), entries[w.entry := Slots(entries, w.entry)[w.index := Filled(ref)]])
  {
    CountFill(Slots(entries, w.entry), w.index, ref);
    hide CountUnfilled;
  }

  /** Fills the slots of all the chunk's waiters, and counts them off. */
  method FillWaiters(entries: Entries, byEntry: map<nat, nat>, chunk: PendingChunk, ref: Ref, ghost added: Entries)
    returns (entries': Entries, byEntry': map<nat, nat>)
    requires ChunkOk(ref.hash, chunk, entries, added) && chunk.size == ref.size && Counted(byEntry, entries)
    ensures FilledUpTo(entries, chunk.waiters, |chunk.waiters|, ref, entries') && Counted(byEntry', entries')
  {
    hide Counted, FilledUpTo, ChunkOk;
    entries', byEntry' := entries, byEntry;
    FillNone(entries, chunk.waiters, ref);
    for k := 0 to |chunk.waiters|
      invariant FilledUpTo(entries, chunk.waiters, k, ref, entries') && Counted(byEntry', entries')
    {
      var w := chunk.waiters[k];
      FillOne(entries, added, chunk, ref, k, entries');
      CountedFill(byEntry', entries', w, ref);
      entries' := entries'[w.entry := Slots(entries', w.entry)[w.index := Filled(ref)]];
      byEntry' := Minus(byEntry', w.entry);
    }
  }

  lemma FillNone(entries: Entries, ws: seq<Waiter>, ref: Ref)
    ensures FilledUpTo(entries, ws, 0, ref, entries)
  {
  }

  /** With its waiters served, a chunk is off the books. */
  lemma BookResolved(byHash: ByHash, entries: Entries, added: Entries, hash: Hash, entries': Entries)
    requires Booked(byHash, entries, added) && hash in byHash
    requires FilledUpTo(entries, byHash[hash].waiters, |byHash[hash].waiters|, Ref(hash, byHash[hash].size), entries')
    ensures Booked(byHash - {hash}, entries', added)
  {
    var c := byHash[hash];
    assert c.waiters[..|c.waiters|] == c.waiters;
    assert ChunkOk(hash, c, entries, added);
    forall e, i | 0 <= i < |Slots(added, e)| ensures SlotOk(e, i, byHash - {hash}, entries', added) {
      assert SlotOk(e, i, byHash, entries, added);
      if Waiter(e, i) in c.waiters {
        var k :| 0 <= k < |c.waiters| && c.waiters[k] == Waiter(e, i);
        assert WaiterOk(c.waiters[k], Ref(hash, c.size), entries, added);
      }
    }
    forall h | h in byHash && h != hash ensures ChunkOk(h, byHash[h], entries', added) {
      assert ChunkOk(h, byHash[h], entries, added);
      forall k | 0 <= k < |byHash[h].waiters| ensures WaiterOk(byHash[h].waiters[k], Ref(h, byHash[h].size), entries', added) {
        var w := byHash[h].waiters[k];
        assert WaiterOk(w, Ref(h, byHash[h].size), entries, added);
        assert w !in c.waiters by { OneChunkEach(byHash, entries, added, h, hash, w); }
      }
    }
  }

  /** A slot waits for one chunk only. */
  lemma OneChunkEach(byHash: ByHash, entries: Entries, added: Entries, h: Hash, hash: Hash, w: Waiter)
    requires Booked(byHash, entries, added) && h in byHash && hash in byHash && h != hash && w in byHash[h].waiters
    ensures w !in byHash[hash].waiters
  {
    assert ChunkOk(h, byHash[h], entries, added) && ChunkOk(hash, byHash[hash], entries, added);
    forall k | 0 <= k < |byHash[hash].waiters| ensures byHash[hash].waiters[k] != w {
      assert WaiterOk(byHash[hash].waiters[k], Ref(hash, byHash[hash].size), entries, added);
    }
  }

  /** With nothing on the books, every entry lists exactly what was added to it, and no entry waits. */
  lemma AllFilled(byHash: ByHash, entries: Entries, added: Entries, byEntry: map<nat, nat>)
    requires Booked(byHash, entries, added) && Counted(byEntry, entries) && byHash == map[]
    ensures forall e :: Slots(entries, e) == Slots(added, e)
    ensures byEntry == map[]
  {
    forall e ensures Slots(entries, e) == Slots(added, e) {
      forall i | 0 <= i < |Slots(added, e)| ensures Slots(entries, e)[i] == Slots(added, e)[i] { assert SlotOk(e, i, byHash, entries, added); }
    }
    forall e ensures e !in byEntry {
      NoneUnfilled(Slots(entries, e), e, byHash, entries, added);
    }
  }

  lemma NoneUnfilled(s: seq<Slot>, e: nat, byHash: ByHash, entries: Entries, added: Entries)
    requires Booked(byHash, entries, added) && byHash == map[] && s <= Slots(entries, e)
    ensures CountUnfilled(s) == 0
  {
    if s != [] {
      assert SlotOk(e, |s| - 1, byHash, entries, added);
      NoneUnfilled(s[..|s| - 1], e, byHash, entries, added);
    }
  }

  /** An entry none of whose slots waits lists exactly what was added to it. */
  lemma {:induction false} EntryDone(byHash: ByHash, entries: Entries, added: Entries, byEntry: map<nat, nat>, e: nat)
    requires Booked(byHash, entries, added) && Counted(byEntry, entries) && e !in byEntry
    ensures Slots(entries, e) == Slots(added, e)
  {
    forall i | 0 <= i < |Slots(added, e)| ensures Slots(entries, e)[i] == Slots(added, e)[i] {
      assert SlotOk(e, i, byHash, entries, added);
      if Slots(entries, e)[i].Unfilled? { UnfilledCounts(Slots(entries, e), i); }
    }
  }

  lemma {:induction false} UnfilledCounts(s: seq<Slot>, i: nat)
    requires i < |s| && s[i].Unfilled?
    ensures CountUnfilled(s) > 0
    decreases |s|
  {
    if i < |s| - 1 { UnfilledCounts(s[..|s| - 1], i); }
  }
}
