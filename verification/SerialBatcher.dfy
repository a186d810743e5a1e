/** The batching uploader without a pipeline, and uploading chunk by chunk; and that both, and the
    pipeline, list the same chunks. */
module Serial {
  import opened Base
  import opened Batching
  import Pipeline

  type Stats = Pipeline.Stats

  type Options = Pipeline.Options

  const NONE := Pipeline.NONE

  /** What the server answers about a single chunk. */
  datatype ChunkAnswer = ChunkAnswer(present: bool, uploaded: bool, ref: Ref)

  /** Queries and uploads of single chunks, by number; None is a failed request. */
  datatype SingleServer = SingleServer(query: (nat, Hash) -> Option<ChunkAnswer>, put: (nat, Hash, Bytes) -> Option<ChunkAnswer>)
  {
    /** A ref it gives for a chunk is that chunk's. */
    ghost predicate Truthful(digest: Bytes -> Hash) {
      && (forall k, chunk {:trigger query(k, digest(chunk))} ::
            var a := query(k, digest(chunk)); a.Some? && a.value.present ==> a.value.ref == Ref(digest(chunk), |chunk|))
      && (forall k, chunk {:trigger put(k, digest(chunk), chunk)} ::
            var a := put(k, digest(chunk), chunk); a.Some? ==> a.value.ref == Ref(digest(chunk), |chunk|))
    }
  }

  /** One chunk at a time: reuse it if it is confirmed, else ask for it, else send it. */
  method EnsureChunk(server: SingleServer, digest: Bytes -> Hash, confirmed: map<Hash, nat>, useCatalog: bool, base: nat, calls: nat, chunk: Bytes)
    returns (r: Option<Ref>, uploaded: bool, confirmed': map<Hash, nat>)
    ensures server.Truthful(digest) && r.Some? ==> r.value == Ref(digest(chunk), |chunk|)
    ensures confirmed' == if useCatalog && r.Some? && !(digest(chunk) in confirmed && confirmed[digest(chunk)] >= base)
                          then confirmed[digest(chunk) := base] else confirmed
  {
    var hash := digest(chunk);
    confirmed' := confirmed;
    if useCatalog && hash in confirmed && confirmed[hash] >= base { return Some(Ref(hash, |chunk|)), false, confirmed; }
    var queried := server.query(calls, hash);
    if queried.None? { return None, false, confirmed; }
    if queried.value.present {
      if queried.value.ref.hash == [] { return None, false, confirmed; }
      if useCatalog { confirmed' := confirmed[hash := base]; }
      return Some(queried.value.ref), false, confirmed';
    }
    var put := server.put(calls + 1, hash, chunk);
    if put.None? || put.value.ref.hash == [] { return None, false, confirmed; }
    if useCatalog { confirmed' := confirmed[hash := base]; }
    return Some(put.value.ref), put.value.uploaded, confirmed';
  }

  datatype Track = Track(added: Entries, known: map<Hash, Bytes>, adds: nat, credited: nat)

  datatype Books = Books(pending: seq<Hash>, requestBytes: nat, t: Pipeline.Table, track: Track)

  /** What the batcher keeps between calls: the pending list is all that is unresolved. */
  ghost predicate BooksOk(b: Books, opts: Options) {
    && Booked(b.t.byHash, b.t.entries, b.track.added) && Counted(b.t.byEntry, b.t.entries)
    && Distinct(b.pending) && b.t.byHash.Keys == ToSet(b.pending)
    && Pipeline.Known(b.t.byHash, b.track.known) && Pipeline.PendingOk(b.pending, b.t.byHash, b.requestBytes, opts)
    && b.track.adds == b.track.credited + Sum(b.t.byHash, Waiting)
  }

  function AddedFilled(b: Books, e: nat, ref: Ref): Books {
    b.(t := b.t.(entries := Append(b.t.entries, e, Filled(ref))),
       track := b.track.(added := Append(b.track.added, e, Filled(ref)), adds := b.track.adds + 1, credited := b.track.credited + 1))
  }

  lemma AddedFilledOk(b: Books, opts: Options, e: nat, ref: Ref)
    requires BooksOk(b, opts)
    ensures BooksOk(AddedFilled(b, e, ref), opts)
  {
    hide Booked, Counted, Pipeline.Known, Pipeline.PendingOk;
    BookFilled(b.t.byHash, b.t.entries, b.track.added, b.t.byEntry, e, ref);
  }

  function AddedWaiter(b: Books, e: nat, hash: Hash): Books
    requires hash in b.t.byHash
  {
    var c := b.t.byHash[hash];
    b.(t := Pipeline.Table(b.t.byHash[hash := c.(waiters := c.waiters + [Waiter(e, |Slots(b.t.entries, e)|)])], Plus(b.t.byEntry, e),
                           Append(b.t.entries, e, Unfilled)),
       track := b.track.(added := Append(b.track.added, e, Filled(Ref(hash, c.size))), adds := b.track.adds + 1))
  }

  lemma AddedWaiterOk(b: Books, opts: Options, e: nat, hash: Hash)
    requires BooksOk(b, opts) && hash in b.t.byHash
    ensures BooksOk(AddedWaiter(b, e, hash), opts)
  {
    hide Booked, Counted, Waiting;
    BookWaiter(b.t.byHash, b.t.entries, b.track.added, b.t.byEntry, e, hash);
    var b' := AddedWaiter(b, e, hash);
    SumInsert(b.t.byHash, Waiting, hash, b'.t.byHash[hash]);
    Pipeline.SizeIsSize(b.t.byHash[hash]);
    Pipeline.SizeIsSize(b'.t.byHash[hash]);
    Pipeline.BodySame(b.pending, b.t.byHash, b'.t.byHash);
  }

  function AddedNew(b: Books, e: nat, hash: Hash, chunk: Bytes): Books {
    b.(t := Pipeline.Table(b.t.byHash[hash := PendingChunk(|chunk|, [Waiter(e, |Slots(b.t.entries, e)|)])], Plus(b.t.byEntry, e),
                           Append(b.t.entries, e, Unfilled)),
       pending := b.pending + [hash],
       requestBytes := (if b.requestBytes == 0 then 12 else b.requestBytes) + ChunkRequestBytes(|chunk|),
       track := b.track.(added := Append(b.track.added, e, Filled(Ref(hash, |chunk|))), known := b.track.known[hash := chunk], adds := b.track.adds + 1))
  }

  lemma AddedNewOk(b: Books, opts: Options, e: nat, hash: Hash, chunk: Bytes)
    requires BooksOk(b, opts) && hash != [] && hash !in b.t.byHash && (hash in b.track.known ==> b.track.known[hash] == chunk)
    requires |b.pending| < opts.maxChunks
    requires (if b.requestBytes == 0 then 12 else b.requestBytes) + ChunkRequestBytes(|chunk|) <= opts.maxRequestBytes
    ensures BooksOk(AddedNew(b, e, hash, chunk), opts)
  {
    hide Booked, Counted, Waiting, Pipeline.Known, Pipeline.PendingOk;
    var c := PendingChunk(|chunk|, [Waiter(e, |Slots(b.t.entries, e)|)]);
    BookNew(b.t.byHash, b.t.entries, b.track.added, b.t.byEntry, e, hash, |chunk|);
    SumInsert(b.t.byHash, Waiting, hash, c);
    Pipeline.SizeIsSize(c);
    NewKeeps(b, opts, hash, chunk, c);
  }

  lemma NewKeeps(b: Books, opts: Options, hash: Hash, chunk: Bytes, c: PendingChunk)
    requires BooksOk(b, opts) && hash != [] && hash !in b.t.byHash && |b.pending| < opts.maxChunks && c.size == |chunk| && c.waiters != []
    requires (if b.requestBytes == 0 then 12 else b.requestBytes) + ChunkRequestBytes(|chunk|) <= opts.maxRequestBytes
    ensures Distinct(b.pending + [hash]) && (b.t.byHash[hash := c]).Keys == ToSet(b.pending + [hash])
    ensures Pipeline.Known(b.t.byHash[hash := c], b.track.known[hash := chunk])
    ensures Pipeline.PendingOk(b.pending + [hash], b.t.byHash[hash := c],
                               (if b.requestBytes == 0 then 12 else b.requestBytes) + ChunkRequestBytes(|chunk|), opts)
  {
    hide Booked, Counted, Pipeline.Known, ChunkRequestBytes;
    DistinctSnoc(b.pending, hash);
    PendingIsListed(b, opts, hash);
    Pipeline.KnownMore(b.t.byHash, b.track.known, hash, chunk, c);
    Pipeline.BodyBytesPositive(b.pending, b.t.byHash);
    Pipeline.BodySnoc(b.pending, b.t.byHash, hash, b.t.byHash[hash := c]);
  }

  lemma PendingIsListed(b: Books, opts: Options, hash: Hash)
    requires BooksOk(b, opts) && hash !in b.t.byHash
    ensures hash !in b.pending && Pipeline.AllIn(b.pending, b.t.byHash)
  {
    hide Booked, Counted, Pipeline.Known;
  }

  /** With nothing pending, every list is what was added, and every add is counted. */
  lemma AllSettled(b: Books, opts: Options)
    requires BooksOk(b, opts) && b.pending == []
    ensures b.t.byHash == map[] && b.t.byEntry == map[] && b.track.adds == b.track.credited && b.requestBytes == 0
    ensures forall e :: Slots(b.t.entries, e) == Slots(b.track.added, e)
  {
    AllFilled(b.t.byHash, b.t.entries, b.track.added, b.t.byEntry);
  }

  /** A batch with some of its chunks served: those in `left` still wait. */
  ghost predicate Filling(left: ByHash, t: Pipeline.Table, added: Entries, owed: nat) {
    && Booked(left, t.entries, added) && Counted(t.byEntry, t.entries) && owed == Sum(left, Waiting)
    && forall h :: h in left ==> h in t.byHash && t.byHash[h] == left[h] && left[h].waiters != []
  }

  lemma FillingStep(left: ByHash, t: Pipeline.Table, added: Entries, owed: nat, hash: Hash, entries: Entries, byEntry: map<nat, nat>)
    requires Filling(left, t, added, owed) && hash in left && Counted(byEntry, entries)
    requires FilledUpTo(t.entries, left[hash].waiters, |left[hash].waiters|, Ref(hash, left[hash].size), entries)
    ensures |left[hash].waiters| <= owed
    ensures Filling(left - {hash}, Pipeline.Table(t.byHash, byEntry, entries), added, owed - |left[hash].waiters|)
  {
    hide Booked, Counted, FilledUpTo, Waiting;
    BookResolved(left, t.entries, added, hash, entries);
    SumRemove(left, Waiting, hash);
    Pipeline.SizeIsSize(left[hash]);
  }

  lemma FillingChunk(left: ByHash, t: Pipeline.Table, added: Entries, owed: nat, hash: Hash)
    requires Filling(left, t, added, owed) && hash in left
    ensures hash in t.byHash && t.byHash[hash] == left[hash] && left[hash].waiters != []
    ensures ChunkOk(hash, left[hash], t.entries, added) && Counted(t.byEntry, t.entries)
  {
    hide ChunkOk, Counted;
  }

  datatype Uploaded = Uploaded(acks: map<Hash, Ack>, generation: nat)

  class SerialBatcher {
    const opts: Options
    const digest: Bytes -> Hash
    const server: Pipeline.Server
    var confirmed: map<Hash, nat>
    var pending: seq<Hash>
    var byHash: ByHash
    var byEntry: map<nat, nat>
    var entries: Entries
    var requestBytes: nat
    var calls: nat
    ghost var track: Track
    ghost var broken: bool              // an error has left slots without a waiter, or chunks half served

    ghost function View(): Books
      reads this
    {
      Books(pending, requestBytes, Pipeline.Table(byHash, byEntry, entries), track)
    }

    ghost predicate Valid()
      reads this
    {
      opts == opts.Normalized() && BooksOk(View(), opts)
    }

    constructor (opts: Options, digest: Bytes -> Hash, server: Pipeline.Server, confirmed: map<Hash, nat>, entries: Entries)
      requires forall e, i :: e in entries && 0 <= i < |entries[e]| ==> entries[e][i].Filled?
      ensures Valid() && !broken && this.entries == entries && pending == [] && track == Track(entries, map[], 0, 0)
      ensures this.digest == digest && this.server == server && this.opts == opts.Normalized() && this.confirmed == confirmed
    {
      this.opts, this.digest, this.server, this.confirmed, this.entries := opts.Normalized(), digest, server, confirmed, entries;
      pending, byHash, byEntry, requestBytes, calls := [], map[], map[], 0, 0;
      track, broken := Track(entries, map[], 0, 0), false;
      new;
      Pipeline.PipelineBatcher.AllFilledAtStart(entries);
    }

    /** Serves the waiters of the listed chunks. */
    method FillAll(hashes: seq<Hash>, acks: map<Hash, Ack>, ghost left: ByHash, ghost owed: nat)
      returns (stats: Stats, ghost left': ByHash, ghost owed': nat)
      requires Filling(left, View().t, track.added, owed) && Distinct(hashes)
      requires forall i :: 0 <= i < |hashes| ==> hashes[i] in left
      modifies this`entries, this`byEntry
      ensures Filling(left', View().t, track.added, owed') && left' == left - ToSet(hashes)
      ensures owed == owed' + (stats.uploaded + stats.reused) && stats.uploaded == UploadedOf(hashes, acks)
    {
      hide Filling, FilledUpTo, Counted, ChunkOk;
      stats, left', owed' := NONE, left, owed;
      assert left - ToSet(hashes[..0]) == left;
      for i := 0 to |hashes|
        invariant Filling(left', View().t, track.added, owed') && left' == left - ToSet(hashes[..i])
        invariant owed == owed' + (stats.uploaded + stats.reused) && stats.uploaded == UploadedOf(hashes[..i], acks)
      {
        var hash := hashes[i];
        assert hashes[..i + 1][..i] == hashes[..i];
        assert hashes[..i + 1] == hashes[..i] + [hash];
        assert hash !in hashes[..i];
        FillingChunk(left', View().t, track.added, owed', hash);
        var chunk := byHash[hash];
        var filled, counts := FillWaiters(entries, byEntry, chunk, Ref(hash, chunk.size), track.added);
        FillingStep(left', View().t, track.added, owed', hash, filled, counts);
        entries, byEntry := filled, counts;
        left', owed' := left' - {hash}, owed' - |chunk.waiters|;
        if hash in acks && acks[hash].uploaded {
          stats := stats.Plus(Pipeline.Stats(1, |chunk.waiters| - 1));
        } else {
          stats := stats.Plus(Pipeline.Stats(0, |chunk.waiters|));
        }
      }
      assert hashes[..|hashes|] == hashes;
    }

    /** Checks the pending list, uploads what is missing, serves everyone who waits. An answer that
        cannot be used ends it with an error. */
    method Flush() returns (stats: Stats, ok: bool)
      requires Valid() && !broken
      modifies this
      ensures !broken ==> Valid()
      ensures ok ==> !broken && pending == [] && byHash == map[] && byEntry == map[] && requestBytes == 0
      ensures ok ==> track == old(track).(credited := track.credited) && track.credited == old(track.credited) + (stats.uploaded + stats.reused)
      ensures ok ==> track.adds == track.credited && forall e :: Slots(entries, e) == Slots(track.added, e)
      ensures !ok ==> stats == NONE && track == old(track)
      ensures server.Truthful(opts) ==> ok
    {
      hide BooksOk, CheckOk, Pipeline.Server.Truthful, Slots;
      if |pending| == 0 { AllSettled(View(), opts); return NONE, true; }
      var checked := CheckPending();
      if checked.None? { return NONE, false; }
      stats, ok := Serve(checked.value);
    }

    /** Asks the server about everything pending. None is an error. */
    method CheckPending() returns (r: Option<CheckResponse>)
      requires Valid()
      modifies this`calls
      ensures r.Some? ==> CheckOk(pending, opts.repositoryId, r.value, opts.compactCheck)
      ensures server.Truthful(opts) ==> r.Some?
    {
      hide CheckOk, UploadOk, BooksOk;
      FlushFacts(View(), opts);
      r := server.check(calls, pending);
      calls := calls + 1;
      if r.None? { return; }
      var good := ValidateChunkCheckResponse(pending, opts.repositoryId, r.value, opts.compactCheck);
      if !good { r := None; }
    }

    /** Serves what the server has, uploads the rest and serves that. */
    method Serve(checked: CheckResponse) returns (stats: Stats, ok: bool)
      requires Valid() && !broken && CheckOk(pending, opts.repositoryId, checked, opts.compactCheck)
      modifies this
      ensures !broken ==> Valid()
      ensures ok ==> !broken && pending == [] && byHash == map[] && byEntry == map[] && requestBytes == 0
      ensures ok ==> track == old(track).(credited := track.credited) && track.credited == old(track.credited) + (stats.uploaded + stats.reused)
      ensures ok ==> track.adds == track.credited && forall e :: Slots(entries, e) == Slots(track.added, e)
      ensures !ok ==> stats == NONE && track == old(track) && confirmed == old(confirmed)
      ensures ok ==> (
        var uploaded := UploadedBy(server.upload(old(calls), Pipeline.ToSend(checked.missing, old(byHash))), checked.missing);
        confirmed == if opts.useCatalog then Noted(old(confirmed), old(pending), checked.missing, checked.generation, uploaded) else old(confirmed))
      ensures server.Truthful(opts) ==> ok
    {
      hide BooksOk, Filling, CheckOk, Distinct, Pipeline.Server.Truthful, Slots, Pipeline.ToSend, Noted, UploadedBy;
      stats, ok := NONE, false;
      ghost var b0, owed := View(), Sum(byHash, Waiting);
      FlushFacts(b0, opts);
      Pipeline.CheckedLists(pending, opts.repositoryId, checked, opts.compactCheck);
      var existing := ExistingChunkHashes(pending, checked, opts.compactCheck);
      SplitLists(pending, existing, checked.missing, byHash);
      var served, left, owed1 := FillAll(existing, map[], byHash, owed);
      var uploaded := UploadMissing(checked.missing);
      if uploaded.None? { broken := true; return; }
      var more, left2, owed2 := FillAll(checked.missing, uploaded.value.acks, left, owed1);
      var stamp := if uploaded.value.generation == 0 then opts.base else uploaded.value.generation;
      ConfirmBoth(pending, existing, checked.missing, checked.generation, stamp);
      stats, ok := served.Plus(more), true;
      Close(b0, left2, owed2, stats.uploaded + stats.reused);
    }

    /** The generation uploaded digests are noted at; it does not matter when nothing was sent. */
    function UploadedBy(response: Option<UploadResponse>, missing: seq<Hash>): nat {
      if missing == [] || response.None? || response.value.generation == 0 then opts.base else response.value.generation
    }

    /** Sends the missing chunks, if there are any. None is an error. */
    method UploadMissing(missing: seq<Hash>) returns (r: Option<Uploaded>)
      requires Distinct(missing) && forall h :: h in missing ==> h in byHash && h != []
      modifies this`calls
      ensures server.Truthful(opts) ==> r.Some?
      ensures r.Some? ==> (
        var stamp := if r.value.generation == 0 then opts.base else r.value.generation;
        UploadedBy(server.upload(old(calls), Pipeline.ToSend(missing, byHash)), missing) == stamp)
    {
      hide UploadOk, Pipeline.Lists, Pipeline.ToSend, CheckOk;
      if |missing| == 0 { return Some(Uploaded(map[], 0)); }
      Pipeline.ListsAll(missing, byHash);
      var response := server.upload(calls, Pipeline.ToSend(missing, byHash));
      calls := calls + 1;
      if response.None? { return None; }
      var acks := ValidateChunkUploadResponse(Pipeline.Sizes(missing, byHash), opts.repositoryId, response.value, opts.compactUpload);
      if acks.None? { return None; }
      r := Some(Uploaded(acks.value, response.value.generation));
    }

    /** Everything pending has been served: the books are cleared. */
    method Close(ghost b0: Books, ghost left: ByHash, ghost owed: nat, ghost served: nat)
      requires BooksOk(b0, opts) && Filling(left, View().t, track.added, owed) && left == map[]
      requires b0.pending == pending && b0.track == track && b0.t.byHash == byHash && Sum(byHash, Waiting) == owed + served
      modifies this`byHash, this`pending, this`requestBytes, this`track
      ensures BooksOk(View(), opts) && pending == [] && byHash == map[] && byEntry == map[] && requestBytes == 0
      ensures track == old(track).(credited := old(track.credited) + served) && track.adds == track.credited
      ensures forall e :: Slots(entries, e) == Slots(track.added, e)
    {
      hide BooksOk, Filling, Slots, Distinct;
      FlushFacts(b0, opts);
      byHash, pending, requestBytes := byHash - ToSet(pending), [], 0;
      assert byHash == map[];
      track := track.(credited := track.credited + served);
      FlushedOk(b0, View(), opts, left, owed);
      AllSettled(View(), opts);
    }

    method ConfirmBoth(ghost batch: seq<Hash>, existing: seq<Hash>, missing: seq<Hash>, found: nat, sent: nat)
      requires (forall h :: h in existing <==> h in batch && h !in missing) && forall h :: h in missing ==> h in batch
      modifies this`confirmed
      ensures confirmed == if opts.useCatalog then Noted(old(confirmed), batch, missing, found, sent) else old(confirmed)
    {
      hide Marked, Noted;
      MarkedTwice(confirmed, batch, existing, missing, found, sent);
      Confirm(existing, found);
      Confirm(missing, sent);
    }

    method Confirm(hashes: seq<Hash>, stamp: nat)
      modifies this`confirmed
      ensures confirmed == if opts.useCatalog then Marked(old(confirmed), hashes, stamp) else old(confirmed)
    {
      if !opts.useCatalog { return; }
      for i := 0 to |hashes|
        invariant confirmed == Marked(old(confirmed), hashes[..i], stamp)
      {
        assert hashes[..i + 1] == hashes[..i] + [hashes[i]];
        confirmed := confirmed[hashes[i] := stamp];
      }
      assert hashes[..|hashes|] == hashes;
    }

    predicate ShouldFlushBeforeAdding(nextRequestBytes: nat)
      reads this
    {
      var nextCount := |pending| + 1;
      || nextCount > opts.maxChunks || requestBytes + nextRequestBytes > opts.maxRequestBytes
      || Pipeline.CheckEstimate(nextCount) > opts.maxResponseBytes
      || Pipeline.UploadEstimate(nextCount, opts.compactUpload) > opts.maxResponseBytes
    }

    predicate BatchFull()
      reads this
    {
      || |pending| >= opts.maxChunks || requestBytes >= opts.maxRequestBytes
      || Pipeline.CheckEstimate(|pending|) >= opts.maxResponseBytes
      || Pipeline.UploadEstimate(|pending|, opts.compactUpload) >= opts.maxResponseBytes
    }

    /** A slot for a chunk that is known to be stored. */
    method FillNow(e: nat, ref: Ref)
      modifies this`entries, this`track
      ensures View() == AddedFilled(old(View()), e, ref)
    {
      hide Append;
      entries := Append(entries, e, Filled(ref));
      track := track.(added := Append(track.added, e, Filled(ref)), adds := track.adds + 1, credited := track.credited + 1);
    }

    /** A slot that waits for a chunk already on the pending list. */
    method Attach(hash: Hash, e: nat)
      requires hash in byHash
      modifies this`byHash, this`byEntry, this`entries, this`track
      ensures View() == AddedWaiter(old(View()), e, hash)
    {
      hide Append, Batching.Plus, Slots;
      var chunk := byHash[hash];
      byHash := byHash[hash := chunk.(waiters := chunk.waiters + [Waiter(e, |Slots(entries, e)|)])];
      entries := Append(entries, e, Unfilled);
      byEntry := Batching.Plus(byEntry, e);
      track := track.(added := Append(track.added, e, Filled(Ref(hash, chunk.size))), adds := track.adds + 1);
    }

    /** Puts a chunk on the pending list with its first waiter. */
    method ListNew(hash: Hash, chunk: Bytes, e: nat)
      modifies this`pending, this`byHash, this`byEntry, this`entries, this`requestBytes, this`track
      ensures View() == AddedNew(old(View()), e, hash, chunk)
    {
      hide Append, ChunkRequestBytes, Batching.Plus, Slots;
      var body: nat := (if requestBytes == 0 then 12 else requestBytes) + ChunkRequestBytes(|chunk|);
      requestBytes := body;
      byHash := byHash[hash := PendingChunk(|chunk|, [Waiter(e, |Slots(entries, e)|)])];
      entries := Append(entries, e, Unfilled);
      pending := pending + [hash];
      byEntry := Batching.Plus(byEntry, e);
      track := track.(added := Append(track.added, e, Filled(Ref(hash, |chunk|))), known := track.known[hash := chunk], adds := track.adds + 1);
    }

    /** Adds a chunk to an entry's list: at once if the catalog has it, else with its batch. */
    method Add(chunk: Bytes, e: nat) returns (stats: Stats, ok: bool)
      requires Valid() && !broken
      requires digest(chunk) != [] && (digest(chunk) in track.known ==> track.known[digest(chunk)] == chunk)
      modifies this
      ensures !broken ==> Valid()
      ensures ok ==> !broken && track.added == Append(old(track.added), e, Filled(Ref(digest(chunk), |chunk|)))
      ensures ok ==> track.adds == old(track.adds) + 1 && track.credited == old(track.credited) + (stats.uploaded + stats.reused)
      ensures ok ==> track.known == old(track).known || track.known == old(track).known[digest(chunk) := chunk]
      ensures server.Truthful(opts) && 12 + ChunkRequestBytes(|chunk|) <= opts.maxRequestBytes ==> ok
    {
      hide BooksOk, Pipeline.Server.Truthful, Append, ChunkRequestBytes, Slots;
      stats, ok := NONE, true;
      var hash := digest(chunk);
      if opts.useCatalog && hash in confirmed && confirmed[hash] >= opts.base {
        AddedFilledOk(View(), opts, e, Ref(hash, |chunk|));
        FillNow(e, Ref(hash, |chunk|));
        return Pipeline.Stats(0, 1), true;
      }
      if hash in byHash {
        AddedWaiterOk(View(), opts, e, hash);
        SizeKnown(View(), opts, hash);
        Attach(hash, e);
        return;
      }
      var chunkRequestBytes := ChunkRequestBytes(|chunk|);
      if 12 + chunkRequestBytes > opts.maxRequestBytes {
        entries, broken := Append(entries, e, Unfilled), true;
        return NONE, false;
      }
      if |pending| > 0 && ShouldFlushBeforeAdding(chunkRequestBytes) {
        stats, ok := Flush();
        if !ok { entries, broken := Append(entries, e, Unfilled), true; return; }
        AddedNewOk(View(), opts, e, hash, chunk);
        ListNew(hash, chunk, e);
        return;
      }
      PendingFits(View(), opts);
      AddedNewOk(View(), opts, e, hash, chunk);
      ListNew(hash, chunk, e);
      if BatchFull() { stats, ok := Flush(); }
    }

    method EntryPending(e: nat) returns (waits: bool)
      requires Valid()
      ensures !waits ==> Slots(entries, e) == Slots(track.added, e)
    {
      hide Slots;
      waits := e in byEntry && byEntry[e] > 0;
      EntryIsDone(View(), opts, e);
    }
  }

  lemma PendingFits(b: Books, opts: Options)
    requires BooksOk(b, opts)
    ensures b.pending == [] <==> b.requestBytes == 0
  {
    Pipeline.BodyBytesPositive(b.pending, b.t.byHash);
  }

  lemma SizeKnown(b: Books, opts: Options, hash: Hash)
    requires BooksOk(b, opts) && hash in b.t.byHash
    ensures hash in b.track.known && b.t.byHash[hash].size == |b.track.known[hash]|
  {
  }

  lemma EntryIsDone(b: Books, opts: Options, e: nat)
    requires BooksOk(b, opts)
    ensures !(e in b.t.byEntry && b.t.byEntry[e] > 0) ==> Slots(b.t.entries, e) == Slots(b.track.added, e)
  {
    if e !in b.t.byEntry { EntryDone(b.t.byHash, b.t.entries, b.track.added, b.t.byEntry, e); }
  }

  lemma FlushFacts(b: Books, opts: Options)
    requires BooksOk(b, opts)
    ensures Filling(b.t.byHash, b.t, b.track.added, Sum(b.t.byHash, Waiting))
    ensures [] !in b.pending && Distinct(b.pending) && b.t.byHash.Keys == ToSet(b.pending)
    ensures b.track.adds == b.track.credited + Sum(b.t.byHash, Waiting)
  {
    hide Booked, Counted;
  }

  lemma SplitLists(pending: seq<Hash>, existing: seq<Hash>, missing: seq<Hash>, byHash: ByHash)
    requires byHash.Keys == ToSet(pending) && forall h :: h in missing ==> h in pending
    requires forall h :: h in existing <==> h in pending && h !in missing
    ensures forall i :: 0 <= i < |existing| ==> existing[i] in byHash
    ensures forall i :: 0 <= i < |missing| ==> missing[i] in byHash && missing[i] in byHash - ToSet(existing)
    ensures byHash - ToSet(existing) - ToSet(missing) == map[]
    ensures forall h :: h in missing ==> h in byHash && (h == [] ==> [] in pending)
  {
    assert forall i :: 0 <= i < |existing| ==> existing[i] in existing;
    assert forall i :: 0 <= i < |missing| ==> missing[i] in missing;
    forall h | h in byHash ensures h in ToSet(existing) + ToSet(missing) { assert h in ToSet(pending); }
  }

  lemma FlushedOk(b0: Books, b: Books, opts: Options, left: ByHash, owed: nat)
    requires BooksOk(b0, opts) && Filling(left, b.t.(byHash := b0.t.byHash), b.track.added, owed) && left == map[]
    requires b.pending == [] && b.requestBytes == 0 && b.t.byHash == map[]
    requires b.track == b0.track.(credited := b0.track.credited + (Sum(b0.t.byHash, Waiting) - owed)) && owed <= Sum(b0.t.byHash, Waiting)
    ensures BooksOk(b, opts)
  {
    hide Booked, Counted;
  }

  // ---- all three list the same chunks ----

  /** A chunk, and the entry it is added to. */
  datatype Piece = Piece(chunk: Bytes, entry: nat)

  /** Each chunk appended to its entry's list, in order. */
  function OneByOne(entries: Entries, adds: seq<Piece>, digest: Bytes -> Hash): Entries {
    if adds == [] then entries
    else
      var last := adds[|adds| - 1];
      Append(OneByOne(entries, adds[..|adds| - 1], digest), last.entry, Filled(Ref(digest(last.chunk), |last.chunk|)))
  }

  /** Uploading chunk by chunk makes that list. */
  method UploadOneByOne(server: SingleServer, digest: Bytes -> Hash, confirmed: map<Hash, nat>, useCatalog: bool, base: nat,
                        adds: seq<Piece>, entries: Entries)
    returns (r: Option<Entries>)
    ensures server.Truthful(digest) && r.Some? ==> r.value == OneByOne(entries, adds, digest)
  {
    hide SingleServer.Truthful, Append;
    var lists, c := entries, confirmed;
    for i := 0 to |adds|
      invariant server.Truthful(digest) ==> lists == OneByOne(entries, adds[..i], digest)
    {
      assert adds[..i + 1][..i] == adds[..i];
      var ref, uploaded, c' := EnsureChunk(server, digest, c, useCatalog, base, 2 * i, adds[i].chunk);
      if ref.None? { return None; }
      lists, c := Append(lists, adds[i].entry, Filled(ref.value)), c';
    }
    assert adds[..|adds|] == adds;
    r := Some(lists);
  }

  /** The digest tells the added chunks apart. */
  ghost predicate NoCollision(adds: seq<Piece>, digest: Bytes -> Hash) {
    && (forall i :: 0 <= i < |adds| ==> digest(adds[i].chunk) != [])
    && forall i, j :: 0 <= i < |adds| && 0 <= j < |adds| && digest(adds[i].chunk) == digest(adds[j].chunk) ==> adds[i].chunk == adds[j].chunk
  }

  ghost predicate KnownAmong(known: map<Hash, Bytes>, adds: seq<Piece>, digest: Bytes -> Hash, n: nat)
    requires n <= |adds|
  {
    forall h :: h in known ==> exists i :: 0 <= i < n && digest(adds[i].chunk) == h && adds[i].chunk == known[h]
  }

  lemma KnownNext(known: map<Hash, Bytes>, known': map<Hash, Bytes>, adds: seq<Piece>, digest: Bytes -> Hash, n: nat)
    requires n < |adds| && KnownAmong(known, adds, digest, n)
    requires known' == known || known' == known[digest(adds[n].chunk) := adds[n].chunk]
    ensures KnownAmong(known', adds, digest, n + 1)
  {
  }

  lemma KnownAgrees(known: map<Hash, Bytes>, adds: seq<Piece>, digest: Bytes -> Hash, n: nat)
    requires n < |adds| && KnownAmong(known, adds, digest, n) && NoCollision(adds, digest)
    ensures digest(adds[n].chunk) != []
    ensures digest(adds[n].chunk) in known ==> known[digest(adds[n].chunk)] == adds[n].chunk
  {
  }

  method RunSerial(b: SerialBatcher, adds: seq<Piece>) returns (ok: bool)
    requires b.Valid() && !b.broken && b.track == Track(b.entries, map[], 0, 0) && NoCollision(adds, b.digest)
    modifies b
    ensures ok ==> forall e :: Slots(b.entries, e) == Slots(OneByOne(old(b.entries), adds, b.digest), e)
    ensures ok ==> b.byEntry == map[] && b.track.credited == b.track.adds == |adds|
    ensures b.server.Truthful(b.opts) && (forall i :: 0 <= i < |adds| ==> 12 + ChunkRequestBytes(|adds[i].chunk|) <= b.opts.maxRequestBytes) ==> ok
  {
    hide BooksOk, Pipeline.Server.Truthful, Append, ChunkRequestBytes, Slots, KnownAmong, NoCollision;
    assert KnownAmong(b.track.known, adds, b.digest, 0) by { NoneKnown(adds, b.digest); }
    for i := 0 to |adds|
      invariant b.Valid() && !b.broken && KnownAmong(b.track.known, adds, b.digest, i)
      invariant b.track.added == OneByOne(old(b.entries), adds[..i], b.digest) && b.track.adds == i
    {
      assert adds[..i + 1][..i] == adds[..i];
      KnownAgrees(b.track.known, adds, b.digest, i);
      ghost var known := b.track.known;
      var stats, good := b.Add(adds[i].chunk, adds[i].entry);
      if !good { return false; }
      KnownNext(known, b.track.known, adds, b.digest, i);
    }
    assert adds[..|adds|] == adds;
    var stats, good := b.Flush();
    ok := good;
  }

  lemma NoneKnown(adds: seq<Piece>, digest: Bytes -> Hash)
    ensures KnownAmong(map[], adds, digest, 0)
  {
  }

  method AddAndLook(b: Pipeline.PipelineBatcher, piece: Piece, look: Option<nat>) returns (ok: bool)
    requires b.Valid() && !b.orphaned
    requires b.digest(piece.chunk) != [] && (b.digest(piece.chunk) in b.track.known ==> b.track.known[b.digest(piece.chunk)] == piece.chunk)
    modifies b
    ensures ok ==> b.Valid() && !b.orphaned && b.track.adds == old(b.track.adds) + 1
    ensures ok ==> b.track.added == Append(old(b.track.added), piece.entry, Filled(Ref(b.digest(piece.chunk), |piece.chunk|)))
    ensures ok ==> b.track.known == old(b.track).known || b.track.known == old(b.track).known[b.digest(piece.chunk) := piece.chunk]
    ensures ok && look in {None, Some(0)} ==> b.track.dropped == old(b.track.dropped)
    ensures ok && !b.failed ==> (b.track.dropped > old(b.track.dropped) <==> b.looked > old(b.looked))
    ensures ok ==> !old(b.failed) && b.track.dropped >= old(b.track.dropped) && b.looked >= old(b.looked)
    ensures b.server.Truthful(b.opts) && !old(b.failed) && b.Fits(piece.chunk) ==> ok
    ensures b.server.Truthful(b.opts) && ok ==> !b.failed
  {
    hide Pipeline.BooksOk, Pipeline.Server.Truthful, Append, Slots, Pipeline.PipelineBatcher.Fits;
    var stats;
    stats, ok := b.Add(piece.chunk, piece.entry);
    if ok && look.Some? { var waits := b.EntryPending(piece.entry, look.value); }
  }

  /** `looks` says after which adds the scanner asks whether the entry still waits, and how many results may
      be taken then. Every add is counted if and only if no look found a result ready. */
  method RunPipeline(b: Pipeline.PipelineBatcher, adds: seq<Piece>, looks: nat -> Option<nat>) returns (ok: bool)
    requires b.Valid() && !b.orphaned && !b.failed && b.track == Pipeline.Track(b.entries, map[], map[], {}, 0, 0, 0) && b.looked == 0 && NoCollision(adds, b.digest)
    modifies b
    ensures ok ==> forall e :: Slots(b.entries, e) == Slots(OneByOne(old(b.entries), adds, b.digest), e)
    ensures ok ==> b.byEntry == map[] && b.used == 0 && b.track.credited + b.track.dropped == b.track.adds == |adds|
    ensures ok ==> (b.track.credited == |adds| <==> b.looked == 0)
    ensures ok && (forall i :: looks(i) in {None, Some(0)}) ==> b.track.dropped == 0
    ensures b.server.Truthful(b.opts) && (forall i :: 0 <= i < |adds| ==> b.Fits(adds[i].chunk)) ==> ok
  {
    hide Pipeline.BooksOk, Pipeline.Server.Truthful, Append, Slots, KnownAmong, NoCollision, Pipeline.PipelineBatcher.Fits;
    assert KnownAmong(b.track.known, adds, b.digest, 0) by { NoneKnown(adds, b.digest); }
    for i := 0 to |adds|
      invariant b.Valid() && !b.orphaned && KnownAmong(b.track.known, adds, b.digest, i)
      invariant b.track.added == OneByOne(old(b.entries), adds[..i], b.digest) && b.track.adds == i
      invariant b.server.Truthful(b.opts) ==> !b.failed
      invariant !b.failed ==> (b.track.dropped == 0 <==> b.looked == 0)
      invariant (forall k :: looks(k) in {None, Some(0)}) ==> b.track.dropped == 0
    {
      assert adds[..i + 1][..i] == adds[..i];
      KnownAgrees(b.track.known, adds, b.digest, i);
      ghost var known := b.track.known;
      var good := AddAndLook(b, adds[i], looks(i));
      if !good { return false; }
      KnownNext(known, b.track.known, adds, b.digest, i);
    }
    assert adds[..|adds|] == adds;
    var stats, good := b.Flush();
    ok := good;
  }

  /** With the same adds, the two batchers give every entry the same list, whatever the limits, the
      catalog and the server, and in whatever order the pipeline's results come back. */
  method SameLists(opts: Options, digest: Bytes -> Hash, server1: Pipeline.Server, server2: Pipeline.Server,
                   confirmed1: map<Hash, nat>, confirmed2: map<Hash, nat>, entries: Entries, adds: seq<Piece>, looks: nat -> Option<nat>)
    returns (serial: SerialBatcher, pipeline: Pipeline.PipelineBatcher, ok: bool)
    requires NoCollision(adds, digest) && forall e, i :: e in entries && 0 <= i < |entries[e]| ==> entries[e][i].Filled?
    ensures ok ==> forall e :: Slots(serial.entries, e) == Slots(pipeline.entries, e)
    ensures ok ==> serial.byEntry == map[] && pipeline.byEntry == map[]
    ensures server1.Truthful(opts.Normalized()) && server2.Truthful(opts.Normalized()) && (forall i :: 0 <= i < |adds| ==> pipeline.Fits(adds[i].chunk)) ==> ok
  {
    hide BooksOk, Pipeline.BooksOk, Pipeline.Server.Truthful, OneByOne, NoCollision;
    serial := new SerialBatcher(opts, digest, server1, confirmed1, entries);
    pipeline := new Pipeline.PipelineBatcher(opts, digest, server2, confirmed2, entries);
    var ok1 := RunSerial(serial, adds);
    var ok2 := RunPipeline(pipeline, adds, looks);
    ok := ok1 && ok2;
  }
}
