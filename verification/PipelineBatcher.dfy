/** The pipelined uploader: batches are checked and uploaded in the background and their results come
    back in any order, while equal chunks wait for one upload and a byte window limits what is held. */
module Pipeline {
  import opened Base
  import opened Batching

  datatype Stats = Stats(uploaded: nat, reused: nat) {
    function Plus(other: Stats): Stats { Stats(uploaded + other.uploaded, reused + other.reused) }
  }

  const NONE := Stats(0, 0)

  datatype Options = Options(
    maxChunks: int, maxRequestBytes: int, maxResponseBytes: int, maxPipelineBytes: int,
    compactCheck: bool, compactUpload: bool, repositoryId: Bytes, base: nat, useCatalog: bool)
  {
    /** Limits that are not set get their defaults. */
    function Normalized(): Options {
      this.(maxChunks := if maxChunks <= 0 then 10000 else maxChunks,
            maxRequestBytes := if maxRequestBytes <= 0 then 64 * 1024 * 1024 else maxRequestBytes,
            maxResponseBytes := if maxResponseBytes <= 0 then 64 * 1024 * 1024 else maxResponseBytes,
            maxPipelineBytes := if maxPipelineBytes <= 0 then 128 * 1024 * 1024 else maxPipelineBytes)
    }
  }

  /** The chunks of an upload, each once, with their sizes. */
  ghost predicate Lists(sent: seq<Ref>, sizes: map<Hash, nat>) {
    && (forall i, j :: 0 <= i < j < |sent| ==> sent[i].hash != sent[j].hash)
    && (forall i :: 0 <= i < |sent| ==> sent[i].hash in sizes && sizes[sent[i].hash] == sent[i].size)
    && forall h :: h in sizes ==> exists i :: 0 <= i < |sent| && sent[i].hash == h
  }

  /** What the server answers to the requests, by number; None is a failed request. */
  datatype Server = Server(check: (nat, seq<Hash>) -> Option<CheckResponse>, upload: (nat, seq<Ref>) -> Option<UploadResponse>)
  {
    /** Every request is answered, and answered properly. */
    ghost predicate Truthful(opts: Options) {
      && (forall k, batch {:trigger check(k, batch)} :: [] !in batch ==>
            check(k, batch).Some? && CheckOk(batch, opts.repositoryId, check(k, batch).value, opts.compactCheck))
      && (forall k, sent, sizes {:trigger upload(k, sent), Lists(sent, sizes)} :: Lists(sent, sizes) && [] !in sizes ==>
            upload(k, sent).Some? && UploadOk(sizes, opts.repositoryId, upload(k, sent).value, opts.compactUpload))
    }
  }

  datatype Processed = Processed(checked: CheckResponse, uploads: map<Hash, Ack>, uploadGeneration: nat)

  function CheckEstimate(count: nat): nat { 512 + count * 80 }

  function UploadEstimate(count: nat, compact: bool): nat { 512 + count * (if compact then 140 else 360) }

  type Batches = map<nat, seq<Hash>>

  /** Everything the batcher keeps, with what it is to amount to. */
  datatype Books = Books(q: Queue, t: Table, w: Window, track: Track)

  /** What is to be sent, and what is on its way. */
  datatype Queue = Queue(pending: seq<Hash>, requestBytes: nat, inflight: Batches, nextBatchID: nat)

  /** What is unresolved, by digest and by entry, and the entries' lists. */
  datatype Table = Table(byHash: ByHash, byEntry: map<nat, nat>, entries: Entries)

  /** The bytes that are held, and the most there ever were. */
  datatype Window = Window(used: nat, maxUsed: nat)

  /** What the batcher is held against: what was added, where each chunk is, and the count of the adds. */
  datatype Track = Track(
    added: Entries, known: map<Hash, Bytes>, owner: map<Hash, nat>, lost: set<Hash>, adds: nat, credited: nat, dropped: nat)

  /** `transit` is a batch that is neither pending nor on its way. */
  ghost predicate BooksOk(b: Books, opts: Options, transit: set<Hash>) {
    && Booked(b.t.byHash, b.t.entries, b.track.added) && Counted(b.t.byEntry, b.t.entries)
    && Queued(b.t.byHash, b.q.pending, b.q.inflight, b.track.lost + transit, b.track.owner)
    && (forall id :: id in b.q.inflight ==> id <= b.q.nextBatchID) && (forall h :: h in b.track.owner ==> b.track.owner[h] <= b.q.nextBatchID)
    && Known(b.t.byHash, b.track.known)
    && b.w.used == Sum(b.t.byHash, SizeOf) && b.w.used <= b.w.maxUsed <= opts.maxPipelineBytes
    && PendingOk(b.q.pending, b.t.byHash, b.q.requestBytes, opts)
    && b.track.adds == b.track.credited + b.track.dropped + Sum(b.t.byHash, Waiting)
  }

  function Resolved(b: Books, hash: Hash, entries: Entries, byEntry: map<nat, nat>): Books
    requires hash in b.t.byHash
  {
    var c := b.t.byHash[hash];
    b.(t := Table(b.t.byHash - {hash}, byEntry, entries),
       w := b.w.(used := if b.w.used >= c.size then b.w.used - c.size else 0),
       track := b.track.(owner := b.track.owner - {hash}, credited := b.track.credited + |c.waiters|))
  }

  lemma ResolvedOk(b: Books, opts: Options, transit: set<Hash>, hash: Hash, entries: Entries, byEntry: map<nat, nat>)
    requires BooksOk(b, opts, transit) && hash in transit && hash !in b.track.lost && hash in b.t.byHash && Counted(byEntry, entries)
    requires FilledUpTo(b.t.entries, b.t.byHash[hash].waiters, |b.t.byHash[hash].waiters|, Ref(hash, b.t.byHash[hash].size), entries)
    ensures BooksOk(Resolved(b, hash, entries, byEntry), opts, transit - {hash})
  {
    hide Booked, Counted, Queued, Known, PendingOk, FilledUpTo, SizeOf, Waiting;
    BookResolved(b.t.byHash, b.t.entries, b.track.added, hash, entries);
    QueuedResolve(b.t.byHash, b.q.pending, b.q.inflight, b.track.lost + transit, b.track.owner, hash);
    PendingAfter(b.q.pending, b.t.byHash, b.q.requestBytes, opts, hash);
    KnownAfter(b.t.byHash, b.track.known, hash);
    SizesAfter(b.t.byHash, hash);
    assert b.track.lost + transit - {hash} == b.track.lost + (transit - {hash});
    SizeIsSize(b.t.byHash[hash]);
  }

  lemma SizeIsSize(c: PendingChunk)
    ensures SizeOf(c) == c.size && Waiting(c) == |c.waiters|
  {
  }

  lemma BookedChunk(b: Books, opts: Options, transit: set<Hash>, hash: Hash)
    requires BooksOk(b, opts, transit) && hash in b.t.byHash
    ensures ChunkOk(hash, b.t.byHash[hash], b.t.entries, b.track.added) && Counted(b.t.byEntry, b.t.entries)
  {
    hide ChunkOk;
  }

  lemma PendingAfter(pending: seq<Hash>, byHash: ByHash, requestBytes: nat, opts: Options, hash: Hash)
    requires PendingOk(pending, byHash, requestBytes, opts) && hash !in pending
    ensures PendingOk(pending, byHash - {hash}, requestBytes, opts)
  {
    BodySame(pending, byHash, byHash - {hash});
  }

  lemma KnownAfter(byHash: ByHash, known: map<Hash, Bytes>, hash: Hash)
    requires Known(byHash, known)
    ensures Known(byHash - {hash}, known)
  {
  }

  lemma SizesAfter(byHash: ByHash, hash: Hash)
    requires hash in byHash
    ensures Sum(byHash, SizeOf) == SizeOf(byHash[hash]) + Sum(byHash - {hash}, SizeOf)
    ensures Sum(byHash, Waiting) == Waiting(byHash[hash]) + Sum(byHash - {hash}, Waiting)
  {
    SumRemove(byHash, SizeOf, hash);
    SumRemove(byHash, Waiting, hash);
  }

  /** Every unresolved chunk is in exactly one place: on the pending list (owner 0), in a batch on its
      way, or in `aside`: a batch being applied, or lost to an error. */
  ghost predicate Queued(byHash: ByHash, pending: seq<Hash>, inflight: Batches, aside: set<Hash>, owner: map<Hash, nat>) {
    && owner.Keys == byHash.Keys && Distinct(pending) && 0 !in inflight
    && (forall h :: h in owner ==>
          if owner[h] == 0 then h in pending else h in aside || (owner[h] in inflight && h in inflight[owner[h]]))
    && (forall h :: h in pending ==> h in owner && owner[h] == 0)
    && (forall h :: h in aside ==> h in owner && owner[h] != 0 && owner[h] !in inflight)
    && (forall id :: id in inflight ==> BatchOk(inflight[id], id, owner))
  }

  ghost predicate BatchOk(batch: seq<Hash>, id: nat, owner: map<Hash, nat>) {
    batch != [] && Distinct(batch) && forall h :: h in batch ==> h in owner && owner[h] == id
  }

  function Sizes(missing: seq<Hash>, byHash: ByHash): map<Hash, nat> {
    map h | h in missing && h in byHash :: byHash[h].size
  }

  function ToSend(missing: seq<Hash>, byHash: ByHash): (r: seq<Ref>)
    ensures |r| == |missing|
  {
    seq(|missing|, i requires 0 <= i < |missing| => if missing[i] in byHash then Ref(missing[i], byHash[missing[i]].size) else Ref([], 0))
  }

  lemma ListsAll(missing: seq<Hash>, byHash: ByHash)
    requires Distinct(missing) && forall h :: h in missing ==> h in byHash
    ensures Lists(ToSend(missing, byHash), Sizes(missing, byHash)) && Sizes(missing, byHash).Keys == ToSet(missing)
  {
    var sent, sizes := ToSend(missing, byHash), Sizes(missing, byHash);
    forall h | h in sizes ensures exists i :: 0 <= i < |sent| && sent[i].hash == h {
      var i :| 0 <= i < |missing| && missing[i] == h;
      assert sent[i].hash == h;
    }
  }

  /** Each unresolved chunk has a proper digest, someone waiting for it, and the size of the data that was added. */
  ghost predicate Known(byHash: ByHash, known: map<Hash, Bytes>) {
    forall h :: h in byHash ==> h != [] && byHash[h].waiters != [] && h in known && byHash[h].size == |known[h]|
  }

  /** The pending list makes a body within the request limit, and no more than a full batch. */
  ghost predicate PendingOk(pending: seq<Hash>, byHash: ByHash, requestBytes: nat, opts: Options) {
    && AllIn(pending, byHash) && requestBytes == (if pending == [] then 0 else BodyBytes(pending, byHash))
    && requestBytes <= opts.maxRequestBytes && |pending| <= opts.maxChunks
  }

  predicate AllIn(listed: seq<Hash>, byHash: ByHash) {
    forall i :: 0 <= i < |listed| ==> listed[i] in byHash
  }

  lemma {:induction false} BodySame(listed: seq<Hash>, byHash: ByHash, byHash': ByHash)
    requires AllIn(listed, byHash) && AllIn(listed, byHash')
    requires forall h :: h in listed ==> byHash'[h].size == byHash[h].size
    ensures BodyBytes(listed, byHash') == BodyBytes(listed, byHash)
    decreases |listed|
  {
    if listed != [] { BodySame(listed[..|listed| - 1], byHash, byHash'); }
  }

  lemma BodySnoc(listed: seq<Hash>, byHash: ByHash, h: Hash, byHash': ByHash)
    requires AllIn(listed, byHash) && h !in listed && h in byHash'
    requires forall x :: x in listed ==> x in byHash' && byHash'[x].size == byHash[x].size
    ensures AllIn(listed + [h], byHash')
    ensures BodyBytes(listed + [h], byHash') == BodyBytes(listed, byHash) + ChunkRequestBytes(byHash'[h].size)
  {
    BodySame(listed, byHash, byHash');
    assert (listed + [h])[..|listed|] == listed;
  }

  lemma QueuedTake(byHash: ByHash, pending: seq<Hash>, inflight: Batches, aside: set<Hash>, owner: map<Hash, nat>, id: nat)
    requires Queued(byHash, pending, inflight, aside, owner) && id in inflight
    ensures Queued(byHash, pending, inflight - {id}, aside + ToSet(inflight[id]), owner)
    ensures ToSet(inflight[id]) !! aside && inflight[id] != [] && Distinct(inflight[id]) && AllIn(inflight[id], byHash)
  {
    assert BatchOk(inflight[id], id, owner);
  }

  lemma QueuedResolve(byHash: ByHash, pending: seq<Hash>, inflight: Batches, aside: set<Hash>, owner: map<Hash, nat>, h: Hash)
    requires Queued(byHash, pending, inflight, aside, owner) && h in aside
    ensures Queued(byHash - {h}, pending, inflight, aside - {h}, owner - {h}) && h !in pending
  {
    forall id | id in inflight ensures BatchOk(inflight[id], id, owner - {h}) { assert BatchOk(inflight[id], id, owner); }
  }

  function Moved(owner: map<Hash, nat>, id: nat): map<Hash, nat> {
    map h | h in owner :: if owner[h] == 0 then id else owner[h]
  }

  lemma QueuedSubmit(byHash: ByHash, pending: seq<Hash>, inflight: Batches, aside: set<Hash>, owner: map<Hash, nat>, id: nat)
    requires Queued(byHash, pending, inflight, aside, owner) && id != 0 && id !in inflight
    ensures Queued(byHash, [], inflight, aside + ToSet(pending), Moved(owner, id))
    ensures forall h :: h in pending ==> h in Moved(owner, id) && Moved(owner, id)[h] == id
  {
    forall k | k in inflight ensures BatchOk(inflight[k], k, Moved(owner, id)) { assert BatchOk(inflight[k], k, owner); }
  }

  lemma QueuedArrive(byHash: ByHash, inflight: Batches, aside: set<Hash>, batch: seq<Hash>, owner: map<Hash, nat>, id: nat)
    requires Queued(byHash, [], inflight, aside + ToSet(batch), owner) && id != 0 && id !in inflight
    requires batch != [] && Distinct(batch) && forall h :: h in batch ==> h in owner && owner[h] == id
    requires forall h :: h in aside ==> h !in batch && owner[h] != id
    ensures Queued(byHash, [], inflight[id := batch], aside, owner)
  {
    var inflight' := inflight[id := batch];
    forall k | k in inflight' ensures BatchOk(inflight'[k], k, owner) {
      if k != id { assert BatchOk(inflight[k], k, owner); }
    }
  }

  lemma QueuedNew(byHash: ByHash, pending: seq<Hash>, inflight: Batches, aside: set<Hash>, owner: map<Hash, nat>, h: Hash, c: PendingChunk)
    requires Queued(byHash, pending, inflight, aside, owner) && h !in byHash
    ensures Queued(byHash[h := c], pending + [h], inflight, aside, owner[h := 0])
  {
    DistinctSnoc(pending, h);
    forall k | k in inflight ensures BatchOk(inflight[k], k, owner[h := 0]) { assert BatchOk(inflight[k], k, owner); }
  }

  /** What applying results leaves alone. */
  ghost predicate Kept(b0: Books, b: Books) {
    && b.q.pending == b0.q.pending && b.q.requestBytes == b0.q.requestBytes && b.q.inflight == b0.q.inflight && b.q.nextBatchID == b0.q.nextBatchID
    && b.w.maxUsed == b0.w.maxUsed && b.w.used <= b0.w.used
    && b.track == b0.track.(owner := b.track.owner, credited := b.track.credited)
    && (forall h :: h in b.track.owner ==> h in b0.track.owner && b.track.owner[h] == b0.track.owner[h])
    && forall h :: h in b.t.byHash ==> h in b0.t.byHash && b.t.byHash[h] == b0.t.byHash[h]
  }

  lemma KeptItself(b: Books)
    ensures Kept(b, b)
  {
  }

  /** The same while batches come back: fewer are on their way, and one may be lost. */
  ghost predicate Drained(b0: Books, b: Books) {
    && b.q.pending == b0.q.pending && b.q.requestBytes == b0.q.requestBytes && b.q.nextBatchID == b0.q.nextBatchID && b.w.maxUsed == b0.w.maxUsed
    && b.w.used <= b0.w.used && b.q.inflight.Keys <= b0.q.inflight.Keys
    && b.track == b0.track.(owner := b.track.owner, credited := b.track.credited, lost := b.track.lost)
    && (forall h :: h in b.track.owner ==> h in b0.track.owner && b.track.owner[h] == b0.track.owner[h])
    && forall h :: h in b.t.byHash ==> h in b0.t.byHash && b.t.byHash[h] == b0.t.byHash[h]
  }

  lemma DrainedItself(b: Books)
    ensures Drained(b, b)
  {
  }

  lemma DrainedTwice(b0: Books, b1: Books, b2: Books)
    requires Drained(b0, b1) && Drained(b1, b2)
    ensures Drained(b0, b2)
  {
  }

  lemma DrainedKeeps(b0: Books, b: Books)
    requires Drained(b0, b)
    ensures b.q.pending == b0.q.pending && b.q.requestBytes == b0.q.requestBytes && b.q.nextBatchID == b0.q.nextBatchID
    ensures b.track == b0.track.(owner := b.track.owner, credited := b.track.credited, lost := b.track.lost)
    ensures forall h :: h in b.t.byHash ==> h in b0.t.byHash
  {
  }

  /** Taking a batch, and then settling or losing it. */
  lemma DrainedByOne(b0: Books, id: nat, b1: Books, b: Books)
    requires b1 == b0.(q := b0.q.(inflight := b0.q.inflight - {id})) && Kept(b1, b)
    ensures Drained(b0, b)
    ensures forall lost :: Drained(b0, b.(track := b.track.(lost := lost)))
  {
  }

  lemma NoEmptyDigest(b: Books, opts: Options, transit: set<Hash>, batch: seq<Hash>)
    requires BooksOk(b, opts, transit) && AllIn(batch, b.t.byHash)
    ensures [] !in batch
  {
    assert forall i :: 0 <= i < |batch| ==> batch[i] in b.t.byHash;
  }

  lemma TakenOk(b: Books, opts: Options, transit: set<Hash>, id: nat)
    requires BooksOk(b, opts, transit) && id in b.q.inflight
    ensures BooksOk(b.(q := b.q.(inflight := b.q.inflight - {id})), opts, transit + ToSet(b.q.inflight[id]))
    ensures ToSet(b.q.inflight[id]) !! transit + b.track.lost && b.q.inflight[id] != [] && Distinct(b.q.inflight[id]) && AllIn(b.q.inflight[id], b.t.byHash)
  {
    hide Booked, Counted, Known, PendingOk;
    QueuedTake(b.t.byHash, b.q.pending, b.q.inflight, b.track.lost + transit, b.track.owner, id);
    assert b.track.lost + transit + ToSet(b.q.inflight[id]) == b.track.lost + (transit + ToSet(b.q.inflight[id]));
  }

  lemma LostOk(b: Books, opts: Options, transit: set<Hash>, batch: set<Hash>)
    requires BooksOk(b, opts, transit + batch)
    ensures BooksOk(b.(track := b.track.(lost := b.track.lost + batch)), opts, transit)
  {
    hide Booked, Counted, Known, PendingOk;
    assert b.track.lost + (transit + batch) == b.track.lost + batch + transit;
  }

  function Submitted(b: Books): Books {
    b.(q := Queue([], 0, b.q.inflight, b.q.nextBatchID + 1), track := b.track.(owner := Moved(b.track.owner, b.q.nextBatchID + 1)))
  }

  lemma SubmittedOk(b: Books, opts: Options)
    requires BooksOk(b, opts, {})
    ensures BooksOk(Submitted(b), opts, ToSet(b.q.pending))
    ensures forall h :: h in b.q.pending ==> h in Submitted(b).track.owner && Submitted(b).track.owner[h] == b.q.nextBatchID + 1 && h !in b.track.lost
    ensures forall h :: h in b.track.lost ==> h in Submitted(b).track.owner && Submitted(b).track.owner[h] != b.q.nextBatchID + 1
    ensures Distinct(b.q.pending)
  {
    hide Booked, Counted, Known;
    QueuedSubmit(b.t.byHash, b.q.pending, b.q.inflight, b.track.lost + {}, b.track.owner, b.q.nextBatchID + 1);
    assert b.track.lost + {} + ToSet(b.q.pending) == b.track.lost + ToSet(b.q.pending);
  }

  /** The pending list is gone; for the rest, some results may have been applied. */
  ghost predicate Sent(b0: Books, b: Books) {
    && b.q.pending == [] && b.q.requestBytes == 0 && b.w.used <= b0.w.used && b.w.maxUsed == b0.w.maxUsed && |b.q.inflight| <= |b0.q.inflight| + 1
    && b.track == b0.track.(owner := b.track.owner, credited := b.track.credited, lost := b.track.lost)
    && forall h :: h in b.t.byHash ==> h in b0.t.byHash
  }

  /** What waiting for the window leaves alone. */
  ghost predicate Waited(b0: Books, b: Books) {
    && ((b.q.pending == b0.q.pending && b.q.requestBytes == b0.q.requestBytes) || (b.q.pending == [] && b.q.requestBytes == 0))
    && b.w.used <= b0.w.used && b.w.maxUsed == b0.w.maxUsed
    && b.track == b0.track.(owner := b.track.owner, credited := b.track.credited, lost := b.track.lost)
    && forall h :: h in b.t.byHash ==> h in b0.t.byHash
  }

  lemma WaitedItself(b: Books)
    ensures Waited(b, b)
  {
  }

  lemma WaitedTwice(b0: Books, b1: Books, b2: Books)
    requires Waited(b0, b1) && Waited(b1, b2)
    ensures Waited(b0, b2) && (b2.q.pending == [] || (b2.q.pending == b1.q.pending && b2.q.requestBytes == b1.q.requestBytes))
  {
  }

  lemma WaitedSent(b0: Books, b1: Books, b2: Books)
    requires Waited(b0, b1) && Sent(b1, b2)
    ensures Waited(b0, b2) && b2.q.pending == [] && |b2.q.inflight| <= |b1.q.inflight| + 1 && b2.track.dropped == b1.track.dropped
  {
  }

  lemma WaitedDrained(b0: Books, b1: Books, b2: Books)
    requires Waited(b0, b1) && Drained(b1, b2)
    ensures Waited(b0, b2) && b2.q.pending == b1.q.pending
  {
  }

  lemma WaitedKeeps(b0: Books, b: Books)
    requires Waited(b0, b)
    ensures b.track == b0.track.(owner := b.track.owner, credited := b.track.credited, lost := b.track.lost)
    ensures (b.q.pending == b0.q.pending && b.q.requestBytes == b0.q.requestBytes) || (b.q.pending == [] && b.q.requestBytes == 0)
    ensures forall h :: h in b.t.byHash ==> h in b0.t.byHash
  {
  }

  lemma PendingFits(b: Books, opts: Options)
    requires BooksOk(b, opts, {})
    ensures b.q.pending == [] <==> b.q.requestBytes == 0
  {
    BodyBytesPositive(b.q.pending, b.t.byHash);
  }

  lemma FewerInflight(b0: Books, b: Books)
    requires Drained(b0, b)
    ensures |b.q.inflight| <= |b0.q.inflight|
  {
    SubsetSize(b.q.inflight.Keys, b0.q.inflight.Keys);
    CardKeys(b.q.inflight);
    CardKeys(b0.q.inflight);
  }

  lemma DropCredit(b: Books, opts: Options, n: nat)
    requires BooksOk(b, opts, {}) && n <= b.track.credited
    ensures BooksOk(b.(track := b.track.(credited := b.track.credited - n, dropped := b.track.dropped + n)), opts, {})
  {
    hide Booked, Counted, Queued, Known, PendingOk;
  }

  lemma EntryIsDone(b: Books, opts: Options, e: nat)
    requires BooksOk(b, opts, {})
    ensures !(e in b.t.byEntry && b.t.byEntry[e] > 0) ==> Slots(b.t.entries, e) == Slots(b.track.added, e)
  {
    if e !in b.t.byEntry { EntryDone(b.t.byHash, b.t.entries, b.track.added, b.t.byEntry, e); }
  }

  lemma SizeKnown(b: Books, opts: Options, hash: Hash)
    requires BooksOk(b, opts, {}) && hash in b.t.byHash
    ensures hash in b.track.known && b.t.byHash[hash].size == |b.track.known[hash]|
  {
  }

  lemma SentAfter(b0: Books, b1: Books, b: Books, batch: seq<Hash>)
    requires b1 == Submitted(b0) && Drained(b1, b)
    ensures Sent(b0, b.(q := b.q.(inflight := b.q.inflight[b.q.nextBatchID := batch])))
    ensures forall lost :: Sent(b0, b.(track := b.track.(lost := lost)))
    ensures b.q.nextBatchID == b1.q.nextBatchID
  {
    OneMore(b0.q.inflight, b.q.inflight, b.q.nextBatchID, batch);
  }

  lemma OneMore(m0: Batches, m: Batches, id: nat, batch: seq<Hash>)
    requires m.Keys <= m0.Keys
    ensures |m| <= |m0| && |m[id := batch]| <= |m0| + 1
  {
    SubsetSize(m.Keys, m0.Keys);
    CardAdd(m.Keys, id);
    var more := m[id := batch];
    assert more.Keys == m.Keys + {id};
    CardKeys(m);
    CardKeys(m0);
    CardKeys(more);
  }

  lemma CardKeys(m: Batches)
    ensures |m| == |m.Keys|
  {
  }

  lemma CardAdd(a: set<nat>, x: nat)
    ensures |a + {x}| <= |a| + 1
  {
  }

  /** The batch goes on its way. */
  lemma ArriveOk(b1: Books, b: Books, opts: Options, batch: seq<Hash>)
    requires Drained(b1, b) && BooksOk(b, opts, ToSet(batch)) && b.track.lost == b1.track.lost && b1.q.pending == []
    requires batch != [] && Distinct(batch)
    requires forall h :: h in batch ==> h in b1.track.owner && b1.track.owner[h] == b1.q.nextBatchID && h !in b1.track.lost
    requires forall h :: h in b1.track.lost ==> h in b1.track.owner && b1.track.owner[h] != b1.q.nextBatchID
    requires b1.q.nextBatchID > 0 && b1.q.nextBatchID !in b1.q.inflight
    ensures BooksOk(b.(q := b.q.(inflight := b.q.inflight[b.q.nextBatchID := batch])), opts, {})
  {
    hide Booked, Counted, Known, PendingOk;
    forall h | h in batch ensures h in b.track.owner && b.track.owner[h] == b.q.nextBatchID { assert h in ToSet(batch); }
    assert b.q.nextBatchID !in b.q.inflight by { assert b.q.inflight.Keys <= b1.q.inflight.Keys; }
    QueuedArrive(b.t.byHash, b.q.inflight, b.track.lost, batch, b.track.owner, b.q.nextBatchID);
    assert b.track.lost + {} == b.track.lost;
  }

  lemma FreshId(b: Books, opts: Options, transit: set<Hash>)
    requires BooksOk(b, opts, transit)
    ensures b.q.nextBatchID + 1 !in b.q.inflight
  {
  }

  /** Chunks that are neither pending nor lost are on their way. */
  lemma SomeInflight(b: Books, opts: Options)
    requires BooksOk(b, opts, {}) && b.q.pending == [] && b.track.lost == {} && b.t.byHash != map[]
    ensures b.q.inflight != map[]
  {
    var h :| h in b.t.byHash;
    assert h in b.track.owner;
  }

  lemma SomeUnresolved(b: Books, opts: Options)
    requires BooksOk(b, opts, {}) && b.w.used > 0
    ensures b.t.byHash != map[]
  {
  }

  /** With nothing unresolved, all the books are closed. */
  lemma AllSettled(b: Books, opts: Options)
    requires BooksOk(b, opts, {}) && b.t.byHash == map[]
    ensures forall e :: Slots(b.t.entries, e) == Slots(b.track.added, e)
    ensures b.t.byEntry == map[] && b.q.inflight == map[] && b.w.used == 0 && b.track.adds == b.track.credited + b.track.dropped
  {
    hide Queued;
    AllFilled(b.t.byHash, b.t.entries, b.track.added, b.t.byEntry);
    NoneInflight(b, opts);
  }

  lemma NoneInflight(b: Books, opts: Options)
    requires BooksOk(b, opts, {})
    ensures b.q.inflight != map[] ==> b.t.byHash != map[]
  {
    if b.q.inflight != map[] {
      var id :| id in b.q.inflight;
      assert BatchOk(b.q.inflight[id], id, b.track.owner);
      assert b.q.inflight[id][0] in b.track.owner;
    }
  }

  // ---- one more chunk ----

  function AddedFilled(b: Books, e: nat, ref: Ref): Books {
    b.(t := b.t.(entries := Append(b.t.entries, e, Filled(ref))),
       track := b.track.(added := Append(b.track.added, e, Filled(ref)), adds := b.track.adds + 1, credited := b.track.credited + 1))
  }

  lemma AddedFilledOk(b: Books, opts: Options, e: nat, ref: Ref)
    requires BooksOk(b, opts, {})
    ensures BooksOk(AddedFilled(b, e, ref), opts, {})
  {
    hide Booked, Counted, Queued, Known, PendingOk;
    BookFilled(b.t.byHash, b.t.entries, b.track.added, b.t.byEntry, e, ref);
  }

  function AddedWaiter(b: Books, e: nat, hash: Hash): Books
    requires hash in b.t.byHash
  {
    var c := b.t.byHash[hash];
    b.(t := Table(b.t.byHash[hash := c.(waiters := c.waiters + [Waiter(e, |Slots(b.t.entries, e)|)])], Plus(b.t.byEntry, e),
                  Append(b.t.entries, e, Unfilled)),
       track := b.track.(added := Append(b.track.added, e, Filled(Ref(hash, c.size))), adds := b.track.adds + 1))
  }

  lemma AddedWaiterOk(b: Books, opts: Options, e: nat, hash: Hash)
    requires BooksOk(b, opts, {}) && hash in b.t.byHash
    ensures BooksOk(AddedWaiter(b, e, hash), opts, {})
  {
    hide Booked, Counted, Queued, Known, PendingOk, SizeOf, Waiting;
    BookWaiter(b.t.byHash, b.t.entries, b.track.added, b.t.byEntry, e, hash);
    var b' := AddedWaiter(b, e, hash);
    SumInsert(b.t.byHash, SizeOf, hash, b'.t.byHash[hash]);
    SumInsert(b.t.byHash, Waiting, hash, b'.t.byHash[hash]);
    SizeIsSize(b.t.byHash[hash]);
    SizeIsSize(b'.t.byHash[hash]);
    WaiterKeeps(b, opts, hash, b'.t.byHash[hash]);
  }

  lemma WaiterKeeps(b: Books, opts: Options, hash: Hash, c: PendingChunk)
    requires BooksOk(b, opts, {}) && hash in b.t.byHash && c.size == b.t.byHash[hash].size && c.waiters != []
    ensures Queued(b.t.byHash[hash := c], b.q.pending, b.q.inflight, b.track.lost + {}, b.track.owner)
    ensures Known(b.t.byHash[hash := c], b.track.known) && PendingOk(b.q.pending, b.t.byHash[hash := c], b.q.requestBytes, opts)
  {
    hide Booked, Counted;
    BodySame(b.q.pending, b.t.byHash, b.t.byHash[hash := c]);
  }

  function AddedNew(b: Books, e: nat, hash: Hash, chunk: Bytes): Books {
    var size := |chunk|;
    b.(t := Table(b.t.byHash[hash := PendingChunk(size, [Waiter(e, |Slots(b.t.entries, e)|)])], Plus(b.t.byEntry, e),
                  Append(b.t.entries, e, Unfilled)),
       q := b.q.(pending := b.q.pending + [hash],
                 requestBytes := (if b.q.requestBytes == 0 then 12 else b.q.requestBytes) + ChunkRequestBytes(size)),
       w := Window(b.w.used + size, if b.w.used + size > b.w.maxUsed then b.w.used + size else b.w.maxUsed),
       track := b.track.(added := Append(b.track.added, e, Filled(Ref(hash, size))), known := b.track.known[hash := chunk],
                         owner := b.track.owner[hash := 0], adds := b.track.adds + 1))
  }

  lemma AddedNewOk(b: Books, opts: Options, e: nat, hash: Hash, chunk: Bytes)
    requires BooksOk(b, opts, {}) && hash != [] && hash !in b.t.byHash && (hash in b.track.known ==> b.track.known[hash] == chunk)
    requires b.w.used + |chunk| <= opts.maxPipelineBytes && |b.q.pending| < opts.maxChunks
    requires (if b.q.requestBytes == 0 then 12 else b.q.requestBytes) + ChunkRequestBytes(|chunk|) <= opts.maxRequestBytes
    ensures BooksOk(AddedNew(b, e, hash, chunk), opts, {})
  {
    hide Booked, Counted, Queued, Known, PendingOk, SizeOf, Waiting;
    var c := PendingChunk(|chunk|, [Waiter(e, |Slots(b.t.entries, e)|)]);
    BookNew(b.t.byHash, b.t.entries, b.track.added, b.t.byEntry, e, hash, |chunk|);
    QueuedNew(b.t.byHash, b.q.pending, b.q.inflight, b.track.lost + {}, b.track.owner, hash, c);
    SumInsert(b.t.byHash, SizeOf, hash, c);
    SumInsert(b.t.byHash, Waiting, hash, c);
    SizeIsSize(c);
    NewKeeps(b, opts, hash, chunk, c);
  }

  lemma NewKeeps(b: Books, opts: Options, hash: Hash, chunk: Bytes, c: PendingChunk)
    requires BooksOk(b, opts, {}) && hash != [] && hash !in b.t.byHash && c.size == |chunk| && c.waiters != []
    requires |b.q.pending| < opts.maxChunks
    requires (if b.q.requestBytes == 0 then 12 else b.q.requestBytes) + ChunkRequestBytes(|chunk|) <= opts.maxRequestBytes
    ensures Known(b.t.byHash[hash := c], b.track.known[hash := chunk])
    ensures PendingOk(b.q.pending + [hash], b.t.byHash[hash := c], (if b.q.requestBytes == 0 then 12 else b.q.requestBytes) + ChunkRequestBytes(|chunk|), opts)
  {
    hide Booked, Counted, Queued, Known, PendingOk, ChunkRequestBytes;
    NotPending(b, opts, hash);
    KnownMore(b.t.byHash, b.track.known, hash, chunk, c);
    PendingMore(b.q.pending, b.t.byHash, b.q.requestBytes, opts, hash, c);
  }

  lemma NotPending(b: Books, opts: Options, hash: Hash)
    requires BooksOk(b, opts, {}) && hash !in b.t.byHash
    ensures hash !in b.q.pending
  {
    hide Booked, Counted, Known, PendingOk;
  }

  lemma KnownMore(byHash: ByHash, known: map<Hash, Bytes>, hash: Hash, chunk: Bytes, c: PendingChunk)
    requires Known(byHash, known) && hash !in byHash && hash != [] && c.size == |chunk| && c.waiters != []
    ensures Known(byHash[hash := c], known[hash := chunk])
  {
  }

  lemma PendingMore(pending: seq<Hash>, byHash: ByHash, requestBytes: nat, opts: Options, hash: Hash, c: PendingChunk)
    requires PendingOk(pending, byHash, requestBytes, opts) && hash !in pending && |pending| < opts.maxChunks
    requires (if requestBytes == 0 then 12 else requestBytes) + ChunkRequestBytes(c.size) <= opts.maxRequestBytes
    ensures PendingOk(pending + [hash], byHash[hash := c], (if requestBytes == 0 then 12 else requestBytes) + ChunkRequestBytes(c.size), opts)
  {
    hide ChunkRequestBytes;
    BodyBytesPositive(pending, byHash);
    BodySnoc(pending, byHash, hash, byHash[hash := c]);
  }

  lemma BodyBytesPositive(listed: seq<Hash>, byHash: ByHash)
    requires AllIn(listed, byHash)
    ensures BodyBytes(listed, byHash) >= 12
  {
    if listed != [] { BodyBytesPositive(listed[..|listed| - 1], byHash); }
  }

  /** The two lists of a batch settle all of it. */
  lemma BothLists(transit: set<Hash>, lost: set<Hash>, batch: seq<Hash>, existing: seq<Hash>, missing: seq<Hash>)
    requires ToSet(batch) !! transit + lost && forall h :: h in missing ==> h in batch
    requires forall h :: h in existing <==> h in batch && h !in missing
    ensures Without(Without(transit + ToSet(batch), existing, |existing|), missing, |missing|) == transit
    ensures forall i :: 0 <= i < |missing| ==> missing[i] in Without(transit + ToSet(batch), existing, |existing|) && missing[i] !in lost
    ensures forall i :: 0 <= i < |existing| ==> existing[i] in transit + ToSet(batch) && existing[i] !in lost
    ensures batch != [] ==> existing != [] || missing != []
  {
    assert batch != [] ==> batch[0] in existing || batch[0] in missing;
    assert forall i :: 0 <= i < |existing| ==> existing[i] in existing && existing[i] in ToSet(batch);
    assert existing[..|existing|] == existing && missing[..|missing|] == missing;
    assert forall i :: 0 <= i < |missing| ==> missing[i] in missing && missing[i] in ToSet(batch);
  }

  lemma KeptLost(b0: Books, b: Books)
    requires Kept(b0, b)
    ensures b.track.lost == b0.track.lost
  {
  }

  lemma KeptTwice(b0: Books, b1: Books, b2: Books)
    requires Kept(b0, b1) && Kept(b1, b2)
    ensures Kept(b0, b2)
  {
  }

  lemma CheckedLists(batch: seq<Hash>, repositoryId: Bytes, checked: CheckResponse, compact: bool)
    requires CheckOk(batch, repositoryId, checked, compact)
    ensures CheckOk(batch, [], checked.(repositoryId := []), compact)
    ensures Distinct(checked.missing) && forall h :: h in checked.missing ==> h in batch
  {
  }

  lemma KeptResolved(b0: Books, b: Books, hash: Hash, entries: Entries, byEntry: map<nat, nat>)
    requires Kept(b0, b) && hash in b.t.byHash
    ensures Kept(b0, Resolved(b, hash, entries, byEntry))
  {
  }

  lemma ResolvedCredit(b: Books, hash: Hash, entries: Entries, byEntry: map<nat, nat>)
    requires hash in b.t.byHash
    ensures Resolved(b, hash, entries, byEntry).track.credited == b.track.credited + |b.t.byHash[hash].waiters|
  {
  }

  /** A chunk that is aside is unresolved, and someone waits for it. */
  lemma InTransit(b: Books, opts: Options, transit: set<Hash>, hash: Hash)
    requires BooksOk(b, opts, transit) && hash in transit
    ensures hash in b.t.byHash && |b.t.byHash[hash].waiters| > 0
  {
  }

  /** The set without the first `n` of the listed digests. */
  ghost function Without(aside: set<Hash>, hashes: seq<Hash>, n: nat): set<Hash>
    requires n <= |hashes|
  {
    set h | h in aside && h !in hashes[..n]
  }

  lemma WithoutNone(aside: set<Hash>, hashes: seq<Hash>)
    ensures Without(aside, hashes, 0) == aside
  {
  }

  lemma WithoutNext(aside: set<Hash>, hashes: seq<Hash>, i: nat)
    requires Distinct(hashes) && i < |hashes| && hashes[i] in aside
    ensures hashes[i] in Without(aside, hashes, i)
    ensures Without(aside, hashes, i + 1) == Without(aside, hashes, i) - {hashes[i]}
  {
    assert hashes[..i + 1] == hashes[..i] + [hashes[i]];
  }

  class PipelineBatcher {
    const opts: Options
    const digest: Bytes -> Hash
    const server: Server
    var confirmed: map<Hash, nat>       // the agent's chunk catalog
    var pending: seq<Hash>
    var byHash: ByHash
    var byEntry: map<nat, nat>
    var entries: Entries                // the chunk lists of the file entries
    var requestBytes: nat
    var used: nat
    var maxUsed: nat
    var inflight: Batches               // queued, being processed, or processed and not applied yet
    var nextBatchID: nat
    var failed: bool
    var calls: nat
    ghost var track: Track
    ghost var orphaned: bool            // an Add failed after it had made its slot
    ghost var looked: nat               // the times EntryPending found a result ready

    ghost function View(): Books
      reads this
    {
      Books(Queue(pending, requestBytes, inflight, nextBatchID), Table(byHash, byEntry, entries), Window(used, maxUsed), track)
    }

    ghost predicate Valid()
      reads this
    {
      opts == opts.Normalized() && BooksOk(View(), opts, {}) && (track.lost != {} ==> failed) && |pending| < opts.maxChunks
    }

    constructor (opts: Options, digest: Bytes -> Hash, server: Server, confirmed: map<Hash, nat>, entries: Entries)
      requires forall e, i :: e in entries && 0 <= i < |entries[e]| ==> entries[e][i].Filled?
      ensures Valid() && !orphaned && !failed && track == Track(entries, map[], map[], {}, 0, 0, 0) && looked == 0
      ensures this.entries == entries && byHash == map[] && this.digest == digest
      ensures this.opts == opts.Normalized() && this.server == server && this.confirmed == confirmed && inflight == map[] && pending == []
    {
      this.opts, this.digest, this.server, this.confirmed, this.entries := opts.Normalized(), digest, server, confirmed, entries;
      pending, byHash, byEntry, requestBytes, used, maxUsed, inflight, nextBatchID, failed, calls := [], map[], map[], 0, 0, 0, map[], 0, false, 0;
      track, orphaned, looked := Track(entries, map[], map[], {}, 0, 0, 0), false, 0;
      new;
      AllFilledAtStart(entries);
    }

    static lemma AllFilledAtStart(entries: Entries)
      requires forall e, i :: e in entries && 0 <= i < |entries[e]| ==> entries[e][i].Filled?
      ensures Booked(map[], entries, entries) && Counted(map[], entries)
    {
      forall e ensures CountUnfilled(Slots(entries, e)) == 0 { NoUnfilled(Slots(entries, e)); }
    }

    static lemma NoUnfilled(s: seq<Slot>)
      requires forall i :: 0 <= i < |s| ==> s[i].Filled?
      ensures CountUnfilled(s) == 0
    {
      if s != [] { NoUnfilled(s[..|s| - 1]); }
    }

    /** The work on one batch: check it, then upload what is missing. None is an error. */
    method ProcessBatch(batch: seq<Hash>) returns (r: Option<Processed>)
      requires AllIn(batch, byHash)
      modifies this`calls
      ensures r.Some? ==> CheckOk(batch, opts.repositoryId, r.value.checked, opts.compactCheck)
      ensures r.Some? ==> r.value.uploads.Keys == ToSet(r.value.checked.missing)
      ensures r.Some? ==> forall h :: h in r.value.uploads ==> h in byHash && r.value.uploads[h].ref == Ref(h, byHash[h].size)
      ensures server.Truthful(opts) && [] !in batch ==> r.Some?
    {
      hide CheckOk, UploadOk, Lists, ToSend;
      var checked := server.check(calls, batch);
      calls := calls + 1;
      if checked.None? { return None; }
      var ok := ValidateChunkCheckResponse(batch, opts.repositoryId, checked.value, opts.compactCheck);
      if !ok { return None; }
      CheckedLists(batch, opts.repositoryId, checked.value, opts.compactCheck);
      if |checked.value.missing| == 0 { return Some(Processed(checked.value, map[], 0)); }
      var missing := checked.value.missing;
      var requested, sent := Sizes(missing, byHash), ToSend(missing, byHash);
      ListsAll(missing, byHash);
      var response := server.upload(calls, sent);
      calls := calls + 1;
      if response.None? { return None; }
      var uploads := ValidateChunkUploadResponse(requested, opts.repositoryId, response.value, opts.compactUpload);
      if uploads.None? { return None; }
      r := Some(Processed(checked.value, uploads.value, response.value.generation));
    }

    /** Gives a chunk's waiters their ref, takes it off the books and frees its bytes. */
    method ResolveChunk(hash: Hash, ref: Ref, ghost transit: set<Hash>)
      requires BooksOk(View(), opts, transit) && hash in transit && hash !in track.lost && hash in byHash && ref == Ref(hash, byHash[hash].size)
      modifies this`entries, this`byEntry, this`byHash, this`used, this`track
      ensures BooksOk(View(), opts, transit - {hash})
      ensures View() == Resolved(old(View()), hash, entries, byEntry)
    {
      hide BooksOk, FilledUpTo, Counted, ChunkOk, Slots, Sum, SizeOf, Waiting, CountUnfilled, WaiterOk, Distinct, Options.Normalized;
      var chunk := byHash[hash];
      BookedChunk(View(), opts, transit, hash);
      var filled, counts := FillWaiters(entries, byEntry, chunk, ref, track.added);
      ghost var b := View();
      ResolvedOk(b, opts, transit, hash, filled, counts);
      var left := if used >= chunk.size then used - chunk.size else 0;
      entries := filled;
      byEntry := counts;
      byHash := byHash - {hash};
      used := left;
      track := track.(owner := track.owner - {hash}, credited := track.credited + |chunk.waiters|);
    }

    /** One loop over digests of the batch that are settled: each chunk's waiters get their ref. `acks`
        says which of them this upload stored; the server had the others. */
    method ResolveAll(hashes: seq<Hash>, acks: map<Hash, Ack>, ghost aside: set<Hash>)
      returns (stats: Stats)
      requires BooksOk(View(), opts, aside) && Distinct(hashes)
      requires forall i :: 0 <= i < |hashes| ==> hashes[i] in aside && hashes[i] !in track.lost
      modifies this`entries, this`byEntry, this`byHash, this`used, this`track
      ensures BooksOk(View(), opts, Without(aside, hashes, |hashes|)) && Kept(old(View()), View())
      ensures track.credited == old(track.credited) + stats.uploaded + stats.reused && (hashes != [] ==> stats.uploaded + stats.reused > 0)
      ensures stats.uploaded == UploadedOf(hashes, acks)
    {
      hide BooksOk, Kept, Without, Distinct, Resolved;
      stats := NONE;
      KeptItself(View());
      WithoutNone(aside, hashes);
      for i := 0 to |hashes|
        invariant BooksOk(View(), opts, Without(aside, hashes, i)) && Kept(old(View()), View())
        invariant track.credited == old(track.credited) + stats.uploaded + stats.reused && (i > 0 ==> stats.uploaded + stats.reused > 0)
        invariant stats.uploaded == UploadedOf(hashes[..i], acks)
      {
        var hash := hashes[i];
        assert hashes[..i + 1][..i] == hashes[..i];
        ghost var before := View();
        WithoutNext(aside, hashes, i);
        InTransit(before, opts, Without(aside, hashes, i), hash);
        KeptLost(old(View()), before);
        var waiting := |byHash[hash].waiters|;
        ResolveChunk(hash, Ref(hash, byHash[hash].size), Without(aside, hashes, i));
        KeptResolved(old(View()), before, hash, entries, byEntry);
        ResolvedCredit(before, hash, entries, byEntry);
        if hash in acks && acks[hash].uploaded {
          stats := stats.Plus(Stats(1, waiting - 1));
        } else {
          stats := stats.Plus(Stats(0, waiting));
        }
      }
      assert hashes[..|hashes|] == hashes;
    }

    /** The generation an answer's digests are noted at; an answer without one counts as the run's own. */
    function Stamp(generation: nat): nat { if generation == 0 then opts.base else generation }

    method MarkBoth(ghost batch: seq<Hash>, existing: seq<Hash>, missing: seq<Hash>, found: nat, sent: nat)
      requires (forall h :: h in existing <==> h in batch && h !in missing) && forall h :: h in missing ==> h in batch
      modifies this`confirmed
      ensures confirmed == if opts.useCatalog then Noted(old(confirmed), batch, missing, found, sent) else old(confirmed)
    {
      hide Marked, Noted;
      MarkedTwice(confirmed, batch, existing, missing, found, sent);
      MarkConfirmed(existing, found);
      MarkConfirmed(missing, sent);
    }

    /** Notes digests as confirmed. */
    method MarkConfirmed(hashes: seq<Hash>, stamp: nat)
      modifies this`confirmed
      ensures confirmed == if opts.useCatalog then Marked(old(confirmed), hashes, stamp) else old(confirmed)
    {
      if !opts.useCatalog { return; }
      for i := 0 to |hashes|
        invariant confirmed == Marked(old(confirmed), hashes[..i], stamp)
      {
        assert hashes[..i + 1] == hashes[..i] + [hashes[i]];
        confirmed := confirmed[hashes[i] := stamp];
      }
      assert hashes[..|hashes|] == hashes;
    }

    /** Settles a whole batch: the digests the server had, then those that were uploaded. */
    method SettleBatch(batch: seq<Hash>, existing: seq<Hash>, missing: seq<Hash>, acks: map<Hash, Ack>, ghost transit: set<Hash>)
      returns (stats: Stats)
      requires BooksOk(View(), opts, transit + ToSet(batch)) && ToSet(batch) !! transit + track.lost && batch != []
      requires Distinct(existing) && Distinct(missing) && forall h :: h in missing ==> h in batch
      requires forall h :: h in existing <==> h in batch && h !in missing
      modifies this`entries, this`byEntry, this`byHash, this`used, this`track
      ensures BooksOk(View(), opts, transit) && Kept(old(View()), View())
      ensures stats.uploaded + stats.reused > 0 && track.credited == old(track.credited) + (stats.uploaded + stats.reused)
      ensures stats.uploaded == UploadedOf(missing, acks)
    {
      hide BooksOk, Kept, Without, Distinct, ToSet;
      NoneUploaded(existing);
      ghost var aside, b0 := transit + ToSet(batch), View();
      BothLists(transit, track.lost, batch, existing, missing);
      stats := ResolveAll(existing, map[], aside);
      ghost var b1 := View();
      KeptLost(b0, b1);
      var more := ResolveAll(missing, acks, Without(aside, existing, |existing|));
      KeptTwice(b0, b1, View());
      stats := stats.Plus(more);
    }

    /** Applies what came back for a batch; after an error its chunks stay unresolved for good. */
    method ApplyResult(batch: seq<Hash>, result: Option<Processed>, ghost transit: set<Hash>) returns (stats: Stats, ok: bool)
      requires BooksOk(View(), opts, transit + ToSet(batch)) && ToSet(batch) !! transit + track.lost && batch != []
      requires result.Some? ==> CheckOk(batch, opts.repositoryId, result.value.checked, opts.compactCheck)
      modifies this`entries, this`byEntry, this`byHash, this`used, this`track, this`confirmed, this`failed
      ensures BooksOk(View(), opts, transit)
      ensures Kept(old(View()), View().(track := track.(lost := old(track.lost))))
      ensures ok <==> result.Some?
      ensures ok ==> stats.uploaded == UploadedOf(result.value.checked.missing, result.value.uploads)
      ensures confirmed == if ok && opts.useCatalog
        then Noted(old(confirmed), batch, result.value.checked.missing, Stamp(result.value.checked.generation), Stamp(result.value.uploadGeneration))
        else old(confirmed)
      ensures ok ==> track.lost == old(track.lost) && failed == old(failed) && stats.uploaded + stats.reused > 0
      ensures !ok ==> failed && stats == NONE
      ensures track.credited == old(track.credited) + (stats.uploaded + stats.reused)
    {
      hide BooksOk, Kept, Distinct, CheckOk, ToSet, Noted, UploadedOf;
      if result.None? {
        KeptItself(View());
        LostOk(View(), opts, transit, ToSet(batch));
        failed := true;
        track := track.(lost := track.lost + ToSet(batch));
        return NONE, false;
      }
      var checked := result.value.checked;
      CheckedLists(batch, opts.repositoryId, checked, opts.compactCheck);
      var existing := ExistingChunkHashes(batch, checked, opts.compactCheck);
      ghost var b0 := View();
      stats := SettleBatch(batch, existing, checked.missing, result.value.uploads, transit);
      KeptLost(b0, View());
      MarkBoth(batch, existing, checked.missing, Stamp(checked.generation), Stamp(result.value.uploadGeneration));
      ok := true;
    }

    /** Takes the result of any batch on its way, in whatever order they come, and applies it. */
    method WaitApplyResult(ghost transit: set<Hash>) returns (stats: Stats, ok: bool)
      requires BooksOk(View(), opts, transit) && inflight != map[]
      modifies this`entries, this`byEntry, this`byHash, this`used, this`track, this`confirmed, this`failed, this`inflight, this`calls
      ensures BooksOk(View(), opts, transit) && Drained(old(View()), View())
      ensures |inflight| + 1 == |old(inflight)|
      ensures server.Truthful(opts) ==> ok
      ensures ok ==> track.lost == old(track.lost) && failed == old(failed) && stats.uploaded + stats.reused > 0
      ensures !ok ==> failed && stats == NONE
      ensures track.credited == old(track.credited) + (stats.uploaded + stats.reused)
    {
      hide BooksOk, Kept, Drained, Distinct, CheckOk, ToSet, Server.Truthful;
      var id := Pick(inflight.Keys);
      var batch := inflight[id];
      ghost var b0 := View();
      TakenOk(b0, opts, transit, id);
      NoEmptyDigest(b0, opts, transit, batch);
      var result := ProcessBatch(batch);
      inflight := inflight - {id};
      assert |inflight| + 1 == |b0.q.inflight| by { RemoveOne(b0.q.inflight, id); }
      ghost var b1 := View();
      stats, ok := ApplyResult(batch, result, transit);
      DrainedByOne(b0, id, b1, View().(track := track.(lost := b1.track.lost)));
    }

    static lemma RemoveOne(m: Batches, id: nat)
      requires id in m
      ensures |m - {id}| + 1 == |m|
    {
      assert (m - {id}).Keys == m.Keys - {id};
    }

    /** Applies up to `ready` results that have already come back; fails if anything has failed so far. */
    method DrainResults(ready: nat, ghost transit: set<Hash>) returns (stats: Stats, ok: bool)
      requires BooksOk(View(), opts, transit)
      modifies this`entries, this`byEntry, this`byHash, this`used, this`track, this`confirmed, this`failed, this`inflight, this`calls
      ensures BooksOk(View(), opts, transit) && Drained(old(View()), View())
      ensures track.credited == old(track.credited) + (stats.uploaded + stats.reused)
      ensures (ok <==> !failed) && (old(failed) ==> failed) && (server.Truthful(opts) ==> failed == old(failed))
      ensures ok ==> track.lost == old(track.lost)
      ensures ready == 0 || old(inflight) == map[] ==> stats == NONE && failed == old(failed)
      ensures ok && ready > 0 && old(inflight) != map[] ==> stats.uploaded + stats.reused > 0
    {
      hide BooksOk, Drained, Server.Truthful;
      DrainedItself(View());
      stats, ok := NONE, !failed;
      if ready == 0 || inflight == map[] { return; }
      var n := 0;
      while n < ready && inflight != map[]
        invariant BooksOk(View(), opts, transit) && Drained(old(View()), View())
        invariant track.credited == old(track.credited) + (stats.uploaded + stats.reused)
        invariant track.lost == old(track.lost) && failed == old(failed)
        invariant if n > 0 then stats.uploaded + stats.reused > 0 else inflight == old(inflight)
        decreases |inflight|
      {
        ghost var before := View();
        var applied, good := WaitApplyResult(transit);
        DrainedTwice(old(View()), before, View());
        stats, n := stats.Plus(applied), n + 1;
        if !good { return stats, false; }
      }
    }

    /** Sends the pending list on its way. Results that come back meanwhile are applied first. */
    method SubmitPending() returns (stats: Stats, ok: bool)
      requires BooksOk(View(), opts, {}) && (track.lost != {} ==> failed) && pending != []
      modifies this`entries, this`byEntry, this`byHash, this`used, this`track, this`confirmed, this`failed, this`inflight, this`calls,
               this`pending, this`requestBytes, this`nextBatchID
      ensures BooksOk(View(), opts, {}) && Sent(old(View()), View())
      ensures (ok <==> !failed) && (track.lost != {} ==> failed) && (server.Truthful(opts) ==> failed == old(failed))
      ensures (ok ==> inflight != map[]) && (old(failed) ==> failed)
      ensures track.credited == old(track.credited) + (stats.uploaded + stats.reused)
    {
      hide BooksOk, Drained, ToSet, Distinct, Sent, Server.Truthful;
      var batch := pending;
      ghost var b0 := View();
      FreshId(b0, opts, {});
      SubmittedOk(b0, opts);
      nextBatchID := nextBatchID + 1;
      pending, requestBytes := [], 0;
      track := track.(owner := Moved(track.owner, nextBatchID));
      ghost var b1 := View();
      var ready: nat := *;
      stats, ok := DrainResults(ready, ToSet(batch));
      SentAfter(b0, b1, View(), batch);
      if ok {
        ArriveOk(b1, View(), opts, batch);
        inflight := inflight[nextBatchID := batch];
        assert nextBatchID in inflight;
      } else {
        assert {} + ToSet(batch) == ToSet(batch);
        LostOk(View(), opts, {}, ToSet(batch));
        track := track.(lost := track.lost + ToSet(batch));
      }
    }

    /** The chunk alone makes a body within the request limit, and has room in an empty window. */
    predicate Fits(chunk: Bytes) {
      12 + ChunkRequestBytes(|chunk|) <= opts.maxRequestBytes && |chunk| <= opts.maxPipelineBytes
    }

    predicate ShouldFlushBeforeAdding(nextRequestBytes: nat)
      reads this
    {
      var nextCount := |pending| + 1;
      || nextCount > opts.maxChunks || requestBytes + nextRequestBytes > opts.maxRequestBytes
      || CheckEstimate(nextCount) > opts.maxResponseBytes || UploadEstimate(nextCount, opts.compactUpload) > opts.maxResponseBytes
    }

    predicate BatchFull()
      reads this
    {
      || |pending| >= opts.maxChunks || requestBytes >= opts.maxRequestBytes
      || CheckEstimate(|pending|) >= opts.maxResponseBytes || UploadEstimate(|pending|, opts.compactUpload) >= opts.maxResponseBytes
    }

    /** Waits until the window has room for `size` more bytes, sending what is pending and applying what
        comes back. There is always a batch on its way to wait for. */
    method AcquireWindow(size: nat) returns (stats: Stats, ok: bool)
      requires BooksOk(View(), opts, {}) && track.lost == {} && !failed && size <= opts.maxPipelineBytes
      modifies this`entries, this`byEntry, this`byHash, this`used, this`track, this`confirmed, this`failed, this`inflight, this`calls,
               this`pending, this`requestBytes, this`nextBatchID
      ensures BooksOk(View(), opts, {}) && Waited(old(View()), View()) && (track.lost != {} ==> failed)
      ensures (ok <==> !failed) && (server.Truthful(opts) ==> ok)
      ensures ok ==> used + size <= opts.maxPipelineBytes
      ensures track.credited == old(track.credited) + (stats.uploaded + stats.reused)
    {
      hide BooksOk, Drained, Sent, Waited, Server.Truthful;
      stats, ok := NONE, true;
      WaitedItself(View());
      while used + size > opts.maxPipelineBytes
        invariant BooksOk(View(), opts, {}) && Waited(old(View()), View()) && track.lost == {} && !failed && ok
        invariant track.credited == old(track.credited) + (stats.uploaded + stats.reused)
        decreases |inflight| + 2 * |pending|
      {
        ghost var before := View();
        if |pending| > 0 {
          var flushed, good := SubmitPending();
          WaitedSent(old(View()), before, View());
          stats, ok := stats.Plus(flushed), good;
        } else {
          SomeUnresolved(before, opts);
          SomeInflight(before, opts);
          var applied, good := WaitApplyResult({});
          WaitedDrained(old(View()), before, View());
          stats, ok := stats.Plus(applied), good;
        }
        if !ok { return; }
      }
    }

    /** A slot for a chunk that is known to be stored. */
    method FillNow(e: nat, ref: Ref)
      modifies this`entries, this`track
      ensures View() == AddedFilled(old(View()), e, ref)
    {
      hide Append;
      entries := Append(entries, e, Filled(ref));
      track := track.(added := Append(track.added, e, Filled(ref)), adds := track.adds + 1, credited := track.credited + 1);
    }

    /** A slot that waits for a chunk already on the books. */
    method Attach(hash: Hash, e: nat)
      requires hash in byHash
      modifies this`byHash, this`byEntry, this`entries, this`track
      ensures View() == AddedWaiter(old(View()), e, hash)
    {
      hide Append, Batching.Plus, Slots;
      var chunk := byHash[hash];
      byHash := byHash[hash := chunk.(waiters := chunk.waiters + [Waiter(e, |Slots(entries, e)|)])];
      entries := Append(entries, e, Unfilled);
      byEntry := Batching.Plus(byEntry, e);
      track := track.(added := Append(track.added, e, Filled(Ref(hash, chunk.size))), adds := track.adds + 1);
    }

    /** Adds a chunk to an entry's list: at once if the catalog has it, else when its batch comes back. */
    method Add(chunk: Bytes, e: nat) returns (stats: Stats, ok: bool)
      requires Valid() && !orphaned
      requires digest(chunk) != [] && (digest(chunk) in track.known ==> track.known[digest(chunk)] == chunk)
      modifies this
      ensures !orphaned ==> Valid()
      ensures ok ==> !orphaned && !failed && !old(failed)
      ensures server.Truthful(opts) && !old(failed) && Fits(chunk) ==> ok
      ensures ok && opts.maxChunks == 1 && !opts.useCatalog && old(byHash) == map[] ==> inflight != map[]
      ensures ok ==> track.known == old(track).known || track.known == old(track).known[digest(chunk) := chunk]
      ensures ok ==> track.added == Append(old(track.added), e, Filled(Ref(digest(chunk), |chunk|))) && track.adds == old(track.adds) + 1
      ensures track.credited == old(track.credited) + (stats.uploaded + stats.reused) && track.dropped == old(track.dropped) && looked == old(looked)
    {
      hide BooksOk, Drained, Append, Server.Truthful, Fits;
      var ready: nat := *;
      ghost var b0 := View();
      stats, ok := DrainResults(ready, {});
      DrainedKeeps(b0, View());
      if !ok { return; }
      var more, good := Place(chunk, e);
      stats, ok := stats.Plus(more), good;
    }

    /** Makes the chunk's slot: filled, waiting with others, or the first to wait. */
    method Place(chunk: Bytes, e: nat) returns (stats: Stats, ok: bool)
      requires Valid() && !orphaned && !failed && track.lost == {}
      requires digest(chunk) != [] && (digest(chunk) in track.known ==> track.known[digest(chunk)] == chunk)
      modifies this
      ensures !orphaned ==> Valid()
      ensures ok ==> !orphaned && !failed
      ensures server.Truthful(opts) && Fits(chunk) ==> ok
      ensures ok && opts.maxChunks == 1 && !opts.useCatalog && old(byHash) == map[] ==> inflight != map[]
      ensures ok ==> track.known == old(track).known || track.known == old(track).known[digest(chunk) := chunk]
      ensures ok ==> track.added == Append(old(track.added), e, Filled(Ref(digest(chunk), |chunk|))) && track.adds == old(track.adds) + 1
      ensures track.credited == old(track.credited) + (stats.uploaded + stats.reused) && track.dropped == old(track.dropped) && looked == old(looked)
    {
      hide BooksOk, Append, Server.Truthful, Fits;
      var hash := digest(chunk);
      if opts.useCatalog && hash in confirmed && confirmed[hash] >= opts.base {
        AddedFilledOk(View(), opts, e, Ref(hash, |chunk|));
        FillNow(e, Ref(hash, |chunk|));
        return Stats(0, 1), true;
      }
      if hash in byHash {
        AddedWaiterOk(View(), opts, e, hash);
        SizeKnown(View(), opts, hash);
        Attach(hash, e);
        return NONE, true;
      }
      stats, ok := AddNew(hash, chunk, e);
    }

    /** Sends the pending list first when the chunk would take it past a limit. */
    method FlushIfFull(nextRequestBytes: nat) returns (stats: Stats, ok: bool)
      requires BooksOk(View(), opts, {}) && track.lost == {} && !failed
      modifies this`entries, this`byEntry, this`byHash, this`used, this`track, this`confirmed, this`failed, this`inflight, this`calls,
               this`pending, this`requestBytes, this`nextBatchID
      ensures BooksOk(View(), opts, {}) && Waited(old(View()), View()) && (track.lost != {} ==> failed)
      ensures (ok <==> !failed) && (server.Truthful(opts) ==> ok)
      ensures track.credited == old(track.credited) + (stats.uploaded + stats.reused)
      ensures ok ==> pending == [] || requestBytes + nextRequestBytes <= opts.maxRequestBytes
    {
      hide BooksOk, Sent, Waited, Server.Truthful;
      ghost var b0 := View();
      WaitedItself(b0);
      stats, ok := NONE, true;
      if |pending| > 0 && ShouldFlushBeforeAdding(nextRequestBytes) {
        stats, ok := SubmitPending();
        WaitedSent(b0, b0, View());
      }
    }

    /** Makes room for a chunk in the request and in the window. */
    method MakeRoom(size: nat) returns (stats: Stats, ok: bool)
      requires BooksOk(View(), opts, {}) && track.lost == {} && !failed && size <= opts.maxPipelineBytes
      modifies this`entries, this`byEntry, this`byHash, this`used, this`track, this`confirmed, this`failed, this`inflight, this`calls,
               this`pending, this`requestBytes, this`nextBatchID
      ensures BooksOk(View(), opts, {}) && Waited(old(View()), View()) && (track.lost != {} ==> failed)
      ensures (ok <==> !failed) && (server.Truthful(opts) ==> ok)
      ensures ok ==> used + size <= opts.maxPipelineBytes && (pending == [] || requestBytes + ChunkRequestBytes(size) <= opts.maxRequestBytes)
      ensures track.credited == old(track.credited) + (stats.uploaded + stats.reused)
    {
      hide BooksOk, Waited, ChunkRequestBytes, Server.Truthful;
      ghost var b0 := View();
      stats, ok := FlushIfFull(ChunkRequestBytes(size));
      if !ok { return; }
      ghost var b1 := View();
      var waited, good := AcquireWindow(size);
      WaitedTwice(b0, b1, View());
      stats, ok := stats.Plus(waited), good;
    }

    /** The rest of Add, for a chunk that is not on the books. The slot is there from the start; an error
        on the way leaves it without a waiter. */
    method AddNew(hash: Hash, chunk: Bytes, e: nat) returns (stats: Stats, ok: bool)
      requires opts == opts.Normalized() && BooksOk(View(), opts, {}) && track.lost == {} && !failed && !orphaned && |pending| < opts.maxChunks
      requires hash != [] && hash !in byHash && (hash in track.known ==> track.known[hash] == chunk)
      modifies this
      ensures !orphaned ==> Valid()
      ensures ok ==> !orphaned && !failed
      ensures server.Truthful(opts) ==> (ok <==> Fits(chunk))
      ensures ok && opts.maxChunks == 1 ==> inflight != map[]
      ensures ok ==> track.known == old(track).known[hash := chunk]
      ensures ok ==> track.added == Append(old(track.added), e, Filled(Ref(hash, |chunk|))) && track.adds == old(track.adds) + 1
      ensures track.credited == old(track.credited) + (stats.uploaded + stats.reused) && track.dropped == old(track.dropped) && looked == old(looked)
    {
      hide BooksOk, Sent, Waited, Append, ChunkRequestBytes, Server.Truthful;
      ghost var b0 := View();
      var chunkRequestBytes := ChunkRequestBytes(|chunk|);
      if 12 + chunkRequestBytes > opts.maxRequestBytes || |chunk| > opts.maxPipelineBytes {
        entries, orphaned := Append(entries, e, Unfilled), true;
        return NONE, false;
      }
      stats, ok := MakeRoom(|chunk|);
      WaitedKeeps(b0, View());
      if !ok { entries, orphaned := Append(entries, e, Unfilled), true; return; }
      PendingFits(View(), opts);
      var flushed, sent := ListAndSend(hash, chunk, e);
      stats, ok := stats.Plus(flushed), sent;
    }

    /** Lists the chunk, and sends the list once it is full. */
    method ListAndSend(hash: Hash, chunk: Bytes, e: nat) returns (stats: Stats, ok: bool)
      requires opts == opts.Normalized() && BooksOk(View(), opts, {}) && track.lost == {} && !failed && hash != [] && hash !in byHash
      requires (hash in track.known ==> track.known[hash] == chunk) && used + |chunk| <= opts.maxPipelineBytes && |pending| < opts.maxChunks
      requires (if requestBytes == 0 then 12 else requestBytes) + ChunkRequestBytes(|chunk|) <= opts.maxRequestBytes
      modifies this`entries, this`byEntry, this`byHash, this`used, this`maxUsed, this`track, this`confirmed, this`failed, this`inflight,
               this`calls, this`pending, this`requestBytes, this`nextBatchID
      ensures Valid() && (ok <==> !failed) && (server.Truthful(opts) ==> ok)
      ensures ok && opts.maxChunks == 1 ==> inflight != map[]
      ensures track.known == old(track).known[hash := chunk] && track.dropped == old(track.dropped) && track.adds == old(track.adds) + 1
      ensures track.added == Append(old(track.added), e, Filled(Ref(hash, |chunk|)))
      ensures track.credited == old(track.credited) + (stats.uploaded + stats.reused)
    {
      hide BooksOk, Append, ChunkRequestBytes, Server.Truthful;
      AddedNewOk(View(), opts, e, hash, chunk);
      ListNew(hash, chunk, e);
      stats, ok := FlushWhenFull();
    }

    /** Sends the pending list once it has reached a limit. */
    method FlushWhenFull() returns (stats: Stats, ok: bool)
      requires opts == opts.Normalized() && BooksOk(View(), opts, {}) && track.lost == {} && !failed && pending != []
      modifies this`entries, this`byEntry, this`byHash, this`used, this`track, this`confirmed, this`failed, this`inflight, this`calls,
               this`pending, this`requestBytes, this`nextBatchID
      ensures Valid() && (ok <==> !failed) && (server.Truthful(opts) ==> ok)
      ensures ok && old(BatchFull()) ==> inflight != map[]
      ensures track == old(track).(owner := track.owner, credited := track.credited, lost := track.lost)
      ensures track.credited == old(track.credited) + (stats.uploaded + stats.reused)
    {
      hide BooksOk, Sent, Waited, Server.Truthful;
      stats, ok := NONE, true;
      if BatchFull() {
        ghost var b := View();
        stats, ok := SubmitPending();
        WaitedItself(b);
        WaitedSent(b, b, View());
        WaitedKeeps(b, View());
      }
    }

    /** Puts a chunk on the pending list with its first waiter. */
    method ListNew(hash: Hash, chunk: Bytes, e: nat)
      modifies this`pending, this`byHash, this`byEntry, this`entries, this`requestBytes, this`used, this`maxUsed, this`track
      ensures View() == AddedNew(old(View()), e, hash, chunk)
    {
      hide Append, ChunkRequestBytes, Batching.Plus, Slots;
      ghost var b := View();
      var size := |chunk|;
      var body: nat := (if requestBytes == 0 then 12 else requestBytes) + ChunkRequestBytes(size);
      var most := if used + size > maxUsed then used + size else maxUsed;
      used, maxUsed, requestBytes, pending := used + size, most, body, pending + [hash];
      assert View().w == AddedNew(b, e, hash, chunk).w && View().q == AddedNew(b, e, hash, chunk).q;
      MakeSlot(hash, size, e);
      track := track.(added := Append(track.added, e, Filled(Ref(hash, |chunk|))), known := track.known[hash := chunk],
                      owner := track.owner[hash := 0], adds := track.adds + 1);
    }

    /** A slot that waits for a chunk new to the books. */
    method MakeSlot(hash: Hash, size: nat, e: nat)
      modifies this`byHash, this`byEntry, this`entries
      ensures View().t == Table(old(byHash)[hash := PendingChunk(size, [Waiter(e, |Slots(old(entries), e)|)])],
                                Batching.Plus(old(byEntry), e), Append(old(entries), e, Unfilled))
    {
      hide Append, Batching.Plus, Slots;
      byHash := byHash[hash := PendingChunk(size, [Waiter(e, |Slots(entries, e)|)])];
      entries := Append(entries, e, Unfilled);
      byEntry := Batching.Plus(byEntry, e);
    }

    /** Waits for everything that was added. Afterwards each entry lists exactly the chunks that were
        added to it, in the order they were added, whatever order the results came in; nothing is held,
        and the counts fall short of the adds only by what EntryPending dropped. */
    method Flush() returns (stats: Stats, ok: bool)
      requires Valid() && !orphaned
      modifies this
      ensures Valid() && !orphaned
      ensures server.Truthful(opts) && !old(failed) ==> ok
      ensures ok ==> !failed && byHash == map[] && inflight == map[] && pending == [] && byEntry == map[] && used == 0
      ensures ok ==> forall e :: Slots(entries, e) == Slots(track.added, e)
      ensures ok ==> track.adds == track.credited + track.dropped
      ensures track.added == old(track.added) && track.known == old(track.known) && track.adds == old(track.adds) && track.dropped == old(track.dropped)
      ensures looked == old(looked) && (ok ==> !old(failed))
      ensures track.credited == old(track.credited) + (stats.uploaded + stats.reused)
    {
      hide BooksOk, Drained, Sent, Waited, Server.Truthful;
      ghost var b0 := View();
      WaitedItself(b0);
      stats, ok := NONE, !failed;
      if pending != [] {
        stats, ok := SubmitPending();
        WaitedSent(b0, b0, View());
      }
      WaitedKeeps(b0, View());
      if !ok { return; }
      while true
        invariant Valid() && !orphaned && !failed && pending == [] && Waited(b0, View()) && looked == old(looked)
        invariant track.credited == b0.track.credited + (stats.uploaded + stats.reused)
        decreases |inflight|
      {
        ghost var b1 := View();
        var ready: nat := *;
        var drained, good := DrainResults(ready, {});
        WaitedDrained(b0, b1, View());
        WaitedKeeps(b0, View());
        FewerInflight(b1, View());
        stats, ok := stats.Plus(drained), good;
        if !ok { return; }
        if |byHash| == 0 {
          AllSettled(View(), opts);
          return;
        }
        ghost var b2 := View();
        SomeInflight(b2, opts);
        var applied, sound := WaitApplyResult({});
        WaitedDrained(b0, b2, View());
        WaitedKeeps(b0, View());
        stats, ok := stats.Plus(applied), sound;
        if !ok { return; }
      }
    }

    /** Whether the entry still waits for a chunk. The results that are `ready` are applied on the way;
        what they would have added to the statistics is dropped. */
    method EntryPending(e: nat, ready: nat) returns (waits: bool)
      requires Valid() && !orphaned
      modifies this
      ensures Valid() && !orphaned
      ensures server.Truthful(opts) ==> failed == old(failed)
      ensures track.added == old(track.added) && track.adds == old(track.adds) && track.credited == old(track.credited) && track.known == old(track.known)
      ensures ready == 0 ==> track.dropped == old(track.dropped)
      ensures !waits ==> Slots(entries, e) == Slots(track.added, e)
      ensures old(byHash) == map[] ==> byHash == map[] && !waits && forall x :: Slots(entries, x) == Slots(track.added, x)
      ensures track.dropped >= old(track.dropped)
      ensures !failed ==> (track.dropped > old(track.dropped) <==> ready > 0 && old(inflight) != map[])
      ensures looked == old(looked) + (if ready > 0 && old(inflight) != map[] then 1 else 0)
    {
      hide BooksOk, Drained, Slots, Server.Truthful;
      ghost var b0 := View();
      if ready > 0 && inflight != map[] { looked := looked + 1; }
      var stats, ok := DrainResults(ready, {});
      DrainedKeeps(b0, View());
      DropCredit(View(), opts, stats.uploaded + stats.reused);
      track := track.(credited := track.credited - (stats.uploaded + stats.reused), dropped := track.dropped + (stats.uploaded + stats.reused));
      waits := e in byEntry && byEntry[e] > 0;
      EntryIsDone(View(), opts, e);
      if byHash == map[] { AllSettled(View(), opts); }
    }
  }

  /** A server that has everything it is asked for, and confirms whatever it is sent. */
  function AcksFor(sent: seq<Ref>): (r: seq<UploadAck>)
    ensures |r| == |sent|
  {
    seq(|sent|, i requires 0 <= i < |sent| => UploadAck(sent[i].hash, Some(true), false, sent[i].hash, sent[i].size, 0))
  }

  lemma TruthfulExample(opts: Options, server: Server)
    requires opts.compactCheck && opts.repositoryId == []
    requires forall k, batch :: server.check(k, batch) == Some(CheckResponse([], 1, [], []))
    requires forall k, sent :: server.upload(k, sent) == Some(UploadResponse([], 1, AcksFor(sent)))
    ensures server.Truthful(opts)
  {
    forall k: nat, sent: seq<Ref>, sizes: map<Hash, nat> | Lists(sent, sizes) && [] !in sizes
      ensures server.upload(k, sent).Some? && UploadOk(sizes, opts.repositoryId, server.upload(k, sent).value, opts.compactUpload)
    {
      var acks := AcksFor(sent);
      forall i | 0 <= i < |acks| ensures acks[i].hash in sizes && AckOk(acks[i], sizes[acks[i].hash], opts.compactUpload) {
        assert sent[i].hash in sizes;
      }
      assert AckHashes(acks) == sizes.Keys by {
        forall h | h in sizes ensures h in AckHashes(acks) {
          var i :| 0 <= i < |sent| && sent[i].hash == h;
          assert acks[i].hash == h;
        }
      }
    }
  }

  /** One chunk, one batch, one look at the entry while the result is there: the add is counted nowhere. */
  method UncountedAdd() returns (adds: nat, counted: nat)
    ensures counted < adds
  {
    var opts := Options(1, 1000, 100000, 1000, true, true, [], 0, false);
    var server := Server((k, batch) => Some(CheckResponse([], 1, [], [])), (k, sent) => Some(UploadResponse([], 1, AcksFor(sent))));
    TruthfulExample(opts.Normalized(), server);
    var b := new PipelineBatcher(opts, x => [1], server, map[], map[]);
    assert b.Fits([7]);
    var s1, ok1 := b.Add([7], 0);
    var waits := b.EntryPending(0, 1);
    var s2, ok2 := b.Flush();
    adds, counted := 1, s1.uploaded + s1.reused + s2.uploaded + s2.reused;
  }
}
