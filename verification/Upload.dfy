/** The body of a batch upload, splitting a batch the server finds too large, and writing it in sub-batches. */
module Upload {
  import opened Base
  import opened Endian
  import opened PutSpec
  import opened Segments
  import opened Repositories
  import opened Batching

  // ---- the body ----

  const MAGIC: Bytes := [0x54, 0x42, 0x4B, 0x43, 0x48, 0x42, 0x31, 0x0A]  // "TBKCHB1\n"

  datatype UploadChunk = UploadChunk(hash: Hash, data: Bytes)

  function ChunkBody(c: UploadChunk): Bytes { c.hash + BE(|c.data|, 8) + c.data }

  function Bodies(chunks: seq<UploadChunk>): (r: seq<Bytes>)
    ensures |r| == |chunks|
  {
    seq(|chunks|, i requires 0 <= i < |chunks| => ChunkBody(chunks[i]))
  }

  function Body(chunks: seq<UploadChunk>): Bytes {
    MAGIC + BE(|chunks| % TWO32, 4) + Flatten(Bodies(chunks))
  }

  /** The size the request declares. */
  function BodySize(chunks: seq<UploadChunk>): nat {
    if chunks == [] then 12 else BodySize(chunks[..|chunks| - 1]) + ChunkRequestBytes(|chunks[|chunks| - 1].data|)
  }

  datatype Encoded = Encoded(body: Bytes, size: nat)

  /** None when a hash is not 32 bytes. The readers of the parts are joined; the size is added up beside. */
  method NewAgentChunkBatchBody(chunks: seq<UploadChunk>) returns (r: Option<Encoded>)
    ensures r.None? <==> exists i :: 0 <= i < |chunks| && |chunks[i].hash| != 32
    ensures r.Some? ==> r.value == Encoded(Body(chunks), BodySize(chunks)) && r.value.size == |r.value.body|
  {
    var body, size := MAGIC + BE(|chunks| % TWO32, 4), |MAGIC| + 4;
    assert Bodies(chunks)[..0] == [];
    for i := 0 to |chunks|
      invariant forall j :: 0 <= j < i ==> |chunks[j].hash| == 32
      invariant body == MAGIC + BE(|chunks| % TWO32, 4) + Flatten(Bodies(chunks)[..i])
      invariant size == BodySize(chunks[..i]) == |body|
    {
      if |chunks[i].hash| != 32 { return None; }
      assert chunks[..i + 1][..i] == chunks[..i];
      assert Bodies(chunks)[..i + 1] == Bodies(chunks)[..i] + [ChunkBody(chunks[i])];
      FlattenSnoc(Bodies(chunks)[..i], ChunkBody(chunks[i]));
      body := body + chunks[i].hash + BE(|chunks[i].data|, 8) + chunks[i].data;
      size := size + 32 + 8 + |chunks[i].data|;
    }
    assert Bodies(chunks)[..|chunks|] == Bodies(chunks) && chunks[..|chunks|] == chunks;
    r := Some(Encoded(body, size));
  }

  datatype ReadError =
    | TooLarge | ShortMagic | BadMagic | ShortCount | Empty | TooMany | ShortHash | ShortLength | BadLength
    | ShortData | HashMismatch | Trailing

  datatype Parsed = Parsed(chunk: UploadChunk, next: nat)

  /** One chunk at `pos`. */
  function ParseChunk(body: Bytes, pos: nat, maxBody: nat, digest: Bytes -> Hash): (r: Result<Parsed, ReadError>)
    requires pos <= |body|
    ensures r.Ok? ==> pos < r.value.next <= |body| && r.value.next - pos == ChunkRequestBytes(|r.value.chunk.data|)
    ensures r.Ok? ==> digest(r.value.chunk.data) == r.value.chunk.hash
  {
    if |body| - pos < 32 then Err(ShortHash) else
    if |body| - pos < 40 then Err(ShortLength) else
    var length := FromBE(body[pos + 32..pos + 40]);
    if length > maxBody || length >= TWO63 then Err(BadLength) else
    if |body| - pos - 40 < length then Err(ShortData) else
    var hash, data := body[pos..pos + 32], body[pos + 40..pos + 40 + length];
    if digest(data) != hash then Err(HashMismatch) else
    Ok(Parsed(UploadChunk(hash, data), pos + 40 + length))
  }

  datatype ParsedAll = ParsedAll(chunks: seq<UploadChunk>, next: nat)

  function ParseChunks(body: Bytes, pos: nat, count: nat, maxBody: nat, digest: Bytes -> Hash): (r: Result<ParsedAll, ReadError>)
    requires pos <= |body|
    ensures r.Ok? ==> |r.value.chunks| == count && pos <= r.value.next <= |body|
    decreases count
  {
    if count == 0 then Ok(ParsedAll([], pos))
    else
      match ParseChunks(body, pos, count - 1, maxBody, digest)
      case Err(e) => Err(e)
      case Ok(before) =>
        match ParseChunk(body, before.next, maxBody, digest)
        case Err(e) => Err(e)
        case Ok(last) => Ok(ParsedAll(before.chunks + [last.chunk], last.next))
  }

  /** What the server makes of the bytes it gets to see. */
  function ReadVisible(body: Bytes, maxBody: nat, maxChunks: nat, digest: Bytes -> Hash): Result<seq<UploadChunk>, ReadError> {
    if |body| < 8 then Err(ShortMagic) else
    if body[..8] != MAGIC then Err(BadMagic) else
    if |body| < 12 then Err(ShortCount) else
    var count := FromBE(body[8..12]);
    if count == 0 then Err(Empty) else
    if count > maxChunks then Err(TooMany) else
    match ParseChunks(body, 12, count, maxBody, digest)
    case Err(e) => Err(e)
    case Ok(all) => if all.next < |body| then Err(Trailing) else Ok(all.chunks)
  }

  predicate RanOut(e: ReadError) {
    e == ShortMagic || e == ShortCount || e == ShortHash || e == ShortLength || e == ShortData
  }

  /** Reading stops with an error where the limit is reached, unless something else was wrong before. */
  function ReadSpec(body: Bytes, maxBody: nat, maxChunks: nat, digest: Bytes -> Hash): Result<seq<UploadChunk>, ReadError> {
    if |body| <= maxBody then ReadVisible(body, maxBody, maxChunks, digest)
    else
      match ReadVisible(body[..maxBody], maxBody, maxChunks, digest)
      case Ok(_) => Err(TooLarge)
      case Err(e) => if RanOut(e) then Err(TooLarge) else Err(e)
  }

  lemma {:induction false} ParseFails(body: Bytes, pos: nat, i: nat, count: nat, maxBody: nat, digest: Bytes -> Hash)
    requires pos <= |body| && i <= count && ParseChunks(body, pos, i, maxBody, digest).Err?
    ensures ParseChunks(body, pos, count, maxBody, digest) == ParseChunks(body, pos, i, maxBody, digest)
    decreases count
  {
    hide ParseChunk;
    if i < count { ParseFails(body, pos, i, count - 1, maxBody, digest); }
  }

  method ReadVisibleBatch(body: Bytes, maxBody: nat, limit: nat, digest: Bytes -> Hash) returns (r: Result<seq<UploadChunk>, ReadError>)
    ensures r == ReadVisible(body, maxBody, limit, digest)
  {
    hide ParseChunk;
    if |body| < 8 { return Err(ShortMagic); }
    if body[..8] != MAGIC { return Err(BadMagic); }
    if |body| < 12 { return Err(ShortCount); }
    var count := FromBE(body[8..12]);
    if count == 0 { return Err(Empty); }
    if count > limit { return Err(TooMany); }
    var chunks: seq<UploadChunk>, offset: nat := [], 12;
    for i := 0 to count
      invariant offset <= |body| && ParseChunks(body, 12, i, maxBody, digest) == Ok(ParsedAll(chunks, offset))
    {
      var next := ParseChunk(body, offset, maxBody, digest);
      if next.Err? {
        ParseFails(body, 12, i + 1, count, maxBody, digest);
        return Err(next.error);
      }
      chunks, offset := chunks + [next.value.chunk], next.value.next;
    }
    if offset < |body| { return Err(Trailing); }
    r := Ok(chunks);
  }

  method ReadAgentChunkBatch(body: Bytes, maxBodyBytes: int, maxChunks: int, digest: Bytes -> Hash) returns (r: Result<seq<UploadChunk>, ReadError>)
    ensures r == ReadSpec(body, if maxBodyBytes <= 0 then 64 * 1024 * 1024 else maxBodyBytes, if maxChunks <= 0 then 10000 else maxChunks, digest)
  {
    hide ReadVisible;
    var maxBody: nat := if maxBodyBytes <= 0 then 64 * 1024 * 1024 else maxBodyBytes;
    var limit: nat := if maxChunks <= 0 then 10000 else maxChunks;
    if |body| <= maxBody {
      r := ReadVisibleBatch(body, maxBody, limit, digest);
    } else {
      r := ReadVisibleBatch(body[..maxBody], maxBody, limit, digest);
      if r.Ok? || RanOut(r.error) { return Err(TooLarge); }
    }
  }

  /** A batch as the agent makes it: proper digests of its own data, and no more than the server takes. */
  ghost predicate Sendable(chunks: seq<UploadChunk>, maxBody: nat, maxChunks: nat, digest: Bytes -> Hash) {
    && 0 < |chunks| <= maxChunks && |chunks| < TWO32 && |Body(chunks)| <= maxBody < TWO63
    && forall i :: 0 <= i < |chunks| ==> |chunks[i].hash| == 32 && digest(chunks[i].data) == chunks[i].hash
  }

  lemma BodyHas(chunks: seq<UploadChunk>, i: nat)
    requires i < |chunks|
    ensures var a := 12 + |Flatten(Bodies(chunks)[..i])|;
      && a + |ChunkBody(chunks[i])| <= |Body(chunks)| && Body(chunks)[a..a + |ChunkBody(chunks[i])|] == ChunkBody(chunks[i])
      && a + |ChunkBody(chunks[i])| == 12 + |Flatten(Bodies(chunks)[..i + 1])|
  {
    FlattenAt(Bodies(chunks), i);
    var head, whole := MAGIC + BE(|chunks| % TWO32, 4), Flatten(Bodies(chunks));
    var a, n := |Flatten(Bodies(chunks)[..i])|, |ChunkBody(chunks[i])|;
    assert (head + whole)[12 + a..12 + a + n] == whole[a..a + n];
  }

  lemma ChunkRoundTrip(body: Bytes, pos: nat, c: UploadChunk, maxBody: nat, digest: Bytes -> Hash)
    requires |c.hash| == 32 && |c.data| <= maxBody < TWO63 && digest(c.data) == c.hash
    requires pos + |ChunkBody(c)| <= |body| && body[pos..pos + |ChunkBody(c)|] == ChunkBody(c)
    ensures ParseChunk(body, pos, maxBody, digest) == Ok(Parsed(c, pos + |ChunkBody(c)|))
  {
    var part := body[pos..pos + |ChunkBody(c)|];
    assert part[..32] == c.hash && part[32..40] == BE(|c.data|, 8) && part[40..] == c.data;
    assert body[pos..pos + 32] == part[..32];
    assert body[pos + 32..pos + 40] == part[32..40] by {
      forall k | 0 <= k < 8 ensures body[pos + 32..pos + 40][k] == part[32..40][k] { assert part[32 + k] == body[pos + 32 + k]; }
    }
    assert body[pos + 40..pos + 40 + |c.data|] == part[40..];
    BE8(|c.data|);
  }

  lemma {:induction false} ChunksRoundTrip(chunks: seq<UploadChunk>, n: nat, maxBody: nat, maxChunks: nat, digest: Bytes -> Hash)
    requires Sendable(chunks, maxBody, maxChunks, digest) && n <= |chunks|
    ensures 12 + |Flatten(Bodies(chunks)[..n])| <= |Body(chunks)|
    ensures ParseChunks(Body(chunks), 12, n, maxBody, digest) == Ok(ParsedAll(chunks[..n], 12 + |Flatten(Bodies(chunks)[..n])|))
    decreases n
  {
    hide ParseChunk, Body, ChunkBody, Bodies, BodySize;
    if n > 0 {
      ChunksRoundTrip(chunks, n - 1, maxBody, maxChunks, digest);
      BodyHas(chunks, n - 1);
      DataWithin(chunks, n - 1);
      ChunkRoundTrip(Body(chunks), 12 + |Flatten(Bodies(chunks)[..n - 1])|, chunks[n - 1], maxBody, digest);
      assert chunks[..n] == chunks[..n - 1] + [chunks[n - 1]];
    } else {
      BodyAtLeast(chunks);
      assert Bodies(chunks)[..0] == [];
    }
  }

  lemma BodyAtLeast(chunks: seq<UploadChunk>)
    ensures |Body(chunks)| >= 12
  {
  }

  lemma DataWithin(chunks: seq<UploadChunk>, i: nat)
    requires i < |chunks|
    ensures |chunks[i].data| <= |Body(chunks)|
  {
    BodyHas(chunks, i);
  }

  /** The server reads exactly the chunks the agent wrote. */
  lemma BatchRoundTrip(chunks: seq<UploadChunk>, maxBody: nat, maxChunks: nat, digest: Bytes -> Hash)
    requires Sendable(chunks, maxBody, maxChunks, digest)
    ensures ReadSpec(Body(chunks), maxBody, maxChunks, digest) == Ok(chunks)
  {
    hide ParseChunks;
    var body, rest := Body(chunks), Flatten(Bodies(chunks));
    BE4(|chunks|);
    assert body[..8] == MAGIC && body[8..12] == BE(|chunks|, 4);
    ChunksRoundTrip(chunks, |chunks|, maxBody, maxChunks, digest);
    assert Bodies(chunks)[..|chunks|] == Bodies(chunks) && chunks[..|chunks|] == chunks;
  }

  lemma ParsedIsWritten(body: Bytes, pos: nat, maxBody: nat, digest: Bytes -> Hash)
    requires pos <= |body| && ParseChunk(body, pos, maxBody, digest).Ok?
    ensures var one := ParseChunk(body, pos, maxBody, digest).value;
      body[pos..one.next] == ChunkBody(one.chunk) && |one.chunk.hash| == 32 && digest(one.chunk.data) == one.chunk.hash
  {
    hide BE, FromBE;
    var one := ParseChunk(body, pos, maxBody, digest).value;
    BEOfFromBE(body[pos + 32..pos + 40]);
    assert body[pos..one.next] == body[pos..pos + 32] + body[pos + 32..pos + 40] + body[pos + 40..one.next];
  }

  /** What is read from a stretch of the body is what that stretch is the writing of. */
  lemma {:induction false} ParsedAllIsWritten(body: Bytes, pos: nat, count: nat, maxBody: nat, digest: Bytes -> Hash)
    requires pos <= |body| && ParseChunks(body, pos, count, maxBody, digest).Ok?
    ensures var all := ParseChunks(body, pos, count, maxBody, digest).value;
      && body[pos..all.next] == Flatten(Bodies(all.chunks))
      && forall i :: 0 <= i < count ==> |all.chunks[i].hash| == 32 && digest(all.chunks[i].data) == all.chunks[i].hash
    decreases count
  {
    hide ParseChunk, ChunkBody, Flatten;
    var all := ParseChunks(body, pos, count, maxBody, digest).value;
    if count > 0 {
      ParsedAllIsWritten(body, pos, count - 1, maxBody, digest);
      var before := ParseChunks(body, pos, count - 1, maxBody, digest).value;
      ParsedIsWritten(body, before.next, maxBody, digest);
      assert all.chunks[..count - 1] == before.chunks;
      assert Bodies(all.chunks) == Bodies(before.chunks) + [ChunkBody(all.chunks[count - 1])];
      FlattenSnoc(Bodies(before.chunks), ChunkBody(all.chunks[count - 1]));
      assert body[pos..all.next] == body[pos..before.next] + body[before.next..all.next];
    } else {
      NothingWritten();
    }
  }

  lemma NothingWritten()
    ensures Flatten(Bodies([])) == []
  {
  }

  /** The server accepts a body if and only if an agent that keeps the limits could have written it, from
      chunks under their own digests; and it reads exactly those chunks. */
  lemma AcceptedIsGenuine(body: Bytes, maxBody: nat, maxChunks: nat, digest: Bytes -> Hash, chunks: seq<UploadChunk>)
    requires maxBody < TWO63
    ensures ReadSpec(body, maxBody, maxChunks, digest) == Ok(chunks)
      <==> Sendable(chunks, maxBody, maxChunks, digest) && body == Body(chunks)
  {
    hide ParseChunks, Body;
    if ReadSpec(body, maxBody, maxChunks, digest) == Ok(chunks) {
      AcceptedWasWritten(body, maxBody, maxChunks, digest, chunks);
    }
    if Sendable(chunks, maxBody, maxChunks, digest) && body == Body(chunks) {
      BatchRoundTrip(chunks, maxBody, maxChunks, digest);
    }
  }

  lemma AcceptedWasWritten(body: Bytes, maxBody: nat, maxChunks: nat, digest: Bytes -> Hash, chunks: seq<UploadChunk>)
    requires maxBody < TWO63 && |body| <= maxBody && ReadVisible(body, maxBody, maxChunks, digest) == Ok(chunks)
    ensures Sendable(chunks, maxBody, maxChunks, digest) && body == Body(chunks)
  {
    hide ParseChunks, BE, FromBE, Flatten;
    var count := FromBE(body[8..12]);
    BEOfFromBE(body[8..12]);
    FromBEBound(body[8..12]);
    Widths();
    ParsedAllIsWritten(body, 12, count, maxBody, digest);
    assert body == body[..8] + body[8..12] + body[12..];
  }

  // ---- splitting a batch the server finds too large ----

  datatype Response = Response(repositoryId: Bytes, generation: nat, acks: seq<UploadAck>, requestBytes: nat, splits: nat, requests: nat)

  datatype Reply = Accepted(repositoryId: Bytes, generation: nat, acks: seq<UploadAck>) | TooLargeReply | OtherError

  /** None when the two halves come from different repositories. */
  function Combine(left: Response, right: Response): Option<Response> {
    if left.repositoryId != [] && right.repositoryId != [] && left.repositoryId != right.repositoryId then None
    else Some(Response(
      if left.repositoryId == [] then right.repositoryId else left.repositoryId,
      if right.generation > left.generation then right.generation else left.generation, left.acks + right.acks,
      left.requestBytes + right.requestBytes, left.splits + right.splits + 1, left.requests + right.requests))
  }

  /** What one try of a request gets. */
  datatype Try = Taken(repositoryId: Bytes, generation: nat, acks: seq<UploadAck>) | Absent | TooBig | Transient | Fatal

  /** What putting one chunk by itself gets. */
  datatype Put = Stored(ack: UploadAck) | TooBigAlone | Refused

  /** The server as the agent meets it: the tries of a batch, by number; and chunks put one at a time. */
  datatype Client = Client(batch: (nat, seq<UploadChunk>) -> Try, single: UploadChunk -> Put, maxRetries: nat)
  {
    /** What a request comes to, from try number `attempt` on. */
    function From(attempt: nat, chunks: seq<UploadChunk>): Reply
      decreases maxRetries - attempt
    {
      match batch(attempt, chunks)
      case Taken(repositoryId, generation, acks) => Accepted(repositoryId, generation, acks)
      case Absent => Legacy(chunks)
      case TooBig => TooLargeReply
      case Transient => if attempt > maxRetries then OtherError else From(attempt + 1, chunks)
      case Fatal => OtherError
    }

    function Reply(chunks: seq<UploadChunk>): Reply { From(1, chunks) }

    /** What putting the chunks one at a time comes to: the first refusal is passed on, a 413 as a 413. */
    function Legacy(chunks: seq<UploadChunk>): (r: Reply)
      ensures r.Accepted? <==> AllPut(chunks)
      ensures r.Accepted? ==> r == Accepted([], 0, Puts(chunks))
      ensures r.TooLargeReply? <==> exists i :: 0 <= i < |chunks| && single(chunks[i]).TooBigAlone? && AllPut(chunks[..i])
    {
      if chunks == [] then Accepted([], 0, [])
      else
        var before, last := chunks[..|chunks| - 1], chunks[|chunks| - 1];
        assert forall i :: 0 <= i < |before| ==> before[..i] == chunks[..i];
        match Legacy(before)
        case Accepted(_, _, acks) =>
          (match single(last)
           case Stored(ack) => Accepted([], 0, acks + [ack])
           case TooBigAlone => TooLargeReply
           case Refused => OtherError)
        case failed => failed
    }

    predicate AllPut(chunks: seq<UploadChunk>) { forall i :: 0 <= i < |chunks| ==> single(chunks[i]).Stored? }

    function Puts(chunks: seq<UploadChunk>): (r: seq<UploadAck>)
      requires AllPut(chunks)
      ensures |r| == |chunks|
    {
      seq(|chunks|, i requires 0 <= i < |chunks| => single(chunks[i]).ack)
    }
  }

  /** A server without batch uploads gets the chunks one at a time, up to the first it refuses. */
  method UploadLegacy(client: Client, chunks: seq<UploadChunk>) returns (r: Reply)
    ensures r == client.Legacy(chunks)
  {
    var acks: seq<UploadAck> := [];
    for i := 0 to |chunks|
      invariant client.Legacy(chunks[..i]) == Accepted([], 0, acks)
    {
      assert chunks[..i + 1][..i] == chunks[..i];
      match client.single(chunks[i])
      case Stored(ack) => acks := acks + [ack];
      case TooBigAlone =>
        LegacyStops(client, chunks, i + 1);
        return TooLargeReply;
      case Refused =>
        LegacyStops(client, chunks, i + 1);
        return OtherError;
    }
    assert chunks[..|chunks|] == chunks;
    r := Accepted([], 0, acks);
  }

  lemma {:induction false} LegacyStops(client: Client, chunks: seq<UploadChunk>, i: nat)
    requires i <= |chunks| && !client.Legacy(chunks[..i]).Accepted?
    ensures client.Legacy(chunks) == client.Legacy(chunks[..i])
    decreases |chunks|
  {
    if i < |chunks| {
      var before := chunks[..|chunks| - 1];
      assert before[..i] == chunks[..i];
      LegacyStops(client, before, i);
    } else {
      assert chunks[..i] == chunks;
    }
  }

  /** The tries of one request, and the fallback. */
  method UploadNoSplit(client: Client, chunks: seq<UploadChunk>) returns (r: Reply, retries: nat)
    ensures r == client.Reply(chunks)
    ensures retries <= client.maxRetries && forall k :: 1 <= k <= retries ==> client.batch(k, chunks).Transient?
  {
    retries := 0;
    while true
      invariant retries <= client.maxRetries && client.From(retries + 1, chunks) == client.Reply(chunks)
      invariant forall k :: 1 <= k <= retries ==> client.batch(k, chunks).Transient?
      decreases client.maxRetries - retries
    {
      match client.batch(retries + 1, chunks)
      case Taken(repositoryId, generation, acks) => return Accepted(repositoryId, generation, acks), retries;
      case Absent =>
        var reply := UploadLegacy(client, chunks);
        return reply, retries;
      case TooBig => return TooLargeReply, retries;
      case Transient =>
        if retries + 1 > client.maxRetries { return OtherError, retries; }
        retries := retries + 1;
      case Fatal => return OtherError, retries;
    }
  }

  /** The requests a batch comes down to: whatever is too large is sent in halves. */
  function Requests(client: Client, chunks: seq<UploadChunk>, splitOn413: bool): (r: seq<seq<UploadChunk>>)
    ensures r != [] && Flatten(r) == chunks
    decreases |chunks|
  {
    if splitOn413 && |chunks| > 1 && client.Reply(chunks).TooLargeReply? then
      var mid := |chunks| / 2;
      var a, b := Requests(client, chunks[..mid], splitOn413), Requests(client, chunks[mid..], splitOn413);
      FlattenAppend(a, b);
      assert chunks[..mid] + chunks[mid..] == chunks;
      a + b
    else
      [chunks]
  }

  predicate AllAccepted(client: Client, sent: seq<seq<UploadChunk>>) {
    forall i :: 0 <= i < |sent| ==> client.Reply(sent[i]).Accepted?
  }

  /** All the answers that name a repository name the same one. */
  predicate Agree(client: Client, sent: seq<seq<UploadChunk>>)
    requires AllAccepted(client, sent)
  {
    forall i, j :: 0 <= i < |sent| && 0 <= j < |sent| && client.Reply(sent[i]).repositoryId != [] && client.Reply(sent[j]).repositoryId != [] ==>
      client.Reply(sent[i]).repositoryId == client.Reply(sent[j]).repositoryId
  }

  /** The repository the answers name, if any does. */
  predicate Names(client: Client, sent: seq<seq<UploadChunk>>, id: Bytes)
    requires AllAccepted(client, sent)
  {
    && (forall i :: 0 <= i < |sent| ==> client.Reply(sent[i]).repositoryId in {[], id})
    && (id != [] ==> exists i :: 0 <= i < |sent| && client.Reply(sent[i]).repositoryId == id)
  }

  lemma NamesBoth(client: Client, a: seq<seq<UploadChunk>>, ida: Bytes, b: seq<seq<UploadChunk>>, idb: Bytes)
    requires AllAccepted(client, a) && AllAccepted(client, b) && Names(client, a, ida) && Names(client, b, idb)
    ensures AllAccepted(client, a + b)
    ensures Agree(client, a + b) <==> ida == [] || idb == [] || ida == idb
    ensures Agree(client, a + b) ==> Names(client, a + b, if ida == [] then idb else ida)
  {
    var both := a + b;
    if ida != [] {
      var i :| 0 <= i < |a| && client.Reply(a[i]).repositoryId == ida;
      assert client.Reply(both[i]).repositoryId == ida;
    }
    if idb != [] {
      var j :| 0 <= j < |b| && client.Reply(b[j]).repositoryId == idb;
      assert client.Reply(both[|a| + j]).repositoryId == idb;
    }
  }

  /** A part that fails makes the whole fail. */
  lemma PartFails(client: Client, a: seq<seq<UploadChunk>>, b: seq<seq<UploadChunk>>)
    requires AllAccepted(client, a + b)
    ensures AllAccepted(client, a) && AllAccepted(client, b)
    ensures Agree(client, a + b) ==> Agree(client, a) && Agree(client, b)
  {
    var both := a + b;
    forall i | 0 <= i < |a| ensures client.Reply(a[i]) == client.Reply(both[i]) { }
    forall j | 0 <= j < |b| ensures client.Reply(b[j]) == client.Reply(both[|a| + j]) { }
  }

  /** An accepted request acknowledges its own chunks, in order. */
  ghost predicate AcksInOrder(client: Client) {
    forall chunks: seq<UploadChunk> {:trigger client.Reply(chunks)} :: client.Reply(chunks).Accepted? ==>
      |client.Reply(chunks).acks| == |chunks| && forall i :: 0 <= i < |chunks| ==> client.Reply(chunks).acks[i].hash == chunks[i].hash
  }

  /** Sends the batch; when it is too large, sends its halves one after the other. It succeeds exactly
      when every request it comes down to is accepted and they agree on the repository; together they
      carry every chunk once, in order. */
  method UploadWithSplit(client: Client, chunks: seq<UploadChunk>, splitOn413: bool) returns (r: Option<Response>)
    decreases |chunks|
    ensures r.Some? <==> AllAccepted(client, Requests(client, chunks, splitOn413)) && Agree(client, Requests(client, chunks, splitOn413))
    ensures r.Some? ==> (
      var sent := Requests(client, chunks, splitOn413);
      && r.value.requests == |sent| && r.value.splits + 1 == |sent| && Names(client, sent, r.value.repositoryId)
      && forall i :: 0 <= i < |sent| ==> client.Reply(sent[i]).generation <= r.value.generation)
    ensures r.Some? && AcksInOrder(client) ==>
      |r.value.acks| == |chunks| && forall i :: 0 <= i < |chunks| ==> r.value.acks[i].hash == chunks[i].hash
  {
    hide Agree, Names, Client.Reply;
    var reply, retries := UploadNoSplit(client, chunks);
    if reply.Accepted? {
      OneRequest(client, chunks);
      return Some(Response(reply.repositoryId, reply.generation, reply.acks, BodySize(chunks), 0, 1));
    }
    if splitOn413 && |chunks| > 1 && reply.TooLargeReply? {
      var mid := |chunks| / 2;
      ghost var a, b := Requests(client, chunks[..mid], splitOn413), Requests(client, chunks[mid..], splitOn413);
      if AllAccepted(client, a + b) { PartFails(client, a, b); }
      var left := UploadWithSplit(client, chunks[..mid], splitOn413);
      if left.None? { return None; }
      var right := UploadWithSplit(client, chunks[mid..], splitOn413);
      if right.None? { return None; }
      NamesBoth(client, a, left.value.repositoryId, b, right.value.repositoryId);
      return Combine(left.value, right.value);
    }
    assert !client.Reply(Requests(client, chunks, splitOn413)[0]).Accepted?;
    r := None;
  }

  lemma OneRequest(client: Client, chunks: seq<UploadChunk>)
    requires client.Reply(chunks).Accepted?
    ensures Agree(client, [chunks]) && Names(client, [chunks], client.Reply(chunks).repositoryId)
  {
    assert client.Reply([chunks][0]).repositoryId == client.Reply(chunks).repositoryId;
  }

  /** A server that fails only by size, and takes every chunk alone, gets the whole batch. */
  lemma {:induction false} SplittingGetsThrough(client: Client, chunks: seq<UploadChunk>)
    requires forall batch: seq<UploadChunk> {:trigger client.Reply(batch)} :: client.Reply(batch) != OtherError && (|batch| == 1 ==> client.Reply(batch).Accepted?)
    requires chunks != []
    ensures AllAccepted(client, Requests(client, chunks, true))
    decreases |chunks|
  {
    if |chunks| > 1 && client.Reply(chunks).TooLargeReply? {
      SplittingGetsThrough(client, chunks[..|chunks| / 2]);
      SplittingGetsThrough(client, chunks[|chunks| / 2..]);
    }
  }

  // ---- what the batchers send stays within their limit ----

  function RequestBytesOf(c: PendingChunk): nat { ChunkRequestBytes(c.size) }

  function Only(byHash: ByHash, listed: seq<Hash>): ByHash { map h | h in byHash && h in listed :: byHash[h] }

  lemma {:induction false} BodyIsSum(listed: seq<Hash>, byHash: ByHash)
    requires Distinct(listed) && forall i :: 0 <= i < |listed| ==> listed[i] in byHash
    ensures BodyBytes(listed, byHash) == 12 + Sum(Only(byHash, listed), RequestBytesOf)
    decreases |listed|
  {
    if listed == [] {
      assert Only(byHash, listed) == map[];
    } else {
      var n := |listed| - 1;
      DistinctPrefix(listed, n);
      assert listed == listed[..n] + [listed[n]];
      DistinctSnoc(listed[..n], listed[n]);
      BodyIsSum(listed[..n], byHash);
      SumInsert(Only(byHash, listed[..n]), RequestBytesOf, listed[n], byHash[listed[n]]);
      assert Only(byHash, listed) == Only(byHash, listed[..n])[listed[n] := byHash[listed[n]]];
    }
  }

  lemma {:induction false} SizeOfBody(chunks: seq<UploadChunk>, listed: seq<Hash>, byHash: ByHash)
    requires |chunks| == |listed| && forall i :: 0 <= i < |listed| ==> listed[i] in byHash && |chunks[i].data| == byHash[listed[i]].size
    ensures BodySize(chunks) == BodyBytes(listed, byHash)
    decreases |chunks|
  {
    if chunks != [] { SizeOfBody(chunks[..|chunks| - 1], listed[..|listed| - 1], byHash); }
  }

  /** The upload of a batch carries some of the chunks that were pending, so its body keeps the request
      limit that the pending list was held to. */
  lemma UploadKeepsLimit(pending: seq<Hash>, missing: seq<Hash>, byHash: ByHash, chunks: seq<UploadChunk>, limit: int)
    requires Distinct(pending) && Distinct(missing)
    requires forall i :: 0 <= i < |pending| ==> pending[i] in byHash
    requires forall i :: 0 <= i < |missing| ==> missing[i] in pending
    requires |chunks| == |missing| && forall i :: 0 <= i < |missing| ==> missing[i] in byHash && |chunks[i].data| == byHash[missing[i]].size
    requires BodyBytes(pending, byHash) <= limit && forall i :: 0 <= i < |chunks| ==> |chunks[i].hash| == 32
    ensures |Body(chunks)| == BodySize(chunks) <= limit
  {
    BodyIsSum(pending, byHash);
    BodyIsSum(missing, byHash);
    SumOfFewer(Only(byHash, missing), Only(byHash, pending), RequestBytesOf);
    SizeOfBody(chunks, missing, byHash);
    BodyLength(chunks, |chunks|);
    assert Bodies(chunks)[..|chunks|] == Bodies(chunks) && chunks[..|chunks|] == chunks;
  }

  lemma {:induction false} BodyLength(chunks: seq<UploadChunk>, n: nat)
    requires n <= |chunks| && forall i :: 0 <= i < |chunks| ==> |chunks[i].hash| == 32
    ensures 12 + |Flatten(Bodies(chunks)[..n])| == BodySize(chunks[..n])
    decreases n
  {
    if n > 0 {
      BodyLength(chunks, n - 1);
      assert chunks[..n][..n - 1] == chunks[..n - 1];
      assert Bodies(chunks)[..n] == Bodies(chunks)[..n - 1] + [ChunkBody(chunks[n - 1])];
      FlattenSnoc(Bodies(chunks)[..n - 1], ChunkBody(chunks[n - 1]));
    } else {
      assert Bodies(chunks)[..0] == [];
    }
  }

  // ---- writing an upload in sub-batches ----

  function DataBytes(chunks: seq<Bytes>): nat {
    if chunks == [] then 0 else DataBytes(chunks[..|chunks| - 1]) + |chunks[|chunks| - 1]|
  }

  /** The end of the sub-batch from `start`: as many chunks as fit, but always one. */
  method NextChunkSubBatchEnd(chunks: seq<Bytes>, start: nat, maxBytes: int) returns (end: nat)
    requires start <= |chunks|
    ensures start <= end <= |chunks| && (start < |chunks| ==> start < end)
    ensures maxBytes <= 0 ==> end == |chunks|
    ensures maxBytes > 0 && end > start + 1 ==> DataBytes(chunks[start..end]) <= maxBytes
    ensures maxBytes > 0 && start < end < |chunks| ==> DataBytes(chunks[start..end + 1]) > maxBytes
  {
    if start >= |chunks| || maxBytes <= 0 { return |chunks|; }
    end := start;
    var total := 0;
    while end < |chunks|
      invariant start <= end <= |chunks| && total == DataBytes(chunks[start..end])
      invariant end > start + 1 ==> total <= maxBytes
    {
      assert chunks[start..end + 1][..end - start] == chunks[start..end];
      if end > start && total + |chunks[end]| > maxBytes { break; }
      total := total + |chunks[end]|;
      end := end + 1;
    }
  }

  /** Sub-batches one after the other write what one batch would. */
  method PutAgentUploadChunks(repo: Repository, chunks: seq<Bytes>, maxBytes: int) returns (results: seq<PutResult>)
    requires repo.writer.env == repo.env && repo.writer.View().Valid()
    modifies repo`index, repo.writer
    ensures repo.writer.View().Valid()
    ensures Puts(repo.writer.View(), repo.index, results) == PutEach(repo.env, old(repo.writer.View()), old(repo.index), chunks)
  {
    hide PutEach;
    results := [];
    var start := 0;
    NothingPut(repo.env, repo.writer.View(), repo.index);
    assert chunks[..0] == [];
    while start < |chunks|
      invariant 0 <= start <= |chunks| && repo.writer.View().Valid()
      invariant Puts(repo.writer.View(), repo.index, results) == PutEach(repo.env, old(repo.writer.View()), old(repo.index), chunks[..start])
      decreases |chunks| - start
    {
      var end := NextChunkSubBatchEnd(chunks, start, maxBytes);
      PutEachSplits(repo.env, old(repo.writer.View()), old(repo.index), chunks[..start], chunks[start..end]);
      assert chunks[..start] + chunks[start..end] == chunks[..end];
      var written := repo.PutChunks(chunks[start..end]);
      results := results + written;
      start := end;
    }
    assert chunks[..|chunks|] == chunks;
  }

  lemma NothingPut(env: Env, s: Store, index: Index)
    requires s.Valid()
    ensures PutEach(env, s, index, []) == Puts(s, index, [])
  {
  }
}
