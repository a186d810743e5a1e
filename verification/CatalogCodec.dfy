/** The agent catalog's records in Pebble: keys, status values, and file values with varint lengths. */
module CatalogCodec {
  import opened Base
  import opened Endian

  const STATUS_RECORD: byte := 0x01
  const FILE_RECORD: byte := 0x02
  const VALUE_VERSION: byte := 0x01
  const MAX_VARINT_LEN := 10
  const CHUNK_LEN := 40
  const FIXED_LEN := 54
  const STATUS_LEN := 34

  /** What a reader got, and where it stopped. */
  datatype Got<+T> = Got(value: T, next: nat)

  /** `part` stands at `pos`. */
  predicate At(data: Bytes, pos: nat, part: Bytes) {
    pos + |part| <= |data| && data[pos..pos + |part|] == part
  }

  lemma AtParts(data: Bytes, pos: nat, a: Bytes, b: Bytes)
    requires At(data, pos, a + b)
    ensures At(data, pos, a) && At(data, pos + |a|, b)
  {
    var whole := data[pos..pos + |a + b|];
    assert whole[..|a|] == a && whole[|a|..] == b;
    assert data[pos..pos + |a|] == whole[..|a|];
    assert data[pos + |a|..pos + |a| + |b|] == whole[|a|..];
  }

  lemma AtStart(data: Bytes)
    ensures At(data, 0, data)
  {
  }

  // ---- varints ----

  /** PutUvarint: seven bits a byte, the low ones first, the high bit set on all but the last. */
  function Uvarint(n: nat): (r: Bytes)
    ensures r != []
  {
    if n < 128 then [n] else [128 + n % 128] + Uvarint(n / 128)
  }

  /** The value bytes `i` and later of a varint may still hold. */
  function Room(i: nat): nat
    decreases if i < MAX_VARINT_LEN then MAX_VARINT_LEN - i else 0
  {
    if i >= MAX_VARINT_LEN - 1 then 2 else 128 * Room(i + 1)
  }

  lemma RoomForAll()
    ensures Room(0) == TWO64
  {
    assert Room(5) == 128 * 128 * 128 * 128 * 2;
  }

  /** A varint whose byte number `i` stands at `pos`: no more than ten bytes, and no more than 64 bits. */
  function UvarintAt(data: Bytes, pos: nat, i: nat): (r: Option<Got<nat>>)
    requires pos <= |data|
    decreases |data| - pos
    ensures r.Some? ==> pos < r.value.next <= |data| && r.value.value < Room(i) && i < MAX_VARINT_LEN
  {
    if pos == |data| || i >= MAX_VARINT_LEN then None
    else if data[pos] < 128 then (if i == MAX_VARINT_LEN - 1 && data[pos] > 1 then None else RoomIsBig(i, data[pos]); Some(Got(data[pos], pos + 1)))
    else
      match UvarintAt(data, pos + 1, i + 1)
      case None => None
      case Some(rest) => Some(Got(data[pos] - 128 + 128 * rest.value, rest.next))
  }

  lemma RoomIsBig(i: nat, b: byte)
    requires i < MAX_VARINT_LEN && b < 128 && (i == MAX_VARINT_LEN - 1 ==> b <= 1)
    ensures b < Room(i)
  {
    if i < MAX_VARINT_LEN - 1 { RoomAtLeast(i + 1); }
  }

  lemma {:induction false} RoomAtLeast(i: nat)
    ensures Room(i) >= 2
    decreases if i < MAX_VARINT_LEN then MAX_VARINT_LEN - i else 0
  {
    if i < MAX_VARINT_LEN - 1 { RoomAtLeast(i + 1); }
  }

  lemma {:induction false} UvarintReads(data: Bytes, pos: nat, i: nat, n: nat)
    requires At(data, pos, Uvarint(n)) && i < MAX_VARINT_LEN && n < Room(i)
    ensures UvarintAt(data, pos, i) == Some(Got(n, pos + |Uvarint(n)|))
    decreases n
  {
    var part := Uvarint(n);
    assert data[pos] == data[pos..pos + |part|][0] == part[0];
    if n >= 128 {
      AtParts(data, pos, [128 + n % 128], Uvarint(n / 128));
      UvarintReads(data, pos + 1, i + 1, n / 128);
    }
  }

  /** The decoding loop: `x` collects the bits, `unit` is 2 to the number of bits read. */
  method ReadUvarint(data: Bytes, offset: nat) returns (value: nat, next: nat, ok: bool)
    requires offset <= |data|
    ensures UvarintAt(data, offset, 0) == if ok then Some(Got(value, next)) else None
  {
    hide Resumed, UvarintAt;
    var x: nat, unit: nat, i: nat := 0, 1, 0;
    value, next, ok := 0, offset, false;
    ResumeStart(UvarintAt(data, offset, 0));
    while offset + i < |data|
      invariant offset + i <= |data| && i <= MAX_VARINT_LEN
      invariant UvarintAt(data, offset, 0) == Resumed(x, unit, UvarintAt(data, offset + i, i))
    {
      if i == MAX_VARINT_LEN { ResumeNone(data, offset + i, i, x, unit); return; }
      var b := data[offset + i];
      if b < 128 {
        ResumeLast(data, offset + i, i, x, unit);
        if i == MAX_VARINT_LEN - 1 && b > 1 { return; }
        value, next, ok := x + unit * b, offset + i + 1, true;
        return;
      }
      ResumeNext(data, offset + i, i, x, unit);
      x, unit, i := More(x, unit, b), unit * 128, i + 1;
    }
    ResumeNone(data, offset + i, i, x, unit);
  }

  function Resumed(x: nat, unit: nat, rest: Option<Got<nat>>): Option<Got<nat>> {
    if rest.None? then None else Some(Got(x + unit * rest.value.value, rest.value.next))
  }

  function More(x: nat, unit: nat, b: byte): nat
    requires b >= 128
  {
    x + unit * (b - 128)
  }

  lemma ResumeStart(r: Option<Got<nat>>)
    ensures Resumed(0, 1, r) == r
  {
  }

  lemma ResumeNone(data: Bytes, pos: nat, i: nat, x: nat, unit: nat)
    requires pos <= |data| && (pos == |data| || i >= MAX_VARINT_LEN)
    ensures Resumed(x, unit, UvarintAt(data, pos, i)) == None
  {
  }

  lemma ResumeLast(data: Bytes, pos: nat, i: nat, x: nat, unit: nat)
    requires pos < |data| && i < MAX_VARINT_LEN && data[pos] < 128
    ensures Resumed(x, unit, UvarintAt(data, pos, i))
         == if i == MAX_VARINT_LEN - 1 && data[pos] > 1 then None else Some(Got(x + unit * data[pos], pos + 1))
  {
    hide Room;
  }

  lemma ResumeNext(data: Bytes, pos: nat, i: nat, x: nat, unit: nat)
    requires pos < |data| && i < MAX_VARINT_LEN && data[pos] >= 128
    ensures Resumed(x, unit, UvarintAt(data, pos, i))
         == Resumed(More(x, unit, data[pos]), unit * 128, UvarintAt(data, pos + 1, i + 1))
  {
    hide Room;
    var rest := UvarintAt(data, pos + 1, i + 1);
    if rest.Some? { Distribute(unit, data[pos] - 128, rest.value.value); }
  }

  lemma Distribute(unit: int, b: int, v: int)
    ensures unit * (b + 128 * v) == unit * b + (unit * 128) * v
  {
  }

  // ---- fixed-width numbers and length-prefixed bytes ----

  function U32At(data: Bytes, pos: nat): (r: Option<Got<nat>>)
    requires pos <= |data|
    ensures r.Some? ==> pos < r.value.next <= |data| && r.value.value < TWO32
  {
    if |data| - pos < 4 then None
    else Widths(); FromBEBound(data[pos..pos + 4]); Some(Got(FromBE(data[pos..pos + 4]), pos + 4))
  }

  function U64At(data: Bytes, pos: nat): (r: Option<Got<nat>>)
    requires pos <= |data|
    ensures r.Some? ==> pos < r.value.next <= |data| && r.value.value < TWO64
  {
    if |data| - pos < 8 then None
    else FromBE8Bound(data[pos..pos + 8]); Some(Got(FromBE(data[pos..pos + 8]), pos + 8))
  }

  function Prefixed(b: Bytes): Bytes { Uvarint(|b|) + b }

  function PrefixedAt(data: Bytes, pos: nat): (r: Option<Got<Bytes>>)
    requires pos <= |data|
    ensures r.Some? ==> pos < r.value.next <= |data|
  {
    match UvarintAt(data, pos, 0)
    case None => None
    case Some(length) =>
      if length.value > |data| - length.next then None
      else Some(Got(data[length.next..length.next + length.value], length.next + length.value))
  }

  lemma PrefixedReads(data: Bytes, pos: nat, b: Bytes)
    requires At(data, pos, Prefixed(b)) && |b| < TWO64
    ensures PrefixedAt(data, pos) == Some(Got(b, pos + |Prefixed(b)|))
  {
    AtParts(data, pos, Uvarint(|b|), b);
    RoomForAll();
    UvarintReads(data, pos, 0, |b|);
  }

  method ReadLengthPrefixedBytes(data: Bytes, offset: nat) returns (value: Bytes, next: nat, ok: bool)
    requires offset <= |data|
    ensures PrefixedAt(data, offset) == if ok then Some(Got(value, next)) else None
  {
    var length, at, found := ReadUvarint(data, offset);
    if !found || length > |data| - at { return [], offset, false; }
    return data[at..at + length], at + length, true;
  }

  // ---- keys ----

  function StatusKey(hash: Hash): Bytes { [STATUS_RECORD] + hash }

  function FileKey(root: Bytes, path: Bytes): Bytes { [FILE_RECORD] + Prefixed(root) + Prefixed(path) }

  datatype FileName = FileName(root: Bytes, path: Bytes)

  function DecodeFileKey(key: Bytes): Option<FileName> {
    if key == [] || key[0] != FILE_RECORD then None else
    match PrefixedAt(key, 1)
    case None => None
    case Some(root) =>
      match PrefixedAt(key, root.next)
      case None => None
      case Some(path) => if path.next != |key| then None else Some(FileName(root.value, path.value))
  }

  lemma FileKeyRoundTrip(root: Bytes, path: Bytes)
    requires |root| < TWO64 && |path| < TWO64
    ensures DecodeFileKey(FileKey(root, path)) == Some(FileName(root, path))
  {
    hide Uvarint, Prefixed, UvarintAt, PrefixedAt, At;
    var key := FileKey(root, path);
    assert key == [FILE_RECORD] + (Prefixed(root) + Prefixed(path));
    AtStart(key);
    AtParts(key, 0, [FILE_RECORD], Prefixed(root) + Prefixed(path));
    AtParts(key, 1, Prefixed(root), Prefixed(path));
    PrefixedReads(key, 1, root);
    PrefixedReads(key, 1 + |Prefixed(root)|, path);
  }

  /** Different names have different keys, whatever bytes the names contain. */
  lemma FileKeysAreInjective(root: Bytes, path: Bytes, root': Bytes, path': Bytes)
    requires |root| < TWO64 && |path| < TWO64 && |root'| < TWO64 && |path'| < TWO64
    ensures FileKey(root, path) == FileKey(root', path') <==> root == root' && path == path'
  {
    FileKeyRoundTrip(root, path);
    FileKeyRoundTrip(root', path');
  }

  /** Byte-wise order on keys, as the store keeps them. */
  predicate Below(a: Bytes, b: Bytes) {
    if b == [] then false
    else if a == [] then true
    else a[0] < b[0] || (a[0] == b[0] && Below(a[1..], b[1..]))
  }

  /** The keys an iterator or a range deletion over the status records touches. */
  predicate InStatusRange(key: Bytes) {
    !Below(key, [STATUS_RECORD]) && Below(key, [STATUS_RECORD + 1])
  }

  /** The range of the status records is exactly the keys that start with their tag, so no file key is in it. */
  lemma StatusRangeIsTagged(key: Bytes)
    ensures InStatusRange(key) <==> key != [] && key[0] == STATUS_RECORD
    ensures forall hash :: key == StatusKey(hash) ==> InStatusRange(key)
    ensures forall root, path :: key == FileKey(root, path) ==> !InStatusRange(key)
  {
    assert [STATUS_RECORD][1..] == [] && [STATUS_RECORD + 1][1..] == [];
    if key != [] { assert !Below(key[1..], []); }
  }

  // ---- status values ----

  datatype ChunkStatus = Unknown | Confirmed | Missing

  datatype StatusRecord = StatusRecord(status: ChunkStatus, originalSize: int64, generation: int64, lastChecked: int64, lastUploaded: int64)

  function StatusCode(s: ChunkStatus): byte {
    match s case Unknown => 0x01 case Confirmed => 0x02 case Missing => 0x03
  }

  function StatusOf(code: byte): Option<ChunkStatus> {
    if code == 0x01 then Some(Unknown) else if code == 0x02 then Some(Confirmed) else if code == 0x03 then Some(Missing) else None
  }

  function EncodeStatus(r: StatusRecord): (b: Option<Bytes>)
    ensures b.Some? <==> r.originalSize >= 0 && r.generation >= 0
    ensures b.Some? ==> |b.value| == STATUS_LEN
  {
    if r.originalSize < 0 || r.generation < 0 then None
    else Some([VALUE_VERSION, StatusCode(r.status)] + BE(r.originalSize, 8) + BE(r.generation, 8) + BE(ToU64(r.lastChecked), 8) + BE(ToU64(r.lastUploaded), 8))
  }

  function DecodeStatus(value: Bytes): Option<StatusRecord> {
    if |value| != STATUS_LEN || value[0] != VALUE_VERSION || StatusOf(value[1]).None? then None
    else
      FromBE8Bound(value[2..10]); FromBE8Bound(value[10..18]); FromBE8Bound(value[18..26]); FromBE8Bound(value[26..34]);
      Some(StatusRecord(StatusOf(value[1]).value, FromU64(FromBE(value[2..10])), FromU64(FromBE(value[10..18])),
                        FromU64(FromBE(value[18..26])), FromU64(FromBE(value[26..34]))))
  }

  lemma StatusRoundTrip(r: StatusRecord)
    requires EncodeStatus(r).Some?
    ensures DecodeStatus(EncodeStatus(r).value) == Some(r)
  {
    var value := EncodeStatus(r).value;
    assert value[2..10] == BE(r.originalSize, 8) && value[10..18] == BE(r.generation, 8);
    assert value[18..26] == BE(ToU64(r.lastChecked), 8) && value[26..34] == BE(ToU64(r.lastUploaded), 8);
    BE8(r.originalSize); BE8(r.generation); BE8(ToU64(r.lastChecked)); BE8(ToU64(r.lastUploaded));
  }

  // ---- file values ----

  datatype FileKind = File | Dir | Symlink | Other(name: Bytes)

  datatype FileRecord = FileRecord(
    kind: FileKind, size: int64, mode: int64, uid: int64, gid: int64, mtimeNS: int64, dev: int64, inode: int64,
    linkTarget: Bytes, fingerprint: Bytes)

  datatype CatalogChunk = CatalogChunk(hash: Hash, originalSize: int64)

  datatype FileValue = FileValue(record: FileRecord, chunks: seq<CatalogChunk>)

  function KindCode(k: FileKind): Option<byte> {
    match k case File => Some(0x01) case Dir => Some(0x02) case Symlink => Some(0x03) case Other(_) => None
  }

  function KindOf(code: byte): Option<FileKind> {
    if code == 0x01 then Some(File) else if code == 0x02 then Some(Dir) else if code == 0x03 then Some(Symlink) else None
  }

  /** What the encoder takes; anything else it reports as an error. */
  predicate Encodable(v: FileValue) {
    && KindCode(v.record.kind).Some? && v.record.size >= 0 && 0 <= v.record.mode < TWO32
    && forall i :: 0 <= i < |v.chunks| ==> |v.chunks[i].hash| == 32 && v.chunks[i].originalSize >= 0
  }

  function Fixed(r: FileRecord): (b: Bytes)
    requires KindCode(r.kind).Some? && r.size >= 0 && 0 <= r.mode < TWO32
    ensures |b| == FIXED_LEN
  {
    [VALUE_VERSION, KindCode(r.kind).value] + BE(r.size, 8) + BE(r.mode, 4) + BE(ToU64(r.uid), 8) + BE(ToU64(r.gid), 8)
    + BE(ToU64(r.mtimeNS), 8) + BE(ToU64(r.dev), 8) + BE(ToU64(r.inode), 8)
  }

  function ChunkBytes(c: CatalogChunk): (b: Bytes)
    requires |c.hash| == 32 && c.originalSize >= 0
    ensures |b| == CHUNK_LEN
  {
    c.hash + BE(c.originalSize, 8)
  }

  function ChunksBytes(chunks: seq<CatalogChunk>): (b: Bytes)
    requires forall i :: 0 <= i < |chunks| ==> |chunks[i].hash| == 32 && chunks[i].originalSize >= 0
    ensures |b| == CHUNK_LEN * |chunks|
  {
    if chunks == [] then [] else ChunksBytes(chunks[..|chunks| - 1]) + ChunkBytes(chunks[|chunks| - 1])
  }

  function FileBytes(v: FileValue): Bytes
    requires Encodable(v)
  {
    Fixed(v.record) + Prefixed(v.record.linkTarget) + Prefixed(v.record.fingerprint) + Uvarint(|v.chunks|) + ChunksBytes(v.chunks)
  }

  function EncodeFile(v: FileValue): Option<Bytes> {
    if Encodable(v) then Some(FileBytes(v)) else None
  }

  /** The fields at fixed places. */
  function FixedAt(value: Bytes, linkTarget: Bytes, fingerprint: Bytes): (r: Option<FileRecord>)
    requires |value| >= FIXED_LEN
    ensures r.Some? ==> KindCode(r.value.kind).Some? && r.value.size >= 0 && 0 <= r.value.mode < TWO32
  {
    FromBE8Bound(value[2..10]); FromBE8Bound(value[14..22]); FromBE8Bound(value[22..30]);
    FromBE8Bound(value[30..38]); FromBE8Bound(value[38..46]); FromBE8Bound(value[46..54]);
    Widths(); FromBEBound(value[10..14]);
    if value[0] != VALUE_VERSION || KindOf(value[1]).None? || FromBE(value[2..10]) >= TWO63 then None
    else Some(FileRecord(KindOf(value[1]).value, FromBE(value[2..10]), FromBE(value[10..14]), FromU64(FromBE(value[14..22])),
                         FromU64(FromBE(value[22..30])), FromU64(FromBE(value[30..38])), FromU64(FromBE(value[38..46])),
                         FromU64(FromBE(value[46..54])), linkTarget, fingerprint))
  }

  predicate SizesOk(value: Bytes, pos: nat, count: nat)
    requires pos + CHUNK_LEN * count <= |value|
  {
    forall i :: 0 <= i < count ==> FromBE(value[pos + CHUNK_LEN * i + 32..pos + CHUNK_LEN * i + 40]) < TWO63
  }

  function ChunksAt(value: Bytes, pos: nat, count: nat): (r: seq<CatalogChunk>)
    requires pos + CHUNK_LEN * count <= |value| && SizesOk(value, pos, count)
    ensures |r| == count
  {
    seq(count, i requires 0 <= i < count =>
      CatalogChunk(value[pos + CHUNK_LEN * i..pos + CHUNK_LEN * i + 32], FromBE(value[pos + CHUNK_LEN * i + 32..pos + CHUNK_LEN * i + 40])))
  }

  /** What the decoder makes of any bytes. */
  function DecodeFile(value: Bytes): (r: Option<FileValue>)
  {
    if |value| < FIXED_LEN then None else
    match PrefixedAt(value, FIXED_LEN)
    case None => None
    case Some(link) =>
      match PrefixedAt(value, link.next)
      case None => None
      case Some(fingerprint) =>
        match UvarintAt(value, fingerprint.next, 0)
        case None => None
        case Some(count) =>
          match FixedAt(value, link.value, fingerprint.value)
          case None => None
          case Some(record) =>
            if count.next + CHUNK_LEN * count.value != |value| || !SizesOk(value, count.next, count.value) then None
            else Some(FileValue(record, ChunksAt(value, count.next, count.value)))
  }

  /** The whole decoder: the readers one after the other, then the loop over the chunks. */
  method DecodePebbleFileValue(value: Bytes) returns (r: Option<FileValue>)
    ensures r == DecodeFile(value)
  {
    hide UvarintAt, FixedAt, ChunksAt;
    if |value| < FIXED_LEN { return None; }
    var link, afterLink, linkOk := ReadLengthPrefixedBytes(value, FIXED_LEN);
    if !linkOk { return None; }
    var fingerprint, afterFingerprint, fingerprintOk := ReadLengthPrefixedBytes(value, afterLink);
    if !fingerprintOk { return None; }
    var count, start, countOk := ReadUvarint(value, afterFingerprint);
    if !countOk { return None; }
    var record := FixedAt(value, link, fingerprint);
    if record.None? || count > (|value| - start) / CHUNK_LEN { return None; }
    var chunks, offset := [], start;
    for i := 0 to count
      invariant offset == start + CHUNK_LEN * i && offset + CHUNK_LEN * (count - i) <= |value|
      invariant SizesOk(value, start, i) && chunks == ChunksAt(value, start, i)
    {
      var originalSize := FromBE(value[offset + 32..offset + 40]);
      if originalSize >= TWO63 { return None; }
      ghost var before := chunks;
      chunks := chunks + [CatalogChunk(value[offset..offset + 32], originalSize)];
      NextChunk(value, start, i);
      offset := offset + CHUNK_LEN;
    }
    if offset != |value| { return None; }
    r := Some(FileValue(record.value, chunks));
  }

  lemma NextChunk(value: Bytes, pos: nat, i: nat)
    requires pos + CHUNK_LEN * (i + 1) <= |value| && SizesOk(value, pos, i)
    requires FromBE(value[pos + CHUNK_LEN * i + 32..pos + CHUNK_LEN * i + 40]) < TWO63
    ensures SizesOk(value, pos, i + 1)
    ensures ChunksAt(value, pos, i + 1) == ChunksAt(value, pos, i)
      + [CatalogChunk(value[pos + CHUNK_LEN * i..pos + CHUNK_LEN * i + 32], FromBE(value[pos + CHUNK_LEN * i + 32..pos + CHUNK_LEN * i + 40]))]
  {
  }

  // ---- round trip ----

  lemma FixedRoundTrip(value: Bytes, r: FileRecord)
    requires KindCode(r.kind).Some? && r.size >= 0 && 0 <= r.mode < TWO32
    requires At(value, 0, Fixed(r))
    ensures FixedAt(value, r.linkTarget, r.fingerprint) == Some(r)
  {
    var b := Fixed(r);
    assert b[2..10] == BE(r.size, 8) && b[10..14] == BE(r.mode, 4) && b[14..22] == BE(ToU64(r.uid), 8);
    assert b[22..30] == BE(ToU64(r.gid), 8) && b[30..38] == BE(ToU64(r.mtimeNS), 8);
    assert b[38..46] == BE(ToU64(r.dev), 8) && b[46..54] == BE(ToU64(r.inode), 8);
    BE8(r.size); BE4(r.mode); BE8(ToU64(r.uid)); BE8(ToU64(r.gid)); BE8(ToU64(r.mtimeNS)); BE8(ToU64(r.dev)); BE8(ToU64(r.inode));
    SameSlice(value, b, 2, 10); SameSlice(value, b, 10, 14); SameSlice(value, b, 14, 22); SameSlice(value, b, 22, 30);
    SameSlice(value, b, 30, 38); SameSlice(value, b, 38, 46); SameSlice(value, b, 46, 54);
    assert value[0] == b[0] && value[1] == b[1] by { assert value[..|b|][0] == b[0] && value[..|b|][1] == b[1]; }
  }

  lemma SameSlice(value: Bytes, b: Bytes, from: nat, to: nat)
    requires At(value, 0, b) && from <= to <= |b|
    ensures value[from..to] == b[from..to]
  {
    assert value[0..|b|][from..to] == value[from..to];
  }

  lemma {:induction false} ChunksRoundTrip(value: Bytes, pos: nat, chunks: seq<CatalogChunk>)
    requires forall i :: 0 <= i < |chunks| ==> |chunks[i].hash| == 32 && chunks[i].originalSize >= 0
    requires At(value, pos, ChunksBytes(chunks))
    ensures SizesOk(value, pos, |chunks|) && ChunksAt(value, pos, |chunks|) == chunks
    decreases |chunks|
  {
    if chunks != [] {
      var n := |chunks| - 1;
      AtParts(value, pos, ChunksBytes(chunks[..n]), ChunkBytes(chunks[n]));
      AtParts(value, pos + CHUNK_LEN * n, chunks[n].hash, BE(chunks[n].originalSize, 8));
      ChunksRoundTrip(value, pos, chunks[..n]);
      BE8(chunks[n].originalSize);
      NextChunk(value, pos, n);
    }
  }

  /** Lengths of Go values fit in an int. */
  predicate InMemory(v: FileValue) {
    |v.record.linkTarget| < TWO63 && |v.record.fingerprint| < TWO63 && |v.chunks| < TWO63
  }

  /** Decoding undoes encoding on every record the encoder accepts. */
  lemma FileRoundTrip(v: FileValue)
    requires InMemory(v) && EncodeFile(v).Some?
    ensures DecodeFile(EncodeFile(v).value) == Some(v)
  {
    hide Uvarint, UvarintAt, At, Prefixed, PrefixedAt, Fixed, FixedAt, ChunksBytes, SizesOk, ChunksAt;
    var r, value := v.record, FileBytes(v);
    var link, mark, count, chunks := Prefixed(r.linkTarget), Prefixed(r.fingerprint), Uvarint(|v.chunks|), ChunksBytes(v.chunks);
    assert value == Fixed(r) + (link + (mark + (count + chunks)));
    AtStart(value);
    AtParts(value, 0, Fixed(r), link + (mark + (count + chunks)));
    AtParts(value, FIXED_LEN, link, mark + (count + chunks));
    AtParts(value, FIXED_LEN + |link|, mark, count + chunks);
    AtParts(value, FIXED_LEN + |link| + |mark|, count, chunks);
    FixedRoundTrip(value, r);
    PrefixedReads(value, FIXED_LEN, r.linkTarget);
    PrefixedReads(value, FIXED_LEN + |link|, r.fingerprint);
    RoomForAll();
    UvarintReads(value, FIXED_LEN + |link| + |mark|, 0, |v.chunks|);
    ChunksRoundTrip(value, FIXED_LEN + |link| + |mark| + |count|, v.chunks);
  }

  /** Whatever bytes decode, decode to a record the encoder takes, and survive being written again. */
  lemma DecodedIsStable(value: Bytes)
    requires |value| < TWO63 && DecodeFile(value).Some?
    ensures EncodeFile(DecodeFile(value).value).Some?
    ensures DecodeFile(EncodeFile(DecodeFile(value).value).value) == DecodeFile(value)
  {
    hide UvarintAt, Uvarint, Fixed, ChunksBytes, Prefixed;
    var v := DecodeFile(value).value;
    var link := PrefixedAt(value, FIXED_LEN).value;
    var mark := PrefixedAt(value, link.next).value;
    assert |v.record.linkTarget| <= |value| && |v.record.fingerprint| <= |value| && |v.chunks| <= |value|;
    FileRoundTrip(v);
  }
}
