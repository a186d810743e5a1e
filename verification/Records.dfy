/** The on-disk record that holds one chunk: a checked header, then the sealed payload. */
module Records {
  import opened Base
  import opened Endian

  /** The primitives the store is built on. Their code is elsewhere; `Sound` says what is assumed. */
  datatype Crypto = Crypto(
    hash: Bytes -> Hash,
    compress: Bytes -> Bytes,
    decompress: Bytes -> Option<Bytes>,
    seal: (Bytes, Bytes, Bytes) -> Bytes,            // nonce, plaintext, associated data
    open: (Bytes, Bytes, Bytes) -> Option<Bytes>)
  {
    ghost predicate Sound() {
      && (forall x {:trigger hash(x)} :: |hash(x)| == 32)
      && (forall x {:trigger compress(x)} :: decompress(compress(x)) == Some(x))
      && (forall n, p, a {:trigger seal(n, p, a)} :: open(n, seal(n, p, a), a) == Some(p))
    }

    /** Go slice lengths are ints, so every length a record header stores is below 2^63. */
    ghost predicate Storable(data: Bytes) {
      && |data| < TWO63 && |compress(data)| < TWO63
      && forall n {:trigger seal(n, compress(data), hash(data))} :: |seal(n, compress(data), hash(data))| < TWO63
    }
  }

  const MAGIC: Bytes := [0x54, 0x42, 0x4B, 0x52, 0x45, 0x43, 0x31, 0x0A]  // "TBKREC1\n"
  const HEADER_LEN := 116
  const PREFIX_LEN := 84
  const VERSION := 1
  const FLAGS := 3  // compressed and encrypted

  datatype ReadError =
    | SegmentMissing | ShortRead | ShortRecord | BadMagic | BadHeaderLength | BadVersion | BadFlags
    | HashMismatch | PayloadSizeMismatch | ChecksumMismatch | DecryptFailed | CompressedSizeMismatch
    | DecompressFailed | OriginalSizeMismatch | DataHashMismatch

  function Prefix(hash: Hash, originalSize: nat, compressedSize: nat, payloadSize: nat, nonce: Bytes): (r: Bytes) {
    MAGIC + LE(HEADER_LEN, 2) + LE(VERSION, 2) + LE(FLAGS, 4) + hash
    + LE(originalSize, 8) + LE(compressedSize, 8) + LE(payloadSize, 8) + nonce
  }

  function EncodeRecord(c: Crypto, nonce: Bytes, hash: Hash, data: Bytes): (record: Bytes) {
    var compressed := c.compress(data);
    var payload := c.seal(nonce, compressed, hash);
    var prefix := Prefix(hash, |data|, |compressed|, |payload|, nonce);
    prefix + c.hash(prefix + payload) + payload
  }

  /** What the reader makes of the bytes of one record that a ref with digest `want` points at. */
  function DecodeRecord(c: Crypto, want: Hash, record: Bytes): (r: Result<Bytes, ReadError>)
    ensures r.Ok? ==> c.hash(r.value) == want
  {
    if |record| < HEADER_LEN then Err(ShortRecord) else
    var prefix, stored, payload := record[..PREFIX_LEN], record[PREFIX_LEN..HEADER_LEN], record[HEADER_LEN..];
    if prefix[..8] != MAGIC then Err(BadMagic) else
    if FromLE(prefix[8..10]) != HEADER_LEN then Err(BadHeaderLength) else
    if FromLE(prefix[10..12]) != VERSION then Err(BadVersion) else
    if FromLE(prefix[12..16]) % 4 != FLAGS then Err(BadFlags) else
    var hash := prefix[16..48];
    if hash != want then Err(HashMismatch) else
    if FromLE(prefix[64..72]) != |payload| then Err(PayloadSizeMismatch) else
    if c.hash(prefix + payload) != stored then Err(ChecksumMismatch) else
    match c.open(prefix[72..84], payload, hash)
    case None => Err(DecryptFailed)
    case Some(compressed) =>
      if FromLE(prefix[56..64]) != |compressed| then Err(CompressedSizeMismatch) else
      match c.decompress(compressed)
      case None => Err(DecompressFailed)
      case Some(data) =>
        if FromLE(prefix[48..56]) != |data| then Err(OriginalSizeMismatch) else
        if c.hash(data) != hash then Err(DataHashMismatch) else
        Ok(data)
  }

  lemma PrefixFields(hash: Hash, o: nat, z: nat, p: nat, nonce: Bytes)
    requires |hash| == 32 && |nonce| == 12
    ensures var b := Prefix(hash, o, z, p, nonce);
      && |b| == PREFIX_LEN && b[..8] == MAGIC
      && b[8..10] == LE(HEADER_LEN, 2) && b[10..12] == LE(VERSION, 2) && b[12..16] == LE(FLAGS, 4)
      && b[16..48] == hash && b[48..56] == LE(o, 8) && b[56..64] == LE(z, 8)
      && b[64..72] == LE(p, 8) && b[72..84] == nonce
  {
  }

  /** Reading back what was written gives the data, whatever nonce was drawn. */
  lemma RecordRoundTrip(c: Crypto, nonce: Bytes, data: Bytes)
    requires c.Sound() && c.Storable(data) && |nonce| == 12
    ensures |EncodeRecord(c, nonce, c.hash(data), data)| >= HEADER_LEN
    ensures DecodeRecord(c, c.hash(data), EncodeRecord(c, nonce, c.hash(data), data)) == Ok(data)
  {
    var hash := c.hash(data);
    var compressed := c.compress(data);
    var payload := c.seal(nonce, compressed, hash);
    var prefix := Prefix(hash, |data|, |compressed|, |payload|, nonce);
    var sum := c.hash(prefix + payload);
    var record := EncodeRecord(c, nonce, hash, data);
    PrefixFields(hash, |data|, |compressed|, |payload|, nonce);
    assert record[..PREFIX_LEN] == prefix && record[PREFIX_LEN..HEADER_LEN] == sum && record[HEADER_LEN..] == payload;
    LE2(HEADER_LEN); LE2(VERSION); LE4(FLAGS);
    LE8(|data|); LE8(|compressed|); LE8(|payload|);
    assert c.open(nonce, payload, hash) == Some(compressed);
  }
}
