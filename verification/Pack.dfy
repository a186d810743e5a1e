/** TBKPACK1: many small files in one blob, found again through the index at its head. */
module Pack {
  import opened Base
  import opened Endian

  const MAGIC: Bytes := [0x54, 0x42, 0x4B, 0x50, 0x41, 0x43, 0x4B, 0x31, 0x0A]  // "TBKPACK1\n"
  const SLASH: byte := 0x2F
  const DOT: byte := 0x2E

  datatype PackFile = PackFile(path: Bytes, mode: uint32, mtimeNS: int64, data: Bytes)

  datatype PackIndex = PackIndex(
    path: Bytes, originalSize: int64, offset: int64, length: int64, mode: uint32, mtimeNS: int64)

  datatype PackFileRef = PackFileRef(id: Bytes, offset: int64, length: int64)

  datatype PackError =
    | NoFiles | TooManyFiles | TooLarge | InvalidPath | EmptyFile | PathTooLong
    | ShortMagic | BadMagic | ShortHeader | BadPathLength
    | SizeMismatch | OutOfBounds | PointsIntoHeader

  /** A path between its slashes. */
  function Components(path: Bytes): (r: seq<Bytes>)
    ensures r != []
  {
    if path == [] then [[]]
    else
      var rest := Components(path[1..]);
      if path[0] == SLASH then [[]] + rest else [[path[0]] + rest[0]] + rest[1..]
  }

  /** No part is empty or ".", and ".." stands only at the front (`leading`: all parts so far were ".."). */
  predicate CleanParts(parts: seq<Bytes>, leading: bool) {
    parts == [] ||
    (&& parts[0] != [] && parts[0] != [DOT]
     && (parts[0] == [DOT, DOT] ==> leading)
     && CleanParts(parts[1..], leading && parts[0] == [DOT, DOT]))
  }

  /** The paths that cleanManifestPath leaves as they are, the root "." excepted. */
  predicate IsClean(path: Bytes) { CleanParts(Components(path), true) }

  // ---- what the encoder produces ----

  function EntryLen(path: Bytes): nat { 4 + |path| + 8 + 8 + 8 + 4 + 8 }

  function HeaderLen(files: seq<PackFile>): (n: nat) {
    if files == [] then |MAGIC| + 4 else HeaderLen(files[..|files| - 1]) + EntryLen(files[|files| - 1].path)
  }

  function Datas(files: seq<PackFile>): (r: seq<Bytes>)
    ensures |r| == |files|
  {
    seq(|files|, i requires 0 <= i < |files| => files[i].data)
  }

  /** The bytes of the files that come before file `i`. */
  function DataBefore(files: seq<PackFile>, i: nat): nat
    requires i <= |files|
  {
    |Flatten(Datas(files)[..i])|
  }

  function PackLen(files: seq<PackFile>): nat { HeaderLen(files) + |Flatten(Datas(files))| }

  function FileError(file: PackFile): Option<PackError> {
    if !IsClean(file.path) then Some(InvalidPath)
    else if file.data == [] then Some(EmptyFile)
    else if |file.path| >= TWO32 then Some(PathTooLong)
    else None
  }

  function FirstError(files: seq<PackFile>): Option<PackError> {
    if files == [] then None
    else if FileError(files[0]).Some? then FileError(files[0])
    else FirstError(files[1..])
  }

  /** Each file's data follows the data of the files before it, after the header. */
  function IndexOf(files: seq<PackFile>, i: nat): PackIndex
    requires i < |files| && PackLen(files) < TWO63
  {
    var file := files[i];
    FlattenAt(Datas(files), i);
    PackIndex(file.path, |file.data|, HeaderLen(files) + DataBefore(files, i), |file.data|, file.mode, file.mtimeNS)
  }

  function Indexes(files: seq<PackFile>): (r: seq<PackIndex>)
    requires PackLen(files) < TWO63
    ensures |r| == |files|
  {
    seq(|files|, i requires 0 <= i < |files| => IndexOf(files, i))
  }

  function EncodeIndex(index: PackIndex): (r: Bytes)
    ensures |r| == EntryLen(index.path)
  {
    BE(|index.path|, 4) + index.path
    + BE(ToU64(index.originalSize), 8) + BE(ToU64(index.offset), 8) + BE(ToU64(index.length), 8)
    + BE(index.mode, 4) + BE(ToU64(index.mtimeNS), 8)
  }

  function EncodeAll(indexes: seq<PackIndex>): (r: seq<Bytes>)
    ensures |r| == |indexes|
  {
    seq(|indexes|, i requires 0 <= i < |indexes| => EncodeIndex(indexes[i]))
  }

  function PackBytes(files: seq<PackFile>): Bytes
    requires PackLen(files) < TWO63
  {
    MAGIC + BE(|files|, 4) + Flatten(EncodeAll(Indexes(files))) + Flatten(Datas(files))
  }

  /** `TooLarge` stands for running out of memory: a Go slice cannot hold 2^63 bytes. */
  function EncodeSpec(files: seq<PackFile>): Result<(Bytes, seq<PackIndex>), PackError> {
    if files == [] then Err(NoFiles)
    else if |files| >= TWO32 then Err(TooManyFiles)
    else if FirstError(files).Some? then Err(FirstError(files).value)
    else if PackLen(files) >= TWO63 then Err(TooLarge)
    else Ok((PackBytes(files), Indexes(files)))
  }

  lemma {:induction false} NoFileError(files: seq<PackFile>)
    ensures FirstError(files).None? <==> forall i :: 0 <= i < |files| ==> FileError(files[i]).None?
  {
    hide FileError;
    if files != [] {
      NoFileError(files[1..]);
      assert files == [files[0]] + files[1..];
    }
  }

  lemma {:induction false} LenAppend(a: seq<PackFile>, b: seq<PackFile>)
    ensures PackLen(a) <= PackLen(a + b) && PackLen(b) <= PackLen(a + b)
  {
    hide Flatten;
    HeaderAppend(a, b);
    FlattenAppend(Datas(a), Datas(b));
    assert Datas(a + b) == Datas(a) + Datas(b);
  }

  lemma {:induction false} HeaderAppend(a: seq<PackFile>, b: seq<PackFile>)
    ensures HeaderLen(a + b) + |MAGIC| + 4 == HeaderLen(a) + HeaderLen(b) && HeaderLen(b) >= |MAGIC| + 4
  {
    if b == [] {
      assert a + b == a;
    } else {
      var n := |b| - 1;
      HeaderAppend(a, b[..n]);
      assert (a + b)[..|a| + n] == a + b[..n];
    }
  }

  /** Whatever may be one pack may be cut into several. */
  lemma PartEncodes(files: seq<PackFile>, i: nat, j: nat)
    requires i < j <= |files| && EncodeSpec(files).Ok?
    ensures EncodeSpec(files[i..j]).Ok? && EncodeSpec(files[i..j]).value.0 != []
  {
    hide FirstError, PackLen, FileError;
    NoFileError(files);
    NoFileError(files[i..j]);
    LenAppend(files[..i], files[i..]);
    assert files[..i] + files[i..] == files;
    LenAppend(files[i..j], files[j..]);
    assert files[i..j] + files[j..] == files[i..];
  }

  // ---- what the decoder accepts ----

  /** The range checks, on the unsigned numbers as they were stored. */
  function CheckIndex(path: Bytes, originalSize: nat, offset: nat, length: nat, mode: uint32, mtime: int64, size: nat)
    : (r: Result<PackIndex, PackError>)
    ensures r.Ok? ==> IsClean(path) && r.value.path == path && r.value.originalSize == r.value.length
    ensures r.Ok? && size < TWO63 ==>
      0 <= r.value.offset && 0 <= r.value.length && r.value.offset + r.value.length <= size
  {
    var end := (offset + length) % TWO64;  // uint64 addition
    if !IsClean(path) then Err(InvalidPath) else
    if originalSize != length then Err(SizeMismatch) else
    if offset > size || length > size || end > size || end < offset then Err(OutOfBounds) else
    if offset >= TWO63 || length >= TWO63 then Err(TooLarge) else
    Ok(PackIndex(path, originalSize, offset, length, mode, mtime))
  }

  function U32At(data: Bytes, at: nat): (n: uint32)
    requires at + 4 <= |data|
  {
    Widths(); FromBEBound(data[at..at + 4]);
    FromBE(data[at..at + 4])
  }

  function U64At(data: Bytes, at: nat): (n: nat)
    requires at + 8 <= |data|
    ensures n < TWO64
  {
    FromBE8Bound(data[at..at + 8]);
    FromBE(data[at..at + 8])
  }

  datatype Entry = Entry(index: PackIndex, next: nat)

  /** One index entry at `pos`, with the position after it. */
  function DecodeEntry(data: Bytes, pos: nat): (r: Result<Entry, PackError>)
    requires pos <= |data|
    ensures r.Ok? ==> pos < r.value.next <= |data| && r.value.next == pos + EntryLen(r.value.index.path)
    ensures r.Ok? && |data| < TWO63 ==>
      0 <= r.value.index.offset && 0 <= r.value.index.length && r.value.index.offset + r.value.index.length <= |data|
    ensures r.Ok? ==> r.value.index.originalSize == r.value.index.length && IsClean(r.value.index.path)
  {
    if |data| - pos < 4 then Err(ShortHeader) else
    var pathLen := U32At(data, pos);
    if pathLen == 0 || pathLen > |data| - pos - 4 then Err(BadPathLength) else
    var path, at := data[pos + 4..pos + 4 + pathLen], pos + 4 + pathLen;
    if !IsClean(path) then Err(InvalidPath) else
    if |data| - at < 36 then Err(ShortHeader) else
    match CheckIndex(path, U64At(data, at), U64At(data, at + 8), U64At(data, at + 16),
                     U32At(data, at + 24), FromU64(U64At(data, at + 28)), |data|)
    case Err(e) => Err(e)
    case Ok(index) => Ok(Entry(index, at + 36))
  }

  datatype Entries = Entries(indexes: seq<PackIndex>, end: nat)

  /** `count` entries from `pos`, one after the other. */
  function DecodeEntries(data: Bytes, pos: nat, count: nat): (r: Result<Entries, PackError>)
    requires pos <= |data|
    decreases count
    ensures r.Ok? ==> |r.value.indexes| == count && pos <= r.value.end <= |data|
  {
    if count == 0 then Ok(Entries([], pos))
    else
      match DecodeEntries(data, pos, count - 1)
      case Err(e) => Err(e)
      case Ok(before) =>
        match DecodeEntry(data, before.end)
        case Err(e) => Err(e)
        case Ok(entry) => Ok(Entries(before.indexes + [entry.index], entry.next))
  }

  lemma {:induction false} FirstErrorStays(data: Bytes, pos: nat, i: nat, count: nat)
    requires pos <= |data| && i <= count && DecodeEntries(data, pos, i).Err?
    ensures DecodeEntries(data, pos, count) == DecodeEntries(data, pos, i)
    decreases count
  {
    if i < count { FirstErrorStays(data, pos, i, count - 1); }
  }

  predicate PastHeader(indexes: seq<PackIndex>, dataStart: nat) {
    forall i :: 0 <= i < |indexes| ==> indexes[i].offset >= dataStart
  }

  function DecodeSpec(data: Bytes): Result<seq<PackIndex>, PackError> {
    if |data| < |MAGIC| then Err(ShortMagic) else
    if data[..|MAGIC|] != MAGIC then Err(BadMagic) else
    if |data| < |MAGIC| + 4 then Err(ShortHeader) else
    var count := FromBE(data[|MAGIC|..|MAGIC| + 4]);
    if count == 0 then Err(NoFiles) else
    match DecodeEntries(data, |MAGIC| + 4, count)
    case Err(e) => Err(e)
    case Ok(read) => if PastHeader(read.indexes, read.end) then Ok(read.indexes) else Err(PointsIntoHeader)
  }

  function PackFileBytes(data: Bytes, ref: PackFileRef): Result<Bytes, PackError> {
    var end := WrapInt64(ref.offset + ref.length);
    if ref.offset < 0 || ref.length < 0 || end < ref.offset || end > |data| then Err(OutOfBounds)
    else Ok(data[ref.offset..end])
  }

  // ---- the loops ----

  method CheckFiles(files: seq<PackFile>) returns (error: Option<PackError>, headerLen: nat)
    ensures error == FirstError(files)
    ensures error.None? ==> headerLen == HeaderLen(files)
  {
    headerLen := |MAGIC| + 4;
    for i := 0 to |files|
      invariant headerLen == HeaderLen(files[..i])
      invariant FirstError(files) == FirstError(files[i..])
    {
      assert files[..i + 1][..i] == files[..i];
      assert files[i..][0] == files[i] && files[i..][1..] == files[i + 1..];
      if !IsClean(files[i].path) { return Some(InvalidPath), headerLen; }
      if |files[i].data| == 0 { return Some(EmptyFile), headerLen; }
      if |files[i].path| >= TWO32 { return Some(PathTooLong), headerLen; }
      headerLen := headerLen + EntryLen(files[i].path);
    }
    assert files[..|files|] == files;
    error := None;
  }

  method AssignOffsets(files: seq<PackFile>, headerLen: nat) returns (r: Option<seq<PackIndex>>)
    requires headerLen == HeaderLen(files)
    ensures r == if PackLen(files) < TWO63 then Some(Indexes(files)) else None
  {
    var datas, size := Datas(files), headerLen;
    for i := 0 to |files|
      invariant size == headerLen + |Flatten(datas[..i])|
    {
      FlattenAt(datas, i);
      size := size + |files[i].data|;
    }
    assert datas[..|files|] == datas;
    if size >= TWO63 { return None; }
    var indexes: seq<PackIndex>, offset := [], headerLen;
    for i := 0 to |files|
      invariant offset == headerLen + |Flatten(datas[..i])|
      invariant |indexes| == i && indexes == Indexes(files)[..i]
    {
      FlattenAt(datas, i);
      indexes := indexes + [PackIndex(files[i].path, |files[i].data|, offset, |files[i].data|, files[i].mode, files[i].mtimeNS)];
      offset := offset + |files[i].data|;
    }
    assert Indexes(files)[..|files|] == Indexes(files);
    r := Some(indexes);
  }

  method WriteBlob(files: seq<PackFile>, indexes: seq<PackIndex>) returns (buf: Bytes)
    ensures buf == MAGIC + BE(|files|, 4) + Flatten(EncodeAll(indexes)) + Flatten(Datas(files))
  {
    buf := MAGIC + BE(|files|, 4);
    for i := 0 to |indexes|
      invariant buf == MAGIC + BE(|files|, 4) + Flatten(EncodeAll(indexes)[..i])
    {
      FlattenSnoc(EncodeAll(indexes)[..i], EncodeIndex(indexes[i]));
      assert EncodeAll(indexes)[..i + 1] == EncodeAll(indexes)[..i] + [EncodeIndex(indexes[i])];
      buf := buf + EncodeIndex(indexes[i]);
    }
    assert EncodeAll(indexes)[..|indexes|] == EncodeAll(indexes);
    ghost var header := buf;
    for i := 0 to |files|
      invariant buf == header + Flatten(Datas(files)[..i])
    {
      FlattenSnoc(Datas(files)[..i], files[i].data);
      assert Datas(files)[..i + 1] == Datas(files)[..i] + [files[i].data];
      buf := buf + files[i].data;
    }
    assert Datas(files)[..|files|] == Datas(files);
  }

  method EncodePack(files: seq<PackFile>) returns (r: Result<(Bytes, seq<PackIndex>), PackError>)
    ensures r == EncodeSpec(files)
  {
    if |files| == 0 { return Err(NoFiles); }
    if |files| >= TWO32 { return Err(TooManyFiles); }
    var error, headerLen := CheckFiles(files);
    if error.Some? { return Err(error.value); }
    var placed := AssignOffsets(files, headerLen);
    if placed.None? { return Err(TooLarge); }
    var buf := WriteBlob(files, placed.value);
    r := Ok((buf, placed.value));
  }

  method ReadEntries(data: Bytes, start: nat, count: nat) returns (r: Result<Entries, PackError>)
    requires start <= |data|
    ensures r == DecodeEntries(data, start, count)
  {
    var indexes: seq<PackIndex> := [];
    var pos: nat := start;
    for i := 0 to count
      invariant pos <= |data| && DecodeEntries(data, start, i) == Ok(Entries(indexes, pos))
    {
      var entry := DecodeEntry(data, pos);
      if entry.Err? {
        FirstErrorStays(data, start, i + 1, count);
        return Err(entry.error);
      }
      indexes, pos := indexes + [entry.value.index], entry.value.next;
    }
    r := Ok(Entries(indexes, pos));
  }

  method DecodePackIndex(data: Bytes) returns (r: Result<seq<PackIndex>, PackError>)
    ensures r == DecodeSpec(data)
  {
    hide DecodeEntries;
    if |data| < |MAGIC| { return Err(ShortMagic); }
    if data[..|MAGIC|] != MAGIC { return Err(BadMagic); }
    if |data| < |MAGIC| + 4 { return Err(ShortHeader); }
    var count := FromBE(data[|MAGIC|..|MAGIC| + 4]);
    if count == 0 { return Err(NoFiles); }
    var read := ReadEntries(data, |MAGIC| + 4, count);
    if read.Err? { return Err(read.error); }
    var Entries(indexes, dataStart) := read.value;
    for i := 0 to |indexes|
      invariant PastHeader(indexes[..i], dataStart)
    {
      if indexes[i].offset < dataStart { return Err(PointsIntoHeader); }
    }
    assert indexes[..|indexes|] == indexes;
    r := Ok(indexes);
  }

  // ---- what a pack is for ----

  lemma EmptyIsNotClean()
    ensures !IsClean([])
  {
    assert Components([]) == [[]];
  }

  lemma {:induction false} NoErrorAnywhere(files: seq<PackFile>, i: nat)
    requires FirstError(files).None? && i < |files|
    ensures FileError(files[i]).None?
  {
    if i > 0 { NoErrorAnywhere(files[1..], i - 1); }
  }

  lemma Within(data: Bytes, pos: nat, part: Bytes, a: nat, b: nat)
    requires pos + |part| <= |data| && data[pos..pos + |part|] == part && a <= b <= |part|
    ensures data[pos + a..pos + b] == part[a..b]
  {
    forall i | 0 <= i < b - a ensures data[pos + a..pos + b][i] == part[a..b][i] {
      assert data[pos..pos + |part|][a + i] == data[pos + a + i];
    }
  }

  lemma EncodedFields(index: PackIndex)
    ensures var n, e := |index.path|, EncodeIndex(index);
      && |e| == EntryLen(index.path) && e[..4] == BE(n, 4) && e[4..4 + n] == index.path
      && e[4 + n..12 + n] == BE(ToU64(index.originalSize), 8) && e[12 + n..20 + n] == BE(ToU64(index.offset), 8)
      && e[20 + n..28 + n] == BE(ToU64(index.length), 8) && e[28 + n..32 + n] == BE(index.mode, 4)
      && e[32 + n..40 + n] == BE(ToU64(index.mtimeNS), 8)
  {
    hide BE, ToU64;
  }

  lemma IndexFields(data: Bytes, pos: nat, index: PackIndex)
    requires pos + EntryLen(index.path) <= |data|
    requires data[pos..pos + EntryLen(index.path)] == EncodeIndex(index)
    ensures var at := pos + 4 + |index.path|;
      && data[pos..pos + 4] == BE(|index.path|, 4) && data[pos + 4..at] == index.path
      && data[at..at + 8] == BE(ToU64(index.originalSize), 8) && data[at + 8..at + 16] == BE(ToU64(index.offset), 8)
      && data[at + 16..at + 24] == BE(ToU64(index.length), 8) && data[at + 24..at + 28] == BE(index.mode, 4)
      && data[at + 28..at + 36] == BE(ToU64(index.mtimeNS), 8)
  {
    hide EncodeIndex, BE, ToU64;
    var n, e := |index.path|, EncodeIndex(index);
    EncodedFields(index);
    Within(data, pos, e, 0, 4); Within(data, pos, e, 4, 4 + n);
    Within(data, pos, e, 4 + n, 12 + n); Within(data, pos, e, 12 + n, 20 + n); Within(data, pos, e, 20 + n, 28 + n);
    Within(data, pos, e, 28 + n, 32 + n); Within(data, pos, e, 32 + n, 40 + n);
  }

  /** An entry that was written is read back, wherever it stands in the blob. */
  lemma EntryRoundTrip(data: Bytes, pos: nat, index: PackIndex)
    requires pos + EntryLen(index.path) <= |data| < TWO63
    requires data[pos..pos + EntryLen(index.path)] == EncodeIndex(index)
    requires IsClean(index.path) && |index.path| < TWO32
    requires 0 <= index.offset && 0 <= index.length == index.originalSize
    requires index.offset + index.length <= |data|
    ensures DecodeEntry(data, pos) == Ok(Entry(index, pos + EntryLen(index.path)))
  {
    IndexFields(data, pos, index);
    BE4(|index.path|); BE4(index.mode);
    BE8(ToU64(index.originalSize)); BE8(ToU64(index.offset)); BE8(ToU64(index.length)); BE8(ToU64(index.mtimeNS));
    EmptyIsNotClean();
  }

  predicate Encodable(index: PackIndex, size: nat) {
    && IsClean(index.path) && |index.path| < TWO32
    && 0 <= index.offset && 0 <= index.length == index.originalSize && index.offset + index.length <= size
  }

  lemma PartRoundTrip(data: Bytes, pos: nat, indexes: seq<PackIndex>, i: nat)
    requires i < |indexes| && |data| < TWO63 && pos + |Flatten(EncodeAll(indexes))| <= |data|
    requires data[pos..pos + |Flatten(EncodeAll(indexes))|] == Flatten(EncodeAll(indexes))
    requires Encodable(indexes[i], |data|)
    ensures var a, b := pos + |Flatten(EncodeAll(indexes)[..i])|, pos + |Flatten(EncodeAll(indexes)[..i + 1])|;
      a <= b <= |data| && DecodeEntry(data, a) == Ok(Entry(indexes[i], b))
  {
    hide DecodeEntry, EncodeIndex;
    var parts := EncodeAll(indexes);
    var a, b := |Flatten(parts[..i])|, |Flatten(parts[..i + 1])|;
    FlattenAt(parts, i);
    Within(data, pos, Flatten(parts), a, b);
    assert parts[i] == EncodeIndex(indexes[i]);
    EntryRoundTrip(data, pos + a, indexes[i]);
  }

  lemma {:induction false} EntriesRoundTrip(data: Bytes, pos: nat, indexes: seq<PackIndex>, n: nat)
    requires n <= |indexes| && |data| < TWO63 && pos + |Flatten(EncodeAll(indexes))| <= |data|
    requires data[pos..pos + |Flatten(EncodeAll(indexes))|] == Flatten(EncodeAll(indexes))
    requires forall i :: 0 <= i < |indexes| ==> Encodable(indexes[i], |data|)
    ensures DecodeEntries(data, pos, n) == Ok(Entries(indexes[..n], pos + |Flatten(EncodeAll(indexes)[..n])|))
  {
    hide DecodeEntry, EncodeIndex, IsClean;
    if n > 0 {
      EntriesRoundTrip(data, pos, indexes, n - 1);
      PartRoundTrip(data, pos, indexes, n - 1);
      assert indexes[..n] == indexes[..n - 1] + [indexes[n - 1]];
    }
  }

  lemma {:induction false} HeaderSize(files: seq<PackFile>, n: nat)
    requires n <= |files| && PackLen(files) < TWO63
    ensures |MAGIC| + 4 + |Flatten(EncodeAll(Indexes(files))[..n])| == HeaderLen(files[..n])
  {
    if n > 0 {
      HeaderSize(files, n - 1);
      FlattenAt(EncodeAll(Indexes(files)), n - 1);
      assert files[..n][..n - 1] == files[..n - 1];
    }
  }

  lemma {:induction false} DataInOrder(files: seq<PackFile>, i: nat, j: nat)
    requires i < j <= |files|
    ensures DataBefore(files, i) + |files[i].data| <= DataBefore(files, j)
    decreases j
  {
    FlattenAt(Datas(files), j - 1);
    if i < j - 1 { DataInOrder(files, i, j - 1); }
  }

  /** The layout of a pack: the header, then the files' data end to end in the order given. */
  lemma PackLayout(files: seq<PackFile>)
    requires EncodeSpec(files).Ok?
    ensures var bytes, indexes := PackBytes(files), Indexes(files);
      && |bytes| == PackLen(files)
      && (forall i :: 0 <= i < |indexes| ==>
            HeaderLen(files) <= indexes[i].offset <= indexes[i].offset + indexes[i].length <= |bytes|)
      && (forall i, j :: 0 <= i < j < |indexes| ==> indexes[i].offset + indexes[i].length <= indexes[j].offset)
  {
    assert EncodeAll(Indexes(files))[..|files|] == EncodeAll(Indexes(files)) && files[..|files|] == files;
    HeaderSize(files, |files|);
    forall i | 0 <= i < |files| ensures DataBefore(files, i) + |files[i].data| <= |Flatten(Datas(files))| {
      FlattenAt(Datas(files), i);
    }
    forall i, j | 0 <= i < j < |files| ensures DataBefore(files, i) + |files[i].data| <= DataBefore(files, j) {
      DataInOrder(files, i, j);
    }
  }

  lemma HeaderFields(count: nat, e: Bytes, rest: Bytes)
    requires 0 < count < TWO32
    ensures var data := MAGIC + BE(count, 4) + e + rest;
      data[..9] == MAGIC && FromBE(data[9..13]) == count && data[13..13 + |e|] == e
  {
    BE4(count);
    assert (MAGIC + BE(count, 4) + e + rest)[9..13] == BE(count, 4);
  }

  /** The decoder recovers exactly the index the encoder returned. */
  lemma PackRoundTrip(files: seq<PackFile>)
    requires EncodeSpec(files).Ok?
    ensures DecodeSpec(EncodeSpec(files).value.0) == Ok(EncodeSpec(files).value.1)
  {
    hide DecodeEntry, EncodeIndex, DecodeEntries;
    var data, indexes := PackBytes(files), Indexes(files);
    PackLayout(files);
    HeaderSize(files, |files|);
    assert EncodeAll(indexes)[..|files|] == EncodeAll(indexes) && files[..|files|] == files;
    assert indexes[..|files|] == indexes;
    HeaderFields(|files|, Flatten(EncodeAll(indexes)), Flatten(Datas(files)));
    forall i | 0 <= i < |indexes| ensures Encodable(indexes[i], |data|) { NoErrorAnywhere(files, i); }
    EntriesRoundTrip(data, 13, indexes, |files|);
  }

  lemma Shift(head: Bytes, tail: Bytes, a: nat, b: nat)
    requires a <= b <= |tail|
    ensures (head + tail)[|head| + a..|head| + b] == tail[a..b]
  {
  }

  /** Each file's range holds that file's bytes. */
  lemma PackedBytesAreTheFiles(files: seq<PackFile>, i: nat, id: Bytes)
    requires EncodeSpec(files).Ok? && i < |files|
    ensures var (bytes, indexes) := EncodeSpec(files).value;
      PackFileBytes(bytes, PackFileRef(id, indexes[i].offset, indexes[i].length)) == Ok(files[i].data)
  {
    hide FirstError, EncodeAll, BE;
    PackLayout(files);
    FlattenAt(Datas(files), i);
    var a := DataBefore(files, i);
    Shift(MAGIC + BE(|files|, 4) + Flatten(EncodeAll(Indexes(files))), Flatten(Datas(files)), a, a + |files[i].data|);
  }

  lemma {:induction false} EntriesInBounds(data: Bytes, pos: nat, count: nat)
    requires pos <= |data| < TWO63 && DecodeEntries(data, pos, count).Ok?
    ensures forall index :: index in DecodeEntries(data, pos, count).value.indexes ==>
      && 0 <= index.offset <= index.offset + index.length <= |data|
      && index.length == index.originalSize && IsClean(index.path)
  {
    if count > 0 { EntriesInBounds(data, pos, count - 1); }
  }

  /** Whatever the bytes are, an accepted index has only ranges inside the blob and past its header. */
  lemma AcceptedIndexIsSafe(data: Bytes)
    requires |data| < TWO63 && DecodeSpec(data).Ok?
    ensures forall index :: index in DecodeSpec(data).value ==>
      && |MAGIC| + 4 <= index.offset <= index.offset + index.length <= |data|
      && index.length == index.originalSize && IsClean(index.path)
  {
    EntriesInBounds(data, |MAGIC| + 4, FromBE(data[|MAGIC|..|MAGIC| + 4]));
  }

  /** PackFileBytes serves every range inside the blob, and nothing else. */
  lemma PackFileBytesExactly(data: Bytes, ref: PackFileRef)
    requires |data| < TWO63
    ensures PackFileBytes(data, ref) ==
      if 0 <= ref.offset && 0 <= ref.length && ref.offset + ref.length <= |data|
      then Ok(data[ref.offset..ref.offset + ref.length]) else Err(OutOfBounds)
  {
  }
}
