/** What any run of writes, rotations, removals and restarts keeps true of the segment files. */
module SegmentHistory {
  import opened Base
  import opened Records
  import opened Segments

  datatype Op =
    | Write(data: Bytes)
    | RotateForMaintenance
    | RemoveExcept(keep: set<int>)
    | Reopen

  /** One record that was written: the ref handed out for it, its bytes, and the data it holds. */
  datatype Written = Written(ref: ChunkRef, record: Bytes, data: Bytes)

  function Step(env: Env, s: Store, op: Op): (r: (Store, seq<Written>))
    requires s.Valid()
    ensures r.0.Valid()
  {
    match op
    case Write(data) =>
      var w := WriteChunk(env, s, data);
      (w.0, [Written(w.1, Record(env, s, data), data)])
    case RotateForMaintenance => (if |s.segs[s.id]| > 0 then Rotate(s) else s, [])
    case RemoveExcept(keep) => (s.(segs := map k | k in s.segs && k in keep + {s.id} :: s.segs[k]), [])
    case Reopen => (OpenSpec(env, s.segs, s.id, s.written), [])
  }

  function Run(env: Env, ops: seq<Op>): (r: (Store, seq<Written>))
    ensures r.0.Valid()
  {
    if ops == [] then (OpenSpec(env, map[], 1, 0), [])
    else
      var n := |ops| - 1;
      var before := Run(env, ops[..n]);
      var last := Step(env, before.0, ops[n]);
      (last.0, before.1 + last.1)
  }

  /** The records of one file, in the order they were written. */
  function InFile(log: seq<Written>, id: int): (r: seq<Written>)
    ensures forall w :: w in r ==> w in log
  {
    if log == [] then []
    else
      var n := |log| - 1;
      InFile(log[..n], id) + (if log[n].ref.segment == id then [log[n]] else [])
  }

  /** The records cover the file: each starts where the one before ended, the first at 0, the last at the end. */
  predicate Tiles(records: seq<Written>, file: Bytes) {
    if records == [] then file == []
    else
      var n := |records| - 1;
      var last := records[n];
      && 0 <= last.ref.offset <= |file|
      && last.ref.length == |last.record|
      && file[last.ref.offset..] == last.record
      && Tiles(records[..n], file[..last.ref.offset])
  }

  ghost predicate Faithful(env: Env, w: Written) {
    && w.ref.hash == env.crypto.hash(w.data)
    && DecodeRecord(env.crypto, w.ref.hash, w.record) == Ok(w.data)
  }

  predicate FileOk(maxSize: int, records: seq<Written>, file: Bytes) {
    Tiles(records, file) && (|file| <= maxSize || |records| == 1)
  }

  predicate LayoutOk(maxSize: int, s: Store, log: seq<Written>) {
    && s.Valid()
    && s.written == |log|
    && (forall w :: w in log ==> w.ref.segment <= s.id && |w.record| > 0)
    && (forall k :: k in s.segs ==> FileOk(maxSize, InFile(log, k), s.segs[k]))
  }

  ghost predicate HistoryOk(env: Env, s: Store, log: seq<Written>) {
    LayoutOk(env.maxSize, s, log) && forall w :: w in log ==> Faithful(env, w)
  }

  lemma {:induction false} EmptyFile(log: seq<Written>, id: int)
    requires forall w :: w in log ==> w.ref.segment != id
    ensures InFile(log, id) == []
  {
    if log != [] { EmptyFile(log[..|log| - 1], id); }
  }

  lemma {:induction false} InFileHas(log: seq<Written>, i: nat)
    requires i < |log|
    ensures log[i] in InFile(log, log[i].ref.segment)
  {
    var n := |log| - 1;
    if i < n { InFileHas(log[..n], i); }
  }

  lemma RotateKeeps(maxSize: int, s: Store, log: seq<Written>)
    requires maxSize > 0 && LayoutOk(maxSize, s, log)
    ensures LayoutOk(maxSize, Rotate(s), log)
  {
    EmptyFile(log, s.id + 1);
  }

  lemma AppendFile(maxSize: int, records: seq<Written>, file: Bytes, w: Written)
    requires FileOk(maxSize, records, file)
    requires records != [] ==> |records[|records| - 1].record| > 0
    requires w.ref.offset == |file| && w.ref.length == |w.record|
    requires |file| == 0 || |file| + |w.record| <= maxSize
    ensures FileOk(maxSize, records + [w], file + w.record)
  {
    assert (records + [w])[..|records|] == records;
    assert (file + w.record)[..|file|] == file && (file + w.record)[|file|..] == w.record;
  }

  lemma InFileSnoc(log: seq<Written>, w: Written, id: int)
    ensures InFile(log + [w], id) == if w.ref.segment == id then InFile(log, id) + [w] else InFile(log, id)
  {
    assert (log + [w])[..|log|] == log;
  }

  /** Appending a record to the open file, when it fits or the file is empty. */
  lemma AppendKeeps(maxSize: int, s: Store, log: seq<Written>, w: Written)
    requires LayoutOk(maxSize, s, log)
    requires w.ref.segment == s.id && w.ref.offset == |s.segs[s.id]| && w.ref.length == |w.record| > 0
    requires |s.segs[s.id]| == 0 || |s.segs[s.id]| + |w.record| <= maxSize
    ensures LayoutOk(maxSize, Store(s.segs[s.id := s.segs[s.id] + w.record], s.id, s.written + 1), log + [w])
  {
    AppendFile(maxSize, InFile(log, s.id), s.segs[s.id], w);
    forall k { InFileSnoc(log, w, k); }
  }

  lemma WriteKeeps(env: Env, s: Store, log: seq<Written>, data: Bytes)
    requires env.Sound() && env.crypto.Storable(data) && HistoryOk(env, s, log)
    ensures var r := Step(env, s, Write(data)); HistoryOk(env, r.0, log + r.1)
  {
    RecordRoundTrip(env.crypto, env.nonce(s.written), data);
    RotateKeeps(env.maxSize, s, log);
    AppendKeeps(env.maxSize, Placed(env, s, data), log, Step(env, s, Write(data)).1[0]);
  }

  lemma StepKeeps(env: Env, s: Store, log: seq<Written>, op: Op)
    requires env.Sound() && HistoryOk(env, s, log)
    requires op.Write? ==> env.crypto.Storable(op.data)
    ensures var r := Step(env, s, op); HistoryOk(env, r.0, log + r.1)
  {
    match op
    case Write(data) => WriteKeeps(env, s, log, data);
    case RotateForMaintenance => RotateKeeps(env.maxSize, s, log); assert log + [] == log;
    case RemoveExcept(keep) => assert log + [] == log;
    case Reopen =>
      assert log + [] == log;
      RotateKeeps(env.maxSize, s, log);
  }

  ghost predicate AllStorable(env: Env, ops: seq<Op>) {
    forall i :: 0 <= i < |ops| && ops[i].Write? ==> env.crypto.Storable(ops[i].data)
  }

  /** After any run from an empty directory the records tile every file, and no file outgrows
      the limit unless it holds a single record. */
  lemma {:induction false} EveryRunTiles(env: Env, ops: seq<Op>)
    requires env.Sound() && AllStorable(env, ops)
    ensures var r := Run(env, ops); HistoryOk(env, r.0, r.1)
  {
    if ops != [] {
      var n := |ops| - 1;
      EveryRunTiles(env, ops[..n]);
      var before := Run(env, ops[..n]);
      StepKeeps(env, before.0, before.1, ops[n]);
    }
  }

  lemma {:induction false} TileAt(records: seq<Written>, file: Bytes, i: nat)
    requires Tiles(records, file) && i < |records|
    ensures var ref := records[i].ref;
      && 0 <= ref.offset <= ref.offset + ref.length <= |file|
      && ref.offset == (if i == 0 then 0 else records[i - 1].ref.offset + records[i - 1].ref.length)
      && file[ref.offset..ref.offset + ref.length] == records[i].record
  {
    var n := |records| - 1;
    var at := records[n].ref.offset;
    if i < n {
      TileAt(records[..n], file[..at], i);
      var ref := records[i].ref;
      assert file[..at][ref.offset..ref.offset + ref.length] == file[ref.offset..ref.offset + ref.length];
    } else if n > 0 {
      assert Tiles(records[..n], file[..at]);
    }
  }

  lemma ReadsBack(env: Env, s: Store, log: seq<Written>, i: nat)
    requires LayoutOk(env.maxSize, s, log) && i < |log| && Faithful(env, log[i])
    requires log[i].ref.segment in s.segs
    ensures Read(env.crypto, s.segs, log[i].ref) == Ok(log[i].data)
  {
    var w := log[i];
    var records := InFile(log, w.ref.segment);
    InFileHas(log, i);
    var j :| 0 <= j < |records| && records[j] == w;
    TileAt(records, s.segs[w.ref.segment], j);
  }

  /** No gap and no overlap, and every ref ever handed out reads back the data it was handed out
      for, for as long as its file has not been removed. */
  lemma EveryRefReadsBack(env: Env, ops: seq<Op>)
    requires env.Sound() && AllStorable(env, ops)
    ensures var r := Run(env, ops);
      forall i :: 0 <= i < |r.1| && r.1[i].ref.segment in r.0.segs ==>
        Read(env.crypto, r.0.segs, r.1[i].ref) == Ok(r.1[i].data)
  {
    EveryRunTiles(env, ops);
    var r := Run(env, ops);
    forall i | 0 <= i < |r.1| && r.1[i].ref.segment in r.0.segs
      ensures Read(env.crypto, r.0.segs, r.1[i].ref) == Ok(r.1[i].data)
    {
      ReadsBack(env, r.0, r.1, i);
    }
  }

  /** The refs that are logged are the ones the writer returned, for the data of each write. */
  lemma {:induction false} LogMatchesWrites(env: Env, s: Store, chunks: seq<Bytes>)
    requires s.Valid()
    ensures var r := WriteAll(env, s, chunks);
      forall i :: 0 <= i < |chunks| ==>
        r.1[i].originalSize == |chunks[i]| && r.1[i].hash == env.crypto.hash(chunks[i]) && r.1[i].segment >= s.id
    ensures WriteAll(env, s, chunks).0.id >= s.id
  {
    if chunks != [] { LogMatchesWrites(env, s, chunks[..|chunks| - 1]); }
  }
}
