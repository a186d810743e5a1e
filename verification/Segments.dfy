/** Append-only segment files: the writer, the reader, and what every run of writes keeps. */
module Segments {
  import opened Base
  import opened Records

  datatype ChunkRef = ChunkRef(
    hash: Hash, segment: int, offset: int, length: int,
    originalSize: int, compressedSize: int, createdAt: int)

  /** What the store is opened with. Nonces and clock readings are numbered by the record they go to. */
  datatype Env = Env(crypto: Crypto, maxSize: int, nonce: nat -> Bytes, clock: nat -> int)
  {
    ghost predicate Sound() {
      && crypto.Sound() && maxSize > 0
      && forall k {:trigger nonce(k)} :: |nonce(k)| == 12
    }

    ghost predicate AllStorable(chunks: seq<Bytes>) {
      forall i :: 0 <= i < |chunks| ==> crypto.Storable(chunks[i])
    }
  }

  type Segs = map<int, Bytes>

  /** The writer's state: the files, the one being appended to, and how many records were ever written. */
  datatype Store = Store(segs: Segs, id: int, written: nat)
  {
    /** No file is numbered above the open one, so a rotation always starts a new file. */
    predicate Valid() {
      id in segs && forall k :: k in segs ==> k <= id
    }
  }

  /** What the writer does when it starts: open the last listed file (file 1 if there is none). */
  function OpenSpec(env: Env, segs: Segs, last: int, written: nat): (r: Store) {
    var s := Store(if last in segs then segs else segs[last := []], last, written);
    if |s.segs[last]| >= env.maxSize && |s.segs[last]| > 0 then Rotate(s) else s
  }

  function Rotate(s: Store): (r: Store) {
    Store(if s.id + 1 in s.segs then s.segs else s.segs[s.id + 1 := []], s.id + 1, s.written)
  }

  function Record(env: Env, s: Store, data: Bytes): Bytes {
    EncodeRecord(env.crypto, env.nonce(s.written), env.crypto.hash(data), data)
  }

  /** Where the next record goes: a new file once this one would grow past its limit. */
  function Placed(env: Env, s: Store, data: Bytes): (r: Store)
    requires s.id in s.segs
  {
    var offset := |s.segs[s.id]|;
    if offset > 0 && offset + |Record(env, s, data)| > env.maxSize then Rotate(s) else s
  }

  function WriteChunk(env: Env, s: Store, data: Bytes): (r: (Store, ChunkRef))
    requires s.Valid()
    ensures r.0.Valid()
  {
    var record, at := Record(env, s, data), Placed(env, s, data);
    (Store(at.segs[at.id := at.segs[at.id] + record], at.id, s.written + 1),
     ChunkRef(env.crypto.hash(data), at.id, |at.segs[at.id]|, |record|,
              |data|, |env.crypto.compress(data)|, env.clock(s.written)))
  }

  /** Writing a list is writing its chunks one by one. */
  function WriteAll(env: Env, s: Store, chunks: seq<Bytes>): (r: (Store, seq<ChunkRef>))
    requires s.Valid()
    ensures r.0.Valid() && |r.1| == |chunks|
  {
    if chunks == [] then (s, [])
    else
      var n := |chunks| - 1;
      var before := WriteAll(env, s, chunks[..n]);
      var last := WriteChunk(env, before.0, chunks[n]);
      (last.0, before.1 + [last.1])
  }

  function Read(c: Crypto, segs: Segs, ref: ChunkRef): (r: Result<Bytes, ReadError>)
    ensures r.Ok? ==> c.hash(r.value) == ref.hash
  {
    if ref.segment !in segs then Err(SegmentMissing) else
    var file := segs[ref.segment];
    if ref.offset < 0 || ref.length < 0 || ref.offset + ref.length > |file| then Err(ShortRead) else
    DecodeRecord(c, ref.hash, file[ref.offset..ref.offset + ref.length])
  }

  class SegmentWriter {
    const env: Env
    var segs: Segs
    var id: int
    var written: nat  // stands for the state of the random source and the clock

    ghost function View(): Store
      reads this
    {
      Store(segs, id, written)
    }

    constructor (env: Env, files: Segs, ids: seq<int>, written: nat)
      requires ToSet(ids) == files.Keys
      requires forall i, j :: 0 <= i < j < |ids| ==> ids[i] <= ids[j]
      ensures this.env == env
      ensures View() == OpenSpec(env, files, if ids == [] then 1 else ids[|ids| - 1], written)
      ensures View().Valid()
    {
      this.env := env;
      this.written := written;
      segs := files;
      id := if ids == [] then 1 else ids[|ids| - 1];
      new;
      forall k | k in files.Keys ensures k <= id { assert k in ToSet(ids); }
      if id !in segs { segs := segs[id := []]; }
      if |segs[id]| >= env.maxSize && |segs[id]| > 0 { RotateFile(); }
    }

    method RotateFile()
      modifies this
      ensures View() == Rotate(old(View()))
    {
      id := id + 1;
      if id !in segs { segs := segs[id := []]; }
    }

    /** Removes a file other than the open one. */
    method RemoveFile(file: int)
      requires file != id
      modifies this`segs
      ensures segs == old(segs) - {file}
    {
      segs := segs - {file};
    }

    /** One turn of the write loop: encode, rotate when the file would grow too large, append. */
    method AppendRecord(data: Bytes) returns (ref: ChunkRef)
      requires View().Valid()
      modifies this
      ensures View().Valid()
      ensures (View(), ref) == WriteChunk(env, old(View()), data)
    {
      var hash := env.crypto.hash(data);
      var record := EncodeRecord(env.crypto, env.nonce(written), hash, data);
      if |segs[id]| > 0 && |segs[id]| + |record| > env.maxSize {
        RotateFile();
      }
      var offset := |segs[id]|;
      segs := segs[id := segs[id] + record];
      ref := ChunkRef(hash, id, offset, |record|, |data|, |env.crypto.compress(data)|, env.clock(written));
      written := written + 1;
    }

    method WriteChunks(chunks: seq<Bytes>) returns (refs: seq<ChunkRef>)
      requires View().Valid()
      modifies this
      ensures View().Valid()
      ensures (View(), refs) == WriteAll(env, old(View()), chunks)
    {
      refs := [];
      for i := 0 to |chunks|
        invariant View().Valid()
        invariant (View(), refs) == WriteAll(env, old(View()), chunks[..i])
      {
        assert chunks[..i + 1][..i] == chunks[..i];
        var ref := AppendRecord(chunks[i]);
        refs := refs + [ref];
      }
      assert chunks[..|chunks|] == chunks;
    }
  }
}
