/** Storing chunks: what one PutChunk does, and what a list of them amounts to. */
module PutSpec {
  import opened Base
  import opened Records
  import opened Segments
  import opened Manifests

  type Index = map<Hash, ChunkRef>

  datatype PutResult = PutResult(ref: ChunkRef, existed: bool)

  /** The store and the index after some puts, with the result of each. */
  datatype Puts = Puts(store: Store, index: Index, results: seq<PutResult>)

  /** Store one chunk, unless the index already has its digest. */
  function PutOne(env: Env, s: Store, index: Index, data: Bytes): (r: (Store, Index, PutResult))
    requires s.Valid()
    ensures r.0.Valid()
  {
    var hash := env.crypto.hash(data);
    if hash in index then (s, index, PutResult(index[hash], true))
    else
      var w := WriteChunk(env, s, data);
      (w.0, index[hash := w.1], PutResult(w.1, false))
  }

  /** One PutChunk after another. */
  function PutEach(env: Env, s: Store, index: Index, chunks: seq<Bytes>): (r: Puts)
    requires s.Valid()
    ensures r.store.Valid() && |r.results| == |chunks|
  {
    if chunks == [] then Puts(s, index, [])
    else
      var n := |chunks| - 1;
      var before := PutEach(env, s, index, chunks[..n]);
      var last := PutOne(env, before.store, before.index, chunks[n]);
      Puts(last.0, last.1, before.results + [last.2])
  }

  /** Two lists one after the other are one list: what sub-batching and coalescing rely on. */
  lemma {:induction false} PutEachSplits(env: Env, s: Store, index: Index, a: seq<Bytes>, b: seq<Bytes>)
    requires s.Valid()
    ensures var first := PutEach(env, s, index, a);
      var second := PutEach(env, first.store, first.index, b);
      PutEach(env, s, index, a + b) == Puts(second.store, second.index, first.results + second.results)
    decreases |b|
  {
    hide PutOne;
    if b == [] {
      assert a + b == a;
    } else {
      assert (a + b)[..|a + b| - 1] == a + b[..|b| - 1];
      PutEachSplits(env, s, index, a, b[..|b| - 1]);
    }
  }

  /** The refs that put index entries where they are. */
  ghost predicate IndexOk(c: Crypto, segs: Segs, index: Index) {
    forall h :: h in index ==> RefOk(c, segs, h, index[h])
  }

  /** A ref that the reader serves, with the size it claims. */
  ghost predicate RefOk(c: Crypto, segs: Segs, hash: Hash, ref: ChunkRef) {
    && ref.hash == hash && ref.segment in segs
    && Read(c, segs, ref).Ok? && |Read(c, segs, ref).value| == ref.originalSize
  }

  lemma RefOkGrows(c: Crypto, a: Segs, b: Segs, hash: Hash, ref: ChunkRef)
    requires RefOk(c, a, hash, ref) && Grows(a, b)
    ensures RefOk(c, b, hash, ref)
  {
    ReadGrows(c, a, b, ref);
    hide Read;
  }

  /** The digest is injective on what is stored, and what is stored could be stored again. */
  ghost predicate NoCollision(c: Crypto, segs: Segs) {
    && (forall r1, r2 {:trigger Read(c, segs, r1), Read(c, segs, r2)} ::
          Read(c, segs, r1).Ok? && Read(c, segs, r2).Ok? && r1.hash == r2.hash ==> Read(c, segs, r1) == Read(c, segs, r2))
    && (forall ref {:trigger Read(c, segs, ref)} :: Read(c, segs, ref).Ok? ==> c.Storable(Read(c, segs, ref).value))
  }

  /** The digest tells the new chunks apart from each other and from everything stored. */
  ghost predicate Fresh(c: Crypto, segs: Segs, chunks: seq<Bytes>) {
    && (forall i, ref :: 0 <= i < |chunks| && Read(c, segs, ref).Ok? && ref.hash == c.hash(chunks[i])
          ==> Read(c, segs, ref) == Ok(chunks[i]))
    && (forall i, j :: 0 <= i < j < |chunks| && c.hash(chunks[i]) == c.hash(chunks[j]) ==> chunks[i] == chunks[j])
  }

  lemma PutOneOk(env: Env, s: Store, index: Index, data: Bytes)
    requires env.Sound() && env.crypto.Storable(data) && s.Valid() && IndexOk(env.crypto, s.segs, index)
    ensures var r := PutOne(env, s, index, data);
      && Later(s, r.0) && IndexOk(env.crypto, r.0.segs, r.1)
      && r.1.Keys == index.Keys + {env.crypto.hash(data)}
      && (forall h :: h in index ==> r.1[h] == index[h])
      && r.2.ref == r.1[env.crypto.hash(data)] && (r.2.existed <==> env.crypto.hash(data) in index)
      && (!r.2.existed ==> Read(env.crypto, r.0.segs, r.2.ref) == Ok(data))
  {
    var hash := env.crypto.hash(data);
    if hash !in index {
      WriteIsLater(env, s, data);
      WriteReadsBack(env, s, data);
      hide Read, WriteChunk, IndexOk;
      var r := PutOne(env, s, index, data);
      IndexMore(env.crypto, s.segs, r.0.segs, index, hash, r.1[hash]);
    }
  }

  lemma IndexMore(c: Crypto, a: Segs, b: Segs, index: Index, hash: Hash, ref: ChunkRef)
    requires IndexOk(c, a, index) && Grows(a, b) && RefOk(c, b, hash, ref)
    ensures IndexOk(c, b, index[hash := ref])
  {
    hide RefOk, Grows;
    var index' := index[hash := ref];
    forall h | h in index' ensures RefOk(c, b, h, index'[h]) {
      if h != hash { RefOkGrows(c, a, b, h, index[h]); }
    }
  }

  /** The digests of a list of chunks. */
  function Digests(c: Crypto, chunks: seq<Bytes>): set<Hash> {
    if chunks == [] then {} else Digests(c, chunks[..|chunks| - 1]) + {c.hash(chunks[|chunks| - 1])}
  }

  lemma LaterTransitive(a: Store, b: Store, d: Store)
    requires Later(a, b) && Later(b, d)
    ensures Later(a, d)
  {
  }

  lemma LaterItself(a: Store)
    ensures Later(a, a)
  {
  }

  /** Everything that was put is indexed and reads back, and nothing indexed before has moved. */
  lemma {:induction false} PutEachOk(env: Env, s: Store, index: Index, chunks: seq<Bytes>)
    requires env.Sound() && env.AllStorable(chunks) && s.Valid() && IndexOk(env.crypto, s.segs, index)
    ensures var r := PutEach(env, s, index, chunks);
      && Later(s, r.store) && IndexOk(env.crypto, r.store.segs, r.index)
      && r.index.Keys == index.Keys + Digests(env.crypto, chunks)
      && (forall h :: h in index ==> r.index[h] == index[h])
  {
    hide PutOne, IndexOk, Later, Read, WriteChunk, Crypto.Sound, Crypto.Storable;
    if chunks != [] {
      var n := |chunks| - 1;
      PutEachOk(env, s, index, chunks[..n]);
      var before := PutEach(env, s, index, chunks[..n]);
      PutOneOk(env, before.store, before.index, chunks[n]);
      LaterTransitive(s, before.store, PutEach(env, s, index, chunks).store);
    } else {
      LaterItself(s);
    }
  }

  /** Each chunk gets the ref its digest ends up indexed under; it existed if it was indexed before
      the call, or came earlier in the list. */
  lemma {:induction false} PutEachResults(env: Env, s: Store, index: Index, chunks: seq<Bytes>, i: nat)
    requires env.Sound() && env.AllStorable(chunks) && s.Valid() && IndexOk(env.crypto, s.segs, index)
    requires i < |chunks|
    ensures var r, hash := PutEach(env, s, index, chunks), env.crypto.hash(chunks[i]);
      && hash in r.index && r.results[i].ref == r.index[hash]
      && (r.results[i].existed <==> hash in index || hash in Digests(env.crypto, chunks[..i]))
    decreases |chunks|
  {
    hide PutOne, IndexOk, Later, Read, WriteChunk, Crypto.Sound, Crypto.Storable;
    var n := |chunks| - 1;
    PutEachOk(env, s, index, chunks[..n]);
    var before := PutEach(env, s, index, chunks[..n]);
    PutOneOk(env, before.store, before.index, chunks[n]);
    if i < n {
      PutEachResults(env, s, index, chunks[..n], i);
      assert chunks[..n][..i] == chunks[..i];
    }
  }

  /** Every result reads back the chunk it was given for, as long as no two chunks share a digest. */
  lemma {:induction false} PutEachReadsBack(env: Env, s: Store, index: Index, chunks: seq<Bytes>, i: nat)
    requires env.Sound() && env.AllStorable(chunks) && s.Valid() && IndexOk(env.crypto, s.segs, index)
    requires i < |chunks| && Fresh(env.crypto, s.segs, chunks)
    ensures var r := PutEach(env, s, index, chunks);
      Read(env.crypto, r.store.segs, r.results[i].ref) == Ok(chunks[i])
    decreases |chunks|
  {
    hide PutOne, Grows, Read, WriteChunk, Crypto.Sound, Crypto.Storable, IndexOk;
    var c, n := env.crypto, |chunks| - 1;
    var before := PutEach(env, s, index, chunks[..n]);
    PutEachOk(env, s, index, chunks[..n]);
    PutOneOk(env, before.store, before.index, chunks[n]);
    var after, hash := PutEach(env, s, index, chunks), c.hash(chunks[n]);
    if i < n {
      PutEachReadsBack(env, s, index, chunks[..n], i);
      ReadGrows(c, before.store.segs, after.store.segs, before.results[i].ref);
    } else if hash in before.index {
      var ref := before.index[hash];
      assert Read(c, before.store.segs, ref) == Ok(chunks[n]) by {
        if hash in index {
          IndexedReadsBack(c, s.segs, index, chunks, n);
          ReadGrows(c, s.segs, before.store.segs, index[hash]);
        } else {
          var j := DigestFrom(c, chunks[..n], hash);
          PutEachReadsBack(env, s, index, chunks[..n], j);
          PutEachResults(env, s, index, chunks[..n], j);
        }
      }
      ReadGrows(c, before.store.segs, after.store.segs, ref);
    }
  }

  lemma IndexedReadsBack(c: Crypto, segs: Segs, index: Index, chunks: seq<Bytes>, i: nat)
    requires IndexOk(c, segs, index) && Fresh(c, segs, chunks) && i < |chunks| && c.hash(chunks[i]) in index
    ensures Read(c, segs, index[c.hash(chunks[i])]) == Ok(chunks[i])
  {
    hide Read;
    assert RefOk(c, segs, c.hash(chunks[i]), index[c.hash(chunks[i])]);
  }

  lemma {:induction false} DigestFrom(c: Crypto, chunks: seq<Bytes>, hash: Hash) returns (j: nat)
    requires hash in Digests(c, chunks)
    ensures j < |chunks| && c.hash(chunks[j]) == hash
  {
    var n := |chunks| - 1;
    if c.hash(chunks[n]) == hash { j := n; } else { j := DigestFrom(c, chunks[..n], hash); }
  }
}
