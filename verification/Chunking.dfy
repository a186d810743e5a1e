/** Content-defined chunking: a rolling fingerprint decides where a byte stream is cut. */
module Chunking {
  import opened Base

  function Pow2(k: nat): (r: nat)
    ensures r > k
  {
    if k == 0 then 1 else 2 * Pow2(k - 1)
  }

  lemma Reassociate(x: int, y: int, z: int)
    ensures x * (y * z) == (x * y) * z
  {
  }

  lemma {:induction false} Pow2Add(a: nat, b: nat)
    ensures Pow2(a + b) == Pow2(a) * Pow2(b)
  {
    if a > 0 {
      Pow2Add(a - 1, b);
      Reassociate(2, Pow2(a - 1), Pow2(b));
    }
  }

  lemma Pow2Values()
    ensures Pow2(62) == 0x4000_0000_0000_0000 && Pow2(63) == TWO63 && Pow2(64) == TWO64
  {
    Pow2Small();
    hide Pow2;
    Pow2Add(8, 8);
    Pow2Add(16, 16);
    Pow2Add(32, 16);
    Pow2Add(48, 8);
    Pow2Add(56, 6);
    Pow2Add(62, 1);
    Pow2Add(63, 1);
  }

  lemma Pow2Small()
    ensures Pow2(1) == 2 && Pow2(6) == 64 && Pow2(8) == 256
  {
    assert Pow2(3) == 8;
    assert Pow2(6) == 8 * Pow2(3);
    assert Pow2(8) == 4 * Pow2(6);
  }

  /** The mask is one below a power of two, so `fingerprint & mask` is the remainder modulo 2^maskBits.
      The gear table may be any table of 256 words. */
  datatype Chunker = Chunker(minSize: nat, avgSize: nat, maxSize: nat, maskBits: nat, table: byte -> nat)
  {
    predicate Valid() {
      1 <= minSize <= maxSize && maskBits <= minSize && maskBits <= 62
    }
  }

  const DEFAULT_AVG := 1024 * 1024
  const FLOOR := 64 * 1024

  /** What is left of 1 after `n` shifts by one in an int64. */
  function Shifted(n: nat): int64 { if n == 0 then 1 else WrapInt64(2 * Shifted(n - 1)) }

  lemma WrapIs(x: int)
    requires -TWO63 <= x <= TWO64
    ensures WrapInt64(x) == if x < TWO63 then x else x - TWO64
  {
  }

  lemma {:induction false} ShiftedIs(n: nat)
    ensures Shifted(n) == if n <= 62 then Pow2(n) else if n == 63 then -TWO63 else 0
  {
    hide WrapInt64;
    Pow2Values();
    if n > 0 {
      ShiftedIs(n - 1);
      if n <= 62 { Pow2Grows(n, 62); }
      if n == 64 { WrapsToNothing(); } else { WrapIs(2 * Shifted(n - 1)); }
    }
  }

  lemma WrapsToNothing()
    ensures WrapInt64(-TWO64) == 0
  {
  }

  lemma {:induction false} Pow2Grows(a: nat, b: nat)
    requires a <= b
    ensures Pow2(a) <= Pow2(b)
    decreases b
  {
    if a < b { Pow2Grows(a, b - 1); }
  }

  /** The doubling loop reaches a value if and only if the value is at most 2^62: past that the shifted
      number turns negative, then zero, and stays zero. */
  lemma DoublingEndsExactly(value: int64)
    ensures (exists n: nat :: Shifted(n) >= value) <==> value <= 0x4000_0000_0000_0000
  {
    Pow2Values();
    if n: nat :| Shifted(n) >= value {
      ShiftedIs(n);
      if n <= 62 { Pow2Grows(n, 62); }
    }
    ShiftedIs(62);
    assert Shifted(62) == 0x4000_0000_0000_0000;
  }

  /** The first power of two that is not below `value`, by its exponent. None is a loop without an end:
      once the shifted number is zero it stays zero. */
  method NextPowerOfTwo(value: int64) returns (bits: Option<nat>)
    ensures bits.None? <==> forall n: nat :: Shifted(n) < value
    ensures bits.None? <==> value > 0x4000_0000_0000_0000
    ensures bits.Some? ==> Shifted(bits.value) >= value && forall n :: 0 <= n < bits.value ==> Shifted(n) < value
    ensures bits.Some? ==> bits.value <= 62 && Pow2(bits.value) >= value && (bits.value > 0 ==> Pow2(bits.value - 1) < value)
  {
    DoublingEndsExactly(value);
    var out: int64, n := 1, 0;
    while out < value
      invariant n <= 64 && out == Shifted(n) && forall m :: 0 <= m < n ==> Shifted(m) < value
      decreases 64 - n
    {
      if n == 64 {
        NeverReached(value);
        return None;
      }
      n, out := n + 1, WrapInt64(out * 2);
    }
    FirstReached(value, n);
    bits := Some(n);
  }

  lemma NeverReached(value: int64)
    requires forall m :: 0 <= m < 64 ==> Shifted(m) < value
    requires Shifted(64) < value
    ensures value > 0x4000_0000_0000_0000
  {
    Pow2Values();
    ShiftedIs(62);
  }

  lemma FirstReached(value: int64, n: nat)
    requires Shifted(n) >= value && n <= 64 && forall m :: 0 <= m < n ==> Shifted(m) < value
    ensures value <= 0x4000_0000_0000_0000 && n <= 62 && Pow2(n) >= value && (n > 0 ==> Pow2(n - 1) < value)
  {
    Pow2Values();
    ShiftedIs(n);
    ShiftedIs(62);
    if n > 0 { ShiftedIs(n - 1); }
    DoublingEndsExactly(value);
  }

  /** None when the mask is never found. */
  method NewChunker(avgSize: int64, table: byte -> nat) returns (r: Option<Chunker>)
    ensures r.None? <==> avgSize > 0x4000_0000_0000_0000
    ensures r.Some? ==> (
      var c := r.value;
      && c.Valid() && c.table == table && c.avgSize == (if avgSize <= 0 then DEFAULT_AVG else avgSize)
      && c.minSize == (if c.avgSize >= 4 * FLOOR then c.avgSize / 4 else if c.avgSize <= FLOOR then c.avgSize else FLOOR)
      && c.maxSize == (if c.avgSize < 0x2000_0000_0000_0000 then 4 * c.avgSize else c.avgSize)
      && Pow2(c.maskBits) >= c.avgSize && (c.maskBits > 0 ==> Pow2(c.maskBits - 1) < c.avgSize))
  {
    hide WrapInt64;
    var avg := if avgSize <= 0 then DEFAULT_AVG else avgSize;
    var minSize := avg / 4;
    if minSize < FLOOR { minSize := if avg < FLOOR then avg else FLOOR; }
    var maxSize := WrapInt64(avg * 4);
    if maxSize < avg { maxSize := avg; }
    var bits := NextPowerOfTwo(avg);
    if bits.None? { return None; }
    WrapIs(avg * 4);
    r := Some(Chunker(minSize, avg, maxSize, bits.value, table));
  }

  /** The fingerprint after a run of bytes since the last cut, in 64-bit arithmetic. */
  function Fingerprint(c: Chunker, s: Bytes): nat {
    if s == [] then 0 else (2 * Fingerprint(c, s[..|s| - 1]) + c.table(s[|s| - 1])) % TWO64
  }

  predicate IsCut(c: Chunker, s: Bytes) {
    |s| >= c.maxSize || (|s| >= c.minSize && Fingerprint(c, s) % Pow2(c.maskBits) == 0)
  }

  /** The length of the first chunk of `s`: the first prefix of at least `n` bytes that is a cut, else all of it. */
  function CutFrom(c: Chunker, s: Bytes, n: nat): (r: nat)
    requires n <= |s|
    ensures n <= r <= |s|
    decreases |s| - n
  {
    if n == |s| || IsCut(c, s[..n]) then n else CutFrom(c, s, n + 1)
  }

  /** The chunks of a byte string, from its content alone. */
  function Chunks(c: Chunker, s: Bytes): (r: seq<Bytes>)
    ensures s != [] ==> r != []
  {
    if s == [] then []
    else
      var n := CutFrom(c, s, 1);
      [s[..n]] + Chunks(c, s[n..])
  }

  /** No prefix of up to `n` bytes is a cut. */
  ghost predicate NoCut(c: Chunker, s: Bytes, n: int)
    requires n <= |s|
  {
    forall k :: 1 <= k <= n ==> !IsCut(c, s[..k])
  }

  lemma {:induction false} CutIs(c: Chunker, s: Bytes, k: nat, n: nat)
    requires 1 <= k <= n <= |s|
    requires forall i :: k <= i < n ==> !IsCut(c, s[..i])
    requires n == |s| || IsCut(c, s[..n])
    ensures CutFrom(c, s, k) == n
    decreases n - k
  {
    if k < n { CutIs(c, s, k + 1, n); }
  }

  /** The first chunk of `chunk + rest`, when nothing before the end of `chunk` is a cut. */
  lemma FirstChunk(c: Chunker, chunk: Bytes, rest: Bytes)
    requires chunk != [] && NoCut(c, chunk, |chunk| - 1)
    requires rest == [] || IsCut(c, chunk)
    ensures Chunks(c, chunk + rest) == [chunk] + Chunks(c, rest)
  {
    var s, n := chunk + rest, |chunk|;
    forall i | 1 <= i < n ensures !IsCut(c, s[..i]) { assert s[..i] == chunk[..i]; }
    assert s[..n] == chunk && s[n..] == rest;
    CutIs(c, s, 1, n);
  }

  /** Where the loops stand after `pos` bytes of `all`. */
  ghost predicate Progress(c: Chunker, all: Bytes, pos: nat, emitted: seq<Bytes>, chunk: Bytes, fingerprint: nat) {
    && pos <= |all|
    && Flatten(emitted) + chunk == all[..pos]
    && Chunks(c, all) == emitted + Chunks(c, chunk + all[pos..])
    && NoCut(c, chunk, |chunk|)
    && fingerprint == Fingerprint(c, chunk)
  }

  lemma FingerprintSnoc(c: Chunker, s: Bytes, b: byte)
    ensures Fingerprint(c, s + [b]) == (2 * Fingerprint(c, s) + c.table(b)) % TWO64
  {
    assert (s + [b])[..|s|] == s;
  }

  lemma NoCutSnoc(c: Chunker, s: Bytes, b: byte)
    requires NoCut(c, s, |s|)
    ensures NoCut(c, s + [b], |s|)
    ensures !IsCut(c, s + [b]) ==> NoCut(c, s + [b], |s| + 1)
  {
    hide IsCut;
    var longer := s + [b];
    forall k | 1 <= k <= |s| ensures !IsCut(c, longer[..k]) { assert longer[..k] == s[..k]; }
    assert longer[..|longer|] == longer;
  }

  lemma NextByte(c: Chunker, all: Bytes, pos: nat, emitted: seq<Bytes>, chunk: Bytes, fingerprint: nat)
    requires Progress(c, all, pos, emitted, chunk, fingerprint) && pos < |all|
    ensures var longer := chunk + [all[pos]];
      && Fingerprint(c, longer) == (2 * fingerprint + c.table(all[pos])) % TWO64
      && if IsCut(c, longer) then Progress(c, all, pos + 1, emitted + [longer], [], 0)
         else Progress(c, all, pos + 1, emitted, longer, Fingerprint(c, longer))
  {
    hide Chunks, IsCut;
    var longer := chunk + [all[pos]];
    FingerprintSnoc(c, chunk, all[pos]);
    NoCutSnoc(c, chunk, all[pos]);
    assert chunk + all[pos..] == longer + all[pos + 1..];
    assert all[..pos + 1] == all[..pos] + [all[pos]];
    if IsCut(c, longer) { CutHere(c, all, pos, emitted, longer); }
  }

  lemma CutHere(c: Chunker, all: Bytes, pos: nat, emitted: seq<Bytes>, longer: Bytes)
    requires pos < |all| && longer != [] && IsCut(c, longer) && NoCut(c, longer, |longer| - 1)
    requires Flatten(emitted) + longer == all[..pos + 1] && Chunks(c, all) == emitted + Chunks(c, longer + all[pos + 1..])
    ensures Progress(c, all, pos + 1, emitted + [longer], [], 0)
  {
    hide Chunks, IsCut, Flatten, NoCut, Fingerprint;
    var rest := all[pos + 1..];
    FirstChunk(c, longer, rest);
    Associative(emitted, [longer], Chunks(c, rest));
    FlattenSnoc(emitted, longer);
    ProgressAtCut(c, all, pos + 1, emitted + [longer]);
  }

  lemma ProgressAtCut(c: Chunker, all: Bytes, pos: nat, emitted: seq<Bytes>)
    requires pos <= |all| && Flatten(emitted) == all[..pos] && Chunks(c, all) == emitted + Chunks(c, all[pos..])
    ensures Progress(c, all, pos, emitted, [], 0)
  {
    hide Chunks, IsCut, Flatten;
    assert [] + all[pos..] == all[pos..] && all[..pos] + [] == all[..pos];
  }

  lemma AtStart(c: Chunker, all: Bytes)
    ensures Progress(c, all, 0, [], [], 0)
  {
    assert [] + all[0..] == all;
  }

  lemma AtEnd(c: Chunker, all: Bytes, emitted: seq<Bytes>, chunk: Bytes, fingerprint: nat)
    requires Progress(c, all, |all|, emitted, chunk, fingerprint)
    ensures Chunks(c, all) == emitted + (if chunk == [] then [] else [chunk]) && Flatten(emitted) <= all
  {
    assert chunk + all[|all|..] == chunk && all[..|all|] == all;
    if chunk != [] { FirstChunk(c, chunk, []); assert chunk + [] == chunk; }
  }

  /** The two nested loops: `blocks` are what Read happened to return, `failed` whether the source
      ended in an error instead of at its end. */
  method Split(c: Chunker, blocks: seq<Bytes>, failed: bool) returns (emitted: seq<Bytes>)
    ensures !failed ==> emitted == Chunks(c, Flatten(blocks))
    ensures failed ==> emitted <= Chunks(c, Flatten(blocks)) && Flatten(emitted) <= Flatten(blocks)
  {
    hide Progress, Chunks;
    var chunk: Bytes, fingerprint: nat := [], 0;
    ghost var all := Flatten(blocks);
    emitted := [];
    AtStart(c, all);
    for i := 0 to |blocks|
      invariant Progress(c, all, |Flatten(blocks[..i])|, emitted, chunk, fingerprint)
    {
      FlattenAt(blocks, i);
      ghost var start := |Flatten(blocks[..i])|;
      for j := 0 to |blocks[i]|
        invariant Progress(c, all, start + j, emitted, chunk, fingerprint)
      {
        var b := blocks[i][j];
        assert all[start..start + |blocks[i]|][j] == b;
        NextByte(c, all, start + j, emitted, chunk, fingerprint);
        chunk := chunk + [b];
        fingerprint := (2 * fingerprint + c.table(b)) % TWO64;
        if |chunk| >= c.maxSize || (|chunk| >= c.minSize && fingerprint % Pow2(c.maskBits) == 0) {
          emitted := emitted + [chunk];
          chunk, fingerprint := [], 0;
        }
      }
    }
    assert blocks[..|blocks|] == blocks;
    AtEnd(c, all, emitted, chunk, fingerprint);
    if !failed && |chunk| > 0 {
      emitted := emitted + [chunk];
    }
  }

  /** Nothing is lost or reordered. */
  lemma {:induction false} ChunksConcatenate(c: Chunker, s: Bytes)
    ensures Flatten(Chunks(c, s)) == s
    decreases |s|
  {
    if s != [] { ChunksConcatenate(c, s[CutFrom(c, s, 1)..]); }
  }

  lemma {:induction false} CutFromIsCut(c: Chunker, s: Bytes, n: nat)
    requires n <= |s|
    ensures var r := CutFrom(c, s, n);
      (r < |s| ==> IsCut(c, s[..r])) && forall i :: n <= i < r ==> !IsCut(c, s[..i])
    decreases |s| - n
  {
    if n < |s| && !IsCut(c, s[..n]) { CutFromIsCut(c, s, n + 1); }
  }

  /** Every chunk ends at its first cut, except that the last may be what was left over. */
  lemma {:induction false} EachChunkEndsAtItsFirstCut(c: Chunker, s: Bytes, i: nat)
    requires i < |Chunks(c, s)|
    ensures var chunk := Chunks(c, s)[i];
      && chunk != [] && NoCut(c, chunk, |chunk| - 1)
      && (i < |Chunks(c, s)| - 1 ==> IsCut(c, chunk))
    decreases |s|
  {
    var n := CutFrom(c, s, 1);
    CutFromIsCut(c, s, 1);
    if i > 0 {
      EachChunkEndsAtItsFirstCut(c, s[n..], i - 1);
    } else {
      forall k | 1 <= k <= n - 1 ensures !IsCut(c, s[..n][..k]) { assert s[..n][..k] == s[..k]; }
    }
  }

  /** Chunk sizes: never above the maximum, and never below the minimum before the last. */
  lemma ChunkSizes(c: Chunker, s: Bytes, i: nat)
    requires c.Valid() && i < |Chunks(c, s)|
    ensures 1 <= |Chunks(c, s)[i]| <= c.maxSize
    ensures i < |Chunks(c, s)| - 1 ==> |Chunks(c, s)[i]| >= c.minSize
  {
    EachChunkEndsAtItsFirstCut(c, s, i);
    var chunk := Chunks(c, s)[i];
    if |chunk| > c.maxSize { assert IsCut(c, chunk[..c.maxSize]); }
  }

  lemma FirstChunkEnds(c: Chunker, s: Bytes)
    requires s != []
    ensures var head := s[..CutFrom(c, s, 1)];
      head != [] && NoCut(c, head, |head| - 1) && (head != s ==> IsCut(c, head))
  {
    CutFromIsCut(c, s, 1);
    var n := CutFrom(c, s, 1);
    forall k | 1 <= k <= n - 1 ensures !IsCut(c, s[..n][..k]) { assert s[..n][..k] == s[..k]; }
  }

  /** A leftover that is no cut swallows bytes of what follows. */
  lemma NotACutGrows(c: Chunker, a: Bytes, b: Bytes)
    requires a != [] && b != [] && NoCut(c, a, |a|)
    ensures |Chunks(c, a + b)[0]| > |a|
  {
    var m := CutFrom(c, a + b, 1);
    FirstChunkEnds(c, a + b);
    forall i | 1 <= i <= |a| ensures !IsCut(c, (a + b)[..i]) { assert (a + b)[..i] == a[..i]; }
  }

  /** Chunking starts afresh exactly at the cuts: appending `b` leaves the chunks of `a` alone, and
      chunks `b` as if it stood alone, if and only if the last chunk of `a` ends in a cut. */
  lemma {:induction false} RestartsExactlyAtCuts(c: Chunker, a: Bytes, b: Bytes)
    requires a != [] && b != []
    ensures Chunks(c, a + b) == Chunks(c, a) + Chunks(c, b) <==> IsCut(c, Chunks(c, a)[|Chunks(c, a)| - 1])
    decreases |a|
  {
    var n := CutFrom(c, a, 1);
    var head, tail := a[..n], a[n..];
    FirstChunkEnds(c, a);
    if tail == [] {
      assert head == a;
      if IsCut(c, a) {
        FirstChunk(c, a, b);
      } else {
        assert a[..|a|] == a && NoCut(c, a, |a|);
        NotACutGrows(c, a, b);
        assert (Chunks(c, a) + Chunks(c, b))[0] == a;
      }
    } else {
      assert a + b == head + (tail + b);
      FirstChunk(c, head, tail + b);
      RestartsExactlyAtCuts(c, tail, b);
      var x, y, z := Chunks(c, tail + b), Chunks(c, tail), Chunks(c, b);
      assert Chunks(c, a) == [head] + y && Chunks(c, a + b) == [head] + x;
      SameHead(head, x, y, z);
    }
  }

  lemma SameHead(head: Bytes, x: seq<Bytes>, y: seq<Bytes>, z: seq<Bytes>)
    ensures [head] + x == [head] + y + z <==> x == y + z
  {
    assert ([head] + x)[1..] == x && ([head] + y + z)[1..] == y + z;
  }

  // ---- the cut test only looks at the last few bytes ----

  lemma ModOfMultiple(a: nat, p: nat, q: nat)
    requires p > 0 && q > 0
    ensures p * q > 0 && (a % (p * q)) % p == a % p
  {
    var d, r := a / (p * q), a % (p * q);
    assert a == p * (q * d) + r by { calc { (p * q) * d; p * (q * d); } }
    AddMultiple(r, p, q * d);
  }

  lemma Distribute(d: int, a: int, b: int)
    ensures d * (a + b) == d * a + d * b
  {
  }

  lemma NoLess(d: nat, a: nat)
    ensures d * a >= 0
  {
  }

  lemma ProductBelow(d: nat, a: nat, b: nat)
    requires a > b
    ensures d * a >= d * b + d
  {
    Distribute(d, b, a - b);
    Distribute(d, 1, a - b - 1);
    NoLess(d, a - b - 1);
  }

  lemma ModUnique(n: nat, p: nat, q: nat, r: nat)
    requires n == p * q + r && r < p
    ensures n % p == r
  {
    var q' := n / p;
    if q > q' { ProductBelow(p, q, q'); } else if q < q' { ProductBelow(p, q', q); }
  }

  lemma AddMultiple(r: nat, p: nat, k: nat)
    requires p > 0
    ensures (p * k + r) % p == r % p
  {
    Distribute(p, k, r / p);
    NoLess(p, k);
    ModUnique(p * k + r, p, k + r / p, r % p);
  }

  lemma TwiceThat(a: nat, p: nat, q: nat, r: nat)
    requires a == p * q + r
    ensures 2 * a == 2 * p * q + 2 * r
  {
    Reassociate(2, p, q);
  }

  lemma Doubled(a: nat, t: nat, p: nat, q: nat, r: nat)
    requires p > 0 && a == p * q + r
    ensures (2 * a + t) % (2 * p) == (2 * r + t) % (2 * p)
  {
    TwiceThat(a, p, q, r);
    AddMultiple(2 * r + t, 2 * p, q);
  }

  lemma DoubleMod(a: nat, b: nat, t: nat, p: nat)
    requires p > 0 && a % p == b % p
    ensures (2 * a + t) % (2 * p) == (2 * b + t) % (2 * p)
  {
    Doubled(a, t, p, a / p, a % p);
    Doubled(b, t, p, b / p, b % p);
  }

  lemma {:induction false} FingerprintWindow(c: Chunker, x: Bytes, y: Bytes, k: nat)
    requires k <= |x| && k <= |y| && k <= 64
    requires x[|x| - k..] == y[|y| - k..]
    ensures Fingerprint(c, x) % Pow2(k) == Fingerprint(c, y) % Pow2(k)
  {
    hide Fingerprint;
    if k > 0 {
      var u, v, b := x[..|x| - 1], y[..|y| - 1], x[|x| - 1];
      assert b == x[|x| - k..][k - 1] == y[|y| - k..][k - 1];
      assert u[|u| - (k - 1)..] == x[|x| - k..][..k - 1] && v[|v| - (k - 1)..] == y[|y| - k..][..k - 1];
      FingerprintWindow(c, u, v, k - 1);
      FingerprintSnoc(c, u, b);
      FingerprintSnoc(c, v, b);
      assert x == u + [b] && y == v + [b];
      LowBits(Fingerprint(c, u), Fingerprint(c, v), c.table(b), k);
    }
  }

  /** The low `k` bits of a shifted and added word come from the low `k - 1` bits of the word. */
  lemma LowBits(a: nat, b: nat, t: nat, k: nat)
    requires 1 <= k <= 64 && a % Pow2(k - 1) == b % Pow2(k - 1)
    ensures (2 * a + t) % TWO64 % Pow2(k) == (2 * b + t) % TWO64 % Pow2(k)
  {
    Pow2Values();
    Pow2Add(k, 64 - k);
    ModOfMultiple(2 * a + t, Pow2(k), Pow2(64 - k));
    ModOfMultiple(2 * b + t, Pow2(k), Pow2(64 - k));
    DoubleMod(a, b, t, Pow2(k - 1));
  }

  /** Between the size limits, whether a chunk is cut depends on its last `maskBits` bytes only. */
  lemma CutDependsOnLastBytes(c: Chunker, x: Bytes, y: Bytes)
    requires c.Valid()
    requires c.minSize <= |x| < c.maxSize && c.minSize <= |y| < c.maxSize
    requires x[|x| - c.maskBits..] == y[|y| - c.maskBits..]
    ensures IsCut(c, x) <==> IsCut(c, y)
  {
    FingerprintWindow(c, x, y, c.maskBits);
  }
}
