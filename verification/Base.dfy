/** Types and sequence facts shared by every component. */
module Base {
  datatype Option<+T> = None | Some(value: T)

  datatype Result<+T, +E> = Ok(value: T) | Err(error: E)

  type byte = x: int | 0 <= x < 256

  type Bytes = seq<byte>

  /** A BLAKE3-256 digest. Hex text stands for the bytes it denotes; the empty string is []. */
  type Hash = seq<byte>

  const TWO16 := 0x1_0000
  const TWO32 := 0x1_0000_0000
  const TWO63 := 0x8000_0000_0000_0000
  const TWO64 := 0x1_0000_0000_0000_0000

  type uint32 = x: int | 0 <= x < TWO32

  type int64 = x: int | -TWO63 <= x < TWO63

  /** Two's complement: the uint64 a Go int64 converts to, and back. */
  function ToU64(x: int64): (r: nat)
    ensures r < TWO64 && FromU64(r) == x
  {
    if x >= 0 then x else x + TWO64
  }

  function FromU64(n: nat): (r: int64)
    requires n < TWO64
  {
    if n < TWO63 then n else n - TWO64
  }

  /** The value an int64 sum has after wrap-around. */
  function WrapInt64(x: int): (r: int64) {
    (x + TWO63) % TWO64 - TWO63
  }

  /** Decimal digits, as a number is printed into an id. */
  function Decimal(n: nat): (r: Bytes)
    ensures r != [] && forall k :: 0 <= k < |r| ==> 0x30 <= r[k] <= 0x39
    ensures |r| == 1 <==> n < 10
  {
    if n < 10 then [0x30 + n] else Decimal(n / 10) + [0x30 + n % 10]
  }

  lemma {:induction false} DecimalIsInjective(a: nat, b: nat)
    requires Decimal(a) == Decimal(b)
    ensures a == b
  {
    var x, y := Decimal(a), Decimal(b);
    assert x[|x| - 1] == 0x30 + a % 10 && y[|y| - 1] == 0x30 + b % 10;
    if a >= 10 {
      assert x[..|x| - 1] == Decimal(a / 10) && y[..|y| - 1] == Decimal(b / 10);
      DecimalIsInjective(a / 10, b / 10);
    }
  }

  /** Concatenation of a list of pieces. */
  function Flatten<T>(pieces: seq<seq<T>>): seq<T> {
    if pieces == [] then [] else pieces[0] + Flatten(pieces[1..])
  }

  lemma FlattenAppend<T>(a: seq<seq<T>>, b: seq<seq<T>>)
    ensures Flatten(a + b) == Flatten(a) + Flatten(b)
  {
    if a == [] {
      assert a + b == b;
    } else {
      assert (a + b)[1..] == a[1..] + b;
      FlattenAppend(a[1..], b);
    }
  }

  lemma FlattenSnoc<T>(a: seq<seq<T>>, x: seq<T>)
    ensures Flatten(a + [x]) == Flatten(a) + x
  {
    FlattenAppend(a, [x]);
    assert Flatten([x]) == x;
  }

  /** Piece `i` stands in the whole after the pieces before it. */
  lemma FlattenPrefix<T>(pieces: seq<seq<T>>, i: nat)
    requires i <= |pieces|
    ensures Flatten(pieces[..i]) <= Flatten(pieces)
  {
    hide Flatten;
    assert pieces == pieces[..i] + pieces[i..];
    FlattenAppend(pieces[..i], pieces[i..]);
  }

  lemma FlattenStep<T>(pieces: seq<seq<T>>, i: nat)
    requires i < |pieces|
    ensures Flatten(pieces[..i + 1]) == Flatten(pieces[..i]) + pieces[i]
  {
    assert pieces[..i + 1] == pieces[..i] + [pieces[i]];
    FlattenSnoc(pieces[..i], pieces[i]);
  }

  lemma FlattenAt<T>(pieces: seq<seq<T>>, i: nat)
    requires i < |pieces|
    ensures var a, b := |Flatten(pieces[..i])|, |Flatten(pieces[..i + 1])|;
      && b == a + |pieces[i]| <= |Flatten(pieces)|
      && Flatten(pieces)[a..b] == pieces[i]
  {
    FlattenSnoc(pieces[..i], pieces[i]);
    FlattenAppend(pieces[..i + 1], pieces[i + 1..]);
    assert pieces[..i] + [pieces[i]] == pieces[..i + 1];
    assert pieces[..i + 1] + pieces[i + 1..] == pieces;
  }

  /** The elements of `s` that satisfy `p`, in order. */
  function Filter<T>(s: seq<T>, p: T -> bool): (r: seq<T>) {
    if s == [] then []
    else (if p(s[0]) then [s[0]] else []) + Filter(s[1..], p)
  }

  lemma FilterAppend<T>(a: seq<T>, b: seq<T>, p: T -> bool)
    ensures Filter(a + b, p) == Filter(a, p) + Filter(b, p)
  {
    if a == [] {
      assert a + b == b;
    } else {
      var head := if p(a[0]) then [a[0]] else [];
      assert Filter(a, p) == head + Filter(a[1..], p);
      assert Filter(a + b, p) == head + Filter(a[1..] + b, p) by { assert (a + b)[1..] == a[1..] + b; }
      FilterAppend(a[1..], b, p);
      Associative(head, Filter(a[1..], p), Filter(b, p));
    }
  }

  lemma Associative<T>(a: seq<T>, b: seq<T>, c: seq<T>)
    ensures a + b + c == a + (b + c)
  {
  }

  lemma FilterNone<T>(s: seq<T>, p: T -> bool)
    requires forall x :: x in s ==> !p(x)
    ensures Filter(s, p) == []
  {
    if s != [] {
      FilterNone(s[1..], p);
      assert s[0] in s;
    }
  }

  predicate Distinct<T(==)>(s: seq<T>) {
    forall i, j :: 0 <= i < j < |s| ==> s[i] != s[j]
  }

  function ToSet<T>(s: seq<T>): set<T> { set x | x in s }

  /** The sum of `f` over the values of a map. */
  ghost function Sum<K, V>(m: map<K, V>, f: V -> nat): nat
    decreases |m|
  {
    if m == map[] then 0
    else
      var k :| k in m;
      f(m[k]) + Sum(m - {k}, f)
  }

  /** Any key may be taken out of the sum, not only the one the definition picks. */
  lemma {:induction false} SumRemove<K, V>(m: map<K, V>, f: V -> nat, k: K)
    requires k in m
    ensures Sum(m, f) == f(m[k]) + Sum(m - {k}, f)
    decreases |m|
  {
    var p :| p in m && Sum(m, f) == f(m[p]) + Sum(m - {p}, f);
    if p != k {
      SumRemove(m - {p}, f, k);
      SumRemove(m - {k}, f, p);
      assert m - {p} - {k} == m - {k} - {p};
    }
  }

  lemma SumInsert<K, V>(m: map<K, V>, f: V -> nat, k: K, v: V)
    ensures Sum(m[k := v], f) == f(v) + Sum(m - {k}, f)
    ensures k !in m ==> Sum(m[k := v], f) == f(v) + Sum(m, f)
    ensures k in m ==> Sum(m[k := v], f) + f(m[k]) == Sum(m, f) + f(v)
  {
    SumRemove(m[k := v], f, k);
    assert m[k := v] - {k} == m - {k};
    if k in m { SumRemove(m, f, k); } else { assert m - {k} == m; }
  }

  /** Some element of a set: directory listings and map iteration come in an order nothing relies on. */
  method Pick<T(==)>(s: set<T>) returns (x: T)
    requires s != {}
    ensures x in s
  {
    x :| x in s;
  }

  lemma SubsetSize<T>(a: set<T>, b: set<T>)
    requires a <= b
    ensures |a| <= |b| && (a != b ==> |a| < |b|)
  {
    assert b == a + (b - a);
    if a != b { assert b - a != {}; }
  }

  /** Fewer keys, a smaller sum. */
  lemma {:induction false} SumOfFewer<K, V>(a: map<K, V>, b: map<K, V>, f: V -> nat)
    requires forall k :: k in a ==> k in b && b[k] == a[k]
    ensures Sum(a, f) <= Sum(b, f)
    decreases |a|
  {
    if a != map[] {
      var k :| k in a;
      SumRemove(a, f, k);
      SumRemove(b, f, k);
      SumOfFewer(a - {k}, b - {k}, f);
    }
  }
}
