/** Fixed-width integers and Go's base-128 varints, as bytes. */
module Endian {
  import opened Base

  function Pow256(w: nat): (r: nat)
    ensures r > 0
  {
    if w == 0 then 1 else 256 * Pow256(w - 1)
  }

  lemma Widths()
    ensures Pow256(2) == TWO16 && Pow256(4) == TWO32 && Pow256(8) == TWO64
  {
    assert Pow256(3) == 0x100_0000;
    assert Pow256(6) == 0x1_0000_0000_0000;
  }

  /** The base-256 digit of `n` with weight 256^k. */
  function Digit(n: nat, k: nat): byte {
    if k == 0 then n % 256 else Digit(n / 256, k - 1)
  }

  /** `w` big-endian bytes of `n`, truncating as a Go conversion does. */
  function BE(n: nat, w: nat): (r: Bytes)
    ensures |r| == w
  {
    seq(w, i requires 0 <= i < w => Digit(n, w - 1 - i))
  }

  function FromBE(b: Bytes): (n: nat) {
    if b == [] then 0 else FromBE(b[..|b| - 1]) * 256 + b[|b| - 1]
  }

  function LE(n: nat, w: nat): (r: Bytes)
    ensures |r| == w
  {
    seq(w, i requires 0 <= i < w => Digit(n, i))
  }

  function FromLE(b: Bytes): (n: nat) {
    if b == [] then 0 else b[0] + 256 * FromLE(b[1..])
  }

  lemma {:induction false} BERoundTrip(n: nat, w: nat)
    requires n < Pow256(w)
    ensures FromBE(BE(n, w)) == n
  {
    if w > 0 {
      BERoundTrip(n / 256, w - 1);
      forall i | 0 <= i < w - 1 ensures BE(n, w)[i] == BE(n / 256, w - 1)[i] {
        assert Digit(n, w - 1 - i) == Digit(n / 256, w - 2 - i);
      }
      assert BE(n, w)[..w - 1] == BE(n / 256, w - 1);
      assert BE(n, w)[w - 1] == Digit(n, 0) == n % 256;
    }
  }

  /** Every byte string is the encoding of the number it stands for. */
  lemma {:induction false} BEOfFromBE(b: Bytes)
    ensures BE(FromBE(b), |b|) == b
  {
    if b != [] {
      var w, n := |b|, FromBE(b);
      var front := b[..w - 1];
      BEOfFromBE(front);
      assert n / 256 == FromBE(front) && n % 256 == b[w - 1];
      forall i | 0 <= i < w ensures BE(n, w)[i] == b[i] {
        if i < w - 1 {
          assert BE(n, w)[i] == Digit(n, w - 1 - i) == Digit(n / 256, w - 2 - i);
          assert BE(FromBE(front), w - 1)[i] == Digit(FromBE(front), w - 2 - i) == front[i];
        } else {
          assert BE(n, w)[i] == Digit(n, 0) == n % 256;
        }
      }
    }
  }

  lemma {:induction false} FromBEBound(b: Bytes)
    ensures FromBE(b) < Pow256(|b|)
  {
    if b != [] { FromBEBound(b[..|b| - 1]); }
  }

  lemma {:induction false} LERoundTrip(n: nat, w: nat)
    requires n < Pow256(w)
    ensures FromLE(LE(n, w)) == n
  {
    if w > 0 {
      LERoundTrip(n / 256, w - 1);
      forall i | 0 <= i < w - 1 ensures LE(n, w)[1..][i] == LE(n / 256, w - 1)[i] {
        assert Digit(n, i + 1) == Digit(n / 256, i);
      }
      assert LE(n, w)[1..] == LE(n / 256, w - 1);
      assert LE(n, w)[0] == Digit(n, 0) == n % 256;
    }
  }

  lemma BE4(n: nat)
    requires n < TWO32
    ensures FromBE(BE(n, 4)) == n
  {
    Widths();
    BERoundTrip(n, 4);
  }

  lemma BE8(n: nat)
    requires n < TWO64
    ensures FromBE(BE(n, 8)) == n
  {
    Widths();
    BERoundTrip(n, 8);
  }

  lemma FromBE8Bound(b: Bytes)
    requires |b| == 8
    ensures FromBE(b) < TWO64
  {
    Widths();
    FromBEBound(b);
  }

  lemma LE2(n: nat)
    requires n < TWO16
    ensures FromLE(LE(n, 2)) == n
  {
    Widths();
    LERoundTrip(n, 2);
  }

  lemma LE4(n: nat)
    requires n < TWO32
    ensures FromLE(LE(n, 4)) == n
  {
    Widths();
    LERoundTrip(n, 4);
  }

  lemma LE8(n: nat)
    requires n < TWO64
    ensures FromLE(LE(n, 8)) == n
  {
    Widths();
    LERoundTrip(n, 8);
  }
}
