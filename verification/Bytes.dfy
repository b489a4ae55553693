/** Byte strings and the integers they carry: little- and big-endian words, and
    the minimal magnitudes that Go's big.Int.Bytes produces. */
module Bytes {
  import opened Bits

  type byte = x: int | 0 <= x < 256

  function Pow256(n: nat): (r: nat)
    ensures r > 0
  {
    if n == 0 then 1 else 256 * Pow256(n - 1)
  }

  /** The n low bytes of v, least significant first. */
  function LE(n: nat, v: nat): (s: seq<byte>)
    ensures |s| == n
  {
    if n == 0 then [] else [v % 256] + LE(n - 1, v / 256)
  }

  function LEVal(s: seq<byte>): nat {
    if s == [] then 0 else s[0] + 256 * LEVal(s[1..])
  }

  /** The value of s read most significant byte first (big.Int.SetBytes). */
  function BEVal(s: seq<byte>): nat {
    if s == [] then 0 else 256 * BEVal(s[..|s| - 1]) + s[|s| - 1]
  }

  /** Minimal big-endian form of v (big.Int.Bytes): empty for 0. */
  function BEMin(v: nat): seq<byte> {
    if v == 0 then [] else BEMin(v / 256) + [v % 256]
  }

  function Reversed(s: seq<byte>): (r: seq<byte>)
    ensures |r| == |s|
    ensures forall k :: 0 <= k < |s| ==> r[k] == s[|s| - 1 - k]
  {
    if s == [] then [] else Reversed(s[1..]) + [s[0]]
  }

  lemma Associative<T>(a: seq<T>, b: seq<T>, c: seq<T>)
    ensures a + b + c == a + (b + c)
  {}

  lemma {:induction false} LEValBound(s: seq<byte>)
    ensures LEVal(s) < Pow256(|s|)
  {
    if s != [] { LEValBound(s[1..]); }
  }

  /** Reading back a little-endian word gives the value, reduced to its width. */
  lemma {:induction false} LERoundTrip(n: nat, v: nat)
    requires v < Pow256(n)
    ensures LEVal(LE(n, v)) == v
  {
    if n > 0 {
      assert LE(n, v)[1..] == LE(n - 1, v / 256);
      LERoundTrip(n - 1, v / 256);
    }
  }

  /** Byte k of a little-endian word. */
  lemma {:induction false} LEByte(n: nat, v: nat, k: nat)
    requires k < n
    ensures LE(n, v)[k] == v / Pow256(k) % 256
  {
    if k > 0 {
      LEByte(n - 1, v / 256, k - 1);
      DivTwice(v, Pow256(k - 1));
    }
  }

  lemma DivTwice(v: nat, m: nat)
    requires m > 0
    ensures v / 256 / m == v / (256 * m)
  {
    var w := v / 256;
    DivMod(v, 256);
    DivMod(w, m);
    Regrouped(v, w, v % 256, m, w / m, w % m);
    QuotientIs(v, 256 * m, w / m, 256 * (w % m) + v % 256);
  }

  lemma Regrouped(v: nat, w: nat, low: nat, m: nat, q: nat, r: nat)
    requires v == w * 256 + low && w == q * m + r && low < 256 && r < m
    ensures v == q * (256 * m) + (256 * r + low) && 256 * r + low < 256 * m
  {
    assert (q * m) * 256 == q * (256 * m);
  }

  lemma QuotientIs(v: nat, n: nat, q: nat, rest: nat)
    requires rest < n && v == q * n + rest
    ensures v / n == q
  {
    DivMod(v, n);
    QuotientUnique(q, v / n, n, rest, v % n);
  }

  /** The magnitude of a number has no leading zero byte. */
  lemma {:induction false} BEMinLeading(v: nat)
    requires v > 0
    ensures |BEMin(v)| > 0 && BEMin(v)[0] != 0
  {
    if v >= 256 { BEMinLeading(v / 256); }
  }

  lemma {:induction false} ReversedTwice(s: seq<byte>)
    ensures Reversed(Reversed(s)) == s
  {
    var rr := Reversed(Reversed(s));
    forall k | 0 <= k < |s| ensures rr[k] == s[k] {
      assert rr[k] == Reversed(s)[|s| - 1 - k];
    }
  }

  lemma {:induction false} BEValReversed(s: seq<byte>)
    ensures BEVal(Reversed(s)) == LEVal(s)
  {
    if s != [] {
      var r := Reversed(s);
      assert r[..|r| - 1] == Reversed(s[1..]);
      BEValReversed(s[1..]);
    }
  }

  lemma {:induction false} BEMinRoundTrip(v: nat)
    ensures BEVal(BEMin(v)) == v
  {
    if v != 0 {
      var s := BEMin(v);
      assert s[..|s| - 1] == BEMin(v / 256);
      BEMinRoundTrip(v / 256);
    }
  }

  lemma {:induction false} MagnitudeRoundTrip(v: nat)
    ensures LEVal(Reversed(BEMin(v))) == v
  {
    BEMinRoundTrip(v);
    BEValReversed(Reversed(BEMin(v)));
    ReversedTwice(BEMin(v));
  }

  lemma WordSizes()
    ensures Pow256(1) == 256 && Pow256(2) == 65536
    ensures Pow256(4) == TWO_32 && Pow256(8) == TWO_64
  {
    assert Pow256(3) == 0x100_0000;
    assert Pow256(4) == TWO_32;
    assert Pow256(6) == 0x1_0000_0000_0000;
  }

  /** In-place reversal by swapping from both ends (the encoder's loop over mag). */
  method ReverseInPlace(mag: array<byte>)
    modifies mag
    ensures mag[..] == Reversed(old(mag[..]))
  {
    var i, j := 0, mag.Length - 1;
    while i < j
      invariant 0 <= i <= mag.Length && i + j == mag.Length - 1
      invariant i <= j + 1
      invariant forall k :: 0 <= k < i ==>
        mag[k] == old(mag[mag.Length - 1 - k]) && mag[mag.Length - 1 - k] == old(mag[k])
      invariant forall k :: i <= k <= j ==> mag[k] == old(mag[k])
    {
      mag[i], mag[j] := mag[j], mag[i];
      i, j := i + 1, j - 1;
    }
    ghost var was := old(mag[..]);
    forall k | 0 <= k < mag.Length ensures mag[k] == Reversed(was)[k] {
      if k < i {
      } else if k > j {
        assert mag[mag.Length - 1 - (mag.Length - 1 - k)] == mag[k];
      }
    }
  }

  /** The decoder's copying loop: a fresh buffer filled from the far end. */
  method ReversedCopy(mag: seq<byte>) returns (be: array<byte>)
    ensures fresh(be) && be[..] == Reversed(mag)
  {
    be := new byte[|mag|](_ => 0);
    for i := 0 to |mag|
      invariant forall k :: |mag| - i <= k < |mag| ==> be[k] == mag[|mag| - 1 - k]
    {
      be[|mag| - 1 - i] := mag[i];
    }
  }
}
