/** Base 128 varints (Protocol Buffers Encoding, section "Base 128 Varints"):
    the bridge's append, length and read loops against their arithmetic meaning. */
module Varint {
  import opened Bits
  import opened Bytes

  /** The encoding of v: seven bits a byte, low group first, the top bit set on
      every byte but the last. */
  function VarintBytes(v: nat): (s: seq<byte>)
    ensures |s| > 0
  {
    if v < 128 then [v] else [v % 128 + 128] + VarintBytes(v / 128)
  }

  /** The number that the low seven bits of each byte spell. */
  function GroupsVal(s: seq<byte>): nat {
    if s == [] then 0 else s[0] % 128 + 128 * GroupsVal(s[1..])
  }

  /** Where a varint starting at pos ends: after the first byte below 0x80, or at
      the end of the data when there is none. */
  function VarintEnd(b: seq<byte>, pos: nat): (e: nat)
    requires pos <= |b|
    ensures pos <= e <= |b|
    ensures pos < |b| ==> pos < e
    decreases |b| - pos
  {
    if pos == |b| then pos
    else if b[pos] < 128 then pos + 1
    else VarintEnd(b, pos + 1)
  }

  /** The 64-bit value read at pos. */
  function VarintVal(b: seq<byte>, pos: nat): u64
    requires pos <= |b|
  {
    GroupsVal(b[pos..VarintEnd(b, pos)]) % TWO_64
  }

  // ---- the appending loop -------------------------------------------------

  /** byte(v) | 0x80 in terms of the low seven bits. */
  lemma ContinuationByte(v: nat, low: nat, top: nat)
    requires low == v % 256 && top == 128
    ensures Or(low, top) == v % 128 + 128
  {
    Pow2Words();
    OrTopBit(low, 7);
    LowBits(v);
    TopBit(low);
  }

  lemma LowBits(v: nat)
    ensures v % 256 % 128 == v % 128
  {}

  lemma TopBit(low: nat)
    requires low < 256
    ensures low % 128 == if low < 128 then low else low - 128
  {}

  method AppendVarint(buf: seq<byte>, v: u64) returns (out: seq<byte>)
    ensures out == buf + VarintBytes(v)
  {
    var rest: nat := v;
    out := buf;
    while rest >= 0x80
      invariant out + VarintBytes(rest) == buf + VarintBytes(v)
    {
      ContinuationByte(rest, rest % 256, 0x80);
      var next: byte := Or(rest % 256, 0x80);
      assert VarintBytes(rest) == [next] + VarintBytes(rest / 128);
      assert out + VarintBytes(rest) == out + [next] + VarintBytes(rest / 128);
      out := out + [next];
      rest := rest / 128;
    }
    out := out + [rest];
  }

  method VarintLen(v: u64) returns (n: nat)
    ensures n == |VarintBytes(v)|
  {
    n := 1;
    var rest: nat := v;
    while rest >= 0x80
      invariant n + |VarintBytes(rest)| == 1 + |VarintBytes(v)|
    {
      rest := rest / 128;
      n := n + 1;
    }
  }

  // ---- the two inverse laws -----------------------------------------------

  lemma {:induction false} VarintBytesVal(v: nat)
    ensures GroupsVal(VarintBytes(v)) == v
  {
    if v >= 128 {
      assert VarintBytes(v)[1..] == VarintBytes(v / 128);
      VarintBytesVal(v / 128);
    }
  }

  /** The top bit is set on every byte but the last. */
  lemma {:induction false} VarintByteAt(v: nat, k: nat)
    requires k < |VarintBytes(v)|
    ensures VarintBytes(v)[k] < 128 <==> k == |VarintBytes(v)| - 1
  {
    if k > 0 { VarintByteAt(v / 128, k - 1); }
  }

  lemma {:induction false} VarintBytesEnd(b: seq<byte>, pos: nat, v: nat)
    requires pos + |VarintBytes(v)| <= |b|
    requires b[pos..pos + |VarintBytes(v)|] == VarintBytes(v)
    ensures VarintEnd(b, pos) == pos + |VarintBytes(v)|
    decreases v
  {
    var e := VarintBytes(v);
    assert b[pos] == b[pos..pos + |e|][0] == e[0];
    if v >= 128 {
      assert b[pos + 1..pos + |e|] == b[pos..pos + |e|][1..] == VarintBytes(v / 128);
      VarintBytesEnd(b, pos + 1, v / 128);
    }
  }

  /** Reading what was appended, wherever it stands and whatever follows it. */
  lemma VarintRoundTrip(b: seq<byte>, pos: nat, v: u64)
    requires pos + |VarintBytes(v)| <= |b|
    requires b[pos..pos + |VarintBytes(v)|] == VarintBytes(v)
    ensures VarintVal(b, pos) == v
    ensures VarintEnd(b, pos) == pos + |VarintBytes(v)|
  {
    VarintBytesEnd(b, pos, v);
    VarintBytesVal(v);
  }

  lemma {:induction false} VarintBytesBound(v: nat, groups: nat)
    requires groups > 0 && v < Pow2(7 * groups)
    ensures |VarintBytes(v)| <= groups
  {
    if v >= 128 {
      Pow2Words();
      Pow2Add(7, 7 * (groups - 1));
      assert 7 * groups == 7 + 7 * (groups - 1);
      VarintBytesBound(v / 128, groups - 1);
    }
  }

  lemma VarintAtMostTenBytes(v: u64)
    ensures |VarintBytes(v)| <= 10
  {
    Pow2Words();
    Pow2Monotone(64, 70);
    VarintBytesBound(v, 10);
  }

  lemma Int32Wrap(i: i32)
    ensures ToI32(ToU64(i)) == i
  {
    if i < 0 {
      assert ToU64(i) == (i + TWO_32) + (TWO_32 - 1) * TWO_32;
    }
  }

  lemma LongVarint(v: u64)
    requires v >= TWO_63
    ensures |VarintBytes(v)| == 10
  {
    VarintAtMostTenBytes(v);
    GroupsBound(VarintBytes(v));
    VarintBytesVal(v);
    Pow2Words();
    Pow2Add(1, 63);
    if |VarintBytes(v)| <= 9 {
      Pow2Monotone(7 * |VarintBytes(v)|, 63);
    }
  }

  /** A negative int32 travels sign-extended, in ten bytes, and truncates back. */
  lemma Int32RoundTrip(b: seq<byte>, pos: nat, i: i32)
    requires var e := VarintBytes(ToU64(i)); pos + |e| <= |b| && b[pos..pos + |e|] == e
    ensures ToI32(VarintVal(b, pos)) == i
    ensures i < 0 ==> |VarintBytes(ToU64(i))| == 10
  {
    VarintRoundTrip(b, pos, ToU64(i));
    Int32Wrap(i);
    if i < 0 { LongVarint(ToU64(i)); }
  }

  // ---- the reading loop ---------------------------------------------------

  lemma {:induction false} GroupsBound(s: seq<byte>)
    ensures GroupsVal(s) < Pow2(7 * |s|)
  {
    if s != [] {
      GroupsBound(s[1..]);
      Pow2Add(7, 7 * |s[1..]|);
      Pow2Words();
      assert 7 * |s| == 7 + 7 * |s[1..]|;
    }
  }

  lemma MulSwap(m: nat, p: nat)
    ensures 128 * (m * p) == m * (128 * p)
  {}

  lemma {:induction false} GroupsAppend(s: seq<byte>, c: byte)
    ensures GroupsVal(s + [c]) == GroupsVal(s) + (c % 128) * Pow2(7 * |s|)
  {
    if s == [] {
      assert s + [c] == [c];
      assert GroupsVal([c]) == c % 128;
    } else {
      assert (s + [c])[1..] == s[1..] + [c];
      GroupsAppend(s[1..], c);
      Pow2Add(7, 7 * |s[1..]|);
      Pow2Words();
      assert 7 * |s| == 7 + 7 * |s[1..]|;
      MulSwap(c % 128, Pow2(7 * |s[1..]|));
    }
  }

  /** Adding (m*q) to a number below q, modulo hi*q, keeps the low hi of m and does
      not carry. */
  lemma KeepLow(m: nat, hi: nat, q: nat, v: nat)
    requires hi > 0 && v < q
    ensures m % hi * q + v < hi * q
    ensures (v + m * q) % (hi * q) == v + m % hi * q
  {
    var d, r := m / hi, m % hi;
    DivMod(m, hi);
    Distribute(d, hi, r, q);
    MulMonotone(r, hi, q);
    Remainder(d, hi * q, v + r * q);
  }

  lemma Distribute(d: nat, hi: nat, r: nat, q: nat)
    ensures (d * hi + r) * q == d * (hi * q) + r * q
  {
    MulAssoc(d, hi, q);
  }

  /** A group shifted by at least the word size vanishes. */
  lemma ShiftedOut(m: nat, shift: nat, v: nat)
    requires shift >= 64
    ensures (v + m * Pow2(shift)) % TWO_64 == v % TWO_64
  {
    var q := Pow2(shift - 64);
    assert Pow2(shift) == q * TWO_64 by {
      Pow2Words();
      Pow2Add(shift - 64, 64);
    }
    MulAssoc(m, q, TWO_64);
    WholeWords(v, m * q);
  }

  lemma WholeWords(v: nat, k: nat)
    ensures (v + k * TWO_64) % TWO_64 == v % TWO_64
  {}

  /** v |= uint64(c&0x7f) << shift adds the next group modulo 2^64, also once the
      shift has run past the word. */
  lemma AccumulateGroup(s: seq<byte>, c: byte)
    ensures Or(GroupsVal(s) % TWO_64, Shl64(c % 128, 7 * |s|)) == GroupsVal(s + [c]) % TWO_64
  {
    GroupsAppend(s, c);
    GroupsBound(s);
    AccumulateAt(GroupsVal(s), c % 128, 7 * |s|, GroupsVal(s + [c]));
  }

  lemma NextGroup(b: seq<byte>, start: nat, pos: nat, shift: nat)
    requires start <= pos < |b| && shift == 7 * (pos - start)
    ensures Or(GroupsVal(b[start..pos]) % TWO_64, Shl64(b[pos] % 128, shift)) == GroupsVal(b[start..pos + 1]) % TWO_64
  {
    AccumulateGroup(b[start..pos], b[pos]);
    assert b[start..pos + 1] == b[start..pos] + [b[pos]];
  }

  lemma AccumulateAt(v: nat, m: u64, shift: nat, sum: nat)
    requires v < Pow2(shift) && sum == v + m * Pow2(shift)
    ensures Or(v % TWO_64, Shl64(m, shift)) == sum % TWO_64
  {
    if shift >= 64 {
      ShiftedOut(m, shift, v);
      ShiftedOut(m, shift, 0);
    } else {
      var hi, q := Pow2(64 - shift), Pow2(shift);
      Pow2Add(64 - shift, shift);
      Pow2Words();
      assert hi * q == TWO_64;
      KeepLow(m, hi, q, v);
      KeepLow(m, hi, q, 0);
      assert v % TWO_64 == v by { Pow2Monotone(shift, 64); }
      OrDisjoint(v, m % hi, shift);
    }
  }
}
