/** Bitwise operations on natural numbers: the meaning of Go's `|`, `&^` and `<<`
    on unsigned words, bit by bit. */
module Bits {

  const TWO_32 := 0x1_0000_0000
  const TWO_63 := 0x8000_0000_0000_0000
  const TWO_64 := 0x1_0000_0000_0000_0000

  type u32 = x: int | 0 <= x < 0x1_0000_0000
  type u64 = x: int | 0 <= x < 0x1_0000_0000_0000_0000
  type i32 = x: int | -0x8000_0000 <= x < 0x8000_0000
  type i64 = x: int | -0x8000_0000_0000_0000 <= x < 0x8000_0000_0000_0000

  /** Two's complement conversions between words of equal or different width. */
  function ToI64(v: u64): i64 { if v < TWO_63 then v else v - TWO_64 }

  function ToU64(i: i64): u64 { if i >= 0 then i else i + TWO_64 }

  function ToI32(v: u64): i32 {
    var low := v % TWO_32;
    if low < 0x8000_0000 then low else low - TWO_32
  }

  /** Wrap an integer to 64-bit two's complement, as Go's `int` addition does. */
  function Wrap64(x: int): i64 { ToI64(x % TWO_64) }

  /** Each conversion keeps the bits: it changes the number by a multiple of the width. */
  lemma ConversionsKeepBits(v: u64, i: i64, x: int)
    ensures (ToI64(v) - v) % TWO_64 == 0 && (ToU64(i) - i) % TWO_64 == 0
    ensures (ToI32(v) - v) % TWO_32 == 0 && (Wrap64(x) - x) % TWO_64 == 0
  {
    assert v == v / TWO_32 * TWO_32 + v % TWO_32;
    assert x == x / TWO_64 * TWO_64 + x % TWO_64;
  }

  function Pow2(n: nat): (r: nat)
    ensures r > 0
  {
    if n == 0 then 1 else 2 * Pow2(n - 1)
  }

  predicate Bit(a: nat, i: nat) {
    if i == 0 then a % 2 == 1 else Bit(a / 2, i - 1)
  }

  function Or(a: nat, b: nat): nat {
    if a == 0 then b
    else if b == 0 then a
    else (if a % 2 == 1 || b % 2 == 1 then 1 else 0) + 2 * Or(a / 2, b / 2)
  }

  /** Go's `a &^ b`. */
  function AndNot(a: nat, b: nat): nat {
    if a == 0 then 0
    else (if a % 2 == 1 && b % 2 == 0 then 1 else 0) + 2 * AndNot(a / 2, b / 2)
  }

  /** Go's `a << s` on a 64-bit word; a shift of 64 or more gives 0. */
  function Shl64(a: u64, s: nat): u64 { (a * Pow2(s)) % TWO_64 }

  lemma BitZero(i: nat)
    ensures !Bit(0, i)
  {}

  lemma {:induction false} OrBit(a: nat, b: nat, i: nat)
    ensures Bit(Or(a, b), i) <==> Bit(a, i) || Bit(b, i)
  {
    BitZero(i);
    if a != 0 && b != 0 && i > 0 {
      OrBit(a / 2, b / 2, i - 1);
    }
  }

  lemma {:induction false} AndNotBit(a: nat, b: nat, i: nat)
    ensures Bit(AndNot(a, b), i) <==> Bit(a, i) && !Bit(b, i)
  {
    BitZero(i);
    if a != 0 && i > 0 {
      AndNotBit(a / 2, b / 2, i - 1);
    }
  }

  lemma {:induction false} BitPow2(k: nat, i: nat)
    ensures Bit(Pow2(k), i) <==> i == k
  {
    if k == 0 {
      if i > 0 { BitZero(i - 1); }
    } else if i > 0 {
      BitPow2(k - 1, i - 1);
    }
  }

  lemma {:induction false} OrBound(a: nat, b: nat, k: nat)
    requires a < Pow2(k) && b < Pow2(k)
    ensures Or(a, b) < Pow2(k)
  {
    if a != 0 && b != 0 { OrBound(a / 2, b / 2, k - 1); }
  }

  lemma {:induction false} AndNotBound(a: nat, b: nat)
    ensures AndNot(a, b) <= a
  {
    if a != 0 { AndNotBound(a / 2, b / 2); }
  }

  /** Setting the top bit of a (k+1)-bit number. */
  lemma {:induction false} OrTopBit(a: nat, k: nat)
    requires a < 2 * Pow2(k)
    ensures Or(a, Pow2(k)) == if a < Pow2(k) then a + Pow2(k) else a
  {
    if k == 0 {
      assert a == 0 || a == 1;
    } else if a != 0 {
      OrTopBit(a / 2, k - 1);
    }
  }

  /** Operands without a common bit: `or` is addition. */
  lemma {:induction false} OrDisjoint(a: nat, m: nat, k: nat)
    requires a < Pow2(k)
    ensures Or(a, m * Pow2(k)) == a + m * Pow2(k)
  {
    if k > 0 && a != 0 && m != 0 {
      assert m * Pow2(k) == 2 * (m * Pow2(k - 1));
      OrDisjoint(a / 2, m, k - 1);
    } else if k == 0 {
      assert a == 0;
    }
  }

  lemma {:induction false} Pow2Add(m: nat, n: nat)
    ensures Pow2(m + n) == Pow2(m) * Pow2(n)
  {
    if m > 0 { Pow2Add(m - 1, n); }
  }

  lemma {:induction false} Pow2Monotone(m: nat, n: nat)
    requires m <= n
    ensures Pow2(m) <= Pow2(n)
  {
    if m < n { Pow2Monotone(m, n - 1); }
  }

  lemma Pow2Words()
    ensures Pow2(3) == 8 && Pow2(7) == 128 && Pow2(8) == 256
    ensures Pow2(32) == TWO_32 && Pow2(64) == TWO_64
  {
    assert Pow2(4) == 16;
    assert Pow2(7) == 128;
    Pow2Add(8, 8);
    Pow2Add(16, 16);
    Pow2Add(32, 32);
  }

  // ---- quotients ------------------------------------------------------------

  lemma MulAssoc(a: nat, b: nat, c: nat)
    ensures a * (b * c) == a * b * c
  {}

  lemma MulMonotone(a: nat, b: nat, n: nat)
    requires a < b
    ensures a * n + n <= b * n
  {
    assert (b - a - 1) * n >= 0;
    assert b * n == a * n + n + (b - a - 1) * n;
  }

  lemma QuotientUnique(d: nat, d': nat, n: nat, r: nat, r': nat)
    requires r < n && r' < n && d * n + r == d' * n + r'
    ensures d == d'
  {
    if d < d' { MulMonotone(d, d', n); }
    if d' < d { MulMonotone(d', d, n); }
  }

  lemma DivMod(x: nat, n: nat)
    requires n > 0
    ensures x == (x / n) * n + x % n
  {}

  lemma Remainder(d: nat, n: nat, r: nat)
    requires r < n
    ensures (d * n + r) % n == r
  {
    var x := d * n + r;
    DivMod(x, n);
    QuotientUnique(d, x / n, n, r, x % n);
  }
}
