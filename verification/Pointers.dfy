/** The packed (pointer, length) word of a 32-bit guest. */
module Pointers {
  import opened Bits

  /** Guest pointers are unsigned; Go holds their bit pattern in an int32. */
  function WptrOff(p: i32): u32 { if p >= 0 then p else p + TWO_32 }

  /** int64(ptr)<<32 | int64(len), as the bits of the 64-bit word. */
  function PackResult(ptr: i32, len: nat): nat { Or(WptrOff(ptr) * TWO_32, len) }

  /** The high and the low half. */
  function DecodeResult(packed: nat): (nat, nat) { (packed / TWO_32, packed % TWO_32) }

  /** What the host packs the guest unpacks, for every pointer pattern, exactly when the
      length fits 32 bits. */
  lemma ResultRoundTrip(ptr: i32, len: nat)
    ensures DecodeResult(PackResult(ptr, len)) == (WptrOff(ptr), len) <==> len < TWO_32
  {
    if len < TWO_32 {
      Pow2Words();
      OrDisjoint(len, WptrOff(ptr), 32);
      OrSwap(WptrOff(ptr) * TWO_32, len);
      Halves(WptrOff(ptr), len);
    }
  }

  /** The offset is the pointer's bit pattern read as unsigned; the pointer is the high half
      of the packed word and the length the low one. */
  lemma PackedHalves(ptr: i32, len: nat)
    requires len < TWO_32
    ensures (WptrOff(ptr) - ptr) % TWO_32 == 0
    ensures PackResult(ptr, len) % TWO_32 == len && (PackResult(ptr, len) / TWO_32 - ptr) % TWO_32 == 0
  {
    Pow2Words();
    OrDisjoint(len, WptrOff(ptr), 32);
    OrSwap(WptrOff(ptr) * TWO_32, len);
    Halves(WptrOff(ptr), len);
  }

  lemma OrSwap(a: nat, b: nat)
    ensures Or(a, b) == Or(b, a)
    decreases a
  {}

  lemma Halves(hi: nat, lo: nat)
    requires lo < TWO_32
    ensures (lo + hi * TWO_32) / TWO_32 == hi && (lo + hi * TWO_32) % TWO_32 == lo
  {}
}
