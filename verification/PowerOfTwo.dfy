// bson_next_power_of_two and bson_is_power_of_two, trusted/include/libbson-1.0/bson-types.h:539-561, on the
// 64-bit words the enclave is built for.

module PowerOfTwo {

  const TOP: bv64 := 0x8000_0000_0000_0000
  const ONES: bv64 := 0xffff_ffff_ffff_ffff

  // Exactly one bit set.
  predicate OneBit(p: bv64) { p != 0 && p & (p - 1) == 0 }

  // `r` is the least power of two that is not below `v`.
  ghost predicate IsLeastPower(v: bv64, r: bv64) {
    OneBit(r) && v <= r && forall p :: OneBit(p) && v <= p ==> r <= p
  }

  // Every power of two above `x` is above `r`.
  ghost predicate NoPowerBetween(x: bv64, r: bv64) {
    forall p :: OneBit(p) && x < p ==> r < p
  }

  /** The or-shifts: they fill in the bits below the highest one, and set none above it. */
  method Smear(v: bv64) returns (r: bv64)
    ensures v <= r && r & (r + 1) == 0
    ensures NoPowerBetween(v, r)
    ensures v >= TOP ==> r == ONES
  {
    r := v;
    r := r | (r >> 1);
    r := r | (r >> 2);
    r := r | (r >> 4);
    r := r | (r >> 8);
    r := r | (r >> 16);
    r := r | (r >> 32);
  }

  lemma Predecessor(v: bv64, p: bv64)
    requires 1 <= v <= p && OneBit(p)
    ensures v - 1 < p
  {
  }

  lemma Successor(x: bv64, p: bv64)
    requires x < p && x & (x + 1) == 0 && OneBit(p)
    ensures x + 1 <= p
  {
  }

  lemma MaskPlusOne(v: bv64, r: bv64)
    requires 1 <= v && v - 1 <= r < TOP && r & (r + 1) == 0
    ensures OneBit(r + 1) && v <= r + 1
  {
  }

  lemma TopIsAbove(v: bv64, r: bv64)
    requires 1 <= v <= TOP && NoPowerBetween(v - 1, r)
    ensures r < TOP
  {
    assert OneBit(TOP);
    Predecessor(v, TOP);
  }

  lemma NextPowers(v: bv64, r: bv64)
    requires 1 <= v && r & (r + 1) == 0 && NoPowerBetween(v - 1, r)
    ensures forall p :: OneBit(p) && v <= p ==> r + 1 <= p
  {
    forall p | OneBit(p) && v <= p ensures r + 1 <= p {
      Predecessor(v, p);
      Successor(r, p);
    }
  }

  lemma LeastFromMask(v: bv64, r: bv64)
    requires 1 <= v <= TOP && v - 1 <= r && r & (r + 1) == 0 && NoPowerBetween(v - 1, r)
    ensures IsLeastPower(v, r + 1)
  {
    hide OneBit;
    TopIsAbove(v, r);
    MaskPlusOne(v, r);
    NextPowers(v, r);
  }

  /** bson_next_power_of_two: the least power of two that is not below `v`, and 0 when there is none or `v` is 0. */
  method NextPowerOfTwo(v: bv64) returns (r: bv64)
    ensures 1 <= v <= TOP ==> IsLeastPower(v, r)
    ensures v == 0 || v > TOP ==> r == 0
  {
    hide OneBit;
    hide IsLeastPower;
    hide NoPowerBetween;
    r := Smear(v - 1);
    if 1 <= v <= TOP {
      LeastFromMask(v, r);
    }
    r := r + 1;
  }

  function Log2(p: bv64): bv64 {
    (if p & 0xaaaa_aaaa_aaaa_aaaa != 0 then 1 else 0)
    + (if p & 0xcccc_cccc_cccc_cccc != 0 then 2 else 0)
    + (if p & 0xf0f0_f0f0_f0f0_f0f0 != 0 then 4 else 0)
    + (if p & 0xff00_ff00_ff00_ff00 != 0 then 8 else 0)
    + (if p & 0xffff_0000_ffff_0000 != 0 then 16 else 0)
    + (if p & 0xffff_ffff_0000_0000 != 0 then 32 else 0)
  }

  /** One bit set is the same as being 2^k for some k below 64. */
  lemma OneBitIsPower(p: bv64)
    ensures OneBit(p) ==> Log2(p) < 64 && p == 1 << Log2(p)
  {
  }

  lemma PowerIsOneBit(k: bv64)
    requires k < 64
    ensures OneBit(1 << k) && Log2(1 << k) == k
  {
  }

  // bson_is_power_of_two, which takes a 32-bit word
  predicate IsPowerOfTwo32(v: bv32) { v != 0 && v & (v - 1) == 0 }

  predicate IsShift(v: bv32, k: bv32) { k < 32 && v == 1 << k }

  function Log2OfWord(p: bv32): bv32 {
    (if p & 0xaaaa_aaaa != 0 then 1 else 0)
    + (if p & 0xcccc_cccc != 0 then 2 else 0)
    + (if p & 0xf0f0_f0f0 != 0 then 4 else 0)
    + (if p & 0xff00_ff00 != 0 then 8 else 0)
    + (if p & 0xffff_0000 != 0 then 16 else 0)
  }

  lemma PowerIsShift(v: bv32)
    requires IsPowerOfTwo32(v)
    ensures IsShift(v, Log2OfWord(v))
  {
  }

  lemma ShiftIsPower(v: bv32, k: bv32)
    requires IsShift(v, k)
    ensures IsPowerOfTwo32(v)
  {
  }

  /** bson_is_power_of_two accepts the 32 powers of two and nothing else. */
  lemma IsPowerOfTwoExactly(v: bv32)
    ensures IsPowerOfTwo32(v) <==> exists k :: IsShift(v, k)
  {
    if IsPowerOfTwo32(v) { PowerIsShift(v); }
    if k :| IsShift(v, k) { ShiftIsPower(v, k); }
  }

  /** Up to 2^31 the result of bson_next_power_of_two is accepted. */
  method NextIsAccepted(v: bv64) returns (r: bv64)
    requires 1 <= v <= 0x8000_0000
    ensures IsLeastPower(v, r) && r <= 0x8000_0000 && IsPowerOfTwo32(r as bv32)
  {
    r := NextPowerOfTwo(v);
    assert OneBit(0x8000_0000);
  }
}
