/** 32-bit reason masks, as used by the motor disable mask and the global
    failsafe mask: reason `i` owns bit `1 << i`. The facts about setting and
    clearing are stated one per lemma, which keeps each bit-vector query
    small. */
module Bits {

  type Mask = bv32

  function Bit(i: bv5): Mask {
    1 << i
  }

  predicate HasBit(m: Mask, i: bv5) {
    m & Bit(i) != 0
  }

  /** `m |= (1 << i)` */
  function SetBit(m: Mask, i: bv5): Mask {
    m | Bit(i)
  }

  /** `m &= ~(1 << i)` */
  function ClearBit(m: Mask, i: bv5): Mask {
    m & !Bit(i)
  }

  lemma SetBitSets(m: Mask, i: bv5)
    ensures HasBit(SetBit(m, i), i)
  {
  }

  lemma ClearBitClears(m: Mask, i: bv5)
    ensures !HasBit(ClearBit(m, i), i)
  {
  }

  /** Setting a bit that is already set, or clearing one that is already
      clear, leaves the mask as it was; so both operations are idempotent. */
  lemma SetBitIdempotent(m: Mask, i: bv5)
    ensures HasBit(m, i) ==> SetBit(m, i) == m
    ensures SetBit(SetBit(m, i), i) == SetBit(m, i)
  {
  }

  lemma ClearBitIdempotent(m: Mask, i: bv5)
    ensures !HasBit(m, i) ==> ClearBit(m, i) == m
    ensures ClearBit(ClearBit(m, i), i) == ClearBit(m, i)
  {
  }

  lemma DistinctBitsDisjoint(i: bv5, j: bv5)
    requires i != j
    ensures Bit(j) & !Bit(i) == Bit(j)
  {
  }

  /** Setting bit `i` leaves every other bit as it was. */
  lemma SetKeepsOtherBit(m: Mask, i: bv5, j: bv5)
    requires i != j
    ensures HasBit(SetBit(m, i), j) == HasBit(m, j)
  {
    DistinctBitsDisjoint(i, j);
  }

  /** Clearing bit `i` leaves every other bit as it was. */
  lemma ClearKeepsOtherBit(m: Mask, i: bv5, j: bv5)
    requires i != j
    ensures HasBit(ClearBit(m, i), j) == HasBit(m, j)
  {
    DistinctBitsDisjoint(i, j);
  }

  /** A mask with any bit set is nonzero. */
  lemma BitSetMeansNonzero(m: Mask, i: bv5)
    requires HasBit(m, i)
    ensures m != 0
  {
  }
}
