/**
 * Fixed-width integer helpers for a 32-bit hart: the two's-complement order
 * of words (a comparison after a C `(i32)` cast), sign extension from 8 and
 * 16 bits (`(i32)(i8)` and `(i32)(i16)`), narrowing to `u8`/`i16` parameters,
 * and the arithmetic right shift `(i32)v >> s`.
 */
module Bits {

  /**
   * `(i32)a < (i32)b`: the two's-complement order of two words. Flipping both
   * sign bits (bit 31, mask `0x8000_0000`) maps that order onto the unsigned one.
   */
  predicate LessSigned(a: bv32, b: bv32)
  {
    (a ^ 0x8000_0000) < (b ^ 0x8000_0000)
  }

  /** A word with its sign bit set is below every word without it in the signed order. */
  lemma NegativeBelowNonNegative(a: bv32, b: bv32)
    requires a & 0x8000_0000 != 0 && b & 0x8000_0000 == 0
    ensures LessSigned(a, b) && !LessSigned(b, a)
  {
  }

  /** Between words of the same sign the signed and the unsigned order agree. */
  lemma SameSignOrder(a: bv32, b: bv32)
    requires a & 0x8000_0000 == b & 0x8000_0000
    ensures LessSigned(a, b) == (a < b)
  {
  }

  /** `(i32)v < 0` holds exactly for the words whose sign bit is set. */
  lemma NegativeIffSignBit(v: bv32)
    ensures LessSigned(v, 0) == (v & 0x8000_0000 != 0)
  {
  }

  /**
   * `v` is the sign extension of its bits below `upper`: the bits that the
   * mask `upper` selects are either all clear or all set.
   */
  predicate SignExtended(v: bv32, upper: bv32)
  {
    v & upper == 0 || v & upper == upper
  }

  /** `(i32)(i8)b`: the low 8 bits are `b` and bits 8 to 31 are copies of its bit 7. */
  function Sext8(b: bv8): (r: bv32)
    ensures (r & 0xFF) as bv8 == b
    ensures SignExtended(r, 0xFFFF_FF80)
  {
    if b < 0x80 then b as bv32 else b as bv32 | 0xFFFF_FF00
  }

  /** `(i32)(i16)h`: the low 16 bits are `h` and bits 16 to 31 are copies of its bit 15. */
  function Sext16(h: bv16): (r: bv32)
    ensures (r & 0xFFFF) as bv16 == h
    ensures SignExtended(r, 0xFFFF_8000)
  {
    if h < 0x8000 then h as bv32 else h as bv32 | 0xFFFF_0000
  }

  /** Conversion of a word to a `u8` parameter: keeps the low 8 bits. */
  function Narrow8(v: bv32): (r: bv8)
    ensures r as bv32 == v & 0xFF
  {
    (v & 0xFF) as bv8
  }

  /** Conversion of a word to an `i16` parameter: keeps the low 16 bits. */
  function Narrow16(v: bv32): (r: bv16)
    ensures r as bv32 == v & 0xFFFF
  {
    (v & 0xFFFF) as bv16
  }

  /** Adding 4 and taking 4 away again, in either order, is no change in 32-bit arithmetic. */
  lemma PlusFourMinusFour(a: bv32, b: bv32)
    ensures a + 4 - 4 + b == a + b
    ensures a + 4 + (b - 4) == a + b
  {
  }

  /** A word sign-extended from bit 11 is also sign-extended from bit 15. */
  lemma SignExtendedFrom11(v: bv32)
    requires SignExtended(v, 0xFFFF_F800)
    ensures SignExtended(v, 0xFFFF_8000)
  {
  }

  /** A word sign-extended from bit 12 is also sign-extended from bit 15. */
  lemma SignExtendedFrom12(v: bv32)
    requires SignExtended(v, 0xFFFF_F000)
    ensures SignExtended(v, 0xFFFF_8000)
  {
  }

  /** A word that is the sign extension of its low 16 bits survives the trip through `i16`. */
  lemma NarrowSext16(v: bv32)
    requires SignExtended(v, 0xFFFF_8000)
    ensures Sext16(Narrow16(v)) == v
  {
    if v & 0xFFFF_8000 == 0 {
      NarrowSext16Positive(v);
    } else {
      NarrowSext16Negative(v);
    }
  }

  lemma NarrowSext16Positive(v: bv32)
    requires v & 0xFFFF_8000 == 0
    ensures Sext16(Narrow16(v)) == v
  {
  }

  lemma NarrowSext16Negative(v: bv32)
    requires v & 0xFFFF_8000 == 0xFFFF_8000
    ensures Sext16(Narrow16(v)) == v
  {
  }

  /** `v << s` on a `u32`; C leaves a shift by 32 or more undefined. */
  function Sll(v: bv32, s: bv32): (r: bv32)
    requires s < 32
  {
    v << s
  }

  /** `v >> s` on a `u32`: the vacated high bits are zero. */
  function Srl(v: bv32, s: bv32): (r: bv32)
    requires s < 32
  {
    v >> s
  }

  /** `(i32)v >> s` on a compiler whose signed right shift is arithmetic. */
  function Sra(v: bv32, s: bv32): (r: bv32)
    requires s < 32
  {
    if v & 0x8000_0000 == 0 then v >> s else !(!v >> s)
  }

  /** Shifting right logically and back left clears the low `s` bits. */
  lemma SrlBackClearsLowBits(v: bv32, s: bv32)
    requires s < 32
    ensures Sll(Srl(v, s), s) == v & Sll(0xFFFF_FFFF, s)
  {
  }

  /** The arithmetic shift keeps the sign bit. */
  lemma SraKeepsSign(v: bv32, s: bv32)
    requires s < 32
    ensures Sra(v, s) & 0x8000_0000 == v & 0x8000_0000
  {
  }

  /** An arithmetic shift by 31 spreads the sign bit over the whole word. */
  lemma SraBy31IsSignMask(v: bv32)
    ensures Sra(v, 31) == if v & 0x8000_0000 == 0 then 0 else 0xFFFF_FFFF
  {
  }
}
