/**
 * Conversions between bytes and integers, which the drivers make wherever a
 * C integer is stored into a uint8_t or a byte is widened back to an int.
 */
module Bytes {

  /** An integer in 0..255 converts to the byte of that value. */
  lemma ByteOfInt(x: int)
    requires 0 <= x < 0x100
    ensures (x as bv8) as int == x
  {
  }

  /** Bytes compare as the integers they stand for. */
  lemma BelowAsInt(b: bv8, c: bv8)
    ensures b < c <==> b as int < c as int
  {
  }

  /** A byte widened to an integer narrows back to the same byte. */
  lemma ByteRoundTrip(b: bv8)
    ensures 0 <= b as int < 0x100 && (b as int) as bv8 == b
  {
  }
}
