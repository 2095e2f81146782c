/** Bytes as numbers. */
module Bytes {
  lemma ByteOf(digit: int)
    requires 0 <= digit < 256
    ensures (digit as bv8) as int == digit
  {
  }
}
