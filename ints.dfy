/** Go's 64-bit signed integers (`int64`, and `int` on a 64-bit platform). */
module Ints {

  const MinInt64: int := -0x8000_0000_0000_0000
  const MaxInt64: int := 0x7fff_ffff_ffff_ffff
  const Modulus: int := 0x1_0000_0000_0000_0000

  newtype int64 = x: int | -0x8000_0000_0000_0000 <= x < 0x8000_0000_0000_0000

  predicate InRange(x: int) {
    MinInt64 <= x <= MaxInt64
  }

  /** The two's-complement wrap-around Go applies to every int64 addition and subtraction. */
  function Wrap(x: int): (r: int64)
    ensures InRange(x) ==> r as int == x
    ensures (x - r as int) % Modulus == 0
  {
    ((x - MinInt64) % Modulus + MinInt64) as int64
  }
}
