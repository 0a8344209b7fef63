/** Fixed-width integers of the program, whose addition wraps around, and rounding up. */
module Ints {

  type Byte = b: int | 0 <= b < 256
  type Int32 = x: int | -0x8000_0000 <= x < 0x8000_0000
  type Int64 = x: int | -0x8000_0000_0000_0000 <= x < 0x8000_0000_0000_0000

  function Add32(a: Int32, b: Int32): Int32 {
    if a + b >= 0x8000_0000 then a + b - 0x1_0000_0000
    else if a + b < -0x8000_0000 then a + b + 0x1_0000_0000
    else a + b
  }

  function Add64(a: Int64, b: Int64): Int64 {
    if a + b >= 0x8000_0000_0000_0000 then a + b - 0x1_0000_0000_0000_0000
    else if a + b < -0x8000_0000_0000_0000 then a + b + 0x1_0000_0000_0000_0000
    else a + b
  }

  /** Equal up to a multiple of the width of an int64. */
  predicate Congruent(x: int, y: int) {
    (x - y) % 0x1_0000_0000_0000_0000 == 0
  }

  predicate FitsInt64(x: int) {
    -0x8000_0000_0000_0000 <= x < 0x8000_0000_0000_0000
  }

  /** Wrapping addition is addition, up to a multiple of the width. */
  lemma AddIsSum(a: Int64, b: Int64, sum: int)
    requires Congruent(b, sum)
    ensures Congruent(Add64(a, b), a + sum) && (FitsInt64(a + sum) ==> Add64(a, b) == a + sum)
  {
  }

  function Ceil(x: real): int {
    -((-x).Floor)
  }

  lemma CeilMeans(x: real, n: int)
    ensures n < Ceil(x) <==> n as real < x
  {
  }
}
