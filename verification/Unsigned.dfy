/** Unsigned 64-bit arithmetic that saturates instead of wrapping around. */
module Unsigned {
  const TWO_64: int := 0x1_0000_0000_0000_0000

  type U64 = x: int | 0 <= x < TWO_64

  function Saturate(n: nat): U64 {
    if n < TWO_64 then n else TWO_64 - 1
  }

  function SaturatingAdd(a: U64, b: U64): U64 {
    Saturate(a + b)
  }

  function SaturatingSub(a: U64, b: U64): U64 {
    if a >= b then a - b else 0
  }

  function Max(a: U64, b: U64): U64 {
    if a >= b then a else b
  }
}
