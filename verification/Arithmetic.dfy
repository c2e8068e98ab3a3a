/** Small integer functions shared by the timers and back-offs. */
module Arithmetic {

  const U32_MAX: nat := 0xffff_ffff

  function SaturatingInc(n: nat): nat { if n >= U32_MAX then U32_MAX else n + 1 }

  function Pow2(n: nat): (r: nat)
    ensures r >= 1
  {
    if n == 0 then 1 else 2 * Pow2(n - 1)
  }

  function Min(a: int, b: int): int { if a <= b then a else b }

  function Max(a: int, b: int): int { if a >= b then a else b }
}
