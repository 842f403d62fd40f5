/** Powers of two, and the lesser and the greater of two numbers. */
module Arithmetic {
  function Pow2(k: nat): (p: nat)
    ensures p > 0
  {
    if k == 0 then 1 else 2 * Pow2(k - 1)
  }

  function Min(m: nat, n: nat): nat { if m < n then m else n }

  function Max(m: int, n: int): int { if m < n then n else m }
}
