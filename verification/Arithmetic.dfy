/** Integer facts shared by several modules. */
module Arithmetic {

  function Min(a: int, b: int): int { if a <= b then a else b }

  function Max(a: int, b: int): int { if a >= b then a else b }

  lemma MulMonotone(x: nat, a: nat, b: nat)
    requires a <= b
    ensures x * a <= x * b
  {
    assert x * b - x * a == x * (b - a);
  }
}
