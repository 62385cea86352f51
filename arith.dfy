/** Small facts of nonlinear integer arithmetic that the solver does not find
    unaided inside larger proofs. */
module Arith {
  lemma MulStrictlyMonotone(k: nat, x: nat, y: nat)
    requires k > 0 && x < y
    ensures k * x < k * y
  {
  }

  lemma MulCancel(x: int, y: int, d: int)
    requires d > 0 && x * d <= y * d
    ensures x <= y
  {
  }

  lemma MulCancelStrict(x: nat, y: nat, d: nat)
    requires d > 0 && x * d < y * d
    ensures x < y
  {
  }

  lemma PositiveFactor(x: nat, y: nat)
    requires x * y > 0
    ensures x > 0
  {
  }

  lemma PositiveProduct(x: nat, y: nat)
    requires x > 0 && y > 0
    ensures x * y > 0
  {
  }

  lemma SplitProduct(x: int, a: int, b: int)
    ensures x * (a + b) == x * a + x * b
  {
  }

  lemma MulAssoc(x: int, y: int, z: int)
    ensures x * (y * z) == x * y * z
  {
  }

  lemma MulLeMonotone(x: int, y: int, k: int)
    requires x <= y && 0 <= k
    ensures x * k <= y * k
  {
  }
}
