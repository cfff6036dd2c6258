/** Two facts about ordering and multiplication of reals that the nonlinear
    proofs elsewhere need spelled out. */
module Arith {

  /** The product of two non-negative reals is non-negative. */
  lemma NonNegProduct(a: real, b: real)
    ensures a >= 0.0 && b >= 0.0 ==> a * b >= 0.0
  {
  }

  /** Multiplying both sides by a non-negative factor keeps `<=`. */
  lemma MulLeft(c: real, a: real, b: real)
    requires c >= 0.0
    requires a <= b
    ensures c * a <= c * b
  {
  }
}
