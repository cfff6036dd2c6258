/** Exponentiation with a natural exponent, the part of `Math.pow` the loan formula needs. */
module Power {
  import opened Arith

  /** `x` raised to the `n`-th power. */
  function Pow(x: real, n: nat): (p: real)
    ensures x > 0.0 ==> p > 0.0
    ensures x >= 1.0 ==> p >= 1.0
  {
    if n == 0 then 1.0 else x * Pow(x, n - 1)
  }

  /** One more factor of the base. */
  lemma PowStep(x: real, n: nat)
    requires n > 0
    ensures Pow(x, n) == x * Pow(x, n - 1)
  {
  }

  /** A base above one raised to a positive power stays above one. */
  lemma {:induction false} PowAboveOne(x: real, n: nat)
    requires x > 1.0
    requires n >= 1
    ensures Pow(x, n) > 1.0
  {
    if n > 1 {
      PowAboveOne(x, n - 1);
      assert Pow(x, n) == x * Pow(x, n - 1);
    }
  }

  /** Growth of `(1 + r)^n` is at most `n * r` times its own value:
      `(1 + r)^n - 1 <= n * r * (1 + r)^n` for every rate `r >= 0`. */
  lemma {:induction false} PowGrowthBound(r: real, n: nat)
    requires r >= 0.0
    ensures Pow(1.0 + r, n) - 1.0 <= (n as real) * r * Pow(1.0 + r, n)
  {
    if n > 0 {
      var p := Pow(1.0 + r, n - 1);
      var k := (n - 1) as real;
      PowGrowthBound(r, n - 1);
      assert p - 1.0 <= k * r * p;
      assert Pow(1.0 + r, n) == p + r * p;
      var rp := r * p;
      assert rp >= 0.0 by { NonNegProduct(r, p); }
      assert r * rp >= 0.0 by { NonNegProduct(r, rp); }
      assert k * r * rp >= 0.0 by { NonNegProduct(k * r, rp); NonNegProduct(k, r); }
      assert (k + 1.0) * r * (p + rp) == k * r * p + k * r * rp + rp + r * rp;
    }
  }
}
