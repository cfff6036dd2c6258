/** The loan schedule that `Formulas.MonthlyPayment` is meant to settle, and the
    proofs that it does: after the last of the `12 * years` payments nothing is
    owed, no other constant payment achieves that, and the payments add up to at
    least the principal. */
module Amortization {
  import opened Formulas
  import opened Power
  import opened Arith

  /** What is still owed after `k` monthly payments of `payment` on a loan of
      `principal` at the monthly rate `rate`: each month interest is added, then
      the payment is subtracted. */
  function Balance(principal: real, rate: real, payment: real, k: nat): real
  {
    if k == 0 then principal else Balance(principal, rate, payment, k - 1) * (1.0 + rate) - payment
  }

  /** Closed form of the balance, multiplied through by the rate:
      `rate * B(k) == rate * P * q^k - payment * (q^k - 1)` with `q = 1 + rate`. */
  lemma {:induction false} BalanceClosedForm(principal: real, rate: real, payment: real, k: nat)
    ensures rate * Balance(principal, rate, payment, k)
         == rate * principal * Pow(1.0 + rate, k) - payment * (Pow(1.0 + rate, k) - 1.0)
  {
    if k > 0 {
      BalanceClosedForm(principal, rate, payment, k - 1);
      BalanceStep(principal, rate, payment, k);
      PowStep(1.0 + rate, k);
      ClosedFormStep(rate, principal, payment,
                     Balance(principal, rate, payment, k - 1), Pow(1.0 + rate, k - 1),
                     Balance(principal, rate, payment, k), Pow(1.0 + rate, k));
    }
  }

  /** One month of the schedule: interest is added, then the payment subtracted. */
  lemma BalanceStep(principal: real, rate: real, payment: real, k: nat)
    requires k > 0
    ensures Balance(principal, rate, payment, k) == Balance(principal, rate, payment, k - 1) * (1.0 + rate) - payment
  {
  }

  /** Without interest each payment takes exactly its amount off the balance. */
  lemma {:induction false} BalanceWithoutInterest(principal: real, payment: real, k: nat)
    ensures Balance(principal, 0.0, payment, k) == principal - (k as real) * payment
  {
    if k > 0 {
      BalanceWithoutInterest(principal, payment, k - 1);
    }
  }

  /** The annuity payment settles the loan exactly after `12 * years` months. */
  lemma PaymentRepaysLoan(apr: real, years: nat, principal: real)
    requires apr >= 0.0
    requires years >= 1
    ensures Balance(principal, apr / 12.0, MonthlyPayment(apr, years, principal), 12 * years) == 0.0
  {
    var rate := apr / 12.0;
    var n := 12 * years;
    var payment := MonthlyPayment(apr, years, principal);
    if apr == 0.0 {
      BalanceWithoutInterest(principal, payment, n);
    } else {
      var q := Pow(1.0 + rate, n);
      assert payment == AnnuityPayment(rate, n, principal);
      AnnuityEquation(rate, n, principal);
      DiscountTimesPower(q);
      BalanceClosedForm(principal, rate, payment, n);
      Settle(rate, principal, q, 1.0 - 1.0 / q, payment, Balance(principal, rate, payment, n));
    }
  }

  /** What the annuity formula says, with the division multiplied out:
      `payment * (1 - q^-n) == rate * principal`, where `q = (1 + rate)^n > 1`. */
  lemma AnnuityEquation(rate: real, n: nat, principal: real)
    requires rate > 0.0 && n >= 1
    ensures Pow(1.0 + rate, n) > 1.0
    ensures AnnuityPayment(rate, n, principal) * (1.0 - 1.0 / Pow(1.0 + rate, n)) == rate * principal
  {
    var q := Pow(1.0 + rate, n);
    PowAboveOne(1.0 + rate, n);
    PositiveDiscount(q);
    QuotientTimesDivisor(rate * principal, 1.0 - 1.0 / q);
  }

  /** The annuity payment is the only constant monthly payment that leaves nothing
      owed after `12 * years` months. */
  lemma PaymentIsUniqueRepayment(apr: real, years: nat, principal: real, payment: real)
    requires apr >= 0.0
    requires years >= 1
    ensures Balance(principal, apr / 12.0, payment, 12 * years) == 0.0
        <==> payment == MonthlyPayment(apr, years, principal)
  {
    PaymentRepaysLoan(apr, years, principal);
    if Balance(principal, apr / 12.0, payment, 12 * years) == 0.0 {
      if apr == 0.0 {
        UniqueWithoutInterest(years, principal, payment);
      } else {
        UniqueWithInterest(apr, years, principal, payment);
      }
    }
  }

  /** Uniqueness when the loan carries no interest. */
  lemma UniqueWithoutInterest(years: nat, principal: real, payment: real)
    requires years >= 1
    requires Balance(principal, 0.0, payment, 12 * years) == 0.0
    ensures payment == MonthlyPayment(0.0, years, principal)
  {
    var n := 12 * years;
    BalanceWithoutInterest(principal, payment, n);
    SameStraightLine(principal, n as real, payment, MonthlyPayment(0.0, years, principal),
                     Balance(principal, 0.0, payment, n));
  }

  /** Uniqueness when the loan carries interest. */
  lemma UniqueWithInterest(apr: real, years: nat, principal: real, payment: real)
    requires apr > 0.0
    requires years >= 1
    requires Balance(principal, apr / 12.0, payment, 12 * years) == 0.0
    ensures payment == MonthlyPayment(apr, years, principal)
  {
    PaymentRepaysLoan(apr, years, principal);
    RepaymentIsUnique(principal, apr / 12.0, 12 * years, payment, MonthlyPayment(apr, years, principal));
  }

  /** At a positive rate, at most one constant payment settles a loan in `n` months. */
  lemma RepaymentIsUnique(principal: real, rate: real, n: nat, p1: real, p2: real)
    requires rate > 0.0 && n >= 1
    requires Balance(principal, rate, p1, n) == 0.0
    requires Balance(principal, rate, p2, n) == 0.0
    ensures p1 == p2
  {
    PowAboveOne(1.0 + rate, n);
    BalanceClosedForm(principal, rate, p1, n);
    BalanceClosedForm(principal, rate, p2, n);
    SameRepayment(rate, principal, Pow(1.0 + rate, n), p1, p2,
                  Balance(principal, rate, p1, n), Balance(principal, rate, p2, n));
  }

  /** Interest is never negative: the payments add up to at least the principal. */
  lemma PaymentsCoverPrincipal(apr: real, years: nat, principal: real)
    requires apr >= 0.0
    requires years >= 1
    requires principal >= 0.0
    ensures MonthlyPayment(apr, years, principal) * ((12 * years) as real) >= principal
  {
    var rate := apr / 12.0;
    var n := 12 * years;
    var payment := MonthlyPayment(apr, years, principal);
    if apr != 0.0 {
      var q := Pow(1.0 + rate, n);
      assert payment == AnnuityPayment(rate, n, principal);
      AnnuityEquation(rate, n, principal);
      DiscountTimesPower(q);
      PowGrowthBound(rate, n);
      CoverStep(rate, principal, q, 1.0 - 1.0 / q, payment, n as real);
    }
  }

  // Algebra of the proofs above, kept apart from the function definitions.

  /** One step of `BalanceClosedForm`. */
  lemma ClosedFormStep(rate: real, principal: real, payment: real, b: real, qp: real, bk: real, qk: real)
    requires rate * b == rate * principal * qp - payment * (qp - 1.0)
    requires bk == b * (1.0 + rate) - payment && qk == (1.0 + rate) * qp
    ensures rate * bk == rate * principal * qk - payment * (qk - 1.0)
  {
    assert rate * bk == (1.0 + rate) * (rate * b) - rate * payment;
  }

  lemma QuotientTimesDivisor(a: real, d: real)
    requires d != 0.0
    ensures (a / d) * d == a
  {
  }

  lemma DiscountTimesPower(q: real)
    requires q > 1.0
    ensures (1.0 - 1.0 / q) * q == q - 1.0
  {
  }

  /** Two payments that both settle an interest-free loan are equal. */
  lemma SameStraightLine(principal: real, n: real, p1: real, p2: real, b1: real)
    requires n > 0.0
    requires b1 == principal - n * p1 && b1 == 0.0
    requires p2 * n == principal
    ensures p1 == p2
  {
    assert p1 * n == p2 * n;
    CancelPositive(p1, p2, n);
    CancelPositive(p2, p1, n);
  }

  /** Two payments that both zero the closed form of the balance are equal. */
  lemma SameRepayment(rate: real, principal: real, q: real, p1: real, p2: real, b1: real, b2: real)
    requires q > 1.0
    requires rate * b1 == rate * principal * q - p1 * (q - 1.0)
    requires rate * b2 == rate * principal * q - p2 * (q - 1.0)
    requires b1 == 0.0 && b2 == 0.0
    ensures p1 == p2
  {
    assert p1 * (q - 1.0) == p2 * (q - 1.0);
    CancelPositive(p1, p2, q - 1.0);
    CancelPositive(p2, p1, q - 1.0);
  }

  /** The last step of `PaymentRepaysLoan`: with `payment * d == rate * P` and
      `d * q == q - 1`, the closed form of the balance is zero. */
  lemma Settle(rate: real, principal: real, q: real, d: real, payment: real, balance: real)
    requires rate != 0.0
    requires d * q == q - 1.0
    requires payment * d == rate * principal
    requires rate * balance == rate * principal * q - payment * (q - 1.0)
    ensures balance == 0.0
  {
    assert payment * (q - 1.0) == (payment * d) * q;
    assert rate * balance == 0.0;
  }

  /** The last step of `PaymentsCoverPrincipal`: `d <= n * rate` follows from the
      growth bound, and then `rate * P == payment * d <= payment * n * rate`. */
  lemma CoverStep(rate: real, principal: real, q: real, d: real, payment: real, n: real)
    requires rate > 0.0 && q > 1.0 && payment >= 0.0
    requires d * q == q - 1.0
    requires payment * d == rate * principal
    requires q - 1.0 <= n * rate * q
    ensures payment * n >= principal
  {
    assert d * q <= (n * rate) * q;
    CancelPositive(d, n * rate, q);
    MulLeft(payment, d, n * rate);
    assert principal * rate <= (payment * n) * rate;
    CancelPositive(principal, payment * n, rate);
  }

  /** A positive common factor can be cancelled from both sides of `<=`. */
  lemma CancelPositive(a: real, b: real, c: real)
    requires c > 0.0
    requires a * c <= b * c
    ensures a <= b
  {
  }
}
