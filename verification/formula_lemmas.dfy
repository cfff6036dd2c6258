/** Properties of the engine that relate several calls: the hybrid energy mix, the
    shape of the statutory rule, and how the comparison reacts to its inputs. */
module FormulaLemmas {
  import opened Wrappers
  import opened Formulas
  import Arith

  // ---------------------------------------------------------------------------
  // Energy
  // ---------------------------------------------------------------------------

  /** A hybrid costs exactly half of the same car run as an electric plus half of
      it run on fuel. */
  lemma HybridIsEvenMix(s: Scenario)
    ensures MonthlyEnergy(s.(powertrain := Hybrid))
         == HybridElectricShare * MonthlyEnergy(s.(powertrain := Electric))
          + (1.0 - HybridElectricShare) * MonthlyEnergy(s.(powertrain := Ice))
  {
    var e := s.(powertrain := Electric);
    var h := s.(powertrain := Hybrid);
    var i := s.(powertrain := Ice);
    var kwh := (s.annualKm / 100.0) * KwhPer100OrZero(s);
    assert MonthlyEnergy(e) == (kwh * s.homeChargeShare * s.elecHomePrice
                              + kwh * (1.0 - s.homeChargeShare) * s.elecPublicPrice) / 12.0;
    if HasFuelEfficiency(s) {
      var k := s.kmPerLiter.value;
      assert MonthlyEnergy(i) == (s.annualKm / k * s.fuelPrice) / 12.0;
      assert (s.annualKm * 0.5) / k == 0.5 * (s.annualKm / k);
    }
  }

  /** An electric car's cost ignores every fuel field, a combustion car's cost
      ignores every electricity field. */
  lemma EnergyReadsOnlyItsChannel(s: Scenario, kmPerLiter: Option<real>, fuelPrice: real,
                                  kwhPer100: Option<real>, home: real, public: real, share: real)
    ensures s.powertrain == Electric ==>
      MonthlyEnergy(s.(kmPerLiter := kmPerLiter, fuelPrice := fuelPrice)) == MonthlyEnergy(s)
    ensures s.powertrain == Ice ==>
      MonthlyEnergy(s.(kwhPer100 := kwhPer100, elecHomePrice := home,
                       elecPublicPrice := public, homeChargeShare := share)) == MonthlyEnergy(s)
  {
  }

  /** Energy reads the powertrain, the distance, the consumption figures and the
      energy prices, and nothing else of the scenario. */
  lemma EnergyDependsOnlyOnEnergyFields(s: Scenario, t: Scenario)
    requires s.powertrain == t.powertrain && s.annualKm == t.annualKm
    requires s.kwhPer100 == t.kwhPer100 && s.kmPerLiter == t.kmPerLiter
    requires s.elecHomePrice == t.elecHomePrice && s.elecPublicPrice == t.elecPublicPrice
    requires s.homeChargeShare == t.homeChargeShare && s.fuelPrice == t.fuelPrice
    ensures MonthlyEnergy(s) == MonthlyEnergy(t)
  {
  }

  /** With sensible inputs (non-negative distance, consumption and prices, a home
      share between 0 and 1) energy never costs less than nothing. */
  lemma EnergyNonNegative(s: Scenario)
    requires s.annualKm >= 0.0 && KwhPer100OrZero(s) >= 0.0
    requires 0.0 <= s.homeChargeShare <= 1.0
    requires s.elecHomePrice >= 0.0 && s.elecPublicPrice >= 0.0 && s.fuelPrice >= 0.0
    requires s.kmPerLiter.Some? ==> s.kmPerLiter.value >= 0.0
    ensures MonthlyEnergy(s) >= 0.0
  {
    var kwh := (s.annualKm / 100.0) * KwhPer100OrZero(s);
    Arith.NonNegProduct(s.annualKm / 100.0, KwhPer100OrZero(s));
    Arith.NonNegProduct(s.homeChargeShare, s.elecHomePrice);
    Arith.NonNegProduct(1.0 - s.homeChargeShare, s.elecPublicPrice);
    Arith.NonNegProduct(kwh, BlendedKwhPrice(s));
    var liters := if HasFuelEfficiency(s) then s.annualKm / s.kmPerLiter.value else 0.0;
    Arith.NonNegProduct(liters, s.fuelPrice);
    HybridIsEvenMix(s);
  }

  // ---------------------------------------------------------------------------
  // Statutory taxable value
  // ---------------------------------------------------------------------------

  /** Only the capped price and the powertrain matter: neither the year nor any
      price difference above the cap changes the value. */
  lemma StatutoryDependsOnlyOnCappedPrice(price1: real, year1: real, price2: real, year2: real, p: Powertrain)
    requires Min(price1, PriceCap) == Min(price2, PriceCap)
    ensures StatutoryTaxableValue(price1, year1, p) == StatutoryTaxableValue(price2, year2, p)
  {
  }

  /** Every price at or above the cap is worth exactly the value at the cap. */
  lemma StatutoryCapIdempotent(price: real, year: real, p: Powertrain)
    requires price >= PriceCap
    ensures StatutoryTaxableValue(price, year, p) == StatutoryTaxableValue(PriceCap, year, p)
    ensures StatutoryTaxableValue(price, year, p) == Max(0.0, PriceCap * MonthlyRate - Deduction(p))
  {
    StatutoryDependsOnlyOnCappedPrice(price, year, PriceCap, year, p);
  }

  /** At equal price an electric car is taxed no more than a hybrid, and a hybrid
      no more than a combustion car, provided the price is not negative. */
  lemma StatutoryOrderedByPowertrain(price: real, year: real)
    requires price >= 0.0
    ensures StatutoryTaxableValue(price, year, Electric) <= StatutoryTaxableValue(price, year, Hybrid)
    ensures StatutoryTaxableValue(price, year, Hybrid) <= StatutoryTaxableValue(price, year, Ice)
  {
  }

  /** A dearer car is never taxed less. */
  lemma StatutoryMonotoneInPrice(price1: real, price2: real, year: real, p: Powertrain)
    requires price1 <= price2
    ensures StatutoryTaxableValue(price1, year, p) <= StatutoryTaxableValue(price2, year, p)
  {
  }

  /** The two worked examples of the rule: an electric car at 200,000 is worth
      4,960 - 1,350 = 3,610 a month, a combustion car at 150,000 is worth 3,720. */
  lemma StatutoryWorkedExamples(year: real)
    ensures StatutoryTaxableValue(200000.0, year, Electric) == 3610.0
    ensures StatutoryTaxableValue(150000.0, year, Ice) == 3720.0
  {
  }

  // ---------------------------------------------------------------------------
  // The comparison
  // ---------------------------------------------------------------------------

  /** The label and the model year never change the result. */
  lemma ScenarioIgnoresNameAndYear(s: Scenario, name: string, year: real)
    requires s.apr >= 0.0
    ensures CalculateScenario(s.(name := name, year := year)) == CalculateScenario(s)
  {
    var t := s.(name := name, year := year);
    EnergyDependsOnlyOnEnergyFields(s, t);
    assert TaxableValue(t) == TaxableValue(s);
    assert ScenarioFigures(t) == ScenarioFigures(s);
  }

  /** Entering the statutory value by hand gives the same result as giving no
      override (`undefined`). */
  lemma OverrideWithStatutoryValueIsNeutral(s: Scenario)
    requires s.apr >= 0.0
    requires s.companyCarTaxableValue.None?
    ensures CalculateScenario(s.(companyCarTaxableValue :=
              Some(StatutoryTaxableValue(s.price, s.year, s.powertrain))))
         == CalculateScenario(s)
  {
    var t := s.(companyCarTaxableValue := Some(StatutoryTaxableValue(s.price, s.year, s.powertrain)));
    EnergyDependsOnlyOnEnergyFields(s, t);
    assert TaxableValue(t) == TaxableValue(s);
    assert ScenarioFigures(t) == ScenarioFigures(s);
  }

  /** What one month of the horizon adds to the difference, read off the figures
      alone: the net allowance, minus the own car's running costs, plus the tax
      the company car would have cost. */
  function MonthlyBalance(f: Figures): real
  {
    f.employerAllowance * (1.0 - f.totalTaxRate)
    - (f.monthlyPayment + f.monthlyEnergy + f.monthlyMaint + f.monthlyInsurance)
    + f.monthlyTaxableValue * f.totalTaxRate
  }

  /** The difference, month by month: every month of the horizon contributes
      `MonthlyBalance`, and the resale value comes on top. */
  lemma DifferenceIsMonthlySum(f: Figures)
    ensures Compare(f).comparison.difference ==
      ((12 * f.horizonYears) as real) * MonthlyBalance(f) + f.price * (f.residualPct / 100.0)
  {
    var r := Compare(f);
    assert r.residualValue == f.price * (f.residualPct / 100.0);
    assert r.monthlyAllowanceNet - r.monthlyTotal + r.companyCar.monthlyTaxCost == MonthlyBalance(f);
    MonthlySum(r.totalMonths as real, r.monthlyAllowanceNet, r.monthlyTotal, r.companyCar.monthlyTaxCost,
      r.residualValue, r.totalAllowanceNet, r.netBenefit, r.companyCar.totalTaxCost, r.comparison.difference);
  }

  /** Over the same horizon and resale value, a larger monthly balance never gives
      a smaller difference. */
  lemma DifferenceMonotoneInBalance(f: Figures, g: Figures)
    requires f.horizonYears == g.horizonYears && f.price == g.price && f.residualPct == g.residualPct
    requires MonthlyBalance(f) <= MonthlyBalance(g)
    ensures Compare(f).comparison.difference <= Compare(g).comparison.difference
  {
    var months, residual := (12 * f.horizonYears) as real, f.price * (f.residualPct / 100.0);
    assert (12 * g.horizonYears) as real == months && g.price * (g.residualPct / 100.0) == residual;
    DifferenceIsMonthlySum(f);
    DifferenceIsMonthlySum(g);
    ScaledBalanceMonotone(months, MonthlyBalance(f), MonthlyBalance(g), residual,
      Compare(f).comparison.difference, Compare(g).comparison.difference);
  }

  /** A scenario's monthly figures: the running costs add up to the monthly total,
      the allowance is taxed at the combined rate, and the resale value is the
      residual share of the price. */
  lemma ScenarioMonthlyFigures(s: Scenario)
    requires s.apr >= 0.0
    ensures var r := CalculateScenario(s);
      r.monthlyTotal == r.monthlyPayment + r.monthlyEnergy + s.monthlyMaint + s.monthlyInsurance
    ensures CalculateScenario(s).residualValue == s.price * (s.residualPct / 100.0)
    ensures CalculateScenario(s).monthlyAllowanceNet == s.employerAllowance * (1.0 - TotalTaxRate(s))
  {
    var f := ScenarioFigures(s);
    assert CalculateScenario(s) == Compare(f);
    assert f.employerAllowance == s.employerAllowance && f.totalTaxRate == TotalTaxRate(s);
    assert f.price == s.price && f.residualPct == s.residualPct;
    assert f.monthlyMaint == s.monthlyMaint && f.monthlyInsurance == s.monthlyInsurance;
  }

  /** A scenario's totals over the horizon: the net benefit is the net allowance
      received less the running costs paid plus the resale value, and the company
      car costs its monthly tax for every month. */
  lemma ScenarioComposition(s: Scenario)
    requires s.apr >= 0.0
    ensures var r := CalculateScenario(s); var months := (12 * s.horizonYears) as real;
      r.totalAllowanceNet == s.employerAllowance * (1.0 - TotalTaxRate(s)) * months
    ensures var r := CalculateScenario(s); var months := (12 * s.horizonYears) as real;
      r.netBenefit == s.employerAllowance * (1.0 - TotalTaxRate(s)) * months
                      - r.monthlyTotal * months + r.residualValue
    ensures var r := CalculateScenario(s); var months := (12 * s.horizonYears) as real;
      r.companyCar.totalTaxCost == r.companyCar.monthlyTaxCost * months
    ensures CalculateScenario(s).companyCar.netCost == -CalculateScenario(s).companyCar.totalTaxCost
  {
    var r := CalculateScenario(s);
    var months := (12 * s.horizonYears) as real;
    assert r == Compare(ScenarioFigures(s));
    assert r.totalMonths as real == months;
    ScenarioMonthlyFigures(s);
    SameFactor(r.monthlyAllowanceNet, s.employerAllowance * (1.0 - TotalTaxRate(s)), months);
  }

  /** A larger allowance never hurts the personal option while the combined tax
      rate is at most 100%: the difference does not fall, so a "personal"
      recommendation stays "personal". */
  lemma LargerAllowanceFavoursPersonal(s: Scenario, extra: real)
    requires s.apr >= 0.0
    requires extra >= 0.0
    requires TotalTaxRate(s) <= 1.0
    ensures CalculateScenario(s.(employerAllowance := s.employerAllowance + extra)).comparison.difference
         >= CalculateScenario(s).comparison.difference
    ensures CalculateScenario(s).comparison.betterOption == Personal ==>
      CalculateScenario(s.(employerAllowance := s.employerAllowance + extra)).comparison.betterOption == Personal
  {
    var t := s.(employerAllowance := s.employerAllowance + extra);
    EnergyDependsOnlyOnEnergyFields(s, t);
    assert TaxableValue(t) == TaxableValue(s);
    var f := ScenarioFigures(s);
    assert ScenarioFigures(t) == f.(employerAllowance := f.employerAllowance + extra);
    CompareMonotoneInAllowance(f, extra);
  }

  /** The figures-level part of `LargerAllowanceFavoursPersonal`. */
  lemma CompareMonotoneInAllowance(f: Figures, extra: real)
    requires extra >= 0.0
    requires f.totalTaxRate <= 1.0
    ensures Compare(f).comparison.difference
         <= Compare(f.(employerAllowance := f.employerAllowance + extra)).comparison.difference
  {
    var g := f.(employerAllowance := f.employerAllowance + extra);
    NetAllowanceStep(f.employerAllowance, extra, f.totalTaxRate,
      f.employerAllowance * (1.0 - f.totalTaxRate), g.employerAllowance * (1.0 - g.totalTaxRate));
    Arith.NonNegProduct(extra, 1.0 - f.totalTaxRate);
    DifferenceMonotoneInBalance(f, g);
  }

  /** A higher taxable value for the company car (non-negative tax rate) only
      makes the company car dearer, so the difference does not fall. */
  lemma HigherTaxableValueFavoursPersonal(s: Scenario, v1: real, v2: real)
    requires s.apr >= 0.0
    requires v1 <= v2
    requires TotalTaxRate(s) >= 0.0
    ensures CalculateScenario(s.(companyCarTaxableValue := Some(v1))).comparison.difference
         <= CalculateScenario(s.(companyCarTaxableValue := Some(v2))).comparison.difference
  {
    var s1, s2 := s.(companyCarTaxableValue := Some(v1)), s.(companyCarTaxableValue := Some(v2));
    EnergyDependsOnlyOnEnergyFields(s1, s2);
    var f1 := ScenarioFigures(s1);
    assert ScenarioFigures(s2) == f1.(monthlyTaxableValue := v2);
    assert f1 == f1.(monthlyTaxableValue := v1);
    CompareMonotoneInTaxableValue(f1, v1, v2);
  }

  /** The figures-level part of `HigherTaxableValueFavoursPersonal`. */
  lemma CompareMonotoneInTaxableValue(f: Figures, v1: real, v2: real)
    requires v1 <= v2
    requires f.totalTaxRate >= 0.0
    ensures Compare(f.(monthlyTaxableValue := v1)).comparison.difference
         <= Compare(f.(monthlyTaxableValue := v2)).comparison.difference
  {
    var f1, f2 := f.(monthlyTaxableValue := v1), f.(monthlyTaxableValue := v2);
    Arith.MulLeft(f.totalTaxRate, v1, v2);
    DifferenceMonotoneInBalance(f1, f2);
  }

  /** Dearer running costs (maintenance or insurance) never favour the personal
      option. */
  lemma HigherRunningCostsFavourCompany(s: Scenario, maint: real, insurance: real)
    requires s.apr >= 0.0
    requires maint >= 0.0 && insurance >= 0.0
    ensures CalculateScenario(s.(monthlyMaint := s.monthlyMaint + maint,
                                 monthlyInsurance := s.monthlyInsurance + insurance)).comparison.difference
         <= CalculateScenario(s).comparison.difference
  {
    var t := s.(monthlyMaint := s.monthlyMaint + maint, monthlyInsurance := s.monthlyInsurance + insurance);
    EnergyDependsOnlyOnEnergyFields(s, t);
    assert TaxableValue(t) == TaxableValue(s);
    var f := ScenarioFigures(s);
    assert ScenarioFigures(t)
        == f.(monthlyMaint := f.monthlyMaint + maint, monthlyInsurance := f.monthlyInsurance + insurance);
    CompareAntitoneInRunningCosts(f, maint, insurance);
  }

  /** The figures-level part of `HigherRunningCostsFavourCompany`. */
  lemma CompareAntitoneInRunningCosts(f: Figures, maint: real, insurance: real)
    requires maint >= 0.0 && insurance >= 0.0
    ensures Compare(f.(monthlyMaint := f.monthlyMaint + maint,
                       monthlyInsurance := f.monthlyInsurance + insurance)).comparison.difference
         <= Compare(f).comparison.difference
  {
    var g := f.(monthlyMaint := f.monthlyMaint + maint, monthlyInsurance := f.monthlyInsurance + insurance);
    assert MonthlyBalance(g) == MonthlyBalance(f) - maint - insurance;
    DifferenceMonotoneInBalance(g, f);
  }

  /** Over a positive horizon the recommendation can be read off the monthly
      difference alone. */
  lemma RecommendationFollowsMonthlyDifference(s: Scenario)
    requires s.apr >= 0.0
    requires s.horizonYears > 0
    ensures CalculateScenario(s).comparison.monthlyDifference.Some?
    ensures CalculateScenario(s).comparison.betterOption == Personal
        <==> CalculateScenario(s).comparison.monthlyDifference.value > 0.0
  {
    var r := CalculateScenario(s);
    SignOfMonthlyShare(r.comparison.monthlyDifference.value, r.totalMonths as real, r.comparison.difference);
  }

  /** With no months to compare only the resale value counts. */
  lemma ZeroHorizonComparesResidualOnly(s: Scenario)
    requires s.apr >= 0.0
    requires s.horizonYears == 0
    ensures CalculateScenario(s).comparison.difference == s.price * (s.residualPct / 100.0)
    ensures CalculateScenario(s).comparison.betterOption == Personal
        <==> s.price * (s.residualPct / 100.0) > 0.0
  {
    var f := ScenarioFigures(s);
    assert CalculateScenario(s) == Compare(f);
    assert f.price == s.price && f.residualPct == s.residualPct && f.horizonYears == 0;
    DifferenceIsMonthlySum(f);
  }

  /** The totals of `Compare` regrouped by month. */
  lemma MonthlySum(months: real, net: real, total: real, tax: real, residual: real,
                   totalNet: real, benefit: real, totalTax: real, d: real)
    requires totalNet == net * months
    requires benefit == totalNet - total * months + residual
    requires totalTax == tax * months
    requires d == benefit + totalTax
    ensures d == months * (net - total + tax) + residual
  {
  }

  /** Over a non-negative number of months, a larger balance per month gives a
      larger sum. */
  lemma ScaledBalanceMonotone(months: real, balance1: real, balance2: real, residual: real, d1: real, d2: real)
    requires months >= 0.0 && balance1 <= balance2
    requires d1 == months * balance1 + residual
    requires d2 == months * balance2 + residual
    ensures d1 <= d2
  {
    Arith.MulLeft(months, balance1, balance2);
  }

  /** Raising the gross allowance by `extra` raises the net allowance by `extra`'s
      net share. */
  lemma NetAllowanceStep(allowance: real, extra: real, rate: real, net1: real, net2: real)
    requires net1 == allowance * (1.0 - rate)
    requires net2 == (allowance + extra) * (1.0 - rate)
    ensures net2 == net1 + extra * (1.0 - rate)
  {
  }

  /** Equal factors give equal products. */
  lemma SameFactor(a: real, b: real, c: real)
    requires a == b
    ensures a * c == b * c
  {
  }

  /** A share times a positive count is positive exactly when the share is. */
  lemma SignOfMonthlyShare(share: real, months: real, total: real)
    requires months >= 1.0
    requires share * months == total
    ensures total > 0.0 <==> share > 0.0
  {
    Arith.NonNegProduct(-share, months);
    if share > 0.0 {
      Arith.MulLeft(share, 1.0, months);
    }
  }
}
