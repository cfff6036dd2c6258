/** The calculation engine: one car scenario in, a comparison between taking the
    employer's allowance (and owning a car) and keeping the company car out.
    Money is `real`; the source's IEEE doubles, with their rounding, NaN and
    Infinity, are not modelled. */
module Formulas {
  import opened Wrappers
  import Power
  import Arith

  datatype Powertrain = Electric | Hybrid | Ice

  /** One scenario, as the engine receives it. Fields with `?` in the source are
      `Option`s; `None` is an `undefined` field. The form submits `NaN` for an empty
      number field, which has no counterpart here. */
  datatype Scenario = Scenario(
    name: string,
    year: real,               // display only: no formula reads it
    powertrain: Powertrain,
    price: real,
    financeYears: nat,        // 0 means a cash purchase
    apr: real,                // annual rate as a fraction, 0.05 is 5%
    annualKm: real,
    kwhPer100: Option<real>,
    kmPerLiter: Option<real>,
    elecHomePrice: real,
    elecPublicPrice: real,
    homeChargeShare: real,
    fuelPrice: real,
    monthlyMaint: real,
    monthlyInsurance: real,
    residualPct: real,
    employerAllowance: real,
    horizonYears: nat,
    taxBracket: real,         // income tax only
    nationalInsurance: real,
    healthTax: real,
    companyCarTaxableValue: Option<real>  // manual override of the statutory value
  )

  datatype BetterOption = Personal | Company

  datatype CompanyCar = CompanyCar(
    monthlyTaxableValue: real,
    monthlyTaxCost: real,
    totalTaxCost: real,
    netCost: real
  )

  /** `monthlyDifference` is `None` where the source divides by zero months and
      gets a non-finite number. */
  datatype Comparison = Comparison(
    difference: real,
    betterOption: BetterOption,
    monthlyDifference: Option<real>
  )

  datatype CalculationResult = CalculationResult(
    monthlyPayment: real,
    monthlyEnergy: real,
    monthlyTotal: real,
    residualValue: real,
    netBenefit: real,
    totalMonths: nat,
    monthlyAllowanceNet: real,
    totalAllowanceNet: real,
    companyCar: CompanyCar,
    comparison: Comparison
  )

  // ---------------------------------------------------------------------------
  // Loan payment
  // ---------------------------------------------------------------------------

  /** The fixed monthly payment of a loan of `principal` over `years` years at the
      annual rate `apr`: nothing for a cash purchase, straight-line without
      interest, the annuity (PMT) formula otherwise. */
  function MonthlyPayment(apr: real, years: nat, principal: real): (payment: real)
    requires apr >= 0.0
    ensures years == 0 ==> payment == 0.0
    ensures years != 0 && apr == 0.0 ==> payment * ((12 * years) as real) == principal
    ensures principal >= 0.0 ==> payment >= 0.0
    ensures principal <= 0.0 ==> payment <= 0.0
  {
    if years == 0 then 0.0
    else
      var r := apr / 12.0;
      var n := 12 * years;
      if r == 0.0 then principal / (n as real)
      else AnnuityPayment(r, n, principal)
  }

  /** The annuity (PMT) formula `rate * principal / (1 - (1 + rate)^-n)` for a
      positive monthly rate. */
  function AnnuityPayment(rate: real, n: nat, principal: real): (payment: real)
    requires rate > 0.0 && n >= 1
    ensures principal >= 0.0 ==> payment >= 0.0
    ensures principal <= 0.0 ==> payment <= 0.0
  {
    Power.PowAboveOne(1.0 + rate, n);
    var discount := 1.0 - 1.0 / Power.Pow(1.0 + rate, n);
    PositiveDiscount(Power.Pow(1.0 + rate, n));
    SignOfQuotient(rate * principal, discount);
    (rate * principal) / discount
  }

  /** `1 - 1/q` lies strictly between 0 and 1 when `q > 1`. */
  lemma PositiveDiscount(q: real)
    requires q > 1.0
    ensures 0.0 < 1.0 - 1.0 / q < 1.0
  {
  }

  /** Dividing by a positive number keeps the sign. */
  lemma SignOfQuotient(a: real, d: real)
    requires d > 0.0
    ensures a >= 0.0 ==> a / d >= 0.0
    ensures a <= 0.0 ==> a / d <= 0.0
  {
  }

  // ---------------------------------------------------------------------------
  // Energy
  // ---------------------------------------------------------------------------

  /** The share of a hybrid's driving assumed electric; not configurable in the source. */
  const HybridElectricShare: real := 0.5

  /** `kwhPer100 ?? 0`: an absent consumption counts as zero. */
  function KwhPer100OrZero(s: Scenario): real
  {
    s.kwhPer100.GetOr(0.0)
  }

  /** Truthiness of `kmPerLiter`: absent or zero is false. `None` also stands for
      the `NaN` a cleared field yields, which is falsy too. */
  predicate HasFuelEfficiency(s: Scenario)
  {
    s.kmPerLiter.Some? && s.kmPerLiter.value != 0.0
  }

  /** The blended price of one kWh for the home/public charging split. */
  function BlendedKwhPrice(s: Scenario): real
  {
    s.homeChargeShare * s.elecHomePrice + (1.0 - s.homeChargeShare) * s.elecPublicPrice
  }

  /** Monthly energy or fuel cost, by powertrain. A hybrid drives half its distance
      on each source. */
  function MonthlyEnergy(s: Scenario): (e: real)
    ensures s.powertrain == Electric ==>
      e == (s.annualKm / 100.0 * KwhPer100OrZero(s)) * BlendedKwhPrice(s) / 12.0
    ensures s.powertrain == Ice && HasFuelEfficiency(s) ==>
      e * 12.0 * s.kmPerLiter.value == s.annualKm * s.fuelPrice
    ensures s.powertrain == Ice && !HasFuelEfficiency(s) ==> e == 0.0
    ensures s.powertrain != Ice && KwhPer100OrZero(s) == 0.0 && !HasFuelEfficiency(s) ==> e == 0.0
  {
    match s.powertrain
    case Electric =>
      var kwhYear := (s.annualKm / 100.0) * KwhPer100OrZero(s);
      var homeCost := kwhYear * s.homeChargeShare * s.elecHomePrice;
      var publicCost := kwhYear * (1.0 - s.homeChargeShare) * s.elecPublicPrice;
      (homeCost + publicCost) / 12.0
    case Hybrid =>
      var kwhYear := (s.annualKm / 100.0) * KwhPer100OrZero(s) * HybridElectricShare;
      var homeCost := kwhYear * s.homeChargeShare * s.elecHomePrice;
      var publicCost := kwhYear * (1.0 - s.homeChargeShare) * s.elecPublicPrice;
      var electricCost := (homeCost + publicCost) / 12.0;
      var litersYear :=
        if HasFuelEfficiency(s) then (s.annualKm * (1.0 - HybridElectricShare)) / s.kmPerLiter.value
        else 0.0;
      var fuelCost := (litersYear * s.fuelPrice) / 12.0;
      electricCost + fuelCost
    case Ice =>
      var litersYear := if HasFuelEfficiency(s) then s.annualKm / s.kmPerLiter.value else 0.0;
      (litersYear * s.fuelPrice) / 12.0
  }

  // ---------------------------------------------------------------------------
  // Statutory taxable value of a company car (Israeli Tax Authority, 2025)
  // ---------------------------------------------------------------------------

  /** Price ceiling of the imputed-benefit rule. */
  const PriceCap: real := 583100.0
  /** Monthly imputed benefit as a fraction of the (capped) price: 2.48%. */
  const MonthlyRate: real := 0.0248
  /** Monthly deduction for an electric car. */
  const ElectricDeduction: real := 1350.0
  /** Monthly deduction for a (non-plug-in) hybrid. */
  const HybridDeduction: real := 560.0

  function Min(a: real, b: real): real { if a <= b then a else b }
  function Max(a: real, b: real): real { if a >= b then a else b }

  /** The deduction the rule grants a powertrain. */
  function Deduction(p: Powertrain): real
  {
    match p
    case Electric => ElectricDeduction
    case Hybrid => HybridDeduction
    case Ice => 0.0
  }

  /** The value before any deduction: the rate applied to the capped price. */
  function BaseTaxableValue(carPrice: real): real
  {
    Min(carPrice, PriceCap) * MonthlyRate
  }

  /** The monthly taxable value of a company car. `carYear` is accepted and ignored,
      as in the source. */
  function StatutoryTaxableValue(carPrice: real, carYear: real, p: Powertrain): (v: real)
    ensures p == Ice ==> v == BaseTaxableValue(carPrice)
    ensures p != Ice ==> v >= 0.0 && v >= BaseTaxableValue(carPrice) - Deduction(p)
    ensures p != Ice ==> (v == 0.0 || v == BaseTaxableValue(carPrice) - Deduction(p))
    ensures p != Ice ==> (v == 0.0 <==> BaseTaxableValue(carPrice) <= Deduction(p))
    ensures v <= PriceCap * MonthlyRate
  {
    var effectivePrice := Min(carPrice, PriceCap);
    var monthlyTaxableValue := effectivePrice * MonthlyRate;
    match p
    case Electric => Max(0.0, monthlyTaxableValue - ElectricDeduction)
    case Hybrid => Max(0.0, monthlyTaxableValue - HybridDeduction)
    case Ice => monthlyTaxableValue
  }

  // ---------------------------------------------------------------------------
  // Whole scenario
  // ---------------------------------------------------------------------------

  /** Income tax, national insurance and health tax added together. */
  function TotalTaxRate(s: Scenario): real
  {
    s.taxBracket + s.nationalInsurance + s.healthTax
  }

  /** `companyCarTaxableValue ?? statutory value`: an override, even 0, wins. */
  function TaxableValue(s: Scenario): (v: real)
    ensures s.companyCarTaxableValue.Some? ==> v == s.companyCarTaxableValue.value
    ensures s.companyCarTaxableValue.None? ==> v == StatutoryTaxableValue(s.price, s.year, s.powertrain)
  {
    s.companyCarTaxableValue.GetOr(StatutoryTaxableValue(s.price, s.year, s.powertrain))
  }

  /** The figures the comparison is built from: three computed by the functions
      above, the rest copied from the scenario. */
  datatype Figures = Figures(
    monthlyPayment: real,
    monthlyEnergy: real,
    monthlyMaint: real,
    monthlyInsurance: real,
    price: real,
    residualPct: real,
    horizonYears: nat,
    employerAllowance: real,
    totalTaxRate: real,
    monthlyTaxableValue: real
  )

  /** Gathers the figures of a scenario: the loan payment, the energy cost, the
      combined tax rate and the (possibly overridden) taxable value. */
  function ScenarioFigures(s: Scenario): (f: Figures)
    requires s.apr >= 0.0
  {
    Figures(
      MonthlyPayment(s.apr, s.financeYears, s.price),
      MonthlyEnergy(s),
      s.monthlyMaint,
      s.monthlyInsurance,
      s.price,
      s.residualPct,
      s.horizonYears,
      s.employerAllowance,
      TotalTaxRate(s),
      TaxableValue(s))
  }

  /** Compares both options over the horizon. A positive difference means the
      allowance (own car) is better; a tie goes to the company car. */
  function Compare(f: Figures): (r: CalculationResult)
    ensures r.monthlyPayment == f.monthlyPayment && r.monthlyEnergy == f.monthlyEnergy
    ensures r.companyCar.monthlyTaxableValue == f.monthlyTaxableValue
    ensures r.totalMonths == 12 * f.horizonYears
    ensures r.monthlyTotal == f.monthlyPayment + f.monthlyEnergy + f.monthlyMaint + f.monthlyInsurance
    ensures r.monthlyAllowanceNet == f.employerAllowance * (1.0 - f.totalTaxRate)
    ensures r.totalAllowanceNet == r.monthlyAllowanceNet * (r.totalMonths as real)
    ensures r.netBenefit == r.totalAllowanceNet - r.monthlyTotal * (r.totalMonths as real) + r.residualValue
    ensures r.companyCar.monthlyTaxCost == f.monthlyTaxableValue * f.totalTaxRate
    ensures r.companyCar.totalTaxCost == r.companyCar.monthlyTaxCost * (r.totalMonths as real)
    ensures r.companyCar.netCost == -r.companyCar.totalTaxCost
    ensures r.residualValue * 100.0 == f.price * f.residualPct
    ensures r.comparison.betterOption == Personal <==> r.comparison.difference > 0.0
    ensures r.comparison.difference == r.netBenefit + r.companyCar.totalTaxCost
    ensures r.companyCar.monthlyTaxableValue >= 0.0 && f.totalTaxRate >= 0.0 ==>
      r.companyCar.netCost <= 0.0
    ensures f.horizonYears == 0 <==> r.comparison.monthlyDifference.None?
    ensures r.comparison.monthlyDifference.Some? ==>
      r.comparison.monthlyDifference.value * (r.totalMonths as real) == r.comparison.difference
  {
    var monthlyTotal := f.monthlyPayment + f.monthlyEnergy + f.monthlyMaint + f.monthlyInsurance;

    var residualValue := f.price * (f.residualPct / 100.0);
    var totalMonths := f.horizonYears * 12;

    var monthlyAllowanceNet := f.employerAllowance * (1.0 - f.totalTaxRate);
    var totalAllowanceNet := monthlyAllowanceNet * (totalMonths as real);

    var netBenefit := totalAllowanceNet - (monthlyTotal * (totalMonths as real)) + residualValue;

    var monthlyTaxCost := f.monthlyTaxableValue * f.totalTaxRate;
    var totalTaxCost := monthlyTaxCost * (totalMonths as real);
    Arith.NonNegProduct(f.monthlyTaxableValue, f.totalTaxRate);
    Arith.NonNegProduct(monthlyTaxCost, totalMonths as real);

    var companyCarNetCost := -totalTaxCost;

    var difference := netBenefit - companyCarNetCost;
    var betterOption := if difference > 0.0 then Personal else Company;
    var monthlyDifference :=
      if totalMonths == 0 then None else Some(difference / (totalMonths as real));

    CalculationResult(
      monthlyPayment := f.monthlyPayment,
      monthlyEnergy := f.monthlyEnergy,
      monthlyTotal := monthlyTotal,
      residualValue := residualValue,
      netBenefit := netBenefit,
      totalMonths := totalMonths,
      monthlyAllowanceNet := monthlyAllowanceNet,
      totalAllowanceNet := totalAllowanceNet,
      companyCar := CompanyCar(f.monthlyTaxableValue, monthlyTaxCost, totalTaxCost, companyCarNetCost),
      comparison := Comparison(difference, betterOption, monthlyDifference))
  }

  /** The whole calculation for one scenario. The company car is taxed on the
      override when one is given (even 0) and on the statutory value otherwise. */
  function CalculateScenario(s: Scenario): (r: CalculationResult)
    requires s.apr >= 0.0
    ensures r.totalMonths == 12 * s.horizonYears
    ensures r.monthlyPayment == MonthlyPayment(s.apr, s.financeYears, s.price)
    ensures r.monthlyEnergy == MonthlyEnergy(s)
    ensures s.companyCarTaxableValue.Some? ==>
      r.companyCar.monthlyTaxableValue == s.companyCarTaxableValue.value
    ensures s.companyCarTaxableValue.None? ==>
      r.companyCar.monthlyTaxableValue == StatutoryTaxableValue(s.price, s.year, s.powertrain)
    ensures r.companyCar.monthlyTaxCost ==
      r.companyCar.monthlyTaxableValue * (s.taxBracket + s.nationalInsurance + s.healthTax)
    ensures r.comparison.betterOption == Personal <==> r.comparison.difference > 0.0
    ensures r.comparison.difference == r.netBenefit + r.companyCar.totalTaxCost
    ensures r.companyCar.monthlyTaxableValue >= 0.0 && TotalTaxRate(s) >= 0.0 ==>
      r.companyCar.netCost <= 0.0
    ensures s.horizonYears == 0 <==> r.comparison.monthlyDifference.None?
    ensures r.comparison.monthlyDifference.Some? ==>
      r.comparison.monthlyDifference.value * (r.totalMonths as real) == r.comparison.difference
  {
    Compare(ScenarioFigures(s))
  }
}
