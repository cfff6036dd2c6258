/** The suggestions the scenario form shows next to its inputs: national
    insurance and health tax from the income-tax bracket, and a monthly
    maintenance figure from powertrain, car age and price. The current year is a
    parameter (the form reads the clock). */
module Suggestions {
  import opened Wrappers
  import opened Formulas

  /** Suggested national-insurance rate for an income-tax bracket. */
  function SuggestedNationalInsurance(bracket: real): (rate: real)
    ensures rate == 0.0004 || rate == 0.035 || rate == 0.07
    ensures rate == 0.0004 <==> bracket <= 0.14
    ensures rate == 0.035 <==> 0.14 < bracket <= 0.20
    ensures rate == 0.07 <==> bracket > 0.20
  {
    if bracket <= 0.14 then 0.0004
    else if bracket <= 0.20 then 0.035
    else if bracket <= 0.31 then 0.07
    else 0.07
  }

  /** Suggested health-tax rate for an income-tax bracket. */
  function SuggestedHealthTax(bracket: real): (rate: real)
    ensures rate == 0.031 <==> bracket <= 0.20
    ensures rate == 0.05 <==> bracket > 0.20
  {
    if bracket <= 0.14 then 0.031
    else if bracket <= 0.20 then 0.031
    else 0.05
  }

  /** Both suggestions rise (weakly) with the bracket. */
  lemma SuggestionsMonotone(b1: real, b2: real)
    requires b1 <= b2
    ensures SuggestedNationalInsurance(b1) <= SuggestedNationalInsurance(b2)
    ensures SuggestedHealthTax(b1) <= SuggestedHealthTax(b2)
  {
  }

  /** The bracket the form feeds the suggestions: `taxBracket || 0.47`. An empty
      field (`None`, which also covers NaN) or 0 falls back to the top default. */
  function BracketOrDefault(taxBracket: Option<real>): (b: real)
    ensures taxBracket.Some? && taxBracket.value != 0.0 ==> b == taxBracket.value
    ensures taxBracket.None? || taxBracket.value == 0.0 ==> b == 0.47
  {
    if taxBracket.Some? && taxBracket.value != 0.0 then taxBracket.value else 0.47
  }

  /** With no bracket, or bracket 0, the form suggests the rates of the 47% row. */
  lemma MissingBracketSuggestsTopRates(taxBracket: Option<real>)
    requires taxBracket.None? || taxBracket.value == 0.0
    ensures SuggestedNationalInsurance(BracketOrDefault(taxBracket)) == 0.07
    ensures SuggestedHealthTax(BracketOrDefault(taxBracket)) == 0.05
  {
  }

  // ---------------------------------------------------------------------------
  // Maintenance
  // ---------------------------------------------------------------------------

  /** `currentYear - (year || currentYear)`: an empty (or NaN) or zero year gives
      age 0; a year in the future gives a negative age. The year field takes any
      number, so the age can be fractional. */
  function CarAge(year: Option<real>, currentYear: int): (age: real)
    ensures year.None? || year.value == 0.0 ==> age == 0.0
    ensures year.Some? && year.value != 0.0 ==> age + year.value == currentYear as real
  {
    (currentYear as real) - (if year.Some? && year.value != 0.0 then year.value else currentYear as real)
  }

  /** Monthly maintenance before the price adjustment, by powertrain and age
      bucket (up to 3 years, up to 5, older). */
  function BaseMaintenance(p: Powertrain, age: real): (base: int)
    ensures base % 50 == 0
    ensures 400 <= base <= 1250
  {
    match p
    case Electric => if age <= 3.0 then 400 else if age <= 5.0 then 550 else 800
    case Hybrid => if age <= 3.0 then 550 else if age <= 5.0 then 750 else 1000
    case Ice => if age <= 3.0 then 650 else if age <= 5.0 then 900 else 1250
  }

  /** At any age an electric car is cheaper to maintain than a hybrid, and a
      hybrid cheaper than a combustion car. */
  lemma BaseMaintenanceOrderedByPowertrain(age: real)
    ensures BaseMaintenance(Electric, age) < BaseMaintenance(Hybrid, age) < BaseMaintenance(Ice, age)
  {
  }

  /** An older car never costs less to maintain. */
  lemma BaseMaintenanceMonotoneInAge(p: Powertrain, age1: real, age2: real)
    requires age1 <= age2
    ensures BaseMaintenance(p, age1) <= BaseMaintenance(p, age2)
  {
  }

  /** The price factor: `price && price > 250000` raises by 30%, `price && price <
      150000` lowers by 20%; an empty (or NaN) or zero price leaves it alone. */
  function PriceFactor(price: Option<real>): (factor: real)
    ensures factor == 1.3 <==> price.Some? && price.value > 250000.0
    ensures factor == 0.8 <==> price.Some? && price.value != 0.0 && price.value < 150000.0
    ensures factor == 1.0 <==> price.None? || price.value == 0.0 || 150000.0 <= price.value <= 250000.0
  {
    if price.Some? && price.value != 0.0 && price.value > 250000.0 then 1.3
    else if price.Some? && price.value != 0.0 && price.value < 150000.0 then 0.8
    else 1.0
  }

  /** `Math.round`: the nearest integer, halves rounded up. */
  function Round(x: real): (n: int)
    ensures (n as real) - 0.5 <= x < (n as real) + 0.5
  {
    (x + 0.5).Floor
  }

  /** The suggested monthly maintenance. Every base is a multiple of 50, so both
      price factors give a whole number and the rounding changes nothing. */
  function SuggestedMaintenance(p: Powertrain, year: Option<real>, price: Option<real>, currentYear: int): (m: int)
    ensures m as real == (BaseMaintenance(p, CarAge(year, currentYear)) as real) * PriceFactor(price)
    ensures 320 <= m <= 1625
  {
    var carAge := CarAge(year, currentYear);
    var baseMaintenance := BaseMaintenance(p, carAge);
    var factor := PriceFactor(price);
    ExactScaling(baseMaintenance, factor);
    Round((baseMaintenance as real) * factor)
  }

  /** A multiple of 50 scaled by 1.3, 0.8 or 1 is a whole number, which `Round`
      returns unchanged. */
  lemma ExactScaling(base: int, factor: real)
    requires base % 50 == 0
    requires factor == 1.3 || factor == 0.8 || factor == 1.0
    ensures Round((base as real) * factor) as real == (base as real) * factor
  {
    var k := base / 50;
    assert base as real == 50.0 * (k as real);
    var whole := if factor == 1.3 then 65 * k else if factor == 0.8 then 40 * k else base;
    if factor == 1.3 {
      assert (base as real) * factor == 65.0 * (k as real);
    } else if factor == 0.8 {
      assert (base as real) * factor == 40.0 * (k as real);
    }
    assert (base as real) * factor == whole as real;
    RoundWhole(whole);
  }

  /** Rounding a whole number gives it back. */
  lemma RoundWhole(n: int)
    ensures Round(n as real) == n
  {
  }

  /** A year in the future counts as a new car (the youngest bucket), exactly like
      an empty year. */
  lemma FutureYearIsNewCar(p: Powertrain, year: real, price: Option<real>, currentYear: int)
    requires year > currentYear as real
    ensures SuggestedMaintenance(p, Some(year), price, currentYear)
         == SuggestedMaintenance(p, None, price, currentYear)
  {
  }

  /** For a car with a price, the suggestion never falls as the price rises. */
  lemma SuggestedMaintenanceMonotoneInPrice(p: Powertrain, year: Option<real>, price1: real, price2: real,
                                            currentYear: int)
    requires 0.0 < price1 <= price2
    ensures SuggestedMaintenance(p, year, Some(price1), currentYear)
         <= SuggestedMaintenance(p, year, Some(price2), currentYear)
  {
  }
}
