# Car allowance or company car: a Dafny model of the calculation engine

The car-cal calculator helps an employee choose between two options:

- take a monthly car allowance from the employer and finance, run and resell a car of their own;
- keep a company car and pay income tax, national insurance and health tax on the car's imputed monthly benefit. This is the Israeli "שווי שימוש" rule, with the 2025 price cap and deductions.

The model covers five parts:

- the engine in `lib/formulas.ts`: the loan payment, the monthly energy cost, the statutory taxable value and the whole-scenario comparison;
- the suggestions the scenario form shows for national insurance, health tax and maintenance;
- the page's two state updates: a calculation is recorded in a newest-first history of ten entries, and loading a scenario from that history changes only the scenario the form is filled from;
- a loan schedule (`Amortization.Balance`), so that the payment formula can be checked against what it is meant to do;
- runs of user actions (`History.Run`), so that the history can be described over any sequence of calculations and loads.

Modules:

| module | file | models |
|---|---|---|
| `Wrappers` | `wrappers.dfy` | `Option`, for the optional fields and JavaScript's `??` |
| `Arith` | `arith.dfy` | two facts about order and multiplication of reals that the nonlinear proofs use |
| `Power` | `power.dfy` | `Math.pow` with a natural exponent, and the facts about it the loan proofs use |
| `Formulas` | `formulas.dfy` | `lib/formulas.ts`: the types, `calculateMonthlyPayment`, `calculateMonthlyEnergy`, `calculateCompanyCarTaxableValue` and `calculateScenario` |
| `Amortization` | `amortization.dfy` | the month-by-month loan balance; the payment settles the loan, is the only constant payment that does, and pays back at least the principal |
| `FormulaLemmas` | `formula_lemmas.dfy` | properties that relate several calls: the hybrid mix, the shape of the statutory rule, how the comparison reacts to its inputs |
| `Suggestions` | `suggestions.dfy` | `getSuggestedNationalInsurance`, `getSuggestedHealthTax` and `getSuggestedMaintenance` from `components/ScenarioForm.tsx` |
| `History` | `history.dfy` | `handleCalculate` and `handleLoadScenario` from `app/page.tsx` |

How JavaScript is rendered in the model:

- Numbers are mathematical reals. The two year counts, `financeYears` and `horizonYears`, are naturals. The car's model `year` is a real, because the form's year field accepts any number, so a car's age can be fractional.
- `Math.pow(1 + r, -n)` is written `1 / Pow(1 + r, n)`.
- Optional fields are `Option`s, and `x ?? d` takes the value when it is present.
- The truthiness tests become explicit conditions:
  - `kmPerLiter ? … : 0`, `taxBracket || 0.47`, `year || currentYear` and `price && …` treat an absent value and 0 alike. There, `None` also stands for `NaN`, which a cleared number field yields and which is falsy as well.
- `Math.round(x)` is `⌊x + 0.5⌋`.
- The current year and the timestamp of a history entry are parameters, because the source reads them from the clock. The car's age is computed as the source computes it: the current year less the form's year field (`Suggestions.CarAge`).

Where the model and the source differ:

- A zero horizon. The source computes `difference / 0`, which gives `±Infinity`, or `NaN` when the difference is 0. The form does not stop a 0 being entered. The model returns `monthlyDifference == None` in exactly that case (`horizonYears == 0`), and every other field is computed as in the source. A zero horizon is meant to be rejected by the caller, but neither the engine nor the form does so.

## Model

| member | source | states |
|---|---|---|
| Formulas.MonthlyPayment | lib/formulas.ts:58-76 | A cash purchase (0 years) costs nothing per month. Without interest, the payments over `12 × years` months add up to exactly the principal. The payment has the sign of the principal. At a positive rate the payment is `Formulas.AnnuityPayment`, the PMT quotient of line 75, and its value is pinned by `Amortization.AnnuityEquation` and `Amortization.PaymentIsUniqueRepayment`. |
| Amortization.AnnuityEquation | lib/formulas.ts:68-75 | At a positive monthly rate `r`, `(1 + r)^n > 1` and `payment × (1 − (1 + r)^−n) = r × principal`. This is the annuity identity the PMT formula solves. |
| Amortization.BalanceClosedForm | lib/formulas.ts:68-75 | The month-by-month balance (interest added, then the payment taken off) has the closed form `r × B(k) = r × P × q^k − payment × (q^k − 1)`, with `q = 1 + r`. |
| Amortization.BalanceWithoutInterest | lib/formulas.ts:71-73 | Without interest, `k` payments take exactly `k × payment` off the principal. |
| Amortization.PaymentRepaysLoan | lib/formulas.ts:58-76 | For every rate ≥ 0 and term ≥ 1 year, the computed payment leaves a balance of exactly 0 after the last month. |
| Amortization.PaymentIsUniqueRepayment | lib/formulas.ts:58-76 | A constant payment settles the loan in `12 × years` months if and only if it equals the computed payment. |
| Amortization.RepaymentIsUnique | lib/formulas.ts:68-75 | At a positive rate, two constant payments that both settle a loan in `n` months are equal. |
| Amortization.PaymentsCoverPrincipal | lib/formulas.ts:58-76 | For a non-negative principal, the payments add up to at least the principal: interest never makes the loan cheaper. |
| Formulas.MonthlyEnergy | lib/formulas.ts:81-108 | An electric car costs its yearly kWh at the blended home and public price, spread over 12 months. A combustion car pays `12 × e × kmPerLiter = annualKm × fuelPrice`. With no usable consumption figures the cost is 0. |
| FormulaLemmas.HybridIsEvenMix | lib/formulas.ts:89-103 | A hybrid costs exactly half of the same car as an electric plus half of it as a combustion car. |
| FormulaLemmas.EnergyReadsOnlyItsChannel | lib/formulas.ts:81-108 | An electric car's cost does not depend on the fuel fields. A combustion car's cost does not depend on the electricity fields. |
| FormulaLemmas.EnergyDependsOnlyOnEnergyFields | lib/formulas.ts:81-108 | Two scenarios that agree on powertrain, distance, consumption and energy prices cost the same in energy. |
| FormulaLemmas.EnergyNonNegative | lib/formulas.ts:81-108 | With a non-negative distance, consumption and prices, and a home share in [0, 1], the energy cost is never negative, whatever the powertrain. |
| Formulas.StatutoryTaxableValue | lib/formulas.ts:115-142 | A combustion car is taxed at 2.48% of the price capped at 583,100. For an electric car or a hybrid: (1) the value is that amount less its deduction, floored at 0; (2) it is 0 exactly when the deduction covers the base; (3) no car exceeds the value at the cap. |
| FormulaLemmas.StatutoryDependsOnlyOnCappedPrice | lib/formulas.ts:115-132 | Only the capped price and the powertrain matter. The model year and any part of the price above the cap do not. |
| FormulaLemmas.StatutoryCapIdempotent | lib/formulas.ts:121-139 | Every price at or above the cap gives the value at the cap, `max(0, 583100 × 0.0248 − deduction)`. |
| FormulaLemmas.StatutoryOrderedByPowertrain | lib/formulas.ts:124-139 | At the same non-negative price, electric ≤ hybrid ≤ combustion. |
| FormulaLemmas.StatutoryMonotoneInPrice | lib/formulas.ts:128-139 | A dearer car is never taxed on less. |
| FormulaLemmas.StatutoryWorkedExamples | app/explanations/page.tsx:286-321 | The two published examples: an electric car at 200,000 gives 3,610 a month, and a petrol car at 150,000 gives 3,720. |
| Formulas.TaxableValue | lib/formulas.ts:172-174 | A manual override, even 0, wins. Without one, the statutory value is used. |
| Formulas.Compare | lib/formulas.ts:156-207 | From the figures: the recommendation is "personal" exactly when the difference is positive, with ties going to the company car. The difference is the personal net benefit plus the company car's total tax. The figures add up as the source adds them: the monthly total is payment + energy + maintenance + insurance; the net allowance is the allowance less its tax at the combined rate; the total net allowance and the total tax cost are their monthly amounts times the months; the net benefit is the total net allowance less the running costs over the months plus the resale value, and the resale value is the residual share of the price. The company car's net cost is minus its total tax cost, so it is never positive when the value and the rate are not negative. The monthly difference is absent exactly when the horizon is 0, and otherwise it times the months gives the difference. |
| Formulas.CalculateScenario | lib/formulas.ts:147-208 | The same facts in terms of the scenario: the payment is `MonthlyPayment`, the energy is `MonthlyEnergy`, the company car is taxed on the override if one is given and on the statutory value otherwise, and the tax cost is that value times `Formulas.TotalTaxRate`, income tax plus national insurance plus health tax (line 162). |
| FormulaLemmas.ScenarioMonthlyFigures | lib/formulas.ts:156-165 | For a scenario: the monthly total is the computed payment and energy plus the scenario's maintenance and insurance, the resale value is `price × residualPct / 100`, and the net allowance is `employerAllowance × (1 − (taxBracket + nationalInsurance + healthTax))`. |
| FormulaLemmas.ScenarioComposition | lib/formulas.ts:159-180 | For a scenario over `12 × horizonYears` months: the total net allowance is `employerAllowance × (1 − total tax rate) × months`; the net benefit is that total less the monthly total times the months, plus the resale value; the company car's total tax cost is its monthly tax cost times the months, and its net cost is minus that. |
| FormulaLemmas.DifferenceIsMonthlySum | lib/formulas.ts:156-185 | The difference equals `12 × horizonYears` times the monthly balance plus `price × residualPct / 100`. The monthly balance (`FormulaLemmas.MonthlyBalance`) is written from the figures alone: allowance × (1 − rate) − (payment + energy + maintenance + insurance) + taxable value × rate. This is an independent, month-by-month reading of the comparison. |
| FormulaLemmas.DifferenceMonotoneInBalance | lib/formulas.ts:156-183 | Over the same horizon, price and residual share, a larger monthly balance never gives a smaller difference. The three monotonicity lemmas below rest on it. |
| FormulaLemmas.ScenarioIgnoresNameAndYear | lib/formulas.ts:147-208 | Changing the scenario's name or model year never changes any field of the result. |
| FormulaLemmas.OverrideWithStatutoryValueIsNeutral | lib/formulas.ts:172-174 | Typing in the statutory value as an override gives the same result as giving no override (`undefined`). |
| FormulaLemmas.LargerAllowanceFavoursPersonal | lib/formulas.ts:162-184 | While the combined tax rate is at most 100%, a larger allowance never lowers the difference. A "personal" recommendation stays "personal". |
| FormulaLemmas.CompareMonotoneInAllowance | lib/formulas.ts:165-183 | The same on the comparison's figures. |
| FormulaLemmas.HigherTaxableValueFavoursPersonal | lib/formulas.ts:173-184 | With a non-negative tax rate, a higher taxable value for the company car never lowers the difference. |
| FormulaLemmas.CompareMonotoneInTaxableValue | lib/formulas.ts:175-183 | The same on the comparison's figures. |
| FormulaLemmas.HigherRunningCostsFavourCompany | lib/formulas.ts:156-184 | Higher maintenance or insurance never raises the difference. |
| FormulaLemmas.CompareAntitoneInRunningCosts | lib/formulas.ts:156-183 | The same on the comparison's figures. |
| FormulaLemmas.RecommendationFollowsMonthlyDifference | lib/formulas.ts:183-185 | Over a positive horizon the monthly difference exists, and the recommendation is "personal" exactly when it is positive. |
| FormulaLemmas.ZeroHorizonComparesResidualOnly | lib/formulas.ts:158-185 | With a zero horizon, only the resale value is compared. |
| Suggestions.SuggestedNationalInsurance | components/ScenarioForm.tsx:85-92 | The suggestion is 0.04% for brackets up to 14%, 3.5% above 14% and up to 20%, and 7% above that. Each value is returned exactly in its range. |
| Suggestions.SuggestedHealthTax | components/ScenarioForm.tsx:94-99 | The suggestion is 3.1% exactly for brackets up to 20%, and 5% exactly above. |
| Suggestions.SuggestionsMonotone | components/ScenarioForm.tsx:85-99 | Both suggestions rise (weakly) with the bracket. |
| Suggestions.BracketOrDefault | components/ScenarioForm.tsx:436-458 | `taxBracket \|\| 0.47`: a present, non-zero bracket is kept. An empty one, or 0, becomes 47%. |
| Suggestions.MissingBracketSuggestsTopRates | components/ScenarioForm.tsx:436-458 | With no bracket, or 0, the form suggests 7% national insurance and 5% health tax. |
| Suggestions.CarAge | components/ScenarioForm.tsx:103-104 | An empty year, or 0, gives age 0. Otherwise the age plus the year is the current year, so a fractional year gives a fractional age and a future year a negative one. |
| Suggestions.BaseMaintenance | components/ScenarioForm.tsx:106-121 | Every base amount is a multiple of 50 between 400 and 1,250. |
| Suggestions.BaseMaintenanceOrderedByPowertrain | components/ScenarioForm.tsx:106-121 | At every age, electric < hybrid < combustion. |
| Suggestions.BaseMaintenanceMonotoneInAge | components/ScenarioForm.tsx:106-121 | An older car never gets a lower base amount. |
| Suggestions.PriceFactor | components/ScenarioForm.tsx:123-128 | The factor is 1.3 exactly above 250,000 and 0.8 exactly for a non-zero price below 150,000. Otherwise it is 1, which includes an empty or zero price. |
| Suggestions.Round | components/ScenarioForm.tsx:130 | The rounded value is within half a unit of the input, and halves round up. |
| Suggestions.SuggestedMaintenance | components/ScenarioForm.tsx:102-131 | The suggestion is exactly base × factor (the rounding never changes it), and it lies between 320 and 1,625. |
| Suggestions.FutureYearIsNewCar | components/ScenarioForm.tsx:103-121 | A model year in the future is treated like an empty year. |
| Suggestions.SuggestedMaintenanceMonotoneInPrice | components/ScenarioForm.tsx:123-130 | For a positive price, a dearer car never gets a lower suggestion. |
| History.Prefix | app/page.tsx:86 | `slice(0, end)` keeps `min(end, length)` elements, in order. |
| History.AddToHistory | app/page.tsx:85-89 | The new entry comes first and the older entries follow in their order. The history grows by one up to ten entries and then stays at ten, with only the oldest dropped. |
| History.HandleCalculate | app/page.tsx:75-89 | The displayed result and the new first history entry hold the same calculation of the submitted scenario. The rest of the history is the previous history cut to nine. The loaded scenario is untouched. |
| History.HandleLoadScenario | app/page.tsx:99-107 | Loading sets the scenario the form is filled from, and changes neither the result nor the history. |
| History.AddToPrefix | app/page.tsx:86 | Adding to a history already cut to ten gives the same as adding first and cutting afterwards. |
| History.RunKeepsNewestTen | app/page.tsx:75-107 | After any sequence of calculations and loads, the history is the new calculations, newest first, followed by the old history, cut to ten. Loads alone leave it unchanged. |
| History.RunKeepsHistoryBounded | app/page.tsx:85-89 | A history that starts with at most ten entries never holds more. |

## Left out

- Formulas.MonthlyPayment: requires `apr >= 0`. The source also evaluates a negative rate, where `Math.pow` and the division can yield non-finite values that the model's reals cannot express. `Formulas.ScenarioFigures`, `Formulas.CalculateScenario` and `History.HandleCalculate` carry the same requirement, because they call it.
- Formulas.MonthlyPayment: fractional and negative loan terms are not modelled. `financeYears` is a natural, while the source accepts any number the field holds.
- Formulas.CalculateScenario: fractional and negative horizons are not modelled. `horizonYears` is a natural, while the source accepts any number the field holds. The car's model year is not restricted this way: it is a real.
- IEEE double arithmetic: rounding error, `NaN` and `Infinity` are not modelled, since every quantity is an exact real. A numeric comparison of the payment with a reference PMT value to two decimals (rate 5%, 5 years, 200,000) is a floating-point statement and is not stated. Instead, the payment is characterised exactly by `Amortization.PaymentRepaysLoan` and `Amortization.PaymentIsUniqueRepayment`.
- Empty optional number fields: the form turns an empty `kwhPer100` or `companyCarTaxableValue` field into `NaN`. An empty override is that field's initial state, because the form gives it no default and registers it with `valueAsNumber` (`components/ScenarioForm.tsx:75`, `:480`). An empty `kwhPer100` arises only when the user clears its default of 15. The source reads both fields through `??`, which does not replace `NaN`, and the model has no `NaN`, so the model does not follow what the form submits here. Both fields are modelled as present or absent, and `None` models the documented intent for an empty field ("leave empty for automatic calculation", `components/ScenarioForm.tsx:485`) rather than the form's `NaN`. (A cleared `kmPerLiter` is covered: the source reads it through truthiness, and `None` gives the same 0 litres.)
- `formatCurrency` (`lib/formulas.ts:213-215`): locale formatting of a display string, outside the engine's arithmetic.
- Page side effects: `localStorage` reads and writes, JSON (de)serialisation, export, toasts, scrolling, keyboard shortcuts and the 500 ms `setTimeout` delay. `setIsCalculating` is left out as well. The history model keeps only the values the page holds in state.
- Form wiring: `react-hook-form` registration, `watch`, default values and the `useEffect` that refills the form. `new Date()` is replaced by the `currentYear` and `timestamp` parameters.
- The rendering components (`components/ResultsCard.tsx`, `components/CalculationHistory.tsx`, `app/explanations/page.tsx`) are not part of this model. The explanations page is used only for its two worked statutory examples. The results card's totals add up the gross allowance, while the engine uses the net allowance. That is display, not engine arithmetic.
- Clearing the history: the page renders the history component without the clear handler the component declares (`app/page.tsx:295`), so the page has no clearing operation to model.
