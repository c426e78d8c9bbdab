# Derived metrics of the BrightView financial data visualization

This project models the small block of calculation logic inside the React
component in `src/FinancialDataVisualizationStandalone.tsx`, and proves
properties of it in Dafny. The component shows a company's yearly enterprise
value (EV) and EBITDA, each both unhedged and hedge-adjusted. Around that data
it works out a few figures:

- `formatLargeNumber` (module `Formatting`) renders an amount in billions
  ("B"), in millions ("M") or unscaled. Each case is chosen by comparing the
  *signed* value with 1e9 and 1e6.
- `calculateHedgeImpact` (`FinancialDataVisualization.CalculateHedgeImpact`)
  is a loop over the yearly records. It keeps four running totals: the EV
  difference, the EBITDA difference, the unhedged EV and the unhedged EBITDA.
  From them it forms the two impact percentages and the two formatted dollar
  differences.
- `calculateAverages` (`FinancialDataVisualization.CalculateAverages`) is a
  reduce fold over the revenue stabilization records. Each field's sum is
  then divided by the record count.
- `percentChange` and the `summaryStats` built from the averages.
- `getFinancialChartData` projects each record onto the EV or the EBITDA
  field pair, depending on the selected metric.

In the source, two of these closures read the component's own state:
`calculateHedgeImpact` reads the `financialData` array, and
`getFinancialChartData` reads both `financialData` and the `selectedMetric`
state. In the model, both become parameters. The other three closures
already take their inputs as arguments. JavaScript
numbers are modelled as Dafny `real`, which is exact arithmetic, not IEEE-754.
Each string made with `toFixed(2)` is modelled as `Formatting.Fixed2(value,
suffix)`. This keeps the number passed to `toFixed(2)` and the suffix added
after it. `Formatting.Hundredths` gives the integer that the printed digits
spell for the exact value. The program rounds the nearest double instead,
which can differ by one at a decimal tie. `Hundredths` follows ECMAScript's
`Number.prototype.toFixed`, applied to the exact value:

- take the magnitude of the number,
- choose the nearest hundredth,
- on a tie, choose the larger one.

So exact ties round away from zero.

The sums are defined once, in module `Sums`, for any record type, and the
order independence of the sums is proved there. The component embeds four
datasets. Module `Datasets` holds two of them, `financialData` and
`revStabilizedData`. For them, the model works out the hedge
impact ("3.76", "3.92", "682.82M", "62.60M") and the summary statistics
(3.76 % and 17.64 % after rounding).

One might expect an explicit error when the input is empty or a denominator
is zero. The code just divides, and gets NaN or Infinity. The model follows the code, and a
`requires` excludes those inputs:

- a nonzero unhedged EV and EBITDA total for `CalculateHedgeImpact`,
- a non-empty input for `CalculateAverages`,
- a nonzero original value for `PercentChange`.

The formatter's thresholds are reproduced as written: every negative amount
(-2e9, say) takes the unscaled branch. This is stated as
`Formatting.NegativeIsUnscaled`. We do not claim it as a bug, because what the
authors meant for negative amounts is not clear.

## Model

| member | source | states |
|---|---|---|
| `Formatting.Hundredths` | src/FinancialDataVisualizationStandalone.tsx:249-251 | the rounding of toFixed(2) applied to the exact value: the hundredths are within half a unit of 100·x, and an exact tie goes away from zero |
| `Formatting.HundredthsIsNearest` | src/FinancialDataVisualizationStandalone.tsx:249-251 | no integer is closer to 100·x than the hundredths toFixed(2) prints |
| `Formatting.HundredthsExact` | src/FinancialDataVisualizationStandalone.tsx:249-251 | a value that already has two decimals prints exactly as itself |
| `Formatting.FormatLargeNumber` | src/FinancialDataVisualizationStandalone.tsx:248-252 | suffix "B" exactly when num ≥ 1e9, "M" exactly when 1e6 ≤ num < 1e9, none exactly when num < 1e6; the scaled value times the divisor is num; "B" values are ≥ 1 and "M" values lie in [1, 1000) |
| `Formatting.NegativeIsUnscaled` | src/FinancialDataVisualizationStandalone.tsx:249-251 | every negative amount takes the unscaled, no-suffix branch, because the threshold comparisons at lines 249-250 use the signed value |
| `Formatting.FormatLargeNumberExamples` | src/FinancialDataVisualizationStandalone.tsx:248-252 | 1.5e9 renders as "1.50B", 2.5e6 as "2.50M" and 999 as "999.00" |
| `Sums.SumPermutation` | src/FinancialDataVisualizationStandalone.tsx:260-265 | a sum over records is the same for any reordering of the records (equal multisets) |
| `FinancialDataVisualization.ImpactOf` | src/FinancialDataVisualizationStandalone.tsx:267-277 | each impact percentage times its unhedged total is 100 times the summed difference; the dollar values format the unrounded summed differences, not the percentages |
| `FinancialDataVisualization.CalculateHedgeImpact` | src/FinancialDataVisualizationStandalone.tsx:254-278 | the four accumulators, starting at 0 and updated once per record, end up as the sums over all records of hedge-adjusted − unhedged EV and EBITDA and of unhedged EV and EBITDA; the result is the impact of those totals |
| `FinancialDataVisualization.TotalsPermutationInvariant` | src/FinancialDataVisualizationStandalone.tsx:255-270 | reordering the records changes none of the four totals, and so neither the impacts nor the dollar values |
| `FinancialDataVisualization.EvDifferenceIsDifferenceOfTotals` | src/FinancialDataVisualizationStandalone.tsx:260-265 | the summed per-record difference equals the hedge-adjusted total minus the unhedged total, for EV and for EBITDA |
| `FinancialDataVisualization.ReduceIsSum` | src/FinancialDataVisualizationStandalone.tsx:281-295 | the reduce fold, started from any accumulator, adds each field's sum over the records to that accumulator |
| `FinancialDataVisualization.CalculateAverages` | src/FinancialDataVisualizationStandalone.tsx:280-304 | each average is that field's sum over the records divided by the number of records (non-empty input) |
| `FinancialDataVisualization.AveragesOfSingleton` | src/FinancialDataVisualizationStandalone.tsx:297-303 | averaging one record returns its three values unchanged |
| `FinancialDataVisualization.AveragesPermutationInvariant` | src/FinancialDataVisualizationStandalone.tsx:280-304 | the averages do not depend on the order of the records |
| `FinancialDataVisualization.PercentChange` | src/FinancialDataVisualizationStandalone.tsx:306-307 | adding r % of the original value to it gives back the new value; the result is 0 exactly when the values are equal; for a positive original value it is positive exactly when the new value is larger and negative exactly when it is smaller, and the other way round for a negative original value |
| `FinancialDataVisualization.PercentChangeExamples` | src/FinancialDataVisualizationStandalone.tsx:306-307 | from 100 to 110 is +10 %, from 100 to 90 is −10 % |
| `FinancialDataVisualization.PercentChangeScaleInvariant` | src/FinancialDataVisualizationStandalone.tsx:306-307 | dividing both values by the same nonzero factor leaves the percent change unchanged |
| `FinancialDataVisualization.SummaryStatsOf` | src/FinancialDataVisualizationStandalone.tsx:312-321 | hedgeAdjustmentImpact is positive exactly when the average hedge-adjusted EV exceeds the average EV; stabilizationImpact is positive exactly when the average stabilized value exceeds the average hedge-adjusted EV (positive bases) |
| `FinancialDataVisualization.SummaryStatsFromTotals` | src/FinancialDataVisualizationStandalone.tsx:311-321 | the summary statistics of a dataset are the percent changes between its column totals, because the record count cancels |
| `FinancialDataVisualization.GetFinancialChartData` | src/FinancialDataVisualizationStandalone.tsx:323-337 | as many points as records, in the same order, each keeping its record's year, each of the kind the selector names |
| `FinancialDataVisualization.ChartDataRecoversRecords` | src/FinancialDataVisualizationStandalone.tsx:323-337 | the EV series and the EBITDA series together give back every record, field by field and in order: "ev" projects (ev, hedgeAdjustedEv) and "ebitda" projects (ebitda, hedgeAdjustedEbitda) |
| `FinancialDataVisualization.ChartDataAppend` | src/FinancialDataVisualizationStandalone.tsx:323-337 | the series of a concatenation is the concatenation of the series: each record is projected in place |
| `Datasets.FinancialDataTotals` | src/FinancialDataVisualizationStandalone.tsx:88-138 | on the embedded yearly records the four totals are 682,821,400; 62,600,000; 18,143,767,056 and 1,597,487,765.40 |
| `Datasets.FinancialDataHedgeImpact` | src/FinancialDataVisualizationStandalone.tsx:254-278 | on the embedded yearly records the hedge impact renders as "3.76", "3.92", "682.82M" and "62.60M" |
| `Datasets.RevStabilizedSummaryStats` | src/FinancialDataVisualizationStandalone.tsx:311-321 | on the embedded stabilization records the summary statistics round to 3.76 % and 17.64 % |

## Left out

- The React rendering, the component's tab and metric state, the style sheet and every chart component. They are presentation only; the selected metric becomes a parameter of `GetFinancialChartData`.
- `snowRemovalData` and `evEbitdaData`. Nothing computes over them: `revenueDifference` is never recomputed, and the optional multiple fields are never checked.
- IEEE-754 floating point. All arithmetic is over exact reals, so a sum here may differ from the JavaScript result in its last binary digits.
- The rounding of the double by `toFixed(2)`. The program rounds the binary double, not the exact real, so at a decimal tie the printed hundredth can differ from `Hundredths` by one. For example, the model gives 1.01 for `FormatLargeNumber(1005000)`, while the program prints "1.00M" because 1005000 / 1e6 is the double 1.00499999…. In the same way, the model rounds 2.675 to 2.68, where JavaScript prints "2.67". Ties go away from zero only when they are exact in binary, such as 0.125, which prints "0.13".
- The digit string of `toFixed(2)`. This includes the leading "-" kept for negatives that round to zero, such as "-0.00", and the exponential form that `toFixed` uses for magnitudes of 1e21 and more. The model keeps the value passed to `toFixed(2)`, the hundredths it rounds to, and the suffix.
- NaN and Infinity results. For an empty input or a zero denominator the source yields NaN or Infinity; a `requires` excludes these inputs, as described above.
