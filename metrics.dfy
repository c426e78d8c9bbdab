/** The derived metrics of the financial data visualization component: the
    hedge impact over the yearly records, the averages over the revenue
    stabilization records, percent change, the summary statistics built from
    them, and the series handed to the EV/EBITDA chart. calculateHedgeImpact
    reads the component's financialData, and getFinancialChartData reads both
    financialData and the selected metric; here those are parameters. */
module FinancialDataVisualization {
  import opened Sums
  import opened Formatting

  /** One year of enterprise value and EBITDA, unhedged and hedge-adjusted. */
  datatype FinancialDataItem = FinancialDataItem(
    year: string,
    ev: real,
    hedgeAdjustedEv: real,
    ebitda: real,
    hedgeAdjustedEbitda: real)

  /** One period of the revenue stabilization projection. */
  datatype RevStabilizedDataItem = RevStabilizedDataItem(
    name: string,
    enterpriseValue: real,
    hedgeAdjustedEnterpriseValue: real,
    stabilizedHedgeAdjustedEnterpriseValue: real)

  /** The chart's metric selector, "ev" or "ebitda". */
  datatype Metric = Ev | Ebitda

  function EvOf(item: FinancialDataItem): real { item.ev }
  function EbitdaOf(item: FinancialDataItem): real { item.ebitda }
  function HedgeAdjustedEvOf(item: FinancialDataItem): real { item.hedgeAdjustedEv }
  function HedgeAdjustedEbitdaOf(item: FinancialDataItem): real { item.hedgeAdjustedEbitda }
  function EvDifferenceOf(item: FinancialDataItem): real { item.hedgeAdjustedEv - item.ev }
  function EbitdaDifferenceOf(item: FinancialDataItem): real { item.hedgeAdjustedEbitda - item.ebitda }

  // ---------------------------------------------------------------- hedge impact

  /** The four accumulators of calculateHedgeImpact. */
  datatype HedgeTotals = HedgeTotals(
    totalEvDifference: real,
    totalEbitdaDifference: real,
    totalEv: real,
    totalEbitda: real)

  /** What calculateHedgeImpact returns: each string is a toFixed(2) rendering. */
  datatype HedgeImpact = HedgeImpact(
    evImpact: Fixed2,
    ebitdaImpact: Fixed2,
    evDollarValue: Fixed2,
    ebitdaDollarValue: Fixed2)

  /** The totals over all records, as sums of the per-record values. */
  function TotalsOf(data: seq<FinancialDataItem>): HedgeTotals
  {
    HedgeTotals(
      Sum(data, EvDifferenceOf),
      Sum(data, EbitdaDifferenceOf),
      Sum(data, EvOf),
      Sum(data, EbitdaOf))
  }

  /** What calculateHedgeImpact makes of its totals once the loop is done. The
      impacts are percentages of the unhedged totals; the dollar values format
      the summed differences themselves, not the rounded percentages. */
  function ImpactOf(t: HedgeTotals): (r: HedgeImpact)
    requires t.totalEv != 0.0 && t.totalEbitda != 0.0
    ensures r.evImpact.suffix == "" && r.evImpact.value * t.totalEv == t.totalEvDifference * 100.0
    ensures r.ebitdaImpact.suffix == "" && r.ebitdaImpact.value * t.totalEbitda == t.totalEbitdaDifference * 100.0
    ensures r.evDollarValue == FormatLargeNumber(t.totalEvDifference)
    ensures r.ebitdaDollarValue == FormatLargeNumber(t.totalEbitdaDifference)
  {
    HedgeImpact(
      Fixed2(t.totalEvDifference / t.totalEv * 100.0, ""),
      Fixed2(t.totalEbitdaDifference / t.totalEbitda * 100.0, ""),
      FormatLargeNumber(t.totalEvDifference),
      FormatLargeNumber(t.totalEbitdaDifference))
  }

  /** calculateHedgeImpact: one pass over the records updating the four
      accumulators, then the percentages and the formatted dollar values. */
  method CalculateHedgeImpact(financialData: seq<FinancialDataItem>) returns (r: HedgeImpact)
    requires Sum(financialData, EvOf) != 0.0 && Sum(financialData, EbitdaOf) != 0.0
    ensures r == ImpactOf(TotalsOf(financialData))
  {
    var totalEvDifference := 0.0;
    var totalEbitdaDifference := 0.0;
    var totalEv := 0.0;
    var totalEbitda := 0.0;
    var i := 0;
    while i < |financialData|
      invariant 0 <= i <= |financialData|
      invariant totalEvDifference == Sum(financialData[..i], EvDifferenceOf)
      invariant totalEbitdaDifference == Sum(financialData[..i], EbitdaDifferenceOf)
      invariant totalEv == Sum(financialData[..i], EvOf)
      invariant totalEbitda == Sum(financialData[..i], EbitdaOf)
    {
      var item := financialData[i];
      assert financialData[..i + 1] == financialData[..i] + [item];
      SumSnoc(financialData[..i], item, EvDifferenceOf);
      SumSnoc(financialData[..i], item, EbitdaDifferenceOf);
      SumSnoc(financialData[..i], item, EvOf);
      SumSnoc(financialData[..i], item, EbitdaOf);
      totalEvDifference := totalEvDifference + (item.hedgeAdjustedEv - item.ev);
      totalEbitdaDifference := totalEbitdaDifference + (item.hedgeAdjustedEbitda - item.ebitda);
      totalEv := totalEv + item.ev;
      totalEbitda := totalEbitda + item.ebitda;
      i := i + 1;
    }
    assert financialData[..i] == financialData;
    var evImpact := totalEvDifference / totalEv * 100.0;
    var ebitdaImpact := totalEbitdaDifference / totalEbitda * 100.0;
    r := HedgeImpact(
      Fixed2(evImpact, ""),
      Fixed2(ebitdaImpact, ""),
      FormatLargeNumber(totalEvDifference),
      FormatLargeNumber(totalEbitdaDifference));
  }

  /** Reordering the records changes none of the four totals, and so none of
      the impacts or dollar values computed from them. */
  lemma TotalsPermutationInvariant(s: seq<FinancialDataItem>, t: seq<FinancialDataItem>)
    requires multiset(s) == multiset(t)
    ensures TotalsOf(s) == TotalsOf(t)
  {
    SumPermutation(s, t, EvDifferenceOf);
    SumPermutation(s, t, EbitdaDifferenceOf);
    SumPermutation(s, t, EvOf);
    SumPermutation(s, t, EbitdaOf);
  }

  /** The summed difference is the hedge-adjusted total less the unhedged one. */
  lemma {:induction false} EvDifferenceIsDifferenceOfTotals(data: seq<FinancialDataItem>)
    ensures TotalsOf(data).totalEvDifference == Sum(data, HedgeAdjustedEvOf) - Sum(data, EvOf)
    ensures TotalsOf(data).totalEbitdaDifference == Sum(data, HedgeAdjustedEbitdaOf) - Sum(data, EbitdaOf)
    decreases |data|
  {
    if |data| > 0 {
      EvDifferenceIsDifferenceOfTotals(data[1..]);
    }
  }

  // ---------------------------------------------------------------- averages

  /** The accumulator of calculateAverages' reduce. */
  datatype ColumnSums = ColumnSums(
    enterpriseValue: real,
    hedgeAdjustedEnterpriseValue: real,
    stabilizedHedgeAdjustedEnterpriseValue: real)

  datatype Averages = Averages(
    avgEnterpriseValue: real,
    avgHedgeAdjustedEnterpriseValue: real,
    avgStabilizedHedgeAdjustedEnterpriseValue: real)

  function EnterpriseValueOf(item: RevStabilizedDataItem): real { item.enterpriseValue }
  function HedgeAdjustedOf(item: RevStabilizedDataItem): real { item.hedgeAdjustedEnterpriseValue }
  function StabilizedOf(item: RevStabilizedDataItem): real { item.stabilizedHedgeAdjustedEnterpriseValue }

  /** The reducer: a fresh accumulator adding the current record's fields. */
  function AddRecord(acc: ColumnSums, curr: RevStabilizedDataItem): ColumnSums
  {
    ColumnSums(
      acc.enterpriseValue + curr.enterpriseValue,
      acc.hedgeAdjustedEnterpriseValue + curr.hedgeAdjustedEnterpriseValue,
      acc.stabilizedHedgeAdjustedEnterpriseValue + curr.stabilizedHedgeAdjustedEnterpriseValue)
  }

  /** Array.prototype.reduce: fold from the first record to the last. */
  function Reduce(data: seq<RevStabilizedDataItem>, acc: ColumnSums): ColumnSums
    decreases |data|
  {
    if |data| == 0 then acc else Reduce(data[1..], AddRecord(acc, data[0]))
  }

  /** Folding from acc adds each field's sum over the records to acc. */
  lemma {:induction false} ReduceIsSum(data: seq<RevStabilizedDataItem>, acc: ColumnSums)
    ensures Reduce(data, acc) == ColumnSums(
      acc.enterpriseValue + Sum(data, EnterpriseValueOf),
      acc.hedgeAdjustedEnterpriseValue + Sum(data, HedgeAdjustedOf),
      acc.stabilizedHedgeAdjustedEnterpriseValue + Sum(data, StabilizedOf))
    decreases |data|
  {
    if |data| > 0 {
      ReduceIsSum(data[1..], AddRecord(acc, data[0]));
    }
  }

  /** calculateAverages: each field's sum over the records, divided by the
      number of records. The source divides by data.length unguarded, so the
      records must not be empty. */
  function CalculateAverages(data: seq<RevStabilizedDataItem>): (r: Averages)
    requires |data| > 0
    ensures r.avgEnterpriseValue == Sum(data, EnterpriseValueOf) / |data| as real
    ensures r.avgHedgeAdjustedEnterpriseValue == Sum(data, HedgeAdjustedOf) / |data| as real
    ensures r.avgStabilizedHedgeAdjustedEnterpriseValue == Sum(data, StabilizedOf) / |data| as real
  {
    var sum := Reduce(data, ColumnSums(0.0, 0.0, 0.0));
    ReduceIsSum(data, ColumnSums(0.0, 0.0, 0.0));
    var count := |data| as real;
    Averages(
      sum.enterpriseValue / count,
      sum.hedgeAdjustedEnterpriseValue / count,
      sum.stabilizedHedgeAdjustedEnterpriseValue / count)
  }

  /** The average of one record is that record's three values. */
  lemma AveragesOfSingleton(x: RevStabilizedDataItem)
    ensures CalculateAverages([x]) == Averages(
      x.enterpriseValue,
      x.hedgeAdjustedEnterpriseValue,
      x.stabilizedHedgeAdjustedEnterpriseValue)
  {
    SumSingleton(x, EnterpriseValueOf);
    SumSingleton(x, HedgeAdjustedOf);
    SumSingleton(x, StabilizedOf);
  }

  /** The averages do not depend on the order of the records. */
  lemma AveragesPermutationInvariant(s: seq<RevStabilizedDataItem>, t: seq<RevStabilizedDataItem>)
    requires |s| > 0 && multiset(s) == multiset(t)
    ensures |t| == |s| && CalculateAverages(s) == CalculateAverages(t)
  {
    assert |t| == |multiset(t)| == |multiset(s)| == |s|;
    SumPermutation(s, t, EnterpriseValueOf);
    SumPermutation(s, t, HedgeAdjustedOf);
    SumPermutation(s, t, StabilizedOf);
  }

  // ---------------------------------------------------------------- percent change

  /** percentChange: the change from originalValue to newValue as a percentage
      of originalValue. A zero originalValue makes the source divide by zero. */
  function PercentChange(newValue: real, originalValue: real): (r: real)
    requires originalValue != 0.0
    ensures originalValue + originalValue * r / 100.0 == newValue
    ensures r == 0.0 <==> newValue == originalValue
    ensures originalValue > 0.0 ==> (r > 0.0 <==> newValue > originalValue)
    ensures originalValue > 0.0 ==> (r < 0.0 <==> newValue < originalValue)
    ensures originalValue < 0.0 ==> (r > 0.0 <==> newValue < originalValue)
  {
    var q := (newValue - originalValue) / originalValue;
    assert q * originalValue == newValue - originalValue;
    q * 100.0
  }

  /** The two worked values: 100 to 110 is +10%, 100 to 90 is -10%. */
  lemma PercentChangeExamples()
    ensures PercentChange(110.0, 100.0) == 10.0
    ensures PercentChange(90.0, 100.0) == -10.0
  {
  }

  /** Scaling both values by the same nonzero factor leaves the percent
      change alone; this is why averages and totals give the same figure. */
  lemma PercentChangeScaleInvariant(newValue: real, originalValue: real, k: real)
    requires originalValue != 0.0 && k != 0.0
    ensures PercentChange(newValue / k, originalValue / k) == PercentChange(newValue, originalValue)
  {
    var a := PercentChange(newValue / k, originalValue / k);
    var b := PercentChange(newValue, originalValue);
    assert originalValue / k * (a / 100.0) == (newValue - originalValue) / k;
    assert originalValue * (b / 100.0) == newValue - originalValue;
    assert (originalValue / k) * (a / 100.0) * k == originalValue * (a / 100.0);
    assert originalValue * (a / 100.0) == originalValue * (b / 100.0);
  }

  // ---------------------------------------------------------------- summary statistics

  datatype SummaryStats = SummaryStats(hedgeAdjustmentImpact: real, stabilizationImpact: real)

  /** summaryStats: the percent change from the average EV to the average
      hedge-adjusted EV, and from that to the average stabilized value. */
  function SummaryStatsOf(averages: Averages): (r: SummaryStats)
    requires averages.avgEnterpriseValue != 0.0 && averages.avgHedgeAdjustedEnterpriseValue != 0.0
    ensures averages.avgEnterpriseValue > 0.0 ==>
      (r.hedgeAdjustmentImpact > 0.0 <==> averages.avgHedgeAdjustedEnterpriseValue > averages.avgEnterpriseValue)
    ensures averages.avgHedgeAdjustedEnterpriseValue > 0.0 ==>
      (r.stabilizationImpact > 0.0 <==>
       averages.avgStabilizedHedgeAdjustedEnterpriseValue > averages.avgHedgeAdjustedEnterpriseValue)
  {
    SummaryStats(
      PercentChange(averages.avgHedgeAdjustedEnterpriseValue, averages.avgEnterpriseValue),
      PercentChange(averages.avgStabilizedHedgeAdjustedEnterpriseValue, averages.avgHedgeAdjustedEnterpriseValue))
  }

  /** Over a dataset, the summary statistics are the percent changes between
      the column totals: the record count cancels. */
  lemma SummaryStatsFromTotals(data: seq<RevStabilizedDataItem>)
    requires |data| > 0
    requires Sum(data, EnterpriseValueOf) != 0.0 && Sum(data, HedgeAdjustedOf) != 0.0
    ensures CalculateAverages(data).avgEnterpriseValue != 0.0
    ensures CalculateAverages(data).avgHedgeAdjustedEnterpriseValue != 0.0
    ensures SummaryStatsOf(CalculateAverages(data)) == SummaryStats(
      PercentChange(Sum(data, HedgeAdjustedOf), Sum(data, EnterpriseValueOf)),
      PercentChange(Sum(data, StabilizedOf), Sum(data, HedgeAdjustedOf)))
  {
    var n := |data| as real;
    var e, h, z := Sum(data, EnterpriseValueOf), Sum(data, HedgeAdjustedOf), Sum(data, StabilizedOf);
    assert CalculateAverages(data) == Averages(e / n, h / n, z / n);
    SummaryStatsOfScaled(e, h, z, n);
  }

  lemma SummaryStatsOfScaled(e: real, h: real, z: real, n: real)
    requires n > 0.0 && e != 0.0 && h != 0.0
    ensures e / n != 0.0 && h / n != 0.0
    ensures SummaryStatsOf(Averages(e / n, h / n, z / n)) == SummaryStats(PercentChange(h, e), PercentChange(z, h))
  {
    assert e / n * n == e && h / n * n == h;
    PercentChangeScaleInvariant(h, e, n);
    PercentChangeScaleInvariant(z, h, n);
  }

  // ---------------------------------------------------------------- chart data

  /** One point of the chart: "Enterprise Value" and "Hedge Adjusted
      Enterprise Value", or "EBITDA" and "Hedge Adjusted EBITDA". */
  datatype ChartPoint =
    | EvPoint(year: string, base: real, hedgeAdjusted: real)
    | EbitdaPoint(year: string, base: real, hedgeAdjusted: real)

  /** getFinancialChartData: the records in their order, each projected on the
      field pair of the selected metric. */
  function GetFinancialChartData(financialData: seq<FinancialDataItem>, selectedMetric: Metric): (r: seq<ChartPoint>)
    ensures |r| == |financialData|
    ensures forall i :: 0 <= i < |r| ==> r[i].year == financialData[i].year
    ensures forall i :: 0 <= i < |r| ==> (r[i].EvPoint? <==> selectedMetric == Ev)
  {
    if selectedMetric == Ev then
      seq(|financialData|, i requires 0 <= i < |financialData| =>
        EvPoint(financialData[i].year, financialData[i].ev, financialData[i].hedgeAdjustedEv))
    else
      seq(|financialData|, i requires 0 <= i < |financialData| =>
        EbitdaPoint(financialData[i].year, financialData[i].ebitda, financialData[i].hedgeAdjustedEbitda))
  }

  /** Rebuilds records from an EV series and an EBITDA series, pointwise. */
  function RecordsOf(evSeries: seq<ChartPoint>, ebitdaSeries: seq<ChartPoint>): (r: seq<FinancialDataItem>)
    requires |evSeries| == |ebitdaSeries|
    ensures |r| == |evSeries|
  {
    seq(|evSeries|, i requires 0 <= i < |evSeries| =>
      FinancialDataItem(evSeries[i].year, evSeries[i].base, evSeries[i].hedgeAdjusted,
                        ebitdaSeries[i].base, ebitdaSeries[i].hedgeAdjusted))
  }

  /** The two series together lose nothing: every field of every record, in
      order, is in one of them. */
  lemma ChartDataRecoversRecords(financialData: seq<FinancialDataItem>)
    ensures RecordsOf(GetFinancialChartData(financialData, Ev), GetFinancialChartData(financialData, Ebitda))
            == financialData
  {
    var r := RecordsOf(GetFinancialChartData(financialData, Ev), GetFinancialChartData(financialData, Ebitda));
    assert forall i :: 0 <= i < |r| ==> r[i] == financialData[i];
  }

  /** The series of a concatenation is the concatenation of the series: each
      record is projected on its own, in place. */
  lemma ChartDataAppend(s: seq<FinancialDataItem>, t: seq<FinancialDataItem>, selectedMetric: Metric)
    ensures GetFinancialChartData(s + t, selectedMetric)
            == GetFinancialChartData(s, selectedMetric) + GetFinancialChartData(t, selectedMetric)
  {
  }
}
