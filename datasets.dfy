/** The datasets the component embeds, and the figures its hedge impact and
    summary statistics work out to on them. */
module Datasets {
  import opened Sums
  import opened Formatting
  import opened FinancialDataVisualization

  /** The seven yearly EV/EBITDA records, TTM first. */
  function FinancialData(): seq<FinancialDataItem>
  {
    [ FinancialDataItem("TTM", 2641226000.0, 2724665600.0, 294385421.31, 303685421.31),
      FinancialDataItem("9/30/2023", 2153734961.0, 2343017961.0, 243497451.78, 264897451.78),
      FinancialDataItem("9/30/2022", 2145320000.0, 2063824000.0, 210593894.18, 202593894.18),
      FinancialDataItem("9/30/2021", 2636652000.0, 2535676000.0, 208893360.8, 200893360.8),
      FinancialDataItem("9/30/2020", 2341622600.0, 3152641400.0, 184495950.2, 248395950.2),
      FinancialDataItem("9/30/2019", 2939973891.0, 2833189891.0, 220255760.49, 212255760.49),
      FinancialDataItem("9/30/2018", 3285237604.0, 3173573604.0, 235365926.64, 227365926.64) ]
  }

  /** The seven revenue stabilization records, "ttm" first. */
  function RevStabilizedData(): seq<RevStabilizedDataItem>
  {
    [ RevStabilizedDataItem("ttm", 2641226000.0, 2724665600.0, 3331429071.77),
      RevStabilizedDataItem("9/30/2023", 2153734961.0, 2343017961.0, 2874137351.81),
      RevStabilizedDataItem("9/30/2022", 2145320000.0, 2063824000.0, 2469619570.05),
      RevStabilizedDataItem("9/30/2021", 2636652000.0, 2535676000.0, 2937060934.9),
      RevStabilizedDataItem("9/30/2020", 2341622600.0, 3152641400.0, 3648936508.44),
      RevStabilizedDataItem("9/30/2019", 2939973891.0, 2833189891.0, 3258125923.52),
      RevStabilizedDataItem("9/30/2018", 3285237604.0, 3173573604.0, 3628760189.17) ]
  }

  /** The totals of the yearly records. */
  lemma FinancialDataTotals()
    ensures TotalsOf(FinancialData()) == HedgeTotals(682821400.0, 62600000.0, 18143767056.0, 1597487765.4)
  {
    var d := FinancialData();
    assert d[1..][1..][1..][1..][1..][1..][1..] == [];
  }

  /** On the embedded records the hedge impact reads "3.76", "3.92",
      "682.82M" and "62.60M". */
  lemma FinancialDataHedgeImpact()
    ensures var r := ImpactOf(TotalsOf(FinancialData()));
      && Hundredths(r.evImpact.value) == 376 && r.evImpact.suffix == ""
      && Hundredths(r.ebitdaImpact.value) == 392 && r.ebitdaImpact.suffix == ""
      && r.evDollarValue == Fixed2(682.8214, "M") && Hundredths(682.8214) == 68282
      && r.ebitdaDollarValue == Fixed2(62.6, "M") && Hundredths(62.6) == 6260
  {
    FinancialDataTotals();
    var t := TotalsOf(FinancialData());
    var r := ImpactOf(t);
    assert r.evImpact.value == 682821400.0 / 18143767056.0 * 100.0;
    assert r.ebitdaImpact.value == 62600000.0 / 1597487765.4 * 100.0;
  }

  /** On the embedded records the summary statistics come out as about +3.76%
      for the hedge adjustment and +17.64% for the stabilization. */
  lemma RevStabilizedSummaryStats()
    ensures |RevStabilizedData()| == 7
    ensures CalculateAverages(RevStabilizedData()).avgEnterpriseValue != 0.0
    ensures CalculateAverages(RevStabilizedData()).avgHedgeAdjustedEnterpriseValue != 0.0
    ensures var r := SummaryStatsOf(CalculateAverages(RevStabilizedData()));
      && Hundredths(r.hedgeAdjustmentImpact) == 376
      && Hundredths(r.stabilizationImpact) == 1764
  {
    var d := RevStabilizedData();
    assert d[1..][1..][1..][1..][1..][1..][1..] == [];
    assert Sum(d, EnterpriseValueOf) == 18143767056.0;
    assert Sum(d, HedgeAdjustedOf) == 18826588456.0;
    SummaryStatsFromTotals(d);
  }
}
