/** The water-year and monthly tables (`GetAnnualStatistics`,
    program_10.py:125-151, and `GetMonthlyStatistics`, program_10.py:153-172):
    one row per period of the partition, holding the period's first day and the
    metrics of its discharges. */
module Statistics {
  import opened Wrappers
  import opened Dates
  import opened Flows
  import opened Records
  import opened Metrics
  import opened Periods

  /** A row of the water-year table: Mean Flow, Peak Flow, Median Flow, Tqmean,
      R-B Index, 7Q and 3xMedian. */
  datatype AnnualRow = AnnualRow(
    start: Date,
    meanFlow: Option<real>,
    peakFlow: Option<real>,
    medianFlow: Option<real>,
    tqmean: Option<real>,
    rbIndex: Option<real>,
    sevenQ: Option<real>,
    exceed3xMedian: nat)

  /** A row of the monthly table: Mean Flow, Tqmean and R-B Index. */
  datatype MonthlyRow = MonthlyRow(
    start: Date,
    meanFlow: Option<real>,
    tqmean: Option<real>,
    rbIndex: Option<real>)

  /** The metrics of one water year, each computed on that year's discharges. */
  function AnnualRowOf(p: Period): (row: AnnualRow)
    ensures row.start == PeriodStart(WaterYears, p.key)
    ensures row.meanFlow.None? <==> forall i :: 0 <= i < |p.flows| ==> p.flows[i].None?
    ensures row.exceed3xMedian <= |Present(p.flows)|
    ensures row.sevenQ.None? <==> |Present(p.flows)| < 7
  {
    var s := p.flows;
    AnnualRow(PeriodStart(WaterYears, p.key), Mean(s), Peak(s), Median(s),
              Tqmean(s), RBIndex(s), SevenQ(s), Exceed3xMedian(s))
  }

  /** The metrics of one month. */
  function MonthlyRowOf(p: Period): (row: MonthlyRow)
    ensures row.start == PeriodStart(CalendarMonths, p.key) && row.start.day == 1
    ensures row.meanFlow.None? <==> forall i :: 0 <= i < |p.flows| ==> p.flows[i].None?
    ensures row.tqmean.None? <==> |Present(p.flows)| == 0
  {
    var s := p.flows;
    MonthlyRow(PeriodStart(CalendarMonths, p.key), Mean(s), Tqmean(s), RBIndex(s))
  }

  /** Builds a table period by period: row k holds the metrics of period k. */
  method FillRows<R>(periods: seq<Period>, rowOf: Period -> R) returns (table: seq<R>)
    ensures |table| == |periods|
    ensures forall k :: 0 <= k < |table| ==> table[k] == rowOf(periods[k])
  {
    table := [];
    var k := 0;
    while k < |periods|
      invariant 0 <= k <= |periods|
      invariant |table| == k
      invariant forall j :: 0 <= j < k ==> table[j] == rowOf(periods[j])
    {
      table := table + [rowOf(periods[k])];
      k := k + 1;
    }
  }

  /** The water-year table: one row per water year from the first observation's
      to the last one's, in order, each holding that year's metrics. */
  method GetAnnualStatistics(series: seq<Obs>) returns (table: seq<AnnualRow>)
    ensures |table| == |Partition(series, WaterYears)|
    ensures forall k :: 0 <= k < |table| ==> table[k] == AnnualRowOf(Partition(series, WaterYears)[k])
  {
    table := FillRows(Partition(series, WaterYears), AnnualRowOf);
  }

  /** The monthly table: one row per calendar month from the first
      observation's to the last one's, in order. */
  method GetMonthlyStatistics(series: seq<Obs>) returns (table: seq<MonthlyRow>)
    ensures |table| == |Partition(series, CalendarMonths)|
    ensures forall k :: 0 <= k < |table| ==> table[k] == MonthlyRowOf(Partition(series, CalendarMonths)[k])
  {
    table := FillRows(Partition(series, CalendarMonths), MonthlyRowOf);
  }

  /** The rows of a table start on consecutive period boundaries: row k is the
      period k labels after the first one. */
  lemma AnnualRowsConsecutive(series: seq<Obs>, k: nat)
    requires 0 < k < |Partition(series, WaterYears)|
    ensures AnnualRowOf(Partition(series, WaterYears)[k]).start ==
      Dates.Date(AnnualRowOf(Partition(series, WaterYears)[0]).start.year + k, 10, 1)
  {
  }

  lemma MonthlyRowsIncreasing(series: seq<Obs>, k: nat)
    requires 0 < k < |Partition(series, CalendarMonths)|
    ensures Before(MonthlyRowOf(Partition(series, CalendarMonths)[k - 1]).start,
                   MonthlyRowOf(Partition(series, CalendarMonths)[k]).start)
  {
    var ps := Partition(series, CalendarMonths);
    var a, b := PeriodStart(CalendarMonths, ps[k - 1].key), PeriodStart(CalendarMonths, ps[k].key);
    MonthIndexIsInterval(b, ps[k - 1].key);
    assert MonthIndex(b) == ps[k - 1].key + 1;
  }
}
