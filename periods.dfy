/** The resampling of a daily record into periods (program_10.py:135-149 and
    161-170): water years anchored on October 1 (`'AS-OCT'`) and calendar
    months anchored on day 1 (`'MS'`). Every key from the earliest period
    holding an observation up to the latest one gets a period, empty or not,
    and each period holds the discharges of its days in the record's order. */
module Periods {
  import opened Wrappers
  import opened Dates
  import opened Records

  datatype Scheme = WaterYears | CalendarMonths

  /** The label of the period holding `d`: a water year, or a month counted from year 0. */
  function PeriodOf(scheme: Scheme, d: Date): int {
    match scheme
    case WaterYears => WaterYear(d)
    case CalendarMonths => MonthIndex(d)
  }

  /** The first day of the period labelled `key`, the row index of the tables. */
  function PeriodStart(scheme: Scheme, key: int): (d: Date)
    ensures ValidDate(d) && PeriodOf(scheme, d) == key
  {
    match scheme
    case WaterYears => WaterYearStart(key)
    case CalendarMonths => MonthStart(key)
  }

  /** A period is the half-open date interval from its first day to the first
      day of the next period. */
  lemma PeriodIsInterval(scheme: Scheme, d: Date, key: int)
    requires ValidDate(d)
    ensures PeriodOf(scheme, d) == key <==>
      NotAfter(PeriodStart(scheme, key), d) && Before(d, PeriodStart(scheme, key + 1))
  {
    match scheme
    case WaterYears => WaterYearIsInterval(d, key);
    case CalendarMonths => MonthIndexIsInterval(d, key);
  }

  /** Later days never fall in earlier periods. */
  lemma PeriodMonotone(scheme: Scheme, a: Date, b: Date)
    requires ValidDate(a) && ValidDate(b) && NotAfter(a, b)
    ensures PeriodOf(scheme, a) <= PeriodOf(scheme, b)
  {
    match scheme
    case WaterYears => WaterYearMonotone(a, b);
    case CalendarMonths => MonthIndexMonotone(a, b);
  }

  /** The discharges of the observations dated within period `key`, in order. */
  function FlowsIn(series: seq<Obs>, scheme: Scheme, key: int): (r: seq<Option<real>>)
    ensures |r| <= |series|
  {
    if series == [] then []
    else
      var head := if PeriodOf(scheme, series[0].date) == key then [series[0].flow] else [];
      head + FlowsIn(series[1..], scheme, key)
  }

  /** A period holds the discharge of every one of its days and of no other day. */
  lemma {:induction false} FlowsInMembers(series: seq<Obs>, scheme: Scheme, key: int)
    ensures forall i :: 0 <= i < |series| && PeriodOf(scheme, series[i].date) == key ==>
      series[i].flow in FlowsIn(series, scheme, key)
    ensures forall x :: x in FlowsIn(series, scheme, key) ==>
      exists i :: 0 <= i < |series| && PeriodOf(scheme, series[i].date) == key && series[i].flow == x
  {
    if series != [] {
      var rest := series[1..];
      FlowsInMembers(rest, scheme, key);
      assert forall i :: 1 <= i < |series| ==> series[i] == rest[i - 1];
      forall x | x in FlowsIn(series, scheme, key)
        ensures exists i :: 0 <= i < |series| && PeriodOf(scheme, series[i].date) == key && series[i].flow == x
      {
        if x !in FlowsIn(rest, scheme, key) {
          assert PeriodOf(scheme, series[0].date) == key && series[0].flow == x;
        } else {
          var i :| 0 <= i < |rest| && PeriodOf(scheme, rest[i].date) == key && rest[i].flow == x;
          assert series[i + 1] == rest[i];
        }
      }
    }
  }

  datatype Period = Period(key: int, flows: seq<Option<real>>)

  /** The `n` consecutive periods starting at label `lo`. */
  function PeriodsFrom(series: seq<Obs>, scheme: Scheme, lo: int, n: nat): (r: seq<Period>)
    ensures |r| == n
    ensures forall k :: 0 <= k < n ==> r[k].key == lo + k
    ensures forall k :: 0 <= k < n ==> r[k].flows == FlowsIn(series, scheme, lo + k)
    decreases n
  {
    if n == 0 then []
    else [Period(lo, FlowsIn(series, scheme, lo))] + PeriodsFrom(series, scheme, lo + 1, n - 1)
  }

  /** Splitting off the first of a run of periods. */
  lemma PeriodsFromFirst(series: seq<Obs>, scheme: Scheme, lo: int, n: nat)
    requires n > 0
    ensures PeriodsFrom(series, scheme, lo, n) ==
      [Period(lo, FlowsIn(series, scheme, lo))] + PeriodsFrom(series, scheme, lo + 1, n - 1)
  {
  }

  function Labels(series: seq<Obs>, scheme: Scheme): (r: seq<int>)
    ensures |r| == |series|
    ensures forall i :: 0 <= i < |series| ==> r[i] == PeriodOf(scheme, series[i].date)
  {
    seq(|series|, i requires 0 <= i < |series| => PeriodOf(scheme, series[i].date))
  }

  function Least(xs: seq<int>): (m: int)
    requires |xs| > 0
    ensures m in xs && forall i :: 0 <= i < |xs| ==> m <= xs[i]
  {
    if |xs| == 1 then xs[0]
    else
      var rest := Least(xs[1..]);
      assert forall i :: 1 <= i < |xs| ==> xs[i] == xs[1..][i - 1];
      if xs[0] <= rest then xs[0] else rest
  }

  function Greatest(xs: seq<int>): (m: int)
    requires |xs| > 0
    ensures m in xs && forall i :: 0 <= i < |xs| ==> xs[i] <= m
  {
    if |xs| == 1 then xs[0]
    else
      var rest := Greatest(xs[1..]);
      assert forall i :: 1 <= i < |xs| ==> xs[i] == xs[1..][i - 1];
      if xs[0] >= rest then xs[0] else rest
  }

  /** The labels from the earliest observation's period to the latest one's:
      the first label and the number of labels. */
  function Span(series: seq<Obs>, scheme: Scheme): (r: (int, nat))
    requires series != []
    ensures r.1 > 0
    ensures forall i :: 0 <= i < |series| ==> r.0 <= PeriodOf(scheme, series[i].date) < r.0 + r.1
  {
    var labels := Labels(series, scheme);
    var lo, hi := Least(labels), Greatest(labels);
    assert lo <= labels[0] <= hi;
    (lo, hi - lo + 1)
  }

  /** The span is tight: its first and its last label both hold an observation. */
  lemma SpanTight(series: seq<Obs>, scheme: Scheme) returns (first: nat, last: nat)
    requires series != []
    ensures first < |series| && PeriodOf(scheme, series[first].date) == Span(series, scheme).0
    ensures last < |series| &&
      PeriodOf(scheme, series[last].date) == Span(series, scheme).0 + Span(series, scheme).1 - 1
  {
    var labels := Labels(series, scheme);
    first :| 0 <= first < |labels| && labels[first] == Least(labels);
    last :| 0 <= last < |labels| && labels[last] == Greatest(labels);
  }

  /** `resample(...)`: one period for every label from the earliest
      observation's to the latest one's, in increasing label order. */
  function Partition(series: seq<Obs>, scheme: Scheme): (r: seq<Period>)
    ensures series == [] <==> r == []
    ensures forall k :: 0 <= k < |r| ==> r[k].key == r[0].key + k
    ensures forall k :: 0 <= k < |r| ==> r[k].flows == FlowsIn(series, scheme, r[k].key)
  {
    if series == [] then []
    else
      var (lo, n) := Span(series, scheme);
      PeriodsFrom(series, scheme, lo, n)
  }

  /** The discharges of consecutive periods, one after another. */
  function Flatten(ps: seq<Period>): (s: seq<Option<real>>)
  {
    if ps == [] then [] else ps[0].flows + Flatten(ps[1..])
  }

  lemma {:induction false} FlattenEmptyPeriods(series: seq<Obs>, scheme: Scheme, lo: int, n: nat)
    requires series == []
    ensures Flatten(PeriodsFrom(series, scheme, lo, n)) == []
    decreases n
  {
    if n > 0 {
      PeriodsFromFirst(series, scheme, lo, n);
      FlattenEmptyPeriods(series, scheme, lo + 1, n - 1);
    }
  }

  /** An observation before period `lo` takes no part in periods from `lo` on. */
  lemma {:induction false} PeriodsDropHead(series: seq<Obs>, scheme: Scheme, lo: int, n: nat)
    requires series != [] && PeriodOf(scheme, series[0].date) < lo
    ensures PeriodsFrom(series, scheme, lo, n) == PeriodsFrom(series[1..], scheme, lo, n)
  {
    var ps, qs := PeriodsFrom(series, scheme, lo, n), PeriodsFrom(series[1..], scheme, lo, n);
    forall k | 0 <= k < n ensures ps[k] == qs[k] {
      assert FlowsIn(series, scheme, lo + k) == FlowsIn(series[1..], scheme, lo + k);
    }
  }

  lemma {:induction false} FlowsInNone(series: seq<Obs>, scheme: Scheme, key: int)
    requires forall i :: 0 <= i < |series| ==> PeriodOf(scheme, series[i].date) != key
    ensures FlowsIn(series, scheme, key) == []
  {
    if series != [] {
      assert forall i :: 1 <= i < |series| ==> series[i] == series[1..][i - 1];
      FlowsInNone(series[1..], scheme, key);
    }
  }

  /** Within a chronological record every later day's label is at least the first one's. */
  lemma LabelsFromFirst(series: seq<Obs>, scheme: Scheme)
    requires Chronological(series) && series != []
    ensures forall i :: 0 <= i < |series| ==>
      PeriodOf(scheme, series[0].date) <= PeriodOf(scheme, series[i].date)
  {
    forall i | 0 < i < |series|
      ensures PeriodOf(scheme, series[0].date) <= PeriodOf(scheme, series[i].date)
    {
      PeriodMonotone(scheme, series[0].date, series[i].date);
    }
  }

  lemma FlattenCons(p: Period, ps: seq<Period>)
    ensures Flatten([p] + ps) == p.flows + Flatten(ps)
  {
    assert ([p] + ps)[1..] == ps;
  }

  /** The first day of a record opens the first period of the run. */
  lemma TileOpen(series: seq<Obs>, scheme: Scheme, lo: int, n: nat)
    requires series != [] && n > 0 && PeriodOf(scheme, series[0].date) == lo
    requires Flatten(PeriodsFrom(series[1..], scheme, lo, n)) == Discharges(series[1..])
    ensures Flatten(PeriodsFrom(series, scheme, lo, n)) == Discharges(series)
  {
    var rest := series[1..];
    PeriodsOpen(series, scheme, lo, n);
    PeriodsFromFirst(rest, scheme, lo, n);
    DischargesCons(series);
    PrependToFirst(series[0].flow, lo, FlowsIn(rest, scheme, lo), PeriodsFrom(rest, scheme, lo + 1, n - 1),
                   PeriodsFrom(series, scheme, lo, n), PeriodsFrom(rest, scheme, lo, n));
  }

  /** The periods from the first day's label on are those of the rest of the
      record, with the first day added in front of the first period. */
  lemma PeriodsOpen(series: seq<Obs>, scheme: Scheme, lo: int, n: nat)
    requires series != [] && n > 0 && PeriodOf(scheme, series[0].date) == lo
    ensures PeriodsFrom(series, scheme, lo, n) ==
      [Period(lo, [series[0].flow] + FlowsIn(series[1..], scheme, lo))] + PeriodsFrom(series[1..], scheme, lo + 1, n - 1)
  {
    PeriodsFromFirst(series, scheme, lo, n);
    PeriodsDropHead(series, scheme, lo + 1, n - 1);
    FlowsInOpen(series, scheme);
  }

  lemma PrependToFirst(x: Option<real>, key: int, own: seq<Option<real>>, later: seq<Period>,
                       ps: seq<Period>, qs: seq<Period>)
    requires ps == [Period(key, [x] + own)] + later
    requires qs == [Period(key, own)] + later
    ensures Flatten(ps) == [x] + Flatten(qs)
  {
    FlattenCons(Period(key, [x] + own), later);
    FlattenCons(Period(key, own), later);
  }

  lemma FlowsInOpen(series: seq<Obs>, scheme: Scheme)
    requires series != []
    ensures FlowsIn(series, scheme, PeriodOf(scheme, series[0].date)) ==
      [series[0].flow] + FlowsIn(series[1..], scheme, PeriodOf(scheme, series[0].date))
  {
  }

  /** A period none of whose days is in the record contributes nothing. */
  lemma TileSkip(series: seq<Obs>, scheme: Scheme, lo: int, n: nat)
    requires n > 0
    requires forall i :: 0 <= i < |series| ==> PeriodOf(scheme, series[i].date) != lo
    requires Flatten(PeriodsFrom(series, scheme, lo + 1, n - 1)) == Discharges(series)
    ensures Flatten(PeriodsFrom(series, scheme, lo, n)) == Discharges(series)
  {
    PeriodsFromFirst(series, scheme, lo, n);
    FlowsInNone(series, scheme, lo);
    var ps := PeriodsFrom(series, scheme, lo, n);
    assert Flatten(ps) == [] + Flatten(ps[1..]);
  }

  /** Consecutive periods covering every label of a chronological record hold
      its discharges, in the record's order, and nothing else. */
  lemma {:induction false} TileFrom(series: seq<Obs>, scheme: Scheme, lo: int, n: nat)
    requires Chronological(series)
    requires forall i :: 0 <= i < |series| ==> lo <= PeriodOf(scheme, series[i].date) < lo + n
    ensures Flatten(PeriodsFrom(series, scheme, lo, n)) == Discharges(series)
    decreases |series| + n
  {
    if series == [] {
      FlattenEmptyPeriods(series, scheme, lo, n);
    } else if PeriodOf(scheme, series[0].date) == lo {
      TailInRange(series, scheme, lo, n);
      TileFrom(series[1..], scheme, lo, n);
      TileOpen(series, scheme, lo, n);
    } else {
      SkipInRange(series, scheme, lo, n);
      TileFrom(series, scheme, lo + 1, n - 1);
      TileSkip(series, scheme, lo, n);
    }
  }

  lemma TailInRange(series: seq<Obs>, scheme: Scheme, lo: int, n: nat)
    requires Chronological(series) && series != []
    requires forall i :: 0 <= i < |series| ==> lo <= PeriodOf(scheme, series[i].date) < lo + n
    ensures Chronological(series[1..])
    ensures forall i :: 0 <= i < |series[1..]| ==> lo <= PeriodOf(scheme, series[1..][i].date) < lo + n
  {
    ChronologicalTail(series);
    assert forall i :: 0 <= i < |series| - 1 ==> series[1..][i] == series[i + 1];
  }

  /** When the first day lies after period `lo`, no day lies in it and the
      next run of periods still covers the record. */
  lemma SkipInRange(series: seq<Obs>, scheme: Scheme, lo: int, n: nat)
    requires Chronological(series) && series != []
    requires forall i :: 0 <= i < |series| ==> lo <= PeriodOf(scheme, series[i].date) < lo + n
    requires PeriodOf(scheme, series[0].date) != lo
    ensures n > 0
    ensures forall i :: 0 <= i < |series| ==> PeriodOf(scheme, series[i].date) != lo
    ensures forall i :: 0 <= i < |series| ==> lo + 1 <= PeriodOf(scheme, series[i].date) < lo + 1 + (n - 1)
  {
    LabelsFromFirst(series, scheme);
  }

  /** Each water year (or month) is a contiguous run of the record, and the runs
      follow one another in key order: concatenating the periods gives back
      the discharge column of a chronological record. */
  lemma PartitionTiles(series: seq<Obs>, scheme: Scheme)
    requires Chronological(series)
    ensures Flatten(Partition(series, scheme)) == Discharges(series)
  {
    if series != [] {
      var span := Span(series, scheme);
      PartitionRun(series, scheme);
      TileFrom(series, scheme, span.0, span.1);
    }
  }

  lemma PartitionRun(series: seq<Obs>, scheme: Scheme)
    requires series != []
    ensures Partition(series, scheme) == PeriodsFrom(series, scheme, Span(series, scheme).0, Span(series, scheme).1)
  {
  }

  /** Every observation falls in exactly one period of the partition. */
  lemma ExactlyOnePeriod(series: seq<Obs>, scheme: Scheme, i: nat) returns (k: nat)
    requires i < |series|
    ensures k < |Partition(series, scheme)|
    ensures Partition(series, scheme)[k].key == PeriodOf(scheme, series[i].date)
    ensures forall k' ::
      0 <= k' < |Partition(series, scheme)| && Partition(series, scheme)[k'].key == PeriodOf(scheme, series[i].date)
      ==> k' == k
  {
    var labels := Labels(series, scheme);
    var lo := Least(labels);
    assert lo <= labels[i] <= Greatest(labels);
    k := labels[i] - lo;
  }

  lemma LeastIsFirst(xs: seq<int>)
    requires |xs| > 0 && forall i :: 0 <= i < |xs| ==> xs[0] <= xs[i]
    ensures Least(xs) == xs[0]
  {
  }

  lemma GreatestIsLast(xs: seq<int>)
    requires |xs| > 0 && forall i :: 0 <= i < |xs| ==> xs[i] <= xs[|xs| - 1]
    ensures Greatest(xs) == xs[|xs| - 1]
  {
  }

  /** Within a chronological record every day's label lies between the first
      day's and the last day's. */
  lemma LabelsBetweenEnds(series: seq<Obs>, scheme: Scheme)
    requires Chronological(series) && series != []
    ensures forall i :: 0 <= i < |series| ==>
      PeriodOf(scheme, series[0].date) <= PeriodOf(scheme, series[i].date) <= PeriodOf(scheme, series[|series| - 1].date)
  {
    var last := |series| - 1;
    LabelsFromFirst(series, scheme);
    forall i | 0 <= i < last
      ensures PeriodOf(scheme, series[i].date) <= PeriodOf(scheme, series[last].date)
    {
      PeriodMonotone(scheme, series[i].date, series[last].date);
    }
  }

  /** On a chronological record the partition runs from the first day's period
      to the last day's. */
  lemma PartitionSpan(series: seq<Obs>, scheme: Scheme)
    requires Chronological(series) && series != []
    ensures Partition(series, scheme)[0].key == PeriodOf(scheme, series[0].date)
    ensures |Partition(series, scheme)| ==
      PeriodOf(scheme, series[|series| - 1].date) - PeriodOf(scheme, series[0].date) + 1
  {
    LabelsBetweenEnds(series, scheme);
    LeastIsFirst(Labels(series, scheme));
    GreatestIsLast(Labels(series, scheme));
  }
}
