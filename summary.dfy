/** The reductions of the tables: the column means of the water-year table
    (`GetAnnualAverages`, program_10.py:174-181) and the per-month-number means
    of the monthly table (`GetMonthlyAverages`, program_10.py:183-190). Both
    skip undefined cells. */
module Summary {
  import opened Wrappers
  import opened Dates
  import opened Flows
  import opened Statistics

  /** The numeric columns of the water-year table. */
  datatype AnnualColumn = AnnualMeanFlow | AnnualPeakFlow | AnnualMedianFlow | AnnualTqmean | AnnualRBIndex | AnnualSevenQ | AnnualExceed3xMedian

  const AnnualColumns: set<AnnualColumn> :=
    {AnnualMeanFlow, AnnualPeakFlow, AnnualMedianFlow, AnnualTqmean, AnnualRBIndex, AnnualSevenQ, AnnualExceed3xMedian}

  /** The numeric columns of the monthly table. */
  datatype MonthlyColumn = MonthlyMeanFlow | MonthlyTqmean | MonthlyRBIndex

  const MonthlyColumns: set<MonthlyColumn> := {MonthlyMeanFlow, MonthlyTqmean, MonthlyRBIndex}

  function AnnualCell(row: AnnualRow, c: AnnualColumn): Option<real> {
    match c
    case AnnualMeanFlow => row.meanFlow
    case AnnualPeakFlow => row.peakFlow
    case AnnualMedianFlow => row.medianFlow
    case AnnualTqmean => row.tqmean
    case AnnualRBIndex => row.rbIndex
    case AnnualSevenQ => row.sevenQ
    case AnnualExceed3xMedian => Some(row.exceed3xMedian as real)
  }

  function MonthlyCell(row: MonthlyRow, c: MonthlyColumn): Option<real> {
    match c
    case MonthlyMeanFlow => row.meanFlow
    case MonthlyTqmean => row.tqmean
    case MonthlyRBIndex => row.rbIndex
  }

  function AnnualColumnOf(table: seq<AnnualRow>, c: AnnualColumn): (col: seq<Option<real>>)
    ensures |col| == |table|
    ensures forall k :: 0 <= k < |table| ==> col[k] == AnnualCell(table[k], c)
  {
    seq(|table|, k requires 0 <= k < |table| => AnnualCell(table[k], c))
  }

  function MonthlyColumnOf(rows: seq<MonthlyRow>, c: MonthlyColumn): (col: seq<Option<real>>)
    ensures |col| == |rows|
    ensures forall k :: 0 <= k < |rows| ==> col[k] == MonthlyCell(rows[k], c)
  {
    seq(|rows|, k requires 0 <= k < |rows| => MonthlyCell(rows[k], c))
  }

  /** `mean(axis=0)` over the water-year table: one value per column. */
  function AnnualAverages(table: seq<AnnualRow>): (r: map<AnnualColumn, Option<real>>)
    ensures r.Keys == AnnualColumns
  {
    map c | c in AnnualColumns :: Mean(AnnualColumnOf(table, c))
  }

  /** A column's average is undefined exactly when the column holds no defined
      cell, and otherwise lies between its smallest and largest defined cells. */
  lemma AnnualAveragesSkipUndefined(table: seq<AnnualRow>, c: AnnualColumn)
    ensures AnnualAverages(table)[c].None? <==> forall k :: 0 <= k < |table| ==> AnnualCell(table[k], c).None?
    ensures AnnualAverages(table)[c].Some? ==>
      Minimum(Present(AnnualColumnOf(table, c))) <= AnnualAverages(table)[c].value <= Maximum(Present(AnnualColumnOf(table, c)))
  {
    var col := AnnualColumnOf(table, c);
    assert AnnualAverages(table)[c] == Mean(col);
  }

  /** The 3xMedian column is a count and is never undefined, so its average is
      defined whenever the table has a row. */
  lemma Exceed3xMedianAverageDefined(table: seq<AnnualRow>)
    requires |table| > 0
    ensures AnnualAverages(table)[AnnualExceed3xMedian].Some?
  {
    var col := AnnualColumnOf(table, AnnualExceed3xMedian);
    assert col[0].Some?;
    assert AnnualAverages(table)[AnnualExceed3xMedian] == Mean(col);
  }

  /** The averages of a one-row table are that row's cells. */
  lemma AnnualAveragesOneRow(row: AnnualRow, c: AnnualColumn)
    ensures AnnualAverages([row])[c] == AnnualCell(row, c)
  {
    var col := AnnualColumnOf([row], c);
    assert AnnualAverages([row])[c] == Mean(col);
    MeanOfOne(AnnualCell(row, c));
  }

  /** The table rows falling in calendar month `m`, whatever their year. */
  function RowsInMonth(table: seq<MonthlyRow>, m: int): (rows: seq<MonthlyRow>)
    ensures |rows| <= |table|
    ensures forall row :: row in rows <==> row in table && row.start.month == m
  {
    if table == [] then []
    else
      var head := if table[0].start.month == m then [table[0]] else [];
      head + RowsInMonth(table[1..], m)
  }

  /** The rows of a month are the table's rows starting in that month, each as
      often as the table holds it, and no other row. */
  lemma {:induction false} RowsInMonthCounts(table: seq<MonthlyRow>, m: int)
    ensures forall row :: multiset(RowsInMonth(table, m))[row] ==
                           (if row.start.month == m then multiset(table)[row] else 0)
  {
    if table != [] {
      RowsInMonthCounts(table[1..], m);
      assert table == [table[0]] + table[1..];
    }
  }

  /** The averages of one month number. */
  datatype MonthGroup = MonthGroup(month: int, averages: map<MonthlyColumn, Option<real>>)

  /** The column means of a group of monthly rows. */
  function ColumnMeans(rows: seq<MonthlyRow>): (r: map<MonthlyColumn, Option<real>>)
    ensures r.Keys == MonthlyColumns
  {
    map c | c in MonthlyColumns :: Mean(MonthlyColumnOf(rows, c))
  }

  /** The month numbers from m to 12 that some row of the table starts in, in
      increasing order. */
  function MonthsFrom(table: seq<MonthlyRow>, m: int): (r: seq<int>)
    requires 1 <= m <= 13
    ensures forall k :: 0 <= k < |r| ==> m <= r[k] <= 12
    ensures forall k, l :: 0 <= k < l < |r| ==> r[k] < r[l]
    ensures forall n :: n in r <==> m <= n <= 12 && RowsInMonth(table, n) != []
    decreases 13 - m
  {
    if m == 13 then []
    else
      var rest := MonthsFrom(table, m + 1);
      if RowsInMonth(table, m) == [] then rest
      else
        var r := [m] + rest;
        assert forall k :: 0 < k < |r| ==> r[k] == rest[k - 1];
        r
  }

  /** The month numbers of a list of groups, in order. */
  function GroupMonths(groups: seq<MonthGroup>): (months: seq<int>)
    ensures |months| == |groups|
    ensures forall k :: 0 <= k < |groups| ==> months[k] == groups[k].month
  {
    seq(|groups|, k requires 0 <= k < |groups| => groups[k].month)
  }

  /** `groupby(index.month).mean()`: one group per month number present in the
      table, in increasing month order, averaging every row of that month
      across years. */
  function MonthlyAverages(table: seq<MonthlyRow>): (r: seq<MonthGroup>)
    ensures forall k :: 0 <= k < |r| ==> 1 <= r[k].month <= 12
    ensures forall k, l :: 0 <= k < l < |r| ==> r[k].month < r[l].month
    ensures forall n :: n in GroupMonths(r) <==> 1 <= n <= 12 && RowsInMonth(table, n) != []
  {
    var months := MonthsFrom(table, 1);
    var r := seq(|months|, k requires 0 <= k < |months| => MonthGroup(months[k], ColumnMeans(RowsInMonth(table, months[k]))));
    assert GroupMonths(r) == months;
    r
  }

  /** Every month number of a table row with a valid start date has its group,
      and only months some row starts in have one. */
  lemma MonthGroupsPresent(table: seq<MonthlyRow>, n: int)
    requires forall i :: 0 <= i < |table| ==> ValidDate(table[i].start)
    ensures n in GroupMonths(MonthlyAverages(table)) <==>
      exists i :: 0 <= i < |table| && table[i].start.month == n
  {
    var rows := RowsInMonth(table, n);
    if exists i :: 0 <= i < |table| && table[i].start.month == n {
      var i :| 0 <= i < |table| && table[i].start.month == n;
      assert table[i] in rows;
    }
  }

  /** Each group averages, column by column, every row of its month whatever
      its year. */
  lemma MonthGroupMeans(table: seq<MonthlyRow>, k: nat, c: MonthlyColumn)
    requires k < |MonthlyAverages(table)|
    ensures MonthlyAverages(table)[k].averages[c] ==
      Mean(MonthlyColumnOf(RowsInMonth(table, MonthlyAverages(table)[k].month), c))
  {
  }

  /** Each group's averages are the column means of the rows of its month,
      each counted as often as the table holds it, in whatever order they are
      taken. */
  lemma MonthGroupAnyOrder(table: seq<MonthlyRow>, k: nat, c: MonthlyColumn, rows: seq<MonthlyRow>)
    requires k < |MonthlyAverages(table)|
    requires forall row :: multiset(rows)[row] ==
                           (if row.start.month == MonthlyAverages(table)[k].month then multiset(table)[row] else 0)
    ensures MonthlyAverages(table)[k].averages[c] == Mean(MonthlyColumnOf(rows, c))
  {
    var m := MonthlyAverages(table)[k].month;
    SameRows(table, m, rows);
    MonthGroupMeans(table, k, c);
    ColumnMeanPermutation(RowsInMonth(table, m), rows, c);
  }

  lemma SameRows(table: seq<MonthlyRow>, m: int, rows: seq<MonthlyRow>)
    requires forall row :: multiset(rows)[row] == (if row.start.month == m then multiset(table)[row] else 0)
    ensures multiset(rows) == multiset(RowsInMonth(table, m))
  {
    RowsInMonthCounts(table, m);
  }

  /** Rearranging rows does not change the mean of any column. */
  lemma ColumnMeanPermutation(a: seq<MonthlyRow>, b: seq<MonthlyRow>, c: MonthlyColumn)
    requires multiset(a) == multiset(b)
    ensures Mean(MonthlyColumnOf(a, c)) == Mean(MonthlyColumnOf(b, c))
  {
    ColumnPermutation(a, b, c);
    MeanPermutation(MonthlyColumnOf(a, c), MonthlyColumnOf(b, c));
  }

  lemma ColumnAppend(a: seq<MonthlyRow>, b: seq<MonthlyRow>, c: MonthlyColumn)
    ensures MonthlyColumnOf(a + b, c) == MonthlyColumnOf(a, c) + MonthlyColumnOf(b, c)
  {
  }

  /** Rearranging rows rearranges each of their columns. */
  lemma {:induction false} ColumnPermutation(a: seq<MonthlyRow>, b: seq<MonthlyRow>, c: MonthlyColumn)
    requires multiset(a) == multiset(b)
    ensures multiset(MonthlyColumnOf(a, c)) == multiset(MonthlyColumnOf(b, c))
    decreases |a|
  {
    if a == [] {
      assert |b| == |multiset(b)| == 0;
    } else {
      var u, v := MatchFirst(a, b);
      ColumnPermutation(a[1..], u + v, c);
      assert a == [a[0]] + a[1..];
      ColumnAppend([a[0]], a[1..], c);
      ColumnAppend(u, [a[0]] + v, c);
      ColumnAppend([a[0]], v, c);
      ColumnAppend(u, v, c);
    }
  }

  /** A group's averages skip undefined cells like the water-year ones. */
  lemma MonthGroupSkipsUndefined(table: seq<MonthlyRow>, k: nat, c: MonthlyColumn)
    requires k < |MonthlyAverages(table)|
    ensures MonthlyAverages(table)[k].averages[c].None? <==>
      forall row :: row in RowsInMonth(table, MonthlyAverages(table)[k].month) ==> MonthlyCell(row, c).None?
  {
    var rows := RowsInMonth(table, MonthlyAverages(table)[k].month);
    var col := MonthlyColumnOf(rows, c);
    MonthGroupMeans(table, k, c);
    assert forall row :: row in rows ==> exists j :: 0 <= j < |rows| && rows[j] == row;
  }
}
