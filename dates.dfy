/** Calendar dates at day resolution, ordered lexicographically, and the two
    period schemes the statistics are grouped by: water years that start on
    October 1 and calendar months that start on day 1. */
module Dates {

  datatype Date = Date(year: int, month: int, day: int)

  predicate IsLeapYear(y: int) {
    y % 4 == 0 && (y % 100 != 0 || y % 400 == 0)
  }

  function DaysInMonth(y: int, m: int): int {
    if m == 2 then (if IsLeapYear(y) then 29 else 28)
    else if m == 4 || m == 6 || m == 9 || m == 11 then 30
    else 31
  }

  /** A real calendar day of the Gregorian calendar. */
  predicate ValidDate(d: Date) {
    1 <= d.month <= 12 && 1 <= d.day <= DaysInMonth(d.year, d.month)
  }

  /** `a` comes strictly before `b`: (year, month, day) compared lexicographically. */
  predicate Before(a: Date, b: Date) {
    a.year < b.year ||
    (a.year == b.year && (a.month < b.month || (a.month == b.month && a.day < b.day)))
  }

  predicate NotAfter(a: Date, b: Date) {
    a == b || Before(a, b)
  }

  /** The label of the water year holding `d`: the year of the October 1 that starts it. */
  function WaterYear(d: Date): (y: int)
    ensures ValidDate(d) ==> NotAfter(Date(y, 10, 1), d) && Before(d, Date(y + 1, 10, 1))
  {
    if d.month >= 10 then d.year else d.year - 1
  }

  /** October 1 of year `y`, the first day of water year `y`. */
  function WaterYearStart(y: int): (d: Date)
    ensures ValidDate(d) && WaterYear(d) == y
  {
    Date(y, 10, 1)
  }

  /** Months counted from January of year 0, so that consecutive months have
      consecutive indices. */
  function MonthIndex(d: Date): (k: int)
    ensures ValidDate(d) ==> k / 12 == d.year && k % 12 + 1 == d.month
  {
    d.year * 12 + (d.month - 1)
  }

  /** Day 1 of the month with index `k`. */
  function MonthStart(k: int): (d: Date)
    ensures ValidDate(d) && MonthIndex(d) == k
  {
    Date(k / 12, k % 12 + 1, 1)
  }

  /** A valid day lies in water year `y` exactly when it falls in the half-open
      interval [October 1 of y, October 1 of y + 1). */
  lemma WaterYearIsInterval(d: Date, y: int)
    requires ValidDate(d)
    ensures WaterYear(d) == y <==> NotAfter(WaterYearStart(y), d) && Before(d, WaterYearStart(y + 1))
  {
  }

  /** A valid day has month index `k` exactly when it falls in the half-open
      interval [day 1 of month k, day 1 of month k + 1). */
  lemma MonthIndexIsInterval(d: Date, k: int)
    requires ValidDate(d)
    ensures MonthIndex(d) == k <==> NotAfter(MonthStart(k), d) && Before(d, MonthStart(k + 1))
  {
    var s, t := MonthStart(k), MonthStart(k + 1);
    assert MonthIndex(s) == k && MonthIndex(t) == k + 1;
    if MonthIndex(d) == k {
      assert d.year == s.year && d.month == s.month;
    }
  }

  lemma WaterYearMonotone(a: Date, b: Date)
    requires NotAfter(a, b)
    ensures WaterYear(a) <= WaterYear(b)
  {
  }

  lemma MonthIndexMonotone(a: Date, b: Date)
    requires ValidDate(a) && ValidDate(b) && NotAfter(a, b)
    ensures MonthIndex(a) <= MonthIndex(b)
  {
  }
}
