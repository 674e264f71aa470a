/** The daily record of one gauging station after parsing: cleaning of the
    discharge column (`ReadData`, program_10.py:37-40) and clipping to an
    analysis window (`ClipData`, program_10.py:44-54). */
module Records {
  import opened Wrappers
  import opened Dates
  import opened Flows

  /** One daily observation: its date and its discharge, `None` when missing. */
  datatype Obs = Obs(date: Date, flow: Option<real>)

  /** The discharge column of a record. */
  function Discharges(series: seq<Obs>): (s: seq<Option<real>>)
    ensures |s| == |series|
    ensures forall i :: 0 <= i < |series| ==> s[i] == series[i].flow
  {
    seq(|series|, i requires 0 <= i < |series| => series[i].flow)
  }

  lemma DischargesCons(series: seq<Obs>)
    requires series != []
    ensures Discharges(series) == [series[0].flow] + Discharges(series[1..])
  {
    assert forall i :: 0 < i < |series| ==> series[1..][i - 1] == series[i];
  }

  /** The series invariant: valid calendar days in strictly increasing order. */
  predicate Chronological(series: seq<Obs>) {
    (forall i :: 0 <= i < |series| ==> ValidDate(series[i].date)) &&
    (forall i, j :: 0 <= i < j < |series| ==> Before(series[i].date, series[j].date))
  }

  predicate IsNegative(v: Option<real>) {
    v.Some? && v.value < 0.0
  }

  function CountNegative(s: seq<Option<real>>): (n: nat)
    ensures n <= |s|
  {
    if s == [] then 0 else (if IsNegative(s[0]) then 1 else 0) + CountNegative(s[1..])
  }

  /** The discharge column after negative readings are marked missing. */
  function Scrubbed(s: seq<Option<real>>): (r: seq<Option<real>>)
    ensures |r| == |s|
    ensures forall i :: 0 <= i < |s| ==> !IsNegative(r[i])
    ensures forall i :: 0 <= i < |s| && IsNegative(s[i]) ==> r[i].None?
    ensures forall i :: 0 <= i < |s| && !IsNegative(s[i]) ==> r[i] == s[i]
  {
    if s == [] then []
    else [if IsNegative(s[0]) then None else s[0]] + Scrubbed(s[1..])
  }

  /** Counts the missing readings, then marks every negative reading missing
      in place. The count is taken first, so the readings scrubbed here are
      not part of it. */
  method ReadData(discharge: array<Option<real>>) returns (missing: nat)
    modifies discharge
    ensures missing == CountMissing(old(discharge[..]))
    ensures discharge[..] == Scrubbed(old(discharge[..]))
  {
    missing := CountMissing(discharge[..]);
    forall i | 0 <= i < discharge.Length && IsNegative(discharge[i]) {
      discharge[i] := None;
    }
  }

  /** Scrubbing adds one missing reading per negative reading, so the count
      `ReadData` returns falls short of the missing readings it leaves behind
      by exactly the number of negative readings. */
  lemma {:induction false} ScrubbedMissing(s: seq<Option<real>>)
    ensures CountMissing(Scrubbed(s)) == CountMissing(s) + CountNegative(s)
  {
    if s != [] {
      ScrubbedMissing(s[1..]);
      assert Scrubbed(s)[1..] == Scrubbed(s[1..]);
    }
  }

  /** Scrubbing a scrubbed column changes nothing. */
  lemma ScrubbedIdempotent(s: seq<Option<real>>)
    ensures Scrubbed(Scrubbed(s)) == Scrubbed(s)
  {
  }

  predicate InWindow(d: Date, startDate: Date, endDate: Date) {
    NotAfter(startDate, d) && NotAfter(d, endDate)
  }

  /** The observations dated within [startDate, endDate], in their order. */
  function Clip(series: seq<Obs>, startDate: Date, endDate: Date): (r: seq<Obs>)
    ensures |r| <= |series|
    ensures forall o :: o in r ==> o in series && InWindow(o.date, startDate, endDate)
    ensures forall o :: o in series && InWindow(o.date, startDate, endDate) ==> o in r
  {
    if series == [] then []
    else
      var head := if InWindow(series[0].date, startDate, endDate) then [series[0]] else [];
      head + Clip(series[1..], startDate, endDate)
  }

  /** `loc[startDate:endDate]` followed by a fresh count of missing readings. */
  function ClipData(series: seq<Obs>, startDate: Date, endDate: Date): (r: (seq<Obs>, nat))
    ensures r.0 == Clip(series, startDate, endDate)
    ensures r.1 == CountMissing(Discharges(r.0))
    ensures r.1 <= |r.0|
  {
    var clipped := Clip(series, startDate, endDate);
    (clipped, CountMissing(Discharges(clipped)))
  }

  lemma ChronologicalTail(series: seq<Obs>)
    requires Chronological(series) && series != []
    ensures Chronological(series[1..])
  {
    var rest := series[1..];
    forall a, b | 0 <= a < b < |rest| ensures Before(rest[a].date, rest[b].date) {
      assert rest[a] == series[a + 1] && rest[b] == series[b + 1];
    }
  }

  /** The window is an interval of the date order. */
  lemma InWindowBetween(a: Date, b: Date, c: Date, startDate: Date, endDate: Date)
    requires InWindow(a, startDate, endDate) && InWindow(c, startDate, endDate)
    requires Before(a, b) && Before(b, c)
    ensures InWindow(b, startDate, endDate)
  {
  }

  /** The indices of `series` in [i, j) are exactly those dated within the window. */
  predicate WindowSlice(series: seq<Obs>, startDate: Date, endDate: Date, i: nat, j: nat) {
    i <= j <= |series| &&
    Clip(series, startDate, endDate) == series[i..j] &&
    forall k :: 0 <= k < |series| ==> (i <= k < j <==> InWindow(series[k].date, startDate, endDate))
  }

  /** On a chronological series the clipped record is one contiguous slice:
      the observations from index i up to j, and exactly those, lie in the window. */
  lemma {:induction false} ClipIsSlice(series: seq<Obs>, startDate: Date, endDate: Date)
    returns (i: nat, j: nat)
    requires Chronological(series)
    ensures i <= j <= |series|
    ensures Clip(series, startDate, endDate) == series[i..j]
    ensures forall k :: 0 <= k < |series| ==> (i <= k < j <==> InWindow(series[k].date, startDate, endDate))
  {
    if series == [] {
      i, j := 0, 0;
    } else {
      ChronologicalTail(series);
      var i', j' := ClipIsSlice(series[1..], startDate, endDate);
      if !InWindow(series[0].date, startDate, endDate) {
        i, j := i' + 1, j' + 1;
        SliceSkipHead(series, startDate, endDate, i', j');
      } else if i' == j' {
        i, j := 0, 1;
        SliceOnlyHead(series, startDate, endDate, i');
      } else {
        i, j := 0, j' + 1;
        SliceKeepHead(series, startDate, endDate, i', j');
      }
    }
  }

  lemma SliceSkipHead(series: seq<Obs>, startDate: Date, endDate: Date, i: nat, j: nat)
    requires series != [] && WindowSlice(series[1..], startDate, endDate, i, j)
    requires !InWindow(series[0].date, startDate, endDate)
    ensures WindowSlice(series, startDate, endDate, i + 1, j + 1)
  {
    var rest := series[1..];
    assert series[i + 1..j + 1] == rest[i..j];
    forall k | 0 < k < |series|
      ensures i + 1 <= k < j + 1 <==> InWindow(series[k].date, startDate, endDate)
    {
      assert series[k] == rest[k - 1];
    }
  }

  lemma SliceOnlyHead(series: seq<Obs>, startDate: Date, endDate: Date, i: nat)
    requires series != [] && WindowSlice(series[1..], startDate, endDate, i, i)
    requires InWindow(series[0].date, startDate, endDate)
    ensures WindowSlice(series, startDate, endDate, 0, 1)
  {
    var rest := series[1..];
    assert Clip(series, startDate, endDate) == [series[0]];
    forall k | 0 < k < |series|
      ensures !InWindow(series[k].date, startDate, endDate)
    {
      assert series[k] == rest[k - 1];
    }
  }

  lemma SliceKeepHead(series: seq<Obs>, startDate: Date, endDate: Date, i: nat, j: nat)
    requires Chronological(series) && series != []
    requires WindowSlice(series[1..], startDate, endDate, i, j) && i < j
    requires InWindow(series[0].date, startDate, endDate)
    ensures i == 0
    ensures WindowSlice(series, startDate, endDate, 0, j + 1)
  {
    var rest := series[1..];
    // the first day and the day at i + 1 lie in the window, so every day between does too
    if i > 0 {
      assert rest[0] == series[1] && rest[i] == series[i + 1];
      InWindowBetween(series[0].date, rest[0].date, rest[i].date, startDate, endDate);
    }
    assert series[0..j + 1] == [series[0]] + rest[0..j];
    forall k | 0 < k < |series|
      ensures k < j + 1 <==> InWindow(series[k].date, startDate, endDate)
    {
      assert series[k] == rest[k - 1];
    }
  }

  /** A window whose start lies after its end selects nothing; label slicing
      on a sorted index does not fail in that case. */
  lemma ClipReversedWindow(series: seq<Obs>, startDate: Date, endDate: Date)
    requires Before(endDate, startDate)
    ensures ClipData(series, startDate, endDate) == ([], 0)
  {
    var r := Clip(series, startDate, endDate);
    if r != [] {
      assert r[0] in r;
    }
  }
}
