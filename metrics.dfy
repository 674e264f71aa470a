/** The per-period metric calculators of program_10.py:56-123, plus the
    median the statistics tables use. Each one first drops the missing
    readings, as the script's `dropna` does, and is total: where the script
    would produce not-a-number the model returns `None`. */
module Metrics {
  import opened Wrappers
  import opened Flows

  predicate Ascending(r: seq<real>) {
    forall i, j :: 0 <= i < j < |r| ==> r[i] <= r[j]
  }

  function Insert(x: real, r: seq<real>): (t: seq<real>)
    requires Ascending(r)
    ensures Ascending(t)
    ensures |t| == |r| + 1
    ensures t[0] == x || (r != [] && t[0] == r[0])
  {
    if r == [] then [x]
    else if x <= r[0] then [x] + r
    else [r[0]] + Insert(x, r[1..])
  }

  /** The values in ascending order. */
  function Sort(p: seq<real>): (r: seq<real>)
    ensures Ascending(r)
    ensures |r| == |p|
  {
    if p == [] then [] else Insert(p[0], Sort(p[1..]))
  }

  lemma {:induction false} InsertPermutes(x: real, r: seq<real>)
    requires Ascending(r)
    ensures multiset(Insert(x, r)) == multiset(r) + multiset{x}
  {
    if r != [] && x > r[0] {
      InsertPermutes(x, r[1..]);
      assert r == [r[0]] + r[1..];
    }
  }

  /** Sorting rearranges the values and neither adds nor loses any. */
  lemma {:induction false} SortPermutes(p: seq<real>)
    ensures multiset(Sort(p)) == multiset(p)
  {
    if p != [] {
      SortPermutes(p[1..]);
      InsertPermutes(p[0], Sort(p[1..]));
      assert p == [p[0]] + p[1..];
    }
  }

  lemma {:induction false} CountAboveInsert(x: real, r: seq<real>, t: real)
    requires Ascending(r)
    ensures CountAbove(Insert(x, r), t) == CountAbove([x] + r, t)
  {
    if r != [] && x > r[0] {
      CountAboveInsert(x, r[1..], t);
      assert ([x] + r)[1..] == r;
      assert ([x] + r[1..])[1..] == r[1..];
    }
  }

  /** Sorting does not change how many values lie above a threshold. */
  lemma {:induction false} CountAboveSort(p: seq<real>, t: real)
    ensures CountAbove(Sort(p), t) == CountAbove(p, t)
  {
    if p != [] {
      CountAboveSort(p[1..], t);
      CountAboveInsert(p[0], Sort(p[1..]), t);
      assert ([p[0]] + Sort(p[1..]))[1..] == Sort(p[1..]);
    }
  }

  /** The middle value of a sorted sequence, or the mean of the two middle
      values when the length is even. */
  function Middle(r: seq<real>): real
    requires |r| > 0
  {
    var n := |r|;
    if n % 2 == 1 then r[n / 2] else (r[n / 2 - 1] + r[n / 2]) / 2.0
  }

  /** The median of a non-empty sequence. */
  function MedianOf(p: seq<real>): real
    requires |p| > 0
  {
    Middle(Sort(p))
  }

  /** `median()` with missing entries skipped; undefined when nothing is left. */
  function Median(s: seq<Option<real>>): (r: Option<real>)
    ensures r.None? <==> forall i :: 0 <= i < |s| ==> s[i].None?
    ensures r.Some? ==> Minimum(Present(s)) <= r.value <= Maximum(Present(s))
  {
    var p := Present(s);
    if |p| == 0 then None
    else
      MedianBounds(p);
      Some(MedianOf(p))
  }

  lemma SortedElementIn(p: seq<real>, k: nat)
    requires k < |Sort(p)|
    ensures Minimum(p) <= Sort(p)[k] <= Maximum(p)
  {
    var r := Sort(p);
    SortPermutes(p);
    assert r[k] in multiset(r);
    assert r[k] in multiset(p);
    assert r[k] in p;
  }

  /** The middle of a sorted sequence lies between two of its elements, the
      lower one at the lower middle position. */
  lemma MiddleBetween(r: seq<real>) returns (i: nat, j: nat)
    requires |r| > 0 && Ascending(r)
    ensures i == (|r| - 1) / 2 && j < |r|
    ensures r[i] <= Middle(r) <= r[j]
  {
    var n := |r|;
    i, j := (n - 1) / 2, n / 2;
    if n % 2 == 0 {
      assert r[n / 2 - 1] <= r[n / 2];
    }
  }

  /** The median lies between the smallest and the largest value, and is no
      smaller than the value at the lower middle position of the sorted sequence. */
  lemma MedianBounds(p: seq<real>)
    requires |p| > 0
    ensures Minimum(p) <= MedianOf(p) <= Maximum(p)
    ensures Sort(p)[(|p| - 1) / 2] <= MedianOf(p)
  {
    var r := Sort(p);
    var i, j := MiddleBetween(r);
    SortedElementIn(p, i);
    SortedElementIn(p, j);
  }

  /** Tqmean: the fraction of the filtered readings strictly above their mean;
      0/0, that is undefined, when no reading is present (program_10.py:65-67). */
  function Tqmean(s: seq<Option<real>>): (r: Option<real>)
    ensures r.None? <==> |Present(s)| == 0
    ensures r.Some? ==> 0.0 <= r.value <= 1.0
  {
    var p := Present(s);
    if |p| == 0 then None
    else
      var above := CountAbove(p, Average(p));
      FractionBounds(above, |p|);
      Some(above as real / |p| as real)
  }

  lemma FractionBounds(k: nat, n: nat)
    requires 0 < n && k <= n
    ensures 0.0 <= k as real / n as real <= 1.0
  {
  }

  /** Not every reading can lie above the mean, so Tqmean never reaches 1. */
  lemma TqmeanBelowOne(s: seq<Option<real>>)
    requires Tqmean(s).Some?
    ensures Tqmean(s).value < 1.0
  {
    var p := Present(s);
    var m := Average(p);
    AverageBounds(p);
    var k :| 0 <= k < |p| && p[k] == Minimum(p);
    CountAboveMisses(p, m, k);
  }

  /** A value at or below `t` keeps the count above `t` short of the length. */
  lemma {:induction false} CountAboveMisses(p: seq<real>, t: real, k: nat)
    requires k < |p| && p[k] <= t
    ensures CountAbove(p, t) < |p|
  {
    if k > 0 {
      CountAboveMisses(p[1..], t, k - 1);
    }
  }

  /** Tqmean is 0 exactly when no filtered reading lies above the others'
      mean, that is when every filtered reading is the same. */
  lemma TqmeanZeroIffConstant(s: seq<Option<real>>)
    requires |Present(s)| > 0
    ensures Tqmean(s) == Some(0.0) <==> Constant(Present(s))
  {
    var p := Present(s);
    if Tqmean(s) == Some(0.0) {
      assert CountAbove(p, Average(p)) == 0 by {
        NonZeroFraction(CountAbove(p, Average(p)), |p|);
      }
      NoneAboveAverage(p);
    } else if Constant(p) {
      ConstantNoneAboveAverage(p);
    }
  }

  predicate Constant(p: seq<real>) {
    forall i, j :: 0 <= i < j < |p| ==> p[i] == p[j]
  }

  lemma NonZeroFraction(k: nat, n: nat)
    requires n > 0 && k as real / n as real == 0.0
    ensures k == 0
  {
  }

  /** If nothing lies above the mean, every value equals the mean. */
  lemma NoneAboveAverage(p: seq<real>)
    requires |p| > 0 && CountAbove(p, Average(p)) == 0
    ensures Constant(p)
  {
    NoneAboveMean(p, Average(p));
  }

  lemma NoneAboveMean(p: seq<real>, m: real)
    requires |p| > 0 && m == Average(p) && CountAbove(p, m) == 0
    ensures Constant(p)
  {
    AverageTimesLength(p);
    AllAtMostSum(p, m);
  }

  /** Values none of which exceeds `m` and whose sum is |p| * m all equal `m`. */
  lemma AllAtMostSum(p: seq<real>, m: real)
    requires CountAbove(p, m) == 0
    requires Sum(p) == |p| as real * m
    ensures Constant(p)
  {
    CountAboveZero(p, m);
    forall k | 0 <= k < |p| ensures p[k] == m {
      if p[k] < m {
        SumBelow(p, m, k);
      }
    }
  }

  lemma ConstantNoneAboveAverage(p: seq<real>)
    requires |p| > 0 && Constant(p)
    ensures CountAbove(p, Average(p)) == 0
  {
    var c := p[0];
    forall k | 0 <= k < |p| ensures c <= p[k] <= c {
      if k > 0 {
        assert p[0] == p[k];
      }
    }
    AverageBetween(p, c, c);
    CountAboveNone(p, Average(p));
  }

  lemma {:induction false} CountAboveZero(p: seq<real>, t: real)
    requires CountAbove(p, t) == 0
    ensures forall i :: 0 <= i < |p| ==> p[i] <= t
  {
    if p != [] {
      CountAboveZero(p[1..], t);
      assert forall i :: 1 <= i < |p| ==> p[i] == p[1..][i - 1];
    }
  }

  lemma AverageTimesLength(p: seq<real>)
    requires |p| > 0
    ensures Sum(p) == |p| as real * Average(p)
  {
    var x, n := Sum(p), |p| as real;
    assert Average(p) == x / n;
    assert n * (x / n) == x;
  }

  function Abs(x: real): real {
    if x < 0.0 then -x else x
  }

  /** The sum of the absolute changes between consecutive values. */
  function PathLength(p: seq<real>): (r: real)
    ensures r >= 0.0
  {
    if |p| < 2 then 0.0 else Abs(p[1] - p[0]) + PathLength(p[1..])
  }

  /** The Richards-Baker flashiness index (program_10.py:80-89): the path
      length of the filtered readings, so that a missing day joins its two
      neighbours into one step, over the sum of the readings with missing
      ones skipped. A zero sum leaves it undefined. */
  function RBIndex(s: seq<Option<real>>): (r: Option<real>)
    ensures Sum(Present(s)) > 0.0 ==> r.Some? && r.value >= 0.0
    ensures |Present(s)| == 0 ==> r.None?
  {
    var p := Present(s);
    var total := Sum(p);
    if total == 0.0 then None else Some(PathLength(p) / total)
  }

  /** The record holds no negative reading. */
  predicate NonNegative(s: seq<Option<real>>) {
    forall i :: 0 <= i < |s| && s[i].Some? ==> s[i].value >= 0.0
  }

  lemma PresentNonNegative(s: seq<Option<real>>)
    requires NonNegative(s)
    ensures forall i :: 0 <= i < |Present(s)| ==> Present(s)[i] >= 0.0
  {
    var p := Present(s);
    forall i | 0 <= i < |p| ensures p[i] >= 0.0 {
      assert p[i] in p;
      var j :| 0 <= j < |s| && s[j] == Some(p[i]);
    }
  }

  lemma {:induction false} SumZeroFlat(p: seq<real>)
    requires forall i :: 0 <= i < |p| ==> p[i] >= 0.0
    requires Sum(p) == 0.0
    ensures forall i :: 0 <= i < |p| ==> p[i] == 0.0
    ensures PathLength(p) == 0.0
  {
    if p != [] {
      SumAtLeast(p[1..], 0.0);
      SumZeroFlat(p[1..]);
      assert forall i :: 1 <= i < |p| ==> p[i] == p[1..][i - 1];
    }
  }

  /** Every value is zero. */
  predicate AllZero(p: seq<real>) {
    forall i :: 0 <= i < |p| ==> p[i] == 0.0
  }

  /** Non-negative values sum to zero exactly when they are all zero, and
      their path length is then zero too. */
  lemma ZeroSumFlat(p: seq<real>)
    requires forall i :: 0 <= i < |p| ==> p[i] >= 0.0
    ensures Sum(p) >= 0.0
    ensures Sum(p) == 0.0 <==> AllZero(p)
    ensures Sum(p) == 0.0 ==> PathLength(p) == 0.0
  {
    SumAtLeast(p, 0.0);
    if Sum(p) == 0.0 {
      SumZeroFlat(p);
    } else if AllZero(p) {
      SumAtMost(p, 0.0);
    }
  }

  /** On a record without negative readings the index is undefined only when
      every present reading is zero; the path length is then zero as well, so
      the script divides 0 by 0 and never a positive path by zero. Otherwise
      the index is defined and non-negative. */
  lemma RBIndexOnCleanRecord(s: seq<Option<real>>)
    requires NonNegative(s)
    ensures RBIndex(s).None? <==> AllZero(Present(s))
    ensures RBIndex(s).None? ==> PathLength(Present(s)) == 0.0
    ensures RBIndex(s).Some? ==> RBIndex(s).value >= 0.0
  {
    var p := Present(s);
    PresentNonNegative(s);
    ZeroSumFlat(p);
    if Sum(p) == 0.0 {
      assert RBIndex(s) == None;
    } else {
      assert RBIndex(s) == Some(PathLength(p) / Sum(p));
    }
  }

  /** A record that never changes has index 0 (program_10.py:80-89 on a
      constant positive flow). */
  lemma RBIndexConstant(s: seq<Option<real>>, c: real)
    requires |s| > 0 && c > 0.0
    requires forall i :: 0 <= i < |s| ==> s[i] == Some(c)
    ensures RBIndex(s) == Some(0.0)
  {
    var p := Present(s);
    assert s[0].value in p;
    assert forall i :: 0 <= i < |p| ==> p[i] == c by {
      forall i | 0 <= i < |p| ensures p[i] == c {
        assert p[i] in p;
      }
    }
    ConstantPath(p, c);
    SumAtLeast(p, c);
  }

  lemma {:induction false} ConstantPath(p: seq<real>, c: real)
    requires forall i :: 0 <= i < |p| ==> p[i] == c
    ensures PathLength(p) == 0.0
  {
    if |p| >= 2 {
      ConstantPath(p[1..], c);
    }
  }

  /** The mean of the 7 consecutive filtered readings starting at `k`. */
  function WindowMean(p: seq<real>, k: nat): real
    requires k + 7 <= |p|
  {
    Average(p[k..k + 7])
  }

  /** The window means (`rolling(7).mean()` without its six leading
      undefined entries). */
  function WindowAverages(p: seq<real>): (w: seq<real>)
    requires |p| >= 7
    ensures |w| == |p| - 6
    ensures forall k :: 0 <= k < |w| ==> w[k] == WindowMean(p, k)
  {
    seq(|p| - 6, k requires 0 <= k < |p| - 6 => WindowMean(p, k))
  }

  /** The rolling mean moves by one reading at a time: the next window's mean
      is this one's plus the entering reading less the leaving one, over 7. */
  lemma WindowSlide(p: seq<real>, k: nat)
    requires k + 8 <= |p|
    ensures WindowMean(p, k + 1) == WindowMean(p, k) + (p[k + 7] - p[k]) / 7.0
  {
    var w0, w1 := p[k..k + 7], p[k + 1..k + 8];
    assert p[k..k + 8] == [p[k]] + w1 == w0 + [p[k + 7]];
    SumAppend([p[k]], w1);
    SumAppend(w0, [p[k + 7]]);
    assert Sum([p[k]]) == p[k] && Sum([p[k + 7]]) == p[k + 7];
  }

  /** 7Q (program_10.py:102-104): the lowest 7-day window mean of the
      filtered readings; undefined with fewer than seven readings. */
  function SevenQ(s: seq<Option<real>>): (r: Option<real>)
    ensures r.None? <==> |Present(s)| < 7
    ensures r.Some? ==> exists k :: 0 <= k <= |Present(s)| - 7 && r.value == WindowMean(Present(s), k)
    ensures r.Some? ==> forall k :: 0 <= k <= |Present(s)| - 7 ==> r.value <= WindowMean(Present(s), k)
  {
    var p := Present(s);
    if |p| < 7 then None
    else
      var w := WindowAverages(p);
      var m := Minimum(w);
      assert exists k :: 0 <= k < |w| && w[k] == m;
      Some(m)
  }

  /** When defined, 7Q lies between the smallest and largest filtered reading. */
  lemma SevenQBounds(s: seq<Option<real>>)
    requires SevenQ(s).Some?
    ensures Minimum(Present(s)) <= SevenQ(s).value <= Maximum(Present(s))
  {
    var p := Present(s);
    var k :| 0 <= k <= |p| - 7 && SevenQ(s).value == WindowMean(p, k);
    var window := p[k..k + 7];
    assert forall i :: 0 <= i < 7 ==> window[i] == p[k + i];
    AverageBetween(window, Minimum(p), Maximum(p));
  }

  /** The number of filtered readings strictly above three times their
      median (program_10.py:117-121); 0 when no reading is present, since
      every comparison with an undefined median is false. */
  function Exceed3xMedian(s: seq<Option<real>>): (r: nat)
    ensures r <= |Present(s)|
  {
    var p := Present(s);
    if |p| == 0 then 0 else CountAbove(p, 3.0 * MedianOf(p))
  }

  lemma CountAboveSortedTail(r: seq<real>, t: real, j: nat)
    requires Ascending(r) && j < |r| && r[j] <= t
    ensures CountAbove(r, t) <= |r| - 1 - j
  {
    assert r == r[..j + 1] + r[j + 1..];
    CountAboveAppend(r[..j + 1], r[j + 1..], t);
    CountAboveNone(r[..j + 1], t);
  }

  /** At most half of the values lie above a threshold that is no smaller
      than the value at the lower middle position of the sorted sequence. */
  lemma CountAboveLowerMiddle(p: seq<real>, t: real)
    requires |p| > 0 && Sort(p)[(|p| - 1) / 2] <= t
    ensures CountAbove(p, t) <= |p| / 2
  {
    CountAboveSort(p, t);
    CountAboveSortedTail(Sort(p), t, (|p| - 1) / 2);
  }

  /** Without negative readings the median is non-negative, so a reading
      above three times the median is above the median, and at most half of
      the filtered readings can be. */
  lemma Exceed3xMedianAtMostHalf(s: seq<Option<real>>)
    requires NonNegative(s)
    ensures Exceed3xMedian(s) <= |Present(s)| / 2
  {
    var p := Present(s);
    if |p| > 0 {
      PresentNonNegative(s);
      HalfAboveTripleMedian(p, MedianOf(p));
    }
  }

  /** A non-negative median is at most three times itself, so the values above
      three times the median lie above the lower middle: at most half of them. */
  lemma HalfAboveTripleMedian(p: seq<real>, m: real)
    requires |p| > 0 && forall i :: 0 <= i < |p| ==> p[i] >= 0.0
    requires m == MedianOf(p)
    ensures CountAbove(p, 3.0 * m) <= |p| / 2
  {
    MedianBounds(p);
    MinimumNonNegative(p);
    AboveTripleLowerMiddle(p, m);
  }

  lemma AboveTripleLowerMiddle(p: seq<real>, m: real)
    requires |p| > 0 && 0.0 <= m && Sort(p)[(|p| - 1) / 2] <= m
    ensures CountAbove(p, 3.0 * m) <= |p| / 2
  {
    CountAboveLowerMiddle(p, 3.0 * m);
  }

  lemma MinimumNonNegative(p: seq<real>)
    requires |p| > 0 && forall i :: 0 <= i < |p| ==> p[i] >= 0.0
    ensures Minimum(p) >= 0.0
  {
    var i :| 0 <= i < |p| && p[i] == Minimum(p);
  }

  /** A missing reading changes no metric: each works on the filtered readings. */
  lemma MeanSkipsMissing(a: seq<Option<real>>, b: seq<Option<real>>)
    ensures Mean(a + [None] + b) == Mean(a + b)
  {
    SkipMissing(a, b);
  }

  lemma PeakSkipsMissing(a: seq<Option<real>>, b: seq<Option<real>>)
    ensures Peak(a + [None] + b) == Peak(a + b)
  {
    SkipMissing(a, b);
  }

  lemma MedianSkipsMissing(a: seq<Option<real>>, b: seq<Option<real>>)
    ensures Median(a + [None] + b) == Median(a + b)
  {
    SkipMissing(a, b);
  }

  lemma TqmeanSkipsMissing(a: seq<Option<real>>, b: seq<Option<real>>)
    ensures Tqmean(a + [None] + b) == Tqmean(a + b)
  {
    SkipMissing(a, b);
  }

  lemma RBIndexSkipsMissing(a: seq<Option<real>>, b: seq<Option<real>>)
    ensures RBIndex(a + [None] + b) == RBIndex(a + b)
  {
    SkipMissing(a, b);
  }

  lemma SevenQSkipsMissing(a: seq<Option<real>>, b: seq<Option<real>>)
    ensures SevenQ(a + [None] + b) == SevenQ(a + b)
  {
    SkipMissing(a, b);
  }

  lemma Exceed3xMedianSkipsMissing(a: seq<Option<real>>, b: seq<Option<real>>)
    ensures Exceed3xMedian(a + [None] + b) == Exceed3xMedian(a + b)
  {
    SkipMissing(a, b);
  }
}
