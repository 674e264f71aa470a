/** Worked records: the metrics on small concrete inputs. */
module Scenarios {
  import opened Wrappers
  import opened Flows
  import opened Metrics

  /** The flows 1, 2, ..., n, every day defined. */
  function RisingFlows(n: nat): (s: seq<Option<real>>)
    ensures |s| == n
  {
    seq(n, i requires 0 <= i < n => Some((i + 1) as real))
  }

  function Rising(n: nat): (p: seq<real>)
    ensures |p| == n
  {
    seq(n, i requires 0 <= i < n => (i + 1) as real)
  }

  /** A record with every day defined filters to its values. */
  lemma {:induction false} PresentAllDefined(s: seq<Option<real>>, p: seq<real>)
    requires |s| == |p| && forall i :: 0 <= i < |s| ==> s[i] == Some(p[i])
    ensures Present(s) == p
  {
    if s != [] {
      PresentAllDefined(s[1..], p[1..]);
      assert p == [p[0]] + p[1..];
    }
  }

  lemma {:induction false} SumRising(n: nat)
    ensures 2.0 * Sum(Rising(n)) == n as real * (n as real + 1.0)
  {
    if n > 0 {
      SumRising(n - 1);
      assert Rising(n) == Rising(n - 1) + [n as real];
      SumAppend(Rising(n - 1), [n as real]);
      assert Sum([n as real]) == n as real;
    }
  }

  lemma AverageRising(n: nat)
    requires n > 0
    ensures Average(Rising(2 * n)) == n as real + 0.5
  {
    var a := n as real;
    SumRising(2 * n);
    var total := Sum(Rising(2 * n));
    assert 2.0 * total == (2.0 * a) * (2.0 * a + 1.0);
    assert total == (2.0 * a) * (a + 0.5);
    assert |Rising(2 * n)| as real == 2.0 * a;
    DivideOut(total, 2.0 * a, a + 0.5);
  }

  lemma DivideOut(x: real, y: real, z: real)
    requires y != 0.0 && x == y * z
    ensures x / y == z
  {
  }

  lemma CountAboveRising(n: nat)
    ensures CountAbove(Rising(2 * n), n as real + 0.5) == n
  {
    var p := Rising(2 * n);
    var t := n as real + 0.5;
    assert p == p[..n] + p[n..];
    CountAboveAppend(p[..n], p[n..], t);
    CountAboveNone(p[..n], t);
    CountAboveAll(p[n..], t);
  }

  /** On the flows 1, 2, ..., 2n the mean is n + 1/2 and exactly half the days
      exceed it. */
  lemma RisingDays(n: nat)
    requires n > 0
    ensures Mean(RisingFlows(2 * n)) == Some(n as real + 0.5)
    ensures Tqmean(RisingFlows(2 * n)) == Some(0.5)
  {
    var p := Rising(2 * n);
    var mean := n as real + 0.5;
    PresentAllDefined(RisingFlows(2 * n), p);
    AverageRising(n);
    CountAboveRising(n);
    DivideOut(n as real, (2 * n) as real, 0.5);
  }

  /** Ten days of flows 1 to 10: the mean is 5.5 and five of the ten days exceed it. */
  lemma TenRisingDays()
    ensures Mean(RisingFlows(10)) == Some(5.5)
    ensures Tqmean(RisingFlows(10)) == Some(0.5)
  {
    RisingDays(5);
  }

  /** A missing day joins its neighbours into one step: for 1, missing, 5 the
      path length is 4 and the total 6. */
  lemma GapJoinsNeighbours()
    ensures RBIndex([Some(1.0), None, Some(5.0)]) == Some(4.0 / 6.0)
  {
    assert Present([Some(1.0), None, Some(5.0)]) == [1.0, 5.0];
    assert PathLength([1.0, 5.0]) == 4.0;
    assert Sum([1.0, 5.0]) == 6.0;
  }

  /** A steady flow of 10 has no flashiness. */
  lemma SteadyFlow()
    ensures RBIndex([Some(10.0), Some(10.0), Some(10.0), Some(10.0)]) == Some(0.0)
  {
    RBIndexConstant([Some(10.0), Some(10.0), Some(10.0), Some(10.0)], 10.0);
  }

  lemma SumConstant(p: seq<real>, c: real)
    requires forall i :: 0 <= i < |p| ==> p[i] == c
    ensures Sum(p) == |p| as real * c
  {
    SumAtLeast(p, c);
    SumAtMost(p, c);
  }

  /** A flow that rises to m for six days and falls back to 0. */
  function Pulse(m: real): (p: seq<real>)
    ensures |p| == 8
  {
    seq(8, i requires 0 <= i < 8 => if i == 0 || i == 7 then 0.0 else m)
  }

  lemma PulseSums(m: real)
    ensures Sum(Pulse(m)[0..7]) == 6.0 * m
    ensures Sum(Pulse(m)[1..8]) == 6.0 * m
    ensures Sum(Pulse(m)) == 6.0 * m
  {
    var p := Pulse(m);
    var steady := p[1..7];
    SumConstant(steady, m);
    assert p[0..7] == [0.0] + steady;
    assert p[1..8] == steady + [0.0];
    assert p == [0.0] + steady + [0.0];
    SumAppend([0.0], steady);
    SumAppend(steady, [0.0]);
    SumAppend([0.0] + steady, [0.0]);
  }

  /** The same pulse as a record with every day defined. */
  function PulseFlows(m: real): (s: seq<Option<real>>)
    ensures |s| == 8
  {
    seq(8, i requires 0 <= i < 8 => Some(Pulse(m)[i]))
  }

  lemma PulsePresent(m: real)
    ensures Present(PulseFlows(m)) == Pulse(m)
  {
    PresentAllDefined(PulseFlows(m), Pulse(m));
  }

  lemma PulseWindows(m: real)
    ensures WindowMean(Pulse(m), 0) == 6.0 * m / 7.0
    ensures WindowMean(Pulse(m), 1) == 6.0 * m / 7.0
  {
    PulseSums(m);
  }

  lemma PulseAverage(m: real)
    ensures Average(Pulse(m)) == 6.0 * m / 8.0
  {
    PulseSums(m);
  }

  lemma SevenGreaterThanEight(m: real)
    requires m > 0.0
    ensures 6.0 * m / 7.0 > 6.0 * m / 8.0
  {
    assert 6.0 * m / 7.0 - 6.0 * m / 8.0 == 6.0 * m / 56.0;
  }

  /** The 7-day low flow can exceed the mean flow: on 0, m, m, m, m, m, m, 0
      both windows average 6m/7 while the mean is 6m/8. */
  lemma SevenQCanExceedMean(m: real)
    requires m > 0.0
    ensures SevenQ(PulseFlows(m)) == Some(6.0 * m / 7.0)
    ensures Mean(PulseFlows(m)) == Some(6.0 * m / 8.0)
    ensures 6.0 * m / 7.0 > 6.0 * m / 8.0
  {
    PulseSevenQ(m);
    PulseMean(m);
    SevenGreaterThanEight(m);
  }

  lemma PulseSevenQ(m: real)
    ensures SevenQ(PulseFlows(m)) == Some(6.0 * m / 7.0)
  {
    PulsePresent(m);
    PulseWindows(m);
    SevenQTwoWindows(PulseFlows(m));
  }

  lemma PulseMean(m: real)
    ensures Mean(PulseFlows(m)) == Some(6.0 * m / 8.0)
  {
    PulsePresent(m);
    PulseAverage(m);
    MeanOfPresent(PulseFlows(m), Pulse(m));
  }

  lemma MeanOfPresent(s: seq<Option<real>>, p: seq<real>)
    requires Present(s) == p && |p| > 0
    ensures Mean(s) == Some(Average(p))
  {
  }

  /** With eight defined readings there are two windows; 7Q is their common mean. */
  lemma SevenQTwoWindows(s: seq<Option<real>>)
    requires |Present(s)| == 8 && WindowMean(Present(s), 0) == WindowMean(Present(s), 1)
    ensures SevenQ(s) == Some(WindowMean(Present(s), 0))
  {
    var r := SevenQ(s);
    var k :| 0 <= k <= 1 && r.value == WindowMean(Present(s), k);
  }
}
