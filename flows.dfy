/** Aggregates over a record of readings that skip missing entries, the
    default of pandas, the data-frame library `program_10.py` uses:
    `dropna`, `isna().sum()`, `sum`, `mean`, `max` and `min`. */
module Flows {
  import opened Wrappers

  /** The non-missing readings in their original order. */
  function Present(s: seq<Option<real>>): (p: seq<real>)
    ensures |p| <= |s|
    ensures forall i :: 0 <= i < |s| && s[i].Some? ==> s[i].value in p
    ensures forall x :: x in p ==> Some(x) in s
  {
    if s == [] then []
    else (if s[0].Some? then [s[0].value] else []) + Present(s[1..])
  }

  /** The number of missing readings. */
  function CountMissing(s: seq<Option<real>>): (n: nat)
    ensures n + |Present(s)| == |s|
    ensures n == 0 <==> forall i :: 0 <= i < |s| ==> s[i].Some?
  {
    if s == [] then 0
    else (if s[0].None? then 1 else 0) + CountMissing(s[1..])
  }

  lemma {:induction false} PresentAppend(a: seq<Option<real>>, b: seq<Option<real>>)
    ensures Present(a + b) == Present(a) + Present(b)
  {
    if a != [] {
      assert (a + b)[0] == a[0] && (a + b)[1..] == a[1..] + b;
      PresentAppend(a[1..], b);
    } else {
      assert a + b == b;
    }
  }

  /** A missing reading contributes nothing to the filtered record. */
  lemma SkipMissing(a: seq<Option<real>>, b: seq<Option<real>>)
    ensures Present(a + [None] + b) == Present(a + b)
  {
    PresentAppend(a + [None], b);
    PresentAppend(a, [None]);
    PresentAppend(a, b);
    assert Present([None]) == [];
  }

  function Sum(p: seq<real>): real {
    if p == [] then 0.0 else p[0] + Sum(p[1..])
  }

  lemma {:induction false} SumAppend(a: seq<real>, b: seq<real>)
    ensures Sum(a + b) == Sum(a) + Sum(b)
  {
    if a != [] {
      assert (a + b)[0] == a[0] && (a + b)[1..] == a[1..] + b;
      SumAppend(a[1..], b);
    } else {
      assert a + b == b;
    }
  }

  function Minimum(p: seq<real>): (m: real)
    requires |p| > 0
    ensures m in p
    ensures forall i :: 0 <= i < |p| ==> m <= p[i]
  {
    if |p| == 1 then p[0]
    else var rest := Minimum(p[1..]); if p[0] <= rest then p[0] else rest
  }

  function Maximum(p: seq<real>): (m: real)
    requires |p| > 0
    ensures m in p
    ensures forall i :: 0 <= i < |p| ==> p[i] <= m
  {
    if |p| == 1 then p[0]
    else var rest := Maximum(p[1..]); if p[0] >= rest then p[0] else rest
  }

  lemma {:induction false} SumAtLeast(p: seq<real>, t: real)
    requires forall i :: 0 <= i < |p| ==> t <= p[i]
    ensures |p| as real * t <= Sum(p)
  {
    if p != [] {
      SumAtLeast(p[1..], t);
    }
  }

  lemma {:induction false} SumAtMost(p: seq<real>, t: real)
    requires forall i :: 0 <= i < |p| ==> p[i] <= t
    ensures Sum(p) <= |p| as real * t
  {
    if p != [] {
      SumAtMost(p[1..], t);
    }
  }

  /** The arithmetic mean of a non-empty sequence. */
  function Average(p: seq<real>): real
    requires |p| > 0
  {
    Sum(p) / |p| as real
  }

  /** A mean of values within [lo, hi] lies within [lo, hi]. */
  lemma AverageBetween(p: seq<real>, lo: real, hi: real)
    requires |p| > 0
    requires forall i :: 0 <= i < |p| ==> lo <= p[i] <= hi
    ensures lo <= Average(p) <= hi
  {
    SumAtLeast(p, lo);
    SumAtMost(p, hi);
    QuotientBounds(Sum(p), |p| as real, lo, hi);
  }

  lemma QuotientBounds(x: real, n: real, lo: real, hi: real)
    requires n > 0.0 && n * lo <= x <= n * hi
    ensures lo <= x / n <= hi
  {
  }

  /** A mean lies between the smallest and the largest value averaged. */
  lemma AverageBounds(p: seq<real>)
    requires |p| > 0
    ensures Minimum(p) <= Average(p) <= Maximum(p)
  {
    AverageBetween(p, Minimum(p), Maximum(p));
  }

  /** `mean()` with missing entries skipped; undefined when nothing is left. */
  function Mean(s: seq<Option<real>>): (r: Option<real>)
    ensures r.None? <==> forall i :: 0 <= i < |s| ==> s[i].None?
    ensures r.Some? ==> Minimum(Present(s)) <= r.value <= Maximum(Present(s))
  {
    var p := Present(s);
    if |p| == 0 then None
    else
      AverageBounds(p);
      Some(Average(p))
  }

  /** The mean of a single entry is that entry. */
  lemma MeanOfOne(v: Option<real>)
    ensures Mean([v]) == v
  {
    if v.Some? {
      assert Present([v]) == [v.value];
      assert [v.value][1..] == [];
      assert Sum([v.value]) == v.value;
    } else {
      assert Present([v]) == [];
    }
  }

  /** `max()` with missing entries skipped; undefined when nothing is left. */
  function Peak(s: seq<Option<real>>): (r: Option<real>)
    ensures r.None? <==> forall i :: 0 <= i < |s| ==> s[i].None?
    ensures r.Some? ==> r in s && forall i :: 0 <= i < |s| && s[i].Some? ==> s[i].value <= r.value
  {
    var p := Present(s);
    if |p| == 0 then None else Some(Maximum(p))
  }

  /** Rearranging values does not change their total. */
  lemma {:induction false} SumPermutation(a: seq<real>, b: seq<real>)
    requires multiset(a) == multiset(b)
    ensures Sum(a) == Sum(b)
    decreases |a|
  {
    if a == [] {
      assert |b| == |multiset(b)| == 0;
    } else {
      var u, v := MatchFirst(a, b);
      SumPermutation(a[1..], u + v);
      SumAppend(u, [a[0]] + v);
      SumAppend(u, v);
      assert ([a[0]] + v)[1..] == v;
    }
  }

  /** The first element of a sequence occurs in any rearrangement of it; what
      surrounds that occurrence is a rearrangement of the rest. */
  lemma MatchFirst<T>(a: seq<T>, b: seq<T>) returns (u: seq<T>, v: seq<T>)
    requires a != [] && multiset(a) == multiset(b)
    ensures b == u + ([a[0]] + v)
    ensures multiset(a[1..]) == multiset(u + v)
  {
    var x := a[0];
    assert x in multiset(b);
    var j :| 0 <= j < |b| && b[j] == x;
    u, v := b[..j], b[j + 1..];
    assert b == u + ([x] + v);
    DropMatched(a, u, v);
  }

  lemma DropMatched<T>(a: seq<T>, u: seq<T>, v: seq<T>)
    requires a != [] && multiset(a) == multiset(u + ([a[0]] + v))
    ensures multiset(a[1..]) == multiset(u + v)
  {
    assert a == [a[0]] + a[1..];
    calc {
      multiset(a[1..]);
      multiset(a) - multiset{a[0]};
      multiset(u) + multiset{a[0]} + multiset(v) - multiset{a[0]};
      multiset(u) + multiset(v);
      multiset(u + v);
    }
  }

  /** Each defined value occurs among the filtered readings as often as the
      record holds it. */
  lemma {:induction false} PresentCounts(s: seq<Option<real>>)
    ensures forall x :: multiset(Present(s))[x] == multiset(s)[Some(x)]
  {
    if s != [] {
      PresentCounts(s[1..]);
      assert s == [s[0]] + s[1..];
      var head := if s[0].Some? then [s[0].value] else [];
      assert Present(s) == head + Present(s[1..]);
    }
  }

  /** The skip-missing mean does not depend on the order of the entries. */
  lemma MeanPermutation(s: seq<Option<real>>, t: seq<Option<real>>)
    requires multiset(s) == multiset(t)
    ensures Mean(s) == Mean(t)
  {
    PresentCounts(s);
    PresentCounts(t);
    var p, q := Present(s), Present(t);
    forall x
      ensures multiset(p)[x] == multiset(q)[x]
    {
      assert multiset(p)[x] == multiset(s)[Some(x)];
    }
    assert multiset(p) == multiset(q);
    assert |p| == |multiset(p)| == |multiset(q)| == |q|;
    SumPermutation(p, q);
  }

  /** The number of values strictly greater than `t`. */
  function CountAbove(p: seq<real>, t: real): (n: nat)
    ensures n <= |p|
  {
    if p == [] then 0 else (if p[0] > t then 1 else 0) + CountAbove(p[1..], t)
  }

  lemma {:induction false} CountAboveAppend(a: seq<real>, b: seq<real>, t: real)
    ensures CountAbove(a + b, t) == CountAbove(a, t) + CountAbove(b, t)
  {
    if a != [] {
      assert (a + b)[0] == a[0] && (a + b)[1..] == a[1..] + b;
      CountAboveAppend(a[1..], b, t);
    } else {
      assert a + b == b;
    }
  }

  lemma {:induction false} CountAboveNone(p: seq<real>, t: real)
    requires forall i :: 0 <= i < |p| ==> p[i] <= t
    ensures CountAbove(p, t) == 0
  {
    if p != [] {
      CountAboveNone(p[1..], t);
    }
  }

  /** Every value above `t` adds one: if all values exceed `t` the count is the length. */
  lemma {:induction false} CountAboveAll(p: seq<real>, t: real)
    requires forall i :: 0 <= i < |p| ==> p[i] > t
    ensures CountAbove(p, t) == |p|
  {
    if p != [] {
      CountAboveAll(p[1..], t);
    }
  }

  /** If no value exceeds `t` and one falls short of it, the sum falls short of |p| * t. */
  lemma {:induction false} SumBelow(p: seq<real>, t: real, k: nat)
    requires k < |p|
    requires forall i :: 0 <= i < |p| ==> p[i] <= t
    requires p[k] < t
    ensures Sum(p) < |p| as real * t
  {
    assert forall i :: 0 <= i < |p| - 1 ==> p[1..][i] == p[i + 1];
    if k == 0 {
      SumAtMost(p[1..], t);
    } else {
      SumBelow(p[1..], t, k - 1);
    }
    assert |p| as real * t == t + (|p| - 1) as real * t;
  }
}
