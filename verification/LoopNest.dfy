/** Nests of counting loops, as the macros `BIGFOR`, `BIGFOR_TAG` and the wire loops
    expand to: each counter doubles or steps by one, and some are capped by an outer one. */
module LoopNest {
  import opened PowersOfTwo

  /** `cap` is the index of the outer counter that bounds both ends, or -1. */
  datatype Counter = Counter(min: int, max: int, cap: int, doubling: bool) {
    function Next(x: int): int {
      if doubling then x * 2 else x + 1
    }
  }

  type Nest = seq<Counter>

  predicate WellFormed(nest: Nest) {
    forall k :: 0 <= k < |nest| ==>
      && (nest[k].doubling ==> nest[k].min >= 1)
      && nest[k].cap < k && (nest[k].cap >= 0 ==> nest[nest[k].cap].doubling)
  }

  function Lo(nest: Nest, v: seq<int>): int
    requires WellFormed(nest) && |v| < |nest|
  {
    var c := nest[|v|];
    if c.cap < 0 then c.min else Min(v[c.cap], c.min)
  }

  function Hi(nest: Nest, v: seq<int>): int
    requires WellFormed(nest) && |v| < |nest|
  {
    var c := nest[|v|];
    if c.cap < 0 then c.max else Min(v[c.cap], c.max)
  }

  /** The doubling counters of a prefix are positive. */
  predicate Positive(nest: Nest, v: seq<int>) {
    |v| <= |nest| && forall k :: 0 <= k < |v| && nest[k].doubling ==> v[k] >= 1
  }

  /** All tuples the inner loops visit once the outer counters are v, in order. */
  function Tuples(nest: Nest, v: seq<int>): seq<seq<int>>
    requires WellFormed(nest) && Positive(nest, v)
    decreases |nest| - |v|, 1, 0
  {
    if |v| == |nest| then [v] else TuplesFrom(nest, v, Lo(nest, v))
  }

  function TuplesFrom(nest: Nest, v: seq<int>, x: int): seq<seq<int>>
    requires WellFormed(nest) && Positive(nest, v) && |v| < |nest|
    requires nest[|v|].doubling ==> x >= 1
    decreases |nest| - |v|, 0, Hi(nest, v) - x + 1
  {
    if x > Hi(nest, v) then []
    else Tuples(nest, v + [x]) + TuplesFrom(nest, v, nest[|v|].Next(x))
  }

  /** y is x doubled some number of times. */
  predicate Doublings(x: int, y: int)
    requires x >= 1
    decreases y - x
  {
    y == x || (2 * x <= y && Doublings(2 * x, y))
  }

  lemma {:induction false} DoublingsOfPower(x: int, y: int)
    requires IsPow2(x) && Doublings(x, y)
    ensures IsPow2(y)
    decreases y - x
  {
    if y != x {
      ProductOfPowers(2, x);
      DoublingsOfPower(2 * x, y);
    }
  }

  predicate Reaches(c: Counter, x: int, y: int)
    requires c.doubling ==> x >= 1
  {
    if c.doubling then Doublings(x, y) else x <= y
  }

  /** The counter values at positions |v| and later are ones their loops take. */
  predicate Visited(nest: Nest, v: seq<int>, w: seq<int>)
    requires WellFormed(nest) && Positive(nest, v)
    decreases |nest| - |v|
  {
    && |w| == |nest| && v <= w
    && (|v| < |nest| ==>
          && Reaches(nest[|v|], Lo(nest, v), w[|v|])
          && w[|v|] <= Hi(nest, v)
          && (nest[|v|].doubling ==> w[|v|] >= 1)
          && Visited(nest, v + [w[|v|]], w))
  }

  lemma {:induction false} DoublingsGrow(x: int, y: int)
    requires x >= 1 && Doublings(x, y)
    ensures x <= y
    decreases y - x
  {
  }

  /** The nest visits exactly the tuples whose every counter is a value of its loop. */
  lemma {:induction false} TuplesExact(nest: Nest, v: seq<int>, w: seq<int>)
    requires WellFormed(nest) && Positive(nest, v)
    ensures w in Tuples(nest, v) <==> Visited(nest, v, w)
    decreases |nest| - |v|, 1, 0
  {
    if |v| == |nest| {
      if Visited(nest, v, w) {
        assert w == w[..|v|] == v;
      }
    } else {
      TuplesFromExact(nest, v, Lo(nest, v), w);
      if Visited(nest, v, w) {
        assert v + [w[|v|]] <= w;
      }
    }
  }

  lemma {:induction false} TuplesFromExact(nest: Nest, v: seq<int>, x: int, w: seq<int>)
    requires WellFormed(nest) && Positive(nest, v) && |v| < |nest|
    requires nest[|v|].doubling ==> x >= 1
    ensures w in TuplesFrom(nest, v, x) <==>
            && |w| == |nest| && v <= w
            && Reaches(nest[|v|], x, w[|v|]) && w[|v|] <= Hi(nest, v)
            && (nest[|v|].doubling ==> w[|v|] >= 1)
            && Visited(nest, v + [w[|v|]], w)
    decreases |nest| - |v|, 0, Hi(nest, v) - x + 1
  {
    var c := nest[|v|];
    if x > Hi(nest, v) {
      if |w| == |nest| && c.doubling && Doublings(x, w[|v|]) {
        DoublingsGrow(x, w[|v|]);
      }
    } else {
      TuplesExact(nest, v + [x], w);
      TuplesFromExact(nest, v, c.Next(x), w);
    }
  }

  // ---- Which tuples, counter by counter ----

  /** y is x doubled e times. */
  predicate DoubledTimes(x: int, y: int, e: nat) {
    y == x * Pow2(e)
  }

  lemma {:induction false} DoublingsAreMultiples(x: int, y: int)
    requires x >= 1
    ensures Doublings(x, y) <==> exists e: nat :: DoubledTimes(x, y, e)
    decreases y - x
  {
    if y == x {
      assert DoubledTimes(x, y, 0);
    } else {
      if 2 * x <= y {
        DoublingsAreMultiples(2 * x, y);
        if e: nat :| DoubledTimes(2 * x, y, e) {
          MulAssoc(x, 2, Pow2(e));
          assert DoubledTimes(x, y, e + 1);
        }
      }
      if e: nat :| DoubledTimes(x, y, e) {
        MultipleAhead(x, y, e);
        assert DoubledTimes(2 * x, y, e - 1);
      }
    }
  }

  lemma MultipleAhead(x: int, y: int, e: nat)
    requires x >= 1 && y == x * Pow2(e) && y != x
    ensures e >= 1 && 2 * x <= y && y == 2 * x * Pow2(e - 1)
  {
    assert Pow2(0) == 1;
    MulAssoc(x, 2, Pow2(e - 1));
    MulLe(2 * x, 1, Pow2(e - 1));
  }

  /** The value of one counter is one its loop takes, given the counters before it. */
  predicate Step(nest: Nest, w: seq<int>, k: nat)
    requires WellFormed(nest) && |w| == |nest| && k < |nest| && Positive(nest, w)
  {
    && Reaches(nest[k], Lo(nest, w[..k]), w[k]) && w[k] <= Hi(nest, w[..k])
  }

  lemma {:induction false} VisitedSteps(nest: Nest, v: seq<int>, w: seq<int>)
    requires WellFormed(nest) && Positive(nest, v) && |w| == |nest| && v <= w && Positive(nest, w)
    ensures Visited(nest, v, w) <==> forall k: nat :: |v| <= k < |nest| ==> Step(nest, w, k)
    decreases |nest| - |v|
  {
    if |v| < |nest| {
      var next := v + [w[|v|]];
      assert next <= w && w[..|v|] == v;
      VisitedSteps(nest, next, w);
      assert Step(nest, w, |v|) <==> Reaches(nest[|v|], Lo(nest, v), w[|v|]) && w[|v|] <= Hi(nest, v);
    }
  }

  lemma {:induction false} VisitedPositive(nest: Nest, v: seq<int>, w: seq<int>)
    requires WellFormed(nest) && Positive(nest, v) && Visited(nest, v, w)
    ensures |w| == |nest| && Positive(nest, w)
    decreases |nest| - |v|
  {
    if |v| < |nest| {
      VisitedPositive(nest, v + [w[|v|]], w);
    } else {
      assert v == w;
    }
  }

  /** The nest visits exactly the tuples whose every counter is a value of its own loop. */
  lemma TuplesBySteps(nest: Nest, w: seq<int>)
    requires WellFormed(nest)
    ensures w in Tuples(nest, []) <==>
            && |w| == |nest| && Positive(nest, w) && forall k: nat :: k < |nest| ==> Step(nest, w, k)
  {
    TuplesExact(nest, [], w);
    if w in Tuples(nest, []) {
      VisitedPositive(nest, [], w);
    }
    if |w| == |nest| && Positive(nest, w) {
      VisitedSteps(nest, [], w);
    }
  }

  // ---- In which order ----

  /** v comes before w: they first differ at counter k, where v is smaller. */
  predicate FirstDiffer(v: seq<int>, w: seq<int>, k: nat) {
    k < |v| && k < |w| && v[..k] == w[..k] && v[k] < w[k]
  }

  ghost predicate Before(v: seq<int>, w: seq<int>) {
    exists k: nat :: FirstDiffer(v, w, k)
  }

  /** Every tuple comes before all later ones. */
  ghost predicate Ordered(tuples: seq<seq<int>>) {
    forall i, j :: 0 <= i < j < |tuples| ==> Before(tuples[i], tuples[j])
  }

  /** The outermost counter varies slowest, each counter goes up, and no tuple is visited
      twice. */
  lemma {:induction false} TuplesOrdered(nest: Nest, v: seq<int>)
    requires WellFormed(nest) && Positive(nest, v)
    ensures Ordered(Tuples(nest, v))
    decreases |nest| - |v|, 1, 0
  {
    if |v| < |nest| {
      TuplesFromOrdered(nest, v, Lo(nest, v));
    }
  }

  lemma {:induction false} TuplesFromOrdered(nest: Nest, v: seq<int>, x: int)
    requires WellFormed(nest) && Positive(nest, v) && |v| < |nest|
    requires nest[|v|].doubling ==> x >= 1
    ensures Ordered(TuplesFrom(nest, v, x))
    decreases |nest| - |v|, 0, Hi(nest, v) - x + 1
  {
    if x <= Hi(nest, v) {
      var inner, rest := Tuples(nest, v + [x]), TuplesFrom(nest, v, nest[|v|].Next(x));
      TuplesOrdered(nest, v + [x]);
      TuplesFromOrdered(nest, v, nest[|v|].Next(x));
      forall i, j | 0 <= i < |inner| && 0 <= j < |rest| ensures Before(inner[i], rest[j]) {
        assert inner[i] in inner && rest[j] in rest;
        LaterValue(nest, v, x, inner[i], rest[j]);
      }
      OrderedConcat(inner, rest);
    }
  }

  lemma LaterValue(nest: Nest, v: seq<int>, x: int, a: seq<int>, b: seq<int>)
    requires WellFormed(nest) && Positive(nest, v) && |v| < |nest|
    requires nest[|v|].doubling ==> x >= 1
    requires a in Tuples(nest, v + [x]) && b in TuplesFrom(nest, v, nest[|v|].Next(x))
    ensures Before(a, b)
  {
    var c := nest[|v|];
    TuplesExact(nest, v + [x], a);
    TuplesFromExact(nest, v, c.Next(x), b);
    assert a[|v|] == (v + [x])[|v|] == x;
    if c.doubling {
      DoublingsGrow(c.Next(x), b[|v|]);
    }
    assert a[..|v|] == v == b[..|v|];
    assert FirstDiffer(a, b, |v|);
  }

  lemma OrderedConcat(a: seq<seq<int>>, b: seq<seq<int>>)
    requires Ordered(a) && Ordered(b)
    requires forall i, j :: 0 <= i < |a| && 0 <= j < |b| ==> Before(a[i], b[j])
    ensures Ordered(a + b)
  {
    var all := a + b;
    forall i, j | 0 <= i < j < |all| ensures Before(all[i], all[j]) {
      if i < |a| <= j {
        assert Before(a[i], b[j - |a|]);
      } else if |a| <= i {
        assert Before(b[i - |a|], b[j - |a|]);
      } else {
        assert Before(a[i], a[j]);
      }
    }
  }
}
