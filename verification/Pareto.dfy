/** The Pareto filters of `pareto_analysis.py` and `destiny_utils.py`. */
module Pareto {

  type Point = seq<real>

  /** Rows of one width. */
  predicate Rectangular(costs: seq<Point>) {
    forall i, j :: 0 <= i < |costs| && 0 <= j < |costs| ==> |costs[i]| == |costs[j]|
  }

  predicate AllLeq(a: Point, b: Point)
    requires |a| == |b|
  {
    forall k :: 0 <= k < |a| ==> a[k] <= b[k]
  }

  /** a is nowhere above b and somewhere below it. */
  predicate Dominates(a: Point, b: Point)
    requires |a| == |b|
  {
    AllLeq(a, b) && exists k :: 0 <= k < |a| && a[k] < b[k]
  }

  lemma DominatesTransitive(a: Point, b: Point, c: Point)
    requires |a| == |b| == |c| && Dominates(a, b) && Dominates(b, c)
    ensures Dominates(a, c)
  {
    var k :| 0 <= k < |a| && a[k] < b[k];
    assert a[k] < c[k];
  }

  /** Some row dominates row i. */
  predicate Dominated(costs: seq<Point>, i: int)
    requires Rectangular(costs) && 0 <= i < |costs|
  {
    exists j :: 0 <= j < |costs| && Dominates(costs[j], costs[i])
  }

  /** Row i dominates some row. */
  predicate Dominating(costs: seq<Point>, i: int)
    requires Rectangular(costs) && 0 <= i < |costs|
  {
    exists j :: 0 <= j < |costs| && Dominates(costs[i], costs[j])
  }

  /** The rows that dominate row i. */
  function Dominators(costs: seq<Point>, i: int): set<int>
    requires Rectangular(costs) && 0 <= i < |costs|
  {
    set j | 0 <= j < |costs| && Dominates(costs[j], costs[i])
  }

  /** In a finite table every dominated row has a dominator that is not dominated itself. */
  lemma {:induction false} UndominatedDominator(costs: seq<Point>, i: int) returns (m: int)
    requires Rectangular(costs) && 0 <= i < |costs| && Dominated(costs, i)
    ensures 0 <= m < |costs| && Dominates(costs[m], costs[i]) && !Dominated(costs, m)
    decreases |Dominators(costs, i)|
  {
    var j :| 0 <= j < |costs| && Dominates(costs[j], costs[i]);
    if !Dominated(costs, j) {
      return j;
    }
    forall k | k in Dominators(costs, j) ensures k in Dominators(costs, i) {
      DominatesTransitive(costs[k], costs[j], costs[i]);
    }
    assert j in Dominators(costs, i) && j !in Dominators(costs, j);
    SmallerSet(Dominators(costs, j), Dominators(costs, i), j);
    m := UndominatedDominator(costs, j);
    DominatesTransitive(costs[m], costs[j], costs[i]);
  }

  lemma SmallerSet(a: set<int>, b: set<int>, x: int)
    requires a <= b && x in b && x !in a
    ensures |a| < |b|
  {
    assert b == a + (b - a) && x in b - a;
    assert |a + (b - a)| == |a| + |b - a|;
  }

  /** Dually, every dominating row dominates one that dominates nothing. */
  function Dominatees(costs: seq<Point>, i: int): set<int>
    requires Rectangular(costs) && 0 <= i < |costs|
  {
    set j | 0 <= j < |costs| && Dominates(costs[i], costs[j])
  }

  lemma {:induction false} UndominatingDominatee(costs: seq<Point>, i: int) returns (m: int)
    requires Rectangular(costs) && 0 <= i < |costs| && Dominating(costs, i)
    ensures 0 <= m < |costs| && Dominates(costs[i], costs[m]) && !Dominating(costs, m)
    decreases |Dominatees(costs, i)|
  {
    var j :| 0 <= j < |costs| && Dominates(costs[i], costs[j]);
    if !Dominating(costs, j) {
      return j;
    }
    forall k | k in Dominatees(costs, j) ensures k in Dominatees(costs, i) {
      DominatesTransitive(costs[i], costs[j], costs[k]);
    }
    assert j in Dominatees(costs, i) && j !in Dominatees(costs, j);
    SmallerSet(Dominatees(costs, j), Dominatees(costs, i), j);
    m := UndominatingDominatee(costs, j);
    DominatesTransitive(costs[i], costs[j], costs[m]);
  }

  /** Some survivor dominates row i. */
  predicate DominatedBySurvivor(costs: seq<Point>, alive: seq<bool>, i: int)
    requires Rectangular(costs) && |alive| == |costs| && 0 <= i < |costs|
  {
    exists j :: 0 <= j < |costs| && alive[j] && Dominates(costs[j], costs[i])
  }

  /** Comparing with survivors only loses nothing, as long as only dominated rows are gone. */
  lemma SurvivorsSuffice(costs: seq<Point>, alive: seq<bool>, i: int)
    requires Rectangular(costs) && |alive| == |costs| && 0 <= i < |costs|
    requires forall j :: 0 <= j < |costs| && !alive[j] ==> Dominated(costs, j)
    ensures DominatedBySurvivor(costs, alive, i) <==> Dominated(costs, i)
  {
    if Dominated(costs, i) {
      var m := UndominatedDominator(costs, i);
      assert alive[m];
    }
  }

  /** `is_pareto_efficient`: exactly the rows that no row dominates stay. */
  method IsParetoEfficient(costs: seq<Point>) returns (isEfficient: array<bool>)
    requires Rectangular(costs)
    ensures fresh(isEfficient) && isEfficient.Length == |costs|
    ensures forall i :: 0 <= i < |costs| ==> isEfficient[i] == !Dominated(costs, i)
  {
    var n := |costs|;
    isEfficient := new bool[n](_ => true);
    for i := 0 to n
      invariant forall j :: 0 <= j < i ==> isEfficient[j] == !Dominated(costs, j)
      invariant forall j :: i <= j < n ==> isEfficient[j]
    {
      if isEfficient[i] {
        SurvivorsSuffice(costs, isEfficient[..], i);
        var dominated := exists j :: 0 <= j < n && isEfficient[j] && j != i && Dominates(costs[j], costs[i]);
        assert dominated <==> DominatedBySurvivor(costs, isEfficient[..], i);
        if dominated {
          isEfficient[i] := false;
        }
      }
    }
  }

  /** Row i is gone if it dominates some row before n. */
  predicate DominatesBefore(costs: seq<Point>, i: int, n: int)
    requires Rectangular(costs) && 0 <= i < |costs| && n <= |costs|
  {
    exists j :: 0 <= j < n && Dominates(costs[i], costs[j])
  }

  /** `pareto_frontier_nd`: its mask step removes the survivors that dominate row i, so it
      ends with exactly the rows that dominate no row. */
  method ParetoFrontierNd(costs: seq<Point>) returns (isEfficient: array<bool>)
    requires Rectangular(costs)
    ensures fresh(isEfficient) && isEfficient.Length == |costs|
    ensures forall i :: 0 <= i < |costs| ==> isEfficient[i] == !Dominating(costs, i)
  {
    var n := |costs|;
    isEfficient := new bool[n](_ => true);
    for i := 0 to n
      invariant forall k :: 0 <= k < n ==> isEfficient[k] == !DominatesBefore(costs, k, i)
    {
      ghost var before := isEfficient[..];
      if isEfficient[i] {
        forall k | 0 <= k < n {
          isEfficient[k] := isEfficient[k] && !Dominates(costs[k], costs[i]);
        }
        isEfficient[i] := true;
      }
      RemovalStep(costs, before, i);
    }
  }

  /** Skipping a row that is already gone is harmless: whatever dominates it also dominates
      a row that removed it. */
  lemma RemovalStep(costs: seq<Point>, alive: seq<bool>, i: int)
    requires Rectangular(costs) && |alive| == |costs| && 0 <= i < |costs|
    requires forall k :: 0 <= k < |costs| ==> alive[k] == !DominatesBefore(costs, k, i)
    ensures !Dominates(costs[i], costs[i])
    ensures alive[i] ==> forall k :: 0 <= k < |costs| ==>
      (DominatesBefore(costs, k, i + 1) <==> !alive[k] || Dominates(costs[k], costs[i]))
    ensures !alive[i] ==> forall k :: 0 <= k < |costs| ==>
      (DominatesBefore(costs, k, i + 1) <==> DominatesBefore(costs, k, i))
  {
    if !alive[i] {
      var j :| 0 <= j < i && Dominates(costs[i], costs[j]);
      forall k | 0 <= k < |costs| && Dominates(costs[k], costs[i]) ensures DominatesBefore(costs, k, i) {
        DominatesTransitive(costs[k], costs[i], costs[j]);
      }
    }
  }

  /** Negate every cost. */
  function Negated(costs: seq<Point>): (r: seq<Point>)
    ensures |r| == |costs|
    ensures forall i :: 0 <= i < |costs| ==>
      |r[i]| == |costs[i]| && forall k :: 0 <= k < |costs[i]| ==> r[i][k] == -costs[i][k]
  {
    seq(|costs|, i requires 0 <= i < |costs| => seq(|costs[i]|, k requires 0 <= k < |costs[i]| => -costs[i][k]))
  }

  /** The second filter is the first one on negated costs: it maximises. */
  lemma FrontierIsDual(costs: seq<Point>, i: int)
    requires Rectangular(costs) && 0 <= i < |costs|
    ensures Rectangular(Negated(costs)) && (Dominating(costs, i) <==> Dominated(Negated(costs), i))
  {
    var neg := Negated(costs);
    forall a, b | 0 <= a < |costs| && 0 <= b < |costs|
      ensures Dominates(costs[a], costs[b]) <==> Dominates(neg[b], neg[a])
    {
      NegatedOrder(costs[a], costs[b], neg[a], neg[b]);
    }
  }

  lemma NegatedOrder(a: Point, b: Point, na: Point, nb: Point)
    requires |a| == |b| == |na| == |nb|
    requires forall k :: 0 <= k < |a| ==> na[k] == -a[k] && nb[k] == -b[k]
    ensures Dominates(a, b) <==> Dominates(nb, na)
  {
    if Dominates(a, b) {
      var k :| 0 <= k < |a| && a[k] < b[k];
      assert nb[k] < na[k];
    }
    if Dominates(nb, na) {
      var k :| 0 <= k < |a| && nb[k] < na[k];
      assert a[k] < b[k];
      forall k | 0 <= k < |a| ensures a[k] <= b[k] {
        assert nb[k] <= na[k];
      }
    }
  }

  /** Its documentation promises the rows that are not dominated. It keeps exactly those
      rows when no row dominates another, and otherwise never. */
  lemma FrontierMatchesDocumentation(costs: seq<Point>)
    requires Rectangular(costs)
    ensures (forall i :: 0 <= i < |costs| ==> (Dominating(costs, i) <==> Dominated(costs, i)))
       <==> (forall i, j :: 0 <= i < |costs| && 0 <= j < |costs| ==> !Dominates(costs[i], costs[j]))
  {
    if i, j :| 0 <= i < |costs| && 0 <= j < |costs| && Dominates(costs[i], costs[j]) {
      assert Dominated(costs, j);
      var m := UndominatedDominator(costs, j);
      assert Dominating(costs, m) && !Dominated(costs, m);
    }
  }

  /** Two rows show it: the cheaper one is dropped. */
  lemma FrontierDropsCheaper()
    ensures var costs: seq<Point> := [[1.0], [2.0]];
            && Rectangular(costs) && Dominating(costs, 0) && !Dominated(costs, 0)
            && Dominated(costs, 1) && !Dominating(costs, 1)
  {
    var costs: seq<Point> := [[1.0], [2.0]];
    assert costs[0][0] < costs[1][0];
    assert Dominates(costs[0], costs[1]);
  }

  /** `pareto_frontier_2d`: every row against all rows, so again the undominated ones. */
  method ParetoFrontier2d(x: seq<real>, y: seq<real>) returns (mask: array<bool>)
    requires |x| == |y|
    ensures fresh(mask) && mask.Length == |x|
    ensures forall i :: 0 <= i < |x| ==>
      mask[i] == !Dominated(Rows(x, y), i)
  {
    var n := |x|;
    var dominated := new bool[n](_ => false);
    for i := 0 to n
      invariant forall j :: 0 <= j < i ==> dominated[j] == Dominated(Rows(x, y), j)
      invariant forall j :: i <= j < n ==> !dominated[j]
    {
      if !dominated[i] {
        RowsDominate(x, y, i);
        dominated[i] := exists j :: 0 <= j < n && x[j] <= x[i] && y[j] <= y[i] && (x[j] < x[i] || y[j] < y[i]);
      }
    }
    mask := new bool[n](i requires 0 <= i < n reads dominated => !dominated[i]);
  }

  function Rows(x: seq<real>, y: seq<real>): (r: seq<Point>)
    requires |x| == |y|
    ensures |r| == |x| && Rectangular(r) && forall i :: 0 <= i < |x| ==> r[i] == [x[i], y[i]]
  {
    seq(|x|, i requires 0 <= i < |x| => [x[i], y[i]])
  }

  lemma RowsDominate(x: seq<real>, y: seq<real>, i: int)
    requires |x| == |y| && 0 <= i < |x|
    ensures Dominated(Rows(x, y), i)
       <==> exists j :: 0 <= j < |x| && x[j] <= x[i] && y[j] <= y[i] && (x[j] < x[i] || y[j] < y[i])
  {
    var rows := Rows(x, y);
    forall j | 0 <= j < |x|
      ensures Dominates(rows[j], rows[i]) <==> x[j] <= x[i] && y[j] <= y[i] && (x[j] < x[i] || y[j] < y[i])
    {
      PairDominates(rows[j], rows[i]);
    }
  }

  lemma PairDominates(a: Point, b: Point)
    requires |a| == |b| == 2
    ensures Dominates(a, b) <==> a[0] <= b[0] && a[1] <= b[1] && (a[0] < b[0] || a[1] < b[1])
  {
  }
}
