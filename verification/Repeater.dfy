/** The penalised repeater of `Wire::findPenalizedRepeater`: give up some delay for less
    energy and leakage, over abstract per-unit figures of a repeated wire. */
module Repeater {
  import opened Reals

  /** Unit delay, energy and leakage of a repeated wire by repeater size and spacing. */
  datatype Technology = Technology(
    delay: (real, real) -> real, energy: (real, real) -> real, leakage: (real, real) -> real)
  {
    function EnergyLeakage(size: real, spacing: real): real {
      energy(size, spacing) * leakage(size, spacing)
    }

    /** A repeater with its figures. */
    function At(size: real, spacing: real): Choice {
      Choice(size, spacing, energy(size, spacing), leakage(size, spacing))
    }
  }

  /** Energy and leakage are positive for repeaters of at least minimum size. */
  ghost predicate Positive(t: Technology) {
    forall size: real, spacing: real :: size > 0.0 && spacing > 0.0 ==>
      t.energy(size, spacing) > 0.0 && t.leakage(size, spacing) > 0.0
  }

  /** The figures of the repeater chosen so far. */
  datatype Choice = Choice(size: real, spacing: real, energy: real, leakage: real)

  /** The test of the inner loop. */
  predicate Accepts(t: Technology, target: real, best: Choice, size: real, spacing: real)
    requires best.energy > 0.0 && best.leakage > 0.0
  {
    && t.delay(size, spacing) <= target
    && t.energy(size, spacing) / best.energy + t.leakage(size, spacing) / best.leakage < 2.0
  }

  /** If two positive ratios sum to less than two, their product is below one. */
  lemma RatiosBelowTwo(e: real, e': real, l: real, l': real)
    requires e > 0.0 && e' > 0.0 && l > 0.0 && l' > 0.0
    requires e' / e + l' / l < 2.0
    ensures e' * l' < e * l
  {
    var x, y := e' / e, l' / l;
    QuotientTimes(e', e);
    QuotientTimes(l', l);
    SumBoundsProduct(x, y);
    ProductsBelow(e', l', x, y, e, l);
  }

  lemma ProductsBelow(e': real, l': real, x: real, y: real, e: real, l: real)
    requires e' == x * e && l' == y * l && x * y < 1.0 && e > 0.0 && l > 0.0
    ensures e' * l' < e * l
  {
    PositiveReals(e, l);
    RegroupReals(e', l', x, y, e, l);
    ProductScaled(e' * l', x * y, e * l);
  }

  lemma RegroupReals(a: real, b: real, x: real, y: real, e: real, l: real)
    requires a == x * e && b == y * l
    ensures a * b == (x * y) * (e * l)
  {
    calc {
      a * b;
      (x * e) * b;
      { AssocReals(x, e, b); }
      x * (e * b);
      { AssocReals(e, y, l); }
      x * ((e * y) * l);
      x * ((y * e) * l);
      { AssocReals(y, e, l); }
      x * (y * (e * l));
      { AssocReals(x, y, e * l); }
      (x * y) * (e * l);
    }
  }

  lemma AtMostOnce(d: real, y: real)
    requires d >= 0.0 && y <= 1.0
    ensures d * y <= d
  {
  }

  lemma OneLarge(x: real, y: real)
    requires x >= 1.0 && x + y < 2.0
    ensures x * y < 1.0
  {
    var d := x - 1.0;
    AtMostOnce(d, y);
    assert x * y == y + d * y;
    assert x * y <= y + d;
    assert y + d < 1.0;
  }

  lemma SumBoundsProduct(x: real, y: real)
    requires x > 0.0 && y > 0.0 && x + y < 2.0
    ensures x * y < 1.0
  {
    if x >= 1.0 {
      OneLarge(x, y);
    } else if y >= 1.0 {
      OneLarge(y, x);
    } else {
      AtMostOnce(y, x);
      assert x * y <= y;
    }
  }

  lemma ProductScaled(p: real, r: real, q: real)
    requires p == r * q && r < 1.0 && q > 0.0
    ensures p < q
  {
  }

  /** The delay allowed under a relative penalty. */
  function Allowed(delay: real, penalty: real): real {
    delay * (1.0 + penalty)
  }

  /** The choice after looking at one size. Positive figures always pass the last two tests. */
  function Next(t: Technology, target: real, best: Choice, size: real, spacing: real): (c: Choice)
    requires best.energy > 0.0 && best.leakage > 0.0
    ensures c.energy > 0.0 && c.leakage > 0.0
  {
    if Accepts(t, target, best, size, spacing) && t.energy(size, spacing) > 0.0 && t.leakage(size, spacing) > 0.0
    then Choice(size, spacing, t.energy(size, spacing), t.leakage(size, spacing)) else best
  }

  /** Every acceptance lowers energy times leakage. */
  lemma NextImproves(t: Technology, target: real, best: Choice, size: real, spacing: real)
    requires best.energy > 0.0 && best.leakage > 0.0
    ensures var c := Next(t, target, best, size, spacing);
            c == best || (c.energy * c.leakage < best.energy * best.leakage && c.size == size && c.spacing == spacing
                          && t.delay(size, spacing) <= target
                          && c.energy == t.energy(size, spacing) && c.leakage == t.leakage(size, spacing))
  {
    var e, l := t.energy(size, spacing), t.leakage(size, spacing);
    if Accepts(t, target, best, size, spacing) && e > 0.0 && l > 0.0 {
      RatiosBelowTwo(best.energy, e, best.leakage, l);
    }
  }

  /** What one scan over the sizes leaves, from `size` down in steps of one to one. */
  function Scan(t: Technology, target: real, best: Choice, size: real, spacing: real): (c: Choice)
    requires best.energy > 0.0 && best.leakage > 0.0
    ensures c.energy > 0.0 && c.leakage > 0.0
    decreases if size >= 1.0 then size.Floor else 0
  {
    if size < 1.0 then best else Scan(t, target, Next(t, target, best, size, spacing), size - 1.0, spacing)
  }

  /** Looking at a size never raises the rank of the choice, and lowers it if it changes it. */
  ghost predicate Lowers(t: Technology, target: real, spacing: real, rank: Choice -> real) {
    forall best: Choice, size: real :: best.energy > 0.0 && best.leakage > 0.0 ==>
      var c := Next(t, target, best, size, spacing);
      c == best || (rank(c) < rank(best) && c.size == size && c.spacing == spacing && t.delay(size, spacing) <= target
                    && c.energy == t.energy(size, spacing) && c.leakage == t.leakage(size, spacing))
  }

  lemma {:induction false} ScanLowers(t: Technology, target: real, best: Choice, size: real, spacing: real,
                                      rank: Choice -> real)
    requires best.energy > 0.0 && best.leakage > 0.0 && best.spacing == spacing
    requires t.delay(best.size, best.spacing) <= target && Lowers(t, target, spacing, rank)
    ensures var c := Scan(t, target, best, size, spacing);
            && c.spacing == spacing && t.delay(c.size, c.spacing) <= target
            && (c == best || (rank(c) < rank(best) && 1.0 <= c.size <= size
                              && c.energy == t.energy(c.size, spacing) && c.leakage == t.leakage(c.size, spacing)))
    decreases if size >= 1.0 then size.Floor else 0
  {
    if size >= 1.0 {
      ScanLowers(t, target, Next(t, target, best, size, spacing), size - 1.0, spacing, rank);
    }
  }

  function Product(c: Choice): real {
    c.energy * c.leakage
  }

  lemma ProductLowers(t: Technology, target: real, spacing: real)
    ensures Lowers(t, target, spacing, Product)
  {
    forall b: Choice, s: real | b.energy > 0.0 && b.leakage > 0.0
      ensures var c := Next(t, target, b, s, spacing);
              c == b || (Product(c) < Product(b) && c.size == s && c.spacing == spacing && t.delay(s, spacing) <= target
                         && c.energy == t.energy(s, spacing) && c.leakage == t.leakage(s, spacing))
    {
      NextImproves(t, target, b, s, spacing);
    }
  }

  /** The scan keeps the spacing, ends within the target delay, and lowers energy times
      leakage unless it changes nothing. */
  lemma ScanImproves(t: Technology, target: real, best: Choice, size: real, spacing: real)
    requires best.energy > 0.0 && best.leakage > 0.0 && best.spacing == spacing
    requires t.delay(best.size, best.spacing) <= target
    ensures var c := Scan(t, target, best, size, spacing);
            && c.spacing == spacing && t.delay(c.size, c.spacing) <= target
            && (c == best || (c.energy * c.leakage < best.energy * best.leakage && 1.0 <= c.size <= size
                              && c.energy == t.energy(c.size, spacing) && c.leakage == t.leakage(c.size, spacing)))
  {
    ProductLowers(t, target, spacing);
    ScanLowers(t, target, best, size, spacing, Product);
  }

  // ---- Which sizes are taken, without the scan ----

  /** Size `start` less k is no slower than the target, and its energy and leakage relative to
      those of size `from` sum to less than two. */
  predicate PassesOver(t: Technology, target: real, start: real, spacing: real, from: real, k: nat)
    requires t.energy(from, spacing) > 0.0 && t.leakage(from, spacing) > 0.0
  {
    var size := start - k as real;
    && t.delay(size, spacing) <= target
    && t.energy(size, spacing) / t.energy(from, spacing) + t.leakage(size, spacing) / t.leakage(from, spacing) < 2.0
  }

  /** Of the sizes from `start` less k0 down to one exactly those of the steps are taken: each
      passes over the one taken before it, and none between two of them or after the last
      does. */
  ghost predicate Descends(t: Technology, target: real, start: real, spacing: real, from: real, k0: nat,
                           steps: seq<nat>)
    requires Positive(t) && spacing > 0.0 && from > 0.0
    decreases |steps|
  {
    if steps == [] then
      forall k: nat :: k0 <= k && start - k as real >= 1.0 ==> !PassesOver(t, target, start, spacing, from, k)
    else
      var next := start - steps[0] as real;
      && k0 <= steps[0] && next >= 1.0 && PassesOver(t, target, start, spacing, from, steps[0])
      && (forall k: nat :: k0 <= k < steps[0] ==> !PassesOver(t, target, start, spacing, from, k))
      && Descends(t, target, start, spacing, next, steps[0] + 1, steps[1..])
  }

  /** The size of the last step. */
  function LastSize(start: real, from: real, steps: seq<nat>): real {
    if steps == [] then from else start - steps[|steps| - 1] as real
  }

  lemma {:induction false} ScanDescends(t: Technology, target: real, start: real, spacing: real, from: real, k0: nat)
    returns (steps: seq<nat>)
    requires Positive(t) && spacing > 0.0 && from > 0.0
    ensures Descends(t, target, start, spacing, from, k0, steps)
    ensures Scan(t, target, t.At(from, spacing), start - k0 as real, spacing).size == LastSize(start, from, steps)
    decreases if start - k0 as real >= 1.0 then (start - k0 as real).Floor else 0
  {
    var size := start - k0 as real;
    var best := t.At(from, spacing);
    if size < 1.0 {
      steps := [];
    } else {
      ScanOnce(t, target, best, start, spacing, k0);
      if PassesOver(t, target, start, spacing, from, k0) {
        assert Next(t, target, best, size, spacing) == t.At(size, spacing);
        var rest := ScanDescends(t, target, start, spacing, size, k0 + 1);
        steps := [k0] + rest;
        assert steps[1..] == rest;
      } else {
        assert Next(t, target, best, size, spacing) == best;
        steps := ScanDescends(t, target, start, spacing, from, k0 + 1);
        SkipSize(t, target, start, spacing, from, k0, steps);
      }
    }
  }

  lemma ScanOnce(t: Technology, target: real, best: Choice, start: real, spacing: real, k0: nat)
    requires best.energy > 0.0 && best.leakage > 0.0 && start - k0 as real >= 1.0
    ensures Scan(t, target, best, start - k0 as real, spacing)
         == Scan(t, target, Next(t, target, best, start - k0 as real, spacing), start - (k0 + 1) as real, spacing)
  {
    assert start - (k0 + 1) as real == start - k0 as real - 1.0;
  }

  lemma SkipSize(t: Technology, target: real, start: real, spacing: real, from: real, k0: nat, steps: seq<nat>)
    requires Positive(t) && spacing > 0.0 && from > 0.0
    requires !PassesOver(t, target, start, spacing, from, k0)
    requires Descends(t, target, start, spacing, from, k0 + 1, steps)
    ensures Descends(t, target, start, spacing, from, k0, steps)
  {
  }

  /** The last step, or one before all sizes if none was taken. */
  function LastStep(k0: nat, steps: seq<nat>): int {
    if steps == [] then k0 - 1 else steps[|steps| - 1]
  }

  /** The last size taken is positive, and no smaller one passes over it. */
  lemma {:induction false} NoneBelow(t: Technology, target: real, start: real, spacing: real, from: real, k0: nat,
                                     steps: seq<nat>)
    requires Positive(t) && spacing > 0.0 && from > 0.0 && Descends(t, target, start, spacing, from, k0, steps)
    ensures LastSize(start, from, steps) > 0.0 && LastStep(k0, steps) >= k0 - 1
    ensures forall k: nat :: LastStep(k0, steps) < k && start - k as real >= 1.0 ==>
      !PassesOver(t, target, start, spacing, LastSize(start, from, steps), k)
    decreases |steps|
  {
    if steps != [] {
      var next, rest := start - steps[0] as real, steps[1..];
      NoneBelow(t, target, start, spacing, next, steps[0] + 1, rest);
      assert LastSize(start, from, steps) == LastSize(start, next, rest);
      assert LastStep(k0, steps) == LastStep(steps[0] + 1, rest);
    }
  }

  /** `size` is what scanning down from `start` leaves. */
  ghost predicate Settles(t: Technology, target: real, start: real, spacing: real, size: real)
    requires Positive(t) && spacing > 0.0 && start > 0.0
  {
    && size > 0.0
    && (exists steps :: Descends(t, target, start, spacing, start, 0, steps) && size == LastSize(start, start, steps))
    && (forall k: nat :: start - k as real >= 1.0 && start - k as real < size ==>
          !PassesOver(t, target, start, spacing, size, k))
  }

  lemma ScanSettles(t: Technology, target: real, start: real, spacing: real)
    requires Positive(t) && spacing > 0.0 && start > 0.0
    ensures Settles(t, target, start, spacing, Scan(t, target, t.At(start, spacing), start, spacing).size)
  {
    var steps := ScanDescends(t, target, start, spacing, start, 0);
    NoneBelow(t, target, start, spacing, start, 0, steps);
    assert start - 0 as real == start;
    var size := LastSize(start, start, steps);
    forall k: nat | start - k as real >= 1.0 && start - k as real < size
      ensures !PassesOver(t, target, start, spacing, size, k)
    {
      assert LastStep(0, steps) < k;
    }
  }

  class Wire {
    var repeaterSize: real
    var repeaterSpacing: real
    const technology: Technology

    constructor (size: real, spacing: real, technology: Technology)
      ensures repeaterSize == size && repeaterSpacing == spacing && this.technology == technology
    {
      repeaterSize, repeaterSpacing := size, spacing;
      this.technology := technology;
    }

    /** The inner loop: scan the sizes down to minimum size at the present spacing. */
    method ScanSizes(targetDelay: real, start: Choice) returns (best: Choice)
      requires Positive(technology) && repeaterSpacing > 0.0 && start.energy > 0.0 && start.leakage > 0.0
      modifies this`repeaterSize
      ensures repeaterSize < 1.0 && best == Scan(technology, targetDelay, start, old(repeaterSize), repeaterSpacing)
    {
      best := start;
      while repeaterSize >= 1.0
        invariant best.energy > 0.0 && best.leakage > 0.0
        invariant Scan(technology, targetDelay, best, repeaterSize, repeaterSpacing)
               == Scan(technology, targetDelay, start, old(repeaterSize), repeaterSpacing)
        decreases if repeaterSize >= 1.0 then repeaterSize.Floor else 0
      {
        var thisDelay := technology.delay(repeaterSize, repeaterSpacing);
        var thisEnergy := technology.energy(repeaterSize, repeaterSpacing);
        var thisLeakage := technology.leakage(repeaterSize, repeaterSpacing);
        if thisDelay <= targetDelay && thisEnergy / best.energy + thisLeakage / best.leakage < 2.0 {
          best := Choice(repeaterSize, repeaterSpacing, thisEnergy, thisLeakage);
        }
        repeaterSize := repeaterSize - 1.0;
      }
    }

    /** The outer loop, over spacings up to four times the first. The size is not reset
        between its passes, so only the first pass scans sizes. */
    method ScanSpacings(targetDelay: real, start: Choice) returns (best: Choice)
      requires Positive(technology) && repeaterSpacing > 0.0 && start.energy > 0.0 && start.leakage > 0.0
      modifies this`repeaterSize, this`repeaterSpacing
      ensures best == Scan(technology, targetDelay, start, old(repeaterSize), old(repeaterSpacing))
    {
      best := start;
      var stepSpacing := 0.0001;
      var endSpacing := 4.0 * repeaterSpacing;
      ghost var d := repeaterSpacing;
      while repeaterSpacing <= endSpacing
        invariant repeaterSpacing >= d && endSpacing == 4.0 * d
        invariant repeaterSpacing == d ==> repeaterSize == old(repeaterSize) && best == start
        invariant repeaterSpacing > d ==>
          repeaterSize < 1.0 && best == Scan(technology, targetDelay, start, old(repeaterSize), d)
        decreases if repeaterSpacing <= endSpacing then ((endSpacing - repeaterSpacing) * 10000.0).Floor + 1 else 0
      {
        best := ScanSizes(targetDelay, best);
        repeaterSpacing := repeaterSpacing + stepSpacing;
      }
    }

    /** Choose the repeater for a relative delay penalty: the spacing stays, the delay is
        within the penalty, and energy times leakage has not risen. */
    method FindPenalizedRepeater(penalty: real)
      requires repeaterSize > 0.0 && repeaterSpacing > 0.0 && penalty >= 0.0
      requires Positive(technology) && technology.delay(repeaterSize, repeaterSpacing) >= 0.0
      modifies this`repeaterSize, this`repeaterSpacing
      ensures repeaterSpacing == old(repeaterSpacing)
      ensures repeaterSize == old(repeaterSize) || 1.0 <= repeaterSize <= old(repeaterSize)
      ensures technology.delay(repeaterSize, repeaterSpacing)
          <= Allowed(technology.delay(old(repeaterSize), repeaterSpacing), penalty)
      ensures technology.EnergyLeakage(repeaterSize, repeaterSpacing)
          <= technology.EnergyLeakage(old(repeaterSize), repeaterSpacing)
      ensures Settles(technology, Allowed(technology.delay(old(repeaterSize), repeaterSpacing), penalty),
                      old(repeaterSize), repeaterSpacing, repeaterSize)
    {
      var targetDelay := Allowed(technology.delay(repeaterSize, repeaterSpacing), penalty);
      var initial := technology.At(repeaterSize, repeaterSpacing);
      Penalised(technology.delay(repeaterSize, repeaterSpacing), penalty);
      ScanImproves(technology, targetDelay, initial, repeaterSize, repeaterSpacing);
      ScanSettles(technology, targetDelay, repeaterSize, repeaterSpacing);
      var best := ScanSpacings(targetDelay, initial);
      repeaterSpacing := best.spacing;
      repeaterSize := best.size;
    }
  }

  /** The delay allowed exceeds the first by exactly the penalty's share of it. */
  lemma AllowedShare(delay: real, penalty: real)
    ensures Allowed(delay, penalty) - delay == delay * penalty
  {
  }

  lemma Penalised(delay: real, penalty: real)
    requires delay >= 0.0 && penalty >= 0.0
    ensures delay <= Allowed(delay, penalty)
  {
  }
}
