/** The exhaustive search of `nvsim`: the loop nest over organisations, feeding every
    valid bank to the results of all optimisation targets. */
module Search {
  import opened PowersOfTwo
  import opened LoopNest
  import opened Results
  import opened Trials

  /** For each of the fourteen counters, the counter that caps it: active mats by mats,
      active subarrays by subarrays. */
  function Cap(k: int): int {
    if k == 3 then 1 else if k == 4 then 0 else if k == 7 then 6 else if k == 8 then 5 else -1
  }

  /** The bounds of the search, and the associativity that caps the rows per set. */
  datatype Ranges = Ranges(min: seq<int>, max: seq<int>, associativity: int) {
    predicate Valid() {
      |min| == |max| == 14 && forall k :: 0 <= k < 13 ==> IsPow2(min[k])
    }

    /** The loops of `BIGFOR` and `BIGFOR_TAG`. The last, over buffer design targets, steps
        by one; all others double. */
    function BigFor(): (nest: Nest)
      requires Valid()
      ensures IsBigFor(nest)
    {
      seq(14, k requires 0 <= k < 14 =>
        Counter(min[k], if k == 12 then Min(max[k], associativity) else max[k], Cap(k), k < 13))
    }

    /** Every organisation the loops visit, in order. */
    function Space(): (space: seq<seq<int>>)
      requires Valid()
      ensures AllCounters(space)
    {
      NestCounters(BigFor());
      Tuples(BigFor(), [])
    }
  }

  predicate IsBigFor(nest: Nest) {
    && |nest| == 14
    && forall k :: 0 <= k < 14 ==>
      nest[k].cap == Cap(k) && nest[k].doubling == (k < 13) && (k < 13 ==> IsPow2(nest[k].min))
  }

  lemma BigForWellFormed(nest: Nest)
    requires IsBigFor(nest)
    ensures WellFormed(nest)
  {
    forall k | 0 <= k < |nest|
      ensures nest[k].doubling ==> nest[k].min >= 1
      ensures nest[k].cap < k && (nest[k].cap >= 0 ==> nest[nest[k].cap].doubling)
    {
      assert nest[k].cap == Cap(k);
    }
  }

  lemma {:induction false} VisitedAt(nest: Nest, v: seq<int>, w: seq<int>, k: nat)
    requires WellFormed(nest) && Positive(nest, v) && Visited(nest, v, w) && |v| <= k < |nest|
    ensures Positive(nest, w[..k])
    ensures Reaches(nest[k], Lo(nest, w[..k]), w[k]) && w[k] <= Hi(nest, w[..k])
    decreases |nest| - |v|
  {
    if k == |v| {
      assert w[..k] == v;
    } else {
      VisitedAt(nest, v + [w[|v|]], w, k);
    }
  }

  lemma {:induction false} VisitedPow2(nest: Nest, w: seq<int>, k: nat)
    requires WellFormed(nest) && IsBigFor(nest) && Visited(nest, [], w) && k < 13
    ensures IsPow2(w[k])
    decreases k
  {
    VisitedAt(nest, [], w, k);
    var c := nest[k];
    if c.cap >= 0 {
      VisitedPow2(nest, w, c.cap);
      MinOfPowers(w[..k][c.cap], c.min);
    }
    DoublingsOfPower(Lo(nest, w[..k]), w[k]);
  }

  /** Every organisation the nest visits has powers of two for counts, and no more active
      blocks than blocks. */
  lemma VisitedCounters(nest: Nest, w: seq<int>)
    requires WellFormed(nest) && IsBigFor(nest) && w in Tuples(nest, [])
    ensures Counters(w)
  {
    TuplesExact(nest, [], w);
    forall k | 0 <= k < 13 ensures IsPow2(w[k]) {
      VisitedPow2(nest, w, k);
    }
    VisitedAt(nest, [], w, 3);
    VisitedAt(nest, [], w, 4);
    VisitedAt(nest, [], w, 7);
    VisitedAt(nest, [], w, 8);
  }

  // ---- What the nest offers to the results ----

  /** The extra test of the constrained pass. */
  datatype Filter = Everything | Within(limits: Limits) {
    predicate Passes(m: Metrics) {
      this.Everything? || limits.Admit(m)
    }
  }

  /** A search: what is built, from which cell, on which wires, under which extra test. */
  datatype Pass = Pass(job: Job, cell: Cell, localWire: Wire, globalWire: Wire, filter: Filter)

  predicate AllCounters(tuples: seq<seq<int>>) {
    forall i :: 0 <= i < |tuples| ==> Counters(tuples[i])
  }

  /** What one organisation offers: at most one stored bank. The nest only ever produces
      counters that are powers of two, see `VisitedCounters`. */
  function OfferOf(pass: Pass, v: seq<int>): (offers: seq<Stored>) {
    if !pass.job.Valid() || !Counters(v) then []
    else
      PreparedCountable(pass.job, v);
      match Prepare(pass.job, v)
      case None => []
      case Some(settings) =>
        var trial := Evaluate(pass.cell, settings, pass.localWire, pass.globalWire);
        if !trial.invalid && pass.filter.Passes(trial.stored.metrics) then [trial.stored] else []
  }

  function Offers(pass: Pass, tuples: seq<seq<int>>): (offers: seq<Stored>) {
    if tuples == [] then [] else OfferOf(pass, tuples[0]) + Offers(pass, tuples[1..])
  }

  lemma {:induction false} OffersConcat(pass: Pass, a: seq<seq<int>>, b: seq<seq<int>>)
    ensures Offers(pass, a + b) == Offers(pass, a) + Offers(pass, b)
    decreases |a|
  {
    if a == [] {
      assert a + b == b;
    } else {
      OffersConcat(pass, a[1..], b);
      OffersPrefix(pass, a[0], a[1..] + b);
      OffersPrefix(pass, a[0], a[1..]);
      assert a + b == [a[0]] + (a[1..] + b) && a == [a[0]] + a[1..];
      ConcatAssoc(OfferOf(pass, a[0]), Offers(pass, a[1..]), Offers(pass, b));
    }
  }

  lemma OffersPrefix(pass: Pass, v: seq<int>, rest: seq<seq<int>>)
    ensures Offers(pass, [v] + rest) == OfferOf(pass, v) + Offers(pass, rest)
  {
    assert ([v] + rest)[0] == v && ([v] + rest)[1..] == rest;
  }

  lemma SingleOffer(pass: Pass, v: seq<int>)
    ensures Offers(pass, [v]) == OfferOf(pass, v)
  {
    assert Offers(pass, [v]) == OfferOf(pass, v) + [];
  }

  /** Exactly the valid trials that pass the filter are offered. */
  lemma {:induction false} OffersExact(pass: Pass, tuples: seq<seq<int>>, s: Stored)
    ensures s in Offers(pass, tuples) <==> exists i :: 0 <= i < |tuples| && s in OfferOf(pass, tuples[i])
    decreases |tuples|
  {
    if tuples != [] {
      var rest := tuples[1..];
      OffersExact(pass, rest, s);
      if i :| 0 <= i < |tuples| && s in OfferOf(pass, tuples[i]) {
        if i > 0 {
          assert rest[i - 1] == tuples[i];
        }
      }
      if i :| 0 <= i < |rest| && s in OfferOf(pass, rest[i]) {
        assert rest[i] == tuples[i + 1];
      }
    }
  }

  // ---- The loops ----

  predicate Distinct(results: seq<Result>) {
    forall i, j :: 0 <= i < j < |results| ==> results[i] != results[j]
  }

  /** The macros `UPDATE_BEST_DATA` and `UPDATE_BEST_TAG`. */
  method UpdateBest(results: seq<Result>, offered: Stored)
    requires Distinct(results)
    modifies results`design, results`metrics, results`localWire, results`globalWire
    ensures forall i :: 0 <= i < |results| ==>
      results[i].State() == Better(results[i].optimizationTarget, results[i].limits, old(results[i].State()), offered)
  {
    for i := 0 to |results|
      invariant forall j :: 0 <= j < i ==>
        results[j].State() == Better(results[j].optimizationTarget, results[j].limits, old(results[j].State()), offered)
      invariant forall j :: i <= j < |results| ==> results[j].State() == old(results[j].State())
    {
      var _ := results[i].CompareAndUpdate(offered);
    }
  }

  /** The innermost body: build, check the capacity, compare. */
  method TryOne(pass: Pass, v: seq<int>, results: seq<Result>) returns (found: nat)
    requires pass.job.Valid() && Counters(v) && Distinct(results)
    modifies results`design, results`metrics, results`localWire, results`globalWire
    ensures found == |OfferOf(pass, v)|
    ensures forall i :: 0 <= i < |results| ==>
      results[i].State()
      == BestOf(results[i].optimizationTarget, results[i].limits, old(results[i].State()), OfferOf(pass, v))
  {
    PreparedCountable(pass.job, v);
    match Prepare(pass.job, v) {
      case None =>
        found := 0;
      case Some(settings) =>
        var trial := Calculate(pass.cell, settings, pass.localWire, pass.globalWire);
        found := 0;
        if !trial.invalid && pass.filter.Passes(trial.stored.metrics) {
          TrialConservesCapacity(pass.cell, settings, pass.localWire, pass.globalWire);
          if !CapacityHolds(trial.stored) {
            // the source prints "capacity violation. Shouldn't happen" and ends the process
            assert false;
          }
          found := 1;
          UpdateBest(results, trial.stored);
        }
    }
  }

  /** Each result holds the best of what it started with and the offers since. */
  predicate HoldBest(results: seq<Result>, start: seq<Stored>, offers: seq<Stored>)
    reads results
  {
    && |start| == |results|
    && forall i :: 0 <= i < |results| ==>
      results[i].State() == BestOf(results[i].optimizationTarget, results[i].limits, start[i], offers)
  }

  /** The loop nest from counter |v| inwards. */
  method Visit(nest: Nest, v: seq<int>, pass: Pass, results: seq<Result>,
               ghost start: seq<Stored>, ghost before: seq<Stored>) returns (found: nat)
    requires WellFormed(nest) && Positive(nest, v) && |nest| == 14 && AllCounters(Tuples(nest, v))
    requires pass.job.Valid() && Distinct(results) && HoldBest(results, start, before)
    modifies results`design, results`metrics, results`localWire, results`globalWire
    ensures found == |Offers(pass, Tuples(nest, v))|
    ensures HoldBest(results, start, before + Offers(pass, Tuples(nest, v)))
    decreases |nest| - |v|, 1
  {
    if |v| == |nest| {
      assert Tuples(nest, v) == [v] && Tuples(nest, v)[0] == v;
      SingleOffer(pass, v);
      found := VisitOne(v, pass, results, start, before);
    } else {
      found := VisitLoop(nest, v, pass, results, start, before);
    }
  }

  method VisitOne(v: seq<int>, pass: Pass, results: seq<Result>, ghost start: seq<Stored>, ghost before: seq<Stored>)
    returns (found: nat)
    requires pass.job.Valid() && Counters(v) && Distinct(results) && HoldBest(results, start, before)
    modifies results`design, results`metrics, results`localWire, results`globalWire
    ensures found == |OfferOf(pass, v)|
    ensures HoldBest(results, start, before + OfferOf(pass, v))
  {
    found := TryOne(pass, v, results);
    forall i | 0 <= i < |results|
      ensures results[i].State()
           == BestOf(results[i].optimizationTarget, results[i].limits, start[i], before + OfferOf(pass, v))
    {
      BestOfConcat(results[i].optimizationTarget, results[i].limits, start[i], before, OfferOf(pass, v));
    }
  }

  /** The tuples of one value of counter |v|, then those of its next values. */
  ghost predicate Ahead(nest: Nest, v: seq<int>, x: int, done: seq<seq<int>>)
    requires WellFormed(nest) && Positive(nest, v) && |v| < |nest|
  {
    (nest[|v|].doubling ==> x >= 1) && done + TuplesFrom(nest, v, x) == Tuples(nest, v)
  }

  lemma AheadStep(nest: Nest, v: seq<int>, x: int, done: seq<seq<int>>, pass: Pass, before: seq<Stored>)
    requires WellFormed(nest) && Positive(nest, v) && |v| < |nest| && AllCounters(Tuples(nest, v))
    requires Ahead(nest, v, x, done) && x <= Hi(nest, v)
    ensures Positive(nest, v + [x]) && AllCounters(Tuples(nest, v + [x]))
    ensures Ahead(nest, v, nest[|v|].Next(x), done + Tuples(nest, v + [x]))
    ensures Offers(pass, done + Tuples(nest, v + [x])) == Offers(pass, done) + Offers(pass, Tuples(nest, v + [x]))
    ensures before + Offers(pass, done) + Offers(pass, Tuples(nest, v + [x]))
         == before + Offers(pass, done + Tuples(nest, v + [x]))
  {
    SplitTuples(pass, before, done, Tuples(nest, v + [x]), TuplesFrom(nest, v, nest[|v|].Next(x)), Tuples(nest, v));
  }

  lemma NothingAhead(nest: Nest, v: seq<int>, x: int, done: seq<seq<int>>)
    requires WellFormed(nest) && Positive(nest, v) && |v| < |nest| && Ahead(nest, v, x, done) && x > Hi(nest, v)
    ensures done == Tuples(nest, v)
  {
  }

  /** The loop of counter |v|. */
  method VisitLoop(nest: Nest, v: seq<int>, pass: Pass, results: seq<Result>,
                   ghost start: seq<Stored>, ghost before: seq<Stored>) returns (found: nat)
    requires WellFormed(nest) && Positive(nest, v) && |v| < |nest| == 14 && AllCounters(Tuples(nest, v))
    requires pass.job.Valid() && Distinct(results) && HoldBest(results, start, before)
    modifies results`design, results`metrics, results`localWire, results`globalWire
    ensures found == |Offers(pass, Tuples(nest, v))|
    ensures HoldBest(results, start, before + Offers(pass, Tuples(nest, v)))
    decreases |nest| - |v|, 0
  {
    found := 0;
    var x := Lo(nest, v);
    ghost var done: seq<seq<int>> := [];
    assert before + Offers(pass, done) == before;
    assert Ahead(nest, v, x, done);
    while x <= Hi(nest, v)
      invariant Ahead(nest, v, x, done)
      invariant found == |Offers(pass, done)|
      invariant HoldBest(results, start, before + Offers(pass, done))
      decreases Hi(nest, v) - x
    {
      AheadStep(nest, v, x, done, pass, before);
      var more := Visit(nest, v + [x], pass, results, start, before + Offers(pass, done));
      found := found + more;
      done := done + Tuples(nest, v + [x]);
      x := nest[|v|].Next(x);
    }
    NothingAhead(nest, v, x, done);
  }

  lemma SplitTuples(pass: Pass, before: seq<Stored>, done: seq<seq<int>>, inner: seq<seq<int>>, rest: seq<seq<int>>,
                    all: seq<seq<int>>)
    requires AllCounters(all) && all == done + (inner + rest)
    ensures AllCounters(inner) && (done + inner) + rest == all
    ensures Offers(pass, done + inner) == Offers(pass, done) + Offers(pass, inner)
    ensures before + Offers(pass, done) + Offers(pass, inner) == before + Offers(pass, done + inner)
  {
    InnerCounters(done, inner, rest, all);
    OffersConcat(pass, done, inner);
    ConcatAssoc(before, Offers(pass, done), Offers(pass, inner));
    ConcatAssoc(done, inner, rest);
  }

  lemma ConcatAssoc<T>(a: seq<T>, b: seq<T>, c: seq<T>)
    ensures (a + b) + c == a + (b + c)
  {
  }

  lemma InnerCounters(done: seq<seq<int>>, inner: seq<seq<int>>, rest: seq<seq<int>>, all: seq<seq<int>>)
    requires AllCounters(all) && all == done + (inner + rest)
    ensures AllCounters(inner)
  {
    forall i | 0 <= i < |inner| ensures Counters(inner[i]) {
      assert inner[i] == all[|done| + i];
    }
  }

  /** One whole search over the space. */
  method SearchSpace(nest: Nest, pass: Pass, results: seq<Result>) returns (found: nat)
    requires IsBigFor(nest) && pass.job.Valid() && Distinct(results)
    modifies results`design, results`metrics, results`localWire, results`globalWire
    ensures WellFormed(nest)
    ensures found == |Offers(pass, Tuples(nest, []))|
    ensures forall i :: 0 <= i < |results| ==>
      results[i].State()
      == BestOf(results[i].optimizationTarget, results[i].limits, old(results[i].State()),
                Offers(pass, Tuples(nest, [])))
  {
    NestCounters(nest);
    ghost var start := seq(|results|, i requires 0 <= i < |results| reads results => results[i].State());
    assert [] + Offers(pass, Tuples(nest, [])) == Offers(pass, Tuples(nest, []));
    found := Visit(nest, [], pass, results, start, []);
  }

  lemma NestCounters(nest: Nest)
    requires IsBigFor(nest)
    ensures WellFormed(nest) && AllCounters(Tuples(nest, []))
  {
    BigForWellFormed(nest);
    var tuples := Tuples(nest, []);
    forall i | 0 <= i < |tuples| ensures Counters(tuples[i]) {
      assert tuples[i] in tuples;
      VisitedCounters(nest, tuples[i]);
    }
  }
}
