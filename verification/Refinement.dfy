/** Wire refinement: with the organisation of each result fixed, try every local wire,
    then every global wire, after the macros `TRY_AND_UPDATE` and `REFINE_*_FORLOOP`. */
module Refinement {
  import opened LoopNest
  import opened Results
  import opened Trials
  import opened Search

  /** The layer whose wire is being refined. */
  datatype Layer = Local | Global

  /** Repeated wires cannot be low-swing. */
  predicate Legal(v: seq<int>)
    requires |v| == 3
  {
    v[1] == 0 || v[2] == 0
  }

  predicate Triples(tuples: seq<seq<int>>) {
    forall i :: 0 <= i < |tuples| ==> |tuples[i]| == 3
  }

  /** The wires a sweep tries, from the counters (type, repeater, low swing). */
  function WiresOf(tuples: seq<seq<int>>): seq<Wire>
    requires Triples(tuples)
  {
    if tuples == [] then []
    else (if Legal(tuples[0]) then [Wire(tuples[0][0], tuples[0][1], tuples[0][2] != 0)] else []) + WiresOf(tuples[1..])
  }

  /** A result that can be rebuilt: a bank of clamped settings, no worse than the worst case. */
  predicate Ready(target: Target, s: Stored) {
    && s.design.Built? && s.design.settings.Valid() && s.design.settings.Clamped() == s.design.settings
    && Objective(target, s.metrics) <= Objective(target, WORST)
  }

  predicate Rebuildable(s: Stored) {
    s.design.Built? && s.design.settings.Valid()
  }

  /** The trial of one wire, the rest as stored. A result that holds no bank has nothing
      to rebuild. */
  function Rewired(cell: Cell, layer: Layer, s: Stored, w: Wire): Trial {
    if !Rebuildable(s) then Trial(true, s)
    else match layer
      case Local => Evaluate(cell, s.design.settings, w, s.globalWire)
      case Global => Evaluate(cell, s.design.settings, s.localWire, w)
  }

  function Sweep(cell: Cell, layer: Layer, s: Stored, wires: seq<Wire>): seq<Stored> {
    seq(|wires|, i requires 0 <= i < |wires| => Rewired(cell, layer, s, wires[i]).stored)
  }

  /** What refinement leaves of one result. */
  function Refined(cell: Cell, layer: Layer, target: Target, limits: Limits, s: Stored, wires: seq<Wire>): Stored {
    BestOf(target, limits, s, Sweep(cell, layer, s, wires))
  }

  predicate SameBase(layer: Layer, a: Stored, b: Stored)
    requires a.design.Built?
  {
    && b.design.Built? && b.design.settings == a.design.settings
    && (layer == Local ==> b.globalWire == a.globalWire)
    && (layer == Global ==> b.localWire == a.localWire)
  }

  /** A sweep never changes the settings or the other layer's wire, and never leaves the
      result worse; a refused bank cannot win because it has worst-case metrics. */
  lemma SweepKeepsBase(cell: Cell, layer: Layer, target: Target, limits: Limits, s: Stored, wires: seq<Wire>)
    requires Ready(target, s)
    ensures var r := Refined(cell, layer, target, limits, s, wires);
            Ready(target, r) && SameBase(layer, s, r) && Objective(target, r.metrics) <= Objective(target, s.metrics)
  {
    BestIsFirstMinimum(target, limits, s, Sweep(cell, layer, s, wires));
  }

  lemma SweepStep(cell: Cell, layer: Layer, target: Target, limits: Limits, s: Stored, wires: seq<Wire>, w: Wire)
    requires Ready(target, s)
    ensures var r := Refined(cell, layer, target, limits, s, wires);
            && Rebuildable(r)
            && Better(target, limits, r, Rewired(cell, layer, r, w).stored)
               == Refined(cell, layer, target, limits, s, wires + [w])
  {
    SweepKeepsBase(cell, layer, target, limits, s, wires);
    var offer := Rewired(cell, layer, s, w).stored;
    assert Sweep(cell, layer, s, wires + [w]) == Sweep(cell, layer, s, wires) + [offer];
    BestOfConcat(target, limits, s, Sweep(cell, layer, s, wires), [offer]);
    OneOffer(target, limits, Refined(cell, layer, target, limits, s, wires), offer);
  }

  lemma OneOffer(target: Target, limits: Limits, s: Stored, offer: Stored)
    ensures BestOf(target, limits, s, [offer]) == Better(target, limits, s, offer)
  {
    assert BestOf(target, limits, Better(target, limits, s, offer), [offer][1..]) == Better(target, limits, s, offer);
  }

  /** A sweep ends optimal in its wire, or keeps what it had if nothing beats it. */
  lemma SweepOptimal(cell: Cell, layer: Layer, target: Target, limits: Limits, s: Stored, wires: seq<Wire>, i: nat)
    requires Ready(target, s) && i < |wires|
    ensures var r := Refined(cell, layer, target, limits, s, wires);
            var offer := Rewired(cell, layer, s, wires[i]).stored;
            limits.Admit(offer.metrics) ==> Objective(target, r.metrics) <= Objective(target, offer.metrics)
  {
    BestIsFirstMinimum(target, limits, s, Sweep(cell, layer, s, wires));
    assert Sweep(cell, layer, s, wires)[i] == Rewired(cell, layer, s, wires[i]).stored;
  }

  // ---- The loops ----

  predicate AllReady(results: seq<Result>)
    reads results
  {
    forall i :: 0 <= i < |results| ==> Ready(results[i].optimizationTarget, results[i].State())
  }

  predicate StartsReady(results: seq<Result>, start: seq<Stored>) {
    |start| == |results| && forall i :: 0 <= i < |results| ==> Ready(results[i].optimizationTarget, start[i])
  }

  /** Each result is its start, refined by the wires tried so far. */
  predicate HoldRefined(cell: Cell, layer: Layer, results: seq<Result>, start: seq<Stored>, wires: seq<Wire>)
    reads results
  {
    |start| == |results| && forall i :: 0 <= i < |results| ==>
      results[i].State() == Refined(cell, layer, results[i].optimizationTarget, results[i].limits, start[i], wires)
  }

  /** What one wire offers each result. */
  predicate Offered(cell: Cell, layer: Layer, w: Wire, held: seq<Stored>, offers: seq<Stored>) {
    && |offers| == |held|
    && forall i :: 0 <= i < |held| ==> Rebuildable(held[i]) && offers[i] == Rewired(cell, layer, held[i], w).stored
  }

  /** The first n results have been compared with their offers. */
  predicate Compared(results: seq<Result>, held: seq<Stored>, offers: seq<Stored>, n: int)
    reads results
  {
    && |held| == |results| == |offers|
    && forall i :: 0 <= i < |results| ==>
      results[i].State() ==
      if i < n then Better(results[i].optimizationTarget, results[i].limits, held[i], offers[i]) else held[i]
  }

  /** Try one wire on every result. */
  method TryWire(cell: Cell, layer: Layer, w: Wire, results: seq<Result>, ghost held: seq<Stored>,
                 ghost offers: seq<Stored>)
    requires Distinct(results) && Offered(cell, layer, w, held, offers) && Compared(results, held, offers, 0)
    modifies results`design, results`metrics, results`localWire, results`globalWire
    ensures Compared(results, held, offers, |results|)
  {
    for i := 0 to |results|
      invariant Compared(results, held, offers, i)
    {
      label before:
      TryAndUpdate(cell, layer, w, results[i], i, held, offers);
      forall j | 0 <= j < |results| && j != i ensures results[j].State() == old@before(results[j].State()) {
        assert results[j] != results[i];
      }
    }
  }

  /** The macro `TRY_AND_UPDATE`: rebuild from the stored fields on the new wire, compare. */
  method TryAndUpdate(cell: Cell, layer: Layer, w: Wire, result: Result,
                      ghost i: int, ghost held: seq<Stored>, ghost offers: seq<Stored>)
    requires Offered(cell, layer, w, held, offers) && 0 <= i < |held| && result.State() == held[i]
    modifies result`design, result`metrics, result`localWire, result`globalWire
    ensures result.State() == Better(result.optimizationTarget, result.limits, held[i], offers[i])
  {
    assert Rebuildable(held[i]);
    var localWire := if layer == Local then w else result.localWire;
    var globalWire := if layer == Global then w else result.globalWire;
    var trial := Calculate(cell, result.design.settings, localWire, globalWire);
    var _ := result.CompareAndUpdate(trial.stored);
  }

  /** Trying one wire extends what every result has been refined by. */
  method TryWireNext(cell: Cell, layer: Layer, w: Wire, results: seq<Result>, ghost start: seq<Stored>,
                     ghost wires: seq<Wire>)
    requires Distinct(results) && StartsReady(results, start) && HoldRefined(cell, layer, results, start, wires)
    modifies results`design, results`metrics, results`localWire, results`globalWire
    ensures HoldRefined(cell, layer, results, start, wires + [w])
  {
    ghost var held := seq(|results|, i requires 0 <= i < |results| reads results => results[i].State());
    ghost var offers := seq(|results|, i requires 0 <= i < |results| => Rewired(cell, layer, held[i], w).stored);
    forall i | 0 <= i < |results|
      ensures Rebuildable(held[i])
      ensures Better(results[i].optimizationTarget, results[i].limits, held[i], offers[i])
           == Refined(cell, layer, results[i].optimizationTarget, results[i].limits, start[i], wires + [w])
    {
      SweepStep(cell, layer, results[i].optimizationTarget, results[i].limits, start[i], wires, w);
    }
    TryWire(cell, layer, w, results, held, offers);
  }

  lemma WiresConcat(a: seq<seq<int>>, b: seq<seq<int>>)
    requires Triples(a) && Triples(b)
    ensures Triples(a + b) && WiresOf(a + b) == WiresOf(a) + WiresOf(b)
    decreases |a|
  {
    if a == [] {
      assert a + b == b;
    } else {
      assert (a + b)[0] == a[0] && (a + b)[1..] == a[1..] + b;
      WiresConcat(a[1..], b);
    }
  }

  lemma WiresAfter(done: seq<Wire>, tried: seq<seq<int>>, inner: seq<seq<int>>, rest: seq<seq<int>>)
    requires Triples(tried) && Triples(inner)
    ensures Triples(tried + inner) && done + WiresOf(tried) + WiresOf(inner) == done + WiresOf(tried + inner)
    ensures (tried + inner) + rest == tried + (inner + rest)
  {
    WiresConcat(tried, inner);
  }

  lemma {:induction false} TuplesHaveLength(nest: Nest, v: seq<int>)
    requires WellFormed(nest) && Positive(nest, v) && |nest| == 3
    ensures Triples(Tuples(nest, v))
  {
    var tuples := Tuples(nest, v);
    forall i | 0 <= i < |tuples| ensures |tuples[i]| == 3 {
      assert tuples[i] in tuples;
      TuplesExact(nest, v, tuples[i]);
    }
  }

  /** The wire loops from counter |v| inwards. */
  method SweepFrom(nest: Nest, v: seq<int>, cell: Cell, layer: Layer, results: seq<Result>,
                   ghost start: seq<Stored>, ghost done: seq<Wire>)
    requires WellFormed(nest) && Positive(nest, v) && |nest| == 3 && Triples(Tuples(nest, v))
    requires Distinct(results) && StartsReady(results, start) && HoldRefined(cell, layer, results, start, done)
    modifies results`design, results`metrics, results`localWire, results`globalWire
    ensures HoldRefined(cell, layer, results, start, done + WiresOf(Tuples(nest, v)))
    decreases |nest| - |v|, 1
  {
    if |v| == |nest| {
      assert Tuples(nest, v) == [v];
      if v[1] == 0 || v[2] == 0 {
        assert WiresOf([v]) == [Wire(v[0], v[1], v[2] != 0)] + WiresOf([v][1..]);
        TryWireNext(cell, layer, Wire(v[0], v[1], v[2] != 0), results, start, done);
        assert WiresOf([v]) == [Wire(v[0], v[1], v[2] != 0)];
      } else {
        assert WiresOf([v]) == [];
        assert done + [] == done;
      }
    } else {
      SweepLoop(nest, v, cell, layer, results, start, done);
    }
  }

  method SweepLoop(nest: Nest, v: seq<int>, cell: Cell, layer: Layer, results: seq<Result>,
                   ghost start: seq<Stored>, ghost done: seq<Wire>)
    requires WellFormed(nest) && Positive(nest, v) && |v| < |nest| == 3 && Triples(Tuples(nest, v))
    requires Distinct(results) && StartsReady(results, start) && HoldRefined(cell, layer, results, start, done)
    modifies results`design, results`metrics, results`localWire, results`globalWire
    ensures HoldRefined(cell, layer, results, start, done + WiresOf(Tuples(nest, v)))
    decreases |nest| - |v|, 0
  {
    var x := Lo(nest, v);
    ghost var tried: seq<seq<int>> := [];
    assert done + WiresOf([]) == done;
    while x <= Hi(nest, v)
      invariant nest[|v|].doubling ==> x >= 1
      invariant tried + TuplesFrom(nest, v, x) == Tuples(nest, v) && Triples(tried)
      invariant HoldRefined(cell, layer, results, start, done + WiresOf(tried))
      decreases Hi(nest, v) - x
    {
      ghost var inner := Tuples(nest, v + [x]);
      TuplesHaveLength(nest, v + [x]);
      SweepFrom(nest, v + [x], cell, layer, results, start, done + WiresOf(tried));
      WiresAfter(done, tried, inner, TuplesFrom(nest, v, nest[|v|].Next(x)));
      tried := tried + inner;
      x := nest[|v|].Next(x);
    }
    assert tried == Tuples(nest, v);
  }

  /** The wires the three loops try, in order. */
  function WireSpace(nest: Nest): seq<Wire>
    requires WellFormed(nest) && |nest| == 3
  {
    TuplesHaveLength(nest, []);
    WiresOf(Tuples(nest, []))
  }

  /** The bounds of the wire loops of one layer. Low swing is a number that stands for a
      truth value. */
  datatype WireRanges = WireRanges(
    minType: int, maxType: int, minRepeater: int, maxRepeater: int, minLowSwing: int, maxLowSwing: int)
  {
    function Nest(): (nest: Nest)
      ensures WellFormed(nest) && |nest| == 3
    {
      [Counter(minType, maxType, -1, false), Counter(minRepeater, maxRepeater, -1, false),
       Counter(minLowSwing, maxLowSwing, -1, false)]
    }

    function Space(): seq<Wire> {
      WireSpace(Nest())
    }
  }

  lemma {:induction false} WireFromTuple(tuples: seq<seq<int>>, w: Wire)
    requires Triples(tuples)
    ensures w in WiresOf(tuples)
       <==> exists i :: 0 <= i < |tuples| && Legal(tuples[i]) && IsWire(tuples[i], w)
    decreases |tuples|
  {
    if tuples != [] {
      var v, rest := tuples[0], tuples[1..];
      WireFromTuple(rest, w);
      if i :| 0 <= i < |tuples| && Legal(tuples[i]) && IsWire(tuples[i], w) {
        if i > 0 {
          assert rest[i - 1] == tuples[i];
        }
      }
      if i :| 0 <= i < |rest| && Legal(rest[i]) && IsWire(rest[i], w) {
        assert tuples[i + 1] == rest[i];
      }
    }
  }

  predicate IsWire(v: seq<int>, w: Wire)
    requires |v| == 3
  {
    w.wireType == v[0] && w.repeaterType == v[1] && (w.isLowSwing <==> v[2] != 0)
  }

  lemma WireTuple(r: WireRanges, v: seq<int>)
    ensures v in Tuples(r.Nest(), [])
       <==> && |v| == 3 && r.minType <= v[0] <= r.maxType && r.minRepeater <= v[1] <= r.maxRepeater
            && r.minLowSwing <= v[2] <= r.maxLowSwing
  {
    var nest := r.Nest();
    TuplesBySteps(nest, v);
    if |v| == 3 {
      assert Step(nest, v, 0) <==> r.minType <= v[0] <= r.maxType;
      assert Step(nest, v, 1) <==> r.minRepeater <= v[1] <= r.maxRepeater;
      assert Step(nest, v, 2) <==> r.minLowSwing <= v[2] <= r.maxLowSwing;
    }
  }

  /** A swing the loops reach that stands for the wire's. */
  predicate SwingOf(r: WireRanges, w: Wire, swing: int) {
    r.minLowSwing <= swing <= r.maxLowSwing && (w.isLowSwing <==> swing != 0)
  }

  /** The loops try exactly the wires within the bounds that are not both repeated and
      low-swing. */
  lemma WireSpaceExact(r: WireRanges, w: Wire)
    ensures w in r.Space()
       <==> && r.minType <= w.wireType <= r.maxType && r.minRepeater <= w.repeaterType <= r.maxRepeater
            && (exists swing :: SwingOf(r, w, swing)) && (w.repeaterType == 0 || !w.isLowSwing)
  {
    var tuples := Tuples(r.Nest(), []);
    TuplesHaveLength(r.Nest(), []);
    WireFromTuple(tuples, w);
    if i :| 0 <= i < |tuples| && Legal(tuples[i]) && IsWire(tuples[i], w) {
      assert tuples[i] in tuples;
      WireTuple(r, tuples[i]);
      assert SwingOf(r, w, tuples[i][2]);
    }
    if swing :| SwingOf(r, w, swing) {
      var v := [w.wireType, w.repeaterType, swing];
      WireTuple(r, v);
      if v in tuples && (w.repeaterType == 0 || !w.isLowSwing) {
        var i :| 0 <= i < |tuples| && tuples[i] == v;
        assert Legal(tuples[i]) && IsWire(tuples[i], w);
      }
    }
  }

  /** One refinement pass over all results. */
  method Refine(nest: Nest, cell: Cell, layer: Layer, results: seq<Result>)
    requires WellFormed(nest) && |nest| == 3 && Distinct(results) && AllReady(results)
    modifies results`design, results`metrics, results`localWire, results`globalWire
    ensures AllReady(results)
    ensures forall i :: 0 <= i < |results| ==>
      && Ready(results[i].optimizationTarget, old(results[i].State()))
      && results[i].State() == Refined(cell, layer, results[i].optimizationTarget, results[i].limits,
                                       old(results[i].State()), WireSpace(nest))
  {
    TuplesHaveLength(nest, []);
    ghost var wires := WiresOf(Tuples(nest, []));
    ghost var start := seq(|results|, i requires 0 <= i < |results| reads results => results[i].State());
    forall i | 0 <= i < |results|
      ensures results[i].State() == Refined(cell, layer, results[i].optimizationTarget, results[i].limits, start[i], [])
    {
    }
    SweepFrom(nest, [], cell, layer, results, start, []);
    assert [] + wires == wires;
    forall i | 0 <= i < |results| ensures Ready(results[i].optimizationTarget, results[i].State()) {
      SweepKeepsBase(cell, layer, results[i].optimizationTarget, results[i].limits, start[i], wires);
    }
  }
}
