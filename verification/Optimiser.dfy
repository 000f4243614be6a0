/** The data-array part of `nvsim`: search, wire refinement, and the second search under
    design constraints; and what the results hold at the end. */
module Optimiser {
  import opened PowersOfTwo
  import opened Organisation
  import opened Capacity
  import opened BankRouting
  import opened LoopNest
  import opened Results
  import opened Trials
  import opened Search
  import opened Refinement

  /** Metrics that an unconstrained result can take up, whatever its target. */
  predicate Plausible(m: Metrics) {
    UNLIMITED.Admit(m) && forall target: Target :: Objective(target, m) < Objective(target, WORST)
  }

  /** Valid banks of the cell have plausible metrics. */
  ghost predicate Measurable(cell: Cell) {
    forall b: BankSettings, rows: int, columns: int, l: Wire, g: Wire ::
      var m := cell.measure(b, rows, columns, l, g);
      !m.invalid ==> Plausible(m.metrics)
  }

  /** Invalid banks of the cell have worst-case metrics. An eDRAM bank that fails its
      retention time is invalid and keeps real metrics, so such a cell does not qualify. */
  ghost predicate InvalidIsWorst(cell: Cell) {
    forall b: BankSettings, rows: int, columns: int, l: Wire, g: Wire ::
      var m := cell.measure(b, rows, columns, l, g);
      m.invalid ==> m.metrics == WORST
  }

  /** A result before any search. */
  predicate Empty(s: Stored) {
    s.design == Blank && s.metrics == WORST
  }

  /** Offers are built from countable settings that are stored as they were asked for. */
  lemma OfferBuilt(pass: Pass, v: seq<int>, s: Stored)
    requires s in OfferOf(pass, v)
    ensures s.design.Built? && Countable(s.design.settings) && s.design.settings.Clamped() == s.design.settings
    ensures s.localWire == pass.localWire && s.globalWire == pass.globalWire
    ensures Evaluate(pass.cell, s.design.settings, pass.localWire, pass.globalWire) == Trial(false, s)
    ensures Measurable(pass.cell) ==> Plausible(s.metrics)
  {
    PreparedCountable(pass.job, v);
    PreparedClamped(pass.job, v);
  }

  lemma PreparedClamped(job: Job, v: seq<int>)
    requires job.Valid() && Counters(v) && v[3] * v[4] * v[7] * v[8] > 0
    ensures Prepare(job, v).Some? ==> Prepare(job, v).value.Clamped() == Prepare(job, v).value
  {
  }

  lemma OffersBuilt(pass: Pass, tuples: seq<seq<int>>, s: Stored)
    requires s in Offers(pass, tuples)
    ensures s.design.Built? && Countable(s.design.settings) && s.design.settings.Clamped() == s.design.settings
    ensures s.localWire == pass.localWire && s.globalWire == pass.globalWire
    ensures Evaluate(pass.cell, s.design.settings, pass.localWire, pass.globalWire) == Trial(false, s)
    ensures Measurable(pass.cell) ==> Plausible(s.metrics)
  {
    OffersExact(pass, tuples, s);
    var i :| 0 <= i < |tuples| && s in OfferOf(pass, tuples[i]);
    OfferBuilt(pass, tuples[i], s);
  }

  /** No bank of the list has a smaller objective. */
  predicate AtMost(target: Target, s: Stored, others: seq<Stored>) {
    forall o :: o in others ==> Objective(target, s.metrics) <= Objective(target, o.metrics)
  }

  /** A valid bank that beats an empty result and passes its limits. */
  predicate Takes(target: Target, s: Stored, o: Stored) {
    UNLIMITED.Admit(o.metrics) && Objective(target, o.metrics) < Objective(target, s.metrics)
  }

  /** Among offers that would all be taken, the best is the first minimum of them all. */
  lemma AllTaken(target: Target, s: Stored, offers: seq<Stored>)
    requires offers != [] && forall o :: o in offers ==> Takes(target, s, o)
    ensures var best := BestOf(target, UNLIMITED, s, offers);
            && best in offers
            && (exists k: nat :: FirstMinimum(target, UNLIMITED, s, offers, k) && best == offers[k])
            && AtMost(target, best, offers)
  {
    BestIsFirstMinimum(target, UNLIMITED, s, offers);
    var best := BestOf(target, UNLIMITED, s, offers);
    assert offers[0] in offers && Takes(target, s, offers[0]);
    assert !Unbeaten(target, UNLIMITED, s, offers);
    var k: nat :| FirstMinimum(target, UNLIMITED, s, offers, k) && best == offers[k];
    forall o | o in offers ensures Objective(target, best.metrics) <= Objective(target, o.metrics) {
      var j :| 0 <= j < |offers| && offers[j] == o;
    }
  }

  /** As soon as one valid bank exists, the search leaves every target's result with the
      first valid bank that minimises it. */
  lemma SearchOptimal(pass: Pass, tuples: seq<seq<int>>, target: Target, s: Stored)
    requires Measurable(pass.cell) && pass.filter == Everything
    requires Empty(s) && Offers(pass, tuples) != []
    ensures var offers := Offers(pass, tuples);
            var best := BestOf(target, UNLIMITED, s, offers);
            && (exists k: nat :: FirstMinimum(target, UNLIMITED, s, offers, k) && best == offers[k])
            && best in offers && AtMost(target, best, offers)
  {
    var offers := Offers(pass, tuples);
    forall o | o in offers ensures Takes(target, s, o) {
      OffersBuilt(pass, tuples, o);
    }
    AllTaken(target, s, offers);
  }

  /** So every result can be rebuilt. */
  lemma SearchReady(pass: Pass, tuples: seq<seq<int>>, target: Target, s: Stored)
    requires Measurable(pass.cell) && pass.filter == Everything
    requires Empty(s) && Offers(pass, tuples) != []
    ensures Ready(target, BestOf(target, UNLIMITED, s, Offers(pass, tuples)))
  {
    SearchOptimal(pass, tuples, target, s);
    OffersBuilt(pass, tuples, BestOf(target, UNLIMITED, s, Offers(pass, tuples)));
  }

  // ---- Refinement after the search ----

  function NoRules(): Electrical {
    (_: SubarraySpec) => false
  }

  /** The stored bank has the rows and columns of its settings. Which electrical rule
      accepted it makes no difference to them. */
  predicate Shaped(dram: bool, s: Stored) {
    && Rebuildable(s) && s.design.settings.Clamped() == s.design.settings
    && var plan := PlanClosed(s.design.settings, dram, NoRules());
       plan.Accepted? && s.design.numRow == plan.numRow && s.design.numColumn == plan.numColumn
  }

  lemma ShapeOfPlan(settings: BankSettings, dram: bool, rejects: Electrical)
    requires settings.Valid() && PlanClosed(settings, dram, rejects).Accepted?
    ensures PlanClosed(settings, dram, NoRules()) == PlanClosed(settings, dram, rejects)
  {
  }

  /** Every bank that is built has the shape of its settings, on any wires. */
  lemma BuiltIsShaped(cell: Cell, settings: BankSettings, l: Wire, g: Wire)
    requires settings.Valid()
    ensures var s := Evaluate(cell, settings, l, g).stored;
            s.design.Built? ==> Shaped(cell.dram, s) && s.design.settings == settings.Clamped()
  {
    SamePlan(settings, cell.dram, ElectricalRule(cell, l));
    if Plan(cell, settings, l).Accepted? {
      ShapeOfPlan(settings, cell.dram, ElectricalRule(cell, l));
      RebuildSamePlan(settings, cell.dram, NoRules());
    }
  }

  /** Two shaped banks of the same settings are the same design. */
  lemma SameShape(dram: bool, a: Stored, b: Stored)
    requires Shaped(dram, a) && Shaped(dram, b) && a.design.settings == b.design.settings
    ensures a.design == b.design
  {
  }

  /** The stored bank is a valid trial of its own settings and wires. */
  predicate Consistent(cell: Cell, target: Target, s: Stored) {
    && Ready(target, s)
    && Evaluate(cell, s.design.settings, s.localWire, s.globalWire) == Trial(false, s)
  }

  /** A trial is rebuilt from what it stored. */
  lemma RewiredBase(cell: Cell, layer: Layer, target: Target, s: Stored, w: Wire)
    requires Ready(target, s)
    ensures var t := Rewired(cell, layer, s, w);
            && (t.stored.design.Built? ==>
                  && t.stored.design.settings == s.design.settings
                  && Evaluate(cell, t.stored.design.settings, t.stored.localWire, t.stored.globalWire) == t)
            && (!t.stored.design.Built? ==> t.invalid && t.stored.metrics == WORST)
  {
  }

  /** Wire k takes over: its trial is the first minimum of the sweep. */
  predicate Wins(cell: Cell, layer: Layer, target: Target, limits: Limits, s: Stored, wires: seq<Wire>, k: nat) {
    k < |wires| && FirstMinimum(target, limits, s, Sweep(cell, layer, s, wires), k)
  }

  /** Some wire takes over. */
  ghost predicate Changes(cell: Cell, layer: Layer, target: Target, limits: Limits, s: Stored, wires: seq<Wire>) {
    exists k: nat :: Wins(cell, layer, target, limits, s, wires, k)
  }

  /** A wire takes over whose trial is invalid. */
  ghost predicate InvalidWins(cell: Cell, layer: Layer, target: Target, limits: Limits, s: Stored, wires: seq<Wire>) {
    exists k: nat :: Wins(cell, layer, target, limits, s, wires, k) && Rewired(cell, layer, s, wires[k]).invalid
  }

  /** A sweep stores the trial of the wire that takes over, or changes nothing. */
  lemma SweepOutcome(cell: Cell, layer: Layer, target: Target, limits: Limits, s: Stored, wires: seq<Wire>)
    ensures var r := Refined(cell, layer, target, limits, s, wires);
            if Changes(cell, layer, target, limits, s, wires) then
              forall k: nat :: Wins(cell, layer, target, limits, s, wires, k) ==>
                r == Rewired(cell, layer, s, wires[k]).stored
            else r == s
  {
    var offers := Sweep(cell, layer, s, wires);
    BestIsFirstMinimum(target, limits, s, offers);
    var r := Refined(cell, layer, target, limits, s, wires);
    if r == s && Unbeaten(target, limits, s, offers) {
      forall k: nat ensures !Wins(cell, layer, target, limits, s, wires, k) {
      }
    } else {
      var j: nat :| FirstMinimum(target, limits, s, offers, j) && r == offers[j];
      assert Wins(cell, layer, target, limits, s, wires, j);
      forall k: nat | Wins(cell, layer, target, limits, s, wires, k) ensures k == j {
        OneFirstMinimum(target, limits, s, offers, j, k);
      }
    }
  }

  lemma OneFirstMinimum(target: Target, limits: Limits, s: Stored, offers: seq<Stored>, j: nat, k: nat)
    requires FirstMinimum(target, limits, s, offers, j) && FirstMinimum(target, limits, s, offers, k)
    ensures j == k
  {
  }

  /** The bank that takes over is valid exactly when its trial is. */
  lemma WinnerValid(cell: Cell, layer: Layer, target: Target, limits: Limits, s: Stored, wires: seq<Wire>, k: nat)
    requires Ready(target, s) && Wins(cell, layer, target, limits, s, wires, k)
    ensures var t := Rewired(cell, layer, s, wires[k]);
            t.stored.design.Built? && (Consistent(cell, target, t.stored) <==> !t.invalid)
  {
    assert Sweep(cell, layer, s, wires)[k] == Rewired(cell, layer, s, wires[k]).stored;
    RewiredBase(cell, layer, target, s, wires[k]);
    SweepOutcome(cell, layer, target, limits, s, wires);
    SweepKeepsBase(cell, layer, target, limits, s, wires);
  }

  /** `TRY_AND_UPDATE` does not look at `invalid`. Whatever the cell and the limits, a sweep
      leaves a valid bank valid exactly when no invalid trial takes over. */
  lemma SweepValidExactly(cell: Cell, layer: Layer, target: Target, limits: Limits, s: Stored, wires: seq<Wire>)
    requires Consistent(cell, target, s)
    ensures Consistent(cell, target, Refined(cell, layer, target, limits, s, wires))
       <==> !InvalidWins(cell, layer, target, limits, s, wires)
  {
    SweepValidity(cell, layer, target, limits, s, wires);
  }

  /** The same from a bank that may itself be invalid: then some wire has to take over. */
  lemma SweepValidity(cell: Cell, layer: Layer, target: Target, limits: Limits, s: Stored, wires: seq<Wire>)
    requires Ready(target, s)
    ensures Consistent(cell, target, Refined(cell, layer, target, limits, s, wires))
       <==> && !InvalidWins(cell, layer, target, limits, s, wires)
            && (Changes(cell, layer, target, limits, s, wires) || Consistent(cell, target, s))
  {
    SweepOutcome(cell, layer, target, limits, s, wires);
    if k: nat :| Wins(cell, layer, target, limits, s, wires, k) {
      WinnerValid(cell, layer, target, limits, s, wires, k);
      forall j: nat | Wins(cell, layer, target, limits, s, wires, j) ensures j == k {
        OneFirstMinimum(target, limits, s, Sweep(cell, layer, s, wires), j, k);
      }
    }
  }

  /** In particular one wire leaves a valid bank valid exactly unless its own trial is
      invalid, admitted and better. */
  lemma TryKeepsValid(cell: Cell, layer: Layer, target: Target, limits: Limits, s: Stored, w: Wire)
    requires Consistent(cell, target, s)
    ensures var trial := Rewired(cell, layer, s, w);
            (Consistent(cell, target, Better(target, limits, s, trial.stored))
             <==> !(trial.invalid && limits.Admit(trial.stored.metrics)
                    && Objective(target, trial.stored.metrics) < Objective(target, s.metrics)))
  {
    RewiredBase(cell, layer, target, s, w);
  }

  /** No admitted bank of the list has a smaller objective. */
  predicate AdmittedAtMost(target: Target, limits: Limits, s: Stored, others: seq<Stored>) {
    forall o :: o in others && limits.Admit(o.metrics) ==> Objective(target, s.metrics) <= Objective(target, o.metrics)
  }

  /** A sweep is coordinate descent, whatever the cell and the limits: the organisation
      stays, down to rows and columns; so does the other layer's wire; the objective does
      not rise; and no admitted wire of the swept layer does better. */
  lemma SweepDescends(cell: Cell, layer: Layer, target: Target, limits: Limits, s: Stored, wires: seq<Wire>)
    requires Ready(target, s) && Shaped(cell.dram, s)
    ensures var r := Refined(cell, layer, target, limits, s, wires);
            && Ready(target, r) && Shaped(cell.dram, r) && r.design == s.design && SameBase(layer, s, r)
            && Objective(target, r.metrics) <= Objective(target, s.metrics)
            && AdmittedAtMost(target, limits, r, Sweep(cell, layer, s, wires))
  {
    SweepKeepsBase(cell, layer, target, limits, s, wires);
    SweepKeepsShape(cell, layer, target, limits, s, wires);
    SweepBeatsAll(cell, layer, target, limits, s, wires);
  }

  lemma SweepKeepsShape(cell: Cell, layer: Layer, target: Target, limits: Limits, s: Stored, wires: seq<Wire>)
    requires Ready(target, s) && Shaped(cell.dram, s)
    ensures var r := Refined(cell, layer, target, limits, s, wires);
            Shaped(cell.dram, r) && r.design == s.design
  {
    var r := Refined(cell, layer, target, limits, s, wires);
    SweepOutcome(cell, layer, target, limits, s, wires);
    if k: nat :| Wins(cell, layer, target, limits, s, wires, k) {
      WinnerValid(cell, layer, target, limits, s, wires, k);
      RewiredShape(cell, layer, target, s, wires[k]);
      SameShape(cell.dram, s, r);
    }
  }

  lemma RewiredShape(cell: Cell, layer: Layer, target: Target, s: Stored, w: Wire)
    requires Ready(target, s)
    ensures var r := Rewired(cell, layer, s, w).stored;
            r.design.Built? ==> Shaped(cell.dram, r) && r.design.settings == s.design.settings
  {
    match layer
    case Local => BuiltIsShaped(cell, s.design.settings, w, s.globalWire);
    case Global => BuiltIsShaped(cell, s.design.settings, s.localWire, w);
  }

  lemma SweepBeatsAll(cell: Cell, layer: Layer, target: Target, limits: Limits, s: Stored, wires: seq<Wire>)
    requires Ready(target, s)
    ensures AdmittedAtMost(target, limits, Refined(cell, layer, target, limits, s, wires), Sweep(cell, layer, s, wires))
  {
    var offers := Sweep(cell, layer, s, wires);
    forall o | o in offers && limits.Admit(o.metrics)
      ensures Objective(target, Refined(cell, layer, target, limits, s, wires).metrics) <= Objective(target, o.metrics)
    {
      var i :| 0 <= i < |offers| && offers[i] == o;
      SweepOptimal(cell, layer, target, limits, s, wires, i);
    }
  }

  lemma AtMostTransitive(target: Target, s: Stored, r: Stored, others: seq<Stored>)
    requires Objective(target, r.metrics) <= Objective(target, s.metrics)
    ensures AtMost(target, s, others) ==> AtMost(target, r, others)
    ensures AdmittedAtMost(target, UNLIMITED, s, others) ==> AdmittedAtMost(target, UNLIMITED, r, others)
  {
  }

  lemma SearchShaped(pass: Pass, tuples: seq<seq<int>>, target: Target, s0: Stored)
    requires pass.filter == Everything && Measurable(pass.cell)
    requires Empty(s0) && Offers(pass, tuples) != []
    ensures var s1 := BestOf(target, UNLIMITED, s0, Offers(pass, tuples));
            && Consistent(pass.cell, target, s1) && Shaped(pass.cell.dram, s1) && CapacityHolds(s1)
            && AtMost(target, s1, Offers(pass, tuples))
  {
    SearchOptimal(pass, tuples, target, s0);
    var s1 := BestOf(target, UNLIMITED, s0, Offers(pass, tuples));
    OffersBuilt(pass, tuples, s1);
    BuiltIsShaped(pass.cell, s1.design.settings, pass.localWire, pass.globalWire);
    TrialConservesCapacity(pass.cell, s1.design.settings, pass.localWire, pass.globalWire);
  }

  /** The three stages of a run for one target. `refiner` is the cell as refinement sees it;
      for data arrays it is the cell of the search. */
  function Refinements(refiner: Cell, target: Target, s1: Stored, localWires: seq<Wire>,
                       globalWires: seq<Wire>): (Stored, Stored)
  {
    var s2 := Refined(refiner, Local, target, UNLIMITED, s1, localWires);
    (s2, Refined(refiner, Global, target, UNLIMITED, s2, globalWires))
  }

  /** Whole unconstrained run for one target: search, then local wires, then global wires.
      Whatever refinement measures, and even if it adopts invalid banks, the result has the
      rows and columns, hence the capacity, that the search verified; no valid bank of the
      search, no admitted local wire and no admitted global wire that was tried does better. */
  lemma RunOptimal(pass: Pass, refiner: Cell, tuples: seq<seq<int>>, target: Target, s0: Stored,
                   localWires: seq<Wire>, globalWires: seq<Wire>)
    requires pass.filter == Everything && Measurable(pass.cell) && refiner.dram == pass.cell.dram
    requires Empty(s0) && Offers(pass, tuples) != []
    ensures var s1 := BestOf(target, UNLIMITED, s0, Offers(pass, tuples));
            var (s2, s3) := Refinements(refiner, target, s1, localWires, globalWires);
            && Ready(target, s3) && s3.design == s2.design == s1.design && CapacityHolds(s3)
            && s2.globalWire == s1.globalWire && s3.localWire == s2.localWire
            && AtMost(target, s3, Offers(pass, tuples))
            && AdmittedAtMost(target, UNLIMITED, s3, Sweep(refiner, Local, s1, localWires))
            && AdmittedAtMost(target, UNLIMITED, s3, Sweep(refiner, Global, s2, globalWires))
  {
    SearchShaped(pass, tuples, target, s0);
    var s1 := BestOf(target, UNLIMITED, s0, Offers(pass, tuples));
    var (s2, s3) := Refinements(refiner, target, s1, localWires, globalWires);
    SweepDescends(refiner, Local, target, UNLIMITED, s1, localWires);
    SweepDescends(refiner, Global, target, UNLIMITED, s2, globalWires);
    AtMostTransitive(target, s2, s3, Sweep(refiner, Local, s1, localWires));
    AtMostTransitive(target, s1, s3, Offers(pass, tuples));
  }

  /** The run ends in a bank that refinement finds valid exactly when no invalid trial wins
      the global sweep and, unless the global sweep replaces it again, none wins the local
      sweep and, unless that one replaces it, the bank of the search is valid there too. */
  lemma RunValidExactly(pass: Pass, refiner: Cell, tuples: seq<seq<int>>, target: Target, s0: Stored,
                        localWires: seq<Wire>, globalWires: seq<Wire>)
    requires pass.filter == Everything && Measurable(pass.cell) && refiner.dram == pass.cell.dram
    requires Empty(s0) && Offers(pass, tuples) != []
    ensures var s1 := BestOf(target, UNLIMITED, s0, Offers(pass, tuples));
            var (s2, s3) := Refinements(refiner, target, s1, localWires, globalWires);
            (Consistent(refiner, target, s3)
             <==> && !InvalidWins(refiner, Global, target, UNLIMITED, s2, globalWires)
                  && (|| Changes(refiner, Global, target, UNLIMITED, s2, globalWires)
                      || (&& !InvalidWins(refiner, Local, target, UNLIMITED, s1, localWires)
                          && (|| Changes(refiner, Local, target, UNLIMITED, s1, localWires)
                              || Consistent(refiner, target, s1)))))
  {
    SearchShaped(pass, tuples, target, s0);
    var s1 := BestOf(target, UNLIMITED, s0, Offers(pass, tuples));
    var (s2, s3) := Refinements(refiner, target, s1, localWires, globalWires);
    SweepKeepsBase(refiner, Local, target, UNLIMITED, s1, localWires);
    SweepValidity(refiner, Local, target, UNLIMITED, s1, localWires);
    SweepValidity(refiner, Global, target, UNLIMITED, s2, globalWires);
  }

  /** Data arrays are refined as they are searched, and the bank of the search is valid. */
  lemma DataRunValidExactly(pass: Pass, tuples: seq<seq<int>>, target: Target, s0: Stored, localWires: seq<Wire>,
                            globalWires: seq<Wire>)
    requires pass.filter == Everything && Measurable(pass.cell)
    requires Empty(s0) && Offers(pass, tuples) != []
    ensures var s1 := BestOf(target, UNLIMITED, s0, Offers(pass, tuples));
            var (s2, s3) := Refinements(pass.cell, target, s1, localWires, globalWires);
            (Consistent(pass.cell, target, s3)
             <==> && !InvalidWins(pass.cell, Global, target, UNLIMITED, s2, globalWires)
                  && (|| Changes(pass.cell, Global, target, UNLIMITED, s2, globalWires)
                      || !InvalidWins(pass.cell, Local, target, UNLIMITED, s1, localWires)))
  {
    SearchShaped(pass, tuples, target, s0);
    RunValidExactly(pass, pass.cell, tuples, target, s0, localWires, globalWires);
  }

  // ---- Cells whose invalid banks have worst-case metrics ----

  lemma InvalidNeverWins(cell: Cell, layer: Layer, target: Target, limits: Limits, s: Stored, wires: seq<Wire>)
    requires Ready(target, s) && InvalidIsWorst(cell)
    ensures !InvalidWins(cell, layer, target, limits, s, wires)
  {
    forall k: nat | Wins(cell, layer, target, limits, s, wires, k) ensures !Rewired(cell, layer, s, wires[k]).invalid {
      assert Sweep(cell, layer, s, wires)[k] == Rewired(cell, layer, s, wires[k]).stored;
      InvalidTrialWorst(cell, layer, s, wires[k]);
    }
  }

  lemma InvalidTrialWorst(cell: Cell, layer: Layer, s: Stored, w: Wire)
    requires Rebuildable(s) && InvalidIsWorst(cell)
    ensures var t := Rewired(cell, layer, s, w); t.invalid ==> t.stored.metrics == WORST
  {
  }

  /** A trial of such a cell is admitted or has worst-case metrics. */
  lemma AdmittedOrWorst(cell: Cell, layer: Layer, s: Stored, w: Wire)
    requires Rebuildable(s) && InvalidIsWorst(cell) && Measurable(cell)
    ensures var m := Rewired(cell, layer, s, w).stored.metrics; UNLIMITED.Admit(m) || m == WORST
  {
    InvalidTrialWorst(cell, layer, s, w);
  }

  lemma AdmittedIsAll(cell: Cell, layer: Layer, target: Target, r: Stored, s: Stored, wires: seq<Wire>)
    requires Rebuildable(s) && InvalidIsWorst(cell) && Measurable(cell) && Ready(target, r)
    requires AdmittedAtMost(target, UNLIMITED, r, Sweep(cell, layer, s, wires))
    ensures AtMost(target, r, Sweep(cell, layer, s, wires))
  {
    var offers := Sweep(cell, layer, s, wires);
    forall o | o in offers ensures Objective(target, r.metrics) <= Objective(target, o.metrics) {
      var i :| 0 <= i < |offers| && offers[i] == o;
      AdmittedOrWorst(cell, layer, s, wires[i]);
    }
  }

  /** For such a cell a sweep always ends in a valid bank, and no wire at all does better. */
  lemma SweepEndsValid(cell: Cell, layer: Layer, target: Target, s: Stored, wires: seq<Wire>)
    requires Consistent(cell, target, s) && Measurable(cell) && InvalidIsWorst(cell)
    ensures var r := Refined(cell, layer, target, UNLIMITED, s, wires);
            Consistent(cell, target, r) && AtMost(target, r, Sweep(cell, layer, s, wires))
  {
    InvalidNeverWins(cell, layer, target, UNLIMITED, s, wires);
    SweepValidExactly(cell, layer, target, UNLIMITED, s, wires);
    SweepBeatsAll(cell, layer, target, UNLIMITED, s, wires);
    AdmittedIsAll(cell, layer, target, Refined(cell, layer, target, UNLIMITED, s, wires), s, wires);
  }

  /** For such a cell the run always ends in a valid bank, and no wire that was tried does
      better. */
  lemma RunValid(pass: Pass, tuples: seq<seq<int>>, target: Target, s0: Stored, localWires: seq<Wire>,
                 globalWires: seq<Wire>)
    requires pass.filter == Everything && Measurable(pass.cell) && InvalidIsWorst(pass.cell)
    requires Empty(s0) && Offers(pass, tuples) != []
    ensures var s1 := BestOf(target, UNLIMITED, s0, Offers(pass, tuples));
            var (s2, s3) := Refinements(pass.cell, target, s1, localWires, globalWires);
            && Consistent(pass.cell, target, s3)
            && AtMost(target, s3, Sweep(pass.cell, Local, s1, localWires))
            && AtMost(target, s3, Sweep(pass.cell, Global, s2, globalWires))
  {
    SearchShaped(pass, tuples, target, s0);
    var s1 := BestOf(target, UNLIMITED, s0, Offers(pass, tuples));
    var (s2, s3) := Refinements(pass.cell, target, s1, localWires, globalWires);
    SweepEndsValid(pass.cell, Local, target, s1, localWires);
    SweepEndsValid(pass.cell, Global, target, s2, globalWires);
    SweepKeepsBase(pass.cell, Global, target, UNLIMITED, s2, globalWires);
    AtMostTransitive(target, s2, s3, Sweep(pass.cell, Local, s1, localWires));
  }

  // ---- An eDRAM cell whose refinement ends in an invalid bank ----

  /** It leaks less on wires of type 1, but then refreshes too slowly. */
  function ForgetfulCell(): Cell {
    Cell(false, true, (_, _) => false,
         (_, _, _, localWire: Wire, _) =>
           Measured(localWire.wireType == 1,
                    Metrics(1.0, 1.0, 1.0, 1.0, if localWire.wireType == 1 then 1.0 else 2.0, 1.0, 1.0, 1.0)))
  }

  /** Two sets of one byte in a single subarray. */
  predicate TwoSets(b: BankSettings) {
    b == BankSettings(Data, 1, 1, 1, 16, 8, 1, 1, 1, 1, 1, 1, 1, 1, Mux(1, 1, 1), b.areaOptimizationLevel)
  }

  lemma TwoSetsAccepted(b: BankSettings, dram: bool, rejects: Electrical)
    requires TwoSets(b) && forall request :: !rejects(request)
    ensures b.Valid() && b.Clamped() == b && PlanClosed(b, dram, rejects).Accepted?
  {
    KnownPower(1, 0);
    RoundedLog2Exact(1, 16, 8);
    GatingExact(b.numRowMat, b.numColumnMat, b.numActiveMatPerColumn, b.numActiveMatPerRow);
    LoneSubarrayAccepted(ClosedHandOff(b, dram).mat, rejects);
  }

  /** Local refinement trades this cell's valid bank for an invalid one. */
  lemma InvalidBankAdopted(b: BankSettings, valid: Wire, slow: Wire)
    requires TwoSets(b) && valid.wireType == 0 && slow.wireType == 1
    ensures b.Valid()
    ensures var s := Evaluate(ForgetfulCell(), b, valid, valid).stored;
            && Consistent(ForgetfulCell(), Leakage, s)
            && !Consistent(ForgetfulCell(), Leakage, Refined(ForgetfulCell(), Local, Leakage, UNLIMITED, s, [slow]))
  {
    var cell := ForgetfulCell();
    TwoSetsAccepted(b, cell.dram, ElectricalRule(cell, valid));
    TwoSetsAccepted(b, cell.dram, ElectricalRule(cell, slow));
    var s := Evaluate(cell, b, valid, valid).stored;
    var trial := Rewired(cell, Local, s, slow);
    assert trial.invalid && Sweep(cell, Local, s, [slow]) == [trial.stored];
    assert Wins(cell, Local, Leakage, UNLIMITED, s, [slow], 0);
    SweepValidExactly(cell, Local, Leakage, UNLIMITED, s, [slow]);
  }

  // ---- The search under constraints ----

  /** Allowed overheads over the best of each kind. */
  datatype Tolerances = Tolerances(
    readLatency: real, writeLatency: real, readDynamicEnergy: real, writeDynamicEnergy: real,
    readEdp: real, writeEdp: real, area: real, leakage: real)

  /** Limits from the results of the unconstrained run, in the order of the targets. */
  function AllowedLimits(best: seq<Metrics>, t: Tolerances): Limits
    requires |best| == 8
  {
    Limits(best[0].readLatency * (t.readLatency + 1.0),
           best[1].writeLatency * (t.writeLatency + 1.0),
           best[2].readDynamicEnergy * (t.readDynamicEnergy + 1.0),
           best[3].writeDynamicEnergy * (t.writeDynamicEnergy + 1.0),
           best[4].readLatency * best[4].readDynamicEnergy * (t.readEdp + 1.0),
           best[5].writeLatency * best[5].writeDynamicEnergy * (t.writeEdp + 1.0),
           best[7].area * (t.area + 1.0),
           best[6].leakage * (t.leakage + 1.0))
  }

  function ToleranceOf(t: Tolerances, target: Target): real {
    match target
    case ReadLatency => t.readLatency
    case WriteLatency => t.writeLatency
    case ReadEnergy => t.readDynamicEnergy
    case WriteEnergy => t.writeDynamicEnergy
    case ReadEdp => t.readEdp
    case WriteEdp => t.writeEdp
    case Leakage => t.leakage
    case Area => t.area
  }

  /** What tolerance leaves of the best value of each target. */
  function Bounds(best: seq<Metrics>, t: Tolerances): (bounds: seq<real>)
    requires |best| == 8
    ensures |bounds| == 8
  {
    seq(8, i requires 0 <= i < 8 => Objective(TARGETS[i], best[i]) * (ToleranceOf(t, TARGETS[i]) + 1.0))
  }

  /** Every objective stays within its bound. */
  predicate BoundedBy(bounds: seq<real>, m: Metrics)
    requires |bounds| == 8
  {
    forall i :: 0 <= i < 8 ==> Objective(TARGETS[i], m) <= bounds[i]
  }

  lemma OwnLimit(best: seq<Metrics>, t: Tolerances, i: nat)
    requires |best| == 8 && i < 8
    ensures LimitOf(AllowedLimits(best, t), TARGETS[i]) == Bounds(best, t)[i]
  {
  }

  lemma SameBounds(limits: Limits, bounds: seq<real>, m: Metrics)
    requires |bounds| == 8 && forall i :: 0 <= i < 8 ==> LimitOf(limits, TARGETS[i]) == bounds[i]
    ensures limits.Admit(m) <==> BoundedBy(bounds, m)
  {
    AdmitsObjectives(limits, m);
  }

  /** The eight limits together admit exactly the banks within tolerance of the best in
      every objective, each measured against the result of its own target. */
  lemma LimitsAreTolerances(best: seq<Metrics>, t: Tolerances, m: Metrics)
    requires |best| == 8
    ensures AllowedLimits(best, t).Admit(m) <==> BoundedBy(Bounds(best, t), m)
  {
    forall i | 0 <= i < 8 ensures LimitOf(AllowedLimits(best, t), TARGETS[i]) == Bounds(best, t)[i] {
      OwnLimit(best, t, i);
    }
    SameBounds(AllowedLimits(best, t), Bounds(best, t), m);
  }

  /** The filter in `nvsim` admits exactly what the limits in `compareAndUpdate` admit, so
      the second search leaves the same results with it as without it. */
  lemma {:induction false} FilterRedundant(pass: Pass, tuples: seq<seq<int>>, target: Target, limits: Limits, s: Stored)
    ensures BestOf(target, limits, s, Offers(pass.(filter := Within(limits)), tuples))
         == BestOf(target, limits, s, Offers(pass.(filter := Everything), tuples))
    decreases |tuples|
  {
    if tuples == [] {
    } else {
      var v, rest := tuples[0], tuples[1..];
      var some, all := pass.(filter := Within(limits)), pass.(filter := Everything);
      var a, b := OfferOf(some, v), OfferOf(all, v);
      BestOfConcat(target, limits, s, a, Offers(some, rest));
      BestOfConcat(target, limits, s, b, Offers(all, rest));
      assert BestOf(target, limits, s, a) == BestOf(target, limits, s, b) by {
        if b != [] {
          OneOffer(target, limits, s, b[0]);
        }
      }
      FilterRedundant(pass, rest, target, limits, BestOf(target, limits, s, a));
    }
  }

  /** After the second search a result either still has worst-case metrics, and then no
      valid bank within the limits improves on them, or it is the first valid bank that
      minimises its target among those within the limits. */
  lemma ConstrainedOptimal(pass: Pass, tuples: seq<seq<int>>, target: Target, limits: Limits, s: Stored)
    requires s.metrics == WORST
    ensures var all := Offers(pass.(filter := Everything), tuples);
            var best := BestOf(target, limits, s, Offers(pass.(filter := Within(limits)), tuples));
            || (best == s && Unbeaten(target, limits, s, all))
            || (&& limits.Admit(best.metrics)
                && exists k: nat :: FirstMinimum(target, limits, s, all, k) && best == all[k])
  {
    FilterRedundant(pass, tuples, target, limits, s);
    BestIsFirstMinimum(target, limits, s, Offers(pass.(filter := Everything), tuples));
  }

  /** What a result holds after the second search: its worst-case start if no valid bank
      meets the limits, otherwise the first minimum of the banks within the limits. */
  ghost predicate ConstrainedBest(target: Target, limits: Limits, start: Stored, all: seq<Stored>, s: Stored) {
    || (s == start && s.metrics == WORST && forall o :: o in all ==> !limits.Admit(o.metrics))
    || (limits.Admit(s.metrics) && CapacityHolds(s)
        && exists k: nat :: FirstMinimum(target, limits, start, all, k) && s == all[k])
  }

  /** A result is left with worst-case metrics only if no valid bank meets the limits. */
  lemma NoneWithinLimits(pass: Pass, tuples: seq<seq<int>>, target: Target, limits: Limits, s: Stored)
    requires Measurable(pass.cell) && s.metrics == WORST && Unbeaten(target, limits, s, Offers(pass, tuples))
    ensures forall o :: o in Offers(pass, tuples) ==> !limits.Admit(o.metrics)
  {
    forall o | o in Offers(pass, tuples) ensures !limits.Admit(o.metrics) {
      OffersBuilt(pass, tuples, o);
      var j :| 0 <= j < |Offers(pass, tuples)| && Offers(pass, tuples)[j] == o;
    }
  }

  /** The bank kept by the second search conserves capacity as well. */
  lemma ConstrainedHolds(pass: Pass, tuples: seq<seq<int>>, target: Target, limits: Limits, s: Stored)
    requires s.metrics == WORST && pass.filter == Everything && Measurable(pass.cell)
    ensures ConstrainedBest(target, limits, s, Offers(pass, tuples),
                            BestOf(target, limits, s, Offers(pass.(filter := Within(limits)), tuples)))
  {
    assert pass.(filter := Everything) == pass;
    ConstrainedOptimal(pass, tuples, target, limits, s);
    var best := BestOf(target, limits, s, Offers(pass.(filter := Within(limits)), tuples));
    if best == s && Unbeaten(target, limits, s, Offers(pass, tuples)) {
      NoneWithinLimits(pass, tuples, target, limits, s);
    } else {
      OfferHolds(pass, tuples, best);
    }
  }

  lemma OfferHolds(pass: Pass, tuples: seq<seq<int>>, s: Stored)
    requires s in Offers(pass, tuples)
    ensures CapacityHolds(s)
  {
    OffersBuilt(pass, tuples, s);
    TrialConservesCapacity(pass.cell, s.design.settings, pass.localWire, pass.globalWire);
  }

  // ---- The method ----

  /** `refiner` is the cell as refinement sees it: for tag arrays the search sets the layer
      count for every organisation, and refinement runs on whatever count came last. */
  datatype Run = Run(
    ranges: Ranges, pass: Pass, refiner: Cell, localWires: WireRanges, globalWires: WireRanges,
    constraint: Option<Tolerances>)
  {
    ghost predicate Valid() {
      && ranges.Valid() && pass.job.Valid() && pass.filter == Everything
      && Measurable(pass.cell) && refiner.dram == pass.cell.dram
    }

    /** The valid banks of the search. */
    function Banks(): seq<Stored>
      requires ranges.Valid()
    {
      Offers(pass, ranges.Space())
    }

    /** Those within limits. */
    function BanksWithin(limits: Limits): seq<Stored>
      requires ranges.Valid()
    {
      Offers(pass.(filter := Within(limits)), ranges.Space())
    }
  }

  predicate FreshResults(results: seq<Result>)
    reads results
  {
    && |results| == 8 && Distinct(results)
    && forall i :: 0 <= i < 8 ==>
      results[i].optimizationTarget == TARGETS[i] && Empty(results[i].State()) && results[i].limits == UNLIMITED
  }

  /** What the unconstrained run leaves for one target. */
  function Unconstrained(run: Run, target: Target, s0: Stored): Stored
    requires run.ranges.Valid()
  {
    var s1 := BestOf(target, UNLIMITED, s0, run.Banks());
    if run.Banks() == [] then s1
    else Refinements(run.refiner, target, s1, run.localWires.Space(), run.globalWires.Space()).1
  }

  /** A result before any search. */
  const NOTHING: Stored := Stored(Blank, WORST, Wire(0, 0, false), Wire(0, 0, false))

  /** r is what a sweep of a layer's wires leaves of s: the first admitted minimum among the
      trials, or s itself if none beats it. */
  ghost predicate SweptTo(refiner: Cell, layer: Layer, target: Target, s: Stored, wires: seq<Wire>, r: Stored) {
    || (r == s && Unbeaten(target, UNLIMITED, s, Sweep(refiner, layer, s, wires)))
    || exists j: nat :: Wins(refiner, layer, target, UNLIMITED, s, wires, j)
                        && r == Rewired(refiner, layer, s, wires[j]).stored
  }

  /** s refines bank k of the search, which is the first minimum of its banks. */
  ghost predicate Refines(run: Run, target: Target, s: Stored, k: nat)
    requires run.ranges.Valid()
  {
    && FirstMinimum(target, UNLIMITED, NOTHING, run.Banks(), k)
    && s.design == run.Banks()[k].design
    && exists s2 :: && SweptTo(run.refiner, Local, target, run.Banks()[k], run.localWires.Space(), s2)
                    && SweptTo(run.refiner, Global, target, s2, run.globalWires.Space(), s)
  }

  /** No admitted global wire would do better with the stored local wire. */
  ghost predicate GlobalBest(run: Run, target: Target, s: Stored)
    requires Rebuildable(s)
  {
    forall w :: w in run.globalWires.Space() ==>
      var t := Evaluate(run.refiner, s.design.settings, s.localWire, w).stored;
      UNLIMITED.Admit(t.metrics) ==> Objective(target, s.metrics) <= Objective(target, t.metrics)
  }

  /** No admitted local wire would do better with the global wire of the search. */
  ghost predicate LocalBest(run: Run, target: Target, s: Stored)
    requires Rebuildable(s)
  {
    forall w :: w in run.localWires.Space() ==>
      var t := Evaluate(run.refiner, s.design.settings, w, run.pass.globalWire).stored;
      UNLIMITED.Admit(t.metrics) ==> Objective(target, s.metrics) <= Objective(target, t.metrics)
  }

  /** What a run that found anything leaves for one target. */
  ghost predicate Settled(run: Run, target: Target, s: Stored)
    requires run.ranges.Valid()
  {
    && Ready(target, s) && CapacityHolds(s) && AtMost(target, s, run.Banks())
    && GlobalBest(run, target, s) && LocalBest(run, target, s)
    && exists k: nat :: Refines(run, target, s, k)
  }

  lemma SweepReaches(refiner: Cell, layer: Layer, target: Target, s: Stored, wires: seq<Wire>)
    ensures SweptTo(refiner, layer, target, s, wires, Refined(refiner, layer, target, UNLIMITED, s, wires))
  {
    var offers := Sweep(refiner, layer, s, wires);
    BestIsFirstMinimum(target, UNLIMITED, s, offers);
    var r := Refined(refiner, layer, target, UNLIMITED, s, wires);
    if !(r == s && Unbeaten(target, UNLIMITED, s, offers)) {
      var j: nat :| FirstMinimum(target, UNLIMITED, s, offers, j) && r == offers[j];
      assert Wins(refiner, layer, target, UNLIMITED, s, wires, j);
    }
  }

  lemma SweptWire(refiner: Cell, layer: Layer, target: Target, s: Stored, r: Stored, wires: seq<Wire>, w: Wire)
    requires AdmittedAtMost(target, UNLIMITED, r, Sweep(refiner, layer, s, wires)) && w in wires
    ensures var t := Rewired(refiner, layer, s, w).stored;
            UNLIMITED.Admit(t.metrics) ==> Objective(target, r.metrics) <= Objective(target, t.metrics)
  {
    var i :| 0 <= i < |wires| && wires[i] == w;
    assert Sweep(refiner, layer, s, wires)[i] in Sweep(refiner, layer, s, wires);
  }

  lemma SameMinimum(target: Target, s: Stored, offers: seq<Stored>, k: nat)
    requires s.metrics == WORST && FirstMinimum(target, UNLIMITED, s, offers, k)
    ensures FirstMinimum(target, UNLIMITED, NOTHING, offers, k)
  {
  }

  /** Bank k of the search, and what it is refined to. */
  lemma RunRefines(run: Run, target: Target, s0: Stored) returns (k: nat)
    requires run.Valid() && Empty(s0) && run.Banks() != []
    ensures Refines(run, target, Unconstrained(run, target, s0), k)
    ensures BestOf(target, UNLIMITED, s0, run.Banks()) == run.Banks()[k]
  {
    SearchOptimal(run.pass, run.ranges.Space(), target, s0);
    var s1 := BestOf(target, UNLIMITED, s0, run.Banks());
    k :| FirstMinimum(target, UNLIMITED, s0, run.Banks(), k) && s1 == run.Banks()[k];
    SameMinimum(target, s0, run.Banks(), k);
    var (s2, s3) := Refinements(run.refiner, target, s1, run.localWires.Space(), run.globalWires.Space());
    RunOptimal(run.pass, run.refiner, run.ranges.Space(), target, s0, run.localWires.Space(), run.globalWires.Space());
    SweepReaches(run.refiner, Local, target, s1, run.localWires.Space());
    SweepReaches(run.refiner, Global, target, s2, run.globalWires.Space());
  }

  /** If anything was found, every target's result has the organisation of the first best
      bank of the search, conserves capacity, and is best over both layers' wires. */
  lemma UnconstrainedOptimal(run: Run, target: Target, s0: Stored)
    requires run.Valid() && Empty(s0) && run.Banks() != []
    ensures Settled(run, target, Unconstrained(run, target, s0))
  {
    var k := RunRefines(run, target, s0);
    var s1 := BestOf(target, UNLIMITED, s0, run.Banks());
    OffersBuilt(run.pass, run.ranges.Space(), s1);
    RunOptimal(run.pass, run.refiner, run.ranges.Space(), target, s0, run.localWires.Space(), run.globalWires.Space());
    WiresBest(run, target, s1);
  }

  lemma WiresBest(run: Run, target: Target, s1: Stored)
    requires run.Valid() && Ready(target, s1) && s1.globalWire == run.pass.globalWire
    requires var (s2, s3) := Refinements(run.refiner, target, s1, run.localWires.Space(), run.globalWires.Space());
             && Ready(target, s3) && s3.design == s2.design == s1.design && s3.localWire == s2.localWire
             && AdmittedAtMost(target, UNLIMITED, s3, Sweep(run.refiner, Local, s1, run.localWires.Space()))
             && AdmittedAtMost(target, UNLIMITED, s3, Sweep(run.refiner, Global, s2, run.globalWires.Space()))
    ensures var s3 := Refinements(run.refiner, target, s1, run.localWires.Space(), run.globalWires.Space()).1;
            GlobalBest(run, target, s3) && LocalBest(run, target, s3)
  {
    var (s2, s3) := Refinements(run.refiner, target, s1, run.localWires.Space(), run.globalWires.Space());
    forall w | w in run.globalWires.Space()
      ensures var t := Evaluate(run.refiner, s3.design.settings, s3.localWire, w).stored;
              UNLIMITED.Admit(t.metrics) ==> Objective(target, s3.metrics) <= Objective(target, t.metrics)
    {
      SweptWire(run.refiner, Global, target, s2, s3, run.globalWires.Space(), w);
    }
    forall w | w in run.localWires.Space()
      ensures var t := Evaluate(run.refiner, s3.design.settings, w, run.pass.globalWire).stored;
              UNLIMITED.Admit(t.metrics) ==> Objective(target, s3.metrics) <= Objective(target, t.metrics)
    {
      SweptWire(run.refiner, Local, target, s1, s3, run.localWires.Space(), w);
    }
  }

  /** The first search: if it finds anything, every result can be refined. */
  method FirstSearch(run: Run, results: seq<Result>) returns (numSolution: nat)
    requires run.Valid() && FreshResults(results)
    modifies results`design, results`metrics, results`localWire, results`globalWire
    ensures numSolution == |run.Banks()|
    ensures forall i :: 0 <= i < |results| ==>
      results[i].State() == BestOf(TARGETS[i], UNLIMITED, old(results[i].State()), run.Banks())
    ensures numSolution > 0 ==> AllReady(results)
  {
    numSolution := SearchSpace(run.ranges.BigFor(), run.pass, results);
    if numSolution > 0 {
      forall i | 0 <= i < |results| ensures Ready(results[i].optimizationTarget, results[i].State()) {
        SearchReady(run.pass, run.ranges.Space(), TARGETS[i], old(results[i].State()));
      }
    }
  }

  /** Local wires, then global wires. */
  method RefineBoth(localWires: WireRanges, globalWires: WireRanges, refiner: Cell, results: seq<Result>)
    requires Distinct(results) && AllReady(results)
    requires forall i :: 0 <= i < |results| ==> results[i].limits == UNLIMITED
    modifies results`design, results`metrics, results`localWire, results`globalWire
    ensures forall i :: 0 <= i < |results| ==>
      results[i].State() == Refinements(refiner, results[i].optimizationTarget, old(results[i].State()),
                                        localWires.Space(), globalWires.Space()).1
  {
    Refine(localWires.Nest(), refiner, Local, results);
    Refine(globalWires.Nest(), refiner, Global, results);
  }

  /** Every result is settled. */
  ghost predicate AllSettled(run: Run, results: seq<Result>)
    requires run.ranges.Valid()
    reads results
  {
    |results| == 8 && forall i :: 0 <= i < 8 ==> Settled(run, TARGETS[i], results[i].State())
  }

  /** Search, then refine if anything was found: then every result is settled. */
  method SearchAndRefine(run: Run, results: seq<Result>) returns (numSolution: nat)
    requires run.Valid() && FreshResults(results)
    modifies results`design, results`metrics, results`localWire, results`globalWire
    ensures numSolution == |run.Banks()|
    ensures forall i :: 0 <= i < |results| ==>
      results[i].State() == Unconstrained(run, TARGETS[i], old(results[i].State()))
    ensures run.Banks() != [] ==> AllSettled(run, results)
  {
    numSolution := FirstSearch(run, results);
    if numSolution > 0 {
      RefineBoth(run.localWires, run.globalWires, run.refiner, results);
      AllOptimal(run, results, old(seq(8, i requires 0 <= i < 8 reads results => results[i].State())));
    }
  }

  lemma AllOptimal(run: Run, results: seq<Result>, start: seq<Stored>)
    requires run.Valid() && run.Banks() != [] && |results| == |start| == 8
    requires forall i :: 0 <= i < 8 ==>
      Empty(start[i]) && results[i].State() == Unconstrained(run, TARGETS[i], start[i])
    ensures AllSettled(run, results)
  {
    forall i | 0 <= i < 8 ensures Settled(run, TARGETS[i], results[i].State()) {
      UnconstrainedOptimal(run, TARGETS[i], start[i]);
    }
  }

  /** The macro `APPLY_LIMIT` on every result. */
  method ApplyLimits(results: seq<Result>, limits: Limits)
    requires Distinct(results)
    modifies results`metrics, results`limits
    ensures forall i :: 0 <= i < |results| ==>
      results[i].State() == old(results[i].State()).(metrics := WORST) && results[i].limits == limits
  {
    for i := 0 to |results|
      invariant forall j :: 0 <= j < i ==>
        results[j].State() == old(results[j].State()).(metrics := WORST) && results[j].limits == limits
      invariant forall j :: i <= j < |results| ==> results[j].State() == old(results[j].State())
    {
      results[i].Reset();
      results[i].limits := limits;
    }
  }

  /** The unconstrained results are settled if anything was found. */
  ghost predicate BestSettled(run: Run, best: seq<Stored>)
    requires run.ranges.Valid()
  {
    |best| == 8 && (run.Banks() != [] ==> forall i :: 0 <= i < 8 ==> Settled(run, TARGETS[i], best[i]))
  }

  /** The limits come from the unconstrained results. */
  predicate LimitsFrom(best: seq<Stored>, t: Tolerances, limits: Limits) {
    |best| == 8 && limits == AllowedLimits(MetricsOf(best), t)
  }

  /** What the results hold at the end: the unconstrained best, or under constraints what
      the second search found within the limits drawn from it. */
  ghost predicate Finished(run: Run, results: seq<Result>, best: seq<Stored>, limits: Limits)
    requires run.ranges.Valid()
    reads results
  {
    match run.constraint
    case None =>
      |results| == |best| == 8 && forall i :: 0 <= i < 8 ==> results[i].State() == best[i]
    case Some(tolerances) =>
      LimitsFrom(best, tolerances, limits) && AllConstrained(results, limits, Restarted(best), run.Banks())
  }

  /** The data part of `nvsim`. */
  method Optimise(run: Run, results: seq<Result>)
    returns (numSolution: nat, ghost best: seq<Stored>, ghost limits: Limits)
    requires run.Valid() && FreshResults(results)
    modifies results`design, results`metrics, results`localWire, results`globalWire, results`limits
    ensures |best| == 8 && forall i :: 0 <= i < 8 ==> best[i] == Unconstrained(run, TARGETS[i], old(results[i].State()))
    ensures numSolution == if run.constraint == None then |run.Banks()| else |run.BanksWithin(limits)|
    ensures BestSettled(run, best) && Finished(run, results, best, limits)
  {
    numSolution := SearchAndRefine(run, results);
    best := seq(8, i requires 0 <= i < 8 reads results => results[i].State());
    limits := UNLIMITED;
    if run.constraint.Some? {
      numSolution, limits := Constrain(run, run.constraint.value, results, best);
    }
  }

  function MetricsOf(best: seq<Stored>): (m: seq<Metrics>)
    ensures |m| == |best|
  {
    seq(|best|, i requires 0 <= i < |best| => best[i].metrics)
  }

  /** What a reset leaves of stored results. */
  function Restarted(best: seq<Stored>): (start: seq<Stored>)
    ensures |start| == |best| && forall i :: 0 <= i < |best| ==> start[i] == best[i].(metrics := WORST)
  {
    seq(|best|, i requires 0 <= i < |best| => best[i].(metrics := WORST))
  }

  /** Draw the limits from the results, reset them and impose the limits. */
  method Impose(t: Tolerances, results: seq<Result>, ghost best: seq<Stored>) returns (limits: Limits)
    requires |results| == 8 && Distinct(results) && |best| == 8
    requires forall i :: 0 <= i < 8 ==> results[i].State() == best[i] && results[i].optimizationTarget == TARGETS[i]
    modifies results`metrics, results`limits
    ensures limits == AllowedLimits(MetricsOf(best), t)
    ensures Restartable(results, limits, Restarted(best))
  {
    var metrics := seq(8, i requires 0 <= i < 8 reads results => results[i].metrics);
    assert metrics == MetricsOf(best);
    limits := AllowedLimits(metrics, t);
    ApplyLimits(results, limits);
  }

  /** Every result holds the best within the limits. */
  ghost predicate AllConstrained(results: seq<Result>, limits: Limits, start: seq<Stored>, all: seq<Stored>)
    reads results
  {
    && |results| == |start| == 8
    && forall i :: 0 <= i < 8 ==>
      results[i].limits == limits && ConstrainedBest(TARGETS[i], limits, start[i], all, results[i].State())
  }

  /** Results that a second search can start from. */
  predicate Restartable(results: seq<Result>, limits: Limits, start: seq<Stored>)
    reads results
  {
    && |results| == |start| == 8 && Distinct(results)
    && forall i :: 0 <= i < 8 ==>
      && results[i].optimizationTarget == TARGETS[i] && results[i].limits == limits
      && results[i].State() == start[i] && start[i].metrics == WORST
  }

  /** Reset the results, impose the limits and search again. */
  method Constrain(run: Run, t: Tolerances, results: seq<Result>, ghost best: seq<Stored>)
    returns (numSolution: nat, limits: Limits)
    requires run.Valid()
    requires |results| == 8 && Distinct(results) && |best| == 8
    requires forall i :: 0 <= i < 8 ==> results[i].State() == best[i] && results[i].optimizationTarget == TARGETS[i]
    modifies results`design, results`metrics, results`localWire, results`globalWire, results`limits
    ensures LimitsFrom(best, t, limits)
    ensures numSolution == |run.BanksWithin(limits)|
    ensures AllConstrained(results, limits, Restarted(best), run.Banks())
  {
    limits := Impose(t, results, best);
    numSolution := SearchWithin(run, limits, results, Restarted(best));
  }

  /** The second search. */
  method SearchWithin(run: Run, limits: Limits, results: seq<Result>, ghost start: seq<Stored>)
    returns (numSolution: nat)
    requires run.Valid() && Restartable(results, limits, start)
    modifies results`design, results`metrics, results`localWire, results`globalWire
    ensures numSolution == |run.BanksWithin(limits)|
    ensures AllConstrained(results, limits, start, run.Banks())
  {
    numSolution := SearchSpace(run.ranges.BigFor(), run.pass.(filter := Within(limits)), results);
    forall i | 0 <= i < 8
      ensures ConstrainedBest(TARGETS[i], limits, start[i], run.Banks(), results[i].State())
    {
      ConstrainedHolds(run.pass, run.ranges.Space(), TARGETS[i], limits, start[i]);
    }
  }
}
