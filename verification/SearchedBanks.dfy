/** Which organisations the search visits and offers, said without its loop nest. */
module SearchedBanks {
  import opened PowersOfTwo
  import opened Organisation
  import opened Acceptance
  import opened LoopNest
  import opened Results
  import opened Trials
  import opened Search

  /** x is lo doubled some number of times, and at most hi. */
  ghost predicate Doubled(lo: int, x: int, hi: int) {
    x <= hi && exists e: nat :: DoubledTimes(lo, x, e)
  }

  /** Where a counter starts: at its minimum, but active counts not above what there is. */
  function Start(r: Ranges, w: seq<int>, k: nat): int
    requires r.Valid() && |w| == 14 && k < 14
  {
    if k == 3 then Min(w[1], r.min[3])
    else if k == 4 then Min(w[0], r.min[4])
    else if k == 7 then Min(w[6], r.min[7])
    else if k == 8 then Min(w[5], r.min[8])
    else r.min[k]
  }

  /** Where it ends: the rows per set also not above the associativity. */
  function End(r: Ranges, w: seq<int>, k: nat): int
    requires r.Valid() && |w| == 14 && k < 14
  {
    if k == 3 then Min(w[1], r.max[3])
    else if k == 4 then Min(w[0], r.max[4])
    else if k == 7 then Min(w[6], r.max[7])
    else if k == 8 then Min(w[5], r.max[8])
    else if k == 12 then Min(r.max[12], r.associativity)
    else r.max[k]
  }

  ghost predicate InSpace(r: Ranges, w: seq<int>)
    requires r.Valid()
  {
    && |w| == 14
    && (forall k: nat :: k < 13 ==> Doubled(Start(r, w, k), w[k], End(r, w, k)))
    && r.min[13] <= w[13] <= r.max[13]
  }

  lemma DoubledByLoop(lo: int, x: int, hi: int)
    requires lo >= 1
    ensures Doubled(lo, x, hi) <==> Doublings(lo, x) && x <= hi
  {
    DoublingsAreMultiples(lo, x);
  }

  lemma StepIsDoubled(r: Ranges, w: seq<int>, k: nat)
    requires r.Valid() && |w| == 14 && k < 13
    requires WellFormed(r.BigFor()) && Positive(r.BigFor(), w)
    ensures Step(r.BigFor(), w, k) <==> Doubled(Start(r, w, k), w[k], End(r, w, k))
  {
    var nest := r.BigFor();
    assert nest[k].cap == Cap(k) && nest[k].doubling;
    assert Positive(nest, w[..k]);
    assert Lo(nest, w[..k]) == Start(r, w, k) && Hi(nest, w[..k]) == End(r, w, k);
    assert Start(r, w, k) >= 1 by {
      assert nest[0].doubling && nest[1].doubling && nest[5].doubling && nest[6].doubling;
      assert IsPow2(r.min[k]);
    }
    DoubledByLoop(Start(r, w, k), w[k], End(r, w, k));
    assert Step(nest, w, k) <==> Reaches(nest[k], Lo(nest, w[..k]), w[k]) && w[k] <= Hi(nest, w[..k]);
  }

  lemma LastStep(r: Ranges, w: seq<int>)
    requires r.Valid() && |w| == 14 && WellFormed(r.BigFor()) && Positive(r.BigFor(), w)
    ensures Step(r.BigFor(), w, 13) <==> r.min[13] <= w[13] <= r.max[13]
  {
    assert Lo(r.BigFor(), w[..13]) == r.min[13];
  }

  /** Counters in the space are positive. */
  lemma {:induction false} SpacePositive(r: Ranges, w: seq<int>, k: nat)
    requires r.Valid() && InSpace(r, w) && k < 13
    ensures w[k] >= 1
    decreases k
  {
    var lo := Start(r, w, k);
    if k == 3 {
      SpacePositive(r, w, 1);
    } else if k == 4 {
      SpacePositive(r, w, 0);
    } else if k == 7 {
      SpacePositive(r, w, 6);
    } else if k == 8 {
      SpacePositive(r, w, 5);
    }
    assert Doubled(lo, w[k], End(r, w, k));
    var e: nat :| DoubledTimes(lo, w[k], e);
    MulLe(lo, 1, Pow2(e));
  }

  /** The search visits an organisation exactly when every counter is its start doubled some
      number of times and at most its end, and the buffer target is in its range. */
  lemma SpaceExact(r: Ranges, w: seq<int>)
    requires r.Valid()
    ensures w in r.Space() <==> InSpace(r, w)
  {
    var nest := r.BigFor();
    NestCounters(nest);
    TuplesBySteps(nest, w);
    if InSpace(r, w) {
      forall k | 0 <= k < 14 && nest[k].doubling ensures w[k] >= 1 {
        SpacePositive(r, w, k);
      }
    }
    if |w| == 14 && Positive(nest, w) {
      LastStep(r, w);
      forall k: nat | k < 13 ensures Step(nest, w, k) <==> Doubled(Start(r, w, k), w[k], End(r, w, k)) {
        StepIsDoubled(r, w, k);
      }
    }
  }

  /** It visits them in the order of the loops, outermost first, and none twice. */
  lemma SpaceOrdered(r: Ranges)
    requires r.Valid()
    ensures Ordered(r.Space())
  {
    BigForWellFormed(r.BigFor());
    TuplesOrdered(r.BigFor(), []);
  }

  // ---- The banks that are built ----

  /** The dimensions of a bank are within the bounds of the search. */
  ghost predicate WithinRanges(r: Ranges, b: BankSettings)
    requires r.Valid()
  {
    && Doubled(r.min[0], b.numRowMat, r.max[0])
    && Doubled(r.min[1], b.numColumnMat, r.max[1])
    && Doubled(r.min[2], b.stackedDieCount, r.max[2])
    && Doubled(Min(b.numColumnMat, r.min[3]), b.numActiveMatPerRow, Min(b.numColumnMat, r.max[3]))
    && Doubled(Min(b.numRowMat, r.min[4]), b.numActiveMatPerColumn, Min(b.numRowMat, r.max[4]))
    && Doubled(r.min[5], b.numRowSubarray, r.max[5])
    && Doubled(r.min[6], b.numColumnSubarray, r.max[6])
    && Doubled(Min(b.numColumnSubarray, r.min[7]), b.numActiveSubarrayPerRow, Min(b.numColumnSubarray, r.max[7]))
    && Doubled(Min(b.numRowSubarray, r.min[8]), b.numActiveSubarrayPerColumn, Min(b.numRowSubarray, r.max[8]))
    && Doubled(r.min[9], b.mux.senseAmp, r.max[9])
    && Doubled(r.min[10], b.mux.outputLev1, r.max[10])
    && Doubled(r.min[11], b.mux.outputLev2, r.max[11])
    && Doubled(r.min[12], b.numRowPerSet, Min(r.max[12], r.associativity))
    && r.min[13] <= b.areaOptimizationLevel <= r.max[13]
  }

  /** Blocks that share a word or a tag. */
  function Partitions(b: BankSettings): int {
    b.numActiveMatPerRow * b.numActiveMatPerColumn * b.numActiveSubarrayPerRow * b.numActiveSubarrayPerColumn
  }

  /** The bank is one for the job: it has at least as many bits to read as active blocks, and
      a tag is as wide as the least multiple of the active blocks that holds it. */
  ghost predicate For(job: Job, b: BankSettings) {
    && Partitions(b) > 0
    && match job
       case DataJob(capacity, blockSize, associativity) =>
         && b.memoryType == Data && b.capacity == capacity && b.blockSize == blockSize
         && b.associativity == associativity && Partitions(b) <= blockSize
       case TagJob(lines, tagWidth, associativity) =>
         && b.memoryType == Tag && b.associativity == associativity && Partitions(b) <= tagWidth
         && b.capacity == lines * b.blockSize
         && b.blockSize % Partitions(b) == 0 && tagWidth <= b.blockSize < tagWidth + Partitions(b)
  }

  /** A valid trial of this bank that passes the filter. */
  ghost predicate OfferedBy(pass: Pass, b: BankSettings, s: Stored) {
    && b.Valid()
    && Evaluate(pass.cell, b, pass.localWire, pass.globalWire) == Trial(false, s)
    && (pass.filter.Within? ==> pass.filter.limits.Admit(s.metrics))
  }

  function CountersOf(b: BankSettings): (w: seq<int>)
    ensures |w| == 14
  {
    [b.numRowMat, b.numColumnMat, b.stackedDieCount, b.numActiveMatPerRow, b.numActiveMatPerColumn,
     b.numRowSubarray, b.numColumnSubarray, b.numActiveSubarrayPerRow, b.numActiveSubarrayPerColumn,
     b.mux.senseAmp, b.mux.outputLev1, b.mux.outputLev2, b.numRowPerSet, b.areaOptimizationLevel]
  }

  lemma RangesByCounter(r: Ranges, b: BankSettings)
    requires r.Valid()
    ensures WithinRanges(r, b) <==> InSpace(r, CountersOf(b))
  {
    var w := CountersOf(b);
    if WithinRanges(r, b) {
      forall k: nat | k < 13 ensures Doubled(Start(r, w, k), w[k], End(r, w, k)) {
      }
    }
    if InSpace(r, w) {
      assert forall k: nat :: k < 13 ==> Doubled(Start(r, w, k), w[k], End(r, w, k));
      assert Doubled(Start(r, w, 0), w[0], End(r, w, 0)) && Doubled(Start(r, w, 1), w[1], End(r, w, 1));
      assert Doubled(Start(r, w, 2), w[2], End(r, w, 2)) && Doubled(Start(r, w, 3), w[3], End(r, w, 3));
      assert Doubled(Start(r, w, 4), w[4], End(r, w, 4)) && Doubled(Start(r, w, 5), w[5], End(r, w, 5));
      assert Doubled(Start(r, w, 6), w[6], End(r, w, 6)) && Doubled(Start(r, w, 7), w[7], End(r, w, 7));
      assert Doubled(Start(r, w, 8), w[8], End(r, w, 8)) && Doubled(Start(r, w, 9), w[9], End(r, w, 9));
      assert Doubled(Start(r, w, 10), w[10], End(r, w, 10)) && Doubled(Start(r, w, 11), w[11], End(r, w, 11));
      assert Doubled(Start(r, w, 12), w[12], End(r, w, 12));
    }
  }

  /** A job prepares exactly one bank from its counters, or none. */
  lemma PreparedExactly(job: Job, b: BankSettings)
    requires job.Valid() && Partitions(b) > 0
    ensures var w := CountersOf(b);
            w[3] * w[4] * w[7] * w[8] > 0 && (Prepare(job, w) == Some(b) <==> For(job, b))
  {
    var w, p := CountersOf(b), Partitions(b);
    match job
    case DataJob(capacity, blockSize, associativity) =>
      FitsPartitions(blockSize, p);
    case TagJob(lines, tagWidth, associativity) =>
      FitsPartitions(tagWidth, p);
      RoundedWidthLeast(tagWidth, p, b.blockSize);
      if b.blockSize % p == 0 && tagWidth <= b.blockSize < tagWidth + p {
        SameMultiple(RoundedWidth(tagWidth, p), b.blockSize, p);
      }
  }

  lemma FitsPartitions(n: int, p: int)
    requires n > 0 && p > 0
    ensures n / p == 0 <==> n < p
  {
    if n < p {
      QuotientUnique(n, p, 0, n);
    } else if n / p <= 0 {
      MulLe(p, n / p, 0);
    }
  }

  /** Two multiples of p less than p apart are the same. */
  lemma SameMultiple(x: int, y: int, p: int)
    requires p > 0 && x % p == 0 && y % p == 0 && x <= y < x + p
    ensures x == y
  {
    var a, b := x / p, y / p;
    if a < b {
      MulLe(p, a + 1, b);
    } else if b < a {
      MulLe(p, b + 1, a);
    }
  }

  /** The search offers exactly the valid trials, passing the filter, of every bank for the
      job whose dimensions are within the bounds. */
  lemma OffersAreTrials(pass: Pass, r: Ranges, s: Stored)
    requires pass.job.Valid() && r.Valid()
    ensures s in Offers(pass, r.Space())
       <==> exists b :: WithinRanges(r, b) && For(pass.job, b) && OfferedBy(pass, b, s)
  {
    var space := r.Space();
    OffersExact(pass, space, s);
    if i :| 0 <= i < |space| && s in OfferOf(pass, space[i]) {
      TupleOffer(pass, r, space[i], s);
    }
    if b :| WithinRanges(r, b) && For(pass.job, b) && OfferedBy(pass, b, s) {
      RangesByCounter(r, b);
      SpaceExact(r, CountersOf(b));
      BankOffer(pass, r, b, s);
    }
  }

  lemma SettingsHaveCounters(job: Job, w: seq<int>)
    requires job.Valid() && Counters(w) && w[3] * w[4] * w[7] * w[8] > 0 && Prepare(job, w).Some?
    ensures CountersOf(Prepare(job, w).value) == w && Partitions(Prepare(job, w).value) == w[3] * w[4] * w[7] * w[8]
  {
  }

  /** An organisation that offers anything is prepared as a valid bank. */
  lemma TupleBank(pass: Pass, w: seq<int>, s: Stored) returns (b: BankSettings)
    requires pass.job.Valid() && s in OfferOf(pass, w)
    ensures Counters(w) && w[3] * w[4] * w[7] * w[8] > 0 && Prepare(pass.job, w) == Some(b)
    ensures b.Valid() && CountersOf(b) == w && Partitions(b) > 0
  {
    PreparedCountable(pass.job, w);
    b := Prepare(pass.job, w).value;
    SettingsHaveCounters(pass.job, w);
  }

  lemma TupleOffer(pass: Pass, r: Ranges, w: seq<int>, s: Stored)
    requires pass.job.Valid() && r.Valid() && w in r.Space() && s in OfferOf(pass, w)
    ensures exists b :: WithinRanges(r, b) && For(pass.job, b) && OfferedBy(pass, b, s)
  {
    var b := TupleBank(pass, w, s);
    SpaceExact(r, w);
    RangesByCounter(r, b);
    PreparedExactly(pass.job, b);
    OfferIsTrial(pass, w, b, s);
  }

  lemma OfferIsTrial(pass: Pass, w: seq<int>, b: BankSettings, s: Stored)
    requires pass.job.Valid() && Counters(w) && b.Valid() && w[3] * w[4] * w[7] * w[8] > 0
    requires Prepare(pass.job, w) == Some(b)
    ensures s in OfferOf(pass, w) <==> OfferedBy(pass, b, s)
  {
  }

  lemma BankOffer(pass: Pass, r: Ranges, b: BankSettings, s: Stored)
    requires pass.job.Valid() && r.Valid() && CountersOf(b) in r.Space() && For(pass.job, b) && OfferedBy(pass, b, s)
    ensures exists i :: 0 <= i < |r.Space()| && s in OfferOf(pass, r.Space()[i])
  {
    var w := CountersOf(b);
    var i :| 0 <= i < |r.Space()| && r.Space()[i] == w;
    PreparedExactly(pass.job, b);
    OfferIsTrial(pass, w, b, s);
  }

  // ---- What a trial is ----

  /** The electrical rule of a cell under one local wire. */
  ghost predicate RuleOf(cell: Cell, localWire: Wire, rule: Electrical) {
    forall request :: rule(request) == cell.rejects(request, localWire)
  }

  /** A trial builds a bank exactly when the bank is legal and its mat works under the rule of
      the local wire; it is then measured with its own rows and columns and on both wires. */
  lemma TrialExactly(cell: Cell, settings: BankSettings, localWire: Wire, globalWire: Wire, m: MatSettings,
                     rule: Electrical)
    requires settings.Valid() && m.Valid() && Handed(settings.Clamped(), cell.dram, m) && RuleOf(cell, localWire, rule)
    ensures var s := Evaluate(cell, settings, localWire, globalWire).stored;
            s.localWire == localWire && s.globalWire == globalWire
    ensures var t := Evaluate(cell, settings, localWire, globalWire);
            if Legal(settings.Clamped()) && Works(m, rule) then
              var r := Request(m);
              && t.stored.design == Built(settings.Clamped(), r.numRow, r.numColumn)
              && Measured(t.invalid, t.stored.metrics)
                 == cell.measure(settings.Clamped(), r.numRow, r.numColumn, localWire, globalWire)
            else
              t.invalid && t.stored.design == Blank && t.stored.metrics == WORST
  {
    BankAcceptedExactly(settings, cell.dram, ElectricalRule(cell, localWire), m);
    assert Works(m, rule) <==> Works(m, ElectricalRule(cell, localWire));
  }
}
