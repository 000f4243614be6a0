/** Stored results: `Result::compareAndUpdate`, `Result::reset` and what a run of
    comparisons leaves behind. */
module Results {
  import opened Organisation

  /** What a bank is judged by. */
  datatype Metrics = Metrics(
    readLatency: real, writeLatency: real, readDynamicEnergy: real, writeDynamicEnergy: real,
    leakage: real, area: real, height: real, width: real)

  /** 1e41 */
  const INVALID_VALUE: real := 100000000000000000000000000000000000000000.0
  const WORST: Metrics :=
    Metrics(INVALID_VALUE, INVALID_VALUE, INVALID_VALUE, INVALID_VALUE,
            INVALID_VALUE, INVALID_VALUE, INVALID_VALUE, INVALID_VALUE)

  datatype Target = ReadLatency | WriteLatency | ReadEnergy | WriteEnergy | ReadEdp | WriteEdp | Leakage | Area

  const TARGETS: seq<Target> := [ReadLatency, WriteLatency, ReadEnergy, WriteEnergy, ReadEdp, WriteEdp, Leakage, Area]

  function Objective(target: Target, m: Metrics): real {
    match target
    case ReadLatency => m.readLatency
    case WriteLatency => m.writeLatency
    case ReadEnergy => m.readDynamicEnergy
    case WriteEnergy => m.writeDynamicEnergy
    case ReadEdp => m.readLatency * m.readDynamicEnergy
    case WriteEdp => m.writeLatency * m.writeDynamicEnergy
    case Leakage => m.leakage
    case Area => m.area
  }

  datatype Limits = Limits(
    readLatency: real, writeLatency: real, readDynamicEnergy: real, writeDynamicEnergy: real,
    readEdp: real, writeEdp: real, area: real, leakage: real)
  {
    predicate Admit(m: Metrics) {
      && m.readLatency <= readLatency && m.writeLatency <= writeLatency
      && m.readDynamicEnergy <= readDynamicEnergy && m.writeDynamicEnergy <= writeDynamicEnergy
      && m.readLatency * m.readDynamicEnergy <= readEdp
      && m.writeLatency * m.writeDynamicEnergy <= writeEdp
      && m.area <= area && m.leakage <= leakage
    }
  }

  const UNLIMITED: Limits :=
    Limits(INVALID_VALUE, INVALID_VALUE, INVALID_VALUE, INVALID_VALUE,
           INVALID_VALUE, INVALID_VALUE, INVALID_VALUE, INVALID_VALUE)

  function LimitOf(limits: Limits, target: Target): real {
    match target
    case ReadLatency => limits.readLatency
    case WriteLatency => limits.writeLatency
    case ReadEnergy => limits.readDynamicEnergy
    case WriteEnergy => limits.writeDynamicEnergy
    case ReadEdp => limits.readEdp
    case WriteEdp => limits.writeEdp
    case Leakage => limits.leakage
    case Area => limits.area
  }

  /** The limits bound every objective by its own limit, and nothing else. */
  lemma AdmitsObjectives(limits: Limits, m: Metrics)
    ensures limits.Admit(m) <==> forall i :: 0 <= i < 8 ==> Objective(TARGETS[i], m) <= LimitOf(limits, TARGETS[i])
  {
    assert TARGETS[0] == ReadLatency && TARGETS[1] == WriteLatency && TARGETS[2] == ReadEnergy
        && TARGETS[3] == WriteEnergy;
    assert TARGETS[4] == ReadEdp && TARGETS[5] == WriteEdp && TARGETS[6] == Leakage && TARGETS[7] == Area;
  }

  datatype Wire = Wire(wireType: int, repeaterType: int, isLowSwing: bool)

  /** A built bank: its settings and the subarray they led to. */
  datatype Design = Blank | Built(settings: BankSettings, numRow: int, numColumn: int)

  /** The copy of a bank and its wires that a result holds. */
  datatype Stored = Stored(design: Design, metrics: Metrics, localWire: Wire, globalWire: Wire)

  /** What one comparison leaves stored. */
  function Better(target: Target, limits: Limits, held: Stored, offered: Stored): Stored {
    if limits.Admit(offered.metrics) && Objective(target, offered.metrics) < Objective(target, held.metrics)
    then offered else held
  }

  /** What a run of comparisons leaves stored. */
  function BestOf(target: Target, limits: Limits, held: Stored, offers: seq<Stored>): Stored
    decreases |offers|
  {
    if offers == [] then held
    else BestOf(target, limits, Better(target, limits, held, offers[0]), offers[1..])
  }

  lemma {:induction false} BestOfConcat(target: Target, limits: Limits, held: Stored, a: seq<Stored>, b: seq<Stored>)
    ensures BestOf(target, limits, held, a + b) == BestOf(target, limits, BestOf(target, limits, held, a), b)
    decreases |a|
  {
    if a == [] {
      assert a + b == b;
    } else {
      assert (a + b)[0] == a[0] && (a + b)[1..] == a[1..] + b;
      BestOfConcat(target, limits, Better(target, limits, held, a[0]), a[1..], b);
    }
  }

  /** Offer k wins: it is admitted, beats what was held, beats every admitted offer
      before it and is beaten by none after it. */
  predicate FirstMinimum(target: Target, limits: Limits, held: Stored, offers: seq<Stored>, k: nat)
  {
    && k < |offers| && limits.Admit(offers[k].metrics)
    && Objective(target, offers[k].metrics) < Objective(target, held.metrics)
    && (forall j :: 0 <= j < k && limits.Admit(offers[j].metrics) ==>
          Objective(target, offers[k].metrics) < Objective(target, offers[j].metrics))
    && (forall j :: k < j < |offers| && limits.Admit(offers[j].metrics) ==>
          Objective(target, offers[k].metrics) <= Objective(target, offers[j].metrics))
  }

  /** No admitted offer beats what is held. */
  predicate Unbeaten(target: Target, limits: Limits, held: Stored, offers: seq<Stored>) {
    forall j :: 0 <= j < |offers| && limits.Admit(offers[j].metrics) ==>
      Objective(target, held.metrics) <= Objective(target, offers[j].metrics)
  }

  /** A run of comparisons keeps the first minimum of the admitted offers, or what was
      held if none beats it. */
  lemma {:induction false} BestIsFirstMinimum(target: Target, limits: Limits, held: Stored, offers: seq<Stored>)
    ensures var best := BestOf(target, limits, held, offers);
            || (best == held && Unbeaten(target, limits, held, offers))
            || (exists k: nat :: FirstMinimum(target, limits, held, offers, k) && best == offers[k])
    decreases |offers|
  {
    if offers == [] {
    } else {
      var next, rest := Better(target, limits, held, offers[0]), offers[1..];
      BestIsFirstMinimum(target, limits, next, rest);
      var best := BestOf(target, limits, held, offers);
      if best == next && Unbeaten(target, limits, next, rest) {
        if next != held {
          UnbeatenFromFirst(target, limits, held, offers);
        } else {
          UnbeatenLonger(target, limits, held, offers);
        }
      } else {
        var k: nat :| FirstMinimum(target, limits, next, rest, k) && best == rest[k];
        LaterMinimum(target, limits, held, offers, k);
      }
    }
  }

  lemma UnbeatenFromFirst(target: Target, limits: Limits, held: Stored, offers: seq<Stored>)
    requires offers != [] && Better(target, limits, held, offers[0]) != held
    requires Unbeaten(target, limits, offers[0], offers[1..])
    ensures FirstMinimum(target, limits, held, offers, 0)
  {
    forall j | 0 < j < |offers| && limits.Admit(offers[j].metrics)
      ensures Objective(target, offers[0].metrics) <= Objective(target, offers[j].metrics)
    {
      assert offers[j] == offers[1..][j - 1];
    }
  }

  lemma UnbeatenLonger(target: Target, limits: Limits, held: Stored, offers: seq<Stored>)
    requires offers != [] && Better(target, limits, held, offers[0]) == held
    requires Unbeaten(target, limits, held, offers[1..])
    ensures Unbeaten(target, limits, held, offers)
  {
    forall j | 0 <= j < |offers| && limits.Admit(offers[j].metrics)
      ensures Objective(target, held.metrics) <= Objective(target, offers[j].metrics)
    {
      if j > 0 {
        assert offers[j] == offers[1..][j - 1];
      }
    }
  }

  lemma LaterMinimum(target: Target, limits: Limits, held: Stored, offers: seq<Stored>, k: nat)
    requires offers != []
    requires FirstMinimum(target, limits, Better(target, limits, held, offers[0]), offers[1..], k)
    ensures FirstMinimum(target, limits, held, offers, k + 1)
  {
    var rest := offers[1..];
    assert offers[k + 1] == rest[k];
    forall j | 0 <= j < |offers| && limits.Admit(offers[j].metrics)
      ensures j < k + 1 ==> Objective(target, offers[k + 1].metrics) < Objective(target, offers[j].metrics)
      ensures k + 1 < j ==> Objective(target, offers[k + 1].metrics) <= Objective(target, offers[j].metrics)
    {
      if j > 0 {
        assert offers[j] == rest[j - 1];
      }
    }
  }

  class Result {
    const optimizationTarget: Target
    var design: Design
    var metrics: Metrics
    var localWire: Wire
    var globalWire: Wire
    var limits: Limits
    var cellTech: int

    function State(): Stored
      reads this
    {
      Stored(design, metrics, localWire, globalWire)
    }

    constructor (target: Target)
      ensures optimizationTarget == target && metrics == WORST && design == Blank && limits == UNLIMITED
    {
      optimizationTarget := target;
      design, metrics, limits := Blank, WORST, UNLIMITED;
      localWire, globalWire := Wire(0, 0, false), Wire(0, 0, false);
      cellTech := 0;
    }

    /** The metrics go back to the worst case; the bank's other fields stay. */
    method Reset()
      modifies this`metrics
      ensures State() == old(State()).(metrics := WORST)
    {
      metrics := WORST;
    }

    /** Take over the offered bank and wires if they are admitted and better. The other
        result is only read, so what it holds is passed. */
    method CompareAndUpdate(offered: Stored) returns (toUpdate: bool)
      modifies this`design, this`metrics, this`localWire, this`globalWire
      ensures State() == Better(optimizationTarget, limits, old(State()), offered)
      ensures toUpdate <==>
        limits.Admit(offered.metrics)
            && Objective(optimizationTarget, offered.metrics) < Objective(optimizationTarget, old(metrics))
    {
      toUpdate := false;
      var m := offered.metrics;
      if limits.Admit(m) {
        match optimizationTarget {
          case ReadLatency => toUpdate := m.readLatency < metrics.readLatency;
          case WriteLatency => toUpdate := m.writeLatency < metrics.writeLatency;
          case ReadEnergy => toUpdate := m.readDynamicEnergy < metrics.readDynamicEnergy;
          case WriteEnergy => toUpdate := m.writeDynamicEnergy < metrics.writeDynamicEnergy;
          case ReadEdp =>
            toUpdate := m.readLatency * m.readDynamicEnergy < metrics.readLatency * metrics.readDynamicEnergy;
          case WriteEdp =>
            toUpdate := m.writeLatency * m.writeDynamicEnergy < metrics.writeLatency * metrics.writeDynamicEnergy;
          case Leakage => toUpdate := m.leakage < metrics.leakage;
          case Area => toUpdate := m.area < metrics.area;
        }
        if toUpdate {
          design, metrics := offered.design, m;
          localWire, globalWire := offered.localWire, offered.globalWire;
        }
      }
    }
  }
}
