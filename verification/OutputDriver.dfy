/** Inverter-chain sizing, after `OutputDriver::Initialize`. */
module OutputDriver {
  import opened Reals

  datatype DesignTarget = LatencyFirst | LatencyAreaTradeOff | AreaFirst

  const MAX_INV_CHAIN_LEN: int := 20

  /** Device figures: the width limits, P/N ratio, gate capacitance of a width, the rounded
      stage count of a total effort, and the root the source writes as pow(F, 1.0 / k). */
  datatype Device = Device(
    minWidth: real, maxWidth: real, pnSizeRatio: real,
    gateCap: real -> real, stages: real -> int, root: (real, nat) -> real)

  function RealPower(x: real, k: nat): real {
    if k == 0 then 1.0 else x * RealPower(x, k - 1)
  }

  ghost predicate RealDevice(d: Device) {
    && 0.0 < d.minWidth && 0.0 < d.maxWidth && d.pnSizeRatio > 0.0
    && (forall w: real :: w > 0.0 ==> d.gateCap(w) > 0.0)
    && forall f: real, k: nat :: f > 0.0 && k >= 1 ==> d.root(f, k) > 0.0 && RealPower(d.root(f, k), k) == f
  }

  lemma {:induction false} PowerAtLeastOne(x: real, k: nat)
    requires x >= 1.0
    ensures RealPower(x, k) >= 1.0
  {
    if k > 0 {
      PowerAtLeastOne(x, k - 1);
      Grow(x, RealPower(x, k - 1));
    }
  }

  lemma Grow(x: real, y: real)
    requires x >= 1.0 && y >= 1.0
    ensures x * y >= 1.0
  {
    assert (x - 1.0) * y >= 0.0;
    assert x * y == (x - 1.0) * y + y;
  }

  lemma {:induction false} PowerBelowOne(x: real, k: nat)
    requires 0.0 < x < 1.0 && k >= 1
    ensures 0.0 < RealPower(x, k) < 1.0
  {
    if k > 1 {
      PowerBelowOne(x, k - 1);
      Shrink(x, RealPower(x, k - 1));
    }
  }

  lemma Shrink(x: real, y: real)
    requires 0.0 < x < 1.0 && 0.0 < y < 1.0
    ensures 0.0 < x * y < 1.0
  {
    assert (1.0 - x) * y > 0.0;
    assert x * y == y - (1.0 - x) * y;
  }

  /** The effort per stage is at least one exactly when the total effort is. */
  lemma RootAtLeastOne(d: Device, f: real, k: nat)
    requires RealDevice(d) && f > 0.0 && k >= 1
    ensures d.root(f, k) >= 1.0 <==> f >= 1.0
  {
    if d.root(f, k) >= 1.0 {
      PowerAtLeastOne(d.root(f, k), k);
    } else {
      PowerBelowOne(d.root(f, k), k);
    }
  }

  /** What the chain must drive, what drives it, and whether it has to invert. */
  datatype Load = Load(logicEffort: real, inputCap: real, outputCap: real, minDriverWidth: real, inverting: bool) {
    predicate Positive() {
      logicEffort > 0.0 && inputCap > 0.0 && outputCap > 0.0
    }

    /** The required drive width is at least the minimum width. */
    function Driving(d: Device): Load {
      this.(minDriverWidth := Max(d.minWidth, minDriverWidth))
    }
  }

  function Max(a: real, b: real): real {
    if a < b then b else a
  }

  /** Total effort of the chain towards a capacitance, at least one. */
  function Effort(l: Load, cap: real): real
    requires l.Positive()
  {
    Max(1.0, l.logicEffort * cap / l.inputCap)
  }

  /** The effort recomputed once the last stage is clamped to the maximum width. */
  function ClampedEffort(d: Device, l: Load): real
    requires l.Positive()
  {
    l.logicEffort * d.gateCap((1.0 + d.pnSizeRatio) * d.maxWidth) / l.inputCap
  }

  /** Stages for a total effort, less one. */
  function BaseStages(d: Device, effort: real): (n: int)
    ensures n >= 0
  {
    if d.stages(effort) - 1 > 0 then d.stages(effort) - 1 else 0
  }

  /** Stages of the latency-first chain: odd if it inverts, even if not, unless capped. */
  function LatencyStages(d: Device, effort: real, inverting: bool): (n: int)
    ensures 0 <= n <= MAX_INV_CHAIN_LEN && (inverting ==> n >= 1)
    ensures n == MAX_INV_CHAIN_LEN || (n % 2 == 1 <==> inverting)
    ensures n < MAX_INV_CHAIN_LEN ==> d.stages(effort) - 1 <= n && (n <= 1 || n <= d.stages(effort))
    ensures n == MAX_INV_CHAIN_LEN ==>
      d.stages(effort) > MAX_INV_CHAIN_LEN || (d.stages(effort) == MAX_INV_CHAIN_LEN && !inverting)
  {
    var n := BaseStages(d, effort);
    var parity := if (n % 2 == 1) != inverting then n + 1 else n;
    if parity > MAX_INV_CHAIN_LEN then MAX_INV_CHAIN_LEN else parity
  }

  /** Stages before the last of the trade-off chain: even if it inverts, odd if not, unless
      capped. */
  function TradeOffStages(d: Device, effort: real, inverting: bool): (n: int)
    ensures 0 <= n <= MAX_INV_CHAIN_LEN
    ensures n == MAX_INV_CHAIN_LEN || (n % 2 == 0 <==> inverting)
    ensures n < MAX_INV_CHAIN_LEN ==> d.stages(effort) - 1 <= n && (n <= 1 || n <= d.stages(effort))
    ensures n == MAX_INV_CHAIN_LEN ==>
      d.stages(effort) > MAX_INV_CHAIN_LEN || (d.stages(effort) == MAX_INV_CHAIN_LEN && inverting)
  {
    var n := BaseStages(d, effort);
    var parity := if (n % 2 == 1) == inverting then n + 1 else n;
    if parity > MAX_INV_CHAIN_LEN then MAX_INV_CHAIN_LEN else parity
  }

  /** Stages of the latency-first chain for a load. */
  function Stages(d: Device, l: Load): (n: int)
    requires l.Positive()
    ensures 0 <= n <= MAX_INV_CHAIN_LEN && (l.inverting ==> n >= 1)
    ensures n == MAX_INV_CHAIN_LEN || (n % 2 == 1 <==> l.inverting)
  {
    LatencyStages(d, Effort(l, l.outputCap), l.inverting)
  }

  /** Stages before the last of the trade-off chain for a load. */
  function StagesBeforeLast(d: Device, l: Load): (n: int)
    requires l.Positive()
    ensures 0 <= n <= MAX_INV_CHAIN_LEN
    ensures n == MAX_INV_CHAIN_LEN || (n % 2 == 0 <==> l.inverting)
  {
    TradeOffStages(d, TradeOffEffort(d, l), l.inverting)
  }

  /** Total effort of the trade-off chain. */
  function TradeOffEffort(d: Device, l: Load): real
    requires l.Positive()
  {
    Effort(l, d.gateCap(l.minDriverWidth) * (1.0 + d.pnSizeRatio))
  }

  /** Width the latency-first chain asks of its last stage, and the effort per stage. */
  function LastWidth(d: Device, l: Load): real
    requires RealDevice(d) && l.Positive()
  {
    var f := d.root(Effort(l, l.outputCap), Stages(d, l) + 1);
    Max(d.minWidth, l.outputCap / f / d.gateCap(1.0) / (1.0 + d.pnSizeRatio))
  }

  /** The last latency-first stage, within the maximum width. */
  function LatencyLast(d: Device, l: Load): real
    requires RealDevice(d) && l.Positive()
  {
    if LastWidth(d, l) > d.maxWidth then d.maxWidth else LastWidth(d, l)
  }

  /** The effort per stage of the latency-first chain, recomputed if its last stage is clamped. */
  ghost function LatencyEffort(d: Device, l: Load): (f: real)
    requires RealDevice(d) && l.Positive() && Stages(d, l) >= 1
    ensures f > 0.0
  {
    EffortPositive(d, l);
    if LastWidth(d, l) > d.maxWidth then d.root(ClampedEffort(d, l), Stages(d, l))
    else d.root(Effort(l, l.outputCap), Stages(d, l) + 1)
  }

  /** The width of the stage before one of width w: divided by the effort, but not below the
      minimum. */
  function StageBefore(d: Device, w: real, f: real): real
    requires f > 0.0
  {
    Max(d.minWidth, w / f)
  }

  /** The width k stages before one of width w. */
  function StageWidth(d: Device, w: real, f: real, k: nat): real
    requires f > 0.0
  {
    if k == 0 then w else StageBefore(d, StageWidth(d, w, f, k - 1), f)
  }

  /** The P-transistor of a stage is wider by the P/N ratio. */
  function WidthPMOS(d: Device, w: real): real {
    w * d.pnSizeRatio
  }

  /** A properly sized chain of n stages. */
  ghost predicate WellSized(d: Device, l: Load, widths: seq<real>, n: int) {
    && 1 <= n <= |widths|
    && (forall i :: 0 <= i < n ==> d.minWidth <= widths[i] <= d.maxWidth)
    && (forall i, j :: 0 <= i <= j < n ==> widths[i] <= widths[j])
    && widths[n - 1] >= l.minDriverWidth
  }

  /** The stage before is the least width, not below the minimum, that with the effort per
      stage drives the stage after it. */
  lemma StageBeforeLeast(d: Device, w: real, f: real, other: real)
    requires w > 0.0 && f > 0.0
    ensures var r := StageBefore(d, w, f);
            r >= d.minWidth && r * f >= w && (other >= d.minWidth && other * f >= w ==> r <= other)
  {
    QuotientTimes(w, f);
    var q, r := w / f, StageBefore(d, w, f);
    ScaledUp(q, r, f);
    if other < q {
      ScaledStrictly(other, q, f);
    }
  }

  lemma ScaledUp(x: real, y: real, f: real)
    requires x <= y && f > 0.0
    ensures x * f <= y * f
  {
  }

  lemma ScaledStrictly(x: real, y: real, f: real)
    requires x < y && f > 0.0
    ensures x * f < y * f
  {
  }

  /** The last latency-first stage is the least width, not below the minimum, whose N- and
      P-gates times the effort per stage make up the output capacitance. */
  lemma LastWidthLeast(d: Device, l: Load, other: real)
    requires RealDevice(d) && l.Positive()
    ensures var f := d.root(Effort(l, l.outputCap), Stages(d, l) + 1);
            var r := LastWidth(d, l);
            && f > 0.0 && r >= d.minWidth && GateLoad(d, r, f) >= l.outputCap
            && (other >= d.minWidth && GateLoad(d, other, f) >= l.outputCap ==> r <= other)
  {
    var f := d.root(Effort(l, l.outputCap), Stages(d, l) + 1);
    var g, c := d.gateCap(1.0), 1.0 + d.pnSizeRatio;
    QuotientTimes(l.outputCap, f);
    QuotientTimes(l.outputCap / f, g);
    QuotientTimes(l.outputCap / f / g, c);
    var q := l.outputCap / f / g / c;
    assert GateLoad(d, q, f) == l.outputCap;
    ScaledUp(q, LastWidth(d, l), c);
    ScaledUp(q * c, LastWidth(d, l) * c, g);
    ScaledUp(q * c * g, LastWidth(d, l) * c * g, f);
    if other < q {
      ScaledStrictly(other, q, c);
      ScaledStrictly(other * c, q * c, g);
      ScaledStrictly(other * c * g, q * c * g, f);
    }
  }

  /** What a stage of this width can drive with an effort of f, by its gates alone. */
  function GateLoad(d: Device, w: real, f: real): real {
    w * (1.0 + d.pnSizeRatio) * d.gateCap(1.0) * f
  }

  /** P-transistors are wider than N-transistors by the ratio. */
  lemma WidthRatio(d: Device, w: real)
    requires w > 0.0
    ensures WidthPMOS(d, w) / w == d.pnSizeRatio
  {
  }

  /** Stages towards the input stay above the minimum. */
  lemma {:induction false} StageAtLeast(d: Device, w: real, f: real, k: nat)
    requires w >= d.minWidth && f > 0.0
    ensures StageWidth(d, w, f, k) >= d.minWidth
  {
  }

  /** With an effort of at least one they never grow. */
  lemma {:induction false} StageOrder(d: Device, w: real, f: real, j: nat, k: nat)
    requires w >= d.minWidth > 0.0 && f >= 1.0 && j <= k
    ensures StageWidth(d, w, f, k) <= StageWidth(d, w, f, j)
    decreases k - j
  {
    if j < k {
      StageOrder(d, w, f, j, k - 1);
      StageAtLeast(d, w, f, k - 1);
      DivideByEffort(StageWidth(d, w, f, k - 1), f);
    }
  }

  /** With less the stage before the last is wider than the last. */
  lemma StageGrows(d: Device, w: real, f: real)
    requires w >= d.minWidth > 0.0 && 0.0 < f < 1.0
    ensures StageWidth(d, w, f, 1) > w
  {
    DivideByEffort(w, f);
    assert StageWidth(d, w, f, 0) == w;
  }

  /** A chain filled down from a strong enough last stage within the limits is well sized
      exactly when the effort per stage is at least one, or there is but one stage. */
  lemma SizedByStages(d: Device, l: Load, widths: seq<real>, n: int, w: real, f: real)
    requires 0.0 < d.minWidth <= w <= d.maxWidth && w >= l.minDriverWidth && f > 0.0 && 1 <= n <= |widths|
    requires forall i :: 0 <= i < n ==> widths[i] == StageWidth(d, w, f, n - 1 - i)
    ensures WellSized(d, l, widths, n) <==> f >= 1.0 || n == 1
  {
    if f >= 1.0 {
      forall i, j | 0 <= i <= j < n ensures d.minWidth <= widths[i] <= widths[j] <= w {
        StageAtLeast(d, w, f, n - 1 - i);
        StageOrder(d, w, f, n - 1 - j, n - 1 - i);
        StageOrder(d, w, f, 0, n - 1 - j);
      }
    } else if n > 1 {
      StageGrows(d, w, f);
      assert widths[n - 2] > widths[n - 1];
    }
  }

  class Driver {
    var initialized: bool
    var invalid: bool
    var numStage: int
    var areaOptimizationLevel: DesignTarget
    const widthNMOS: array<real>
    const widthPMOS: array<real>

    constructor ()
      ensures !initialized && !invalid && fresh(widthNMOS) && fresh(widthPMOS) && Allocated()
    {
      initialized, invalid, numStage, areaOptimizationLevel := false, false, 0, LatencyFirst;
      widthNMOS, widthPMOS := new real[MAX_INV_CHAIN_LEN], new real[MAX_INV_CHAIN_LEN];
    }

    predicate Allocated() {
      widthNMOS.Length == widthPMOS.Length == MAX_INV_CHAIN_LEN && widthNMOS != widthPMOS
    }

    /** N-transistors from stage `first` to `last` are filled down from a last one of width w. */
    predicate FilledNMOS(d: Device, w: real, f: real, first: int, last: int)
      requires Allocated() && 0 <= first && last < MAX_INV_CHAIN_LEN && f > 0.0
      reads widthNMOS
    {
      forall i :: first <= i <= last ==> widthNMOS[i] == StageWidth(d, w, f, last - i)
    }

    /** Their P-transistors are wider by the P/N ratio. */
    predicate FilledPMOS(d: Device, w: real, f: real, first: int, last: int)
      requires Allocated() && 0 <= first && last < MAX_INV_CHAIN_LEN && f > 0.0
      reads widthPMOS
    {
      forall i :: first <= i <= last ==> widthPMOS[i] == WidthPMOS(d, StageWidth(d, w, f, last - i))
    }

    predicate Filled(d: Device, w: real, f: real, first: int, last: int)
      requires Allocated() && 0 <= first && last < MAX_INV_CHAIN_LEN && f > 0.0
      reads widthNMOS, widthPMOS
    {
      FilledNMOS(d, w, f, first, last) && FilledPMOS(d, w, f, first, last)
    }

    /** From the last stage, fill the stages before it, each from the one after it. */
    method FillDown(d: Device, last: int, f: real)
      requires Allocated() && 0 <= last < MAX_INV_CHAIN_LEN && f > 0.0
      requires Filled(d, widthNMOS[last], f, last, last)
      modifies widthNMOS, widthPMOS
      ensures Filled(d, old(widthNMOS[last]), f, 0, last)
    {
      ghost var w := widthNMOS[last];
      var i := last - 1;
      while i >= 0
        invariant -1 <= i < last && Filled(d, w, f, i + 1, last)
      {
        SetNMOS(d, i, f, w, last);
        SetPMOS(d, i, f, w, last);
        i := i - 1;
      }
    }

    method SetNMOS(d: Device, i: int, f: real, ghost w: real, ghost last: int)
      requires Allocated() && 0 <= i < last < MAX_INV_CHAIN_LEN && f > 0.0 && FilledNMOS(d, w, f, i + 1, last)
      modifies widthNMOS
      ensures FilledNMOS(d, w, f, i, last)
    {
      widthNMOS[i] := StageBefore(d, widthNMOS[i + 1], f);
    }

    method SetPMOS(d: Device, i: int, f: real, ghost w: real, ghost last: int)
      requires Allocated() && 0 <= i <= last < MAX_INV_CHAIN_LEN && f > 0.0
      requires FilledNMOS(d, w, f, i, last) && FilledPMOS(d, w, f, i + 1, last)
      modifies widthPMOS
      ensures FilledPMOS(d, w, f, i, last)
    {
      widthPMOS[i] := WidthPMOS(d, widthNMOS[i]);
    }

    /** Returns false where a stage is written outside the arrays. */
    method Initialize(load: Load, d: Device, target: DesignTarget) returns (inBounds: bool)
      requires RealDevice(d) && load.Positive() && Allocated() && !invalid
      modifies this, widthNMOS, widthPMOS
      ensures invalid <==> load.Driving(d).minDriverWidth > d.maxWidth
      ensures inBounds <==> invalid || Fits(load.Driving(d), d, target)
      ensures invalid ==> areaOptimizationLevel == target
      ensures !invalid && inBounds ==>
        && initialized && areaOptimizationLevel == target && 1 <= numStage <= MAX_INV_CHAIN_LEN
        && (target == AreaFirst || numStage == MAX_INV_CHAIN_LEN || (numStage % 2 == 1 <==> load.inverting))
        && SizedFor(load.Driving(d), d, target)
        && (WellSized(d, load.Driving(d), widthNMOS[..], numStage)
            <==> ChainSized(load.Driving(d), d, target, numStage))
    {
      areaOptimizationLevel := target;
      inBounds := true;
      var l := load.Driving(d);
      if l.minDriverWidth > d.maxWidth {
        invalid := true;
        return;
      }
      inBounds := SizeChain(l, d);
      areaOptimizationLevel := target;
      initialized := true;
    }

    /** The stage count and every width, by mode. */
    ghost predicate SizedFor(l: Load, d: Device, target: DesignTarget)
      requires RealDevice(d) && l.Positive() && Allocated() && 0 <= numStage <= MAX_INV_CHAIN_LEN
      requires Fits(l, d, target)
      reads this, widthNMOS, widthPMOS
    {
      if TakesTradeOff(l, d, target) then
        && numStage == StagesBeforeLast(d, l) + 1
        && Filled(d, l.minDriverWidth, d.root(TradeOffEffort(d, l), numStage), 0, numStage - 1)
      else if target == LatencyFirst then
        && numStage == Stages(d, l)
        && Filled(d, LatencyLast(d, l), LatencyEffort(d, l), 0, numStage - 1)
      else
        numStage == 1 && Filled(d, l.minDriverWidth, 1.0, 0, 0)
    }

    /** The three modes in the order the source tests them. */
    method SizeChain(l: Load, d: Device) returns (inBounds: bool)
      requires RealDevice(d) && l.Positive() && d.minWidth <= l.minDriverWidth <= d.maxWidth && Allocated()
      modifies this`numStage, this`areaOptimizationLevel, widthNMOS, widthPMOS
      ensures inBounds <==> Fits(l, d, old(areaOptimizationLevel))
      ensures inBounds ==>
        && 1 <= numStage <= MAX_INV_CHAIN_LEN
        && (|| old(areaOptimizationLevel) == AreaFirst || numStage == MAX_INV_CHAIN_LEN
            || (numStage % 2 == 1 <==> l.inverting))
        && SizedFor(l, d, old(areaOptimizationLevel))
        && (WellSized(d, l, widthNMOS[..], numStage) <==> ChainSized(l, d, old(areaOptimizationLevel), numStage))
    {
      inBounds := true;
      if areaOptimizationLevel == LatencyFirst {
        inBounds := SizeForLatency(l, d);
        if !inBounds {
          return;
        }
      }
      if areaOptimizationLevel == LatencyAreaTradeOff {
        inBounds := SizeForTradeOff(l, d);
      } else if areaOptimizationLevel == AreaFirst {
        SizeForArea(l, d);
      }
    }

    /** Area first: one stage. The source checks its width against the maximum again, which
        cannot fail any more. */
    method SizeForArea(l: Load, d: Device)
      requires 0.0 < d.minWidth <= l.minDriverWidth <= d.maxWidth && Allocated()
      modifies this`numStage, widthNMOS, widthPMOS
      ensures numStage == 1 && Filled(d, l.minDriverWidth, 1.0, 0, 0)
      ensures WellSized(d, l, widthNMOS[..], 1)
    {
      numStage := 1;
      widthNMOS[0] := Max(d.minWidth, l.minDriverWidth);
      SetPMOS(d, 0, 1.0, l.minDriverWidth, 0);
    }

    /** Latency first; falls back to the trade-off if the last stage is too weak. Its last
        stage is written at one less than its stages, of which a chain that does not invert
        may have none. */
    method SizeForLatency(l: Load, d: Device) returns (inBounds: bool)
      requires RealDevice(d) && l.Positive() && d.minWidth <= l.minDriverWidth <= d.maxWidth && Allocated()
      modifies this`numStage, this`areaOptimizationLevel, widthNMOS, widthPMOS
      ensures inBounds <==> Stages(d, l) >= 1
      ensures inBounds ==>
        areaOptimizationLevel == if FallsBack(l, d) then LatencyAreaTradeOff else old(areaOptimizationLevel)
      ensures inBounds && !FallsBack(l, d) ==>
        && numStage == Stages(d, l)
        && Filled(d, LatencyLast(d, l), LatencyEffort(d, l), 0, numStage - 1)
        && (WellSized(d, l, widthNMOS[..], numStage) <==> ChainSized(l, d, LatencyFirst, numStage))
    {
      var effort := Effort(l, l.outputCap);
      numStage := LatencyStages(d, effort, l.inverting);
      if numStage - 1 < 0 {
        return false;
      }
      inBounds := true;
      var f := SetLastStage(l, d, effort);
      if widthNMOS[numStage - 1] < l.minDriverWidth {
        areaOptimizationLevel := LatencyAreaTradeOff;
      } else {
        SetPMOS(d, numStage - 1, f, LatencyLast(d, l), numStage - 1);
        FillDown(d, numStage - 1, f);
        SizedByStages(d, l, widthNMOS[..], numStage, LatencyLast(d, l), f);
        EffortDecides(d, l);
      }
    }

    /** The last stage, clamped to the maximum width, and the effort per stage that is left. */
    method SetLastStage(l: Load, d: Device, effort: real) returns (f: real)
      requires RealDevice(d) && l.Positive() && Allocated()
      requires effort == Effort(l, l.outputCap) && numStage == Stages(d, l) >= 1
      modifies widthNMOS
      ensures f == LatencyEffort(d, l) && widthNMOS[numStage - 1] == LatencyLast(d, l)
    {
      f := d.root(effort, numStage + 1);
      widthNMOS[numStage - 1] := LastWidth(d, l);
      if widthNMOS[numStage - 1] > d.maxWidth {
        widthNMOS[numStage - 1] := d.maxWidth;
        EffortPositive(d, l);
        f := d.root(ClampedEffort(d, l), numStage);
      }
    }

    /** The trade-off chain ends in the required drive width. Its last stage is written at
        the index of its stages before the last, which need not be within the arrays. */
    method SizeForTradeOff(l: Load, d: Device) returns (inBounds: bool)
      requires RealDevice(d) && l.Positive() && d.minWidth <= l.minDriverWidth <= d.maxWidth && Allocated()
      modifies this`numStage, widthNMOS, widthPMOS
      ensures numStage == StagesBeforeLast(d, l) + 1
      ensures inBounds <==> StagesBeforeLast(d, l) < MAX_INV_CHAIN_LEN
      ensures inBounds ==>
        && Filled(d, l.minDriverWidth, d.root(TradeOffEffort(d, l), numStage), 0, numStage - 1)
        && WellSized(d, l, widthNMOS[..], numStage)
    {
      var effort := TradeOffEffort(d, l);
      var optimalNumStage := TradeOffStages(d, effort, l.inverting);
      numStage := optimalNumStage + 1;
      if optimalNumStage >= widthNMOS.Length {
        return false;
      }
      widthNMOS[optimalNumStage] := l.minDriverWidth;
      RootAtLeastOne(d, effort, optimalNumStage + 1);
      var f := d.root(effort, optimalNumStage + 1);
      SetPMOS(d, optimalNumStage, f, l.minDriverWidth, optimalNumStage);
      FillDown(d, optimalNumStage, f);
      SizedByStages(d, l, widthNMOS[..], numStage, l.minDriverWidth, f);
      inBounds := true;
    }
  }

  lemma DivideByEffort(w: real, f: real)
    requires w > 0.0 && f > 0.0
    ensures f >= 1.0 ==> w / f <= w
    ensures f < 1.0 ==> w / f > w
  {
    QuotientTimes(w, f);
    ScaleUp(w / f, f, w);
  }

  lemma ScaleUp(q: real, f: real, w: real)
    requires q > 0.0 && w == q * f
    ensures f >= 1.0 ==> w >= q
    ensures f < 1.0 ==> w < q
  {
  }

  lemma EffortPositive(d: Device, l: Load)
    requires RealDevice(d) && l.Positive()
    ensures ClampedEffort(d, l) > 0.0
  {
    assert (1.0 + d.pnSizeRatio) * d.maxWidth > 0.0;
    var cap := d.gateCap((1.0 + d.pnSizeRatio) * d.maxWidth);
    assert l.logicEffort * cap > 0.0;
  }

  /** The last latency-first stage is weaker than the required drive. */
  ghost predicate FallsBack(l: Load, d: Device)
    requires RealDevice(d) && l.Positive()
  {
    LatencyLast(d, l) < l.minDriverWidth
  }

  ghost predicate TakesTradeOff(l: Load, d: Device, target: DesignTarget)
    requires RealDevice(d) && l.Positive()
  {
    target == LatencyAreaTradeOff || (target == LatencyFirst && FallsBack(l, d))
  }

  /** The chain is written within its arrays: always, unless it is a trade-off chain of the
      capped length, or a latency-first chain of no stage, which only one that does not
      invert can be. */
  ghost predicate Fits(l: Load, d: Device, target: DesignTarget)
    requires RealDevice(d) && l.Positive()
  {
    && (target == LatencyFirst ==> Stages(d, l) >= 1)
    && (TakesTradeOff(l, d, target) ==> StagesBeforeLast(d, l) < MAX_INV_CHAIN_LEN)
  }

  /** When a valid chain is well sized: always, unless latency first clamps the last of
      several stages and the effort left for the others is below one. */
  ghost predicate ChainSized(l: Load, d: Device, target: DesignTarget, n: int)
    requires RealDevice(d) && l.Positive()
  {
    target == LatencyFirst && !FallsBack(l, d) && LastWidth(d, l) > d.maxWidth && n > 1 ==> ClampedEffort(d, l) >= 1.0
  }

  /** The effort of a latency-first chain that does not fall back decides its sizing. */
  lemma EffortDecides(d: Device, l: Load)
    requires RealDevice(d) && l.Positive() && Stages(d, l) >= 1 && !FallsBack(l, d)
    ensures LatencyEffort(d, l) >= 1.0 || Stages(d, l) == 1 <==> ChainSized(l, d, LatencyFirst, Stages(d, l))
  {
    EffortPositive(d, l);
    RootAtLeastOne(d, Effort(l, l.outputCap), Stages(d, l) + 1);
    RootAtLeastOne(d, ClampedEffort(d, l), Stages(d, l));
  }

  // ---- The loads the program passes ----

  /** Gate capacitance is proportional to width, as long as the poly wire has none. */
  ghost predicate LinearGate(d: Device, perWidth: real) {
    perWidth > 0.0 && forall w: real :: d.gateCap(w) == perWidth * w
  }

  /** The chain is driven by a gate of minimum size: an inverter, where m is 1 + p for a P/N
      ratio of p, or a NAND of two or three inputs, where it is 2 + p or 3 + p. */
  predicate DrivenByGate(d: Device, l: Load, perWidth: real, m: real)
    requires d.pnSizeRatio > 0.0
  {
    m > 0.0 && l.logicEffort == m / (1.0 + d.pnSizeRatio) && l.inputCap == perWidth * (m * d.minWidth)
  }

  lemma EffortOfGate(d: Device, l: Load, perWidth: real, m: real)
    requires RealDevice(d) && l.Positive() && LinearGate(d, perWidth) && DrivenByGate(d, l, perWidth, m)
    ensures ClampedEffort(d, l) == d.maxWidth / d.minWidth
  {
    var w := (1.0 + d.pnSizeRatio) * d.maxWidth;
    GateCap(d, perWidth, w);
    EffortTowards(d, l, perWidth, m, d.maxWidth, d.gateCap(w));
  }

  lemma GateCap(d: Device, perWidth: real, w: real)
    requires LinearGate(d, perWidth)
    ensures d.gateCap(w) == perWidth * w
  {
  }

  /** For every load the program passes the effort recomputed at the clamp is the ratio of
      the width limits, so no chain of it is oversized. */
  lemma CallersNeverOversized(d: Device, l: Load, perWidth: real, m: real, target: DesignTarget, n: int)
    requires RealDevice(d) && l.Positive() && d.minWidth <= d.maxWidth
    requires LinearGate(d, perWidth) && DrivenByGate(d, l, perWidth, m)
    ensures ClampedEffort(d, l) == d.maxWidth / d.minWidth >= 1.0
    ensures ChainSized(l.Driving(d), d, target, n)
  {
    EffortOfGate(d, l, perWidth, m);
    QuotientAtLeastOne(d.maxWidth, d.minWidth);
    DrivingKeepsEffort(d, l);
    SizedByEffort(l.Driving(d), d, target, n);
  }

  lemma CapOfGate(d: Device, perWidth: real, w: real)
    requires LinearGate(d, perWidth)
    ensures d.gateCap(w) * (1.0 + d.pnSizeRatio) == perWidth * ((1.0 + d.pnSizeRatio) * w)
  {
    GateCap(d, perWidth, w);
    AssocReals(perWidth, w, 1.0 + d.pnSizeRatio);
  }

  /** Effort towards a capacitance, for a load driven by a gate. */
  lemma EffortTowards(d: Device, l: Load, perWidth: real, m: real, w: real, cap: real)
    requires RealDevice(d) && l.Positive() && perWidth > 0.0 && DrivenByGate(d, l, perWidth, m)
    requires cap == perWidth * ((1.0 + d.pnSizeRatio) * w)
    ensures l.logicEffort * cap / l.inputCap == w / d.minWidth
  {
    EffortCancels(m, 1.0 + d.pnSizeRatio, perWidth, w, d.minWidth);
  }

  /** For such a load the effort of the trade-off chain is the ratio of its drive width to
      the minimum width. */
  lemma TradeOffOfGate(d: Device, l: Load, perWidth: real, m: real)
    requires RealDevice(d) && l.Positive() && l.minDriverWidth >= d.minWidth
    requires LinearGate(d, perWidth) && DrivenByGate(d, l, perWidth, m)
    ensures TradeOffEffort(d, l) == l.minDriverWidth / d.minWidth >= 1.0
  {
    var cap := d.gateCap(l.minDriverWidth) * (1.0 + d.pnSizeRatio);
    CapOfGate(d, perWidth, l.minDriverWidth);
    EffortTowards(d, l, perWidth, m, l.minDriverWidth, cap);
    QuotientAtLeastOne(l.minDriverWidth, d.minWidth);
    assert TradeOffEffort(d, l) == Max(1.0, l.logicEffort * cap / l.inputCap);
  }

  /** More effort never takes fewer stages. */
  ghost predicate Monotone(d: Device) {
    forall x: real, y: real :: x <= y ==> d.stages(x) <= d.stages(y)
  }

  lemma QuotientMonotone(x: real, y: real, z: real)
    requires x <= y && z > 0.0
    ensures x / z <= y / z
  {
  }

  /** The stages a load can ask for are those of the ratio of the width limits. */
  lemma StagesWithinRatio(d: Device, l: Load, perWidth: real, m: real)
    requires RealDevice(d) && l.Positive() && d.minWidth <= l.minDriverWidth <= d.maxWidth && Monotone(d)
    requires LinearGate(d, perWidth) && DrivenByGate(d, l, perWidth, m)
    ensures d.stages(TradeOffEffort(d, l)) <= d.stages(d.maxWidth / d.minWidth)
  {
    TradeOffOfGate(d, l, perWidth, m);
    QuotientMonotone(l.minDriverWidth, d.maxWidth, d.minWidth);
  }

  /** No chain the program asks for is written outside its arrays as long as the ratio of the
      width limits takes fewer than twenty stages; with an effort of four a
      stage, that is any ratio below 4^19. */
  lemma CallersFit(d: Device, l: Load, perWidth: real, m: real, target: DesignTarget)
    requires RealDevice(d) && l.Positive() && l.inverting && Monotone(d)
    requires LinearGate(d, perWidth) && DrivenByGate(d, l, perWidth, m)
    requires l.Driving(d).minDriverWidth <= d.maxWidth && d.stages(d.maxWidth / d.minWidth) < MAX_INV_CHAIN_LEN
    ensures Fits(l.Driving(d), d, target)
  {
    StagesWithinRatio(d, l.Driving(d), perWidth, m);
  }

  /** Beyond that ratio the trade-off chain for the widest drive is written outside. */
  lemma WidestDriveOverruns(d: Device, l: Load, perWidth: real, m: real)
    requires RealDevice(d) && l.Positive() && l.inverting && d.minWidth <= l.minDriverWidth == d.maxWidth
    requires LinearGate(d, perWidth) && DrivenByGate(d, l, perWidth, m)
    requires d.stages(d.maxWidth / d.minWidth) >= MAX_INV_CHAIN_LEN
    ensures l.Driving(d) == l && !Fits(l, d, LatencyAreaTradeOff)
  {
    TradeOffOfGate(d, l, perWidth, m);
  }

  lemma DrivingKeepsEffort(d: Device, l: Load)
    requires RealDevice(d) && l.Positive()
    ensures ClampedEffort(d, l.Driving(d)) == ClampedEffort(d, l)
  {
  }

  lemma SizedByEffort(l: Load, d: Device, target: DesignTarget, n: int)
    requires RealDevice(d) && l.Positive() && ClampedEffort(d, l) >= 1.0
    ensures ChainSized(l, d, target, n)
  {
  }

  lemma EffortCancels(m: real, c: real, a: real, max: real, min: real)
    requires m > 0.0 && c > 0.0 && a > 0.0 && min > 0.0
    ensures a * (m * min) > 0.0
    ensures m / c * (a * (c * max)) / (a * (m * min)) == max / min
  {
    var e, q := m / c, max / min;
    assert e * c == m && q * min == max;
    PositiveTriple(a, m, min);
    var below := a * (m * min);
    assert e * (a * (c * max)) == (e * c) * (a * max) by { SwapFactors(e, a, c, max); }
    assert m * (a * max) == q * below by { PullOut(m, a, q, min); }
    DivideOut(e * (a * (c * max)), below, q);
  }

  lemma PositiveTriple(x: real, y: real, z: real)
    requires x > 0.0 && y > 0.0 && z > 0.0
    ensures x * (y * z) > 0.0
  {
    PositiveReals(y, z);
    PositiveReals(x, y * z);
  }

  lemma SwapFactors(e: real, a: real, c: real, x: real)
    ensures e * (a * (c * x)) == (e * c) * (a * x)
  {
    AssocReals(a, c, x);
    AssocReals(c, a, x);
    AssocReals(e, c, a * x);
  }

  lemma PullOut(m: real, a: real, q: real, min: real)
    ensures m * (a * (q * min)) == q * (a * (m * min))
  {
    SwapFactors(m, a, q, min);
    SwapFactors(q, a, m, min);
  }

  lemma DivideOut(p: real, d: real, q: real)
    requires d > 0.0 && p == q * d
    ensures p / d == q
  {
  }

  lemma QuotientAtLeastOne(x: real, y: real)
    requires 0.0 < y <= x
    ensures x / y >= 1.0
  {
  }

  /** A chain that does not invert, which no caller asks for, is written before its arrays
      if its effort takes at most one stage. */
  lemma NoStageUnderruns(d: Device, l: Load)
    requires RealDevice(d) && l.Positive() && !l.inverting
    ensures Stages(d, l) == 0 <==> d.stages(Effort(l, l.outputCap)) <= 1
    ensures d.stages(Effort(l, l.outputCap)) <= 1 ==> !Fits(l, d, LatencyFirst)
  {
  }

  // ---- A load no caller passes ----

  /** A device with one unit of gate capacitance a unit of width, from 1 to 10 wide, whose
      stage count for a total effort of 64 is the rounded base-four logarithm. */
  ghost predicate TenWide(d: Device) {
    && RealDevice(d) && d.minWidth == 1.0 && d.maxWidth == 10.0 && d.pnSizeRatio == 1.0 && d.stages(64.0) == 3
    && forall w: real :: d.gateCap(w) == w
  }

  const WEAK_EFFORT: Load := Load(0.025, 1.0, 2560.0, 1.0, true)

  lemma RootBelow(d: Device)
    requires RealDevice(d)
    ensures 0.0 < d.root(64.0, 4) <= 64.0
  {
    var f := d.root(64.0, 4);
    if f > 64.0 {
      PowerAtLeastOne(f, 3);
      AtLeast(f, RealPower(f, 3));
    }
  }

  lemma AtLeast(x: real, y: real)
    requires x > 0.0 && y >= 1.0
    ensures x * y >= x
  {
  }

  lemma LastTooWide(f: real)
    requires 0.0 < f <= 64.0
    ensures 2560.0 / f >= 40.0
  {
    QuotientTimes(2560.0, f);
    AtMost(2560.0 / f, f, 64.0);
  }

  lemma AtMost(q: real, x: real, y: real)
    requires q >= 0.0 && x <= y
    ensures q * x <= q * y
  {
  }

  /** For a logic effort far below that of any gate such a device sizes three stages: the
      last is clamped to the maximum width, the effort left is one half, and the stage before
      it is wider than the maximum. */
  lemma ClampedChainOversized(d: Device)
    requires TenWide(d)
    ensures var l := WEAK_EFFORT;
            && l.Positive() && Stages(d, l) == 3 && !FallsBack(l, d)
            && StageWidth(d, LatencyLast(d, l), LatencyEffort(d, l), 1) > d.maxWidth
            && !ChainSized(l, d, LatencyFirst, 3)
  {
    var l := WEAK_EFFORT;
    assert Effort(l, l.outputCap) == 64.0;
    assert d.gateCap(1.0) == 1.0;
    RootBelow(d);
    LastTooWide(d.root(64.0, 4));
    assert LastWidth(d, l) >= 20.0;
    assert ClampedEffort(d, l) == 0.5;
    RootAtLeastOne(d, 0.5, 3);
    DivideByEffort(d.maxWidth, d.root(0.5, 3));
    assert StageWidth(d, d.maxWidth, d.root(0.5, 3), 0) == d.maxWidth;
  }
}
