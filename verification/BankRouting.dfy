/** What an H-tree bank hands to its mat, and that it is what the closed form of the
    bank without an H-tree hands over. */
module BankRouting {
  import opened PowersOfTwo
  import opened Organisation
  import opened HtreeRouting
  import opened Capacity

  /** The router's view of a bank. A data word is distributed and the way number is
      broadcast; in a tag array the ways are distributed and the tag is broadcast. */
  function TreeOf(b: BankSettings): (t: Tree)
    requires b.Valid()
    requires b.numActiveMatPerRow <= b.numColumnMat && b.numActiveMatPerColumn <= b.numRowMat
    ensures t.Valid()
  {
    PowersOrdered(b.numActiveMatPerRow, b.numColumnMat);
    PowersOrdered(b.numActiveMatPerColumn, b.numRowMat);
    Tree(Log2(b.numColumnMat), Log2(b.numRowMat), Log2(b.numActiveMatPerRow), Log2(b.numActiveMatPerColumn),
         b.NumAddressBit(),
         if b.memoryType == Data then b.blockSize else b.associativity,
         if b.memoryType == Data then Log2(b.associativity) else b.blockSize)
  }

  /** The signals of one mat, after all splits. */
  function MatSignals(t: Tree): Signals {
    t.At(t.levelHorizontal, t.levelVertical)
  }

  lemma NestedPowers(n: nat, x: nat, y: nat)
    ensures n / Pow2(x) / Pow2(y) == n / Pow2(y + x)
  {
    Pow2Add(x, y);
    DivDiv(n, Pow2(x), Pow2(y));
  }

  /** Dividing by the active rows, then by the active columns, is the loops' halving. */
  lemma NestedShare(n: nat, rows: int, columns: int)
    requires IsPow2(rows) && IsPow2(columns)
    ensures n / rows / columns == n / Pow2(Log2(columns) + Log2(rows))
  {
    NestedPowers(n, Log2(rows), Log2(columns));
  }

  /** The loops leave the mat the closed-form share of the address and of the
      distributed bits. */
  lemma MatSignalsClosed(b: BankSettings)
    requires b.Valid()
    requires b.numActiveMatPerRow <= b.numColumnMat && b.numActiveMatPerColumn <= b.numRowMat
    ensures var t := TreeOf(b);
            var s := MatSignals(t);
            && s.address == MatAddressBits(b)
            && s.distribute == t.distribute / b.numActiveMatPerColumn / b.numActiveMatPerRow
            && s.broadcast == t.broadcast
  {
    var t := TreeOf(b);
    NestedShare(t.distribute, b.numActiveMatPerColumn, b.numActiveMatPerRow);
    HalvedIsQuotient(t.distribute, t.activeColumns + t.activeRows);
  }

  /** The checks of `BankWithHtree::Initialize` after routing, and the mat it asks for. */
  function HtreeHandOff(settings: BankSettings, dram: bool): (r: HandOff)
    requires settings.Valid()
    ensures r.ToMat? ==> r.mat.Valid()
  {
    var b := settings.Clamped();
    var t := TreeOf(b);
    var s := MatSignals(t);
    if !Survives(t) then Refused
    else match b.memoryType
      case Data =>
        DataMat(b, dram, s.address, s.distribute, Pow2(s.broadcast))
      case Tag =>
        MatSignalsClosed(b);
        ShareOfPower(b.associativity, b.numActiveMatPerColumn, b.numActiveMatPerRow);
        TagMat(b, s.address, s.broadcast, s.distribute)
  }

  function PlanHtree(settings: BankSettings, dram: bool, rejects: Electrical): MatPlan
    requires settings.Valid()
  {
    PlanHandOff(HtreeHandOff(settings, dram), rejects)
  }

  /** A surviving walk hands over exactly the closed form. */
  lemma SurvivorsAgree(settings: BankSettings, dram: bool)
    requires settings.Valid() && Survives(TreeOf(settings.Clamped()))
    ensures HtreeHandOff(settings, dram) == ClosedHandOff(settings, dram)
  {
    MatSignalsClosed(settings.Clamped());
  }

  /** A walk that ends early leaves no address bit, or nothing to route. */
  lemma EarlyExitStarves(t: Tree)
    requires t.Valid() && !Survives(t)
    ensures var s := MatSignals(t); s.address <= 0 || (s.distribute == 0 && s.broadcast == 0)
  {
    var last := t.At(LastColumns(t), t.levelVertical);
    HalvingsMonotone(t, LastColumns(t), t.levelVertical, t.levelHorizontal, t.levelVertical);
    if last.distribute + last.broadcast == 0 {
      assert last.distribute == 0;
    } else {
      assert last.address <= 0;
    }
  }

  lemma StarvedAddress(m: MatSettings)
    requires m.Valid() && m.numAddressBit <= 0
    ensures MatAddress(m.Clamped()) <= 0
  {
    var c := m.Clamped();
    GatingExact(c.numRowSubarray, c.numColumnSubarray, c.numActiveSubarrayPerColumn, c.numActiveSubarrayPerRow);
  }

  lemma StarvedData(m: MatSettings)
    requires m.Valid() && m.numDataBit == 0
    ensures BitsPerSubarray(m.Clamped()) == 0
  {
    var c := m.Clamped();
    ProductOfPowers(c.numActiveSubarrayPerRow, c.numActiveSubarrayPerColumn);
    ZeroDivided(c.ActiveSubarrays());
  }

  lemma StarvedMatRejected(m: MatSettings, rejects: Electrical)
    requires m.Valid() && (m.numAddressBit <= 0 || m.numDataBit == 0)
    ensures PlanMat(m, rejects).Rejected?
  {
    if m.numAddressBit <= 0 {
      StarvedAddress(m);
    } else {
      StarvedData(m);
    }
  }

  lemma StarvedHandOff(settings: BankSettings, dram: bool)
    requires settings.Valid() && !Survives(TreeOf(settings.Clamped()))
    requires ClosedHandOff(settings, dram).ToMat?
    ensures var m := ClosedHandOff(settings, dram).mat; m.numAddressBit <= 0 || m.numDataBit == 0
  {
    MatSignalsClosed(settings.Clamped());
    EarlyExitStarves(TreeOf(settings.Clamped()));
  }

  /** The H-tree bank refines the closed form: for every bank both hand the mat the same
      settings, or the H-tree refuses a bank whose closed-form mat cannot be accepted
      under any electrical rule. */
  lemma HtreeRefinesClosedForm(settings: BankSettings, dram: bool)
    requires settings.Valid()
    ensures HtreeHandOff(settings, dram) == ClosedHandOff(settings, dram)
         || (HtreeHandOff(settings, dram).Refused? && forall rejects :: PlanClosed(settings, dram, rejects).Rejected?)
  {
    if Survives(TreeOf(settings.Clamped())) {
      SurvivorsAgree(settings, dram);
    } else if ClosedHandOff(settings, dram).ToMat? {
      StarvedHandOff(settings, dram);
      forall rejects ensures PlanClosed(settings, dram, rejects).Rejected? {
        StarvedMatRejected(ClosedHandOff(settings, dram).mat, rejects);
      }
    }
  }

  /** So both banks end in the same plan. */
  lemma SamePlan(settings: BankSettings, dram: bool, rejects: Electrical)
    requires settings.Valid()
    ensures PlanHtree(settings, dram, rejects) == PlanClosed(settings, dram, rejects)
  {
    HtreeRefinesClosedForm(settings, dram);
  }

  /** Initialising again from the counts a bank keeps gives the same plan: clamping is
      idempotent and the mux degrees are kept as they were asked for. */
  lemma RebuildSamePlan(settings: BankSettings, dram: bool, rejects: Electrical)
    requires settings.Valid()
    ensures settings.Clamped().Clamped() == settings.Clamped()
    ensures PlanClosed(settings.Clamped(), dram, rejects) == PlanClosed(settings, dram, rejects)
  {
  }
}
