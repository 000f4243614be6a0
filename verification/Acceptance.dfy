/** Which mats and banks are accepted, and what a mat is handed, said without the functions
    that plan them. */
module Acceptance {
  import opened PowersOfTwo
  import opened Organisation
  import opened Capacity
  import opened BankRouting

  // ---- Clamping ----

  /** The smaller of what was asked for and what there is. */
  predicate Limited(kept: int, asked: int, total: int) {
    kept <= asked && kept <= total && (kept == asked || kept == total)
  }

  /** A bank keeps its active counts within the total counts, and everything else as asked. */
  lemma ClampedExactly(b: BankSettings)
    ensures var c := b.Clamped();
            && Limited(c.numActiveMatPerRow, b.numActiveMatPerRow, b.numColumnMat)
            && Limited(c.numActiveMatPerColumn, b.numActiveMatPerColumn, b.numRowMat)
            && Limited(c.numActiveSubarrayPerRow, b.numActiveSubarrayPerRow, b.numColumnSubarray)
            && Limited(c.numActiveSubarrayPerColumn, b.numActiveSubarrayPerColumn, b.numRowSubarray)
            && c == b.(numActiveMatPerRow := c.numActiveMatPerRow, numActiveMatPerColumn := c.numActiveMatPerColumn,
                       numActiveSubarrayPerRow := c.numActiveSubarrayPerRow,
                       numActiveSubarrayPerColumn := c.numActiveSubarrayPerColumn)
  {
  }

  // ---- Mux degrees ----

  /** r is the mux after `bits` address bits of ways are spread over its levels: over all
      three in thirds with what is left before the sense amplifier, or for DRAM over the last
      two in halves with what is left on the first of them. */
  predicate Spread(mux: Mux, r: Mux, bits: int, dram: bool)
    requires mux.PowersOfTwo()
  {
    && r.PowersOfTwo()
    && var e0 := Log2(r.senseAmp) - Log2(mux.senseAmp);
       var e1 := Log2(r.outputLev1) - Log2(mux.outputLev1);
       var e2 := Log2(r.outputLev2) - Log2(mux.outputLev2);
       && e0 + e1 + e2 == bits
       && (if dram then e0 == 0 && e2 <= e1 <= e2 + 1 else e1 == e2 && e2 <= e0 <= e2 + 2)
  }

  lemma SharesUnique(bits: int, e0: int, e1: int, e2: int, f0: int, f1: int, f2: int, dram: bool)
    requires e0 + e1 + e2 == bits == f0 + f1 + f2
    requires if dram then e0 == 0 && e2 <= e1 <= e2 + 1 else e1 == e2 && e2 <= e0 <= e2 + 2
    requires if dram then f0 == 0 && f2 <= f1 <= f2 + 1 else f1 == f2 && f2 <= f0 <= f2 + 2
    ensures e0 == f0 && e1 == f1 && e2 == f2
  {
  }

  lemma SameDegree(x: int, y: int)
    requires IsPow2(x) && IsPow2(y) && Log2(x) == Log2(y)
    ensures x == y
  {
  }

  /** There is only one way to spread them. */
  lemma SpreadUnique(mux: Mux, r: Mux, s: Mux, bits: int, dram: bool)
    requires mux.PowersOfTwo() && Spread(mux, r, bits, dram) && Spread(mux, s, bits, dram)
    ensures r == s
  {
    var m0, m1, m2 := Log2(mux.senseAmp), Log2(mux.outputLev1), Log2(mux.outputLev2);
    SharesUnique(bits, Log2(r.senseAmp) - m0, Log2(r.outputLev1) - m1, Log2(r.outputLev2) - m2,
                 Log2(s.senseAmp) - m0, Log2(s.outputLev1) - m1, Log2(s.outputLev2) - m2, dram);
    SameDegree(r.senseAmp, s.senseAmp);
    SameDegree(r.outputLev1, s.outputLev1);
    SameDegree(r.outputLev2, s.outputLev2);
  }

  lemma GainOf(degree: int, factor: int, k: nat)
    requires IsPow2(degree) && factor == Pow2(k)
    ensures IsPow2(degree * factor) && Log2(degree * factor) == Log2(degree) + k
  {
    ProductOfExponents(degree, factor, Log2(degree), k);
  }

  lemma LeftOfPower(ways: int, w: nat, k: nat)
    requires ways == Pow2(w) && k <= w
    ensures ways / Pow2(k) == Pow2(w - k)
  {
    Pow2Quotient(w, k);
  }

  /** A mux whose degrees gained e0, e1 and e2 bits. */
  predicate Gains(mux: Mux, r: Mux, e0: int, e1: int, e2: int)
    requires mux.PowersOfTwo()
  {
    && r.PowersOfTwo() && Log2(r.senseAmp) == Log2(mux.senseAmp) + e0
    && Log2(r.outputLev1) == Log2(mux.outputLev1) + e1 && Log2(r.outputLev2) == Log2(mux.outputLev2) + e2
  }

  lemma GainedBy(mux: Mux, x0: int, x1: int, x2: int, e0: nat, e1: nat, e2: nat)
    requires mux.PowersOfTwo() && x0 == Pow2(e0) && x1 == Pow2(e1) && x2 == Pow2(e2)
    ensures Gains(mux, Mux(mux.senseAmp * x0, mux.outputLev1 * x1, mux.outputLev2 * x2), e0, e1, e2)
  {
    GainOf(mux.senseAmp, x0, e0);
    GainOf(mux.outputLev1, x1, e1);
    GainOf(mux.outputLev2, x2, e2);
  }

  lemma DramGains(mux: Mux, ways: int, w: nat)
    requires mux.PowersOfTwo() && ways > 1 && ways == Pow2(w) && w == Log2(ways)
    ensures Gains(mux, Redistributed(mux, ways, true), 0, w - w / 2, w / 2)
  {
    var lev2 := Pow2(w / 2);
    LeftOfPower(ways, w, w / 2);
    GainedBy(mux, 1, ways / lev2, lev2, 0, w - w / 2, w / 2);
    assert Redistributed(mux, ways, true)
        == Mux(mux.senseAmp * 1, mux.outputLev1 * (ways / lev2), mux.outputLev2 * lev2);
  }

  lemma ThirdLeft(ways: int, w: nat)
    requires ways == Pow2(w)
    ensures ways / Pow2(w / 3) / Pow2(w / 3) == Pow2(w - w / 3 - w / 3)
  {
    LeftOfPower(ways, w, w / 3);
    LeftOfPower(ways / Pow2(w / 3), w - w / 3, w / 3);
  }

  lemma SramForm(mux: Mux, ways: int, lev: int, rest: int)
    requires ways > 1 && lev == Pow2(Log2(ways) / 3) && rest == ways / lev / lev
    ensures Redistributed(mux, ways, false) == Mux(mux.senseAmp * rest, mux.outputLev1 * lev, mux.outputLev2 * lev)
  {
  }

  lemma SramGains(mux: Mux, ways: int, lev: int, rest: int, w: nat)
    requires mux.PowersOfTwo() && ways > 1 && w == Log2(ways)
    requires lev == Pow2(w / 3) && rest == ways / lev / lev == Pow2(w - w / 3 - w / 3)
    ensures Gains(mux, Redistributed(mux, ways, false), w - w / 3 - w / 3, w / 3, w / 3)
  {
    GainedBy(mux, rest, lev, lev, w - w / 3 - w / 3, w / 3, w / 3);
    SramForm(mux, ways, lev, rest);
  }

  /** The degrees a mat is given are exactly those. */
  lemma RedistributionSpread(mux: Mux, waysPerRow: int, dram: bool)
    requires mux.PowersOfTwo() && IsPow2(waysPerRow)
    ensures Spread(mux, Redistributed(mux, waysPerRow, dram), Log2(waysPerRow), dram)
  {
    if waysPerRow > 1 && dram {
      DramGains(mux, waysPerRow, Log2(waysPerRow));
    } else if waysPerRow > 1 {
      var w := Log2(waysPerRow);
      ThirdLeft(waysPerRow, w);
      SramGains(mux, waysPerRow, Pow2(w / 3), waysPerRow / Pow2(w / 3) / Pow2(w / 3), w);
    }
  }

  // ---- Mats ----

  /** Address bits that switch off the inactive blocks. */
  function Inactive(rows: int, columns: int, activeRows: int, activeColumns: int): int
    requires IsPow2(rows) && IsPow2(columns) && IsPow2(activeRows) && IsPow2(activeColumns)
  {
    Log2(rows) + Log2(columns) - Log2(activeRows) - Log2(activeColumns)
  }

  /** Address bits left to a subarray. */
  function Left(m: MatSettings): int
    requires m.Valid()
  {
    var c := m.Clamped();
    m.numAddressBit
    - Inactive(c.numRowSubarray, c.numColumnSubarray, c.numActiveSubarrayPerColumn, c.numActiveSubarrayPerRow)
  }

  /** Subarrays that share the data bits of a mat. */
  function Sharing(m: MatSettings): (n: int)
    requires m.Valid()
    ensures n > 0
  {
    var c := m.Clamped();
    ProductOfPowers(c.numActiveSubarrayPerRow, c.numActiveSubarrayPerColumn);
    c.numActiveSubarrayPerRow * c.numActiveSubarrayPerColumn
  }

  /** The subarray a mat asks for. */
  function Request(m: MatSettings): SubarraySpec
    requires m.Valid() && m.mux.Bits() <= Left(m)
  {
    SubarraySpec(Pow2(Left(m) - m.mux.Bits()) * (if m.memoryType == Data then m.numWay else 1),
                 m.numDataBit / Sharing(m) * Pow2(m.mux.Bits()) * (if m.memoryType == Tag then m.numWay else 1),
                 m.numRowPerSet > 1, m.mux, m.areaOptimizationLevel)
  }

  /** A mat works if address bits are left, enough of them for its mux, every active subarray
      has a data bit, and the electrical rule takes the subarray. */
  predicate Works(m: MatSettings, rejects: Electrical)
    requires m.Valid()
  {
    Left(m) > 0 && m.mux.Bits() <= Left(m) && m.numDataBit >= Sharing(m) && !rejects(Request(m))
  }

  lemma LeftIsAddress(m: MatSettings)
    requires m.Valid()
    ensures MatAddress(m.Clamped()) == Left(m)
  {
    var c := m.Clamped();
    var _ := GatingBits(c.numRowSubarray, c.numColumnSubarray, c.numActiveSubarrayPerColumn, c.numActiveSubarrayPerRow);
  }

  /** Rows of a mat whose mux fits. */
  lemma RowsOfMat(m: MatSettings, a: nat)
    requires m.Valid() && m.mux.Bits() <= a
    ensures MatRows(m, a) == Pow2(a - m.mux.Bits()) * (if m.memoryType == Data then m.numWay else 1)
  {
    MuxProduct(m.mux);
    var ways := if m.memoryType == Data then m.numWay else 1;
    var rest := Pow2(a - m.mux.Bits());
    Pow2Add(a - m.mux.Bits(), m.mux.Bits());
    MulAssoc(rest, Pow2(m.mux.Bits()), ways);
    MulAssoc(rest, ways, Pow2(m.mux.Bits()));
    ExactQuotient(rest * ways, m.mux.Product());
  }

  lemma ColumnsOfMat(m: MatSettings)
    requires m.Valid() && m.Clamped() == m
    ensures BitsPerSubarray(m) == m.numDataBit / Sharing(m)
    ensures MatColumns(m)
         == m.numDataBit / Sharing(m) * Pow2(m.mux.Bits()) * (if m.memoryType == Tag then m.numWay else 1)
  {
    MuxProduct(m.mux);
  }

  lemma EnoughData(n: int, d: int)
    requires n >= 0 && d > 0
    ensures n / d != 0 <==> n >= d
  {
    if n < d {
      QuotientUnique(n, d, 0, n);
    } else {
      assert n / d >= 1 by {
        if n / d <= 0 {
          MulLe(d, n / d, 0);
        }
      }
    }
  }

  lemma PositiveRows(a: nat, ways: int)
    requires ways > 0
    ensures Pow2(a) * ways > 0
  {
    PositiveProduct(Pow2(a), ways);
  }

  lemma ClampKeepsRequest(m: MatSettings)
    requires m.Valid()
    ensures var c := m.Clamped();
            && c.Clamped() == c && c.Valid() && Left(c) == Left(m) && Sharing(c) == Sharing(m)
            && c.mux == m.mux && (m.mux.Bits() <= Left(m) ==> Request(c) == Request(m))
  {
  }

  /** A mat is accepted exactly when it works, and then has the rows and columns it asks for. */
  lemma AcceptedExactly(m: MatSettings, rejects: Electrical)
    requires m.Valid() && m.numDataBit >= 0
    ensures PlanMat(m, rejects).Accepted? <==> Works(m, rejects)
    ensures Works(m, rejects) ==>
      PlanMat(m, rejects) == Accepted(Request(m).numRow, Request(m).numColumn, Left(m) - m.mux.Bits())
  {
    var c := m.Clamped();
    ClampKeepsRequest(m);
    LeftIsAddress(m);
    ColumnsOfMat(c);
    EnoughData(m.numDataBit, Sharing(m));
    if Left(m) > 0 && m.mux.Bits() <= Left(m) {
      RowsOfMat(c, Left(m));
      PositiveRows(Left(m) - m.mux.Bits(), if m.memoryType == Data then m.numWay else 1);
    }
  }

  // ---- Banks ----

  /** Ways a bank leaves to each of its mats. */
  function WaysOfMat(b: BankSettings): int
    requires b.Valid()
  {
    if b.memoryType == Data then b.associativity
    else b.associativity / b.numActiveMatPerColumn / b.numActiveMatPerRow
  }

  /** The ways of a set fit the rows it has; a tag needs a single row and a whole way on
      every active mat. */
  predicate Legal(b: BankSettings)
    requires b.Valid()
  {
    if b.memoryType == Data then b.numRowPerSet <= b.associativity
    else b.numRowPerSet <= 1 && WaysOfMat(b) >= 1
  }

  /** What a clamped bank hands to its mat, field by field. */
  predicate Handed(b: BankSettings, dram: bool, m: MatSettings)
    requires b.Valid()
  {
    && m.memoryType == b.memoryType
    && m.numRowSubarray == b.numRowSubarray && m.numColumnSubarray == b.numColumnSubarray
    && m.numActiveSubarrayPerRow == b.numActiveSubarrayPerRow
    && m.numActiveSubarrayPerColumn == b.numActiveSubarrayPerColumn
    && m.numRowPerSet == b.numRowPerSet && m.areaOptimizationLevel == b.areaOptimizationLevel
    && m.numAddressBit
       == b.NumAddressBit() - Inactive(b.numRowMat, b.numColumnMat, b.numActiveMatPerColumn, b.numActiveMatPerRow)
    && m.numWay == WaysOfMat(b)
    && (b.memoryType == Data ==>
          && m.numDataBit == b.blockSize / b.numActiveMatPerColumn / b.numActiveMatPerRow
          && Spread(b.mux, m.mux, Log2(b.associativity) - Log2(b.numRowPerSet), dram))
    && (b.memoryType == Tag ==> m.numDataBit == b.blockSize && m.mux == b.mux)
  }

  lemma WaysPerRow(b: BankSettings, dram: bool)
    requires b.Valid() && b.numRowPerSet <= b.associativity
    ensures Spread(b.mux, Redistributed(b.mux, b.associativity / b.numRowPerSet, dram),
                   Log2(b.associativity) - Log2(b.numRowPerSet), dram)
  {
    QuotientOfPowers(b.associativity, b.numRowPerSet);
    RedistributionSpread(b.mux, b.associativity / b.numRowPerSet, dram);
  }

  /** A legal bank, and no other, hands over the mat it describes. */
  lemma HandedOver(settings: BankSettings, dram: bool)
    requires settings.Valid()
    ensures ClosedHandOff(settings, dram).ToMat? <==> Legal(settings.Clamped())
    ensures Legal(settings.Clamped()) ==> Handed(settings.Clamped(), dram, ClosedHandOff(settings, dram).mat)
  {
    var b := settings.Clamped();
    if b.memoryType == Data && b.numRowPerSet <= b.associativity {
      WaysPerRow(b, dram);
    }
  }

  /** Whatever mat the H-tree bank names is the described one too. */
  lemma HtreeHandedOver(settings: BankSettings, dram: bool)
    requires settings.Valid() && HtreeHandOff(settings, dram).ToMat?
    ensures Legal(settings.Clamped()) && Handed(settings.Clamped(), dram, HtreeHandOff(settings, dram).mat)
  {
    SurvivorsAgree(settings, dram);
    HandedOver(settings, dram);
  }

  lemma ShareNotNegative(n: nat, x: int, y: int)
    requires x > 0 && y > 0
    ensures n / x / y >= 0
  {
  }

  /** Both kinds of bank are accepted exactly when the bank is legal and the mat it describes
      works, and both hand over that mat whenever it could work under any rule. */
  lemma BankAcceptedExactly(settings: BankSettings, dram: bool, rejects: Electrical, m: MatSettings)
    requires settings.Valid() && m.Valid() && Handed(settings.Clamped(), dram, m)
    ensures PlanClosed(settings, dram, rejects).Accepted? <==> Legal(settings.Clamped()) && Works(m, rejects)
    ensures PlanHtree(settings, dram, rejects) == PlanClosed(settings, dram, rejects)
    ensures PlanClosed(settings, dram, rejects).Accepted? ==>
      && ClosedHandOff(settings, dram) == HtreeHandOff(settings, dram) == ToMat(m)
      && PlanClosed(settings, dram, rejects)
         == Accepted(Request(m).numRow, Request(m).numColumn, Left(m) - m.mux.Bits())
  {
    var b := settings.Clamped();
    SamePlan(settings, dram, rejects);
    HandedOver(settings, dram);
    if Legal(b) {
      HandedUnique(b, dram, m, ClosedHandOff(settings, dram).mat);
      ShareNotNegative(b.blockSize, b.numActiveMatPerColumn, b.numActiveMatPerRow);
      AcceptedExactly(m, rejects);
      HtreeRefinesClosedForm(settings, dram);
    }
  }

  lemma HandedUnique(b: BankSettings, dram: bool, m: MatSettings, n: MatSettings)
    requires b.Valid() && Handed(b, dram, m) && Handed(b, dram, n)
    ensures m == n
  {
    if b.memoryType == Data {
      SpreadUnique(b.mux, m.mux, n.mux, Log2(b.associativity) - Log2(b.numRowPerSet), dram);
    }
  }
}
