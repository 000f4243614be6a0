/** Conservation of capacity: the product of all dimensions a mat and a bank settle on
    equals the capacity they were asked for, so the consistency exits of the search
    cannot be reached. */
module Capacity {
  import opened PowersOfTwo
  import opened Organisation

  /** The product the search compares with the capacity. */
  function StoredBits(b: BankSettings, numRow: int, numColumn: int): int {
    numColumn * numRow * b.numColumnMat * b.numRowMat * b.numColumnSubarray * b.numRowSubarray * b.stackedDieCount
  }

  /** Blocks that work on one access. */
  function ActivePartitions(b: BankSettings): int {
    b.numActiveMatPerRow * b.numActiveMatPerColumn * b.numActiveSubarrayPerRow * b.numActiveSubarrayPerColumn
  }

  // ---- One mat ----

  /** Dividing the rows by the mux degree loses nothing unless it leaves no row. */
  lemma RowsTimesDegree(address: nat, ways: int, degree: int)
    requires IsPow2(ways) && IsPow2(degree)
    requires Pow2(address) * ways / degree != 0
    ensures (Pow2(address) * ways / degree) * degree == Pow2(address) * ways
  {
    Log2OfPow2(address);
    ProductOfPowers(Pow2(address), ways);
    QuotientOfPowers(Pow2(address) * ways, degree);
  }

  lemma CellsOfSubarray(rows: int, degree: int, bits: int, ways: int, sets: int)
    requires rows * degree == sets
    ensures rows * (bits * degree * ways) == sets * bits * ways
  {
    MulAssoc(rows, degree, bits * ways);
    assert bits * degree * ways == degree * (bits * ways) by { MulAssoc(degree, bits, ways); }
    MulAssoc(sets, bits, ways);
  }

  lemma CellsAcrossSubarrays(address: nat, gating: nat, subarrays: int, active: int, perSubarray: int)
    requires gating <= address && subarrays == Pow2(gating) * active
    ensures Pow2(address - gating) * perSubarray * subarrays == Pow2(address) * (active * perSubarray)
  {
    Pow2Add(address - gating, gating);
    Regroup(Pow2(address - gating), perSubarray, Pow2(gating), active);
  }

  /** Blocks = 2^(gating bits) times active blocks. */
  lemma GatingExact(rows: int, columns: int, activeRows: int, activeColumns: int)
    requires IsPow2(rows) && IsPow2(columns) && IsPow2(activeRows) && IsPow2(activeColumns)
    requires activeRows <= rows && activeColumns <= columns
    ensures GatingBits(rows, columns, activeRows, activeColumns) >= 0
    ensures rows * columns == Pow2(GatingBits(rows, columns, activeRows, activeColumns)) * (activeRows * activeColumns)
  {
    var g := GatingBits(rows, columns, activeRows, activeColumns);
    PowersOrdered(activeRows, rows);
    PowersOrdered(activeColumns, columns);
    ProductOfPowers(rows, columns);
    ProductOfPowers(activeRows, activeColumns);
    Pow2Add(g, Log2(activeRows) + Log2(activeColumns));
  }

  /** Rows times degree, for either kind of array. */
  lemma RowsExact(m: MatSettings, address: nat)
    requires m.Valid() && MatRows(m, address) != 0
    ensures MatRows(m, address) * m.mux.Product()
         == if m.memoryType == Data then Pow2(address) * m.numWay else Pow2(address)
  {
    MuxProduct(m.mux);
    if m.memoryType == Data {
      RowsTimesDegree(address, m.numWay, m.mux.Product());
    } else {
      RowsTimesDegree(address, 1, m.mux.Product());
    }
  }

  lemma CellsByKind(rows: int, degree: int, bits: int, ways: int, sets: int, data: bool)
    requires rows * degree == if data then sets * ways else sets
    ensures rows * (if data then bits * degree else bits * degree * ways) == sets * (bits * ways)
  {
    if data {
      CellsOfSubarray(rows, degree, bits, 1, sets * ways);
      MulAssoc(sets, ways, bits);
      MulCommutes(ways, bits);
    } else {
      CellsOfSubarray(rows, degree, bits, ways, sets);
      MulAssoc(sets, bits, ways);
    }
  }

  /** Cells in one subarray of an accepted mat. */
  lemma SubarrayCells(m: MatSettings, address: nat)
    requires m.Valid() && MatRows(m, address) != 0
    ensures MatRows(m, address) * MatColumns(m) == Pow2(address) * (BitsPerSubarray(m) * m.numWay)
  {
    RowsExact(m, address);
    CellsByKind(MatRows(m, address), m.mux.Product(), BitsPerSubarray(m), m.numWay, Pow2(address),
                m.memoryType == Data);
  }

  /** All cells of an accepted mat: every set holds every way, and every way holds the
      data bits rounded down to the active subarrays. */
  lemma MatCells(settings: MatSettings, rejects: Electrical)
    requires settings.Valid() && PlanMat(settings, rejects).Accepted?
    ensures var plan := PlanMat(settings, rejects);
            var m := settings.Clamped();
            && settings.numAddressBit > 0 && m.ActiveSubarrays() > 0
            && plan.numRow * plan.numColumn * (m.numRowSubarray * m.numColumnSubarray)
               == Pow2(settings.numAddressBit) * (m.ActiveSubarrays() * (m.numDataBit / m.ActiveSubarrays() * m.numWay))
  {
    var m := settings.Clamped();
    ProductOfPowers(m.numActiveSubarrayPerRow, m.numActiveSubarrayPerColumn);
    SubarrayCells(m, MatAddress(m));
    GatingExact(m.numRowSubarray, m.numColumnSubarray, m.numActiveSubarrayPerColumn, m.numActiveSubarrayPerRow);
    var gating := GatingBits(m.numRowSubarray, m.numColumnSubarray, m.numActiveSubarrayPerColumn,
                             m.numActiveSubarrayPerRow);
    CellsAcrossSubarrays(m.numAddressBit, gating, m.numRowSubarray * m.numColumnSubarray, m.ActiveSubarrays(),
                         m.numDataBit / m.ActiveSubarrays() * m.numWay);
  }

  // ---- One bank ----

  lemma StoredBitsSplit(b: BankSettings, numRow: int, numColumn: int)
    ensures StoredBits(b, numRow, numColumn)
         == numRow * numColumn * (b.numRowSubarray * b.numColumnSubarray) * (b.numRowMat * b.numColumnMat)
            * b.stackedDieCount
  {
  }

  lemma CellsAcrossMats(address: nat, gating: nat, mats: int, active: int, perMat: int)
    requires mats == Pow2(gating) * active
    ensures Pow2(address) * perMat * mats == Pow2(address + gating) * (perMat * active)
  {
    Pow2Add(address, gating);
    Regroup(Pow2(address), perMat, Pow2(gating), active);
  }

  /** What the bank's share of data bits adds up to over all active blocks. */
  lemma DataBitsOfPartitions(block: nat, mats: nat, subarrays: nat, ways: int)
    requires mats > 0 && subarrays > 0
    ensures mats * subarrays > 0
    ensures subarrays * (block / mats / subarrays * ways) * mats
        == ways * (mats * subarrays * (block / (mats * subarrays)))
  {
    DivDiv(block, mats, subarrays);
    var q := block / mats / subarrays;
    assert subarrays * (q * ways) * mats == ways * (mats * subarrays * q) by { Shuffle(subarrays, q, ways, mats); }
  }

  lemma Shuffle(s: int, q: int, w: int, m: int)
    ensures s * (q * w) * m == w * (m * s * q)
  {
  }

  /** The bits of a bank whose mat is accepted, before the share of each mat is known. */
  lemma BankCells(settings: BankSettings, mat: MatSettings, rejects: Electrical)
    requires settings.Valid() && mat.Valid()
    requires var b := settings.Clamped();
             && mat.numAddressBit == b.NumAddressBit()
                 - GatingBits(b.numRowMat, b.numColumnMat, b.numActiveMatPerColumn, b.numActiveMatPerRow)
             && mat.numRowSubarray == b.numRowSubarray && mat.numColumnSubarray == b.numColumnSubarray
             && mat.numActiveSubarrayPerRow == b.numActiveSubarrayPerRow
             && mat.numActiveSubarrayPerColumn == b.numActiveSubarrayPerColumn
    requires PlanMat(mat, rejects).Accepted?
    ensures var b := settings.Clamped();
            var plan := PlanMat(mat, rejects);
            var active := b.numActiveSubarrayPerRow * b.numActiveSubarrayPerColumn;
            && b.NumAddressBit() > 0 && active > 0
            && StoredBits(b, plan.numRow, plan.numColumn)
               == Pow2(b.NumAddressBit())
                  * (active * (mat.numDataBit / active * mat.numWay) * (b.numActiveMatPerRow * b.numActiveMatPerColumn))
                  * b.stackedDieCount
  {
    var b := settings.Clamped();
    var plan := PlanMat(mat, rejects);
    var gating := GatingBits(b.numRowMat, b.numColumnMat, b.numActiveMatPerColumn, b.numActiveMatPerRow);
    var active := mat.Clamped().ActiveSubarrays();
    MatCells(mat, rejects);
    StoredBitsSplit(b, plan.numRow, plan.numColumn);
    GatingExact(b.numRowMat, b.numColumnMat, b.numActiveMatPerColumn, b.numActiveMatPerRow);
    CellsAcrossMats(mat.numAddressBit, gating, b.numRowMat * b.numColumnMat,
                    b.numActiveMatPerRow * b.numActiveMatPerColumn,
                    active * (mat.numDataBit / active * mat.numWay));
  }

  function PlanClosed(settings: BankSettings, dram: bool, rejects: Electrical): MatPlan
    requires settings.Valid()
  {
    PlanHandOff(ClosedHandOff(settings, dram), rejects)
  }

  /** Every data bank left valid stores, for each of its 2^A sets on each die, all the
      ways with the block rounded down to a multiple of the active partitions. No
      assumption on capacity or block size. */
  lemma DataBankCells(settings: BankSettings, dram: bool, rejects: Electrical)
    requires settings.Valid() && settings.memoryType == Data
    requires PlanClosed(settings, dram, rejects).Accepted?
    ensures var b := settings.Clamped();
            var plan := PlanClosed(settings, dram, rejects);
            var p := ActivePartitions(b);
            && b.NumAddressBit() > 0 && p > 0
            && StoredBits(b, plan.numRow, plan.numColumn)
               == Pow2(b.NumAddressBit()) * (b.associativity * (p * (b.blockSize / p))) * b.stackedDieCount
  {
    var b := settings.Clamped();
    var mat := ClosedHandOff(settings, dram).mat;
    BankCells(settings, mat, rejects);
    var mats := b.numActiveMatPerRow * b.numActiveMatPerColumn;
    var subarrays := b.numActiveSubarrayPerRow * b.numActiveSubarrayPerColumn;
    ProductOfPowers(b.numActiveMatPerRow, b.numActiveMatPerColumn);
    DivDiv(b.blockSize, b.numActiveMatPerColumn, b.numActiveMatPerRow);
    DataBitsOfPartitions(b.blockSize, mats, subarrays, b.associativity);
    assert ActivePartitions(b) == mats * subarrays by {
      MulAssoc(mats, b.numActiveSubarrayPerRow, b.numActiveSubarrayPerColumn);
    }
  }

  /** Every tag bank left valid stores, for each of its 2^A sets on each die, all the
      ways with the tag rounded down to a multiple of the active subarrays of a mat. */
  lemma TagBankCells(settings: BankSettings, dram: bool, rejects: Electrical)
    requires settings.Valid() && settings.memoryType == Tag
    requires PlanClosed(settings, dram, rejects).Accepted?
    ensures var b := settings.Clamped();
            var plan := PlanClosed(settings, dram, rejects);
            var s := b.numActiveSubarrayPerRow * b.numActiveSubarrayPerColumn;
            && b.NumAddressBit() > 0 && s > 0
            && StoredBits(b, plan.numRow, plan.numColumn)
               == Pow2(b.NumAddressBit()) * (b.associativity * (s * (b.blockSize / s))) * b.stackedDieCount
  {
    var b := settings.Clamped();
    var mat := ClosedHandOff(settings, dram).mat;
    BankCells(settings, mat, rejects);
    var rows, columns := b.numActiveMatPerRow, b.numActiveMatPerColumn;
    var s := b.numActiveSubarrayPerRow * b.numActiveSubarrayPerColumn;
    WaysSplitExactly(b.associativity, rows, columns);
    TagBitsOfMats(b.associativity, rows, columns, s, b.blockSize / s);
  }

  lemma WaysSplitExactly(ways: nat, rows: int, columns: int)
    requires IsPow2(ways) && IsPow2(rows) && IsPow2(columns) && ways / columns / rows >= 1
    ensures ways == (ways / columns) * columns && ways / columns == (ways / columns / rows) * rows
  {
    QuotientOfPowers(ways, columns);
    QuotientOfPowers(ways / columns, rows);
  }

  lemma TagBitsOfMats(ways: nat, rows: int, columns: int, s: int, bits: int)
    requires rows > 0 && columns > 0
    requires ways == (ways / columns) * columns && ways / columns == (ways / columns / rows) * rows
    ensures s * (bits * (ways / columns / rows)) * (rows * columns) == ways * (s * bits)
  {
    var w := ways / columns / rows;
    assert s * (bits * w) * (rows * columns) == s * bits * (w * rows * columns);
    assert w * rows * columns == ways;
  }

  // ---- The consistency exits of the search ----

  /** The capacity is a power-of-two number of sets on every die. */
  predicate PowerOfTwoSets(b: BankSettings)
    requires b.Valid()
  {
    b.capacity % b.SetBits() == 0 && IsPow2(b.capacity / b.SetBits())
  }

  lemma SetsCounted(b: BankSettings)
    requires b.Valid() && PowerOfTwoSets(b)
    ensures b.NumAddressBit() >= 0 && b.capacity == Pow2(b.NumAddressBit()) * b.SetBits()
  {
    var sets := b.capacity / b.SetBits();
    DivisionExact(b.capacity, b.SetBits());
    RoundedLog2Exact(Log2(sets), b.capacity, b.SetBits());
  }

  lemma SetsUncounted(b: BankSettings, j: nat)
    requires b.Valid() && b.capacity == Pow2(j) * b.SetBits()
    ensures PowerOfTwoSets(b)
  {
    ExactQuotient(Pow2(j), b.SetBits());
    Log2OfPow2(j);
  }

  lemma ExactMultiple(n: nat, d: int)
    requires d > 0
    ensures d * (n / d) <= n
    ensures n % d == 0 <==> d * (n / d) == n
  {
  }

  lemma SetBitsRegrouped(b: BankSettings, sets: int)
    requires b.Valid()
    ensures sets * (b.associativity * b.blockSize) * b.stackedDieCount == sets * b.SetBits()
  {
    MulCommutes(b.associativity, b.blockSize);
    MulAssoc(sets, b.associativity * b.blockSize, b.stackedDieCount);
  }

  lemma MulCommutes(x: int, y: int)
    ensures x * y == y * x
  {
  }

  /** A multiple of mats * subarrays is a multiple of subarrays. */
  lemma FactorDivides(n: nat, mats: int, subarrays: int)
    requires mats > 0 && subarrays > 0 && mats * subarrays > 0 && n % (mats * subarrays) == 0
    ensures n % subarrays == 0
  {
    var q := n / (mats * subarrays);
    assert n == q * mats * subarrays by { MulAssoc(q, mats, subarrays); }
    ExactQuotient(q * mats, subarrays);
  }

  /** Conservation for data and tag arrays. When the active partitions divide the block,
      a bank left valid stores exactly 2^A sets, so the search's check passes exactly for
      capacities that are a power-of-two number of sets. */
  lemma CapacityConserved(settings: BankSettings, dram: bool, rejects: Electrical)
    requires settings.Valid() && PlanClosed(settings, dram, rejects).Accepted?
    requires ActivePartitions(settings.Clamped()) > 0
    requires settings.blockSize % ActivePartitions(settings.Clamped()) == 0
    ensures var b := settings.Clamped();
            var plan := PlanClosed(settings, dram, rejects);
            var stored := StoredBits(b, plan.numRow, plan.numColumn);
            && b.NumAddressBit() > 0
            && stored == Pow2(b.NumAddressBit()) * b.SetBits()
            && (stored == settings.capacity <==> PowerOfTwoSets(settings))
  {
    var b := settings.Clamped();
    var p := ActivePartitions(b);
    if settings.memoryType == Data {
      DataBankCells(settings, dram, rejects);
      ExactMultiple(b.blockSize, p);
    } else {
      TagBankCells(settings, dram, rejects);
      var mats := b.numActiveMatPerRow * b.numActiveMatPerColumn;
      var s := b.numActiveSubarrayPerRow * b.numActiveSubarrayPerColumn;
      ProductOfPowers(b.numActiveMatPerRow, b.numActiveMatPerColumn);
      MulAssoc(mats, b.numActiveSubarrayPerRow, b.numActiveSubarrayPerColumn);
      FactorDivides(b.blockSize, mats, s);
      ExactMultiple(b.blockSize, s);
    }
    SetBitsRegrouped(b, Pow2(b.NumAddressBit()));
    assert settings.SetBits() == b.SetBits();
    if PowerOfTwoSets(settings) {
      SetsCounted(settings);
    }
    if settings.capacity == Pow2(b.NumAddressBit()) * b.SetBits() {
      SetsUncounted(settings, b.NumAddressBit());
    }
  }

  /** For a data array with a power-of-two number of sets, the check fails exactly when
      the active partitions do not divide the block. */
  lemma DataCheckExact(settings: BankSettings, dram: bool, rejects: Electrical)
    requires settings.Valid() && settings.memoryType == Data && PowerOfTwoSets(settings)
    requires PlanClosed(settings, dram, rejects).Accepted?
    ensures var b := settings.Clamped();
            var plan := PlanClosed(settings, dram, rejects);
            && ActivePartitions(b) > 0
            && (StoredBits(b, plan.numRow, plan.numColumn) == settings.capacity
                <==> settings.blockSize % ActivePartitions(b) == 0)
  {
    var b := settings.Clamped();
    var p := ActivePartitions(b);
    DataBankCells(settings, dram, rejects);
    if b.blockSize % p == 0 {
      CapacityConserved(settings, dram, rejects);
    } else {
      SetsCounted(settings);
      ExactMultiple(b.blockSize, p);
      SetBitsRegrouped(b, Pow2(b.NumAddressBit()));
      StrictlySmaller(Pow2(b.NumAddressBit()), b.associativity, p * (b.blockSize / p), b.blockSize, b.stackedDieCount);
    }
  }

  /** The bits a bank keeps of each set on all dies: the word, or the tag of every way,
      rounded down to what the active blocks share evenly. */
  function KeptBits(b: BankSettings): int
    requires b.Valid()
  {
    ActivePositive(b);
    var p := if b.memoryType == Data then ActivePartitions(b)
             else b.numActiveSubarrayPerRow * b.numActiveSubarrayPerColumn;
    b.associativity * (p * (b.blockSize / p)) * b.stackedDieCount
  }

  lemma ActivePositive(b: BankSettings)
    requires b.Valid()
    ensures ActivePartitions(b) > 0 && b.numActiveSubarrayPerRow * b.numActiveSubarrayPerColumn > 0
  {
    ProductOfPowers(b.numActiveMatPerRow, b.numActiveMatPerColumn);
    ProductOfPowers(b.numActiveMatPerRow * b.numActiveMatPerColumn, b.numActiveSubarrayPerRow);
    ProductOfPowers(b.numActiveSubarrayPerRow, b.numActiveSubarrayPerColumn);
    PositiveProduct(b.numActiveMatPerRow * b.numActiveMatPerColumn * b.numActiveSubarrayPerRow,
                    b.numActiveSubarrayPerColumn);
  }

  lemma KeptAtMostSet(b: BankSettings)
    requires b.Valid()
    ensures 0 <= KeptBits(b) <= b.SetBits()
  {
    ActivePositive(b);
    var p := if b.memoryType == Data then ActivePartitions(b)
             else b.numActiveSubarrayPerRow * b.numActiveSubarrayPerColumn;
    RoundedWithin(b.blockSize, p);
    KeptWithin(b.associativity, p * (b.blockSize / p), b.blockSize, b.stackedDieCount);
    SetBitsRegrouped(b, 1);
  }

  lemma RoundedWithin(n: nat, d: int)
    requires d > 0
    ensures 0 <= d * (n / d) <= n
  {
  }

  lemma KeptWithin(ways: int, x: int, y: int, dies: int)
    requires ways >= 0 && dies >= 0 && 0 <= x <= y
    ensures 0 <= ways * x * dies <= ways * y * dies
  {
    MulLe(ways, 0, x);
    MulLe(ways, x, y);
    MulLe(dies, 0, ways * x);
    MulLe(dies, ways * x, ways * y);
  }

  /** Any bank left valid stores 2^A times the bits it keeps of a set. */
  lemma StoresKeptBits(settings: BankSettings, dram: bool, rejects: Electrical)
    requires settings.Valid() && PlanClosed(settings, dram, rejects).Accepted?
    ensures var b := settings.Clamped();
            var plan := PlanClosed(settings, dram, rejects);
            b.NumAddressBit() > 0 && StoredBits(b, plan.numRow, plan.numColumn) == Pow2(b.NumAddressBit()) * KeptBits(b)
  {
    var b := settings.Clamped();
    var p := if b.memoryType == Data then ActivePartitions(b)
             else b.numActiveSubarrayPerRow * b.numActiveSubarrayPerColumn;
    if settings.memoryType == Data {
      DataBankCells(settings, dram, rejects);
    } else {
      TagBankCells(settings, dram, rejects);
    }
    MulAssoc(Pow2(b.NumAddressBit()), b.associativity * (p * (b.blockSize / p)), b.stackedDieCount);
  }

  /** The capacity check without any assumption on capacity or block size: a bank left valid
      passes exactly when the capacity is a power of two of the bits it keeps of a set, and
      those fall short of the bits it was asked for by a factor of at most the tenth root of
      two, which is where the rounded logarithm stops making up for the loss. */
  lemma CheckExact(settings: BankSettings, dram: bool, rejects: Electrical)
    requires settings.Valid() && PlanClosed(settings, dram, rejects).Accepted?
    ensures var b := settings.Clamped();
            var plan := PlanClosed(settings, dram, rejects);
            (StoredBits(b, plan.numRow, plan.numColumn) == settings.capacity
             <==> && KeptBits(b) > 0 && settings.capacity % KeptBits(b) == 0
                  && IsPow2(settings.capacity / KeptBits(b))
                  && Power(b.SetBits(), 10) <= 2 * Power(KeptBits(b), 10))
  {
    var b := settings.Clamped();
    var kept, a := KeptBits(b), b.NumAddressBit();
    StoresKeptBits(settings, dram, rejects);
    KeptAtMostSet(b);
    if kept > 0 {
      if Pow2(a) * kept == b.capacity {
        ExactQuotient(Pow2(a), kept);
        Log2OfPow2(a);
        RoundedDown(a, kept, b.SetBits());
      }
      if b.capacity % kept == 0 && IsPow2(b.capacity / kept) && Power(b.SetBits(), 10) <= 2 * Power(kept, 10) {
        CheckPasses(b, kept);
      }
    }
  }

  lemma CheckPasses(b: BankSettings, kept: int)
    requires b.Valid() && 0 < kept <= b.SetBits() && b.capacity % kept == 0 && IsPow2(b.capacity / kept)
    requires Power(b.SetBits(), 10) <= 2 * Power(kept, 10) && b.NumAddressBit() > 0
    ensures b.capacity == Pow2(b.NumAddressBit()) * kept
  {
    var j := Log2(b.capacity / kept);
    DivisionExact(b.capacity, kept);
    if j > 0 {
      RoundedDown(j, kept, b.SetBits());
    } else {
      if b.capacity < b.SetBits() {
        RoundedLog2BelowOne(b.capacity, b.SetBits());
      } else {
        RoundedLog2Exact(0, b.capacity, b.SetBits());
      }
      assert false;
    }
  }

  lemma StrictlySmaller(sets: int, ways: int, x: int, y: int, dies: int)
    requires sets > 0 && ways > 0 && dies > 0 && x < y
    ensures sets * (ways * x) * dies < sets * (ways * y) * dies
  {
    MulLe(ways, x + 1, y);
    MulLe(sets, ways * x + 1, ways * y);
    MulLe(dies, sets * (ways * x) + 1, sets * (ways * y));
  }

  /** The search skips a block with fewer bits than active partitions; for powers of two
      that leaves only exact divisions. */
  lemma GuardLeavesExactDivision(block: int, partitions: int)
    requires IsPow2(block) && IsPow2(partitions) && block / partitions != 0
    ensures block % partitions == 0
  {
    QuotientOfPowers(block, partitions);
    ExactQuotient(block / partitions, partitions);
  }

  // ---- A word of 12 bits over eight active mats ----

  /** One subarray without column mux takes any address and data, unless the electrical
      rule rejects it. */
  lemma LoneSubarrayAccepted(m: MatSettings, rejects: Electrical)
    requires m.Valid() && m.numRowSubarray == 1 && m.numColumnSubarray == 1
    requires m.numActiveSubarrayPerRow == 1 && m.numActiveSubarrayPerColumn == 1
    requires m.mux == Mux(1, 1, 1) && m.numAddressBit > 0 && m.numDataBit > 0
    ensures PlanMat(m, rejects).Accepted?
       <==> !rejects(SubarraySpec(MatRows(m, m.numAddressBit), MatColumns(m), m.numRowPerSet > 1, m.mux,
                                  m.areaOptimizationLevel))
  {
    assert m.Clamped() == m;
    GatingExact(m.numRowSubarray, m.numColumnSubarray, m.numActiveSubarrayPerColumn, m.numActiveSubarrayPerRow);
    LoneShape(m);
  }

  lemma LoneShape(m: MatSettings)
    requires m.Valid() && m.numActiveSubarrayPerRow == 1 && m.numActiveSubarrayPerColumn == 1 && m.mux == Mux(1, 1, 1)
    requires m.numAddressBit > 0
    ensures BitsPerSubarray(m) == m.numDataBit && m.mux.Product() == 1 && m.mux.Bits() == 0
    ensures MatRows(m, m.numAddressBit)
         == if m.memoryType == Data then Pow2(m.numAddressBit) * m.numWay else Pow2(m.numAddressBit)
    ensures MatRows(m, m.numAddressBit) > 0
    ensures MatColumns(m) == if m.memoryType == Tag then m.numDataBit * m.numWay else m.numDataBit
  {
    MuxProduct(m.mux);
    PositiveProduct(Pow2(m.numAddressBit), m.numWay);
  }

  /** A bank of 2^k sets of twelve bits, read eight mats at a time. */
  predicate TwelveBits(b: BankSettings, k: nat) {
    b == BankSettings(Data, 1, 8, 1, Pow2(k) * 12, 12, 1, 1, 8, 1, 1, 1, 1, 1, Mux(1, 1, 1), b.areaOptimizationLevel)
  }

  lemma TwelveBitsValid(b: BankSettings, k: nat)
    requires TwelveBits(b, k)
    ensures b.Valid() && b.Clamped() == b && ActivePartitions(b) == 8
    ensures b.NumAddressBit() == k && PowerOfTwoSets(b)
  {
    KnownPower(1, 0);
    KnownPower(8, 3);
    RoundedLog2Exact(k, b.capacity, 12);
    ExactQuotient(Pow2(k), 12);
    Log2OfPow2(k);
  }

  lemma TwelveBitsAccepted(b: BankSettings, k: nat, rejects: Electrical)
    requires TwelveBits(b, k) && k > 0 && b.Valid() && b.Clamped() == b && b.NumAddressBit() == k
    ensures PlanClosed(b, false, rejects).Accepted?
       <==> !rejects(SubarraySpec(Pow2(k), 1, false, Mux(1, 1, 1), b.areaOptimizationLevel))
  {
    GatingExact(b.numRowMat, b.numColumnMat, b.numActiveMatPerColumn, b.numActiveMatPerRow);
    var m := ClosedHandOff(b, false).mat;
    LoneSubarrayAccepted(m, rejects);
    LoneShape(m);
  }

  /** The guard of the search lets every such bank through, and under any electrical rule
      that takes its subarray the capacity check then ends the process. */
  lemma DataCheckCanFail(b: BankSettings, k: nat, rejects: Electrical)
    requires TwelveBits(b, k) && k > 0
    ensures b.Valid() && PowerOfTwoSets(b) && ActivePartitions(b) > 0 && b.blockSize / ActivePartitions(b) != 0
    ensures var plan := PlanClosed(b, false, rejects);
            && (plan.Accepted? <==> !rejects(SubarraySpec(Pow2(k), 1, false, Mux(1, 1, 1), b.areaOptimizationLevel)))
            && (plan.Accepted? ==> StoredBits(b, plan.numRow, plan.numColumn) != b.capacity)
  {
    TwelveBitsValid(b, k);
    TwelveBitsAccepted(b, k, rejects);
    if PlanClosed(b, false, rejects).Accepted? {
      DataCheckExact(b, false, rejects);
    }
  }
}
