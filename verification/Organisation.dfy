/** How a memory is organised: the settings a bank and a mat are initialised from,
    and the plan each `Initialize` arrives at as a function of those settings. */
module Organisation {
  import opened PowersOfTwo

  datatype MemoryType = Data | Tag

  /** Column multiplexing degrees: bitlines per sense amplifier, then two output levels. */
  datatype Mux = Mux(senseAmp: int, outputLev1: int, outputLev2: int) {
    function Product(): int {
      senseAmp * outputLev1 * outputLev2
    }

    function Bits(): int
      requires PowersOfTwo()
    {
      Log2(senseAmp) + Log2(outputLev1) + Log2(outputLev2)
    }

    predicate PowersOfTwo() {
      IsPow2(senseAmp) && IsPow2(outputLev1) && IsPow2(outputLev2)
    }
  }

  /** The arguments of `Bank::Initialize`; they are also the fields a bank keeps. */
  datatype BankSettings = BankSettings(
    memoryType: MemoryType,
    numRowMat: int, numColumnMat: int, stackedDieCount: int,
    capacity: int, blockSize: int, associativity: int, numRowPerSet: int,
    numActiveMatPerRow: int, numActiveMatPerColumn: int,
    numRowSubarray: int, numColumnSubarray: int,
    numActiveSubarrayPerRow: int, numActiveSubarrayPerColumn: int,
    mux: Mux, areaOptimizationLevel: int)
  {
    /** Everything but the capacity and the block size is a power of two. */
    predicate Valid() {
      && capacity > 0 && blockSize > 0
      && IsPow2(numRowMat) && IsPow2(numColumnMat) && IsPow2(stackedDieCount)
      && IsPow2(associativity) && IsPow2(numRowPerSet)
      && IsPow2(numActiveMatPerRow) && IsPow2(numActiveMatPerColumn)
      && IsPow2(numRowSubarray) && IsPow2(numColumnSubarray)
      && IsPow2(numActiveSubarrayPerRow) && IsPow2(numActiveSubarrayPerColumn)
      && mux.PowersOfTwo()
    }

    /** The active counts as a bank stores them: never above the total counts. */
    function Clamped(): (b: BankSettings)
      ensures Valid() ==> b.Valid()
    {
      this.(numActiveMatPerRow := Min(numActiveMatPerRow, numColumnMat),
            numActiveMatPerColumn := Min(numActiveMatPerColumn, numRowMat),
            numActiveSubarrayPerRow := Min(numActiveSubarrayPerRow, numColumnSubarray),
            numActiveSubarrayPerColumn := Min(numActiveSubarrayPerColumn, numRowSubarray))
    }

    /** Bits that select a set within one die. */
    function NumAddressBit(): int
      requires Valid()
    {
      RoundedLog2(capacity, SetBits())
    }

    function SetBits(): (bits: int)
      requires Valid()
      ensures bits > 0
    {
      MulLe(blockSize, 1, associativity);
      MulLe(blockSize * associativity, 1, stackedDieCount);
      blockSize * associativity * stackedDieCount
    }
  }

  /** The arguments of `Mat::Initialize`. */
  datatype MatSettings = MatSettings(
    memoryType: MemoryType,
    numRowSubarray: int, numColumnSubarray: int,
    numAddressBit: int, numDataBit: int, numWay: int, numRowPerSet: int,
    numActiveSubarrayPerRow: int, numActiveSubarrayPerColumn: int,
    mux: Mux, areaOptimizationLevel: int)
  {
    predicate Valid() {
      && IsPow2(numRowSubarray) && IsPow2(numColumnSubarray)
      && IsPow2(numActiveSubarrayPerRow) && IsPow2(numActiveSubarrayPerColumn)
      && IsPow2(numWay) && IsPow2(numRowPerSet)
      && mux.PowersOfTwo()
    }

    function Clamped(): (m: MatSettings)
      ensures Valid() ==> m.Valid()
      ensures m.numActiveSubarrayPerRow <= m.numColumnSubarray
      ensures m.numActiveSubarrayPerColumn <= m.numRowSubarray
    {
      this.(numActiveSubarrayPerRow := Min(numActiveSubarrayPerRow, numColumnSubarray),
            numActiveSubarrayPerColumn := Min(numActiveSubarrayPerColumn, numRowSubarray))
    }

    function ActiveSubarrays(): int {
      numActiveSubarrayPerRow * numActiveSubarrayPerColumn
    }
  }

  /** What `SubArray::Initialize` is asked for. Its electrical checks are an arbitrary
      predicate on this request. */
  datatype SubarraySpec = SubarraySpec(
    numRow: int, numColumn: int, multipleRowPerSet: bool, mux: Mux, areaOptimizationLevel: int)

  type Electrical = SubarraySpec -> bool

  datatype MatPlan = Rejected | Accepted(numRow: int, numColumn: int, rowAddressBit: int)

  /** Address bits spent on switching off all but `active` of `rows * columns` blocks. */
  function GatingBits(rows: int, columns: int, activeRows: int, activeColumns: int): (bits: int)
    requires IsPow2(rows) && IsPow2(columns) && IsPow2(activeRows) && IsPow2(activeColumns)
    requires activeRows <= rows && activeColumns <= columns
    ensures rows * columns / activeRows / activeColumns > 0
    ensures bits == Log2(rows * columns / activeRows / activeColumns)
    ensures bits == Log2(rows) + Log2(columns) - Log2(activeRows) - Log2(activeColumns)
  {
    ProductOfPowers(rows, columns);
    PowersOrdered(activeRows, rows);
    PowersOrdered(activeColumns, columns);
    PowersOrdered(activeRows, rows * columns);
    QuotientOfPowers(rows * columns, activeRows);
    PowersOrdered(activeColumns, rows * columns / activeRows);
    QuotientOfPowers(rows * columns / activeRows, activeColumns);
    Log2(rows * columns / activeRows / activeColumns)
  }

  lemma MuxProduct(mux: Mux)
    requires mux.PowersOfTwo()
    ensures IsPow2(mux.Product())
    ensures Log2(mux.Product()) == mux.Bits()
  {
    ProductOfPowers(mux.senseAmp, mux.outputLev1);
    ProductOfPowers(mux.senseAmp * mux.outputLev1, mux.outputLev2);
  }

  /** Rows of a subarray: the sets, times the ways kept below one another, over the mux degree. */
  function MatRows(m: MatSettings, address: nat): int
    requires m.Valid()
  {
    MuxProduct(m.mux);
    var rows := if m.memoryType == Data then Pow2(address) * m.numWay else Pow2(address);
    rows / m.mux.Product()
  }

  function BitsPerSubarray(m: MatSettings): int
    requires m.Valid()
  {
    ProductOfPowers(m.numActiveSubarrayPerRow, m.numActiveSubarrayPerColumn);
    m.numDataBit / m.ActiveSubarrays()
  }

  function MatColumns(m: MatSettings): int
    requires m.Valid()
  {
    var columns := BitsPerSubarray(m) * m.mux.Product();
    if m.memoryType == Tag then columns * m.numWay else columns
  }

  function MatAddress(m: MatSettings): int
    requires m.Valid()
    requires m.numActiveSubarrayPerRow <= m.numColumnSubarray && m.numActiveSubarrayPerColumn <= m.numRowSubarray
  {
    m.numAddressBit - GatingBits(m.numRowSubarray, m.numColumnSubarray, m.numActiveSubarrayPerColumn,
                                 m.numActiveSubarrayPerRow)
  }

  /** Rows and columns of one subarray, or a refusal. */
  function PlanMat(settings: MatSettings, rejects: Electrical): MatPlan
    requires settings.Valid()
  {
    var m := settings.Clamped();
    var address := MatAddress(m);
    if address <= 0 || MatRows(m, address) == 0 || BitsPerSubarray(m) == 0 then Rejected
    else
      var rowBits := address - m.mux.Bits();
      var request := SubarraySpec(MatRows(m, address), MatColumns(m), m.numRowPerSet > 1, m.mux,
                                  m.areaOptimizationLevel);
      if rejects(request) || rowBits < 0 then Rejected
      else Accepted(request.numRow, request.numColumn, rowBits)
  }

  // ---- Bank level ----

  datatype HandOff = Refused | ToMat(mat: MatSettings)

  /** Spread the ways that share a row over the mux levels. DRAM cells cannot be
      multiplexed before the sense amplifier. */
  function Redistributed(mux: Mux, waysPerRow: int, dram: bool): (r: Mux)
    requires waysPerRow > 0
  {
    if waysPerRow <= 1 then mux
    else if dram then
      var lev2 := Pow2(Log2(waysPerRow) / 2);
      Mux(mux.senseAmp, mux.outputLev1 * (waysPerRow / lev2), mux.outputLev2 * lev2)
    else
      var lev := Pow2(Log2(waysPerRow) / 3);
      Mux(mux.senseAmp * (waysPerRow / lev / lev), mux.outputLev1 * lev, mux.outputLev2 * lev)
  }

  lemma ExtraDegrees(ways: int, dram: bool)
    requires IsPow2(ways) && ways > 1
    ensures dram ==> var lev2 := Pow2(Log2(ways) / 2);
              IsPow2(lev2) && IsPow2(ways / lev2) && Log2(ways / lev2) + Log2(lev2) == Log2(ways)
    ensures !dram ==> var lev := Pow2(Log2(ways) / 3);
              IsPow2(lev) && IsPow2(ways / lev / lev) && Log2(ways / lev / lev) + Log2(lev) + Log2(lev) == Log2(ways)
  {
    var l := Log2(ways);
    if dram {
      Log2OfPow2(l / 2);
      QuotientOfExponents(ways, Pow2(l / 2), l, l / 2);
    } else {
      var lev := Pow2(l / 3);
      Log2OfPow2(l / 3);
      QuotientOfExponents(ways, lev, l, l / 3);
      QuotientOfPowers(ways / lev, lev);
    }
  }

  lemma RedistributionBits(mux: Mux, waysPerRow: int, dram: bool)
    requires mux.PowersOfTwo() && IsPow2(waysPerRow)
    ensures var r := Redistributed(mux, waysPerRow, dram);
            r.PowersOfTwo() && r.Bits() == mux.Bits() + Log2(waysPerRow)
  {
    if waysPerRow > 1 {
      ExtraDegrees(waysPerRow, dram);
      if dram {
        var lev2 := Pow2(Log2(waysPerRow) / 2);
        ProductOfPowers(mux.outputLev1, waysPerRow / lev2);
        ProductOfPowers(mux.outputLev2, lev2);
      } else {
        var lev := Pow2(Log2(waysPerRow) / 3);
        ProductOfPowers(mux.senseAmp, waysPerRow / lev / lev);
        ProductOfPowers(mux.outputLev1, lev);
        ProductOfPowers(mux.outputLev2, lev);
      }
    }
  }

  lemma MuxRatio(mux: Mux, r: Mux, ways: int)
    requires mux.PowersOfTwo() && r.PowersOfTwo() && IsPow2(ways)
    requires r.Bits() == mux.Bits() + Log2(ways)
    ensures r.Product() == mux.Product() * ways
  {
    MuxProduct(mux);
    MuxProduct(r);
    Pow2Add(mux.Bits(), Log2(ways));
  }

  /** The redistribution multiplies the degrees by exactly the ways per row, and
      leaves the bitline degree of a DRAM cell alone. */
  lemma RedistributionExact(mux: Mux, waysPerRow: int, dram: bool)
    requires mux.PowersOfTwo() && IsPow2(waysPerRow)
    ensures var r := Redistributed(mux, waysPerRow, dram);
            && r.PowersOfTwo()
            && r.Product() == mux.Product() * waysPerRow
            && (dram ==> r.senseAmp == mux.senseAmp)
  {
    RedistributionBits(mux, waysPerRow, dram);
    MuxRatio(mux, Redistributed(mux, waysPerRow, dram), waysPerRow);
  }

  /** The mat of a data array, once its share of the address, of the word and of the ways
      is known: ways that share a row need extra mux degrees. */
  function DataMat(b: BankSettings, dram: bool, address: int, share: int, ways: int): (r: HandOff)
    requires b.Valid() && IsPow2(ways)
    ensures r.ToMat? ==> r.mat.Valid() && r.mat.numAddressBit == address && r.mat.numDataBit == share
  {
    if b.numRowPerSet > ways then Refused
    else
      QuotientOfPowers(ways, b.numRowPerSet);
      RedistributionBits(b.mux, ways / b.numRowPerSet, dram);
      ToMat(MatSettings(Data, b.numRowSubarray, b.numColumnSubarray, address, share, ways, b.numRowPerSet,
                        b.numActiveSubarrayPerRow, b.numActiveSubarrayPerColumn,
                        Redistributed(b.mux, ways / b.numRowPerSet, dram), b.areaOptimizationLevel))
  }

  /** The mat of a tag array: whole ways only, one row per set. */
  function TagMat(b: BankSettings, address: int, tagBits: int, ways: int): (r: HandOff)
    requires b.Valid() && (ways >= 1 ==> IsPow2(ways))
    ensures r.ToMat? ==> r.mat.Valid() && r.mat.numAddressBit == address && r.mat.numWay == ways
  {
    if b.numRowPerSet > 1 || ways < 1 then Refused
    else
      ToMat(MatSettings(Tag, b.numRowSubarray, b.numColumnSubarray, address, tagBits, ways, b.numRowPerSet,
                        b.numActiveSubarrayPerRow, b.numActiveSubarrayPerColumn, b.mux, b.areaOptimizationLevel))
  }

  /** Address bits left for a mat after switching off the inactive mats. */
  function MatAddressBits(b: BankSettings): int
    requires b.Valid() && b.numActiveMatPerRow <= b.numColumnMat && b.numActiveMatPerColumn <= b.numRowMat
  {
    b.NumAddressBit() - GatingBits(b.numRowMat, b.numColumnMat, b.numActiveMatPerColumn, b.numActiveMatPerRow)
  }

  lemma ShareOfPower(n: int, columns: int, rows: int)
    requires IsPow2(n) && IsPow2(columns) && IsPow2(rows)
    ensures n / columns / rows >= 1 ==> IsPow2(n / columns / rows)
  {
    QuotientOfPowers(n, columns);
    if n >= columns {
      QuotientOfPowers(n / columns, rows);
    } else {
      ZeroDivided(rows);
    }
  }

  lemma ZeroDivided(d: int)
    requires d > 0
    ensures 0 / d == 0
  {
  }

  /** `BankWithoutHtree::Initialize`: what the mat is given, in closed form. */
  function ClosedHandOff(settings: BankSettings, dram: bool): (r: HandOff)
    requires settings.Valid()
    ensures r.ToMat? ==> r.mat.Valid()
  {
    var b := settings.Clamped();
    match b.memoryType
    case Data =>
      DataMat(b, dram, MatAddressBits(b), b.blockSize / b.numActiveMatPerColumn / b.numActiveMatPerRow, b.associativity)
    case Tag =>
      ShareOfPower(b.associativity, b.numActiveMatPerColumn, b.numActiveMatPerRow);
      TagMat(b, MatAddressBits(b), b.blockSize, b.associativity / b.numActiveMatPerColumn / b.numActiveMatPerRow)
  }

  function PlanHandOff(handOff: HandOff, rejects: Electrical): MatPlan
    requires handOff.ToMat? ==> handOff.mat.Valid()
  {
    if handOff.Refused? then Rejected else PlanMat(handOff.mat, rejects)
  }
}
