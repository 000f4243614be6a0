/** One trial of the search: build a bank, measure it, and check its capacity. */
module Trials {
  import opened PowersOfTwo
  import opened Organisation
  import opened Capacity
  import opened BankRouting
  import opened Banks
  import opened Results

  datatype Measured = Measured(invalid: bool, metrics: Metrics)

  /** A memory cell technology and routing mode. The electrical checks of a subarray under
      a local wire, and the area, delay and power of a built bank, are arbitrary. */
  datatype Cell = Cell(
    htree: bool, dram: bool,
    rejects: (SubarraySpec, Wire) -> bool,
    measure: (BankSettings, int, int, Wire, Wire) -> Measured)

  function ElectricalRule(cell: Cell, localWire: Wire): Electrical {
    (spec: SubarraySpec) => cell.rejects(spec, localWire)
  }

  function Plan(cell: Cell, settings: BankSettings, localWire: Wire): MatPlan
    requires settings.Valid()
  {
    if cell.htree then PlanHtree(settings, cell.dram, ElectricalRule(cell, localWire))
    else PlanClosed(settings, cell.dram, ElectricalRule(cell, localWire))
  }

  /** A trial bank: whether it is invalid, and what a result would copy from it. */
  datatype Trial = Trial(invalid: bool, stored: Stored)

  function Evaluate(cell: Cell, settings: BankSettings, localWire: Wire, globalWire: Wire): Trial
    requires settings.Valid()
  {
    match Plan(cell, settings, localWire)
    case Rejected => Trial(true, Stored(Blank, WORST, localWire, globalWire))
    case Accepted(numRow, numColumn, _) =>
      var m := cell.measure(settings.Clamped(), numRow, numColumn, localWire, globalWire);
      Trial(m.invalid, Stored(Built(settings.Clamped(), numRow, numColumn), m.metrics, localWire, globalWire))
  }

  /** The macro `CALCULATE`, for either kind of bank. */
  method Calculate(cell: Cell, settings: BankSettings, localWire: Wire, globalWire: Wire) returns (trial: Trial)
    requires settings.Valid()
    ensures trial == Evaluate(cell, settings, localWire, globalWire)
  {
    if cell.htree {
      var bank := new BankWithHtree();
      bank.Initialize(settings, cell.dram, ElectricalRule(cell, localWire));
      if bank.invalid {
        return Trial(true, Stored(Blank, WORST, localWire, globalWire));
      }
      var m := cell.measure(bank.settings, bank.mat.numRow, bank.mat.numColumn, localWire, globalWire);
      var design := Built(bank.settings, bank.mat.numRow, bank.mat.numColumn);
      trial := Trial(m.invalid, Stored(design, m.metrics, localWire, globalWire));
    } else {
      var bank := new BankWithoutHtree();
      bank.Initialize(settings, cell.dram, ElectricalRule(cell, localWire));
      if bank.invalid {
        return Trial(true, Stored(Blank, WORST, localWire, globalWire));
      }
      var m := cell.measure(bank.settings, bank.mat.numRow, bank.mat.numColumn, localWire, globalWire);
      var design := Built(bank.settings, bank.mat.numRow, bank.mat.numColumn);
      trial := Trial(m.invalid, Stored(design, m.metrics, localWire, globalWire));
    }
  }

  /** Building again from the settings a valid bank kept is the same trial. */
  lemma RebuildSameTrial(cell: Cell, settings: BankSettings, localWire: Wire, globalWire: Wire)
    requires settings.Valid()
    ensures Evaluate(cell, settings.Clamped(), localWire, globalWire) == Evaluate(cell, settings, localWire, globalWire)
  {
    RebuildSamePlan(settings, cell.dram, ElectricalRule(cell, localWire));
    SamePlan(settings, cell.dram, ElectricalRule(cell, localWire));
    SamePlan(settings.Clamped(), cell.dram, ElectricalRule(cell, localWire));
  }

  /** The consistency check of the search on a built bank. */
  predicate CapacityHolds(s: Stored) {
    s.design.Built? ==> StoredBits(s.design.settings, s.design.numRow, s.design.numColumn) == s.design.settings.capacity
  }

  /** Capacity and block size are such that any bank with address bits passes the check. */
  predicate Countable(b: BankSettings) {
    && b.Valid()
    && (b.capacity >= b.SetBits() ==> PowerOfTwoSets(b))
    && ActivePartitions(b.Clamped()) > 0
    && b.blockSize % ActivePartitions(b.Clamped()) == 0
  }

  /** The exit "capacity violation" is unreachable for every bank of either kind. */
  lemma TrialConservesCapacity(cell: Cell, settings: BankSettings, localWire: Wire, globalWire: Wire)
    requires Countable(settings)
    ensures CapacityHolds(Evaluate(cell, settings, localWire, globalWire).stored)
  {
    var rule := ElectricalRule(cell, localWire);
    SamePlan(settings, cell.dram, rule);
    if PlanClosed(settings, cell.dram, rule).Accepted? {
      CapacityConserved(settings, cell.dram, rule);
      if settings.capacity < settings.SetBits() {
        RoundedLog2BelowOne(settings.capacity, settings.SetBits());
      }
    }
  }

  // ---- What the search tries ----

  /** The array to be built: a data array, or a tag array whose width is rounded up. */
  datatype Job =
    | DataJob(capacity: int, blockSize: int, associativity: int)
    | TagJob(lines: int, tagWidth: int, associativity: int)
  {
    predicate Valid() {
      && IsPow2(associativity)
      && match this
         case DataJob(c, b, _) => IsPow2(c) && IsPow2(b)
         case TagJob(l, w, _) => IsPow2(l) && w > 0
    }
  }

  /** The tag width the search asks for: rounded up to a multiple of the active partitions. */
  function RoundedWidth(width: int, partitions: int): int
    requires partitions > 0
  {
    if width % partitions != 0 then (width / partitions + 1) * partitions else width
  }

  /** The rounded width is the least multiple of the partitions that holds the tag. */
  lemma RoundedWidthLeast(width: int, partitions: int, other: int)
    requires partitions > 0 && width > 0
    ensures var w := RoundedWidth(width, partitions);
            && w % partitions == 0 && width <= w < width + partitions
            && (other % partitions == 0 && width <= other ==> w <= other)
  {
    var q := width / partitions;
    ExactQuotient(q + 1, partitions);
    if other % partitions == 0 && width <= other && width % partitions != 0 {
      var k := other / partitions;
      assert k > q by {
        if k <= q {
          MulLe(partitions, k, q);
        }
      }
      MulLe(partitions, q + 1, k);
    }
  }

  /** 48 address bits less index and offset, plus a valid and a dirty bit. */
  function TagWidth(capacityBytes: int, wordWidth: int, associativity: int): int
    requires wordWidth >= 8 && associativity > 0 && capacityBytes * 8 / wordWidth / associativity > 0
  {
    var numDataSet := capacityBytes * 8 / wordWidth / associativity;
    48 - RoundedLog2(numDataSet, 1) - RoundedLog2(wordWidth / 8, 1) + 2
  }

  datatype AccessMode = Normal | Sequential | Fast

  /** The data array of a cache, by access mode: sequential access already knows the way,
      fast access reads the whole set as one word. */
  function DataJobOf(mode: AccessMode, capacityBytes: int, wordWidth: int, associativity: int): Job {
    match mode
    case Normal => DataJob(capacityBytes * 8, wordWidth, associativity)
    case Sequential => DataJob(capacityBytes * 8, wordWidth, 1)
    case Fast => DataJob(capacityBytes * 8, wordWidth * associativity, 1)
  }

  /** The tag array of a cache: one tag for every word. */
  function TagJobOf(capacityBytes: int, wordWidth: int, associativity: int): Job
    requires wordWidth >= 8 && associativity > 0 && capacityBytes * 8 / wordWidth / associativity > 0
  {
    TagJob(capacityBytes * 8 / wordWidth, TagWidth(capacityBytes, wordWidth, associativity), associativity)
  }

  /** Every access mode stores the whole capacity. A set is one word on each way when accessed
      normally, one word of a single way when the way is already known, and one word as wide
      as all ways when all are read at once. */
  lemma DataArrayOfMode(mode: AccessMode, capacityBytes: int, wordWidth: int, associativity: int)
    ensures var job := DataJobOf(mode, capacityBytes, wordWidth, associativity);
            && job.DataJob? && job.capacity == 8 * capacityBytes
            && job.associativity == (if mode == Normal then associativity else 1)
            && job.blockSize * job.associativity == wordWidth * (if mode == Sequential then 1 else associativity)
            && (mode == Normal ==> job.blockSize == wordWidth)
  {
  }

  /** There is a tag for every word, and tag, index and offset bits make up 48 address bits
      and two flags. */
  lemma TagArrayOfCache(capacityBytes: int, wordWidth: int, associativity: int, index: nat, offset: nat)
    requires IsPow2(capacityBytes) && IsPow2(wordWidth) && IsPow2(associativity)
    requires wordWidth >= 8 && capacityBytes * 8 / wordWidth / associativity > 0
    requires wordWidth == 8 * Pow2(offset) && 8 * capacityBytes == wordWidth * (associativity * Pow2(index))
    ensures var job := TagJobOf(capacityBytes, wordWidth, associativity);
            && job.TagJob? && job.lines * wordWidth == 8 * capacityBytes && job.associativity == associativity
            && job.tagWidth + index + offset == 48 + 2
  {
    var sets := Pow2(index);
    ExactQuotient(associativity * sets, wordWidth);
    MulCommuted(wordWidth, associativity * sets);
    ExactQuotient(sets, associativity);
    MulCommuted(associativity, sets);
    RoundedLog2Exact(index, sets, 1);
    ExactQuotient(Pow2(offset), 8);
    RoundedLog2Exact(offset, wordWidth / 8, 1);
  }

  lemma MulCommuted(x: int, y: int)
    ensures x * y == y * x
  {
  }

  /** A cache of power-of-two geometry gives the search a valid data array in every access
      mode, and a valid tag array as soon as any tag bit is left. */
  lemma CacheJobsValid(mode: AccessMode, capacityBytes: int, wordWidth: int, associativity: int)
    requires IsPow2(capacityBytes) && IsPow2(wordWidth) && IsPow2(associativity)
    requires wordWidth >= 8 && capacityBytes * 8 / wordWidth / associativity > 0
    ensures DataJobOf(mode, capacityBytes, wordWidth, associativity).Valid()
    ensures TagJobOf(capacityBytes, wordWidth, associativity).Valid()
        <==> TagWidth(capacityBytes, wordWidth, associativity) > 0
  {
    KnownPower(1, 0);
    KnownPower(8, 3);
    ProductOfPowers(capacityBytes, 8);
    ProductOfPowers(wordWidth, associativity);
    QuotientOfPowers(capacityBytes * 8, wordWidth);
    if capacityBytes * 8 < wordWidth {
      ZeroDivided(associativity);
    }
  }

  datatype Option<T> = None | Some(value: T)

  /** The organisation for one tuple of loop counters, or nothing if it has more active
      partitions than bits. */
  function Prepare(job: Job, v: seq<int>): Option<BankSettings>
    requires |v| == 14 && v[3] * v[4] * v[7] * v[8] > 0
  {
    var p := v[3] * v[4] * v[7] * v[8];
    match job
    case DataJob(capacity, blockSize, associativity) =>
      if blockSize / p == 0 then None
      else Some(SettingsOf(Data, v, capacity, blockSize, associativity))
    case TagJob(lines, tagWidth, associativity) =>
      if tagWidth / p == 0 then None
      else Some(SettingsOf(Tag, v, lines * RoundedWidth(tagWidth, p), RoundedWidth(tagWidth, p), associativity))
  }

  /** The counters in the order of the loops. */
  function SettingsOf(memoryType: MemoryType, v: seq<int>, capacity: int, blockSize: int,
                      associativity: int): BankSettings
    requires |v| == 14
  {
    BankSettings(memoryType, v[0], v[1], v[2], capacity, blockSize, associativity, v[12],
                 v[3], v[4], v[5], v[6], v[7], v[8], Mux(v[9], v[10], v[11]), v[13])
  }

  /** Counters as the loops produce them: powers of two, active counts within totals. */
  predicate Counters(v: seq<int>) {
    && |v| == 14 && (forall k :: 0 <= k < 13 ==> IsPow2(v[k]))
    && v[3] <= v[1] && v[4] <= v[0] && v[7] <= v[6] && v[8] <= v[5]
  }

  lemma PartitionsPow2(v: seq<int>)
    requires Counters(v)
    ensures IsPow2(v[3] * v[4] * v[7] * v[8])
  {
    ProductOfPowers(v[3], v[4]);
    ProductOfPowers(v[3] * v[4], v[7]);
    ProductOfPowers(v[3] * v[4] * v[7], v[8]);
  }

  lemma ExactPowers(c: int, d: int)
    requires IsPow2(c) && IsPow2(d) && c >= d
    ensures c % d == 0 && IsPow2(c / d)
  {
    QuotientOfPowers(c, d);
    ExactQuotient(c / d, d);
  }

  lemma ProductOfThree(x: int, y: int, z: int)
    requires IsPow2(x) && IsPow2(y) && IsPow2(z)
    ensures IsPow2(x * y * z)
  {
    ProductOfPowers(x, y);
    ProductOfPowers(x * y, z);
  }

  lemma DataCountable(b: BankSettings)
    requires b.Valid() && IsPow2(b.capacity) && IsPow2(b.blockSize)
    ensures b.capacity >= b.SetBits() ==> PowerOfTwoSets(b)
  {
    ProductOfThree(b.blockSize, b.associativity, b.stackedDieCount);
    if b.capacity >= b.SetBits() {
      ExactPowers(b.capacity, b.SetBits());
    }
  }

  lemma CancelFactor(x: int, y: int, width: int)
    requires width > 0 && x * width >= y * width
    ensures x >= y
  {
    if x < y {
      MulLe(width, x + 1, y);
    }
  }

  lemma MultipleScaled(q: int, sets: int, width: int)
    requires sets > 0 && width > 0
    ensures sets * width > 0
    ensures (q * sets * width) % (sets * width) == 0 && q * sets * width / (sets * width) == q
  {
    MulLe(width, 1, sets);
    MulAssoc(q, sets, width);
    ExactQuotient(q, sets * width);
  }

  /** A tag width is no power of two, but it cancels. */
  lemma WidthCancels(lines: int, width: int, sets: int)
    requires IsPow2(lines) && IsPow2(sets) && width > 0 && lines * width >= sets * width
    ensures sets * width > 0
    ensures (lines * width) % (sets * width) == 0 && IsPow2(lines * width / (sets * width))
  {
    CancelFactor(lines, sets, width);
    QuotientOfPowers(lines, sets);
    MultipleScaled(lines / sets, sets, width);
  }

  lemma TagCountable(lines: int, b: BankSettings)
    requires b.Valid() && IsPow2(lines) && b.capacity == lines * b.blockSize
    ensures b.capacity >= b.SetBits() ==> PowerOfTwoSets(b)
  {
    ProductOfPowers(b.associativity, b.stackedDieCount);
    assert b.SetBits() == (b.associativity * b.stackedDieCount) * b.blockSize by {
      MulAssoc(b.blockSize, b.associativity, b.stackedDieCount);
    }
    if b.capacity >= b.SetBits() {
      WidthCancels(lines, b.blockSize, b.associativity * b.stackedDieCount);
    }
  }

  lemma SettingsValid(memoryType: MemoryType, v: seq<int>, capacity: int, blockSize: int, associativity: int)
    requires Counters(v) && capacity > 0 && blockSize > 0 && IsPow2(associativity)
    ensures var b := SettingsOf(memoryType, v, capacity, blockSize, associativity);
            b.Valid() && b.Clamped() == b && ActivePartitions(b) == v[3] * v[4] * v[7] * v[8]
  {
  }

  lemma DataPrepared(v: seq<int>, capacity: int, blockSize: int, associativity: int)
    requires Counters(v) && IsPow2(capacity) && IsPow2(blockSize) && IsPow2(associativity)
    requires v[3] * v[4] * v[7] * v[8] > 0 && blockSize / (v[3] * v[4] * v[7] * v[8]) != 0
    ensures Countable(SettingsOf(Data, v, capacity, blockSize, associativity))
  {
    SettingsValid(Data, v, capacity, blockSize, associativity);
    PartitionsPow2(v);
    GuardLeavesExactDivision(blockSize, v[3] * v[4] * v[7] * v[8]);
    DataCountable(SettingsOf(Data, v, capacity, blockSize, associativity));
  }

  lemma TagPrepared(v: seq<int>, lines: int, width: int, associativity: int)
    requires Counters(v) && IsPow2(lines) && width > 0 && IsPow2(associativity)
    requires v[3] * v[4] * v[7] * v[8] > 0 && width % (v[3] * v[4] * v[7] * v[8]) == 0
    ensures Countable(SettingsOf(Tag, v, lines * width, width, associativity))
  {
    MulLe(width, 1, lines);
    SettingsValid(Tag, v, lines * width, width, associativity);
    TagCountable(lines, SettingsOf(Tag, v, lines * width, width, associativity));
  }

  /** Every organisation the search builds passes the capacity check if it is accepted. */
  lemma PreparedCountable(job: Job, v: seq<int>)
    requires job.Valid() && Counters(v)
    ensures v[3] * v[4] * v[7] * v[8] > 0
    ensures Prepare(job, v).Some? ==> Countable(Prepare(job, v).value)
  {
    PartitionsPow2(v);
    var p := v[3] * v[4] * v[7] * v[8];
    match job
    case DataJob(capacity, blockSize, associativity) =>
      if blockSize / p != 0 {
        DataPrepared(v, capacity, blockSize, associativity);
      }
    case TagJob(lines, tagWidth, associativity) =>
      RoundedWidthLeast(tagWidth, p, 0);
      TagPrepared(v, lines, RoundedWidth(tagWidth, p), associativity);
  }
}
