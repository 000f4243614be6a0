/** The constraints of `inverse_physics_validity.py` against the allocator they stand for,
    on designs whose encoded values are whole logarithms. */
module PhysicsPenalties {
  import opened PowersOfTwo
  import opened Organisation
  import opened Capacity
  import opened BankRouting
  import opened Trials

  function Relu(x: real): real {
    if x > 0.0 then x else 0.0
  }

  /** Nearest whole number. Which way halves go does not matter here. */
  function Round(x: real): real {
    (x + 0.5).Floor as real
  }

  /** `calculate_divisibility_penalty`. */
  function DivisibilityPenalty(numLog2: real, denLog2: real): real {
    var diff := numLog2 - denLog2;
    var frac := diff - Round(diff);
    Relu(-diff) + frac * frac
  }

  lemma WholeRound(n: int)
    ensures Round(n as real) == n as real
  {
    var f := (n as real + 0.5).Floor;
    assert f as real <= n as real + 0.5 < f as real + 1.0;
    assert (f - n) as real <= 0.5 && -0.5 < (f - n) as real;
  }

  lemma NoFraction(num: int, den: int)
    ensures DivisibilityPenalty(num as real, den as real) == Relu((den - num) as real)
  {
    var diff := num as real - den as real;
    assert diff == (num - den) as real;
    WholeRound(num - den);
    var frac := diff - Round(diff);
    assert frac == 0.0;
    assert frac * frac == 0.0;
    assert -diff == (den - num) as real;
  }

  /** On whole logarithms the penalty vanishes exactly when one power divides the other. */
  lemma DivisibilityPenaltyExact(num: int, den: int)
    ensures DivisibilityPenalty(num as real, den as real) == 0.0 <==> den <= num
  {
    NoFraction(num, den);
  }

  /** The derived tag width, at least one. */
  function DerivedTagWidth(capacityKbLog2: real, assocLog2: real): real {
    var width := 40.0 - capacityKbLog2 + assocLog2;
    if width < 1.0 then 1.0 else width
  }

  /** The derived width is the allocator's width before rounding up, exactly when that
      width is positive. The word width cancels. */
  lemma DerivedTagWidthExact(capacityKb: nat, wordWidth: nat, associativity: nat)
    requires IsPow2(capacityKb) && IsPow2(wordWidth) && IsPow2(associativity)
    requires wordWidth >= 8 && capacityKb * 1024 * 8 / wordWidth / associativity > 0
    ensures DerivedTagWidth(Log2(capacityKb) as real, Log2(associativity) as real)
            == TagWidth(capacityKb * 1024, wordWidth, associativity) as real
       <==> TagWidth(capacityKb * 1024, wordWidth, associativity) >= 1
  {
    WidthFromExponents(capacityKb, wordWidth, associativity, Log2(capacityKb), Log2(wordWidth), Log2(associativity));
  }

  lemma Thirteen(k: nat)
    ensures Pow2(k) * 1024 * 8 == Pow2(k + 13) && Pow2(3) == 8
  {
    assert Pow2(3) == 8;
    assert Pow2(13) == 1024 * Pow2(3);
    Pow2Add(k, 13);
  }

  /** Sets of a cache, by exponents. */
  lemma SetsByExponents(bits: nat, word: nat, assoc: nat, c: nat, w: nat, a: nat)
    requires bits == Pow2(c) && word == Pow2(w) && assoc == Pow2(a) && bits / word / assoc > 0
    ensures c >= w + a && bits / word / assoc == Pow2(c - w - a)
  {
    Pow2Quotient(c, w);
    if c < w {
      ZeroDivided(assoc);
    } else {
      Pow2Quotient(c - w, a);
    }
  }

  lemma RoundedLog2OfPower(n: nat, k: nat)
    requires n == Pow2(k)
    ensures RoundedLog2(n, 1) == k
  {
    RoundedLog2Exact(k, n, 1);
  }

  lemma BytesByExponents(word: nat, w: nat)
    requires word == Pow2(w) && word >= 8
    ensures w >= 3 && word / 8 == Pow2(w - 3)
  {
    Thirteen(0);
    Pow2Quotient(w, 3);
  }

  /** Index bits and offset bits, by exponents. */
  lemma IndexBits(bits: nat, word: nat, assoc: nat, c: nat, w: nat, a: nat)
    requires bits == Pow2(c) && word == Pow2(w) && assoc == Pow2(a) && bits / word / assoc > 0
    ensures RoundedLog2(bits / word / assoc, 1) == c - w - a
  {
    SetsByExponents(bits, word, assoc, c, w, a);
    RoundedLog2OfPower(bits / word / assoc, c - w - a);
  }

  lemma OffsetBits(word: nat, w: nat)
    requires word == Pow2(w) && word >= 8
    ensures word / 8 > 0 && RoundedLog2(word / 8, 1) == w - 3
  {
    BytesByExponents(word, w);
    RoundedLog2OfPower(word / 8, w - 3);
  }

  lemma WidthFromExponents(kb: nat, word: nat, assoc: nat, k: nat, w: nat, a: nat)
    requires kb == Pow2(k) && word == Pow2(w) && assoc == Pow2(a) && word >= 8
    requires kb * 1024 * 8 / word / assoc > 0
    ensures TagWidth(kb * 1024, word, assoc) == 40 - k + a
  {
    Thirteen(k);
    IndexBits(kb * 1024 * 8, word, assoc, k + 13, w, a);
    OffsetBits(word, w);
  }

  /** The logarithms of a tag design, as the penalties read them. */
  datatype TagDesign = TagDesign(
    capBitsLog2: real, wordWidthLog2: real, assocLog2: real,
    matRow: real, matColumn: real, activeMatRow: real, activeMatColumn: real,
    subRow: real, subColumn: real, activeSubRow: real, activeSubColumn: real)
  {
    function AddressBitsRemaining(): real {
      var initial := capBitsLog2 - wordWidthLog2 - assocLog2;
      var consumed := (matRow + matColumn) - (activeMatRow + activeMatColumn)
                      + (subRow + subColumn) - (activeSubRow + activeSubColumn);
      initial - consumed
    }

    function AddressPenalty(): real {
      100.0 * Relu(1.0 - AddressBitsRemaining())
    }

    function WayPenalty(): real {
      100.0 * DivisibilityPenalty(assocLog2, activeMatRow + activeMatColumn)
    }
  }

  /** A tag bank of the search and the cache it belongs to. */
  predicate TagBankOf(b: BankSettings, capacityBits: nat, wordWidth: nat) {
    && b.Valid() && b.memoryType == Tag && b.Clamped() == b
    && IsPow2(capacityBits) && IsPow2(wordWidth)
    && b.capacity == capacityBits / wordWidth * b.blockSize
  }

  function DesignOf(b: BankSettings, capacityBits: nat, wordWidth: nat): TagDesign
    requires TagBankOf(b, capacityBits, wordWidth)
  {
    TagDesign(Log2(capacityBits) as real, Log2(wordWidth) as real, Log2(b.associativity) as real,
              Log2(b.numRowMat) as real, Log2(b.numColumnMat) as real,
              Log2(b.numActiveMatPerRow) as real, Log2(b.numActiveMatPerColumn) as real,
              Log2(b.numRowSubarray) as real, Log2(b.numColumnSubarray) as real,
              Log2(b.numActiveSubarrayPerRow) as real, Log2(b.numActiveSubarrayPerColumn) as real)
  }

  lemma TagSetBits(b: BankSettings)
    requires b.Valid()
    ensures b.SetBits() == b.associativity * b.stackedDieCount * b.blockSize
  {
    MulAssoc(b.blockSize, b.associativity, b.stackedDieCount);
    MulCommutes(b.blockSize, b.associativity * b.stackedDieCount);
  }

  lemma SmallerTimes(lines: nat, sets: nat, width: nat)
    requires lines < sets && width > 0
    ensures lines * width < sets * width
  {
    MulLe(width, lines + 1, sets);
  }

  lemma QuotientLog2(lines: nat, sets: nat, width: nat, l: nat, s: nat)
    requires lines == Pow2(l) && sets == Pow2(s) && width > 0
    requires lines * width > 0 && sets * width > 0
    ensures if l >= s then RoundedLog2(lines * width, sets * width) == l - s
            else RoundedLog2(lines * width, sets * width) <= 0
  {
    if l >= s {
      Pow2Add(l - s, s);
      MulAssoc(Pow2(l - s), sets, width);
      RoundedLog2Exact(l - s, lines * width, sets * width);
    } else {
      Pow2Monotone(l + 1, s);
      SmallerTimes(lines, sets, width);
      RoundedLog2BelowOne(lines * width, sets * width);
    }
  }

  /** The bank's address bits: a tag width cancels from its capacity. */
  lemma TagAddressBits(b: BankSettings, lines: nat)
    requires b.Valid() && IsPow2(lines) && b.capacity == lines * b.blockSize
    ensures var a := Log2(lines) - Log2(b.associativity) - Log2(b.stackedDieCount);
            if a >= 0 then b.NumAddressBit() == a else b.NumAddressBit() <= 0
  {
    var sets := b.associativity * b.stackedDieCount;
    ProductOfPowers(b.associativity, b.stackedDieCount);
    TagSetBits(b);
    QuotientLog2(lines, sets, b.blockSize, Log2(lines), Log2(sets));
  }

  /** Address bits spent on inactive mats and subarrays. */
  function Gating(b: BankSettings): (bits: int)
    requires b.Valid() && b.Clamped() == b
    ensures bits >= 0
  {
    GatingExact(b.numRowMat, b.numColumnMat, b.numActiveMatPerColumn, b.numActiveMatPerRow);
    GatingExact(b.numRowSubarray, b.numColumnSubarray, b.numActiveSubarrayPerColumn, b.numActiveSubarrayPerRow);
    GatingBits(b.numRowMat, b.numColumnMat, b.numActiveMatPerColumn, b.numActiveMatPerRow)
    + GatingBits(b.numRowSubarray, b.numColumnSubarray, b.numActiveSubarrayPerColumn, b.numActiveSubarrayPerRow)
  }

  /** The penalty's address bits are whole, and count the same gating. */
  lemma RemainingWhole(b: BankSettings, capacityBits: nat, wordWidth: nat)
    requires TagBankOf(b, capacityBits, wordWidth)
    ensures DesignOf(b, capacityBits, wordWidth).AddressBitsRemaining()
         == (Log2(capacityBits) - Log2(wordWidth) - Log2(b.associativity) - Gating(b)) as real
  {
  }

  lemma LinesOfCache(b: BankSettings, capacityBits: nat, wordWidth: nat)
    requires TagBankOf(b, capacityBits, wordWidth)
    ensures var lines := capacityBits / wordWidth;
            IsPow2(lines) && Log2(lines) == Log2(capacityBits) - Log2(wordWidth)
  {
    QuotientOfPowers(capacityBits, wordWidth);
  }

  /** A tag mat has address bits for its decoders exactly when the bits the penalty counts
      exceed those that select a die, which it forgets. */
  lemma AddressBitsExact(b: BankSettings, capacityBits: nat, wordWidth: nat)
    requires TagBankOf(b, capacityBits, wordWidth)
    ensures b.NumAddressBit() - Gating(b) > 0
       <==> DesignOf(b, capacityBits, wordWidth).AddressBitsRemaining() > Log2(b.stackedDieCount) as real
  {
    LinesOfCache(b, capacityBits, wordWidth);
    TagAddressBits(b, capacityBits / wordWidth);
    RemainingWhole(b, capacityBits, wordWidth);
  }

  lemma PenaltyWhole(bits: int)
    ensures 100.0 * Relu(1.0 - bits as real) == 0.0 <==> bits > 0
  {
  }

  /** The address penalty agrees with the allocator's check exactly when the address bits
      left are not all needed to select a die; so on one die always. */
  lemma AddressPenaltyExact(b: BankSettings, capacityBits: nat, wordWidth: nat)
    requires TagBankOf(b, capacityBits, wordWidth)
    ensures var d := DesignOf(b, capacityBits, wordWidth);
            ((d.AddressPenalty() == 0.0 <==> b.NumAddressBit() - Gating(b) > 0)
             <==> !(0.0 < d.AddressBitsRemaining() <= Log2(b.stackedDieCount) as real))
  {
    AddressBitsExact(b, capacityBits, wordWidth);
    RemainingWhole(b, capacityBits, wordWidth);
    PenaltyWhole(Log2(capacityBits) - Log2(wordWidth) - Log2(b.associativity) - Gating(b));
  }

  /** The tags of a two-line cache of 64-bit words, stacked on two dies. */
  predicate TwoDies(b: BankSettings) {
    && b.blockSize > 0
    && b == BankSettings(Tag, 1, 1, 2, 2 * b.blockSize, b.blockSize, 1, 1, 1, 1, 1, 1, 1, 1, Mux(1, 1, 1),
                         b.areaOptimizationLevel)
  }

  /** One address bit is left, and it selects the die: there is no penalty, yet either kind
      of bank is rejected. */
  lemma PenaltyMissesDies(b: BankSettings, dram: bool, rejects: Electrical)
    requires TwoDies(b)
    ensures TagBankOf(b, 128, 64) && DesignOf(b, 128, 64).AddressPenalty() == 0.0
    ensures PlanHtree(b, dram, rejects).Rejected? && PlanClosed(b, dram, rejects).Rejected?
  {
    TwoDiesTagBank(b);
    TwoDiesBits(b);
    PenaltyWhole(1);
    TagHandOffAddress(b, dram);
    SamePlan(b, dram, rejects);
  }

  lemma TwoDiesTagBank(b: BankSettings)
    requires TwoDies(b)
    ensures TagBankOf(b, 128, 64) && Log2(b.stackedDieCount) == 1
  {
    KnownPower(1, 0);
    KnownPower(2, 1);
    SevenBits();
  }

  lemma SevenBits()
    ensures IsPow2(64) && Log2(64) == 6 && IsPow2(128) && Log2(128) == 7
  {
    assert Pow2(6) == 64;
    assert Pow2(7) == 128;
    KnownPower(64, 6);
    KnownPower(128, 7);
  }

  lemma TwoDiesBits(b: BankSettings)
    requires TwoDies(b) && TagBankOf(b, 128, 64) && Log2(b.stackedDieCount) == 1
    ensures DesignOf(b, 128, 64).AddressBitsRemaining() == 1.0 && b.NumAddressBit() - Gating(b) <= 0
  {
    SevenBits();
    KnownPower(1, 0);
    RemainingWhole(b, 128, 64);
    AddressBitsExact(b, 128, 64);
  }

  /** The way penalty vanishes exactly when every active mat holds a whole way. */
  lemma WayPenaltyExact(b: BankSettings, capacityBits: nat, wordWidth: nat)
    requires TagBankOf(b, capacityBits, wordWidth)
    ensures DesignOf(b, capacityBits, wordWidth).WayPenalty() == 0.0
       <==> b.associativity / b.numActiveMatPerColumn / b.numActiveMatPerRow >= 1
  {
    var a, c, r := Log2(b.associativity), Log2(b.numActiveMatPerColumn), Log2(b.numActiveMatPerRow);
    DivisibilityPenaltyExact(a, r + c);
    WaysByExponents(b.associativity, b.numActiveMatPerColumn, b.numActiveMatPerRow, a, c, r);
  }

  lemma WaysByExponents(ways: nat, columns: nat, rows: nat, a: nat, c: nat, r: nat)
    requires ways == Pow2(a) && columns == Pow2(c) && rows == Pow2(r)
    ensures ways / columns / rows >= 1 <==> r + c <= a
  {
    Pow2Quotient(a, c);
    if a < c {
      ZeroDivided(rows);
    } else {
      Pow2Quotient(a - c, r);
    }
  }

  lemma TagHandOffAddress(b: BankSettings, dram: bool)
    requires b.Valid() && b.memoryType == Tag && b.Clamped() == b
    requires ClosedHandOff(b, dram).ToMat?
    ensures MatAddress(ClosedHandOff(b, dram).mat.Clamped()) == b.NumAddressBit() - Gating(b)
  {
  }

  /** On one die the two penalties vanish exactly when the tag bank hands over whole ways
      and its mat has address bits left; otherwise either kind of bank is rejected. */
  lemma TagPenaltiesExact(b: BankSettings, capacityBits: nat, wordWidth: nat, dram: bool)
    requires TagBankOf(b, capacityBits, wordWidth) && b.numRowPerSet == 1 && b.stackedDieCount == 1
    ensures var d := DesignOf(b, capacityBits, wordWidth);
            var handOff := ClosedHandOff(b, dram);
            && (d.AddressPenalty() == 0.0 && d.WayPenalty() == 0.0
                <==> handOff.ToMat? && MatAddress(handOff.mat.Clamped()) > 0)
            && (d.AddressPenalty() > 0.0 || d.WayPenalty() > 0.0 ==>
                  forall rejects :: PlanHtree(b, dram, rejects).Rejected? && PlanClosed(b, dram, rejects).Rejected?)
  {
    var d := DesignOf(b, capacityBits, wordWidth);
    AddressPenaltyExact(b, capacityBits, wordWidth);
    WayPenaltyExact(b, capacityBits, wordWidth);
    OneDie();
    if ClosedHandOff(b, dram).ToMat? {
      TagHandOffAddress(b, dram);
    }
    if d.AddressPenalty() > 0.0 || d.WayPenalty() > 0.0 {
      forall rejects ensures PlanHtree(b, dram, rejects).Rejected? && PlanClosed(b, dram, rejects).Rejected? {
        SamePlan(b, dram, rejects);
      }
    }
  }

  lemma OneDie()
    ensures Log2(1) == 0
  {
  }
}
