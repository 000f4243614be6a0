/** The mat object of `Mat::Initialize`. */
module Mats {
  import opened PowersOfTwo
  import opened Organisation
  import opened Predecoding

  /** Address bits of a predecoder, over one block or, above three bits, two. */
  datatype Halves = Halves(block1: int, block2: int) {
    function Outputs(): int
      requires block1 >= 0 && block2 >= 0
    {
      Pow2(block1) + Pow2(block2)
    }
  }

  function SplitBits(bits: int): (h: Halves)
    requires bits >= 0
    ensures h.block1 + h.block2 == bits && h.block2 >= 0
    ensures if bits <= 3 then h.block2 == 0 else h.block2 <= h.block1 <= h.block2 + 1
  {
    if bits > 3 then Halves(bits - bits / 2, bits / 2) else Halves(bits, 0)
  }

  /** Predecode blocks sized for these bits, and exactly if they have at most eighteen. */
  predicate BlocksFor(bits: seq<nat>, blocks: seq<PredecodeBlock>)
    reads blocks
  {
    && |blocks| == |bits|
    && forall i :: 0 <= i < |bits| ==> blocks[i].Sized(bits[i]) && (bits[i] <= 18 ==> blocks[i].Exact())
  }

  /** The outputs of a predecoder are those of its two blocks; a block without address bits
      counts as one. */
  lemma OutputsOfBlocks(h: Halves, first: PredecodeBlock, second: PredecodeBlock)
    requires h.block1 >= 0 && h.block2 >= 0 && first.Sized(h.block1) && second.Sized(h.block2)
    ensures h.Outputs()
         == (if h.block1 > 0 then first.numOutputAddressBit else 1)
            + (if h.block2 > 0 then second.numOutputAddressBit else 1)
  {
  }

  /** The two blocks of one more predecoder. Returns false where the source ends the process. */
  method AddPredecoder(ghost bits: seq<nat>, blocks: seq<PredecodeBlock>, h: Halves)
    returns (more: seq<PredecodeBlock>, ok: bool)
    requires 0 <= h.block2 <= h.block1 && BlocksFor(bits, blocks)
    ensures ok == (h.block1 <= 27)
    ensures ok ==> BlocksFor(bits + [h.block1, h.block2], more)
  {
    var first, ok1 := NewBlock(h.block1);
    var second, ok2 := NewBlock(h.block2);
    more, ok := blocks + [first, second], ok1 && ok2;
  }

  /** The address bits of the eight predecode blocks of a mat. */
  function BlockBits(rowBits: int, mux: Mux): seq<nat>
    requires rowBits >= 0 && mux.PowersOfTwo()
  {
    var row, bitline := SplitBits(rowBits), SplitBits(Log2(mux.senseAmp));
    var lev1, lev2 := SplitBits(Log2(mux.outputLev1)), SplitBits(Log2(mux.outputLev2));
    [row.block1, row.block2, bitline.block1, bitline.block2, lev1.block1, lev1.block2, lev2.block1, lev2.block2]
  }

  /** Every predecode block of a mat has at most this many address bits. */
  predicate BlocksWithin(rowBits: int, mux: Mux, limit: int)
    requires rowBits >= 0 && mux.PowersOfTwo()
  {
    && SplitBits(rowBits).block1 <= limit && SplitBits(Log2(mux.senseAmp)).block1 <= limit
    && SplitBits(Log2(mux.outputLev1)).block1 <= limit && SplitBits(Log2(mux.outputLev2)).block1 <= limit
  }

  class Mat {
    var initialized: bool
    var invalid: bool
    var settings: MatSettings
    var numRow: int
    var numColumn: int
    var rowPredecoder: Halves
    var bitlineMuxPredecoder: Halves
    var senseAmpMuxLev1Predecoder: Halves
    var senseAmpMuxLev2Predecoder: Halves
    var totalPredecoderOutputBits: int
    /** Two blocks for each predecoder, in the order above. */
    var blocks: seq<PredecodeBlock>
    /** A predecode block has ended the process. */
    var exited: bool

    constructor ()
      ensures !initialized && !invalid && !exited
    {
      initialized, invalid, exited := false, false, false;
      blocks := [];
    }

    /** One predecoder for the rows and one for each mux level, each of two blocks, and
        their outputs added up. */
    predicate PredecodersFor(rowBits: int, mux: Mux)
      requires mux.PowersOfTwo()
      reads this, blocks
    {
      && rowBits >= 0
      && rowPredecoder == SplitBits(rowBits)
      && bitlineMuxPredecoder == SplitBits(Log2(mux.senseAmp))
      && senseAmpMuxLev1Predecoder == SplitBits(Log2(mux.outputLev1))
      && senseAmpMuxLev2Predecoder == SplitBits(Log2(mux.outputLev2))
      && totalPredecoderOutputBits == rowPredecoder.Outputs() + bitlineMuxPredecoder.Outputs()
                                      + senseAmpMuxLev1Predecoder.Outputs() + senseAmpMuxLev2Predecoder.Outputs()
      && BlocksFor(BlockBits(rowBits, mux), blocks)
    }

    /** A mat is left valid exactly when the plan accepts it, with the planned rows and
        columns, and with every address bit that reaches it accounted for. */
    method Initialize(m: MatSettings, rejects: Electrical)
      requires m.Valid() && !invalid && !exited
      modifies this
      ensures initialized && settings == m.Clamped()
      ensures invalid == PlanMat(m, rejects).Rejected?
      ensures !invalid ==>
        var plan := PlanMat(m, rejects);
        && numRow == plan.numRow && numColumn == plan.numColumn
        && plan.rowAddressBit >= 0
        && exited == !BlocksWithin(plan.rowAddressBit, m.mux, 27)
        && (!exited ==> PredecodersFor(plan.rowAddressBit, m.mux))
    {
      settings := m.Clamped();
      initialized := true;
      var address := m.numAddressBit
        - GatingBits(settings.numRowSubarray, settings.numColumnSubarray,
                     settings.numActiveSubarrayPerColumn, settings.numActiveSubarrayPerRow);
      if address <= 0 {
        invalid := true;
        return;
      }
      Fill(address, m.mux, rejects);
    }

    /** Size the subarrays and the predecoders for the address bits left to each subarray. */
    method Fill(address: nat, mux: Mux, rejects: Electrical)
      requires settings.Valid() && settings.Clamped() == settings && mux == settings.mux
      requires address > 0 && address == MatAddress(settings) && !invalid && !exited
      modifies this
      ensures settings == old(settings) && initialized == old(initialized)
      ensures invalid == PlanMat(settings, rejects).Rejected?
      ensures !invalid ==>
        var plan := PlanMat(settings, rejects);
        && numRow == plan.numRow && numColumn == plan.numColumn
        && plan.rowAddressBit >= 0
        && exited == !BlocksWithin(plan.rowAddressBit, mux, 27)
        && (!exited ==> PredecodersFor(plan.rowAddressBit, mux))
    {
      var ok := SizeSubarray(address);
      if !ok {
        invalid := true;
        return;
      }
      if rejects(SubarraySpec(numRow, numColumn, settings.numRowPerSet > 1, mux, settings.areaOptimizationLevel)) {
        invalid := true;
        return;
      }
      MuxProduct(mux);
      var rowBits := address - Log2(mux.Product());
      if rowBits < 0 {
        invalid := true;
        return;
      }
      SizePredecoders(rowBits, mux);
    }

    /** Rows and columns of a subarray, unless one of them comes to nothing. */
    method SizeSubarray(address: nat) returns (ok: bool)
      requires settings.Valid()
      modifies `numRow, `numColumn
      ensures ok <==> MatRows(settings, address) != 0 && BitsPerSubarray(settings) != 0
      ensures ok ==> numRow == MatRows(settings, address) && numColumn == MatColumns(settings)
    {
      MuxProduct(settings.mux);
      var degree := settings.mux.Product();
      numRow := Pow2(address);
      if settings.memoryType == Data {
        numRow := numRow * settings.numWay;
      }
      numRow := numRow / degree;
      if numRow == 0 {
        return false;
      }
      ProductOfPowers(settings.numActiveSubarrayPerRow, settings.numActiveSubarrayPerColumn);
      numColumn := settings.numDataBit / settings.ActiveSubarrays();
      if numColumn == 0 {
        return false;
      }
      numColumn := numColumn * degree;
      if settings.memoryType == Tag {
        numColumn := numColumn * settings.numWay;
      }
      return true;
    }

    /** Four predecoders of two blocks each; a block of more than 27 bits ends the process. */
    method SizePredecoders(rowBits: int, mux: Mux)
      requires rowBits >= 0 && mux.PowersOfTwo() && !exited
      modifies `rowPredecoder, `bitlineMuxPredecoder, `senseAmpMuxLev1Predecoder, `senseAmpMuxLev2Predecoder
      modifies `totalPredecoderOutputBits, `exited
      modifies `blocks
      ensures exited == !BlocksWithin(rowBits, mux, 27)
      ensures !exited ==> PredecodersFor(rowBits, mux)
    {
      rowPredecoder := SplitBits(rowBits);
      totalPredecoderOutputBits := rowPredecoder.Outputs();
      bitlineMuxPredecoder := SplitBits(Log2(mux.senseAmp));
      totalPredecoderOutputBits := totalPredecoderOutputBits + bitlineMuxPredecoder.Outputs();
      senseAmpMuxLev1Predecoder := SplitBits(Log2(mux.outputLev1));
      totalPredecoderOutputBits := totalPredecoderOutputBits + senseAmpMuxLev1Predecoder.Outputs();
      senseAmpMuxLev2Predecoder := SplitBits(Log2(mux.outputLev2));
      totalPredecoderOutputBits := totalPredecoderOutputBits + senseAmpMuxLev2Predecoder.Outputs();
      var built, ok := NewBlocks(rowPredecoder, bitlineMuxPredecoder, senseAmpMuxLev1Predecoder,
                                 senseAmpMuxLev2Predecoder);
      blocks, exited := built, !ok;
    }
  }

  /** The eight blocks of a mat. */
  method NewBlocks(row: Halves, bitline: Halves, lev1: Halves, lev2: Halves)
    returns (blocks: seq<PredecodeBlock>, ok: bool)
    requires 0 <= row.block2 <= row.block1 && 0 <= bitline.block2 <= bitline.block1
    requires 0 <= lev1.block2 <= lev1.block1 && 0 <= lev2.block2 <= lev2.block1
    ensures ok == (row.block1 <= 27 && bitline.block1 <= 27 && lev1.block1 <= 27 && lev2.block1 <= 27)
    ensures ok ==>
      BlocksFor([row.block1, row.block2, bitline.block1, bitline.block2,
                 lev1.block1, lev1.block2, lev2.block1, lev2.block2], blocks)
  {
    ghost var bits: seq<nat> := [row.block1, row.block2, bitline.block1, bitline.block2];
    blocks, ok := AddTwo([], [], row, bitline);
    if !ok {
      return;
    }
    assert [] + bits == bits;
    blocks, ok := AddTwo(bits, blocks, lev1, lev2);
    assert bits + [lev1.block1, lev1.block2, lev2.block1, lev2.block2]
        == [row.block1, row.block2, bitline.block1, bitline.block2, lev1.block1, lev1.block2, lev2.block1, lev2.block2];
  }

  method AddTwo(ghost bits: seq<nat>, blocks: seq<PredecodeBlock>, a: Halves, b: Halves)
    returns (more: seq<PredecodeBlock>, ok: bool)
    requires 0 <= a.block2 <= a.block1 && 0 <= b.block2 <= b.block1 && BlocksFor(bits, blocks)
    ensures ok == (a.block1 <= 27 && b.block1 <= 27)
    ensures ok ==> BlocksFor(bits + [a.block1, a.block2, b.block1, b.block2], more)
  {
    more, ok := AddPredecoder(bits, blocks, a);
    if !ok {
      return;
    }
    more, ok := AddPredecoder(bits + [a.block1, a.block2], more, b);
    assert bits + [a.block1, a.block2] + [b.block1, b.block2] == bits + [a.block1, a.block2, b.block1, b.block2];
  }

  /** In an accepted mat every address bit is spent once: on inactive subarrays, on the
      row predecoder or on the column mux levels; and the rows are the decoded rows times
      the ways a data array keeps below one another. */
  lemma AddressBudget(m: MatSettings, rejects: Electrical)
    requires m.Valid() && PlanMat(m, rejects).Accepted?
    ensures var c := m.Clamped();
            var plan := PlanMat(m, rejects);
            && plan.rowAddressBit >= 0
            && m.numAddressBit
                == GatingBits(c.numRowSubarray, c.numColumnSubarray, c.numActiveSubarrayPerColumn,
                              c.numActiveSubarrayPerRow)
                                  + plan.rowAddressBit + m.mux.Bits()
            && plan.numRow == Pow2(plan.rowAddressBit) * (if m.memoryType == Data then m.numWay else 1)
  {
    var plan := PlanMat(m, rejects);
    MuxProduct(m.mux);
    var ways := if m.memoryType == Data then m.numWay else 1;
    Pow2Add(plan.rowAddressBit, m.mux.Bits());
    MulAssoc(Pow2(plan.rowAddressBit), Pow2(m.mux.Bits()), ways);
    MulAssoc(Pow2(plan.rowAddressBit), ways, Pow2(m.mux.Bits()));
    ExactQuotient(Pow2(plan.rowAddressBit) * ways, m.mux.Product());
  }

  /** If at most 36 address bits are left to a subarray, and the source shifts them into a
      32-bit row count, all predecode blocks of an accepted mat are within eighteen bits:
      none ends the process, and every first stage is exact. */
  lemma PredecodersExact(m: MatSettings, rejects: Electrical)
    requires m.Valid() && PlanMat(m, rejects).Accepted? && MatAddress(m.Clamped()) <= 36
    ensures PlanMat(m, rejects).rowAddressBit >= 0 && BlocksWithin(PlanMat(m, rejects).rowAddressBit, m.mux, 18)
  {
    AddressBudget(m, rejects);
  }
}
