/** Two-stage predecoder sizing, after `PredecodeBlock::Initialize`. */
module Predecoding {
  import opened PowersOfTwo

  /** Basic decoders of a block: 1-to-2, 2-to-4 and 3-to-8. */
  datatype Decoders = Decoders(two: int, four: int, eight: int) {
    function Count(): int {
      two + four + eight
    }
  }

  function DecodersFor(bits: int): Decoders
    requires bits > 0
  {
    if bits == 1 then Decoders(1, 0, 0)
    else
      var four := if bits % 3 == 2 then 1 else if bits % 3 == 1 then 2 else 0;
      Decoders(0, four, (bits - 2 * four) / 3)
  }

  /** The basic decoders together decode exactly the address bits. */
  lemma DecodersCoverBits(bits: int)
    requires bits > 0
    ensures var d := DecodersFor(bits);
            && d.two >= 0 && 0 <= d.four <= 2 && d.eight >= 0
            && d.two + 2 * d.four + 3 * d.eight == bits
            && (bits > 1 ==> 3 * d.Count() - d.four == bits)
            && (d.Count() <= 6 <==> bits <= 18)
  {
  }

  /** Eight outputs for each decoder of a group. */
  predicate GroupSized(inputs: int, outputs: int) {
    inputs >= 0 && outputs == Pow2(3 * inputs)
  }

  /** Decoders are dealt to the groups as evenly as possible, earlier groups first, and the
      outputs of every group but the first are eight for each of its decoders. */
  predicate DealtTo(count: int, a: int, b: int, c: int, outputsB: int, outputsC: int) {
    && (2 <= count <= 3 ==> a == count)
    && (4 <= count <= 6 ==> a + b == count && b <= a <= b + 1 && GroupSized(b, outputsB))
    && (7 <= count ==>
          a + b + c == count && c <= b <= a <= c + 1 && GroupSized(b, outputsB) && GroupSized(c, outputsC))
  }

  /** Three bits for each decoder, less one for every 2-to-4 decoder. */
  predicate Covers(count: int, four: int, bits: int) {
    count >= 1 && 0 <= four <= 2 && (count <= 6 <==> bits <= 18)
    && (if bits > 1 then 3 * count - four == bits else count == 1)
  }

  class PredecodeBlock {
    var initialized: bool
    var numAddressBit: int
    var decoders: Decoders
    var numOutputAddressBit: int
    var numNandInputStage1A: int
    var numNandInputStage1B: int
    var numNandInputStage1C: int
    var numAddressBitStage1A: int
    var numAddressBitStage1B: int
    var numAddressBitStage1C: int

    /** As in the source, the stage-1 sizes start with whatever the memory held. */
    constructor (stage1A: int, stage1B: int, stage1C: int)
      ensures !initialized && numAddressBitStage1A == stage1A
    {
      initialized := false;
      numAddressBit, decoders, numOutputAddressBit := 0, Decoders(0, 0, 0), 0;
      numNandInputStage1A, numNandInputStage1B, numNandInputStage1C := 0, 0, 0;
      numAddressBitStage1A, numAddressBitStage1B, numAddressBitStage1C := stage1A, stage1B, stage1C;
    }

    /** Outputs of the first stage, for a block of two or three groups. */
    function StageOutputs(): int
      reads this
    {
      if decoders.Count() <= 6 then numAddressBitStage1A * numAddressBitStage1B
      else numAddressBitStage1A * (numAddressBitStage1B * numAddressBitStage1C)
    }

    /** The decoders are dealt to the groups. */
    predicate Dealt(count: int)
      reads this
    {
      DealtTo(count, numNandInputStage1A, numNandInputStage1B, numNandInputStage1C,
              numAddressBitStage1B, numAddressBitStage1C)
    }

    /** Decoders and groups for this many address bits. */
    predicate Sized(bits: int)
      requires bits >= 0
      reads this
    {
      && initialized && numAddressBit == bits
      && (bits > 0 ==>
            && decoders == DecodersFor(bits) && decoders.Count() <= 9 && numOutputAddressBit == Pow2(bits)
            && Dealt(decoders.Count()))
    }

    /** The outputs of the first stage multiply to those of the block. */
    predicate Exact()
      reads this
    {
      numAddressBit > 0 && decoders.Count() >= 4 ==> StageOutputs() == numOutputAddressBit
    }

    /** Returns false where the source ends the process. Up to six decoders the stages are
        exact. Beyond, the first group is scaled by whatever its size field held before, so
        they are exact if and only if it held one. */
    method Initialize(bits: int) returns (ok: bool)
      requires bits >= 0
      modifies this
      ensures ok == (bits <= 27)
      ensures ok ==> Sized(bits)
      ensures ok ==> (Exact() <==> bits <= 18 || old(numAddressBitStage1A) == 1)
    {
      ok := true;
      numAddressBit := bits;
      if bits > 27 {
        ok := false;
      } else if bits == 0 {
        initialized := true;
      } else {
        numOutputAddressBit := Pow2(bits);
        CountDecoders(bits);
        SizeGroups(bits);
        initialized := true;
      }
    }

    /** The basic decoders for this many bits. */
    method CountDecoders(bits: int)
      requires bits > 0
      modifies `decoders
      ensures decoders == DecodersFor(bits) && Covers(decoders.Count(), decoders.four, bits)
    {
      DecodersCoverBits(bits);
      if bits == 1 {
        decoders := Decoders(1, 0, 0);
      } else {
        var four := if bits % 3 == 2 then 1 else if bits % 3 == 1 then 2 else 0;
        decoders := Decoders(0, four, (bits - 2 * four) / 3);
      }
    }

    /** The groups of the first stage. */
    method SizeGroups(bits: int)
      requires 0 < bits <= 27 && numAddressBit == bits && Covers(decoders.Count(), decoders.four, bits)
          && numOutputAddressBit == Pow2(bits)
      modifies `numNandInputStage1A, `numNandInputStage1B, `numNandInputStage1C
      modifies `numAddressBitStage1A, `numAddressBitStage1B, `numAddressBitStage1C
      ensures decoders.Count() <= 9 && Dealt(decoders.Count())
      ensures Exact() <==> bits <= 18 || old(numAddressBitStage1A) == 1
    {
      var count := decoders.Count();
      if count <= 1 {
      } else if count <= 3 {
        numNandInputStage1A := count;
      } else if count <= 6 {
        SizeTwoGroups(count, decoders.four);
      } else {
        SizeThreeGroups(count, decoders.four);
        ScaledExactly(old(numAddressBitStage1A), numOutputAddressBit);
      }
    }

    method SizeTwoGroups(count: int, four: int)
      requires 4 <= count <= 6 && 0 <= four <= 2
      modifies `numNandInputStage1A, `numNandInputStage1B, `numAddressBitStage1A, `numAddressBitStage1B
      ensures Dealt(count)
      ensures numAddressBitStage1A * numAddressBitStage1B == Pow2(3 * count - four)
    {
      numNandInputStage1B := count / 2;
      numNandInputStage1A := count - numNandInputStage1B;
      var i := 3 * numNandInputStage1A - four;
      numAddressBitStage1A := Pow2(i);
      numAddressBitStage1B := Pow2(3 * numNandInputStage1B);
      Pow2Add(i, 3 * numNandInputStage1B);
    }

    method SizeThreeGroups(count: int, four: int)
      requires 7 <= count <= 9 && 0 <= four <= 2
      modifies `numNandInputStage1A, `numNandInputStage1B, `numNandInputStage1C
      modifies `numAddressBitStage1A, `numAddressBitStage1B, `numAddressBitStage1C
      ensures Dealt(count)
      ensures numAddressBitStage1A * (numAddressBitStage1B * numAddressBitStage1C)
           == old(numAddressBitStage1A) * Pow2(3 * count - four)
    {
      if count == 7 {
        numNandInputStage1A, numNandInputStage1B, numNandInputStage1C := 3, 2, 2;
        numAddressBitStage1B, numAddressBitStage1C := 64, 64;
      } else if count == 8 {
        numNandInputStage1A, numNandInputStage1B, numNandInputStage1C := 3, 3, 2;
        numAddressBitStage1B, numAddressBitStage1C := 512, 64;
      } else {
        numNandInputStage1A, numNandInputStage1B, numNandInputStage1C := 3, 3, 3;
        numAddressBitStage1B, numAddressBitStage1C := 512, 512;
      }
      var i := 3 * numNandInputStage1A - four;
      ThreeStages(numAddressBitStage1A, i, numNandInputStage1B, numNandInputStage1C);
      GroupOutputsSized(numNandInputStage1B);
      GroupOutputsSized(numNandInputStage1C);
      numAddressBitStage1A := numAddressBitStage1A * Pow2(i);
    }
  }

  lemma GroupOutputsSized(inputs: int)
    requires inputs == 2 || inputs == 3
    ensures GroupSized(inputs, GroupOutputs(inputs))
  {
    assert Pow2(6) == 64;
    assert Pow2(9) == 8 * Pow2(6);
  }

  function GroupOutputs(inputs: int): int {
    if inputs == 2 then 64 else 512
  }

  lemma ThreeStages(before: int, i: nat, b: int, c: int)
    requires (b == 2 || b == 3) && (c == 2 || c == 3)
    ensures before * Pow2(i) * (GroupOutputs(b) * GroupOutputs(c)) == before * Pow2(i + 3 * (b + c))
  {
    assert Pow2(6) == 64;
    assert Pow2(9) == 8 * Pow2(6);
    Pow2Add(3 * b, 3 * c);
    Pow2Add(i, 3 * (b + c));
    MulAssoc(before, Pow2(i), GroupOutputs(b) * GroupOutputs(c));
  }

  lemma ScaledExactly(before: int, outputs: int)
    requires outputs > 0
    ensures before * outputs == outputs <==> before == 1
  {
    if before > 1 {
      MulLe(outputs, 2, before);
    } else if before < 1 {
      MulLe(outputs, before, 0);
    }
  }

  /** A block of nineteen bits in cleared memory is wrong. */
  method NineteenBits() returns (block: PredecodeBlock)
    ensures fresh(block) && block.Sized(19) && block.StageOutputs() != block.numOutputAddressBit
  {
    block := new PredecodeBlock(0, 0, 0);
    var ok := block.Initialize(19);
    DecodersCoverBits(19);
  }

  /** A block in memory of unknown contents, for a predecoder of a mat. */
  method NewBlock(bits: int) returns (block: PredecodeBlock, ok: bool)
    requires bits >= 0
    ensures fresh(block) && ok == (bits <= 27)
    ensures ok ==> block.Sized(bits) && (bits <= 18 ==> block.Exact())
  {
    var stage1A: int, stage1B: int, stage1C: int := *, *, *;
    block := new PredecodeBlock(stage1A, stage1B, stage1C);
    ok := block.Initialize(bits);
  }
}
