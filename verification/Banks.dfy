/** The bank objects: `BankWithHtree` and `BankWithoutHtree`. */
module Banks {
  import opened PowersOfTwo
  import opened Organisation
  import opened HtreeRouting
  import opened BankRouting
  import opened Capacity
  import opened Mats

  lemma RootSignals(b: BankSettings)
    requires b.Valid()
    requires b.numActiveMatPerRow <= b.numColumnMat && b.numActiveMatPerColumn <= b.numRowMat
    ensures var t := TreeOf(b);
            t.At(0, 0) == Signals(b.numActiveMatPerRow, b.numActiveMatPerColumn, t.address, t.distribute, t.broadcast)
  {
  }

  class BankWithHtree {
    var initialized: bool
    var invalid: bool
    var settings: BankSettings
    var numAddressBit: int
    var numDataDistributeBit: int
    var numDataBroadcastBit: int
    var levelHorizontal: int
    var levelVertical: int
    var horizontal: array<Level>
    var vertical: array<Level>
    var mat: Mat

    constructor ()
      ensures !initialized && !invalid && fresh(mat) && !mat.invalid && !mat.exited
    {
      initialized, invalid := false, false;
      horizontal, vertical := new Level[0], new Level[0];
      mat := new Mat();
    }

    /** The tree's per-level records, in full. */
    predicate LevelsRecorded()
      requires settings.Valid()
      requires settings.numActiveMatPerRow <= settings.numColumnMat
          && settings.numActiveMatPerColumn <= settings.numRowMat
      reads this, horizontal, vertical
    {
      var t := TreeOf(settings);
      && levelHorizontal == t.levelHorizontal == horizontal.Length
      && levelVertical == t.levelVertical == vertical.Length
      && RecordedHorizontal(t, horizontal, levelHorizontal)
      && RecordedVertical(t, vertical, levelVertical)
    }

    method Initialize(b: BankSettings, dram: bool, rejects: Electrical)
      requires b.Valid() && !invalid && !mat.invalid && !mat.exited
      modifies this, mat
      ensures mat == old(mat) && initialized
      ensures invalid == PlanHtree(b, dram, rejects).Rejected?
      ensures !invalid ==>
        && settings == b.Clamped()
        && mat.numRow == PlanHtree(b, dram, rejects).numRow
        && mat.numColumn == PlanHtree(b, dram, rejects).numColumn
        && LevelsRecorded()
    {
      var root := Configure(b);
      SamePlanClamped(b, dram, rejects);
      Build(root, dram, rejects);
    }

    /** Route the signals down the tree, then hand over to the mat. */
    method Build(root: Signals, dram: bool, rejects: Electrical)
      requires settings.Valid() && settings == settings.Clamped() && !invalid && !mat.invalid && !mat.exited
      requires horizontal != vertical
      requires levelHorizontal == TreeOf(settings).levelHorizontal == horizontal.Length
      requires levelVertical == TreeOf(settings).levelVertical == vertical.Length
      requires root == TreeOf(settings).At(0, 0)
      modifies this`initialized, this`invalid, this`settings, mat, horizontal, vertical
      ensures initialized
      ensures invalid == PlanHtree(old(settings), dram, rejects).Rejected?
      ensures !invalid ==>
        && settings == old(settings)
        && mat.numRow == PlanHtree(settings, dram, rejects).numRow
        && mat.numColumn == PlanHtree(settings, dram, rejects).numColumn
        && LevelsRecorded()
    {
      ghost var t := TreeOf(settings);
      var exhausted, signals := Route(t, horizontal, vertical, levelHorizontal, levelVertical, root);
      initialized := true;
      if exhausted {
        invalid := true;
        return;
      }
      HandToMat(signals, dram, rejects);
    }

    /** Store the settings, the root signals and fresh level arrays. */
    method Configure(b: BankSettings) returns (root: Signals)
      requires b.Valid()
      modifies this`settings, this`numAddressBit, this`numDataDistributeBit, this`numDataBroadcastBit
      modifies this`levelHorizontal, this`levelVertical, this`horizontal, this`vertical
      ensures settings == b.Clamped()
      ensures fresh(horizontal) && fresh(vertical) && horizontal != vertical
      ensures var t := TreeOf(settings);
              && levelHorizontal == t.levelHorizontal == horizontal.Length
              && levelVertical == t.levelVertical == vertical.Length
              && root == t.At(0, 0)
    {
      settings := b.Clamped();
      numAddressBit := settings.NumAddressBit();
      if settings.memoryType == Data {
        numDataDistributeBit, numDataBroadcastBit := settings.blockSize, Log2(settings.associativity);
      } else {
        numDataDistributeBit, numDataBroadcastBit := settings.associativity, settings.blockSize;
      }
      levelHorizontal, levelVertical := Log2(settings.numColumnMat), Log2(settings.numRowMat);
      horizontal := new Level[levelHorizontal];
      vertical := new Level[levelVertical];
      root := Signals(settings.numActiveMatPerRow, settings.numActiveMatPerColumn,
                      numAddressBit, numDataDistributeBit, numDataBroadcastBit);
      RootSignals(settings);
    }

    /** Ask for the mat, then put the mux degrees back once it is accepted. */
    method HandToMat(signals: Signals, dram: bool, rejects: Electrical)
      requires settings.Valid() && settings == settings.Clamped()
      requires Survives(TreeOf(settings)) && signals == MatSignals(TreeOf(settings))
      requires initialized && !invalid && !mat.invalid && !mat.exited
      modifies this`invalid, this`settings, mat
      ensures invalid == PlanHtree(old(settings), dram, rejects).Rejected?
      ensures !invalid ==>
        && settings == old(settings)
        && mat.numRow == PlanHtree(settings, dram, rejects).numRow
        && mat.numColumn == PlanHtree(settings, dram, rejects).numColumn
    {
      var before := settings.mux;
      var handOff := CheckWays(signals, dram);
      if handOff.Refused? {
        invalid := true;
        return;
      }
      mat.Initialize(handOff.mat, rejects);
      if mat.invalid {
        invalid := true;
        return;
      }
      settings := settings.(mux := before);
    }

    /** The checks after routing and the mux redistribution. */
    method CheckWays(signals: Signals, dram: bool) returns (handOff: HandOff)
      requires settings.Valid() && settings == settings.Clamped()
      requires Survives(TreeOf(settings)) && signals == MatSignals(TreeOf(settings))
      modifies this`settings
      ensures handOff == HtreeHandOff(old(settings), dram)
      ensures settings == old(settings).(mux := settings.mux)
    {
      var share, ways;
      if settings.memoryType == Data {
        if settings.numRowPerSet > Pow2(signals.broadcast) {
          return Refused;
        }
        share, ways := signals.distribute, Pow2(signals.broadcast);
        QuotientOfPowers(ways, settings.numRowPerSet);
        settings := settings.(mux := Redistributed(settings.mux, ways / settings.numRowPerSet, dram));
      } else {
        if settings.numRowPerSet > 1 || signals.distribute == 0 {
          return Refused;
        }
        share, ways := signals.broadcast, signals.distribute;
      }
      return ToMat(MatSettings(settings.memoryType, settings.numRowSubarray, settings.numColumnSubarray,
                               signals.address, share, ways, settings.numRowPerSet,
                               settings.numActiveSubarrayPerRow, settings.numActiveSubarrayPerColumn,
                               settings.mux, settings.areaOptimizationLevel));
    }
  }

  lemma ClampedOnce(b: BankSettings, dram: bool)
    requires b.Valid()
    ensures b.Clamped().Clamped() == b.Clamped()
    ensures ClosedHandOff(b.Clamped(), dram) == ClosedHandOff(b, dram)
    ensures HtreeHandOff(b.Clamped(), dram) == HtreeHandOff(b, dram)
  {
  }

  lemma SamePlanClamped(b: BankSettings, dram: bool, rejects: Electrical)
    requires b.Valid()
    ensures b.Clamped().Clamped() == b.Clamped()
    ensures PlanClosed(b.Clamped(), dram, rejects) == PlanClosed(b, dram, rejects)
    ensures PlanHtree(b.Clamped(), dram, rejects) == PlanHtree(b, dram, rejects)
  {
    ClampedOnce(b, dram);
  }

  class BankWithoutHtree {
    var initialized: bool
    var invalid: bool
    var settings: BankSettings
    var numAddressBit: int
    var numAddressBitRouteToMat: int
    var numDataBitRouteToMat: int
    var numWay: int
    var mat: Mat

    /** The wires that the routing of the bank counts are those of the mat. */
    predicate RoutesTo(m: MatSettings)
      reads this
    {
      numAddressBitRouteToMat == m.numAddressBit && numDataBitRouteToMat == m.numDataBit && numWay == m.numWay
    }

    constructor ()
      ensures !initialized && !invalid && fresh(mat) && !mat.invalid && !mat.exited
    {
      initialized, invalid := false, false;
      mat := new Mat();
    }

    method Initialize(b: BankSettings, dram: bool, rejects: Electrical)
      requires b.Valid() && !invalid && !mat.invalid && !mat.exited
      modifies this, mat
      ensures mat == old(mat) && initialized
      ensures invalid == PlanClosed(b, dram, rejects).Rejected?
      ensures !invalid ==>
        && settings == b.Clamped()
        && mat.numRow == PlanClosed(b, dram, rejects).numRow
        && mat.numColumn == PlanClosed(b, dram, rejects).numColumn
        && ClosedHandOff(b, dram).ToMat? && RoutesTo(ClosedHandOff(b, dram).mat)
    {
      settings := b.Clamped();
      initialized := true;
      SamePlanClamped(b, dram, rejects);
      HandToMat(dram, rejects);
    }

    /** Ask for the mat, then put the mux degrees back once it is accepted. */
    method HandToMat(dram: bool, rejects: Electrical)
      requires settings.Valid() && settings == settings.Clamped()
      requires !invalid && !mat.invalid && !mat.exited
      modifies this`invalid, this`settings, this`numAddressBit, this`numAddressBitRouteToMat,
          this`numDataBitRouteToMat, this`numWay, mat
      ensures invalid == PlanClosed(old(settings), dram, rejects).Rejected?
      ensures !invalid ==>
        && settings == old(settings)
        && mat.numRow == PlanClosed(settings, dram, rejects).numRow
        && mat.numColumn == PlanClosed(settings, dram, rejects).numColumn
        && ClosedHandOff(settings, dram).ToMat? && RoutesTo(ClosedHandOff(settings, dram).mat)
    {
      var before := settings.mux;
      var handOff := ShareOut(dram);
      if handOff.Refused? {
        invalid := true;
        return;
      }
      mat.Initialize(handOff.mat, rejects);
      if mat.invalid {
        invalid := true;
        return;
      }
      settings := settings.(mux := before);
    }

    /** The mat's share of address, data and ways, if there is a legal one. */
    method ShareOut(dram: bool) returns (handOff: HandOff)
      requires settings.Valid() && settings == settings.Clamped()
      modifies this`settings, this`numAddressBit, this`numAddressBitRouteToMat, this`numDataBitRouteToMat, this`numWay
      ensures settings == old(settings).(mux := settings.mux)
      ensures handOff == ClosedHandOff(old(settings), dram)
      ensures handOff.ToMat? ==> RoutesTo(handOff.mat)
    {
      numAddressBit := settings.NumAddressBit();
      numAddressBitRouteToMat := numAddressBit
        - GatingBits(settings.numRowMat, settings.numColumnMat, settings.numActiveMatPerColumn,
                     settings.numActiveMatPerRow);
      numDataBitRouteToMat := settings.blockSize;
      if settings.memoryType == Data {
        numDataBitRouteToMat := settings.blockSize / settings.numActiveMatPerColumn / settings.numActiveMatPerRow;
        if settings.numRowPerSet > settings.associativity {
          return Refused;
        }
        numWay := settings.associativity;
        QuotientOfPowers(numWay, settings.numRowPerSet);
        settings := settings.(mux := Redistributed(settings.mux, numWay / settings.numRowPerSet, dram));
      } else {
        if settings.numRowPerSet > 1 {
          return Refused;
        }
        numWay := settings.associativity / settings.numActiveMatPerColumn / settings.numActiveMatPerRow;
        if numWay < 1 {
          return Refused;
        }
      }
      return ToMat(MatSettings(settings.memoryType, settings.numRowSubarray, settings.numColumnSubarray,
                               numAddressBitRouteToMat, numDataBitRouteToMat, numWay, settings.numRowPerSet,
                               settings.numActiveSubarrayPerRow, settings.numActiveSubarrayPerColumn,
                               settings.mux, settings.areaOptimizationLevel));
    }
  }

  /** In an accepted bank every address bit is spent once: on inactive mats, inactive
      subarrays, the row predecoder or the column mux. The mux of a data mat also selects
      among the ways that share a row. */
  lemma BankAddressBudget(settings: BankSettings, dram: bool, rejects: Electrical)
    requires settings.Valid() && PlanClosed(settings, dram, rejects).Accepted?
    ensures var b := settings.Clamped();
            var mat := ClosedHandOff(settings, dram).mat;
            var mats := GatingBits(b.numRowMat, b.numColumnMat, b.numActiveMatPerColumn, b.numActiveMatPerRow);
            var subarrays := GatingBits(b.numRowSubarray, b.numColumnSubarray, b.numActiveSubarrayPerColumn,
                                        b.numActiveSubarrayPerRow);
            && mats >= 0 && subarrays >= 0
            && b.NumAddressBit() == mats + subarrays + PlanClosed(settings, dram, rejects).rowAddressBit
                + mat.mux.Bits()
            && (b.memoryType == Tag ==> mat.mux == b.mux)
            && (b.memoryType == Data ==> mat.mux.Bits() == b.mux.Bits() + Log2(b.associativity) - Log2(b.numRowPerSet))
  {
    var b := settings.Clamped();
    var mat := ClosedHandOff(settings, dram).mat;
    AddressBudget(mat, rejects);
    GatingExact(b.numRowMat, b.numColumnMat, b.numActiveMatPerColumn, b.numActiveMatPerRow);
    GatingExact(b.numRowSubarray, b.numColumnSubarray, b.numActiveSubarrayPerColumn, b.numActiveSubarrayPerRow);
    assert mat.Clamped() == mat;
    if b.memoryType == Data {
      QuotientOfPowers(b.associativity, b.numRowPerSet);
      RedistributionBits(b.mux, b.associativity / b.numRowPerSet, dram);
    }
  }
}
