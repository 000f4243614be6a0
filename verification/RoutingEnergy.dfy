/** Routing inside a bank without an H-tree, after the row loop of
    `BankWithoutHtree::CalculateLatencyAndPower` with internal sensing. */
module RoutingEnergy {

  /** Delay, energy per bit and leakage per bit of a global wire of some length. */
  datatype GlobalWire = GlobalWire(latency: real -> real, energy: real -> real, leakage: real -> real)

  /** A bank as the loop reads it. `numActiveMatPerColumn` counts the active rows of mats. */
  datatype Bank = Bank(
    matHeight: real, numRowMat: nat, numColumnMat: nat, numActiveMatPerRow: nat, numActiveMatPerColumn: nat,
    numAddressBitRouteToMat: nat, numDataBitRouteToMat: nat, numWay: nat, tag: bool)
  {
    predicate Valid() {
      1 <= numActiveMatPerColumn <= numRowMat
    }

    /** Bits routed to an active mat; a tag array also returns one hit signal a way. */
    function NumBitRouteToMat(): nat {
      numAddressBitRouteToMat + numDataBitRouteToMat + if tag then numWay else 0
    }

    /** Distance from the port of the bank to row i of its mats. */
    function Distance(i: int): real {
      matHeight * (numRowMat - i) as real
    }

    /** A figure of the wires to the active rows before row i, for each of `count` mats a
        row and each bit routed. The source counts no bits for inactive rows. */
    function Before(figure: real -> real, count: nat, i: nat): real {
      if i == 0 then 0.0
      else Before(figure, count, i - 1) + if i <= numActiveMatPerColumn then OneRow(figure, count, i - 1) else 0.0
    }

    function OneRow(figure: real -> real, count: nat, i: nat): real {
      figure(Distance(i)) * NumBitRouteToMat() as real * count as real
    }
  }

  /** Every address bit and every data bit is one wire; so is every way of a tag array, and
      none of a data array. */
  lemma OneMoreBit(b: Bank, ways: nat)
    ensures b.(numAddressBitRouteToMat := b.numAddressBitRouteToMat + 1).NumBitRouteToMat() == b.NumBitRouteToMat() + 1
    ensures b.(numDataBitRouteToMat := b.numDataBitRouteToMat + 1).NumBitRouteToMat() == b.NumBitRouteToMat() + 1
    ensures b.tag ==> b.(numWay := b.numWay + 1).NumBitRouteToMat() == b.NumBitRouteToMat() + 1
    ensures !b.tag ==> b.(numWay := ways).NumBitRouteToMat() == b.NumBitRouteToMat()
    ensures b.(numAddressBitRouteToMat := 0, numDataBitRouteToMat := 0, numWay := 0).NumBitRouteToMat() == 0
  {
  }

  datatype Routing = Routing(latency: real, readDynamicEnergy: real, writeDynamicEnergy: real, leakage: real)

  /** The row loop. The wire shortens by one mat a row; only the first, longest row adds
      latency, only active rows add energy. */
  method AccumulateRows(b: Bank, w: GlobalWire) returns (r: Routing)
    requires b.Valid()
    ensures r.latency == w.latency(b.Distance(0))
    ensures r.readDynamicEnergy == r.writeDynamicEnergy == b.Before(w.energy, b.numActiveMatPerRow, b.numRowMat)
    ensures r.leakage == b.Before(w.leakage, b.numColumnMat, b.numRowMat)
  {
    r := Routing(0.0, 0.0, 0.0, 0.0);
    var lengthWire := b.matHeight * (b.numRowMat + 1) as real;
    for i := 0 to b.numRowMat
      invariant lengthWire == b.Distance(i - 1)
      invariant r.latency == if i == 0 then 0.0 else w.latency(b.Distance(0))
      invariant r.readDynamicEnergy == r.writeDynamicEnergy == b.Before(w.energy, b.numActiveMatPerRow, i)
      invariant r.leakage == b.Before(w.leakage, b.numColumnMat, i)
    {
      OneRowCloser(b, i);
      lengthWire := lengthWire - b.matHeight;
      var numBitRouteToMat := 0;
      if i == 0 {
        r := r.(latency := r.latency + w.latency(lengthWire));
      }
      if i < b.numActiveMatPerColumn {
        numBitRouteToMat := b.NumBitRouteToMat();
        var energy := w.energy(lengthWire) * numBitRouteToMat as real * b.numActiveMatPerRow as real;
        r := r.(readDynamicEnergy := r.readDynamicEnergy + energy, writeDynamicEnergy := r.writeDynamicEnergy + energy);
      }
      if numBitRouteToMat == 0 {
        NoBits(w.leakage(lengthWire), b.numColumnMat as real);
      }
      r := r.(leakage := r.leakage + w.leakage(lengthWire) * numBitRouteToMat as real * b.numColumnMat as real);
    }
  }

  lemma OneRowCloser(b: Bank, i: int)
    ensures b.Distance(i - 1) - b.matHeight == b.Distance(i)
  {
    var rows := (b.numRowMat - i) as real;
    assert (b.numRowMat - (i - 1)) as real == rows + 1.0;
    assert b.matHeight * (rows + 1.0) == b.matHeight * rows + b.matHeight;
  }

  lemma NoBits(x: real, y: real)
    ensures x * 0.0 * y == 0.0
  {
  }

  /** Rows R, R - 1, ... of the first a rows, added up. */
  function RowSum(rows: nat, a: nat): real {
    a as real * rows as real - a as real * (a as real - 1.0) / 2.0
  }

  /** Wire figures proportional to length. */
  ghost predicate Linear(f: real -> real, perUnit: real) {
    forall length: real :: f(length) == perUnit * length
  }

  /** One more row of a linear figure. */
  lemma NextRow(perUnit: real, height: real, bits: real, count: real, rows: nat, i: nat)
    ensures perUnit * height * bits * count * RowSum(rows, i) + perUnit * (height * (rows - i) as real) * bits * count
         == perUnit * height * bits * count * RowSum(rows, i + 1)
  {
    var k := perUnit * height * bits * count;
    var left := (rows - i) as real;
    RowSumStep(rows, i);
    assert perUnit * (height * left) * bits * count == k * left by { Reorder(perUnit, height, bits, count, left); }
    assert k * RowSum(rows, i) + k * left == k * (RowSum(rows, i) + left);
  }

  lemma RowSumStep(rows: nat, i: nat)
    ensures RowSum(rows, i + 1) == RowSum(rows, i) + (rows - i) as real
  {
    var a, r := i as real, rows as real;
    assert (i + 1) as real == a + 1.0 && (rows - i) as real == r - a;
    assert (a + 1.0) * r == a * r + r;
    assert (a + 1.0) * a == a * (a - 1.0) + 2.0 * a;
  }

  lemma Reorder(e: real, h: real, b: real, c: real, left: real)
    ensures e * (h * left) * b * c == e * h * b * c * left
  {
    assert e * (h * left) == e * h * left;
    Swap(e * h, left, b);
    Swap(e * h * b, left, c);
  }

  lemma Swap(x: real, y: real, z: real)
    ensures x * y * z == x * z * y
  {
  }

  /** e h bits n (a R - a (a - 1) / 2), for the first a of R rows. */
  function ClosedForm(b: Bank, perUnit: real, count: nat, a: nat): real {
    perUnit * b.matHeight * b.NumBitRouteToMat() as real * count as real * RowSum(b.numRowMat, a)
  }

  lemma OneRowMore(b: Bank, figure: real -> real, perUnit: real, count: nat, i: nat)
    requires Linear(figure, perUnit)
    ensures ClosedForm(b, perUnit, count, i) + b.OneRow(figure, count, i) == ClosedForm(b, perUnit, count, i + 1)
  {
    NextRow(perUnit, b.matHeight, b.NumBitRouteToMat() as real, count as real, b.numRowMat, i);
  }

  lemma NoRows(b: Bank, perUnit: real, count: nat)
    ensures ClosedForm(b, perUnit, count, 0) == 0.0
  {
    assert RowSum(b.numRowMat, 0) == 0.0;
  }

  /** For a figure linear in the length, the rows add up to the closed form over the
      active ones. */
  lemma {:induction false} RoutingClosedForm(b: Bank, figure: real -> real, perUnit: real, count: nat, i: nat)
    requires b.Valid() && Linear(figure, perUnit)
    ensures b.Before(figure, count, i)
         == ClosedForm(b, perUnit, count, if i <= b.numActiveMatPerColumn then i else b.numActiveMatPerColumn)
    decreases i
  {
    if i == 0 {
      NoRows(b, perUnit, count);
    } else {
      RoutingClosedForm(b, figure, perUnit, count, i - 1);
      if i <= b.numActiveMatPerColumn {
        OneRowMore(b, figure, perUnit, count, i - 1);
      }
    }
  }
}
