/** Routing signals down the H-tree of `BankWithHtree::Initialize`.

    Each split halves the mats a branch serves. If more than one of the halved mats is
    active the data bits are halved, otherwise an address bit is spent. The loops take
    column and row splits in an order that depends on the two level counts; the closed
    forms below depend only on how many of each were taken. */
module HtreeRouting {
  import opened PowersOfTwo

  /** What one level of the tree records. */
  datatype Level = Level(address: int, distribute: int, broadcast: int, wires: int, sum: int, active: int)

  /** The counters the loops update. */
  datatype Signals = Signals(
    columnToActive: int, rowToActive: int, address: int, distribute: int, broadcast: int)
  {
    /** The early-exit test in front of every split. */
    predicate Exhausted() {
      distribute + broadcast == 0 || address == 0
    }

    /** Split on columns: halve the data if several columns are active, else spend an address bit. */
    function SplitColumn(): Signals {
      if columnToActive > 1 then
        this.(distribute := distribute / 2, columnToActive := columnToActive / 2)
      else
        this.(address := address - 1)
    }

    function SplitRow(): Signals {
      if rowToActive > 1 then
        this.(distribute := distribute / 2, rowToActive := rowToActive / 2)
      else
        this.(address := address - 1)
    }

    /** The record a level keeps of the signals that reach it. */
    function Record(wires: int, sum: int, active: int): Level {
      Level(address, distribute, broadcast, wires, sum, active)
    }
  }

  /** The data bits after k halvings. */
  function Halved(n: nat, k: nat): (r: nat)
    ensures r <= n
  {
    if k == 0 then n else Halved(n, k - 1) / 2
  }

  lemma {:induction false} HalvedIsQuotient(n: nat, k: nat)
    ensures Halved(n, k) == n / Pow2(k)
  {
    if k == 0 {
    } else {
      HalvedIsQuotient(n, k - 1);
      DivDiv(n, Pow2(k - 1), 2);
    }
  }

  lemma {:induction false} HalvedStaysZero(n: nat, k: nat, l: nat)
    requires k <= l && Halved(n, k) == 0
    ensures Halved(n, l) == 0
    decreases l - k
  {
    if k < l {
      HalvedStaysZero(n, k, l - 1);
    }
  }

  /** A bank seen by the router: level counts, logarithms of the active counts, and the
      bits that enter at the root. */
  datatype Tree = Tree(
    levelHorizontal: nat, levelVertical: nat, activeColumns: nat, activeRows: nat,
    address: int, distribute: nat, broadcast: nat)
  {
    predicate Valid() {
      activeColumns <= levelHorizontal && activeRows <= levelVertical
    }

    /** Halvings of the data among `columns` column splits and `rows` row splits. */
    function Halvings(columns: nat, rows: nat): nat {
      Min(columns, activeColumns) + Min(rows, activeRows)
    }

    /** Address bits spent by those splits. */
    function Spent(columns: nat, rows: nat): nat {
      columns + rows - Halvings(columns, rows)
    }

    function At(columns: nat, rows: nat): (s: Signals)
    {
      Signals(Pow2(activeColumns - Min(columns, activeColumns)), Pow2(activeRows - Min(rows, activeRows)),
              address - Spent(columns, rows), Halved(distribute, Halvings(columns, rows)), broadcast)
    }

    function LevelAt(columns: nat, rows: nat, wires: int): Level {
      var s := At(columns, rows);
      Level(s.address, s.distribute, s.broadcast, wires, Pow2(columns + rows), Pow2(Halvings(columns, rows)))
    }

    /** Splits taken when horizontal level k is recorded. */
    function RowsAbove(k: nat): nat {
      if levelVertical + k > levelHorizontal && k > 0 then levelVertical + k - levelHorizontal else 0
    }

    /** Column splits taken when vertical level k is recorded. */
    function ColumnsAbove(k: nat): nat {
      if levelHorizontal + k > levelVertical then levelHorizontal + k - levelVertical else 0
    }

    function HorizontalLevel(k: nat): Level {
      LevelAt(k, RowsAbove(k), Pow2(RowsAbove(k)))
    }

    /** Wire tiers of a vertical level: with exactly two horizontal levels the source
        counts half of what it counts otherwise. */
    function VerticalTiers(columns: nat): int {
      if columns == 0 then 1 else if levelHorizontal == 2 then Pow2(columns - 1) else Pow2(columns)
    }

    function VerticalLevel(k: nat): Level {
      LevelAt(ColumnsAbove(k), k + 1, VerticalTiers(ColumnsAbove(k)))
    }
  }

  lemma ColumnStep(t: Tree, columns: nat, rows: nat)
    requires t.Valid()
    ensures t.At(columns, rows).SplitColumn() == t.At(columns + 1, rows)
    ensures t.At(columns, rows).columnToActive > 1 <==> columns < t.activeColumns
    ensures t.Halvings(columns + 1, rows) == t.Halvings(columns, rows) + (if columns < t.activeColumns then 1 else 0)
  {
  }

  lemma RowStep(t: Tree, columns: nat, rows: nat)
    requires t.Valid()
    ensures t.At(columns, rows).SplitRow() == t.At(columns, rows + 1)
    ensures t.At(columns, rows).rowToActive > 1 <==> rows < t.activeRows
    ensures t.Halvings(columns, rows + 1) == t.Halvings(columns, rows) + (if rows < t.activeRows then 1 else 0)
  {
  }

  /** The next level down a column split continues the counts of the one above. */
  lemma ColumnRecord(t: Tree, columns: nat, rows: nat, wires: int, above: Level)
    requires t.Valid()
    requires above.sum == Pow2(columns + rows) && above.active == Pow2(t.Halvings(columns, rows))
    ensures t.At(columns, rows).SplitColumn().Record(
              wires, 2 * above.sum, if t.At(columns, rows).columnToActive > 1 then 2 * above.active else above.active)
         == t.LevelAt(columns + 1, rows, wires)
  {
    ColumnStep(t, columns, rows);
  }

  lemma RowRecord(t: Tree, columns: nat, rows: nat, wires: int, sum: int, active: int)
    requires t.Valid()
    requires sum == Pow2(columns + rows) && active == Pow2(t.Halvings(columns, rows))
    ensures t.At(columns, rows).SplitRow().Record(
              wires, 2 * sum, if t.At(columns, rows).rowToActive > 1 then 2 * active else active)
         == t.LevelAt(columns, rows + 1, wires)
  {
    RowStep(t, columns, rows);
  }

  // ---- Early exits ----

  /** Column splits taken before the last exhaustion test. */
  function LastColumns(t: Tree): nat {
    if t.levelHorizontal == 0 then 0 else t.levelHorizontal - 1
  }

  /** The whole walk passes its exhaustion tests. */
  predicate Survives(t: Tree) {
    var last := t.At(LastColumns(t), t.levelVertical);
    last.distribute + last.broadcast != 0 && (t.address < 0 || last.address > 0)
  }

  lemma HalvingsMonotone(t: Tree, c: nat, r: nat, columns: nat, rows: nat)
    requires c <= columns && r <= rows
    ensures t.At(columns, rows).address <= t.At(c, r).address <= t.address
    ensures t.At(c, r).distribute == 0 ==> t.At(columns, rows).distribute == 0
  {
    if t.At(c, r).distribute == 0 {
      HalvedStaysZero(t.distribute, t.Halvings(c, r), t.Halvings(columns, rows));
    }
  }

  /** Any exhausted state on the way ends the walk, and only those do. */
  lemma ExhaustionEndsWalk(t: Tree, columns: nat, rows: nat)
    requires t.Valid() && columns <= LastColumns(t) && rows <= t.levelVertical
    requires t.At(columns, rows).Exhausted()
    ensures !Survives(t)
  {
    HalvingsMonotone(t, columns, rows, LastColumns(t), t.levelVertical);
  }

  // ---- The loops ----

  /** One split spends at most one address bit. */
  lemma HalvingsStep(t: Tree, columns: nat, rows: nat)
    ensures t.At(columns + 1, rows).address >= t.At(columns, rows).address - 1
    ensures t.At(columns, rows + 1).address >= t.At(columns, rows).address - 1
  {
  }

  /** The first n horizontal levels hold what the closed form says. */
  predicate RecordedHorizontal(t: Tree, horizontal: array<Level>, n: int)
    reads horizontal
  {
    0 <= n <= horizontal.Length && forall k :: 0 <= k < n ==> horizontal[k] == t.HorizontalLevel(k)
  }

  predicate RecordedVertical(t: Tree, vertical: array<Level>, n: int)
    reads vertical
  {
    0 <= n <= vertical.Length && forall k :: 0 <= k < n ==> vertical[k] == t.VerticalLevel(k)
  }

  /** One column split of the first loop: the level above is horizontal too. */
  method SplitColumnsOnly(ghost t: Tree, horizontal: array<Level>, levelHorizontal: int, h: int, signals: Signals)
    returns (next: Signals)
    requires t.Valid() && levelHorizontal == t.levelHorizontal == horizontal.Length
    requires t.levelVertical < h < levelHorizontal
    requires signals == t.At(levelHorizontal - 1 - h, 0)
    requires RecordedHorizontal(t, horizontal, levelHorizontal - h)
    modifies horizontal
    ensures next == t.At(levelHorizontal - h, 0)
    ensures RecordedHorizontal(t, horizontal, levelHorizontal - h + 1)
  {
    ghost var columns := levelHorizontal - 1 - h;
    var previous := horizontal[levelHorizontal - h - 1];
    ColumnStep(t, columns, 0);
    ColumnRecord(t, columns, 0, 1, previous);
    var active := if signals.columnToActive > 1 then 2 * previous.active else previous.active;
    next := signals.SplitColumn();
    assert next.Record(1, 2 * previous.sum, active) == t.HorizontalLevel(columns + 1);
    horizontal[levelHorizontal - h] := next.Record(1, 2 * previous.sum, active);
  }

  /** While there are more horizontal levels than vertical ones, split columns only. */
  method ReduceHorizontal(ghost t: Tree, horizontal: array<Level>, levelHorizontal: int, first: int, v: int,
                          start: Signals)
    returns (exhausted: bool, h: int, signals: Signals, vTemp: int)
    requires t.Valid() && levelHorizontal == t.levelHorizontal == horizontal.Length && v == t.levelVertical
    requires first == LastColumns(t) && start == t.At(0, 0)
    requires levelHorizontal > 0 ==> RecordedHorizontal(t, horizontal, 1)
    requires t.address < 0 || start.address >= 0
    modifies horizontal
    ensures exhausted ==> !Survives(t)
    ensures !exhausted ==>
      && 0 <= h <= v && (h == first || h == v) && h <= first
      && signals == t.At(first - h, 0) && vTemp == Pow2(first - h)
      && (t.address < 0 || signals.address >= 0)
      && (levelHorizontal > 0 ==> RecordedHorizontal(t, horizontal, levelHorizontal - h))
  {
    exhausted, h, signals, vTemp := false, first, start, 1;
    while h > v
      invariant 0 <= h <= first && (h > v || h == v || h == first)
      invariant signals == t.At(first - h, 0) && vTemp == Pow2(first - h)
      invariant t.address < 0 || signals.address >= 0
      invariant levelHorizontal > 0 ==> RecordedHorizontal(t, horizontal, levelHorizontal - h)
    {
      if signals.Exhausted() {
        ExhaustionEndsWalk(t, first - h, 0);
        return true, h, signals, vTemp;
      }
      HalvingsStep(t, first - h, 0);
      signals := SplitColumnsOnly(t, horizontal, levelHorizontal, h, signals);
      h := h - 1;
      vTemp := vTemp * 2;
    }
  }

  /** One row split of the second loop: no column has been split yet. */
  method SplitRowsOnly(ghost t: Tree, vertical: array<Level>, levelVertical: int, v: int, signals: Signals)
    returns (next: Signals)
    requires t.Valid() && levelVertical == t.levelVertical == vertical.Length
    requires 0 < v <= levelVertical && t.levelHorizontal <= v
    requires signals == t.At(0, levelVertical - v)
    requires RecordedVertical(t, vertical, levelVertical - v)
    modifies vertical
    ensures next == t.At(0, levelVertical - v + 1)
    ensures RecordedVertical(t, vertical, levelVertical - v + 1)
  {
    ghost var rows := levelVertical - v;
    RowStep(t, 0, rows);
    RowRecord(t, 0, rows, 1, Pow2(rows), Pow2(t.Halvings(0, rows)));
    var split := signals.rowToActive > 1;
    var active, sum;
    if v == levelVertical {
      active, sum := if split then 2 else 1, 2;
    } else {
      var previous := vertical[levelVertical - v - 1];
      active, sum := if split then 2 * previous.active else previous.active, 2 * previous.sum;
    }
    next := signals.SplitRow();
    assert next.Record(1, sum, active) == t.VerticalLevel(rows);
    vertical[levelVertical - v] := next.Record(1, sum, active);
  }

  /** While there are more vertical levels left, split rows only. */
  method ReduceVertical(ghost t: Tree, vertical: array<Level>, levelVertical: int, h: int, start: Signals)
    returns (exhausted: bool, v: int, signals: Signals, hTemp: int)
    requires t.Valid() && levelVertical == t.levelVertical == vertical.Length
    requires 0 <= h <= levelVertical && h <= LastColumns(t) && (h == LastColumns(t) || h == levelVertical)
    requires start == t.At(LastColumns(t) - h, 0)
    requires t.address < 0 || start.address >= 0
    modifies vertical
    ensures exhausted ==> !Survives(t)
    ensures !exhausted ==>
      && v == h && signals == t.At(LastColumns(t) - h, levelVertical - v) && hTemp == Pow2(levelVertical - v)
      && (t.address < 0 || signals.address >= 0)
      && RecordedVertical(t, vertical, levelVertical - v)
  {
    exhausted, v, signals, hTemp := false, levelVertical, start, 1;
    ghost var columns := LastColumns(t) - h;
    while v > h
      invariant h <= v <= levelVertical
      invariant signals == t.At(columns, levelVertical - v) && hTemp == Pow2(levelVertical - v)
      invariant t.address < 0 || signals.address >= 0
      invariant RecordedVertical(t, vertical, levelVertical - v)
    {
      if signals.Exhausted() {
        ExhaustionEndsWalk(t, columns, levelVertical - v);
        return true, v, signals, hTemp;
      }
      HalvingsStep(t, columns, levelVertical - v);
      signals := SplitRowsOnly(t, vertical, levelVertical, v, signals);
      v := v - 1;
      hTemp := hTemp * 2;
    }
  }

  /** The column half of a step that splits both ways. */
  method SplitColumns(ghost t: Tree, horizontal: array<Level>, vertical: array<Level>,
                      levelHorizontal: int, levelVertical: int, h: int, v: int, signals: Signals, hTemp: int)
    returns (next: Signals)
    requires horizontal != vertical
    requires t.Valid() && levelHorizontal == t.levelHorizontal == horizontal.Length
        && levelVertical == t.levelVertical == vertical.Length
    requires 0 < h == v <= levelVertical && h < levelHorizontal
    requires signals == t.At(levelHorizontal - 1 - h, levelVertical - v) && hTemp == Pow2(levelVertical - v)
    requires RecordedHorizontal(t, horizontal, levelHorizontal - h) && RecordedVertical(t, vertical, levelVertical - v)
    modifies horizontal
    ensures next == t.At(levelHorizontal - h, levelVertical - v)
    ensures RecordedHorizontal(t, horizontal, levelHorizontal - h + 1)
  {
    ghost var columns, rows := levelHorizontal - 1 - h, levelVertical - v;
    var previous := if v == levelVertical then horizontal[levelHorizontal - h - 1] else vertical[levelVertical - v - 1];
    assert previous.sum == Pow2(columns + rows) && previous.active == Pow2(t.Halvings(columns, rows));
    ColumnStep(t, columns, rows);
    ColumnRecord(t, columns, rows, hTemp, previous);
    var active := if signals.columnToActive > 1 then 2 * previous.active else previous.active;
    next := signals.SplitColumn();
    assert next.Record(hTemp, 2 * previous.sum, active) == t.HorizontalLevel(columns + 1);
    horizontal[levelHorizontal - h] := next.Record(hTemp, 2 * previous.sum, active);
  }

  /** The row half. */
  method SplitRows(ghost t: Tree, horizontal: array<Level>, vertical: array<Level>,
                   levelHorizontal: int, levelVertical: int, h: int, v: int, signals: Signals, vTemp: int)
    returns (next: Signals)
    requires horizontal != vertical
    requires t.Valid() && levelHorizontal == t.levelHorizontal == horizontal.Length
        && levelVertical == t.levelVertical == vertical.Length
    requires 0 < h == v <= levelVertical && h < levelHorizontal
    requires signals == t.At(levelHorizontal - h, levelVertical - v) && vTemp == Pow2(levelHorizontal - 1 - h)
    requires RecordedHorizontal(t, horizontal, levelHorizontal - h + 1)
        && RecordedVertical(t, vertical, levelVertical - v)
    modifies vertical
    ensures next == t.At(levelHorizontal - h, levelVertical - v + 1)
    ensures RecordedVertical(t, vertical, levelVertical - v + 1)
  {
    ghost var columns, rows := levelHorizontal - h, levelVertical - v;
    var parent := horizontal[levelHorizontal - h];
    var tiers := if levelHorizontal == 2 then vTemp else 2 * vTemp;
    RowStep(t, columns, rows);
    RowRecord(t, columns, rows, tiers, parent.sum, parent.active);
    var active := if signals.rowToActive > 1 then 2 * parent.active else parent.active;
    next := signals.SplitRow();
    assert next.Record(tiers, 2 * parent.sum, active) == t.VerticalLevel(rows);
    vertical[levelVertical - v] := next.Record(tiers, 2 * parent.sum, active);
  }

  /** A column split and a row split in turn, each behind its exhaustion test. */
  method SplitBoth(ghost t: Tree, horizontal: array<Level>, vertical: array<Level>,
                   levelHorizontal: int, levelVertical: int, h: int, start: Signals, hTemp: int, vTemp: int)
    returns (exhausted: bool, signals: Signals)
    requires horizontal != vertical
    requires t.Valid() && levelHorizontal == t.levelHorizontal == horizontal.Length
        && levelVertical == t.levelVertical == vertical.Length
    requires 0 < h <= levelVertical && h < levelHorizontal
    requires start == t.At(levelHorizontal - 1 - h, levelVertical - h)
    requires hTemp == Pow2(levelVertical - h) && vTemp == Pow2(levelHorizontal - 1 - h)
    requires t.address < 0 || start.address >= 0
    requires RecordedHorizontal(t, horizontal, levelHorizontal - h) && RecordedVertical(t, vertical, levelVertical - h)
    modifies horizontal, vertical
    ensures exhausted ==> !Survives(t)
    ensures !exhausted ==>
      && signals == t.At(levelHorizontal - h, levelVertical - h + 1) && (t.address < 0 || signals.address >= 0)
      && RecordedHorizontal(t, horizontal, levelHorizontal - h + 1)
          && RecordedVertical(t, vertical, levelVertical - h + 1)
  {
    exhausted, signals := false, start;
    if signals.Exhausted() {
      ExhaustionEndsWalk(t, levelHorizontal - 1 - h, levelVertical - h);
      return true, signals;
    }
    HalvingsStep(t, levelHorizontal - 1 - h, levelVertical - h);
    signals := SplitColumns(t, horizontal, vertical, levelHorizontal, levelVertical, h, h, signals, hTemp);
    if signals.Exhausted() {
      ExhaustionEndsWalk(t, levelHorizontal - h, levelVertical - h);
      return true, signals;
    }
    HalvingsStep(t, levelHorizontal - h, levelVertical - h);
    signals := SplitRows(t, horizontal, vertical, levelHorizontal, levelVertical, h, h, signals, vTemp);
  }

  /** The last loop: both kinds of split down to the mats. */
  method ReduceBoth(ghost t: Tree, horizontal: array<Level>, vertical: array<Level>,
                    levelHorizontal: int, levelVertical: int, start: Signals, hFirst: int, hTemp0: int, vTemp0: int)
    returns (exhausted: bool, signals: Signals)
    requires horizontal != vertical
    requires t.Valid() && levelHorizontal == t.levelHorizontal == horizontal.Length
        && levelVertical == t.levelVertical == vertical.Length
    requires 0 <= hFirst <= levelVertical && hFirst <= LastColumns(t)
    requires start == t.At(LastColumns(t) - hFirst, levelVertical - hFirst)
    requires hTemp0 == Pow2(levelVertical - hFirst) && vTemp0 == Pow2(LastColumns(t) - hFirst)
    requires t.address < 0 || start.address >= 0
    requires levelHorizontal > 0 ==> RecordedHorizontal(t, horizontal, levelHorizontal - hFirst)
    requires RecordedVertical(t, vertical, levelVertical - hFirst)
    modifies horizontal, vertical
    ensures exhausted ==> !Survives(t)
    ensures !exhausted ==>
      && signals == t.At(LastColumns(t), levelVertical) && (t.address < 0 || signals.address >= 0)
      && RecordedHorizontal(t, horizontal, levelHorizontal) && RecordedVertical(t, vertical, levelVertical)
  {
    var h, v, hTemp, vTemp := hFirst, hFirst, hTemp0, vTemp0;
    exhausted, signals := false, start;
    while h > 0
      invariant 0 <= h == v <= hFirst
      invariant signals == t.At(LastColumns(t) - h, levelVertical - v)
      invariant hTemp == Pow2(levelVertical - v) && vTemp == Pow2(LastColumns(t) - h)
      invariant t.address < 0 || signals.address >= 0
      invariant levelHorizontal > 0 ==> RecordedHorizontal(t, horizontal, levelHorizontal - h)
      invariant RecordedVertical(t, vertical, levelVertical - v)
    {
      exhausted, signals :=
          SplitBoth(t, horizontal, vertical, levelHorizontal, levelVertical, h, signals, hTemp, vTemp);
      if exhausted {
        return;
      }
      h, v, hTemp, vTemp := h - 1, v - 1, hTemp * 2, vTemp * 2;
    }
  }

  /** The whole walk: the root level, the three loops, and the last split, which no
      level records. */
  method Route(ghost t: Tree, horizontal: array<Level>, vertical: array<Level>,
               levelHorizontal: int, levelVertical: int, start: Signals)
    returns (exhausted: bool, signals: Signals)
    requires horizontal != vertical && t.Valid()
    requires levelHorizontal == t.levelHorizontal == horizontal.Length
    requires levelVertical == t.levelVertical == vertical.Length
    requires start == t.At(0, 0)
    modifies horizontal, vertical
    ensures exhausted == !Survives(t)
    ensures !exhausted ==>
      && signals == t.At(levelHorizontal, levelVertical)
      && RecordedHorizontal(t, horizontal, levelHorizontal) && RecordedVertical(t, vertical, levelVertical)
  {
    var h := levelHorizontal;
    signals := start;
    if h > 0 {
      if signals.Exhausted() {
        ExhaustionEndsWalk(t, 0, 0);
        return true, signals;
      }
      horizontal[0] := signals.Record(1, 1, 1);
      h := h - 1;
    }
    var v, hTemp, vTemp;
    exhausted, h, signals, vTemp := ReduceHorizontal(t, horizontal, levelHorizontal, h, levelVertical, signals);
    if exhausted {
      return;
    }
    exhausted, v, signals, hTemp := ReduceVertical(t, vertical, levelVertical, h, signals);
    if exhausted {
      return;
    }
    exhausted, signals := ReduceBoth(t, horizontal, vertical, levelHorizontal, levelVertical, signals, h, hTemp, vTemp);
    if exhausted {
      return;
    }
    if signals.Exhausted() {
      ExhaustionEndsWalk(t, LastColumns(t), levelVertical);
      return true, signals;
    }
    ColumnStep(t, LastColumns(t), levelVertical);
    if signals.columnToActive > 1 || levelHorizontal > 0 {
      signals := signals.SplitColumn();
    }
  }

  // ---- What the levels add up to ----

  /** At every level the branches are the active ones times two for every address bit
      spent, and the data of one active branch times the active branches is the data of
      the bank whenever it divides evenly. */
  lemma LevelInvariant(t: Tree, columns: nat, rows: nat, wires: int)
    requires t.Valid()
    ensures var l := t.LevelAt(columns, rows, wires);
            && l.address <= t.address && l.broadcast == t.broadcast && l.wires == wires
            && l.sum == l.active * Pow2(t.address - l.address)
            && l.active * l.distribute <= t.distribute
            && (t.distribute % l.active == 0 ==> l.active * l.distribute == t.distribute)
  {
    var k := t.Halvings(columns, rows);
    Pow2Add(k, t.Spent(columns, rows));
    assert columns + rows == k + t.Spent(columns, rows);
    HalvedIsQuotient(t.distribute, k);
    var d := t.distribute / Pow2(k);
    assert t.distribute == Pow2(k) * d + t.distribute % Pow2(k);
  }

  /** After the last split the branches are the mats and the active branches the active mats. */
  lemma LeavesAreMats(t: Tree)
    requires t.Valid()
    ensures var l := t.LevelAt(t.levelHorizontal, t.levelVertical, 1);
            && l.sum == Pow2(t.levelHorizontal) * Pow2(t.levelVertical)
            && l.active == Pow2(t.activeColumns) * Pow2(t.activeRows)
            && l.address == t.address - (t.levelHorizontal + t.levelVertical - t.activeColumns - t.activeRows)
  {
    Pow2Add(t.levelHorizontal, t.levelVertical);
    Pow2Add(t.activeColumns, t.activeRows);
  }

  /** A horizontal level is recorded as soon as no more row splits than column splits are
      left, and its wires times the branches along its own direction are all its branches. */
  lemma HorizontalOrder(t: Tree, k: nat)
    requires t.Valid() && k < t.levelHorizontal
    ensures var rows := t.RowsAbove(k);
            && 0 <= rows && (k == 0 ==> rows == 0)
            && (k > 0 ==> t.levelVertical - rows <= t.levelHorizontal - k)
            && (rows > 0 ==> t.levelVertical - rows == t.levelHorizontal - k)
    ensures t.HorizontalLevel(k).wires * Pow2(k) == t.HorizontalLevel(k).sum
    ensures t.HorizontalLevel(k).sum == Pow2(k + t.RowsAbove(k))
  {
    Pow2Add(t.RowsAbove(k), k);
  }

  /** A vertical level follows the column splits that leave no more of them than row splits.
      Its wires times the branches along its own direction are all its branches, but half as
      many with exactly two horizontal levels, once a column is split. */
  lemma VerticalOrder(t: Tree, k: nat)
    requires t.Valid() && k < t.levelVertical
    ensures var columns := t.ColumnsAbove(k);
            && 0 <= columns && t.levelHorizontal - columns <= t.levelVertical - k
            && (columns > 0 ==> t.levelHorizontal - columns == t.levelVertical - k)
    ensures var l := t.VerticalLevel(k);
            && l.sum == Pow2(t.ColumnsAbove(k) + k + 1)
            && l.wires * Pow2(k + 1) * (if t.levelHorizontal == 2 && t.ColumnsAbove(k) > 0 then 2 else 1) == l.sum
  {
    var columns := t.ColumnsAbove(k);
    Pow2Add(columns, k + 1);
    if columns > 0 {
      MulAssoc(2, Pow2(columns - 1), Pow2(k + 1));
    }
  }
}
