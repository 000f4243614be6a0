/** Merging the results of several memory cell types into those of the first, after the
    comparison loops of `main`. */
module CellMerge {
  import opened Results

  /** What is held for one target: a data array, its tag array, and the cells they use. */
  datatype Pair = Pair(data: Stored, dataTech: int, tag: Stored, tagTech: int)

  /** The rules of one target: what it minimises and what cell 0's results admit. */
  datatype Rules = Rules(target: Target, dataLimits: Limits, tagLimits: Limits, differentTagTech: bool) {
    predicate DataWins(held: Pair, offered: Pair) {
      dataLimits.Admit(offered.data.metrics)
          && Objective(target, offered.data.metrics) < Objective(target, held.data.metrics)
    }

    predicate TagWins(held: Pair, offered: Pair) {
      tagLimits.Admit(offered.tag.metrics)
          && Objective(target, offered.tag.metrics) < Objective(target, held.tag.metrics)
    }

    /** One comparison with the cell of index `tech`. */
    function Step(held: Pair, offered: Pair, tech: int): Pair {
      var data := if DataWins(held, offered) then held.(data := offered.data, dataTech := tech) else held;
      if (if differentTagTech then TagWins(held, offered) else DataWins(held, offered))
      then data.(tag := offered.tag, tagTech := tech) else data
    }

    /** Cells 1 to n - 1 merged into cell 0. */
    function Merged(cells: seq<Pair>, n: int): Pair
      requires 1 <= n <= |cells|
    {
      if n == 1 then cells[0] else Step(Merged(cells, n - 1), cells[n - 1], n - 1)
    }
  }

  /** Each cell's results name the cell they come from. */
  predicate OwnTech(cells: seq<Pair>) {
    forall c :: 0 <= c < |cells| ==> cells[c].dataTech == c && cells[c].tagTech == c
  }

  /** m is the best of the first n cells. Its data array is one cell's own; every admitted
      data array of an earlier cell is worse, and none of a later one is better. Unless
      different tag technology is allowed the tag array comes from the same cell; if it is
      allowed, the tag array is best in the same sense on its own. */
  predicate Best(rules: Rules, cells: seq<Pair>, n: int, m: Pair)
    requires 1 <= n <= |cells|
  {
    && 0 <= m.dataTech < n && m.data == cells[m.dataTech].data
    && (m.dataTech > 0 ==> rules.DataWins(cells[0], cells[m.dataTech]))
    && (forall c :: 0 < c < m.dataTech && rules.dataLimits.Admit(cells[c].data.metrics) ==>
          Objective(rules.target, m.data.metrics) < Objective(rules.target, cells[c].data.metrics))
    && (forall c :: 0 < c < n && rules.dataLimits.Admit(cells[c].data.metrics) ==>
          Objective(rules.target, m.data.metrics) <= Objective(rules.target, cells[c].data.metrics))
    && Objective(rules.target, m.data.metrics) <= Objective(rules.target, cells[0].data.metrics)
    && 0 <= m.tagTech < n && m.tag == cells[m.tagTech].tag
    && (!rules.differentTagTech ==> m.tagTech == m.dataTech)
    && (rules.differentTagTech ==>
          && (m.tagTech > 0 ==> rules.TagWins(cells[0], cells[m.tagTech]))
          && (forall c :: 0 < c < m.tagTech && rules.tagLimits.Admit(cells[c].tag.metrics) ==>
                Objective(rules.target, m.tag.metrics) < Objective(rules.target, cells[c].tag.metrics))
          && (forall c :: 0 < c < n && rules.tagLimits.Admit(cells[c].tag.metrics) ==>
                Objective(rules.target, m.tag.metrics) <= Objective(rules.target, cells[c].tag.metrics))
          && Objective(rules.target, m.tag.metrics) <= Objective(rules.target, cells[0].tag.metrics))
  }

  /** The merge of any number of cells is the best of them. */
  lemma {:induction false} MergeOptimal(rules: Rules, cells: seq<Pair>, n: int)
    requires OwnTech(cells) && 1 <= n <= |cells|
    ensures Best(rules, cells, n, rules.Merged(cells, n))
    decreases n
  {
    if n > 1 {
      MergeOptimal(rules, cells, n - 1);
    }
  }

  function PairOf(data: Result, tag: Result): Pair
    reads data, tag
  {
    Pair(data.State(), data.cellTech, tag.State(), tag.cellTech)
  }

  function RulesOf(data: Result, tag: Result, differentTagTech: bool): Rules
    reads data, tag
  {
    Rules(data.optimizationTarget, data.limits, tag.limits, differentTagTech)
  }

  /** One target of one further cell, whose results are only read. */
  method MergeTarget(data: Result, tag: Result, offered: Pair, tech: int, differentTagTech: bool)
    requires data != tag && data.optimizationTarget == tag.optimizationTarget
    modifies data`design, data`metrics, data`localWire, data`globalWire, data`cellTech
    modifies tag`design, tag`metrics, tag`localWire, tag`globalWire, tag`cellTech
    ensures PairOf(data, tag) == RulesOf(data, tag, differentTagTech).Step(old(PairOf(data, tag)), offered, tech)
  {
    var updated := data.CompareAndUpdate(offered.data);
    if updated && !differentTagTech {
      tag.design, tag.metrics := offered.tag.design, offered.tag.metrics;
      tag.localWire, tag.globalWire := offered.tag.localWire, offered.tag.globalWire;
      data.cellTech := tech;
      tag.cellTech := tech;
    } else if updated && differentTagTech {
      data.cellTech := tech;
    }
    if differentTagTech {
      updated := tag.CompareAndUpdate(offered.tag);
      if updated {
        tag.cellTech := tech;
      }
    }
  }

  /** Cell 0's results: distinct objects, one data and one tag result per target. */
  predicate SeparateRows(data: seq<Result>, tag: seq<Result>) {
    && |data| == |tag|
    && (forall i, j :: 0 <= i < |data| && 0 <= j < |data| ==>
          && data[i] != tag[j] && (i != j ==> data[i] != data[j] && tag[i] != tag[j]))
    && forall i :: 0 <= i < |data| ==> data[i].optimizationTarget == tag[i].optimizationTarget
  }

  /** What all cells hold for one target. */
  function Column(cells: seq<seq<Pair>>, targets: nat, i: nat): (column: seq<Pair>)
    requires i < targets && Complete(cells, targets)
    ensures |column| == |cells|
  {
    seq(|cells|, c requires 0 <= c < |cells| => cells[c][i])
  }

  /** Every cell has a pair for every target. */
  predicate Complete(cells: seq<seq<Pair>>, targets: nat) {
    forall c :: 0 <= c < |cells| ==> |cells[c]| == targets
  }

  /** This pair is the merge of the first n cells. */
  predicate Holds(data: Result, tag: Result, column: seq<Pair>, allow: bool, n: int)
    reads data, tag
  {
    1 <= n <= |column| && PairOf(data, tag) == RulesOf(data, tag, allow).Merged(column, n)
  }

  /** Target i of cell 0 is the merge of the first n cells, and of one more if i < t. */
  predicate MergedTo(data: seq<Result>, tag: seq<Result>, cells: seq<seq<Pair>>, allow: bool, n: int, t: int)
    reads data, tag
  {
    && |data| == |tag| && Complete(cells, |data|)
    && forall i :: 0 <= i < |data| ==>
         Holds(data[i], tag[i], Column(cells, |data|, i), allow, if i < t then n + 1 else n)
  }

  /** One target of one further cell. */
  method MergeNext(data: Result, tag: Result, column: seq<Pair>, c: int, differentTagTech: bool)
    requires data != tag && data.optimizationTarget == tag.optimizationTarget
    requires c < |column| && Holds(data, tag, column, differentTagTech, c)
    modifies data`design, data`metrics, data`localWire, data`globalWire, data`cellTech
    modifies tag`design, tag`metrics, tag`localWire, tag`globalWire, tag`cellTech
    ensures Holds(data, tag, column, differentTagTech, c + 1)
  {
    MergeTarget(data, tag, column[c], c, differentTagTech);
  }

  /** All targets of one further cell. */
  method MergeCell(data: seq<Result>, tag: seq<Result>, cells: seq<seq<Pair>>, c: int, differentTagTech: bool)
    requires SeparateRows(data, tag) && 1 <= c < |cells| && MergedTo(data, tag, cells, differentTagTech, c, 0)
    modifies data`design, data`metrics, data`localWire, data`globalWire, data`cellTech
    modifies tag`design, tag`metrics, tag`localWire, tag`globalWire, tag`cellTech
    ensures MergedTo(data, tag, cells, differentTagTech, c + 1, 0)
  {
    for t := 0 to |data|
      invariant MergedTo(data, tag, cells, differentTagTech, c, t)
    {
      label before:
      MergeNext(data[t], tag[t], Column(cells, |data|, t), c, differentTagTech);
      forall i | 0 <= i < |data| && i != t
        ensures Holds(data[i], tag[i], Column(cells, |data|, i), differentTagTech, if i < t then c + 1 else c)
      {
        assert data[i] != data[t] && tag[i] != tag[t] && data[i] != tag[t] && tag[i] != data[t];
        assert old@before(Holds(data[i], tag[i], Column(cells, |data|, i), differentTagTech,
                                if i < t then c + 1 else c));
      }
    }
  }

  /** Every target holds the best of all cells, if each names its own cell. */
  predicate AllBest(data: seq<Result>, tag: seq<Result>, cells: seq<seq<Pair>>, allow: bool)
    requires |data| == |tag| && |cells| >= 1 && Complete(cells, |data|)
    reads data, tag
  {
    forall i :: 0 <= i < |data| && OwnTech(Column(cells, |data|, i)) ==>
      Best(RulesOf(data[i], tag[i], allow), Column(cells, |data|, i), |cells|, PairOf(data[i], tag[i]))
  }

  lemma MergedBest(data: seq<Result>, tag: seq<Result>, cells: seq<seq<Pair>>, allow: bool)
    requires |cells| >= 1 && MergedTo(data, tag, cells, allow, |cells|, 0)
    ensures AllBest(data, tag, cells, allow)
  {
    forall i | 0 <= i < |data| && OwnTech(Column(cells, |data|, i))
      ensures Best(RulesOf(data[i], tag[i], allow), Column(cells, |data|, i), |cells|, PairOf(data[i], tag[i]))
    {
      MergeOptimal(RulesOf(data[i], tag[i], allow), Column(cells, |data|, i), |cells|);
    }
  }

  /** Merge every further cell into cell 0: afterwards each target's pair is the merge of
      its column, and the best of it. */
  method MergeCells(data: seq<Result>, tag: seq<Result>, cells: seq<seq<Pair>>, differentTagTech: bool)
    requires SeparateRows(data, tag) && |cells| >= 1
    requires Complete(cells, |data|) && forall i :: 0 <= i < |data| ==> cells[0][i] == PairOf(data[i], tag[i])
    modifies data`design, data`metrics, data`localWire, data`globalWire, data`cellTech
    modifies tag`design, tag`metrics, tag`localWire, tag`globalWire, tag`cellTech
    ensures MergedTo(data, tag, cells, differentTagTech, |cells|, 0)
    ensures AllBest(data, tag, cells, differentTagTech)
  {
    for c := 1 to |cells|
      invariant MergedTo(data, tag, cells, differentTagTech, c, 0)
    {
      MergeCell(data, tag, cells, c, differentTagTech);
    }
    MergedBest(data, tag, cells, differentTagTech);
  }
}
