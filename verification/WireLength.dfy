/** Lengths of the H-tree wires, after the loops of `BankWithHtree::CalculateArea`. */
module WireLength {
  import opened PowersOfTwo

  /** What the loops read: mat dimensions, the bits on each level, and how much silicon a
      bundle of wires takes. */
  datatype Plan = Plan(
    matHeight: real, matWidth: real,
    horizontalBits: seq<nat>, verticalBits: seq<nat>,
    numWireSharingWidth: nat, effectivePitch: real)
  {
    predicate Valid() {
      matHeight >= 0.0 && matWidth >= 0.0 && numWireSharingWidth >= 1 && effectivePitch >= 0.0
    }

    function LH(): nat { |horizontalBits| }

    function LV(): nat { |verticalBits| }

    /** Half the width of a bundle that crosses a wire. */
    function Crossing(bits: nat): (r: real)
      requires Valid()
      ensures r >= 0.0 && (effectivePitch == 0.0 ==> r == 0.0)
    {
      var tracks := ((bits + numWireSharingWidth - 1) / numWireSharingWidth) as real;
      NonNegativeProduct(tracks, effectivePitch);
      tracks * effectivePitch / 2.0
    }

    /** The horizontal level handled in the same step as vertical level v. */
    function Partner(v: int): int {
      if LH() > LV() then v + LH() - LV() else v
    }

    /** Vertical wires: doubled on the way up, plus the crossing of the paired horizontal level. */
    function Vertical(v: nat): (length: real)
      requires Valid() && v < LV()
      ensures length >= 0.0
      decreases LV() - v
    {
      if v == LV() - 1 then matHeight / 2.0
      else if Partner(v) >= LH() - 1 then 2.0 * Vertical(v + 1)
      else 2.0 * Vertical(v + 1) + Crossing(horizontalBits[Partner(v) + 1])
    }

    /** Crossings of all vertical levels from v down to the mats. */
    function CrossingsFrom(v: nat): (r: real)
      requires Valid() && v <= LV()
      ensures r >= 0.0 && (effectivePitch == 0.0 ==> r == 0.0)
      decreases LV() - v
    {
      if v == LV() then 0.0 else Crossing(verticalBits[v]) + CrossingsFrom(v + 1)
    }

    /** The vertical level handled in the same step as horizontal level h; negative if none is left. */
    function VerticalPartner(h: int): int {
      if LH() > LV() then h - LH() + LV() else h
    }

    function Horizontal(h: nat): (length: real)
      requires Valid() && h < LH()
      ensures length >= 0.0
      decreases LH() - h
    {
      var v := VerticalPartner(h);
      if h == LH() - 1 then matWidth + (if v >= 0 then CrossingsFrom(v) else 0.0)
      else if v >= 0 then 2.0 * Horizontal(h + 1) + Crossing(verticalBits[v])
      else 2.0 * Horizontal(h + 1)
    }
  }

  /** Twice the crossing is the pitch of the tracks the bits need: the least number of tracks
      that hold them, each shared by so many wires. */
  lemma CrossingByTracks(p: Plan, bits: nat, tracks: nat)
    requires p.Valid() && tracks * p.numWireSharingWidth >= bits
    requires tracks == 0 || (tracks - 1) * p.numWireSharingWidth < bits
    ensures 2.0 * p.Crossing(bits) == tracks as real * p.effectivePitch
  {
    var s := p.numWireSharingWidth;
    if tracks == 0 {
      QuotientUnique(bits + s - 1, s, 0, bits + s - 1);
    } else {
      assert tracks * s == (tracks - 1) * s + s;
      QuotientUnique(bits + s - 1, s, tracks, bits + s - 1 - tracks * s);
    }
  }

  lemma NonNegativeProduct(a: real, b: real)
    requires a >= 0.0 && b >= 0.0
    ensures a * b >= 0.0 && (b == 0.0 ==> a * b == 0.0)
  {
  }

  /** Length of 2^k mats side by side. */
  function Span(mat: real, k: nat): real {
    mat * (Pow2(k) as real)
  }

  lemma SpanDoubles(mat: real, k: nat)
    ensures Span(mat, k + 1) == 2.0 * Span(mat, k)
  {
    var p := Pow2(k) as real;
    assert Pow2(k + 1) as real == 2.0 * p;
    assert mat * (2.0 * p) == 2.0 * (mat * p);
  }

  /** A wire spans at least the mats below it, and exactly those when wires take no silicon. */
  lemma {:induction false} VerticalSpan(p: Plan, v: nat)
    requires p.Valid() && v < p.LV()
    ensures p.Vertical(v) >= Span(p.matHeight / 2.0, p.LV() - 1 - v)
    ensures p.effectivePitch == 0.0 ==> p.Vertical(v) == Span(p.matHeight / 2.0, p.LV() - 1 - v)
    decreases p.LV() - v
  {
    if v < p.LV() - 1 {
      VerticalSpan(p, v + 1);
      SpanDoubles(p.matHeight / 2.0, p.LV() - 2 - v);
    }
  }

  lemma {:induction false} HorizontalSpan(p: Plan, h: nat)
    requires p.Valid() && h < p.LH()
    ensures p.Horizontal(h) >= Span(p.matWidth, p.LH() - 1 - h)
    ensures p.effectivePitch == 0.0 ==> p.Horizontal(h) == Span(p.matWidth, p.LH() - 1 - h)
    decreases p.LH() - h
  {
    if h < p.LH() - 1 {
      HorizontalSpan(p, h + 1);
      SpanDoubles(p.matWidth, p.LH() - 2 - h);
    }
  }

  /** Silicon crossed on the way down, each level counted twice as often as the one above. */
  function Weighted(crossed: seq<real>): real {
    if crossed == [] then 0.0 else crossed[0] + 2.0 * Weighted(crossed[1..])
  }

  /** Bundle of `tracks` tracks that holds the bits of a level; nothing beyond the last level. */
  predicate Bundle(p: Plan, bits: seq<nat>, level: int, halfWidth: real)
    requires p.Valid()
  {
    if 0 <= level < |bits| then halfWidth == p.Crossing(bits[level]) else halfWidth == 0.0
  }

  /** A vertical wire is the half mats below it and, of every horizontal level below the one
      it meets, the bundle, doubled on the way up. Levels meet from the top if there are at
      least as many vertical ones, and from the bottom otherwise. */
  lemma {:induction false} VerticalByCrossings(p: Plan, v: nat, crossed: seq<real>)
    requires p.Valid() && v < p.LV() && |crossed| == p.LV() - 1 - v
    requires forall i :: 0 <= i < |crossed| ==>
      Bundle(p, p.horizontalBits, v + i + 1 + (if p.LH() > p.LV() then p.LH() - p.LV() else 0), crossed[i])
    ensures p.Vertical(v) == Span(p.matHeight / 2.0, |crossed|) + Weighted(crossed)
    decreases p.LV() - v
  {
    if v < p.LV() - 1 {
      assert Bundle(p, p.horizontalBits, p.Partner(v) + 1, crossed[0]);
      VerticalByCrossings(p, v + 1, crossed[1..]);
      SpanDoubles(p.matHeight / 2.0, |crossed| - 1);
    }
  }

  /** A horizontal wire is the mats below it, doubled on the way up with the bundle of the
      vertical level it meets, over all vertical bundles from the lowest meeting down. */
  lemma {:induction false} HorizontalByCrossings(p: Plan, h: nat, crossed: seq<real>)
    requires p.Valid() && h < p.LH() && |crossed| == p.LH() - h
    requires forall i :: 0 <= i < |crossed| - 1 ==>
      Bundle(p, p.verticalBits, h + i - (if p.LH() > p.LV() then p.LH() - p.LV() else 0), crossed[i])
    requires LowestMeeting(p, crossed[|crossed| - 1])
    ensures p.Horizontal(h) == Span(p.matWidth, |crossed| - 1) + Weighted(crossed)
    decreases p.LH() - h
  {
    if h == p.LH() - 1 {
      assert Weighted(crossed) == crossed[0] + 2.0 * Weighted([]);
      assert Span(p.matWidth, 0) == p.matWidth;
    } else {
      assert Bundle(p, p.verticalBits, p.VerticalPartner(h), crossed[0]);
      HorizontalByCrossings(p, h + 1, crossed[1..]);
      SpanDoubles(p.matWidth, |crossed| - 2);
    }
  }

  /** All vertical bundles from the level that the lowest horizontal one meets down to the mats. */
  predicate LowestMeeting(p: Plan, total: real)
    requires p.Valid()
  {
    if p.LH() > p.LV() then total == (if p.LV() == 0 then 0.0 else p.CrossingsFrom(p.LV() - 1))
    else 1 <= p.LH() && total == p.CrossingsFrom(p.LH() - 1)
  }

  predicate VerticalFrom(p: Plan, lengths: array<real>, v: int)
    requires p.Valid()
    reads lengths
  {
    lengths.Length == p.LV() && -1 <= v && forall i :: v < i < p.LV() ==> lengths[i] == p.Vertical(i)
  }

  predicate HorizontalFrom(p: Plan, lengths: array<real>, h: int)
    requires p.Valid()
    reads lengths
  {
    lengths.Length == p.LH() && -1 <= h && forall i :: h < i < p.LH() ==> lengths[i] == p.Horizontal(i)
  }

  /** The three loops; every length is the one specified above. */
  method CalculateLengths(p: Plan) returns (lengthHorizontal: array<real>, lengthVertical: array<real>)
    requires p.Valid()
    ensures HorizontalFrom(p, lengthHorizontal, -1) && VerticalFrom(p, lengthVertical, -1)
  {
    lengthHorizontal := new real[p.LH()];
    lengthVertical := new real[p.LV()];
    var v := LowerVertical(p, lengthVertical);
    var h := Paired(p, lengthHorizontal, lengthVertical, v);
    UpperHorizontal(p, lengthHorizontal, h);
  }

  /** Vertical levels below the lowest horizontal one. */
  method LowerVertical(p: Plan, lengthVertical: array<real>) returns (v: int)
    requires p.Valid() && lengthVertical.Length == p.LV()
    modifies lengthVertical
    ensures v == Min(p.LV(), p.LH()) - 1 && VerticalFrom(p, lengthVertical, v)
  {
    v := p.LV() - 1;
    while v > p.LH() - 1
      invariant Min(p.LV(), p.LH()) - 1 <= v < p.LV() && VerticalFrom(p, lengthVertical, v)
    {
      lengthVertical[v] := if v == p.LV() - 1 then p.matHeight / 2.0 else lengthVertical[v + 1] * 2.0;
      v := v - 1;
    }
  }

  /** A vertical and a horizontal level in each step. */
  method Paired(p: Plan, lengthHorizontal: array<real>, lengthVertical: array<real>, first: int) returns (h: int)
    requires p.Valid() && lengthHorizontal != lengthVertical
    requires first == Min(p.LV(), p.LH()) - 1 && lengthHorizontal.Length == p.LH()
        && VerticalFrom(p, lengthVertical, first)
    modifies lengthHorizontal, lengthVertical
    ensures VerticalFrom(p, lengthVertical, -1) && HorizontalFrom(p, lengthHorizontal, h)
    ensures h == (if p.LH() > p.LV() then p.LH() - p.LV() else 0) - 1
  {
    h := p.LH() - 1;
    var v := first;
    while v >= 0
      invariant -1 <= v < p.LV() && -1 <= h < p.LH()
      invariant h - v == if p.LH() > p.LV() then p.LH() - p.LV() else 0
      invariant VerticalFrom(p, lengthVertical, v) && HorizontalFrom(p, lengthHorizontal, h)
    {
      lengthVertical[v] := VerticalCell(p, lengthVertical, h, v);
      lengthHorizontal[h] := HorizontalCell(p, lengthHorizontal, h, v);
      v, h := v - 1, h - 1;
    }
  }

  method VerticalCell(p: Plan, lengthVertical: array<real>, h: nat, v: nat) returns (length: real)
    requires p.Valid() && v < p.LV() && h < p.LH() && h == p.Partner(v) && VerticalFrom(p, lengthVertical, v)
    ensures length == p.Vertical(v)
  {
    if v == p.LV() - 1 {
      length := p.matHeight / 2.0;
    } else if h == p.LH() - 1 {
      length := lengthVertical[v + 1] * 2.0;
    } else {
      length := lengthVertical[v + 1] * 2.0 + p.Crossing(p.horizontalBits[h + 1]);
    }
  }

  method HorizontalCell(p: Plan, lengthHorizontal: array<real>, h: nat, v: nat) returns (length: real)
    requires p.Valid() && v < p.LV() && h < p.LH() && h == p.Partner(v) && HorizontalFrom(p, lengthHorizontal, h)
    ensures length == p.Horizontal(h)
  {
    if h == p.LH() - 1 {
      length := p.matWidth;
      for i := v to p.LV()
        invariant length + p.CrossingsFrom(i) == p.matWidth + p.CrossingsFrom(v)
      {
        length := length + p.Crossing(p.verticalBits[i]);
      }
    } else {
      length := lengthHorizontal[h + 1] * 2.0 + p.Crossing(p.verticalBits[v]);
    }
  }

  /** Horizontal levels above the highest vertical one. */
  method UpperHorizontal(p: Plan, lengthHorizontal: array<real>, first: int)
    requires p.Valid() && HorizontalFrom(p, lengthHorizontal, first)
    requires first == (if p.LH() > p.LV() then p.LH() - p.LV() else 0) - 1
    modifies lengthHorizontal
    ensures HorizontalFrom(p, lengthHorizontal, -1)
  {
    var h := first;
    while h >= 0
      invariant -1 <= h <= first && HorizontalFrom(p, lengthHorizontal, h)
    {
      lengthHorizontal[h] := if h == p.LH() - 1 then p.matWidth else lengthHorizontal[h + 1] * 2.0;
      h := h - 1;
    }
  }
}
