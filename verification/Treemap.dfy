/** The squarified treemap of cmd/report_treemap.go over the reals: +Inf is its own
    constructor, and rounding is not modelled. */
module Treemap {
  import opened Ordering

  datatype Item = Item(path: string, size: real, complexity: real)
  datatype Box = Box(path: string, x: real, y: real, w: real, h: real, size: real, complexity: real)
  datatype Rect = Rect(x: real, y: real, w: real, h: real)
  datatype Ext = Fin(v: real) | Inf

  predicate Less(a: Ext, b: Ext) { a.Fin? && (b.Inf? || a.v < b.v) }

  /** The order of float64 with +Inf above every number. */
  lemma {:induction false} LessExactly(a: Ext, b: Ext, x: real, y: real)
    ensures (Less(a, b) || Less(b, a) <==> a != b) && !(Less(a, b) && Less(b, a))
    ensures (Less(Fin(x), Fin(y)) <==> x < y) && Less(Fin(x), Inf)
  {
  }

  function MinR(a: real, b: real): real { if a < b then a else b }
  function MaxR(a: real, b: real): real { if a < b then b else a }

  function Sum(items: seq<Item>): real {
    if |items| == 0 then 0.0 else Sum(items[..|items| - 1]) + items[|items| - 1].size
  }

  ghost predicate NonNegative(items: seq<Item>) { forall it <- items :: it.size >= 0.0 }

  // ---------- what a tiling is ----------

  predicate In(r: Rect, px: real, py: real) {
    r.x <= px < r.x + r.w && r.y <= py < r.y + r.h
  }

  function Frame(b: Box): Rect { Rect(b.x, b.y, b.w, b.h) }

  /** How many of the half-open boxes hold the point. */
  function Count(boxes: seq<Box>, px: real, py: real): nat {
    if |boxes| == 0 then 0
    else Count(boxes[..|boxes| - 1], px, py) + if In(Frame(boxes[|boxes| - 1]), px, py) then 1 else 0
  }

  ghost predicate Inside(b: Box, r: Rect) {
    && b.w >= 0.0 && b.h >= 0.0
    && r.x <= b.x && b.x + b.w <= r.x + r.w
    && r.y <= b.y && b.y + b.h <= r.y + r.h
  }

  /** Every point of r but those in the part left over lies in one box, every other in none. */
  ghost predicate Covers(boxes: seq<Box>, r: Rect, left: Rect) {
    && (forall b <- boxes :: Inside(b, r))
    && forall px: real, py: real ::
         Count(boxes, px, py) + (if In(left, px, py) then 1 else 0) == if In(r, px, py) then 1 else 0
  }

  /** Each box belongs to the item at its place and has that item's size as its area. */
  ghost predicate Matches(items: seq<Item>, boxes: seq<Box>) {
    |boxes| == |items|
    && forall k :: 0 <= k < |items| ==>
         && boxes[k].path == items[k].path && boxes[k].complexity == items[k].complexity
         && boxes[k].size == items[k].size == boxes[k].w * boxes[k].h
  }

  /** Counting says what a tiling should: the boxes of a covered rectangle never overlap,
      and every point of it is in one of them. */
  lemma {:induction false} CountMeansDisjoint(boxes: seq<Box>, px: real, py: real)
    ensures Count(boxes, px, py) == 0 <==> forall k :: 0 <= k < |boxes| ==> !In(Frame(boxes[k]), px, py)
    ensures Count(boxes, px, py) <= 1 <==>
            forall j, k :: 0 <= j < k < |boxes| ==> !(In(Frame(boxes[j]), px, py) && In(Frame(boxes[k]), px, py))
  {
    if |boxes| > 0 {
      var front := boxes[..|boxes| - 1];
      CountMeansDisjoint(front, px, py);
      assert forall k :: 0 <= k < |front| ==> front[k] == boxes[k];
    }
  }

  lemma {:induction false} CountAppend(a: seq<Box>, b: seq<Box>, px: real, py: real)
    ensures Count(a + b, px, py) == Count(a, px, py) + Count(b, px, py)
  {
    if |b| == 0 {
      assert a + b == a;
    } else {
      CountAppend(a, b[..|b| - 1], px, py);
      assert (a + b)[..|a + b| - 1] == a + b[..|b| - 1];
    }
  }

  lemma {:induction false} CoversCompose(a: seq<Box>, b: seq<Box>, r: Rect, mid: Rect, left: Rect)
    requires Covers(a, r, mid) && Covers(b, mid, left)
    requires r.x <= mid.x && mid.x + mid.w <= r.x + r.w && r.y <= mid.y && mid.y + mid.h <= r.y + r.h
    ensures Covers(a + b, r, left)
  {
    forall px: real, py: real
      ensures Count(a + b, px, py) + (if In(left, px, py) then 1 else 0) == if In(r, px, py) then 1 else 0
    {
      CountAppend(a, b, px, py);
    }
  }

  // ---------- sums ----------

  lemma {:induction false} SumAppend(a: seq<Item>, b: seq<Item>)
    ensures Sum(a + b) == Sum(a) + Sum(b)
  {
    if |b| == 0 {
      assert a + b == a;
    } else {
      SumAppend(a, b[..|b| - 1]);
      assert (a + b)[..|a + b| - 1] == a + b[..|b| - 1];
    }
  }

  lemma {:induction false} SumNonNegative(items: seq<Item>)
    requires NonNegative(items)
    ensures Sum(items) >= 0.0
  {
    if |items| > 0 {
      SumNonNegative(items[..|items| - 1]);
    }
  }

  lemma {:induction false} SumPrefix(items: seq<Item>, k: nat)
    requires k <= |items| && NonNegative(items)
    ensures 0.0 <= Sum(items[..k]) <= Sum(items)
    ensures Sum(items) == Sum(items[..k]) + Sum(items[k..])
    ensures k < |items| ==> Sum(items[..k + 1]) == Sum(items[..k]) + items[k].size
  {
    var a, b := items[..k], items[k..];
    SumAppend(a, b);
    assert items == a + b;
    SumNonNegative(a);
    SumNonNegative(b);
    if k < |items| {
      assert items[..k + 1][..k] == a;
    }
  }

  // ---------- aspect ratios ----------

  type Pos = r: real | r > 0.0 witness 1.0

  function Mul(a: Pos, b: Pos): Pos { a * b }
  function Div(a: Pos, b: Pos): Pos { a / b }

  /** The aspect ratio of a rectangle with sides a and b. */
  function Aspect(a: Pos, b: Pos): Pos { MaxR(Div(a, b), Div(b, a)) }

  /** The aspect ratio of a box of the given size in a band of length side whose items sum
      to sum: the band is sum / side thick, so the box is size / thickness long. */
  function BoxAspect(size: Pos, sum: Pos, side: Pos): Pos {
    Aspect(Div(sum, side), Div(size, Div(sum, side)))
  }

  ghost predicate Positive(row: seq<Item>) { forall it <- row :: it.size > 0.0 }

  ghost predicate Degenerate(row: seq<Item>, side: real) {
    |row| == 0 || side <= 0.0 || Sum(row) <= 0.0 || exists it <- row :: it.size <= 0.0
  }

  /** r is the largest aspect ratio in the band, or +Inf for a band that has none. */
  ghost predicate IsWorst(r: Ext, row: seq<Item>, side: real) {
    if Degenerate(row, side) then r == Inf
    else
      && r.Fin?
      && (forall it <- row :: BoxAspect(it.size, Sum(row), side) <= r.v)
      && exists it <- row :: BoxAspect(it.size, Sum(row), side) == r.v
  }

  /** The code's form of an aspect ratio, from side squared and sum squared. */
  function Formula(s2: Pos, sum2: Pos, lo: Pos, hi: Pos): Pos {
    MaxR(Div(Mul(s2, hi), sum2), Div(sum2, Mul(s2, lo)))
  }

  lemma {:induction false} DivUnique(a: Pos, b: Pos, q: real)
    requires q * b == a
    ensures q == Div(a, b)
  {
  }

  lemma {:induction false} BoxAspectFormula(size: Pos, sum: Pos, side: Pos)
    ensures BoxAspect(size, sum, side) == Formula(Mul(side, side), Mul(sum, sum), size, size)
  {
    var t := Div(sum, side);
    var l := Div(size, t);
    var s2, sum2 := Mul(side, side), Mul(sum, sum);
    assert t * side == sum && l * t == size;
    assert sum2 == t * t * s2;
    var p, q := Div(l, t), Div(t, l);
    assert p * t == l && q * l == t;
    assert p * sum2 == s2 * size by {
      assert p * t * t == size;
    }
    DivUnique(Mul(s2, size), sum2, p);
    assert q * Mul(s2, size) == sum2 by {
      assert q * size == t * t;
    }
    DivUnique(sum2, Mul(s2, size), q);
  }

  lemma {:induction false} DivMonotone(a: Pos, b: Pos, d: Pos)
    requires a <= b
    ensures Div(a, d) <= Div(b, d) && Div(d, b) <= Div(d, a)
  {
    var p, q := Div(d, a), Div(d, b);
    assert q * a <= q * b == d == p * a;
    assert (p - q) * a >= 0.0;
  }

  lemma {:induction false} FormulaBetween(s2: Pos, sum2: Pos, minV: Pos, size: Pos, maxV: Pos)
    requires minV <= size <= maxV
    ensures Formula(s2, sum2, size, size) <= Formula(s2, sum2, minV, maxV)
  {
    assert Mul(s2, minV) <= Mul(s2, size) <= Mul(s2, maxV);
    DivMonotone(Mul(s2, size), Mul(s2, maxV), sum2);
    DivMonotone(Mul(s2, minV), Mul(s2, size), sum2);
  }

  // ---------- worstRatio ----------

  /** The worst ratio as a value: IsWorst pins it down, and WorstRatio computes it. */
  ghost function Worst(row: seq<Item>, side: real): Ext {
    WorstExists(row, side);
    var r :| IsWorst(r, row, side);
    r
  }

  lemma {:induction false} WorstExists(row: seq<Item>, side: real)
    ensures exists r :: IsWorst(r, row, side)
  {
    if Degenerate(row, side) {
      assert IsWorst(Inf, row, side);
    } else {
      var k := WorstIndex(row, |row|, Sum(row), side);
      assert IsWorst(Fin(BoxAspect(row[k].size, Sum(row), side)), row, side);
    }
  }

  lemma {:induction false} WorstIndex(row: seq<Item>, n: nat, sum: Pos, side: Pos) returns (k: nat)
    requires 0 < n <= |row| && Positive(row)
    ensures k < n && forall i :: 0 <= i < n ==> BoxAspect(row[i].size, sum, side) <= BoxAspect(row[k].size, sum, side)
  {
    k := n - 1;
    if n > 1 {
      var j := WorstIndex(row, n - 1, sum, side);
      if BoxAspect(row[k].size, sum, side) < BoxAspect(row[j].size, sum, side) {
        k := j;
      }
    }
  }

  /** minV and maxV are the least and the largest size in the row (or 0 if none is positive). */
  ghost predicate Extremes(row: seq<Item>, minV: Ext, maxV: real) {
    && maxV >= 0.0 && (maxV == 0.0 || exists it <- row :: it.size == maxV)
    && (if |row| == 0 then minV == Inf else minV.Fin? && exists it <- row :: it.size == minV.v)
    && forall it <- row :: it.size <= maxV && minV.Fin? && minV.v <= it.size
  }

  lemma {:induction false} ExtremesStep(row: seq<Item>, it: Item, minV: Ext, maxV: real, minV': Ext, maxV': real)
    requires Extremes(row, minV, maxV)
    requires maxV' == if it.size > maxV then it.size else maxV
    requires minV' == if Less(Fin(it.size), minV) then Fin(it.size) else minV
    ensures Extremes(row + [it], minV', maxV')
  {
    var r := row + [it];
    assert r[|row|] == it;
    if minV'.Fin? && minV' != Fin(it.size) {
      var lo :| lo in row && lo.size == minV.v;
      assert lo in r;
    }
    if maxV' != 0.0 && maxV' != it.size {
      var hi :| hi in row && hi.size == maxV;
      assert hi in r;
    }
  }

  /** The loop of worstRatio. */
  method Measure(row: seq<Item>) returns (sum: real, minV: Ext, maxV: real)
    ensures sum == Sum(row) && Extremes(row, minV, maxV)
  {
    sum, minV, maxV := 0.0, Inf, 0.0;
    NoExtremes();
    hide Extremes;
    for i := 0 to |row|
      invariant sum == Sum(row[..i])
      invariant Extremes(row[..i], minV, maxV)
    {
      ghost var min0, max0 := minV, maxV;
      assert row[..i + 1] == row[..i] + [row[i]] && row[..i + 1][..i] == row[..i];
      sum := sum + row[i].size;
      if row[i].size > maxV {
        maxV := row[i].size;
      }
      if Less(Fin(row[i].size), minV) {
        minV := Fin(row[i].size);
      }
      ExtremesStep(row[..i], row[i], min0, max0, minV, maxV);
    }
    assert row[..|row|] == row;
  }

  lemma {:induction false} NoExtremes()
    ensures Extremes([], Inf, 0.0)
  {
  }

  /** What the extremes say of a row that has items. */
  lemma {:induction false} ExtremesOf(row: seq<Item>, minV: Ext, maxV: real)
    requires |row| > 0 && Extremes(row, minV, maxV)
    ensures minV.Fin? && (minV.v <= 0.0 ==> exists it <- row :: it.size <= 0.0) && (minV.v > 0.0 ==> maxV > 0.0)
  {
    assert row[0] in row;
  }

  /** worstRatio: from the row's sum, largest and smallest size alone. */
  method WorstRatio(row: seq<Item>, side: real) returns (r: Ext)
    ensures IsWorst(r, row, side) && r == Worst(row, side)
  {
    hide BoxAspect, Mul, Div, IsWorst, Worst, Extremes, Sum;
    if |row| == 0 || side <= 0.0 {
      WorstOfDegenerate(row, side);
      return Inf;
    }
    var sum, minV, maxV := Measure(row);
    ExtremesOf(row, minV, maxV);
    if sum <= 0.0 || minV.v <= 0.0 {
      WorstOfDegenerate(row, side);
      return Inf;
    }
    var s2 := Mul(side, side);
    var sum2 := Mul(sum, sum);
    r := Fin(MaxR(Div(Mul(s2, maxV), sum2), Div(sum2, Mul(s2, minV.v))));
    WorstIsMinOrMax(row, side, sum, minV.v, maxV);
    WorstUnique(r, row, side);
  }

  lemma {:induction false} WorstOfDegenerate(row: seq<Item>, side: real)
    requires Degenerate(row, side)
    ensures IsWorst(Inf, row, side) && Worst(row, side) == Inf
  {
    WorstUnique(Inf, row, side);
  }

  lemma {:induction false} WorstUnique(r: Ext, row: seq<Item>, side: real)
    requires IsWorst(r, row, side)
    ensures r == Worst(row, side)
  {
    hide BoxAspect;
    WorstExists(row, side);
  }

  /** The worst box of a band is its largest or its smallest. */
  lemma {:induction false} WorstIsMinOrMax(row: seq<Item>, side: Pos, sum: Pos, minV: Pos, maxV: Pos)
    requires sum == Sum(row) && |row| > 0 && Extremes(row, Fin(minV), maxV)
    ensures IsWorst(Fin(Formula(Mul(side, side), Mul(sum, sum), minV, maxV)), row, side)
  {
    var s2, sum2 := Mul(side, side), Mul(sum, sum);
    var lo :| lo in row && lo.size == minV;
    var hi :| hi in row && hi.size == maxV;
    BoxAspectFormula(minV, sum, side);
    BoxAspectFormula(maxV, sum, side);
    var r := Formula(s2, sum2, minV, maxV);
    forall it <- row ensures BoxAspect(it.size, sum, side) <= r {
      BoxAspectFormula(it.size, sum, side);
      FormulaBetween(s2, sum2, minV, it.size, maxV);
    }
    FormulaBetween(s2, sum2, minV, minV, maxV);
    FormulaBetween(s2, sum2, minV, maxV, maxV);
    assert BoxAspect(lo.size, sum, side) == r || BoxAspect(hi.size, sum, side) == r;
  }

  // ---------- layoutRow ----------

  function Len(area: real, t: real): real { if t > 0.0 then area / t else 0.0 }

  lemma {:induction false} LenAdds(a: real, b: real, t: real)
    ensures Len(a + b, t) == Len(a, t) + Len(b, t)
    ensures a >= 0.0 ==> Len(a, t) >= 0.0
    ensures t > 0.0 ==> t * Len(a, t) == a
  {
  }

  /** A band of the given area along a side is no thicker than the rectangle, and the items
      then fill it from end to end. */
  lemma {:induction false} BandFits(area: real, side: real, other: real)
    requires 0.0 <= area <= side * other && side >= 0.0 && other >= 0.0
    ensures var t := Len(area, side);
            && 0.0 <= t <= other && t * side == area
            && (t > 0.0 ==> side > 0.0 && Len(area, t) == side)
            && (area > 0.0 ==> t > 0.0)
  {
    var t := Len(area, side);
    if side > 0.0 {
      assert t * side == area;
      if area > 0.0 {
        assert t > 0.0;
        DivUnique(area, t, side);
      }
      assert (other - t) * side >= 0.0;
    }
  }

  ghost predicate Fits(row: seq<Item>, r: Rect) {
    r.w >= 0.0 && r.h >= 0.0 && NonNegative(row) && Sum(row) <= r.w * r.h
  }

  /** boxes is the row laid out as one band along the shorter side of r, and rest what
      remains of r: the boxes tile r but for rest, and each has the aspect ratio that
      worstRatio reckons with. */
  ghost predicate RowLaid(row: seq<Item>, boxes: seq<Box>, r: Rect, rest: Rect) {
    && Matches(row, boxes) && Covers(boxes, r, rest) && Inside(Box("", rest.x, rest.y, rest.w, rest.h, 0.0, 0.0), r)
    && Sum(row) + rest.w * rest.h == r.w * r.h
    && (Positive(row) && Sum(row) > 0.0 && MinR(r.w, r.h) > 0.0 ==>
          forall k :: 0 <= k < |row| ==>
            && boxes[k].w > 0.0 && boxes[k].h > 0.0
            && Aspect(boxes[k].w, boxes[k].h) == BoxAspect(row[k].size, Sum(row), MinR(r.w, r.h)))
  }

  /** The first boxes of a band that is t thick: each takes its share of the band's length. */
  ghost predicate Stacked(row: seq<Item>, boxes: seq<Box>, t: real, upright: bool) {
    |boxes| <= |row|
    && forall k :: 0 <= k < |boxes| ==>
         && boxes[k].path == row[k].path && boxes[k].complexity == row[k].complexity
         && boxes[k].size == row[k].size
         && (if upright then boxes[k].w else boxes[k].h) == t
         && (if upright then boxes[k].h else boxes[k].w) == Len(row[k].size, t)
  }

  lemma {:induction false} CoversNext(boxes: seq<Box>, b: Box, s: Rect, s': Rect, upright: bool)
    requires Covers(boxes, s, Rect(s.x, s.y, 0.0, 0.0))
    requires s.w >= 0.0 && s.h >= 0.0 && b.w >= 0.0 && b.h >= 0.0
    requires if upright then Frame(b) == Rect(s.x, s.y + s.h, s.w, b.h) && s' == Rect(s.x, s.y, s.w, s.h + b.h)
             else Frame(b) == Rect(s.x + s.w, s.y, b.w, s.h) && s' == Rect(s.x, s.y, s.w + b.w, s.h)
    ensures Covers(boxes + [b], s', Rect(s.x, s.y, 0.0, 0.0))
  {
    var all := boxes + [b];
    assert all[..|all| - 1] == boxes;
  }

  /** The part of r that the first i items of the row fill, in a band t thick. */
  function Strip(row: seq<Item>, i: nat, r: Rect, t: real): Rect
    requires i <= |row|
  {
    var len := Len(Sum(row[..i]), t);
    if r.w >= r.h then Rect(r.x, r.y, t, len) else Rect(r.x, r.y, len, t)
  }

  /** The first i items laid end to end along the shorter side of r, in a band t thick. */
  ghost predicate Banded(row: seq<Item>, boxes: seq<Box>, i: nat, r: Rect, t: real) {
    && |boxes| == i <= |row| && t == Len(Sum(row), MinR(r.w, r.h)) && Stacked(row, boxes, t, r.w >= r.h)
    && (Fits(row, r) ==> Covers(boxes, Strip(row, i, r, t), Rect(r.x, r.y, 0.0, 0.0)))
  }

  lemma {:induction false} BandStart(row: seq<Item>, r: Rect, t: real)
    requires t == Len(Sum(row), MinR(r.w, r.h))
    ensures Banded(row, [], 0, r, t)
  {
  }

  lemma {:induction false} StripNext(row: seq<Item>, i: nat, r: Rect, t: real)
    requires i < |row| && t == Len(Sum(row), MinR(r.w, r.h))
    ensures var s, l := Strip(row, i, r, t), Len(row[i].size, t);
            && Strip(row, i + 1, r, t) == (if r.w >= r.h then Rect(r.x, r.y, t, s.h + l)
                else Rect(r.x, r.y, s.w + l, t))
            && (Fits(row, r) ==> t >= 0.0 && l >= 0.0 && s.w >= 0.0 && s.h >= 0.0)
  {
    NextInBand(row, i, MinR(r.w, r.h), MaxR(r.w, r.h), t);
  }

  lemma {:induction false} BandStep(row: seq<Item>, boxes: seq<Box>, i: nat, r: Rect, t: real, b: Box)
    requires i < |row| && Banded(row, boxes, i, r, t)
    requires var s, l := Strip(row, i, r, t), Len(row[i].size, t);
             b == if r.w >= r.h then Box(row[i].path, r.x, r.y + s.h, t, l, row[i].size, row[i].complexity)
                  else Box(row[i].path, r.x + s.w, r.y, l, t, row[i].size, row[i].complexity)
    ensures Banded(row, boxes + [b], i + 1, r, t)
  {
    var s, s' := Strip(row, i, r, t), Strip(row, i + 1, r, t);
    StripNext(row, i, r, t);
    if Fits(row, r) {
      CoversNext(boxes, b, s, s', r.w >= r.h);
    }
  }

  lemma {:induction false} LenArea(size: real, sum: real, t: real)
    requires 0.0 <= size <= sum && (sum > 0.0 ==> t > 0.0) && t >= 0.0
    ensures t * Len(size, t) == size == Len(size, t) * t
  {
  }

  lemma {:induction false} SizeBound(items: seq<Item>, k: nat)
    requires k < |items| && NonNegative(items)
    ensures 0.0 <= items[k].size <= Sum(items)
  {
    SumPrefix(items, k);
    SumPrefix(items, k + 1);
  }

  lemma {:induction false} BoxArea(w: real, h: real, t: real, size: real, sum: real)
    requires 0.0 <= size <= sum && (sum > 0.0 ==> t > 0.0) && t >= 0.0
    requires (w == t && h == Len(size, t)) || (w == Len(size, t) && h == t)
    ensures size == w * h
  {
    LenArea(size, sum, t);
    hide Len;
  }

  lemma {:induction false} BandAreas(row: seq<Item>, boxes: seq<Box>, r: Rect, t: real)
    requires NonNegative(row) && t >= 0.0 && (Sum(row) > 0.0 ==> t > 0.0)
    requires |boxes| == |row| && Stacked(row, boxes, t, r.w >= r.h)
    ensures Matches(row, boxes)
  {
    hide Sum, Len;
    forall k | 0 <= k < |row| ensures row[k].size == boxes[k].w * boxes[k].h {
      SizeBound(row, k);
      BoxArea(boxes[k].w, boxes[k].h, t, row[k].size, Sum(row));
    }
  }

  lemma {:induction false} BandAspects(row: seq<Item>, boxes: seq<Box>, r: Rect, t: real, k: nat)
    requires Banded(row, boxes, |row|, r, t) && k < |row|
    requires Positive(row) && Sum(row) > 0.0 && MinR(r.w, r.h) > 0.0
    ensures boxes[k].w > 0.0 && boxes[k].h > 0.0
    ensures Aspect(boxes[k].w, boxes[k].h) == BoxAspect(row[k].size, Sum(row), MinR(r.w, r.h))
  {
    var t': Pos := Div(Sum(row), MinR(r.w, r.h));
    var l: Pos := Div(row[k].size, t');
    assert t == t' && Len(row[k].size, t) == l;
  }

  /** A full band leaves exactly the other part of r. */
  lemma {:induction false} BandDone(row: seq<Item>, boxes: seq<Box>, r: Rect, t: real, rest: Rect)
    requires Fits(row, r) && Banded(row, boxes, |row|, r, t)
    requires rest == if r.w >= r.h then Rect(r.x + t, r.y, r.w - t, r.h) else Rect(r.x, r.y + t, r.w, r.h - t)
    ensures RowLaid(row, boxes, r, rest)
  {
    hide Covers, Matches, Stacked, Sum, Len, Aspect, BoxAspect;
    FullBand(row, r, t);
    BandAreas(row, boxes, r, t);
    if Positive(row) && Sum(row) > 0.0 && MinR(r.w, r.h) > 0.0 {
      forall k | 0 <= k < |row|
        ensures boxes[k].w > 0.0 && boxes[k].h > 0.0
        ensures Aspect(boxes[k].w, boxes[k].h) == BoxAspect(row[k].size, Sum(row), MinR(r.w, r.h))
      {
        BandAspects(row, boxes, r, t, k);
      }
    }
    assert row[..|row|] == row;
    BandCovers(boxes, r, t, Len(Sum(row), t), rest);
    RestArea(Sum(row), r, t, rest);
  }

  lemma {:induction false} FullBand(row: seq<Item>, r: Rect, t: real)
    requires Fits(row, r) && t == Len(Sum(row), MinR(r.w, r.h))
    ensures 0.0 <= t <= MaxR(r.w, r.h) && t * MinR(r.w, r.h) == Sum(row)
    ensures (t > 0.0 ==> Len(Sum(row), t) == MinR(r.w, r.h)) && (t == 0.0 ==> Len(Sum(row), t) == 0.0)
    ensures Sum(row) > 0.0 ==> t > 0.0
  {
    SumNonNegative(row);
    BandFits(Sum(row), MinR(r.w, r.h), MaxR(r.w, r.h));
    hide Sum;
  }

  lemma {:induction false} RestArea(sum: real, r: Rect, t: real, rest: Rect)
    requires t * MinR(r.w, r.h) == sum
    requires rest == if r.w >= r.h then Rect(r.x + t, r.y, r.w - t, r.h) else Rect(r.x, r.y + t, r.w, r.h - t)
    ensures sum + rest.w * rest.h == r.w * r.h
  {
  }

  lemma {:induction false} BandCovers(boxes: seq<Box>, r: Rect, t: real, len: real, rest: Rect)
    requires r.w >= 0.0 && r.h >= 0.0 && 0.0 <= t <= MaxR(r.w, r.h) && (t > 0.0 ==> len == MinR(r.w, r.h))
    requires t == 0.0 ==> len == 0.0
    requires Covers(boxes, if r.w >= r.h then Rect(r.x, r.y, t, len) else Rect(r.x, r.y, len, t),
        Rect(r.x, r.y, 0.0, 0.0))
    requires rest == if r.w >= r.h then Rect(r.x + t, r.y, r.w - t, r.h) else Rect(r.x, r.y + t, r.w, r.h - t)
    ensures Covers(boxes, r, rest)
  {
  }

  lemma {:induction false} NextInBand(row: seq<Item>, i: nat, side: real, other: real, t: real)
    requires i < |row| && t == Len(Sum(row), side)
    ensures Len(Sum(row[..i + 1]), t) == Len(Sum(row[..i]), t) + Len(row[i].size, t)
    ensures NonNegative(row) && side >= 0.0 && other >= 0.0 && Sum(row) <= side * other ==>
              t >= 0.0 && Len(Sum(row[..i]), t) >= 0.0 && Len(row[i].size, t) >= 0.0
  {
    assert row[..i + 1][..i] == row[..i];
    LenAdds(Sum(row[..i]), row[i].size, t);
    LenAdds(row[i].size, 0.0, t);
    if NonNegative(row) && side >= 0.0 && other >= 0.0 && Sum(row) <= side * other {
      SumPrefix(row, i);
      BandFits(Sum(row), side, other);
    }
  }

  /** layoutRow: one row placed as a band along the shorter side of r. */
  method LayoutRow(row: seq<Item>, r: Rect) returns (boxes: seq<Box>, rest: Rect)
    ensures |boxes| == |row|
    ensures Fits(row, r) ==> RowLaid(row, boxes, r, rest)
  {
    var rowArea := 0.0;
    for i := 0 to |row|
      invariant rowArea == Sum(row[..i])
    {
      assert row[..i + 1][..i] == row[..i];
      rowArea := rowArea + row[i].size;
    }
    assert row[..|row|] == row;
    boxes := [];
    if r.w >= r.h {
      // A column on the left, items from top to bottom.
      var colW := 0.0;
      if r.h > 0.0 {
        colW := rowArea / r.h;
      }
      var yy := r.y;
      BandStart(row, r, colW);
      for i := 0 to |row|
        invariant Banded(row, boxes, i, r, colW) && yy == r.y + Len(Sum(row[..i]), colW)
      {
        var itemH := 0.0;
        if colW > 0.0 {
          itemH := row[i].size / colW;
        }
        var b := Box(row[i].path, r.x, yy, colW, itemH, row[i].size, row[i].complexity);
        NextInBand(row, i, r.h, r.w, colW);
        BandStep(row, boxes, i, r, colW, b);
        boxes := boxes + [b];
        yy := yy + itemH;
      }
      rest := Rect(r.x + colW, r.y, r.w - colW, r.h);
      if Fits(row, r) { BandDone(row, boxes, r, colW, rest); }
      return;
    }
    // A row along the top, items from left to right.
    var rowH := 0.0;
    if r.w > 0.0 {
      rowH := rowArea / r.w;
    }
    var xx := r.x;
    BandStart(row, r, rowH);
    for i := 0 to |row|
      invariant Banded(row, boxes, i, r, rowH) && xx == r.x + Len(Sum(row[..i]), rowH)
    {
      var itemW := 0.0;
      if rowH > 0.0 {
        itemW := row[i].size / rowH;
      }
      var b := Box(row[i].path, xx, r.y, itemW, rowH, row[i].size, row[i].complexity);
      NextInBand(row, i, r.w, r.h, rowH);
      BandStep(row, boxes, i, r, rowH, b);
      boxes := boxes + [b];
      xx := xx + itemW;
    }
    rest := Rect(r.x, r.y + rowH, r.w, r.h - rowH);
    if Fits(row, r) { BandDone(row, boxes, r, rowH, rest); }
  }

  // ---------- squarify ----------

  /** No row shorter than n is better than the one of n. */
  ghost predicate NoneBetter(items: seq<Item>, side: real, n: nat)
    requires 1 <= n <= |items|
  {
    forall k :: 1 <= k < n ==> !Less(Worst(items[..k], side), Worst(items[..n], side))
  }

  /** The row of the first n items is the greedy choice along a side: no shorter row is
      better, and one more item would be strictly worse. */
  ghost predicate GreedyRow(items: seq<Item>, side: real, n: nat) {
    && 1 <= n <= |items|
    && NoneBetter(items, side, n)
    && (n < |items| ==> Less(Worst(items[..n], side), Worst(items[..n + 1], side)))
  }

  /** The inner loop of squarify: grow the row while the worst ratio does not get worse. */
  method GrowRow(remaining: seq<Item>, shortSide: real) returns (row: seq<Item>)
    requires |remaining| > 0
    ensures row <= remaining && GreedyRow(remaining, shortSide, |row|)
  {
    row := [remaining[0]];
    var best := WorstRatio(row, shortSide);
    assert row == remaining[..1];
    hide Worst;
    var i := 1;
    while i < |remaining|
      invariant 1 <= i <= |remaining| && row == remaining[..i]
      invariant best == Worst(row, shortSide)
      invariant NoneBetter(remaining, shortSide, i)
    {
      var candidate := row + [remaining[i]];
      assert candidate == remaining[..i + 1];
      var ratio := WorstRatio(candidate, shortSide);
      if Less(best, ratio) {
        break;
      }
      NoneBetterNext(remaining, shortSide, i);
      row := candidate;
      best := ratio;
      i := i + 1;
    }
  }

  lemma {:induction false} NoneBetterNext(items: seq<Item>, side: real, n: nat)
    requires 1 <= n < |items| && NoneBetter(items, side, n)
    requires !Less(Worst(items[..n], side), Worst(items[..n + 1], side))
    ensures NoneBetter(items, side, n + 1)
  {
    hide Worst;
    forall k | 1 <= k < n + 1 ensures !Less(Worst(items[..k], side), Worst(items[..n + 1], side)) {
      if k < n { assert !Less(Worst(items[..k], side), Worst(items[..n], side)); }
    }
  }

  /** boxes is a squarified layout of items over r: row after row, each the greedy choice for
      the shorter side of what was left and laid out along it, until nothing is left over. */
  ghost predicate Squarified(items: seq<Item>, boxes: seq<Box>, r: Rect)
    decreases |items|
  {
    if |items| == 0 then boxes == []
    else exists n: nat, rest: Rect ::
      Squarified1(items, boxes, r, n, rest) && Squarified(items[n..], boxes[n..], rest)
  }

  ghost predicate Squarified1(items: seq<Item>, boxes: seq<Box>, r: Rect, n: nat, rest: Rect) {
    && 1 <= n <= |items| == |boxes|
    && GreedyRow(items, MinR(r.w, r.h), n) && RowLaid(items[..n], boxes[..n], r, rest)
  }

  /** Any squarified layout of what remains completes one of the whole. */
  ghost predicate Extendable(items: seq<Item>, boxes: seq<Box>, whole: Rect, remaining: seq<Item>, r: Rect) {
    forall tail :: Squarified(remaining, tail, r) ==> Squarified(items, boxes + tail, whole)
  }

  /** A squarified layout that tiles the canvas with one box of the right area for each item. */
  ghost predicate Tiled(items: seq<Item>, boxes: seq<Box>, w: real, h: real) {
    && Squarified(items, boxes, Rect(0.0, 0.0, w, h)) && Matches(items, boxes)
    && Covers(boxes, Rect(0.0, 0.0, w, h), Rect(0.0, 0.0, 0.0, 0.0))
  }

  /** squarify: every row it commits to is the greedy one, and whenever the sizes add up to
      the area of the canvas the boxes tile it, one box of the right area for each item. */
  method Squarify(items: seq<Item>, w: real, h: real) returns (boxes: seq<Box>)
    ensures |boxes| == |items|
    ensures NonNegative(items) && w >= 0.0 && h >= 0.0 && Sum(items) == w * h ==> Tiled(items, boxes, w, h)
  {
    boxes := [];
    var remaining := items;
    var r := Rect(0.0, 0.0, w, h);
    ghost var ok := NonNegative(items) && w >= 0.0 && h >= 0.0 && Sum(items) == w * h;
    ghost var whole := r;
    assert forall tail: seq<Box> :: [] + tail == tail;
    while |remaining| > 0
      invariant |boxes| + |remaining| == |items| && remaining == items[|boxes|..]
      invariant ok ==> Progress(items, boxes, whole, r) && Extendable(items, boxes, whole, remaining, r)
      decreases |remaining|
    {
      var shortSide := MinR(r.w, r.h);
      var row := GrowRow(remaining, shortSide);
      var rowBoxes, rest := LayoutRow(row, r);
      if ok {
        ProgressStep(items, boxes, whole, r, row, rowBoxes, rest);
        ExtendStep(items, boxes, whole, remaining, r, row, rowBoxes, rest);
      }
      remaining := remaining[|row|..];
      boxes := boxes + rowBoxes;
      r := rest;
    }
    if ok {
      assert Squarified(remaining, [], r);
      assert boxes + [] == boxes;
      ProgressDone(items, boxes, whole, r);
    }
  }

  lemma {:induction false} ExtendStep(items: seq<Item>, boxes: seq<Box>, whole: Rect, remaining: seq<Item>, r: Rect,
      row: seq<Item>, rowBoxes: seq<Box>, rest: Rect)
    requires Extendable(items, boxes, whole, remaining, r)
    requires row <= remaining && GreedyRow(remaining, MinR(r.w, r.h), |row|) && RowLaid(row, rowBoxes, r, rest)
    ensures Extendable(items, boxes + rowBoxes, whole, remaining[|row|..], rest)
  {
    forall tail | Squarified(remaining[|row|..], tail, rest)
        ensures Squarified(items, (boxes + rowBoxes) + tail, whole) {
      SquarifiedStep(remaining, row, rowBoxes, r, rest, tail);
      assert (boxes + rowBoxes) + tail == boxes + (rowBoxes + tail);
    }
  }

  /** Between two rows: the boxes so far tile the canvas but for r, which has exactly the
      area of the items still to come. */
  ghost predicate Progress(items: seq<Item>, boxes: seq<Box>, whole: Rect, r: Rect) {
    && |boxes| <= |items| && NonNegative(items)
    && Matches(items[..|boxes|], boxes) && Covers(boxes, whole, r)
    && Inside(Box("", r.x, r.y, r.w, r.h, 0.0, 0.0), whole)
    && Sum(items[|boxes|..]) == r.w * r.h
  }

  lemma {:induction false} MatchesAppend(items: seq<Item>, boxes: seq<Box>, row: seq<Item>, rowBoxes: seq<Box>)
    requires Matches(items, boxes) && Matches(row, rowBoxes)
    ensures Matches(items + row, boxes + rowBoxes)
  {
  }

  lemma {:induction false} ProgressStep(items: seq<Item>, boxes: seq<Box>, whole: Rect, r: Rect, row: seq<Item>,
      rowBoxes: seq<Box>, rest: Rect)
    requires Progress(items, boxes, whole, r) && row <= items[|boxes|..]
    requires Fits(row, r) ==> RowLaid(row, rowBoxes, r, rest)
    ensures RowLaid(row, rowBoxes, r, rest)
    ensures Progress(items, boxes + rowBoxes, whole, rest)
  {
    var tail := items[|boxes|..];
    assert forall it <- tail :: it in items;
    SumPrefix(tail, |row|);
    assert tail[..|row|] == row;
    assert Fits(row, r);
    assert |rowBoxes| == |row|;
    assert items[|boxes + rowBoxes|..] == tail[|row|..];
    assert items[..|boxes + rowBoxes|] == items[..|boxes|] + row;
    MatchesAppend(items[..|boxes|], boxes, row, rowBoxes);
    CoversCompose(boxes, rowBoxes, whole, r, rest);
  }

  lemma {:induction false} ProgressDone(items: seq<Item>, boxes: seq<Box>, whole: Rect, r: Rect)
    requires Progress(items, boxes, whole, r) && |boxes| == |items|
    ensures Matches(items, boxes) && Covers(boxes, whole, Rect(0.0, 0.0, 0.0, 0.0))
  {
    assert items[..|items|] == items;
    assert r.w * r.h == 0.0;
    assert r.w == 0.0 || r.h == 0.0;
  }

  lemma {:induction false} SquarifiedStep(items: seq<Item>, row: seq<Item>, rowBoxes: seq<Box>, r: Rect, rest: Rect,
      tail: seq<Box>)
    requires row <= items && GreedyRow(items, MinR(r.w, r.h), |row|)
    requires RowLaid(row, rowBoxes, r, rest) && Squarified(items[|row|..], tail, rest)
    ensures Squarified(items, rowBoxes + tail, r)
  {
    SquarifiedLength(items[|row|..], tail, rest);
    var all := rowBoxes + tail;
    assert all[..|row|] == rowBoxes && all[|row|..] == tail && items[..|row|] == row;
    assert Squarified1(items, all, r, |row|, rest);
  }

  lemma {:induction false} SquarifiedLength(items: seq<Item>, boxes: seq<Box>, r: Rect)
    requires Squarified(items, boxes, r)
    ensures |boxes| == |items|
  {
  }

  // ---------- layoutTreemap ----------

  /** The order of layoutTreemap: larger first, ties by path. */
  predicate Bigger(a: Item, b: Item) {
    if a.size != b.size then a.size > b.size else StrLess(a.path, b.path)
  }

  lemma {:induction false} BiggerStrictWeak()
    ensures StrictWeak(Bigger)
  {
    StrLessStrictWeak();
    assert forall a: Item, b: Item :: StrLess(a.path, b.path) ==> !StrLess(b.path, a.path);
    forall a: Item, b: Item, c: Item | !Bigger(b, a) && !Bigger(c, b) ensures !Bigger(c, a) {
      assert !StrLess(b.path, a.path) && !StrLess(c.path, b.path) ==> !StrLess(c.path, a.path);
    }
  }

  lemma {:induction false} SumWithout(s: seq<Item>, k: nat)
    requires k < |s|
    ensures Sum(s[..k] + s[k + 1..]) + s[k].size == Sum(s)
  {
    SumAppend(s[..k], s[k..]);
    SumAppend(s[..k], s[k + 1..]);
    SumAppend([s[k]], s[k + 1..]);
    assert s == s[..k] + s[k..] && s[k..] == [s[k]] + s[k + 1..];
    assert [s[k]][..0] == [];
  }

  /** The order of the items makes no difference to their sum. */
  lemma {:induction false} SumPermuted(a: seq<Item>, b: seq<Item>)
    requires multiset(a) == multiset(b)
    ensures Sum(a) == Sum(b)
  {
    if |a| == 0 {
      assert |multiset(b)| == |b|;
    } else {
      var n := |a| - 1;
      var k := LastElsewhere(a, b);
      SumPermuted(a[..n], b[..k] + b[k + 1..]);
      SumWithout(b, k);
      assert Sum(a) == Sum(a[..n]) + a[n].size;
      hide Sum;
    }
  }

  /** The share of the canvas an item is due: by size, or equal when no size is positive in sum. */
  function Share(it: Item, total: real, n: nat): real
    requires n > 0
  {
    if total <= 0.0 then 1.0 / n as real else it.size / total
  }

  /** The boxes tile the 100x100 canvas in the given order of the items, and each has exactly its
      item's share of the area. */
  ghost predicate FairTilingOf(order: seq<Item>, boxes: seq<Box>)
    requires |order| > 0
  {
    && |boxes| == |order| && Covers(boxes, Rect(0.0, 0.0, 100.0, 100.0), Rect(0.0, 0.0, 0.0, 0.0))
    && forall k :: 0 <= k < |order| ==>
         && boxes[k].path == order[k].path && boxes[k].complexity == order[k].complexity
         && boxes[k].w * boxes[k].h == boxes[k].size == Share(order[k], Sum(order), |order|) * 10000.0
  }

  /** In such a tiling each area is to the canvas as the size is to all sizes, so larger items have
      the larger boxes and come first, equal ones by path; sizes that sum to nothing get equal boxes. */
  lemma {:induction false} SharesExactly(order: seq<Item>, boxes: seq<Box>, j: nat, k: nat)
    requires j < k < |order| && SortedBy(order, Bigger) && FairTilingOf(order, boxes)
    ensures Sum(order) > 0.0 ==> Area(boxes[k]) * Sum(order) == order[k].size * 10000.0
    ensures Sum(order) <= 0.0 ==> Area(boxes[k]) * |order| as real == 10000.0 && Area(boxes[j]) == Area(boxes[k])
    ensures Area(boxes[j]) >= Area(boxes[k])
    ensures order[j].size > order[k].size
         || (order[j].size == order[k].size
             && (StrLess(order[j].path, order[k].path) || order[j].path == order[k].path))
  {
    assert !Bigger(order[k], order[j]);
    TileArea(order, boxes, j);
    TileArea(order, boxes, k);
    hide Covers, Sum, SortedBy, FairTilingOf, Area;
    StrLessTotal(order[j].path, order[k].path);
    hide StrLess;
    ShareTimes(order[k], Sum(order), |order|);
    ShareOrder(order[j], order[k], Sum(order), |order|);
    hide Share;
  }

  function Area(b: Box): real { b.w * b.h }

  lemma {:induction false} TileArea(order: seq<Item>, boxes: seq<Box>, k: nat)
    requires k < |order| && FairTilingOf(order, boxes)
    ensures |boxes| == |order| && Area(boxes[k]) == Share(order[k], Sum(order), |order|) * 10000.0
  {
    hide Covers, Share, Sum;
  }

  lemma {:induction false} ShareTimes(it: Item, total: real, n: nat)
    requires n > 0
    ensures total > 0.0 ==> Share(it, total, n) * 10000.0 * total == it.size * 10000.0
    ensures total <= 0.0 ==> Share(it, total, n) * 10000.0 * n as real == 10000.0
  {
    if total > 0.0 { QuotientTimes(it.size, total); } else { QuotientTimes(1.0, n as real); }
  }

  lemma {:induction false} ShareOrder(a: Item, b: Item, total: real, n: nat)
    requires n > 0 && a.size >= b.size
    ensures Share(a, total, n) * 10000.0 >= Share(b, total, n) * 10000.0
    ensures total <= 0.0 ==> Share(a, total, n) == Share(b, total, n)
  {
    if total > 0.0 { QuotientOrder(b.size, a.size, total); }
  }

  lemma {:induction false} QuotientTimes(a: real, t: real)
    requires t > 0.0
    ensures a / t * 10000.0 * t == a * 10000.0
  {
    var q := a / t;
    assert q * t == a;
  }

  lemma {:induction false} QuotientOrder(a: real, b: real, t: real)
    requires a <= b && t > 0.0
    ensures a / t <= b / t
  {
  }

  /** Such a tiling in some order of the items that puts larger ones first, ties by path. */
  ghost predicate FairTiling(items: seq<Item>, boxes: seq<Box>) {
    exists order :: |order| > 0 && multiset(order) == multiset(items) && SortedBy(order, Bigger)
        && FairTilingOf(order, boxes)
  }

  /** The weights layoutTreemap goes by: the sizes, or 1 each when they sum to nothing. */
  method Weigh(order: seq<Item>) returns (weighed: seq<Item>, total: real)
    requires |order| > 0
    ensures Weighed(order, weighed, total)
  {
    total := 0.0;
    for i := 0 to |order|
      invariant total == Sum(order[..i])
    {
      assert order[..i + 1][..i] == order[..i];
      total := total + order[i].size;
    }
    assert order[..|order|] == order;
    weighed := order;
    if total <= 0.0 {
      for i := 0 to |weighed|
        invariant |weighed| == |order|
        invariant forall k :: 0 <= k < |order| ==> weighed[k] == if k < i then order[k].(size := 1.0) else order[k]
      {
        weighed := weighed[i := weighed[i].(size := 1.0)];
      }
      total := |weighed| as real;
    }
  }

  ghost predicate Weighed(order: seq<Item>, weighed: seq<Item>, total: real) {
    |weighed| == |order|
    && if Sum(order) <= 0.0
       then total == |order| as real && forall k :: 0 <= k < |order| ==> weighed[k] == order[k].(size := 1.0)
       else total == Sum(order) && weighed == order
  }

  function Scale(it: Item, total: real): Item
    requires total > 0.0
  {
    it.(size := it.size / total * 10000.0)
  }

  ghost predicate Scaled(weighed: seq<Item>, total: real, scaled: seq<Item>) {
    total > 0.0 && |scaled| == |weighed|
    && forall k :: 0 <= k < |scaled| ==> scaled[k] == Scale(weighed[k], total)
  }

  method ScaleAll(weighed: seq<Item>, total: real) returns (scaled: seq<Item>)
    requires total > 0.0
    ensures Scaled(weighed, total, scaled)
  {
    scaled := [];
    for i := 0 to |weighed|
      invariant |scaled| == i
      invariant forall k :: 0 <= k < i ==> scaled[k] == Scale(weighed[k], total)
    {
      scaled := scaled + [Scale(weighed[i], total)];
    }
  }

  /** layoutTreemap, for sizes that count something, or that sum to nothing, when every item
      weighs the same. */
  method LayoutTreemap(items: seq<Item>) returns (boxes: seq<Box>)
    ensures |items| == 0 ==> boxes == []
    ensures |items| > 0 && (NonNegative(items) || Sum(items) <= 0.0) ==> FairTiling(items, boxes)
  {
    if |items| == 0 {
      return [];
    }
    BiggerStrictWeak();
    var sorted := SortSlice(items, Bigger);
    SumPermuted(sorted, items);
    SameSigns(sorted, items);
    var weighed, total := Weigh(sorted);
    var scaled := ScaleAll(weighed, total);
    boxes := Squarify(scaled, 100.0, 100.0);
    TilingOfScaled(sorted, weighed, total, scaled, boxes);
  }

  lemma {:induction false} SameSigns(a: seq<Item>, b: seq<Item>)
    requires multiset(a) == multiset(b)
    ensures NonNegative(a) <==> NonNegative(b)
  {
    assert forall it :: it in a <==> it in multiset(a);
    assert forall it :: it in b <==> it in multiset(b);
  }

  lemma {:induction false} TilingOfScaled(order: seq<Item>, weighed: seq<Item>, total: real, scaled: seq<Item>,
      boxes: seq<Box>)
    requires |order| > 0 && Weighed(order, weighed, total) && Scaled(weighed, total, scaled)
    requires NonNegative(scaled) && Sum(scaled) == 100.0 * 100.0 ==> Tiled(scaled, boxes, 100.0, 100.0)
    ensures NonNegative(order) || Sum(order) <= 0.0 ==> FairTilingOf(order, boxes)
  {
    ScaledShares(order, weighed, total, scaled);
  }

  lemma {:induction false} ScaledShares(order: seq<Item>, weighed: seq<Item>, total: real, scaled: seq<Item>)
    requires |order| > 0 && Weighed(order, weighed, total) && Scaled(weighed, total, scaled)
    ensures Sum(scaled) == 10000.0
    ensures forall k :: 0 <= k < |order| ==>
              scaled[k] == order[k].(size := Share(order[k], Sum(order), |order|) * 10000.0)
    ensures NonNegative(order) || Sum(order) <= 0.0 ==> NonNegative(scaled)
  {
    assert Sum(weighed) == total by { if Sum(order) <= 0.0 { SumOfOnes(weighed); } }
    assert Sum(scaled) == 10000.0 by { SumScaled(weighed, scaled, total); WholeCanvas(total); }
    if NonNegative(order) || Sum(order) <= 0.0 {
      forall k | 0 <= k < |order| ensures scaled[k].size >= 0.0 {
        assert order[k] in order;
        ScaleNonNegative(weighed[k], total);
      }
    }
  }

  lemma {:induction false} WholeCanvas(total: real)
    requires total > 0.0
    ensures total / total * 10000.0 == 10000.0
  {
  }

  lemma {:induction false} ScaleNonNegative(it: Item, total: real)
    requires it.size >= 0.0 && total > 0.0
    ensures Scale(it, total).size >= 0.0
  {
  }

  lemma {:induction false} SumOfOnes(s: seq<Item>)
    requires forall it <- s :: it.size == 1.0
    ensures Sum(s) == |s| as real
  {
    if |s| > 0 { SumOfOnes(s[..|s| - 1]); }
  }

  lemma {:induction false} SumScaled(s: seq<Item>, r: seq<Item>, total: real)
    requires Scaled(s, total, r)
    ensures Sum(r) == Sum(s) / total * 10000.0
  {
    if |s| > 0 { SumScaled(s[..|s| - 1], r[..|r| - 1], total); }
  }
}
