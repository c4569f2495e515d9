/** The squarified treemap layout: the score, the greedy row, the layout loop and their laws. */
module Treemap {
  import opened RealSeq

  datatype Rect = Rect(x: real, y: real, w: real, h: real)

  /** A score is a non-negative number or the source's `Infinity`. */
  datatype Score = Finite(value: real) | Infinity

  predicate AtMost(a: Score, b: Score) {
    b.Infinity? || (a.Finite? && a.value <= b.value)
  }

  // ---------------------------------------------------------------- what the code computes

  function Area(r: Rect): real { Times(r.w, r.h) }

  function Quotient(a: real, b: real): Score {
    if b == 0.0 then Infinity else Finite(a / b)
  }

  function Larger(a: Score, b: Score): Score {
    if AtMost(a, b) then b else a
  }

  /** Worst aspect ratio of `row` laid along a side; infinite for a row without area. */
  function WorstAspect(row: seq<real>, side: real): Score {
    var sum := Sum(row);
    if sum <= 0.0 || side <= 0.0 then Infinity
    else
      var s2 := Square(sum);
      var side2 := Square(side);
      SquareIsPositive(sum);
      SquareIsPositive(side);
      Larger(Quotient(Times(side2, Max(row)), s2), Quotient(s2, Times(side2, Min(row))))
  }

  function Side(box: Rect): real { Min2(box.w, box.h) }

  /** Where the greedy growth of a row of `n` areas stops. */
  function RowLength(areas: seq<real>, n: nat, side: real): (m: nat)
    requires 1 <= n <= |areas|
    ensures n <= m <= |areas|
    decreases |areas| - n
  {
    if n < |areas| && AtMost(WorstAspect(areas[..n + 1], side), WorstAspect(areas[..n], side))
    then RowLength(areas, n + 1, side)
    else n
  }

  function Thickness(row: seq<real>, side: real): real {
    if side > 0.0 then Sum(row) / side else 0.0
  }

  function Extent(area: real, t: real): real {
    if t > 0.0 then area / t else 0.0
  }

  function Extents(row: seq<real>, t: real): (extents: seq<real>)
    ensures |extents| == |row|
  {
    seq(|row|, i requires 0 <= i < |row| => Extent(row[i], t))
  }

  function Cell(across: bool, at: real, edge: real, extent: real, t: real): Rect {
    if across then Rect(at, edge, extent, t) else Rect(edge, at, t, extent)
  }

  /** The cells of one row of thickness `t`, laid along x when `across`, else along y. */
  function LayRow(extents: seq<real>, across: bool, at: real, edge: real, t: real): (rects: seq<Rect>)
    ensures |rects| == |extents|
  {
    if extents == [] then []
    else [Cell(across, at, edge, extents[0], t)] + LayRow(extents[1..], across, at + extents[0], edge, t)
  }

  function RowOf(row: seq<real>, box: Rect): (cells: seq<Rect>)
    ensures |cells| == |row|
  {
    var t := Thickness(row, Side(box));
    if box.w <= box.h
    then LayRow(Extents(row, t), true, box.x, box.y, t)
    else LayRow(Extents(row, t), false, box.y, box.x, t)
  }

  function RestOf(row: seq<real>, box: Rect): Rect {
    var t := Thickness(row, Side(box));
    if box.w <= box.h
    then Rect(box.x, box.y + t, box.w, Max2(0.0, box.h - t))
    else Rect(box.x + t, box.y, Max2(0.0, box.w - t), box.h)
  }

  function Layout(areas: seq<real>, box: Rect): (rects: seq<Rect>)
    ensures |rects| == |areas|
    decreases |areas|
  {
    if areas == [] then []
    else
      var n := RowLength(areas, 1, Side(box));
      RowOf(areas[..n], box) + Layout(areas[n..], RestOf(areas[..n], box))
  }

  function Areas(weights: seq<real>, container: Rect): (areas: seq<real>)
    requires Sum(weights) > 0.0
    ensures |areas| == |weights|
  {
    var scale := Area(container) / Sum(weights);
    seq(|weights|, i requires 0 <= i < |weights| => Times(Max2(weights[i], 0.0), scale))
  }

  function Squarified(weights: seq<real>, container: Rect): seq<Rect> {
    if Sum(weights) <= 0.0 || weights == [] then [] else Layout(Areas(weights, container), container)
  }

  lemma LayoutUnfolds(areas: seq<real>, n: nat, box: Rect)
    requires areas != [] && n == RowLength(areas, 1, Side(box))
    ensures Layout(areas, box) == RowOf(areas[..n], box) + Layout(areas[n..], RestOf(areas[..n], box))
  {
    hide RowLength, RowOf, RestOf;
  }

  /** The source's nested loops; they compute `Squarified`, and so place every rectangle row by row. */
  method Squarify(weights: seq<real>, container: Rect) returns (out: seq<Rect>)
    ensures out == Squarified(weights, container)
    ensures IsLayoutOf(out, weights, container)
  {
    hide Layout, Areas, RowLength, Thickness, Extents, LieAlong, IsLayoutOf;
    SquarifyIsLaidOut(weights, container);
    var total := 0.0;
    for k := 0 to |weights|
      invariant total == Sum(weights[..k])
    {
      assert weights[..k + 1][..k] == weights[..k];
      total := total + weights[k];
    }
    assert weights[..|weights|] == weights;
    if total <= 0.0 || |weights| == 0 { return []; }
    var areas := Areas(weights, container);
    hide Sum, Min2, Max2;
    out := [];
    var x, y, w, h := container.x, container.y, container.w, container.h;
    var i := 0;
    while i < |areas|
      invariant 0 <= i <= |areas|
      invariant out + Layout(areas[i..], Rect(x, y, w, h)) == Layout(areas, container)
    {
      ghost var box, left := Rect(x, y, w, h), areas[i..];
      var side := Min2(w, h);
      var row, j := GrowRow(areas, i, side);
      ghost var n := j - i;
      assert row == left[..n] && left[n..] == areas[j..];
      var thickness := Thickness(row, side);
      var cells;
      if w <= h {
        cells := PlaceRow(row, true, x, y, thickness);
        y := y + thickness;
        h := Max2(0.0, h - thickness);
      } else {
        cells := PlaceRow(row, false, y, x, thickness);
        x := x + thickness;
        w := Max2(0.0, w - thickness);
      }
      assert cells == RowOf(row, box) && Rect(x, y, w, h) == RestOf(row, box);
      hide RowOf, RestOf, LayRow;
      LayoutUnfolds(left, n, box);
      LayoutContinues(out, left, cells, areas[j..], box, Rect(x, y, w, h));
      out := out + cells;
      i := j;
    }
  }

  lemma LayoutContinues(out: seq<Rect>, left: seq<real>, cells: seq<Rect>, rest: seq<real>, box: Rect, after: Rect)
    requires Layout(left, box) == cells + Layout(rest, after)
    ensures out + Layout(left, box) == out + cells + Layout(rest, after)
  {
    hide Layout;
  }

  /** The inner loop: take areas from `i` on while the worst aspect ratio does not get worse. */
  method GrowRow(areas: seq<real>, i: nat, side: real) returns (row: seq<real>, j: nat)
    requires i < |areas|
    ensures i < j <= |areas| && row == areas[i..j]
    ensures j - i == RowLength(areas[i..], 1, side)
  {
    ghost var left := areas[i..];
    row := [areas[i]];
    assert row == left[..1];
    var best := WorstAspect(row, side);
    j := i + 1;
    while j < |areas|
      invariant i < j <= |areas|
      invariant row == areas[i..j] == left[..j - i] && best == WorstAspect(row, side)
      invariant RowLength(left, j - i, side) == RowLength(left, 1, side)
    {
      assert row + [areas[j]] == left[..j - i + 1];
      var candidate := WorstAspect(row + [areas[j]], side);
      if AtMost(candidate, best) {
        row := row + [areas[j]];
        best := candidate;
        j := j + 1;
      } else {
        break;
      }
    }
  }

  /** The placing loop, moving a cursor along the row. */
  method PlaceRow(row: seq<real>, across: bool, start: real, edge: real, t: real) returns (cells: seq<Rect>)
    ensures cells == LayRow(Extents(row, t), across, start, edge, t)
    ensures LieAlong(cells, row, across, start, edge, t)
  {
    CellsLie(row, across, start, edge, t);
    hide Extent, LieAlong;
    cells := [];
    var at := start;
    ghost var all := Extents(row, t);
    for k := 0 to |row|
      invariant cells + LayRow(all[k..], across, at, edge, t) == LayRow(all, across, start, edge, t)
    {
      var extent := Extent(row[k], t);
      assert all[k..][1..] == all[k + 1..];
      cells := cells + [Cell(across, at, edge, extent, t)];
      at := at + extent;
    }
  }

  // ---------------------------------------------------------------- the tiling is exact

  predicate Inside(r: Rect, px: real, py: real) {
    r.x <= px < r.x + r.w && r.y <= py < r.y + r.h
  }

  /** How many of the half-open rectangles contain a point. */
  function Hits(rects: seq<Rect>, px: real, py: real): nat {
    if rects == [] then 0
    else (if Inside(rects[0], px, py) then 1 else 0) + Hits(rects[1..], px, py)
  }

  ghost predicate Within(r: Rect, box: Rect) {
    && r.w >= 0.0 && r.h >= 0.0
    && box.x <= r.x && r.x + r.w <= box.x + box.w
    && box.y <= r.y && r.y + r.h <= box.y + box.h
  }

  /** The loop invariant of the layout: what is left of the box is exactly the areas left. */
  ghost predicate Fits(areas: seq<real>, box: Rect) {
    box.w >= 0.0 && box.h >= 0.0 && NonNegative(areas) && Sum(areas) == Area(box)
  }

  lemma {:induction false} HitsConcat(a: seq<Rect>, b: seq<Rect>, px: real, py: real)
    ensures Hits(a + b, px, py) == Hits(a, px, py) + Hits(b, px, py)
  {
    hide Inside;
    if a == [] {
      assert a + b == b;
    } else {
      assert (a + b)[1..] == a[1..] + b;
      HitsConcat(a[1..], b, px, py);
    }
  }

  lemma QuotientSigns(a: real, t: real)
    requires t > 0.0 && a >= 0.0
    ensures a / t >= 0.0 && a / t * t == a
  {
  }

  lemma QuotientSplits(a: real, b: real, t: real)
    requires t > 0.0
    ensures (a + b) / t == a / t + b / t
  {
  }

  /** The strip a row of the given extents and thickness fills. */
  function Strip(extents: seq<real>, across: bool, at: real, edge: real, t: real): Rect {
    Cell(across, at, edge, Sum(extents), t)
  }

  /** A row tiles its strip: each point is hit once inside, never outside, and no cell sticks out. */
  lemma {:induction false} RowTilesStrip(extents: seq<real>, across: bool, at: real, edge: real, t: real, px: real, py: real)
    requires NonNegative(extents) && t >= 0.0
    ensures var cells := LayRow(extents, across, at, edge, t);
            && Hits(cells, px, py) == (if Inside(Strip(extents, across, at, edge, t), px, py) then 1 else 0)
            && forall i :: 0 <= i < |extents| ==> Within(cells[i], Strip(extents, across, at, edge, t))
  {
    if extents != [] {
      var cells, rest := LayRow(extents, across, at, edge, t), extents[1..];
      RowTilesStrip(rest, across, at + extents[0], edge, t, px, py);
      SumFront(extents);
      SumNonNegative(rest);
      assert cells[1..] == LayRow(rest, across, at + extents[0], edge, t);
      assert Within(cells[0], Strip(extents, across, at, edge, t));
      forall i | 0 < i < |extents| ensures Within(cells[i], Strip(extents, across, at, edge, t)) {
        assert cells[i] == cells[1..][i - 1];
      }
    }
  }

  lemma {:induction false} CellExtents(extents: seq<real>, across: bool, at: real, edge: real, t: real, i: nat)
    requires i < |extents|
    ensures var r := LayRow(extents, across, at, edge, t)[i];
            if across then r.w == extents[i] && r.h == t else r.w == t && r.h == extents[i]
  {
    if i > 0 {
      CellExtents(extents[1..], across, at + extents[0], edge, t, i - 1);
    }
  }

  lemma {:induction false} ExtentsAddUp(row: seq<real>, t: real)
    requires NonNegative(row) && t >= 0.0
    ensures NonNegative(Extents(row, t)) && Sum(Extents(row, t)) == Extent(Sum(row), t)
  {
    if row != [] {
      var p, last := row[..|row| - 1], row[|row| - 1];
      ExtentsAddUp(p, t);
      assert Extents(row, t)[..|row| - 1] == Extents(p, t);
      SumNonNegative(p);
      if t > 0.0 {
        QuotientSplits(Sum(p), last, t);
        QuotientSigns(last, t);
      }
    }
  }

  lemma QuotientAtMost(s: real, a: real, b: real)
    requires a > 0.0 && 0.0 <= s <= a * b
    ensures 0.0 <= s / a <= b
    ensures s > 0.0 ==> s / a > 0.0 && s / (s / a) == a
  {
    var q := s / a;
    assert q * a == s;
    if s > 0.0 { assert a * q / q == a; }
  }

  /** The thickness of a row of total area `s` on a box of sides `side <= long`. */
  lemma ThicknessFits(s: real, side: real, long: real) returns (t: real)
    requires 0.0 <= side <= long && 0.0 <= s <= Times(side, long)
    ensures t == if side > 0.0 then s / side else 0.0
    ensures 0.0 <= t <= long && Times(side, long - t) == Times(side, long) - s
    ensures t == 0.0 ==> s == 0.0
    ensures t > 0.0 ==> Extent(s, t) == side
  {
    if side > 0.0 {
      QuotientAtMost(s, side, long);
      t := s / side;
      assert t * side == s;
      assert side * (long - t) == side * long - t * side;
    } else {
      t := 0.0;
    }
  }

  /** One row cuts exactly its own area off the box, so neither clamp at zero ever acts. */
  lemma RowCutsItsArea(areas: seq<real>, n: nat, box: Rect)
    requires Fits(areas, box) && 1 <= n <= |areas|
    ensures var row, t := areas[..n], Thickness(areas[..n], Side(box));
            && 0.0 <= t <= Max2(box.w, box.h)
            && (t == 0.0 ==> Sum(row) == 0.0)
            && (t > 0.0 ==> Extent(Sum(row), t) == Side(box))
            && RestOf(row, box) == (if box.w <= box.h then Rect(box.x, box.y + t, box.w, box.h - t)
                                    else Rect(box.x + t, box.y, box.w - t, box.h))
            && Fits(areas[n..], RestOf(row, box))
  {
    hide Times;
    hide Extent;
    hide RowOf;
    SumSplit(areas, n);
    SumNonNegative(areas[..n]);
    SumNonNegative(areas[n..]);
    TimesCommutes(box.w, box.h);
    var t := ThicknessFits(Sum(areas[..n]), Side(box), Max2(box.w, box.h));
    TimesCommutes(box.w - t, box.h);
  }

  lemma WithinTransitive(r: Rect, inner: Rect, outer: Rect)
    requires Within(r, inner) && Within(inner, outer)
    ensures Within(r, outer)
  {
  }

  /** A row and the box that remains split the box in two. */
  lemma RowAndRestTile(areas: seq<real>, n: nat, box: Rect, px: real, py: real)
    requires Fits(areas, box) && 1 <= n <= |areas|
    ensures var cells, rest := RowOf(areas[..n], box), RestOf(areas[..n], box);
            && Hits(cells, px, py) + (if Inside(rest, px, py) then 1 else 0) == (if Inside(box, px, py) then 1 else 0)
            && Within(rest, box)
            && forall i :: 0 <= i < n ==> Within(cells[i], box)
  {
    hide Area;
    hide Extents;
    hide Extent;
    var row, t := areas[..n], Thickness(areas[..n], Side(box));
    RowCutsItsArea(areas, n, box);
    var across := box.w <= box.h;
    var at, edge := if across then box.x else box.y, if across then box.y else box.x;
    var extents := Extents(row, t);
    ExtentsAddUp(row, t);
    ExtentOfNothing(Sum(row));
    hide Thickness;
    RowTilesStrip(extents, across, at, edge, t, px, py);
    var strip := Strip(extents, across, at, edge, t);
    forall i | 0 <= i < n ensures Within(RowOf(row, box)[i], box) {
      WithinTransitive(RowOf(row, box)[i], strip, box);
    }
  }

  lemma ExtentOfNothing(a: real)
    ensures Extent(a, 0.0) == 0.0
  {
  }

  lemma CellArea(r: Rect, a: real, t: real)
    requires a >= 0.0 && t >= 0.0 && (t == 0.0 ==> a == 0.0)
    requires (r.w == Extent(a, t) && r.h == t) || (r.w == t && r.h == Extent(a, t))
    ensures Area(r) == a
  {
  }

  lemma RowKeepsAreas(areas: seq<real>, n: nat, box: Rect)
    requires Fits(areas, box) && 1 <= n <= |areas|
    ensures forall i :: 0 <= i < n ==> Area(RowOf(areas[..n], box)[i]) == areas[i]
  {
    hide Area;
    hide Extent;
    hide RestOf;
    var row, t := areas[..n], Thickness(areas[..n], Side(box));
    RowCutsItsArea(areas, n, box);
    hide Thickness;
    SumNonNegative(row);
    var extents := Extents(row, t);
    forall i | 0 <= i < n ensures Area(RowOf(row, box)[i]) == areas[i] {
      if box.w <= box.h {
        CellExtents(extents, true, box.x, box.y, t, i);
      } else {
        CellExtents(extents, false, box.y, box.x, t, i);
      }
      CellArea(RowOf(row, box)[i], row[i], t);
    }
  }

  /** The layout hits each point of the box once and no other point. */
  lemma {:induction false} LayoutTiles(areas: seq<real>, box: Rect, px: real, py: real)
    requires Fits(areas, box)
    ensures Hits(Layout(areas, box), px, py) == if Inside(box, px, py) then 1 else 0
    decreases |areas|
  {
    hide Times;
    if areas == [] {
      TimesIsZero(box.w, box.h);
    } else {
      hide RowOf;
      hide RestOf;
      hide Within;
      hide Inside;
      var n := RowLength(areas, 1, Side(box));
      var rest := RestOf(areas[..n], box);
      RowAndRestTile(areas, n, box, px, py);
      RowCutsItsArea(areas, n, box);
      hide Fits;
      LayoutTiles(areas[n..], rest, px, py);
      HitsConcat(RowOf(areas[..n], box), Layout(areas[n..], rest), px, py);
    }
  }

  /** The layout keeps every area and stays inside the box. */
  lemma {:induction false} LayoutKeepsAreas(areas: seq<real>, box: Rect)
    requires Fits(areas, box)
    ensures forall i :: 0 <= i < |areas| ==>
      Area(Layout(areas, box)[i]) == areas[i] && Within(Layout(areas, box)[i], box)
    decreases |areas|
  {
    hide Area;
    hide RowOf;
    hide RestOf;
    hide Within;
    if areas != [] {
      var n := RowLength(areas, 1, Side(box));
      var rest := RestOf(areas[..n], box);
      RowAndRestTile(areas, n, box, 0.0, 0.0);
      RowKeepsAreas(areas, n, box);
      RowCutsItsArea(areas, n, box);
      hide Fits;
      LayoutKeepsAreas(areas[n..], rest);
      forall i | n <= i < |areas| ensures Within(Layout(areas, box)[i], box) {
        WithinTransitive(Layout(areas[n..], rest)[i - n], rest, box);
      }
    }
  }

  lemma {:induction false} SumScaled(s: seq<real>, c: real, t: seq<real>)
    requires |s| == |t| && forall i :: 0 <= i < |s| ==> t[i] == Times(s[i], c)
    ensures Sum(t) == Times(Sum(s), c)
  {
    if s != [] {
      SumScaled(s[..|s| - 1], c, t[..|t| - 1]);
      TimesDistributes(Sum(s[..|s| - 1]), s[|s| - 1], c);
      hide Times;
    } else {
      assert Times(0.0, c) == 0.0;
    }
  }

  /** The part of `whole` that belongs to weight `a` out of `total`. */
  function Share(a: real, whole: real, total: real): real
    requires total > 0.0
  {
    a * whole / total
  }

  lemma ScaledIsShare(a: real, whole: real, total: real)
    requires a >= 0.0 && whole >= 0.0 && total > 0.0
    ensures Times(a, whole / total) == Share(a, whole, total) >= 0.0
    ensures Times(total, whole / total) == whole
  {
    QuotientSigns(whole, total);
  }

  lemma AreasFit(weights: seq<real>, container: Rect)
    requires NonNegative(weights) && Sum(weights) > 0.0 && container.w >= 0.0 && container.h >= 0.0
    ensures Fits(Areas(weights, container), container)
    ensures forall i :: 0 <= i < |weights| ==>
      Areas(weights, container)[i] == Share(weights[i], Area(container), Sum(weights))
  {
    var whole, total := Area(container), Sum(weights);
    assert whole >= 0.0;
    hide Area;
    hide Share;
    hide Times;
    var areas := Areas(weights, container);
    forall i | 0 <= i < |weights| ensures areas[i] == Share(weights[i], whole, total) >= 0.0 {
      ScaledIsShare(weights[i], whole, total);
    }
    SumScaled(weights, whole / total, areas);
    ScaledIsShare(0.0, whole, total);
  }

  /** Every point of the container lies in exactly one rectangle, none sticks out,
      and each rectangle has its weight's share of the container's area. */
  lemma SquarifyTilesContainer(weights: seq<real>, container: Rect)
    requires NonNegative(weights) && Sum(weights) > 0.0 && container.w >= 0.0 && container.h >= 0.0
    ensures var rects := Squarified(weights, container);
            && |rects| == |weights|
            && (forall i :: 0 <= i < |weights| ==>
                  Area(rects[i]) == Share(weights[i], Area(container), Sum(weights)) && Within(rects[i], container))
            && (forall px, py :: Hits(rects, px, py) == if Inside(container, px, py) then 1 else 0)
  {
    AreasFit(weights, container);
    hide Area;
    hide Share;
    hide Areas;
    hide Layout;
    var areas := Areas(weights, container);
    forall px, py
      ensures Hits(Squarified(weights, container), px, py) == if Inside(container, px, py) then 1 else 0
    {
      LayoutTiles(areas, container, px, py);
    }
    LayoutKeepsAreas(areas, container);
  }

  /** One rectangle per weight, each with its share of the container and within it, tiling it. */
  ghost predicate IsFairTiling(rects: seq<Rect>, weights: seq<real>, container: Rect)
    requires Sum(weights) > 0.0
  {
    && |rects| == |weights|
    && (forall i :: 0 <= i < |weights| ==>
          Area(rects[i]) == Share(weights[i], Area(container), Sum(weights)) && Within(rects[i], container))
    && (forall px, py :: Hits(rects, px, py) == if Inside(container, px, py) then 1 else 0)
  }

  /** The layout is a fair tiling if and only if no weight is negative. */
  lemma SquarifyTilesIff(weights: seq<real>, container: Rect)
    requires Sum(weights) > 0.0 && container.w > 0.0 && container.h > 0.0
    ensures IsFairTiling(Squarified(weights, container), weights, container) <==> NonNegative(weights)
  {
    if NonNegative(weights) { SquarifyTilesContainer(weights, container); }
    hide Squarified;
    hide Hits;
    var rects := Squarified(weights, container);
    if IsFairTiling(rects, weights, container) {
      forall i | 0 <= i < |weights| ensures weights[i] >= 0.0 {
        assert Within(rects[i], container);
        NegativeShare(rects[i], weights[i], container, Sum(weights));
      }
    }
  }

  lemma NegativeShare(r: Rect, weight: real, container: Rect, total: real)
    requires total > 0.0 && container.w > 0.0 && container.h > 0.0
    requires r.w >= 0.0 && r.h >= 0.0 && Area(r) == Share(weight, Area(container), total)
    ensures weight >= 0.0
  {
    TimesPositive(container.w, container.h);
    assert Area(r) >= 0.0;
    var whole := Area(container);
    assert whole > 0.0;
    hide Area;
    NegativeQuotient(weight, whole, total);
  }

  lemma NegativeQuotient(weight: real, whole: real, total: real)
    requires whole > 0.0 && total > 0.0 && weight * whole / total >= 0.0
    ensures weight >= 0.0
  {
    var q := weight * whole / total;
    assert q * total == weight * whole;
    assert weight < 0.0 ==> weight * whole < 0.0;
  }

  lemma {:induction false} ClampedSum(s: seq<real>, t: seq<real>)
    requires |s| == |t| && forall i :: 0 <= i < |s| ==> t[i] == Max2(s[i], 0.0)
    ensures Sum(t) >= Sum(s)
    ensures Sum(t) == Sum(s) <==> NonNegative(s)
  {
    if s != [] {
      var p, last := s[..|s| - 1], s[|s| - 1];
      ClampedSum(p, t[..|t| - 1]);
      if NonNegative(s) {
        assert NonNegative(p) && last >= 0.0;
      } else if NonNegative(p) && last >= 0.0 {
        assert forall i :: 0 <= i < |s| ==> s[i] == if i < |p| then p[i] else last;
      }
    }
  }

  /** Without the caller's filter the areas overfill the container: they fill it exactly
      if and only if no weight is negative. */
  lemma AreasFillContainerIff(weights: seq<real>, container: Rect)
    requires Sum(weights) > 0.0 && Area(container) > 0.0
    ensures Sum(Areas(weights, container)) >= Area(container)
    ensures Sum(Areas(weights, container)) == Area(container) <==> NonNegative(weights)
  {
    var whole, total := Area(container), Sum(weights);
    var clamped := seq(|weights|, i requires 0 <= i < |weights| => Max2(weights[i], 0.0));
    hide Area;
    ClampedSum(weights, clamped);
    SumScaled(clamped, whole / total, Areas(weights, container));
    ScaledIsShare(0.0, whole, total);
    QuotientIsPositive(whole, total);
    hide Times;
    TimesMonotone(total, Sum(clamped), whole / total);
  }

  lemma QuotientIsPositive(a: real, t: real)
    requires a > 0.0 && t > 0.0
    ensures a / t > 0.0
  {
  }

  // ---------------------------------------------------------------- the score is the geometry

  /** Aspect ratio of a cell with positive sides. */
  function Aspect(r: Rect): real
    requires r.w > 0.0 && r.h > 0.0
  {
    Max2(r.w / r.h, r.h / r.w)
  }

  ghost predicate IsLargestAspect(rects: seq<Rect>, v: real) {
    && (forall i :: 0 <= i < |rects| ==> rects[i].w > 0.0 && rects[i].h > 0.0 && Aspect(rects[i]) <= v)
    && (exists i :: 0 <= i < |rects| && rects[i].w > 0.0 && rects[i].h > 0.0 && Aspect(rects[i]) == v)
  }

  /** Length over thickness, and thickness over length, of the cell of area `a` in a row of sum `s`. */
  function LongRatio(a: real, s: real, side: real): real
    requires s > 0.0
  {
    SquareIsPositive(s);
    Times(Square(side), a) / Square(s)
  }

  function ThinRatio(a: real, s: real, side: real): real
    requires a > 0.0 && side > 0.0
  {
    SquareIsPositive(side);
    TimesPositive(Square(side), a);
    Square(s) / Times(Square(side), a)
  }

  lemma RatioOfQuotient(a: real, t: real)
    requires a > 0.0 && t > 0.0
    ensures a / t > 0.0 && (a / t) / t == a / Square(t) && t / (a / t) == Square(t) / a
  {
    SquareIsPositive(t);
    assert a / t * t == a;
    assert (a / t) / t * (t * t) == a;
    assert t / (a / t) * a == t * t by {
      var e := a / t;
      assert t / e * e == t;
      assert t / e * (e * t) == t * t;
    }
  }

  lemma SquareOfQuotient(s: real, side: real)
    requires s > 0.0 && side > 0.0
    ensures s / side > 0.0 && Square(s / side) == Square(s) / Square(side)
  {
    SquareIsPositive(side);
    var t := s / side;
    assert t * side == s;
    assert t * t * (side * side) == s * s;
  }

  lemma FlipDivision(a: real, p: real, q: real)
    requires a > 0.0 && p > 0.0 && q > 0.0
    ensures p / q > 0.0 && Times(q, a) > 0.0 && a / (p / q) == Times(q, a) / p && (p / q) / a == p / Times(q, a)
  {
    var r := p / q;
    assert r * q == p;
    assert a / r * r == a;
    assert a / r * p == q * a;
    assert r / a * (q * a) == p;
  }

  /** The two ratios in the score are the ratios of the cell the layout emits. */
  lemma CellRatios(a: real, s: real, side: real)
    requires a > 0.0 && s > 0.0 && side > 0.0
    ensures var t := s / side; var e := Extent(a, t);
      t > 0.0 && e > 0.0 && e / t == LongRatio(a, s, side) && t / e == ThinRatio(a, s, side)
  {
    var t := s / side;
    SquareOfQuotient(s, side);
    RatioOfQuotient(a, t);
    SquareIsPositive(s);
    SquareIsPositive(side);
    hide Square;
    FlipDivision(a, Square(s), Square(side));
  }

  lemma LongRatioGrows(a: real, b: real, s: real, side: real)
    requires 0.0 <= a <= b && s > 0.0 && side > 0.0
    ensures LongRatio(a, s, side) <= LongRatio(b, s, side)
  {
    hide Times;
    SquareIsPositive(s);
    SquareIsPositive(side);
    TimesMonotone(a, b, Square(side));
    QuotientKeepsOrder(Times(Square(side), a), Times(Square(side), b), Square(s));
  }

  lemma QuotientKeepsOrder(a: real, b: real, q: real)
    requires a <= b && q > 0.0
    ensures a / q <= b / q
  {
  }

  lemma ThinRatioFalls(a: real, b: real, s: real, side: real)
    requires 0.0 < a <= b && s > 0.0 && side > 0.0
    ensures ThinRatio(b, s, side) <= ThinRatio(a, s, side)
  {
    SquareIsPositive(s);
    SquareIsPositive(side);
    TimesPositive(Square(side), a);
    TimesMonotone(a, b, Square(side));
    hide Times;
    QuotientFalls(Square(s), Times(Square(side), a), Times(Square(side), b));
  }

  lemma ProductSign(a: real, b: real)
    requires a > 0.0 && b >= 0.0
    ensures a * b >= 0.0 && (b > 0.0 ==> a * b > 0.0)
  {
  }

  lemma FactorSign(a: real, b: real)
    requires b > 0.0
    ensures a * b >= 0.0 ==> a >= 0.0
    ensures a * b > 0.0 ==> a > 0.0
  {
  }

  lemma QuotientFalls(c: real, p: real, q: real)
    requires c > 0.0 && 0.0 < p <= q
    ensures c / q <= c / p
    ensures p < q ==> c / q < c / p
  {
    var x, y := c / q, c / p;
    assert x * q == c && y * p == c;
    assert (y - x) * p == x * (q - p);
    QuotientIsPositive(c, q);
    ProductSign(x, q - p);
    FactorSign(y - x, p);
  }

  lemma ScoreOfRow(row: seq<real>, side: real)
    requires row != [] && Sum(row) > 0.0 && side > 0.0 && Min(row) >= 0.0
    ensures WorstAspect(row, side) ==
      if Min(row) == 0.0 then Infinity
      else Finite(Max2(LongRatio(Max(row), Sum(row), side), ThinRatio(Min(row), Sum(row), side)))
  {
    hide Times;
    hide Square;
    SquareIsPositive(Sum(row));
    SquareIsPositive(side);
    TimesIsZero(Square(side), Min(row));
  }

  lemma {:induction false} PositiveRow(row: seq<real>)
    requires row != [] && Positive(row)
    ensures Sum(row) > 0.0 && Min(row) > 0.0
  {
    SumNonNegative(row);
    MinIsSmallest(row);
    assert row[0] > 0.0;
  }

  /** The score of a row is the largest aspect ratio among the cells the layout emits for it. */
  lemma ScoreIsLargestAspect(row: seq<real>, box: Rect)
    requires row != [] && Positive(row) && box.w > 0.0 && box.h > 0.0
    ensures WorstAspect(row, Side(box)).Finite?
    ensures IsLargestAspect(RowOf(row, box), WorstAspect(row, Side(box)).value)
  {
    hide Extent;
    var side, s, t := Side(box), Sum(row), Thickness(row, Side(box));
    PositiveRow(row);
    ScoreOfRow(row, side);
    hide WorstAspect;
    MaxIsLargest(row);
    MinIsSmallest(row);
    var cells, long, thin := RowOf(row, box), LongRatio(Max(row), s, side), ThinRatio(Min(row), s, side);
    forall i | 0 <= i < |row|
      ensures cells[i].w > 0.0 && cells[i].h > 0.0
      ensures Aspect(cells[i]) == Max2(LongRatio(row[i], s, side), ThinRatio(row[i], s, side))
      ensures LongRatio(row[i], s, side) <= long && ThinRatio(row[i], s, side) <= thin
    {
      CellExtents(Extents(row, t), box.w <= box.h, if box.w <= box.h then box.x else box.y,
                  if box.w <= box.h then box.y else box.x, t, i);
      CellRatios(row[i], s, side);
      LongRatioGrows(row[i], Max(row), s, side);
      ThinRatioFalls(Min(row), row[i], s, side);
      hide LongRatio;
      hide ThinRatio;
    }
    var i :| 0 <= i < |row| && row[i] == if long >= thin then Max(row) else Min(row);
    assert Aspect(cells[i]) == Max2(long, thin);
  }

  // ---------------------------------------------------------------- the greedy stop is optimal

  /** The score of the first `k` areas. */
  ghost function PrefixScore(areas: seq<real>, k: nat, side: real): Score
    requires k <= |areas|
  {
    WorstAspect(areas[..k], side)
  }

  ghost predicate Optimal(areas: seq<real>, n: nat, side: real)
    requires 1 <= n <= |areas|
  {
    forall k :: 1 <= k <= |areas| ==>
      && AtMost(PrefixScore(areas, n, side), PrefixScore(areas, k, side))
      && (k > n ==> !AtMost(PrefixScore(areas, k, side), PrefixScore(areas, n, side)))
  }

  lemma {:induction false} ExtremaOfDescending(areas: seq<real>, k: nat)
    requires Descending(areas) && 1 <= k <= |areas|
    ensures Max(areas[..k]) == areas[0] && Min(areas[..k]) == areas[k - 1]
  {
    if k > 1 {
      ExtremaOfDescending(areas, k - 1);
      assert areas[..k][..k - 1] == areas[..k - 1];
      assert areas[0] >= areas[k - 1] && areas[k - 2] >= areas[k - 1];
    }
  }

  lemma {:induction false} PrefixSumsGrow(areas: seq<real>, k: nat, l: nat)
    requires NonNegative(areas) && k <= l <= |areas|
    ensures 0.0 <= Sum(areas[..k]) <= Sum(areas[..l])
    ensures k < l && areas[k] > 0.0 ==> Sum(areas[..k]) < Sum(areas[..l])
  {
    SumNonNegative(areas[..k]);
    var tail := areas[..l][k..];
    SumSplit(areas[..l], k);
    assert areas[..l][..k] == areas[..k];
    SumNonNegative(tail);
    if k < l { assert tail[0] == areas[k]; }
  }

  /** The score in closed form: a falling and a rising sequence. */
  lemma ScoreOfPrefix(areas: seq<real>, k: nat, side: real)
    requires Descending(areas) && NonNegative(areas) && 1 <= k <= |areas|
    ensures var s := Sum(areas[..k]);
      PrefixScore(areas, k, side) ==
        if s <= 0.0 || side <= 0.0 || areas[k - 1] == 0.0 then Infinity
        else Finite(Max2(LongRatio(areas[0], s, side), ThinRatio(areas[k - 1], s, side)))
  {
    hide LongRatio;
    hide ThinRatio;
    ExtremaOfDescending(areas, k);
    if Sum(areas[..k]) > 0.0 && side > 0.0 {
      ScoreOfRow(areas[..k], side);
      hide WorstAspect;
    }
  }

  lemma LongRatioFallsInSum(a: real, s: real, t: real, side: real)
    requires a > 0.0 && 0.0 < s < t && side > 0.0
    ensures LongRatio(a, t, side) < LongRatio(a, s, side)
  {
    SquareIsPositive(s);
    SquareIsPositive(side);
    SquareGrows(s, t);
    TimesPositive(Square(side), a);
    hide Times;
    QuotientFalls(Times(Square(side), a), Square(s), Square(t));
  }

  lemma ThinRatioRises(a: real, b: real, s: real, t: real, side: real)
    requires 0.0 < b <= a && 0.0 < s <= t && side > 0.0
    ensures ThinRatio(a, s, side) <= ThinRatio(b, t, side)
  {
    ThinRatioFalls(b, a, s, side);
    SquareIsPositive(side);
    SquareGrows(s, t);
    TimesPositive(Square(side), b);
    hide Times;
    QuotientKeepsOrder(Square(s), Square(t), Times(Square(side), b));
  }

  /** Once the score worsens it never recovers. */
  lemma NeverRecovers(areas: seq<real>, k: nat, l: nat, side: real)
    requires Descending(areas) && NonNegative(areas) && 1 <= k < l <= |areas|
    requires !AtMost(PrefixScore(areas, k + 1, side), PrefixScore(areas, k, side))
    ensures AtMost(PrefixScore(areas, k + 1, side), PrefixScore(areas, l, side))
  {
    ScoreOfPrefix(areas, k, side);
    ScoreOfPrefix(areas, k + 1, side);
    ScoreOfPrefix(areas, l, side);
    hide PrefixScore;
    hide LongRatio;
    hide ThinRatio;
    PrefixSumsGrow(areas, k, k + 1);
    PrefixSumsGrow(areas, k + 1, l);
    var a0, a, b := areas[0], areas[k], areas[l - 1];
    var s, t, u := Sum(areas[..k]), Sum(areas[..k + 1]), Sum(areas[..l]);
    assert a0 >= a >= b;
    if a > 0.0 && b > 0.0 {
      LongRatioFallsInSum(a0, s, t, side);
      ThinRatioRises(a, b, t, u, side);
    }
  }

  lemma {:induction false} GreedyStop(areas: seq<real>, n: nat, side: real)
    requires 1 <= n <= |areas|
    ensures var m := RowLength(areas, n, side);
      && (forall k :: n <= k <= m ==> AtMost(PrefixScore(areas, m, side), PrefixScore(areas, k, side)))
      && (m < |areas| ==> !AtMost(PrefixScore(areas, m + 1, side), PrefixScore(areas, m, side)))
    decreases |areas| - n
  {
    hide WorstAspect;
    var m := RowLength(areas, n, side);
    if m > n {
      GreedyStop(areas, n + 1, side);
      assert AtMost(PrefixScore(areas, n + 1, side), PrefixScore(areas, n, side));
      assert AtMost(PrefixScore(areas, m, side), PrefixScore(areas, n + 1, side));
    }
  }

  /** The greedy row length minimises the score over all lengths, and is the longest minimiser. */
  lemma GreedyRowIsOptimal(areas: seq<real>, side: real)
    requires Descending(areas) && NonNegative(areas) && areas != []
    ensures Optimal(areas, RowLength(areas, 1, side), side)
  {
    var m := RowLength(areas, 1, side);
    GreedyStop(areas, 1, side);
    hide RowLength;
    hide PrefixScore;
    forall k | m < k <= |areas| ensures !AtMost(PrefixScore(areas, k, side), PrefixScore(areas, m, side)) {
      NeverRecovers(areas, m, k, side);
    }
  }

  /** In geometry: no row that could have been laid instead has a smaller largest aspect ratio. */
  lemma GreedyRowIsSquarest(areas: seq<real>, box: Rect, k: nat, chosen: real, other: real)
    requires Descending(areas) && Positive(areas) && 1 <= k <= |areas| && box.w > 0.0 && box.h > 0.0
    requires IsLargestAspect(RowOf(areas[..RowLength(areas, 1, Side(box))], box), chosen)
    requires IsLargestAspect(RowOf(areas[..k], box), other)
    ensures chosen <= other
  {
    var n := RowLength(areas, 1, Side(box));
    ScoreIsLargestAspect(areas[..n], box);
    ScoreIsLargestAspect(areas[..k], box);
    GreedyRowIsOptimal(areas, Side(box));
    hide WorstAspect;
    hide RowOf;
    hide RowLength;
    assert AtMost(PrefixScore(areas, n, Side(box)), PrefixScore(areas, k, Side(box)));
  }

  /** Every outer step of the layout, in turn, picks an optimal row. */
  ghost predicate EveryRowOptimal(areas: seq<real>, box: Rect)
    decreases |areas|
  {
    areas != [] ==>
      var n := RowLength(areas, 1, Side(box));
      && Optimal(areas, n, Side(box))
      && EveryRowOptimal(areas[n..], RestOf(areas[..n], box))
  }

  lemma {:induction false} LayoutIsOptimal(areas: seq<real>, box: Rect)
    requires Descending(areas) && NonNegative(areas)
    ensures EveryRowOptimal(areas, box)
    decreases |areas|
  {
    if areas != [] {
      var n := RowLength(areas, 1, Side(box));
      GreedyRowIsOptimal(areas, Side(box));
      LayoutIsOptimal(areas[n..], RestOf(areas[..n], box));
    }
    hide Optimal;
    hide RestOf;
    hide RowLength;
  }

  lemma AreasDescend(weights: seq<real>, container: Rect)
    requires Descending(weights) && Sum(weights) > 0.0 && Area(container) >= 0.0
    ensures Descending(Areas(weights, container)) && NonNegative(Areas(weights, container))
  {
    hide Times;
    hide Area;
    var areas, scale := Areas(weights, container), Area(container) / Sum(weights);
    QuotientSigns(Area(container), Sum(weights));
    forall i, j | 0 <= i <= j < |areas| ensures areas[i] >= areas[j] >= 0.0 {
      assert weights[i] >= weights[j];
      TimesMonotone(Max2(weights[j], 0.0), Max2(weights[i], 0.0), scale);
      TimesMonotone(0.0, Max2(weights[j], 0.0), scale);
      TimesIsZero(0.0, scale);
    }
  }

  /** For weights in descending order, as the source asks for, every row is optimal. */
  lemma SquarifyIsOptimal(weights: seq<real>, container: Rect)
    requires Descending(weights) && Sum(weights) > 0.0 && container.w >= 0.0 && container.h >= 0.0
    ensures EveryRowOptimal(Areas(weights, container), container)
  {
    assert Area(container) >= 0.0;
    AreasDescend(weights, container);
    hide Areas;
    LayoutIsOptimal(Areas(weights, container), container);
  }

  // ---------------------------------------------------------------- where every cell lies

  lemma {:induction false} SumOfExtents(row: seq<real>, t: real)
    ensures Sum(Extents(row, t)) == Extent(Sum(row), t)
  {
    if row != [] {
      var p, last := row[..|row| - 1], row[|row| - 1];
      SumOfExtents(p, t);
      assert Extents(row, t)[..|row| - 1] == Extents(p, t);
      if t > 0.0 { QuotientSplits(Sum(p), last, t); }
    }
  }

  /** The cursor before cell `i` has moved past the cells before it. */
  lemma {:induction false} CellLies(extents: seq<real>, across: bool, at: real, edge: real, t: real, i: nat)
    requires i < |extents|
    ensures LayRow(extents, across, at, edge, t)[i] ==
      if across then Rect(at + Sum(extents[..i]), edge, extents[i], t)
      else Rect(edge, at + Sum(extents[..i]), t, extents[i])
  {
    if i > 0 {
      CellLies(extents[1..], across, at + extents[0], edge, t, i - 1);
      SumFront(extents[..i]);
      assert extents[1..][..i - 1] == extents[..i][1..];
    }
  }

  /** Cells along one edge from `start` on, each as long as its area over the thickness, each where those before it end;
      without a thickness they have no length and lie at the start. */
  ghost predicate LieAlong(cells: seq<Rect>, row: seq<real>, across: bool, start: real, edge: real, t: real) {
    && |cells| == |row|
    && forall i :: 0 <= i < |row| ==>
         var at, extent := if t > 0.0 then start + Sum(row[..i]) / t else start, if t > 0.0 then row[i] / t else 0.0;
         cells[i] == if across then Rect(at, edge, extent, t) else Rect(edge, at, t, extent)
  }

  lemma CellsLie(row: seq<real>, across: bool, start: real, edge: real, t: real)
    ensures LieAlong(LayRow(Extents(row, t), across, start, edge, t), row, across, start, edge, t)
  {
    var extents := Extents(row, t);
    var cells := LayRow(extents, across, start, edge, t);
    forall i | 0 <= i < |row|
      ensures cells[i] ==
        if across then Rect(start + Extent(Sum(row[..i]), t), edge, Extent(row[i], t), t)
        else Rect(edge, start + Extent(Sum(row[..i]), t), t, Extent(row[i], t))
    {
      SumOfExtents(row[..i], t);
      assert extents[..i] == Extents(row[..i], t);
      CellLies(extents, across, start, edge, t, i);
      hide LayRow;
    }
    hide LayRow;
    hide Sum;
  }

  /** The cells of one row: along the top from the left when the box is no wider than high, else along the left from
      the top. */
  ghost predicate LiesInRow(cells: seq<Rect>, row: seq<real>, box: Rect) {
    var side := if box.w <= box.h then box.w else box.h;
    var t := if side > 0.0 then Sum(row) / side else 0.0;
    if box.w <= box.h then LieAlong(cells, row, true, box.x, box.y, t) else LieAlong(cells, row, false, box.y, box.x, t)
  }

  /** For every row and box. */
  lemma RowLies(row: seq<real>, box: Rect)
    ensures LiesInRow(RowOf(row, box), row, box)
  {
    var t := Thickness(row, Side(box));
    CellsLie(row, true, box.x, box.y, t);
    CellsLie(row, false, box.y, box.x, t);
    hide LayRow;
    hide LieAlong;
  }

  /** The first `n` areas are a row: no step up to there made the score worse, and one more would. */
  ghost predicate IsGreedyRow(areas: seq<real>, n: nat, side: real) {
    && 1 <= n <= |areas|
    && (forall k :: 1 <= k < n ==> AtMost(PrefixScore(areas, k + 1, side), PrefixScore(areas, k, side)))
    && (n < |areas| ==> !AtMost(PrefixScore(areas, n + 1, side), PrefixScore(areas, n, side)))
  }

  lemma {:induction false} GreedySteps(areas: seq<real>, n: nat, side: real)
    requires 1 <= n <= |areas|
    ensures var m := RowLength(areas, n, side);
      && (forall k :: n <= k < m ==> AtMost(PrefixScore(areas, k + 1, side), PrefixScore(areas, k, side)))
      && (m < |areas| ==> !AtMost(PrefixScore(areas, m + 1, side), PrefixScore(areas, m, side)))
    decreases |areas| - n
  {
    hide WorstAspect;
    if RowLength(areas, n, side) > n { GreedySteps(areas, n + 1, side); }
  }

  /** Row by row: the rectangles are those of a greedy row, then those of the other areas in the box below the row,
      or to the right of it. */
  ghost predicate LaidOut(rects: seq<Rect>, areas: seq<real>, box: Rect)
    decreases |areas|
  {
    var side := if box.w <= box.h then box.w else box.h;
    && |rects| == |areas|
    && (areas == [] ||
        exists n: nat ::
          && IsGreedyRow(areas, n, side)
          && LiesInRow(rects[..n], areas[..n], box)
          && LaidOut(rects[n..], areas[n..], BoxAfter(box, side, Sum(areas[..n]))))
  }

  /** What a row of total area `s` leaves of the box. */
  ghost function BoxAfter(box: Rect, side: real, s: real): Rect {
    var t := if side > 0.0 then s / side else 0.0;
    if box.w <= box.h then Rect(box.x, box.y + t, box.w, Max2(0.0, box.h - t))
    else Rect(box.x + t, box.y, Max2(0.0, box.w - t), box.h)
  }

  lemma RestIsAfter(row: seq<real>, box: Rect)
    ensures RestOf(row, box) == BoxAfter(box, Side(box), Sum(row))
  {
  }

  lemma {:induction false} LayoutIsLaidOut(areas: seq<real>, box: Rect)
    ensures LaidOut(Layout(areas, box), areas, box)
    decreases |areas|
  {
    if areas != [] {
      var n := RowLength(areas, 1, Side(box));
      GreedySteps(areas, 1, Side(box));
      assert IsGreedyRow(areas, n, Side(box));
      LayoutUnfolds(areas, n, box);
      LayoutIsLaidOut(areas[n..], RestOf(areas[..n], box));
      var rects := Layout(areas, box);
      assert rects[..n] == RowOf(areas[..n], box) && rects[n..] == Layout(areas[n..], RestOf(areas[..n], box));
      RowLies(areas[..n], box);
      RestIsAfter(areas[..n], box);
      hide Layout, RowOf, RestOf, RowLength, IsGreedyRow, LiesInRow, BoxAfter;
    }
  }

  /** Nothing without a positive total, else the layout of every weight's share of the container's area, a negative
      weight counting as nothing. */
  ghost predicate IsLayoutOf(rects: seq<Rect>, weights: seq<real>, container: Rect) {
    if weights == [] || Sum(weights) <= 0.0 then rects == []
    else
      var scale := Times(container.w, container.h) / Sum(weights);
      var areas := seq(|weights|, i requires 0 <= i < |weights| =>
                         if weights[i] >= 0.0 then Times(weights[i], scale) else Times(0.0, scale));
      LaidOut(rects, areas, container)
  }

  /** For any weights and container. */
  lemma SquarifyIsLaidOut(weights: seq<real>, container: Rect)
    ensures IsLayoutOf(Squarified(weights, container), weights, container)
  {
    if weights != [] && Sum(weights) > 0.0 {
      LayoutIsLaidOut(Areas(weights, container), container);
      var scale := Times(container.w, container.h) / Sum(weights);
      assert Areas(weights, container) ==
        seq(|weights|, i requires 0 <= i < |weights| =>
              if weights[i] >= 0.0 then Times(weights[i], scale) else Times(0.0, scale));
      hide LaidOut;
      hide Layout;
    }
  }

  /** A score is infinite exactly for a row that cannot be drawn: an empty side, or an area of nothing. */
  lemma ScoreIsInfiniteIff(row: seq<real>, side: real)
    requires row != [] && NonNegative(row)
    ensures WorstAspect(row, side).Infinity? <==> side <= 0.0 || exists i :: 0 <= i < |row| && row[i] == 0.0
  {
    SumNonNegative(row);
    MinIsSmallest(row);
    if Sum(row) > 0.0 && side > 0.0 { ScoreOfRow(row, side); }
    hide Min;
    assert row[0] >= 0.0;
  }
}
