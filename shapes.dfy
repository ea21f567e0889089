/** What the 2D primitives plot, as sequences of `(pos, colour)` entries in
    the order the source's loops produce them: the DDA line, the scanline
    triangle, the raster circles and the per-pixel shader. The loops in
    modules Primitives and Gra are proved to plot exactly these sequences;
    the lemmas here say what the sequences contain. */
module Shapes {
  import opened Util
  import opened LinAlg
  import opened Scene
  import opened State

  // ---------------------------------------------------------------- line

  /** `int(max(abs(xd), abs(yd)))`, the number of DDA steps of `line`. */
  function LineSteps(a: Vec2, b: Vec2): (n: nat)
    ensures n as real <= Max(Abs(b.x - a.x), Abs(b.y - a.y)) < n as real + 1.0
  {
    Trunc(Max(Abs(b.x - a.x), Abs(b.y - a.y)))
  }

  /** The point reached after k increments of `(dx, dy) = (xd, yd) / n`. */
  function LineStep(a: Vec2, b: Vec2, n: nat, k: int): Vec2
    requires n > 0
  {
    Vec2(Walked(a.x, (b.x - a.x) / n as real, k), Walked(a.y, (b.y - a.y) / n as real, k))
  }

  /** Where a coordinate started at p0 is after k steps of d. */
  function Walked(p0: real, d: real, k: int): real {
    p0 + k as real * d
  }

  /** The entries `line(surface, a, b, c)` plots: one white point at a when
      the step count is zero, otherwise n + 1 points in colour c. */
  function LinePoints(a: Vec2, b: Vec2, c: Color): (ps: seq<Queued>)
    ensures |ps| == LineSteps(a, b) + 1
  {
    var n := LineSteps(a, b);
    if n == 0 then [Queued(a, White)]
    else seq(n + 1, k requires 0 <= k <= n => Queued(LineStep(a, b, n, k), c))
  }

  /** The line runs from a to b: its k-th point is the point k/n of the way
      along the segment, so the first is a and the last is b. */
  lemma LineOnSegment(a: Vec2, b: Vec2, c: Color)
    ensures LineSteps(a, b) == 0 ==> LinePoints(a, b, c) == [Queued(a, White)]
    ensures var n, ps := LineSteps(a, b), LinePoints(a, b, c);
      n > 0 ==> (ps[0] == Queued(a, c) && ps[n] == Queued(b, c) &&
                 forall k :: 0 <= k <= n ==> ps[k] == Queued(Lerp2(a, b, k as real / n as real), c))
  {
    var n := LineSteps(a, b);
    if n > 0 {
      forall k | 0 <= k <= n
        ensures LinePoints(a, b, c)[k] == Queued(Lerp2(a, b, k as real / n as real), c)
      {
        LinePointAt(a, b, c, n, k);
      }
      LinePointAt(a, b, c, n, 0);
      LinePointAt(a, b, c, n, n);
      LerpEnds(a, b, n as real);
    }
  }

  lemma LinePointAt(a: Vec2, b: Vec2, c: Color, n: nat, k: int)
    requires n == LineSteps(a, b) > 0 && 0 <= k <= n
    ensures LinePoints(a, b, c)[k] == Queued(Lerp2(a, b, k as real / n as real), c)
  {
    assert LinePoints(a, b, c)[k] == Queued(LineStep(a, b, n, k), c);
    StepIsLerp(a, b, n, k);
  }

  lemma StepIsLerp(a: Vec2, b: Vec2, n: nat, k: int)
    requires n > 0
    ensures LineStep(a, b, n, k) == Lerp2(a, b, k as real / n as real)
  {
    var t := k as real / n as real;
    assert Lerp2(a, b, t) == Vec2(a.x + (b.x - a.x) * t, a.y + (b.y - a.y) * t);
    ScaledStep(a.x, b.x, n as real, k as real);
    ScaledStep(a.y, b.y, n as real, k as real);
  }

  lemma LerpEnds(a: Vec2, b: Vec2, n: real)
    requires n > 0.0
    ensures Lerp2(a, b, 0.0 / n) == a && Lerp2(a, b, n / n) == b
  {
    assert 0.0 / n == 0.0 && n / n == 1.0;
  }

  lemma ScaledStep(p: real, q: real, n: real, k: real)
    requires n > 0.0
    ensures p + k * ((q - p) / n) == p + (q - p) * (k / n)
  {
  }

  /** `px += dx` after i increments is i + 1 increments. */
  lemma NextStep(p0: real, d: real, i: int)
    ensures Walked(p0, d, i) + d == Walked(p0, d, i + 1)
  {
  }

  /** Consecutive points of a non-empty line are less than two pixels apart
      on each axis, and at least one pixel apart on the major one. */
  lemma LineSpacing(a: Vec2, b: Vec2)
    requires LineSteps(a, b) > 0
    ensures var n := LineSteps(a, b) as real;
      Abs((b.x - a.x) / n) < 2.0 && Abs((b.y - a.y) / n) < 2.0 &&
      Max(Abs((b.x - a.x) / n), Abs((b.y - a.y) / n)) >= 1.0
  {
    var n := LineSteps(a, b) as real;
    var m := Max(Abs(b.x - a.x), Abs(b.y - a.y));
    AbsDiv(b.x - a.x, n);
    AbsDiv(b.y - a.y, n);
    DivBelow(Abs(b.x - a.x), n);
    DivBelow(Abs(b.y - a.y), n);
    DivAtLeastOne(m, n);
  }

  lemma AbsDiv(d: real, n: real)
    requires n > 0.0
    ensures Abs(d / n) == Abs(d) / n
  {
  }

  /** A quantity below n + 1, with n at least 1, is below 2n. */
  lemma DivBelow(d: real, n: real)
    requires n >= 1.0 && 0.0 <= d < n + 1.0
    ensures d / n < 2.0
  {
    assert d < 2.0 * n;
  }

  lemma DivAtLeastOne(m: real, n: real)
    requires n > 0.0 && n <= m
    ensures m / n >= 1.0
  {
  }

  // ------------------------------------------------------ row-major grids

  /** What one loop iteration at offset (x, y) plots: nothing or one entry. */
  type Cell = (int, int) -> Option<Queued>

  function Plots(o: Option<Queued>): seq<Queued> {
    match o
    case Some(q) => [q]
    case None => []
  }

  /** The entries of cells x0 until x of row y, left to right. */
  function GridRow(cell: Cell, y: int, x0: int, x: int): seq<Queued>
    decreases x - x0
  {
    if x <= x0 then [] else GridRow(cell, y, x0, x - 1) + Plots(cell(x - 1, y))
  }

  /** The entries of rows y0 until y, each over columns x0 until x1. */
  function GridRows(cell: Cell, y0: int, y: int, x0: int, x1: int): seq<Queued>
    decreases y - y0
  {
    if y <= y0 then [] else GridRows(cell, y0, y - 1, x0, x1) + GridRow(cell, y - 1, x0, x1)
  }

  /** An entry is plotted by a row exactly when one of its cells plots it. */
  lemma {:induction false} GridRowMember(cell: Cell, y: int, x0: int, x: int, q: Queued)
    ensures q in GridRow(cell, y, x0, x) <==> exists i :: x0 <= i < x && cell(i, y) == Some(q)
    decreases x - x0
  {
    if x > x0 {
      GridRowMember(cell, y, x0, x - 1, q);
      assert GridRow(cell, y, x0, x) == GridRow(cell, y, x0, x - 1) + Plots(cell(x - 1, y));
      if cell(x - 1, y) == Some(q) {
        assert x0 <= x - 1 < x;
      }
    }
  }

  /** An entry is plotted by the grid exactly when one of its cells plots it. */
  lemma {:induction false} GridMember(cell: Cell, y0: int, y: int, x0: int, x1: int, q: Queued)
    ensures q in GridRows(cell, y0, y, x0, x1) <==> exists i, j :: x0 <= i < x1 && y0 <= j < y && cell(i, j) == Some(q)
    decreases y - y0
  {
    if y > y0 {
      GridMember(cell, y0, y - 1, x0, x1, q);
      GridRowMember(cell, y - 1, x0, x1, q);
      assert GridRows(cell, y0, y, x0, x1) == GridRows(cell, y0, y - 1, x0, x1) + GridRow(cell, y - 1, x0, x1);
      var yl := y - 1;
      if exists i :: x0 <= i < x1 && cell(i, yl) == Some(q) {
        var i :| x0 <= i < x1 && cell(i, yl) == Some(q);
        assert y0 <= yl < y;
      }
    }
  }

  /** The pixel a plot at pos lands on, by rows then columns. */
  predicate Precedes(p: Vec2, q: Vec2) {
    p.y.Floor < q.y.Floor || (p.y.Floor == q.y.Floor && p.x.Floor < q.x.Floor)
  }

  predicate PlotOrdered(ps: seq<Queued>) {
    forall i, i' :: 0 <= i < i' < |ps| ==> Precedes(ps[i].pos, ps[i'].pos)
  }

  /** Each cell plots at most once, on the pixel its offset names shifted by (ox, oy). */
  ghost predicate Located(cell: Cell, ox: int, oy: int) {
    forall x, y :: cell(x, y).Some? ==>
      cell(x, y).value.pos.x.Floor == x + ox && cell(x, y).value.pos.y.Floor == y + oy
  }

  /** Row y plots on row y + oy, columns x0 + ox until x + ox, strictly left to right. */
  predicate RowPlots(ps: seq<Queued>, y: int, lo: int, hi: int) {
    (forall i :: 0 <= i < |ps| ==> ps[i].pos.y.Floor == y && lo <= ps[i].pos.x.Floor < hi)
    && forall i, i' :: 0 <= i < i' < |ps| ==> ps[i].pos.x.Floor < ps[i'].pos.x.Floor
  }

  lemma {:induction false} GridRowOrdered(cell: Cell, ox: int, oy: int, y: int, x0: int, x: int)
    requires Located(cell, ox, oy) && x0 <= x
    ensures RowPlots(GridRow(cell, y, x0, x), y + oy, x0 + ox, x + ox)
    decreases x - x0
  {
    if x > x0 {
      var s: seq<Queued> := GridRow(cell, y, x0, x - 1);
      var e: seq<Queued> := Plots(cell(x - 1, y));
      GridRowOrdered(cell, ox, oy, y, x0, x - 1);
      assert GridRow(cell, y, x0, x) == s + e;
      forall i | 0 <= i < |s + e|
        ensures (s + e)[i].pos.y.Floor == y + oy && x0 + ox <= (s + e)[i].pos.x.Floor < x + ox
      {
        if i >= |s| {
          assert (s + e)[i] == e[0];
        }
      }
      forall i, i' | 0 <= i < i' < |s + e|
        ensures (s + e)[i].pos.x.Floor < (s + e)[i'].pos.x.Floor
      {
        if i' >= |s| {
          assert (s + e)[i'] == e[0];
        }
      }
    }
  }

  /** The grid's plots come in strictly increasing row-major order, so no
      pixel is plotted twice, and they lie in the shifted grid's rows. */
  lemma {:induction false} GridOrdered(cell: Cell, ox: int, oy: int, y0: int, y: int, x0: int, x1: int)
    requires Located(cell, ox, oy) && x0 <= x1
    ensures PlotOrdered(GridRows(cell, y0, y, x0, x1))
    ensures forall i :: 0 <= i < |GridRows(cell, y0, y, x0, x1)| ==>
      y0 + oy <= GridRows(cell, y0, y, x0, x1)[i].pos.y.Floor < y + oy
    decreases y - y0
  {
    if y > y0 {
      var s: seq<Queued> := GridRows(cell, y0, y - 1, x0, x1);
      var e: seq<Queued> := GridRow(cell, y - 1, x0, x1);
      GridOrdered(cell, ox, oy, y0, y - 1, x0, x1);
      GridRowOrdered(cell, ox, oy, y - 1, x0, x1);
      assert GridRows(cell, y0, y, x0, x1) == s + e;
      RowsThenRow(s, e, y0 + oy, y - 1 + oy, x0 + ox, x1 + ox);
    }
  }

  /** Ordered plots on rows lo until y, followed by one ordered row y, are
      ordered plots on rows lo through y. */
  lemma RowsThenRow(s: seq<Queued>, e: seq<Queued>, lo: int, y: int, xlo: int, xhi: int)
    requires lo <= y && PlotOrdered(s) && forall i :: 0 <= i < |s| ==> lo <= s[i].pos.y.Floor < y
    requires RowPlots(e, y, xlo, xhi)
    ensures PlotOrdered(s + e)
    ensures forall i :: 0 <= i < |s + e| ==> lo <= (s + e)[i].pos.y.Floor < y + 1
  {
    forall i | 0 <= i < |s + e|
      ensures lo <= (s + e)[i].pos.y.Floor < y + 1
    {
      if i >= |s| {
        assert (s + e)[i] == e[i - |s|];
      } else {
        assert (s + e)[i] == s[i];
      }
    }
    forall i, i' | 0 <= i < i' < |s + e|
      ensures Precedes((s + e)[i].pos, (s + e)[i'].pos)
    {
      if i' < |s| {
        assert (s + e)[i] == s[i] && (s + e)[i'] == s[i'];
      } else if i < |s| {
        assert (s + e)[i] == s[i] && (s + e)[i'] == e[i' - |s|];
        assert s[i].pos.y.Floor < y == e[i' - |s|].pos.y.Floor;
      } else {
        var j, j' := i - |s|, i' - |s|;
        assert (s + e)[i] == e[j] && (s + e)[i'] == e[j'];
        assert e[j].pos.y.Floor == y == e[j'].pos.y.Floor && e[j].pos.x.Floor < e[j'].pos.x.Floor;
      }
    }
  }

  /** Cells that plot nothing leave a row as it was. */
  lemma {:induction false} GridRowQuiet(cell: Cell, y: int, x0: int, lo: int, hi: int)
    requires x0 <= lo <= hi
    requires forall x :: lo <= x < hi ==> cell(x, y) == None
    ensures GridRow(cell, y, x0, hi) == GridRow(cell, y, x0, lo)
    decreases hi - lo
  {
    if hi > lo {
      GridRowQuiet(cell, y, x0, lo, hi - 1);
      assert GridRow(cell, y, x0, hi) == GridRow(cell, y, x0, hi - 1) + [];
    }
  }

  // ---------------------------------------------------- scanline triangle

  /** `sorted([a, b, c], key=lambda p: p.y)`; ties keep their input order. */
  function SortByY(a: Vec2, b: Vec2, c: Vec2): (r: (Vec2, Vec2, Vec2))
    ensures r.0.y <= r.1.y <= r.2.y
    ensures multiset{r.0, r.1, r.2} == multiset{a, b, c}
  {
    if a.y <= b.y then
      if b.y <= c.y then (a, b, c) else if a.y <= c.y then (a, c, b) else (c, a, b)
    else
      if a.y <= c.y then (b, a, c) else if b.y <= c.y then (b, c, a) else (c, b, a)
  }

  /** `x_at_y(p0, p1, y)`: the x of the line p0 p1 at height y, or p0.x on a
      horizontal edge. */
  function XAtY(p0: Vec2, p1: Vec2, y: real): real {
    var dy := p1.y - p0.y;
    if dy == 0.0 then p0.x else p0.x + (y - p0.y) / dy * (p1.x - p0.x)
  }

  /** The edge's x runs from p0.x at p0's height to p1.x at p1's, and stays
      between them in between. */
  lemma XAtYOnEdge(p0: Vec2, p1: Vec2, y: real)
    ensures XAtY(p0, p1, p0.y) == p0.x
    ensures p1.y != p0.y ==> XAtY(p0, p1, p1.y) == p1.x
    ensures p0.y < p1.y && p0.y <= y <= p1.y ==>
      Min(p0.x, p1.x) <= XAtY(p0, p1, y) <= Max(p0.x, p1.x)
  {
    var dy := p1.y - p0.y;
    if p0.y < p1.y && p0.y <= y <= p1.y {
      var t := (y - p0.y) / dy;
      assert 0.0 <= t <= 1.0;
      Between(p0.x, p1.x, t);
    }
  }

  lemma Between(p: real, q: real, t: real)
    requires 0.0 <= t <= 1.0
    ensures Min(p, q) <= p + t * (q - p) <= Max(p, q)
  {
    if p <= q {
      MulLe(t, 1.0, q - p);
    } else {
      MulLe(t, 1.0, p - q);
      assert t * (q - p) == -(t * (p - q));
    }
  }

  lemma MulLe(s: real, t: real, d: real)
    requires 0.0 <= s <= t && d >= 0.0
    ensures 0.0 <= s * d <= t * d
  {
    assert t * d - s * d == (t - s) * d;
  }

  /** The span `(xa, xb)` of row y, sampled at the pixel centre and ordered. */
  function Span(v: (Vec2, Vec2, Vec2), y: int): (r: (real, real))
    ensures r.0 <= r.1
  {
    var sy := y as real + 0.5;
    var xa := XAtY(v.0, v.2, sy);
    var xb := if sy < v.1.y then XAtY(v.0, v.1, sy) else XAtY(v.1, v.2, sy);
    if xa > xb then (xb, xa) else (xa, xb)
  }

  /** `x_start` and `x_end` of row y. */
  function SpanStart(v: (Vec2, Vec2, Vec2), y: int): int {
    IMax(0, Ceil(Span(v, y).0))
  }

  function SpanEnd(v: (Vec2, Vec2, Vec2), w: int, y: int): int {
    IMin(w - 1, Span(v, y).1.Floor)
  }

  /** `y_start` and `y_end`. */
  function RowStart(v: (Vec2, Vec2, Vec2)): int {
    IMax(0, Ceil(v.0.y))
  }

  function RowEnd(v: (Vec2, Vec2, Vec2), h: int): int {
    IMin(h - 1, v.2.y.Floor)
  }

  /** Column x of row y lies on the clamped span. */
  function SpanCell(v: (Vec2, Vec2, Vec2), w: int, col: Color): Cell {
    (x: int, y: int) => if SpanStart(v, y) <= x <= SpanEnd(v, w, y) then Some(Queued(Pixel(x, y), col)) else None
  }

  /** `triangle_filled_scanline(surface, a, b, c, col)` on a w x h surface. */
  function ScanlinePoints(a: Vec2, b: Vec2, c: Vec2, col: Color, w: int, h: int): seq<Queued> {
    if Cross2(Sub2(b, a), Sub2(c, a)) == 0.0 then []
    else
      var v := SortByY(a, b, c);
      if RowStart(v) > RowEnd(v, h) then []
      else GridRows(SpanCell(v, w, col), RowStart(v), RowEnd(v, h) + 1, 0, w)
  }

  /** Pixel (x, y) lies on the surface, at or below the top vertex, at or
      above the bottom one, and on its row's span. */
  predicate OnSpan(v: (Vec2, Vec2, Vec2), w: int, h: int, x: int, y: int) {
    0 <= x < w && 0 <= y < h && v.0.y <= y as real <= v.2.y && Span(v, y).0 <= x as real <= Span(v, y).1
  }

  /** The scanline fill plots pixel (x, y) exactly when the triangle is not
      degenerate and the pixel is on the span of its row. */
  lemma ScanlineMember(a: Vec2, b: Vec2, c: Vec2, col: Color, w: int, h: int, q: Queued)
    ensures q in ScanlinePoints(a, b, c, col, w, h) <==>
      Cross2(Sub2(b, a), Sub2(c, a)) != 0.0 && q.c == col &&
      exists x, y :: q.pos == Pixel(x, y) && OnSpan(SortByY(a, b, c), w, h, x, y)
  {
    var v := SortByY(a, b, c);
    if Cross2(Sub2(b, a), Sub2(c, a)) != 0.0 && RowStart(v) <= RowEnd(v, h) {
      var cell := SpanCell(v, w, col);
      GridMember(cell, RowStart(v), RowEnd(v, h) + 1, 0, w, q);
      if q in ScanlinePoints(a, b, c, col, w, h) {
        var x, y :| 0 <= x < w && RowStart(v) <= y < RowEnd(v, h) + 1 && cell(x, y) == Some(q);
        SpanCellMember(v, w, h, col, x, y, q);
      }
      if q.c == col && exists x, y :: q.pos == Pixel(x, y) && OnSpan(v, w, h, x, y) {
        var x, y :| q.pos == Pixel(x, y) && OnSpan(v, w, h, x, y);
        SpanCellMember(v, w, h, col, x, y, q);
      }
    } else if Cross2(Sub2(b, a), Sub2(c, a)) != 0.0 {
      forall x, y ensures !OnSpan(v, w, h, x, y) {
        if OnSpan(v, w, h, x, y) {
          CoveredRow(v, w, h, x, y);
        }
      }
    }
  }

  /** Inside the row range, a cell plots exactly its own pixel when that
      pixel is on the span. */
  lemma SpanCellMember(v: (Vec2, Vec2, Vec2), w: int, h: int, col: Color, x: int, y: int, q: Queued)
    requires RowStart(v) <= y <= RowEnd(v, h)
    ensures SpanCell(v, w, col)(x, y) == Some(q) <==> q == Queued(Pixel(x, y), col) && OnSpan(v, w, h, x, y)
  {
    var sp := Span(v, y);
    assert SpanStart(v, y) <= x <= SpanEnd(v, w, y) <==> 0 <= x < w && sp.0 <= x as real <= sp.1;
  }

  /** A pixel on a span lies in the fill's row range. */
  lemma CoveredRow(v: (Vec2, Vec2, Vec2), w: int, h: int, x: int, y: int)
    requires OnSpan(v, w, h, x, y)
    ensures RowStart(v) <= y <= RowEnd(v, h)
  {
  }

  /** The scanline fill plots each pixel at most once, row by row and left
      to right within a row, never above row 0 or below row h - 1. */
  lemma ScanlineOrdered(a: Vec2, b: Vec2, c: Vec2, col: Color, w: int, h: int)
    requires w >= 0
    ensures PlotOrdered(ScanlinePoints(a, b, c, col, w, h))
    ensures forall i :: 0 <= i < |ScanlinePoints(a, b, c, col, w, h)| ==>
      0 <= ScanlinePoints(a, b, c, col, w, h)[i].pos.y.Floor < h
  {
    var v := SortByY(a, b, c);
    if Cross2(Sub2(b, a), Sub2(c, a)) != 0.0 && RowStart(v) <= RowEnd(v, h) {
      GridOrdered(SpanCell(v, w, col), 0, 0, RowStart(v), RowEnd(v, h) + 1, 0, w);
    }
  }

  // ------------------------------------------------------------- circles

  /** `p + Vec2(x, y)`. */
  function Offset(p: Vec2, x: int, y: int): Vec2 {
    Add2(p, Pixel(x, y))
  }

  /** `circle_fill_raster`: offset (x, y) inside the disc of radius r. */
  function DiscCell(p: Vec2, r: int, c: Color): Cell {
    (x: int, y: int) => if x * x + y * y <= r * r then Some(Queued(Offset(p, x, y), c)) else None
  }

  function CircleFillPoints(p: Vec2, r: int, c: Color): seq<Queued> {
    GridRows(DiscCell(p, r, c), -r, r + 1, -r, r + 1)
  }

  /** A square is at most r * r only when its root is within r of zero. */
  lemma SquareBound(x: int, s: int)
    requires s >= 0 && x * x <= s * s
    ensures -s <= x <= s
  {
    if x > s {
      SquareGrows(s, x);
    } else if x < -s {
      SquareGrows(s, -x);
    }
  }

  lemma SquareGrows(s: int, t: int)
    requires 0 <= s < t
    ensures s * s < t * t
  {
    assert t * t - s * s == (t - s) * (t + s);
  }

  /** `circle_fill_raster` plots the offsets of exactly the lattice points of
      the disc: its square loop bounds cut nothing off. A negative radius
      plots nothing. */
  lemma CircleFillMember(p: Vec2, r: int, c: Color, q: Queued)
    ensures q in CircleFillPoints(p, r, c) <==>
      r >= 0 && q.c == c && exists x, y :: x * x + y * y <= r * r && q.pos == Offset(p, x, y)
  {
    var cell := DiscCell(p, r, c);
    GridMember(cell, -r, r + 1, -r, r + 1, q);
    if r >= 0 && q.c == c && exists x, y :: x * x + y * y <= r * r && q.pos == Offset(p, x, y) {
      var x, y :| x * x + y * y <= r * r && q.pos == Offset(p, x, y);
      assert x * x <= r * r && y * y <= r * r;
      SquareBound(x, r);
      SquareBound(y, r);
      assert cell(x, y) == Some(q);
    }
  }

  /** An offset's plot lands on the centre's pixel shifted by the offset. */
  lemma OffsetFloor(p: Vec2, x: int, y: int)
    ensures Offset(p, x, y).x.Floor == p.x.Floor + x && Offset(p, x, y).y.Floor == p.y.Floor + y
  {
  }

  /** `circle_fill_raster` plots row by row, left to right, never twice on one pixel. */
  lemma CircleFillOrdered(p: Vec2, r: int, c: Color)
    ensures PlotOrdered(CircleFillPoints(p, r, c))
  {
    var cell := DiscCell(p, r, c);
    forall x, y | cell(x, y).Some?
      ensures cell(x, y).value.pos.x.Floor == x + p.x.Floor && cell(x, y).value.pos.y.Floor == y + p.y.Floor
    {
      OffsetFloor(p, x, y);
    }
    if r >= 0 {
      GridOrdered(cell, p.x.Floor, p.y.Floor, -r, r + 1, -r, r + 1);
    }
  }

  /** The band test of `circle_raster_lines` at offset (x, y). */
  predicate InBand(r: int, w: int, x: int, y: int) {
    x * x + y * y <= (r + w) * (r + w) && x * x + y * y >= (r - w) * (r - w)
  }

  function BandCell(p: Vec2, r: int, w: int, c: Color): Cell {
    (x: int, y: int) => if InBand(r, w, x, y) then Some(Queued(Offset(p, x, y), c)) else None
  }

  /** `circle_raster_lines(surface, p, r, c, w)` as written: the band test
      over the loop square `[-r, r]`. */
  function CircleLinesPoints(p: Vec2, r: int, c: Color, w: int): seq<Queued> {
    GridRows(BandCell(p, r, w, c), -r, r + 1, -r, r + 1)
  }

  /** The band reaches radius r + w, but the loop stops at r, so on each axis
      the outer half of the band is never drawn: with r = 2 and w = 1 the
      offset (3, 0) passes the band test and is not plotted. */
  lemma CircleLinesClipsBand(p: Vec2, c: Color)
    ensures InBand(2, 1, 3, 0)
    ensures Queued(Offset(p, 3, 0), c) !in CircleLinesPoints(p, 2, c, 1)
  {
    var q := Queued(Offset(p, 3, 0), c);
    GridMember(BandCell(p, 2, 1, c), -2, 3, -2, 3, q);
  }

  /** The loop bound the band needs: its outer radius. */
  function BandReach(r: int, w: int): nat {
    IAbs(r) + IAbs(w)
  }

  function IAbs(n: int): (m: nat)
    ensures m == n || m == -n
  {
    if n < 0 then -n else n
  }

  /** The band with the loop square widened to the band's outer radius. */
  function CircleBandPoints(p: Vec2, r: int, c: Color, w: int): seq<Queued> {
    var reach: int := BandReach(r, w);
    GridRows(BandCell(p, r, w, c), -reach, reach + 1, -reach, reach + 1)
  }

  /** With the widened loop, exactly the offsets of the band are plotted. */
  lemma CircleBandMember(p: Vec2, r: int, c: Color, w: int, q: Queued)
    ensures q in CircleBandPoints(p, r, c, w) <==>
      q.c == c && exists x, y :: InBand(r, w, x, y) && q.pos == Offset(p, x, y)
  {
    var reach: int := BandReach(r, w);
    var cell := BandCell(p, r, w, c);
    GridMember(cell, -reach, reach + 1, -reach, reach + 1, q);
    if q.c == c && exists x, y :: InBand(r, w, x, y) && q.pos == Offset(p, x, y) {
      var x, y :| InBand(r, w, x, y) && q.pos == Offset(p, x, y);
      BandInReach(r, w, x, y);
      assert cell(x, y) == Some(q);
    }
  }

  /** Every offset of the band lies within its outer radius on both axes. */
  lemma BandInReach(r: int, w: int, x: int, y: int)
    requires InBand(r, w, x, y)
    ensures var reach: int := BandReach(r, w); -reach <= x <= reach && -reach <= y <= reach
  {
    var s := IAbs(r + w);
    SquareAbs(r + w);
    SquareNonNeg(x);
    SquareNonNeg(y);
    SquareBound(x, s);
    SquareBound(y, s);
  }

  lemma SquareAbs(n: int)
    ensures IAbs(n) * IAbs(n) == n * n
  {
    if n < 0 {
      assert IAbs(n) == -n;
    }
  }

  lemma SquareNonNeg(x: int)
    ensures x * x >= 0
  {
    if x < 0 {
      assert x * x == (-x) * (-x);
    }
  }

  // -------------------------------------------------------------- shader

  /** A per-pixel shader: the colour for a pixel position, or None to skip. */
  type ShaderFn = Vec2 -> Option<Color>

  function ShaderCell(f: ShaderFn): Cell {
    (x: int, y: int) => var col := f(Pixel(x, y)); if col.Some? then Some(Queued(Pixel(x, y), col.value)) else None
  }

  /** `shader(surface, func, args)` on a w x h surface. */
  function ShaderPoints(f: ShaderFn, w: int, h: int): seq<Queued> {
    GridRows(ShaderCell(f), 0, h, 0, w)
  }

  /** The shader plots exactly the surface pixels its function colours, in
      that colour, row by row and each once. */
  lemma ShaderMember(f: ShaderFn, w: int, h: int, q: Queued)
    ensures q in ShaderPoints(f, w, h) <==>
      exists x, y :: 0 <= x < w && 0 <= y < h && q.pos == Pixel(x, y) && f(Pixel(x, y)) == Some(q.c)
  {
    GridMember(ShaderCell(f), 0, h, 0, w, q);
    if exists x, y :: 0 <= x < w && 0 <= y < h && q.pos == Pixel(x, y) && f(Pixel(x, y)) == Some(q.c) {
      var x, y :| 0 <= x < w && 0 <= y < h && q.pos == Pixel(x, y) && f(Pixel(x, y)) == Some(q.c);
      assert ShaderCell(f)(x, y) == Some(q);
    }
  }

  lemma ShaderOrdered(f: ShaderFn, w: int, h: int)
    requires w >= 0
    ensures PlotOrdered(ShaderPoints(f, w, h))
  {
    var cell := ShaderCell(f);
    forall x, y | cell(x, y).Some?
      ensures cell(x, y).value.pos.x.Floor == x && cell(x, y).value.pos.y.Floor == y
    {
      assert cell(x, y) == Some(Queued(Pixel(x, y), f(Pixel(x, y)).value));
    }
    GridOrdered(cell, 0, 0, 0, h, 0, w);
  }

  /** The surface `shader` leaves behind: every pixel its function colours
      takes that colour, and every other pixel is unchanged. */
  lemma ShaderPixels(img: Image, f: ShaderFn)
    requires img.Valid()
    ensures var r := BlitAll(img, ShaderPoints(f, img.width, img.height));
      forall i, j :: 0 <= i < img.width && 0 <= j < img.height ==>
        r.GetAt(i, j) == if f(Pixel(i, j)).Some? then f(Pixel(i, j)).value else img.GetAt(i, j)
  {
    ShadedRows(img, f, img.height);
  }

  /** After rows 0 until y of the shader. */
  lemma {:induction false} ShadedRows(img: Image, f: ShaderFn, y: int)
    requires img.Valid() && 0 <= y <= img.height
    ensures var r := BlitAll(img, GridRows(ShaderCell(f), 0, y, 0, img.width));
      forall i, j :: 0 <= i < img.width && 0 <= j < img.height ==>
        r.GetAt(i, j) == if j < y && f(Pixel(i, j)).Some? then f(Pixel(i, j)).value else img.GetAt(i, j)
    decreases y
  {
    var cell := ShaderCell(f);
    if y > 0 {
      ShadedRows(img, f, y - 1);
      var pre := GridRows(cell, 0, y - 1, 0, img.width);
      BlitAppend(img, pre, GridRow(cell, y - 1, 0, img.width));
      ShadedRow(BlitAll(img, pre), f, y - 1, img.width);
    }
  }

  /** After columns 0 until x of row y of the shader. */
  lemma {:induction false} ShadedRow(img: Image, f: ShaderFn, y: int, x: int)
    requires img.Valid() && 0 <= y < img.height && 0 <= x <= img.width
    ensures var r := BlitAll(img, GridRow(ShaderCell(f), y, 0, x));
      forall i, j :: 0 <= i < img.width && 0 <= j < img.height ==>
        r.GetAt(i, j) == if j == y && i < x && f(Pixel(i, j)).Some? then f(Pixel(i, j)).value else img.GetAt(i, j)
    decreases x
  {
    var cell := ShaderCell(f);
    if x > 0 {
      var xl := x - 1;
      ShadedRow(img, f, y, xl);
      var pre := GridRow(cell, y, 0, xl);
      var col := f(Pixel(xl, y));
      if col.Some? {
        var q := Queued(Pixel(xl, y), col.value);
        assert GridRow(cell, y, 0, x) == pre + [q];
        BlitSnoc(img, pre, q);
        PlottedPixel(BlitAll(img, pre), xl, y, col.value);
      } else {
        assert GridRow(cell, y, 0, x) == pre;
      }
    }
  }

  /** `circle_shader`'s `c_shader`: colour c within distance r of p. */
  function CircleShade(p: Vec2, r: real, c: Color): ShaderFn {
    (pos: Vec2) =>
      if (pos.x - p.x) * (pos.x - p.x) + (pos.y - p.y) * (pos.y - p.y) <= r * r then Some(c) else None
  }

  /** `circle_shader` plots exactly the surface pixels within r of p. */
  lemma CircleShaderMember(p: Vec2, r: real, c: Color, w: int, h: int, x: int, y: int)
    ensures Queued(Pixel(x, y), c) in ShaderPoints(CircleShade(p, r, c), w, h) <==>
      0 <= x < w && 0 <= y < h &&
      (x as real - p.x) * (x as real - p.x) + (y as real - p.y) * (y as real - p.y) <= r * r
  {
    ShaderMember(CircleShade(p, r, c), w, h, Queued(Pixel(x, y), c));
  }
}
