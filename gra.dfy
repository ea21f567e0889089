/** The older 2D drawing layer: every primitive appends `(pos, colour)`
    entries to the global `POINTS` list, which the caller later blits; only
    `shader` writes the surface directly. The line, circle and shader
    entry sequences are the ones module Shapes defines; the recursive
    midpoint line, the rectangle and the closed polyline are defined here. */
module Gra {
  import opened Util
  import opened LinAlg
  import opened Scene
  import opened State
  import opened Shapes

  // ------------------------------------------------ the recursive line

  /** `(a + b) / 2`. */
  function Mid(a: Vec2, b: Vec2): Vec2 {
    Vec2((a.x + b.x) / 2.0, (a.y + b.y) / 2.0)
  }

  /** The whole-pixel length bound that halves at every recursion of `rline`. */
  function RLineSize(a: Vec2, b: Vec2): nat {
    var m := Max(Abs(b.x - a.x), Abs(b.y - a.y));
    Ceil(m)
  }

  /** Inside the axis-aligned box spanned by a and b. */
  predicate InBox(a: Vec2, b: Vec2, p: Vec2) {
    (a.x <= p.x <= b.x || b.x <= p.x <= a.x) && (a.y <= p.y <= b.y || b.y <= p.y <= a.y)
  }

  /** Both halves of a segment longer than one pixel are strictly shorter. */
  lemma HalvesShrink(a: Vec2, b: Vec2)
    requires !(Abs(b.x - a.x) <= 1.0 && Abs(b.y - a.y) <= 1.0)
    ensures RLineSize(a, Mid(a, b)) < RLineSize(a, b) && RLineSize(Mid(a, b), b) < RLineSize(a, b)
  {
    var m := Max(Abs(b.x - a.x), Abs(b.y - a.y));
    var h := Max(Abs(Mid(a, b).x - a.x), Abs(Mid(a, b).y - a.y));
    var h' := Max(Abs(b.x - Mid(a, b).x), Abs(b.y - Mid(a, b).y));
    HalfAbs(a.x, b.x);
    HalfAbs(a.y, b.y);
    assert h == m / 2.0 && h' == m / 2.0;
    HalfCeil(m);
  }

  lemma HalfAbs(p: real, q: real)
    ensures Abs((p + q) / 2.0 - p) == Abs(q - p) / 2.0
    ensures Abs(q - (p + q) / 2.0) == Abs(q - p) / 2.0
  {
  }

  /** Above one, halving lowers the ceiling. */
  lemma HalfCeil(m: real)
    requires m > 1.0
    ensures Ceil(m / 2.0) < Ceil(m)
  {
    var c := Ceil(m);
    assert c >= 2;
    assert m / 2.0 <= c as real / 2.0;
  }

  /** The entries `rline(surface, a, b)` appends, all white: both endpoints
      once the segment spans at most one pixel per axis, otherwise the
      midpoint followed by the two halves. */
  function RLinePoints(a: Vec2, b: Vec2): seq<Queued>
    decreases RLineSize(a, b)
  {
    if Abs(b.x - a.x) <= 1.0 && Abs(b.y - a.y) <= 1.0 then [Queued(a, White), Queued(b, White)]
    else
      var m := Mid(a, b);
      HalvesShrink(a, b);
      [Queued(m, White)] + RLinePoints(a, m) + RLinePoints(m, b)
  }

  /** The recursive line reaches both endpoints. */
  lemma {:induction false} RLineEnds(a: Vec2, b: Vec2)
    ensures Queued(a, White) in RLinePoints(a, b) && Queued(b, White) in RLinePoints(a, b)
    decreases RLineSize(a, b)
  {
    if !(Abs(b.x - a.x) <= 1.0 && Abs(b.y - a.y) <= 1.0) {
      HalvesShrink(a, b);
      RLineEnds(a, Mid(a, b));
      RLineEnds(Mid(a, b), b);
    }
  }

  /** Every entry of the recursive line is white and lies in the box
      spanned by its endpoints. */
  lemma {:induction false} RLineInBox(a: Vec2, b: Vec2)
    ensures forall q :: q in RLinePoints(a, b) ==> q.c == White && InBox(a, b, q.pos)
    decreases RLineSize(a, b)
  {
    if !(Abs(b.x - a.x) <= 1.0 && Abs(b.y - a.y) <= 1.0) {
      var m := Mid(a, b);
      HalvesShrink(a, b);
      RLineInBox(a, m);
      RLineInBox(m, b);
      forall q | q in RLinePoints(a, m) + RLinePoints(m, b)
        ensures InBox(a, b, q.pos)
      {
        if q in RLinePoints(a, m) {
          assert InBox(a, m, q.pos);
        } else {
          assert InBox(m, b, q.pos);
        }
      }
    }
  }

  // ------------------------------------------------------- rectangle

  /** The entries `rect(surface, p, size)` appends: the four sides from the
      corners a = p and b = p + size. */
  function RectPoints(p: Vec2, size: Vec2): seq<Queued> {
    var a := p;
    var b := Add2(p, size);
    LinePoints(a, Vec2(b.x, a.y), White) + LinePoints(a, Vec2(a.x, b.y), White)
    + LinePoints(b, Vec2(a.x, b.y), White) + LinePoints(b, Vec2(b.x, a.y), White)
  }

  /** The rectangle's two given corners are always plotted, and all four
      once a side is at least one pixel long. */
  lemma RectCorners(p: Vec2, size: Vec2)
    ensures var b := Add2(p, size);
      Queued(p, White) in RectPoints(p, size) && Queued(b, White) in RectPoints(p, size)
    ensures var b := Add2(p, size);
      (Abs(size.x) >= 1.0 || Abs(size.y) >= 1.0) ==>
        Queued(Vec2(b.x, p.y), White) in RectPoints(p, size) && Queued(Vec2(p.x, b.y), White) in RectPoints(p, size)
  {
    var a := p;
    var b := Add2(p, size);
    var c1 := Vec2(b.x, a.y);
    var c2 := Vec2(a.x, b.y);
    LineStart(a, c1);
    LineStart(b, c1);
    assert LineSteps(a, c1) == Trunc(Abs(size.x)) && LineSteps(b, c1) == Trunc(Abs(size.y));
    assert LineSteps(a, c2) == Trunc(Abs(size.y)) && LineSteps(b, c2) == Trunc(Abs(size.x));
    LineEnd(a, c1);
    LineEnd(a, c2);
    LineEnd(b, c1);
    LineEnd(b, c2);
  }

  /** A white line always starts at its first endpoint... */
  lemma LineStart(a: Vec2, b: Vec2)
    ensures Queued(a, White) in LinePoints(a, b, White)
  {
    LineOnSegment(a, b, White);
  }

  /** ...and ends at the other one unless it is shorter than a pixel. */
  lemma LineEnd(a: Vec2, b: Vec2)
    ensures LineSteps(a, b) > 0 ==> Queued(b, White) in LinePoints(a, b, White)
  {
    LineOnSegment(a, b, White);
  }

  // -------------------------------------------------- closed polyline

  /** The entries `triangle(surface, a, b, c)` appends: lines a-b, b-c, a-c. */
  function TrianglePoints(a: Vec2, b: Vec2, c: Vec2): seq<Queued> {
    LinePoints(a, b, White) + LinePoints(b, c, White) + LinePoints(a, c, White)
  }

  /** The outline reaches all three corners, and plots only entries of its
      three sides. */
  lemma TriangleCorners(a: Vec2, b: Vec2, c: Vec2, q: Queued)
    ensures Queued(a, White) in TrianglePoints(a, b, c) && Queued(b, White) in TrianglePoints(a, b, c)
    ensures q in TrianglePoints(a, b, c) <==>
      q in LinePoints(a, b, White) || q in LinePoints(b, c, White) || q in LinePoints(a, c, White)
    ensures LineSteps(a, c) > 0 || LineSteps(b, c) > 0 ==> Queued(c, White) in TrianglePoints(a, b, c)
  {
    LineStart(a, b);
    LineStart(b, c);
    LineEnd(a, c);
    LineEnd(b, c);
  }

  /** The segments `ps[i] -> ps[i + 1]` for i below k, in order. */
  function Chain(ps: seq<Vec2>, k: nat): seq<Queued>
    requires k < |ps|
  {
    if k == 0 then [] else Chain(ps, k - 1) + LinePoints(ps[k - 1], ps[k], White)
  }

  /** The entries `lines(surface, ps)` appends: nothing for fewer than two
      points, else the open chain followed by the closing segment. */
  function LinesPoints(ps: seq<Vec2>): seq<Queued> {
    if |ps| <= 1 then [] else Chain(ps, |ps| - 1) + LinePoints(ps[0], ps[|ps| - 1], White)
  }

  /** An entry of the open chain is exactly an entry of one of its segments. */
  lemma {:induction false} ChainMember(ps: seq<Vec2>, j: nat, q: Queued)
    requires j < |ps|
    ensures q in Chain(ps, j) <==> exists k :: 0 <= k < j && q in LinePoints(ps[k], ps[k + 1], White)
  {
    if j > 0 {
      ChainMember(ps, j - 1, q);
      if q in LinePoints(ps[j - 1], ps[j], White) {
        var k := j - 1;
        assert 0 <= k < j && q in LinePoints(ps[k], ps[k + 1], White);
      }
    }
  }

  /** `lines` plots exactly the points of its n - 1 consecutive segments and
      of the closing segment from the first point to the last. */
  lemma LinesMember(ps: seq<Vec2>, q: Queued)
    ensures q in LinesPoints(ps) <==>
      |ps| >= 2 && (q in LinePoints(ps[0], ps[|ps| - 1], White) ||
                    exists k :: 0 <= k < |ps| - 1 && q in LinePoints(ps[k], ps[k + 1], White))
  {
    if |ps| >= 2 {
      ChainMember(ps, |ps| - 1, q);
    }
  }

  /** Every vertex but the last is plotted as a segment start; the last is
      plotted once the closing segment is at least a pixel long. */
  lemma LinesVertices(ps: seq<Vec2>)
    requires |ps| >= 2
    ensures forall k :: 0 <= k < |ps| - 1 ==> Queued(ps[k], White) in LinesPoints(ps)
    ensures LineSteps(ps[0], ps[|ps| - 1]) > 0 ==> Queued(ps[|ps| - 1], White) in LinesPoints(ps)
  {
    forall k | 0 <= k < |ps| - 1
      ensures Queued(ps[k], White) in LinesPoints(ps)
    {
      LineStart(ps[k], ps[k + 1]);
      LinesMember(ps, Queued(ps[k], White));
    }
    LineEnd(ps[0], ps[|ps| - 1]);
  }

  // --------------------------------------------------- the point list

  /** The global `POINTS` list of gra/state.py. */
  class PointList {
    var points: seq<Queued>

    constructor ()
      ensures points == []
    {
      points := [];
    }

    /** `point(surface, pos)`: append pos in white. */
    method Point(pos: Vec2)
      modifies this
      ensures points == old(points) + [Queued(pos, White)]
    {
      points := points + [Queued(pos, White)];
    }

    /** `cpoint(surface, pos, c)`: append pos in colour c. */
    method CPoint(pos: Vec2, c: Color)
      modifies this
      ensures points == old(points) + [Queued(pos, c)]
    {
      points := points + [Queued(pos, c)];
    }

    /** `line(surface, a, b)`: the DDA walk from a towards b, in white. */
    method Line(a: Vec2, b: Vec2)
      modifies this
      ensures points == old(points) + LinePoints(a, b, White)
    {
      var xd := b.x - a.x;
      var yd := b.y - a.y;
      var n := Trunc(Max(Abs(xd), Abs(yd)));
      if n == 0 {
        Point(a);
        return;
      }
      var dx := xd / n as real;
      var dy := yd / n as real;
      LineWalk(a, b, n, dx, dy);
    }

    /** The `for` loop of `line`: n + 1 points, each a step (dx, dy) on. */
    method LineWalk(a: Vec2, b: Vec2, n: nat, dx: real, dy: real)
      requires n == LineSteps(a, b) && n > 0
      requires dx == (b.x - a.x) / n as real && dy == (b.y - a.y) / n as real
      modifies this
      ensures points == old(points) + LinePoints(a, b, White)
    {
      ghost var ps := LinePoints(a, b, White);
      var px := a.x;
      var py := a.y;
      var i := 0;
      while i < n + 1
        invariant 0 <= i <= n + 1
        invariant px == Walked(a.x, dx, i) && py == Walked(a.y, dy, i)
        invariant points == old(points) + ps[..i]
      {
        assert ps[i] == Queued(Vec2(px, py), White);
        points := points + [Queued(Vec2(px, py), White)];
        assert ps[..i + 1] == ps[..i] + [ps[i]];
        NextStep(a.x, dx, i);
        NextStep(a.y, dy, i);
        px := px + dx;
        py := py + dy;
        i := i + 1;
      }
      assert ps[..n + 1] == ps;
    }

    /** `rline(surface, a, b)`: the recursive midpoint line. */
    method RLine(a: Vec2, b: Vec2)
      modifies this
      ensures points == old(points) + RLinePoints(a, b)
      decreases RLineSize(a, b)
    {
      var dx := Abs(b.x - a.x);
      var dy := Abs(b.y - a.y);
      if dx <= 1.0 && dy <= 1.0 {
        Point(a);
        Point(b);
        return;
      }
      var m := Mid(a, b);
      Point(m);
      HalvesShrink(a, b);
      RLine(a, m);
      RLine(m, b);
    }

    /** `rect(surface, p, size)`. */
    method Rect(p: Vec2, size: Vec2)
      modifies this
      ensures points == old(points) + RectPoints(p, size)
    {
      var a := p;
      var b := Add2(p, size);
      Line(a, Vec2(b.x, a.y));
      Line(a, Vec2(a.x, b.y));
      Line(b, Vec2(a.x, b.y));
      Line(b, Vec2(b.x, a.y));
    }

    /** `triangle(surface, a, b, c)`: the outline as three lines. */
    method Triangle(a: Vec2, b: Vec2, c: Vec2)
      modifies this
      ensures points == old(points) + TrianglePoints(a, b, c)
    {
      Line(a, b);
      Line(b, c);
      Line(a, c);
    }

    /** `lines(surface, ps)`: the closed polyline through ps. */
    method Lines(ps: seq<Vec2>)
      modifies this
      ensures points == old(points) + LinesPoints(ps)
    {
      if |ps| == 0 {
        return;
      }
      if |ps| == 1 {
        return;
      }
      LinesChain(ps);
      Line(ps[0], ps[|ps| - 1]);
    }

    /** `polygon(surface, ps)`: the closed polyline through ps. */
    method Polygon(ps: seq<Vec2>)
      modifies this
      ensures points == old(points) + LinesPoints(ps)
    {
      Lines(ps);
    }

    /** The `for` loop of `lines`: the segments between consecutive points. */
    method LinesChain(ps: seq<Vec2>)
      requires |ps| >= 2
      modifies this
      ensures points == old(points) + Chain(ps, |ps| - 1)
    {
      var i := 0;
      while i < |ps| - 1
        invariant 0 <= i <= |ps| - 1
        invariant points == old(points) + Chain(ps, i)
      {
        ghost var before := points;
        Line(ps[i], ps[i + 1]);
        assert Chain(ps, i + 1) == Chain(ps, i) + LinePoints(ps[i], ps[i + 1], White);
        assert points == before + LinePoints(ps[i], ps[i + 1], White);
        i := i + 1;
      }
    }

    /** The nested loops of `circle_fill_raster` and `circle_raster_lines`:
        `cell(x, y)` is the loop body's test and the entry it appends. */
    method AppendCells(cell: Cell, y0: int, y1: int, x0: int, x1: int)
      modifies this
      ensures points == old(points) + GridRows(cell, y0, y1, x0, x1)
    {
      var y := y0;
      while y < y1
        invariant y0 <= y <= IMax(y0, y1)
        invariant points == old(points) + GridRows(cell, y0, y, x0, x1)
      {
        AppendRow(cell, y, x0, x1);
        y := y + 1;
      }
    }

    /** The inner loop of `AppendCells`: row y, columns x0 until x1. */
    method AppendRow(cell: Cell, y: int, x0: int, x1: int)
      modifies this
      ensures points == old(points) + GridRow(cell, y, x0, x1)
    {
      var x := x0;
      while x < x1
        invariant x0 <= x <= IMax(x0, x1)
        invariant points == old(points) + GridRow(cell, y, x0, x)
      {
        var hit := cell(x, y);
        if hit.Some? {
          CPoint(hit.value.pos, hit.value.c);
        }
        x := x + 1;
      }
    }

    /** `circle_fill_raster(surface, p, r, c)`. */
    method CircleFillRaster(p: Vec2, r: int, c: Color)
      modifies this
      ensures points == old(points) + CircleFillPoints(p, r, c)
    {
      AppendCells(DiscCell(p, r, c), -r, r + 1, -r, r + 1);
    }

    /** `circle_raster_lines(surface, p, r, c, w)`, over its loop square `[-r, r]`. */
    method CircleRasterLines(p: Vec2, r: int, c: Color, w: int)
      modifies this
      ensures points == old(points) + CircleLinesPoints(p, r, c, w)
    {
      AppendCells(BandCell(p, r, w, c), -r, r + 1, -r, r + 1);
    }
  }

  // ----------------------------------------------------------- shader

  /** `shader(surface, func, args)`: `set_at` on every pixel func colours,
      leaving `POINTS` alone. */
  method Shader(surf: Surface, f: ShaderFn)
    requires surf.Valid()
    modifies surf
    ensures surf.Valid() && surf.img == BlitAll(old(surf.img), ShaderPoints(f, old(surf.img.width), old(surf.img.height)))
  {
    var w: int := surf.img.width;
    var h: int := surf.img.height;
    ghost var img0 := surf.img;
    var y := 0;
    while y < h
      invariant 0 <= y <= h
      invariant surf.Valid() && surf.img.width == w && surf.img.height == h
      invariant surf.img == BlitAll(img0, GridRows(ShaderCell(f), 0, y, 0, w))
    {
      ShadeRow(surf, f, y, img0, GridRows(ShaderCell(f), 0, y, 0, w));
      y := y + 1;
    }
  }

  /** One row of `shader`. */
  method ShadeRow(surf: Surface, f: ShaderFn, y: int, ghost img0: Image, ghost pre: seq<Queued>)
    requires img0.Valid() && surf.Valid() && 0 <= y < surf.img.height
    requires surf.img.width == img0.width && surf.img.height == img0.height
    requires surf.img == BlitAll(img0, pre)
    modifies surf
    ensures surf.Valid() && surf.img.width == old(surf.img.width) && surf.img.height == old(surf.img.height)
    ensures surf.img == BlitAll(img0, pre + GridRow(ShaderCell(f), y, 0, old(surf.img.width)))
  {
    var w := surf.img.width;
    assert pre + GridRow(ShaderCell(f), y, 0, 0) == pre;
    var x := 0;
    while x < w
      invariant 0 <= x <= w
      invariant surf.Valid() && surf.img.width == w && surf.img.height == old(surf.img.height)
      invariant surf.img == BlitAll(img0, pre + GridRow(ShaderCell(f), y, 0, x))
    {
      var col := f(Pixel(x, y));
      ghost var done := pre + GridRow(ShaderCell(f), y, 0, x);
      assert GridRow(ShaderCell(f), y, 0, x + 1) == GridRow(ShaderCell(f), y, 0, x) + Plots(ShaderCell(f)(x, y));
      if col.Some? {
        assert ShaderCell(f)(x, y) == Some(Queued(Pixel(x, y), col.value));
        PlottedPixel(surf.img, x, y, col.value);
        BlitSnoc(img0, done, Queued(Pixel(x, y), col.value));
        surf.img := SetAt(surf.img, x, y, col.value);
        assert pre + GridRow(ShaderCell(f), y, 0, x + 1) == done + [Queued(Pixel(x, y), col.value)];
      } else {
        assert pre + GridRow(ShaderCell(f), y, 0, x + 1) == done;
      }
      x := x + 1;
    }
  }

  /** `circle_shader(surface, p, r, c)`: the shader with `c_shader`. */
  method CircleShader(surf: Surface, p: Vec2, r: real, c: Color)
    requires surf.Valid()
    modifies surf
    ensures surf.Valid()
    ensures surf.img == BlitAll(old(surf.img), ShaderPoints(CircleShade(p, r, c), old(surf.img.width), old(surf.img.height)))
  {
    Shader(surf, CircleShade(p, r, c));
  }
}
