/** The bounding-box triangle rasterizers, as the loops they are: each walks
    the clamped box row by row and plots through the sink, the Z-buffered
    ones over a flat depth array. Each is proved to do exactly what
    `Raster.Rasterize` says of its kernel, after which the lemmas of module
    Raster apply. */
module Primitives {
  import opened Util
  import opened LinAlg
  import opened Scene
  import opened State
  import opened Raster
  import opened Shapes
  import Gra

  /** `triangle_filled(surface, a, b, c, col)`. */
  method TriangleFilled(sink: Sink, surf: Surface, a: Vec2, b: Vec2, c: Vec2, col: Color)
    requires surf.Valid()
    modifies sink`points, surf
    ensures surf.Valid() && surf.img.width == old(surf.img.width) && surf.img.height == old(surf.img.height)
    ensures SinkView(sink.points, surf.img)
         == Replay(sink.mode, old(SinkView(sink.points, surf.img)),
                   Rasterize(Flat(a, b, c, col), old(surf.img.width), old(surf.img.height), Raster([], [])).evs)
  {
    var w: int := surf.img.width;
    var h: int := surf.img.height;
    var box := BBox(a, b, c, w, h);
    ghost var k := Flat(a, b, c, col);
    ghost var V0 := SinkView(sink.points, surf.img);
    if box.minX > box.maxX || box.minY > box.maxY {
      assert Replay(sink.mode, V0, []) == V0;
      return;
    }
    var area := Edge(a, b, c.x, c.y);
    if area == 0.0 {
      assert Replay(sink.mode, V0, []) == V0;
      return;
    }
    assert Runs(k, w, h) && KernelBox(k, w, h) == box;
    FilledScan(sink, surf, a, b, c, col, area, box);
  }

  /** The row loop of `triangle_filled` over a non-empty box. */
  method FilledScan(sink: Sink, surf: Surface, a: Vec2, b: Vec2, c: Vec2, col: Color, area: real, box: Box)
    requires surf.Valid() && area == Area(a, b, c) && area != 0.0 && box.minY <= box.maxY
    modifies sink`points, surf
    ensures surf.Valid() && surf.img.width == old(surf.img.width) && surf.img.height == old(surf.img.height)
    ensures SinkView(sink.points, surf.img)
         == Replay(sink.mode, old(SinkView(sink.points, surf.img)),
                   Scan(RuleOf(Flat(a, b, c, col)), old(surf.img.width), Raster([], []), box, box.maxY + 1).evs)
  {
    var w: int := surf.img.width;
    ghost var k := Flat(a, b, c, col);
    ghost var V0 := SinkView(sink.points, surf.img);
    assert Replay(sink.mode, V0, []) == V0;
    var y := box.minY;
    while y <= box.maxY
      invariant box.minY <= y <= box.maxY + 1
      invariant surf.Valid() && surf.img.width == w && surf.img.height == old(surf.img.height)
      invariant SinkView(sink.points, surf.img) == Replay(sink.mode, V0, Scan(RuleOf(k), w, Raster([], []), box, y).evs)
    {
      FilledRow(sink, surf, a, b, c, col, area, w, y, box.minX, box.maxX, V0, Scan(RuleOf(k), w, Raster([], []), box, y));
      ScanNext(RuleOf(k), w, Raster([], []), box, y);
      y := y + 1;
    }
  }

  /** One row `y` of `triangle_filled`. */
  method FilledRow(sink: Sink, surf: Surface, a: Vec2, b: Vec2, c: Vec2, col: Color, area: real,
                   w: int, y: int, minX: int, maxX: int, ghost V0: SinkView, ghost R: Raster)
    requires surf.Valid() && V0.img.Valid() && area == Area(a, b, c) && area != 0.0
    requires SinkView(sink.points, surf.img) == Replay(sink.mode, V0, R.evs)
    modifies sink`points, surf
    ensures surf.Valid() && surf.img.width == old(surf.img.width) && surf.img.height == old(surf.img.height)
    ensures SinkView(sink.points, surf.img)
         == Replay(sink.mode, V0, ScanRow(RuleOf(Flat(a, b, c, col)), w, R, y, minX, maxX + 1).evs)
  {
    ghost var k := Flat(a, b, c, col);
    var x := minX;
    while x <= maxX
      invariant minX <= x && (x <= maxX + 1 || x == minX)
      invariant surf.Valid() && surf.img.width == old(surf.img.width) && surf.img.height == old(surf.img.height)
      invariant SinkView(sink.points, surf.img) == Replay(sink.mode, V0, ScanRow(RuleOf(k), w, R, y, minX, x).evs)
    {
      FilledPixel(sink, surf, a, b, c, col, area, w, minX, x, y, V0, R);
      x := x + 1;
    }
  }

  /** The body of `triangle_filled`'s pixel loop: the three edge tests at
      the pixel centre, and the plot when they agree. */
  method FilledPixel(sink: Sink, surf: Surface, a: Vec2, b: Vec2, c: Vec2, col: Color, area: real,
                     w: int, lo: int, x: int, y: int, ghost V0: SinkView, ghost R0: Raster)
    requires surf.Valid() && V0.img.Valid() && area == Area(a, b, c) && area != 0.0 && lo <= x
    requires SinkView(sink.points, surf.img) == Replay(sink.mode, V0, ScanRow(RuleOf(Flat(a, b, c, col)), w, R0, y, lo, x).evs)
    modifies sink`points, surf
    ensures surf.Valid() && surf.img.width == old(surf.img.width) && surf.img.height == old(surf.img.height)
    ensures SinkView(sink.points, surf.img) == Replay(sink.mode, V0, ScanRow(RuleOf(Flat(a, b, c, col)), w, R0, y, lo, x + 1).evs)
  {
    ghost var R := ScanRow(RuleOf(Flat(a, b, c, col)), w, R0, y, lo, x);
    ScanRowNext(RuleOf(Flat(a, b, c, col)), w, R0, y, lo, x);
    ghost var d := DepthOf(R.zbuf, y * w + x);
    var px := x as real + 0.5;
    var py := y as real + 0.5;
    var w0 := Edge(b, c, px, py);
    var w1 := Edge(c, a, px, py);
    var w2 := Edge(a, b, px, py);
    var inside := if area > 0.0 then w0 >= 0.0 && w1 >= 0.0 && w2 >= 0.0 else w0 <= 0.0 && w1 <= 0.0 && w2 <= 0.0;
    FlatDecision(a, b, c, col, x, y, d, inside);
    if inside {
      sink.Plot(surf, Vec2(x as real, y as real), col);
      ReplaySnoc(sink.mode, V0, R.evs, Put(Pixel(x, y), col));
    } else {
      assert R.evs + [] == R.evs;
    }
  }

  /** The inline inside test of `triangle_filled` is the Flat kernel's rule. */
  lemma FlatDecision(a: Vec2, b: Vec2, c: Vec2, col: Color, x: int, y: int, d: Depth, inside: bool)
    requires Area(a, b, c) != 0.0
    requires var px, py := x as real + 0.5, y as real + 0.5;
             var w0, w1, w2 := Edge(b, c, px, py), Edge(c, a, px, py), Edge(a, b, px, py);
             inside == if Area(a, b, c) > 0.0 then w0 >= 0.0 && w1 >= 0.0 && w2 >= 0.0 else w0 <= 0.0 && w1 <= 0.0 && w2 <= 0.0
    ensures RuleOf(Flat(a, b, c, col))(x, y, d) == Decision(None, if inside then [Put(Pixel(x, y), col)] else [])
  {
  }

  /** What a Z-buffered call changes: the depth array and the sink view
      become the result of rasterizing kernel k from their old values. */
  method TriangleFilledZ(sink: Sink, surf: Surface, a: Vec3, b: Vec3, c: Vec3, col: Color, zbuf: array<Depth>)
    requires surf.Valid() && zbuf.Length == surf.img.width * surf.img.height
    modifies sink`points, surf, zbuf
    ensures surf.Valid() && surf.img.width == old(surf.img.width) && surf.img.height == old(surf.img.height)
    ensures var r := Rasterize(FlatZ(a, b, c, col), old(surf.img.width), old(surf.img.height), Raster(old(zbuf[..]), []));
            zbuf[..] == r.zbuf && SinkView(sink.points, surf.img) == Replay(sink.mode, old(SinkView(sink.points, surf.img)), r.evs)
  {
    var w: int := surf.img.width;
    var h: int := surf.img.height;
    var box := BBox(XY(a), XY(b), XY(c), w, h);
    ghost var k := FlatZ(a, b, c, col);
    ghost var V0 := SinkView(sink.points, surf.img);
    if box.minX > box.maxX || box.minY > box.maxY {
      assert Replay(sink.mode, V0, []) == V0;
      return;
    }
    var area := Edge(XY(a), XY(b), c.x, c.y);
    if area == 0.0 {
      assert Replay(sink.mode, V0, []) == V0;
      return;
    }
    assert Runs(k, w, h) && KernelBox(k, w, h) == box;
    ZScan(sink, surf, FlatZ(a, b, c, col), zbuf, 1.0 / area, box);
  }

  /** `triangle_textured_z(surface, a, b, c, uva, uvb, uvc, texture, zbuf, shade)`;
      the kernel blends only when the sink plots immediately. */
  method TriangleTexturedZ(sink: Sink, surf: Surface, a: Vec3, b: Vec3, c: Vec3, uva: Vec2, uvb: Vec2, uvc: Vec2,
                           texture: Image, zbuf: array<Depth>, shade: Vec3)
    requires surf.Valid() && zbuf.Length == surf.img.width * surf.img.height
    requires ImageOk(texture) && texture.width >= 1 && texture.height >= 1
    modifies sink`points, surf, zbuf
    ensures surf.Valid() && surf.img.width == old(surf.img.width) && surf.img.height == old(surf.img.height)
    ensures var k := Textured(a, b, c, uva, uvb, uvc, texture, shade, sink.mode == Deferred);
            var r := Rasterize(k, old(surf.img.width), old(surf.img.height), Raster(old(zbuf[..]), []));
            zbuf[..] == r.zbuf && SinkView(sink.points, surf.img) == Replay(sink.mode, old(SinkView(sink.points, surf.img)), r.evs)
  {
    var w: int := surf.img.width;
    var h: int := surf.img.height;
    var box := BBox(XY(a), XY(b), XY(c), w, h);
    var k := Textured(a, b, c, uva, uvb, uvc, texture, shade, sink.mode == Deferred);
    ghost var V0 := SinkView(sink.points, surf.img);
    if box.minX > box.maxX || box.minY > box.maxY {
      assert Replay(sink.mode, V0, []) == V0;
      return;
    }
    var area := Edge(XY(a), XY(b), c.x, c.y);
    if area == 0.0 {
      assert Replay(sink.mode, V0, []) == V0;
      return;
    }
    assert Runs(k, w, h) && KernelBox(k, w, h) == box;
    ZScan(sink, surf, k, zbuf, 1.0 / area, box);
  }

  /** A Z-buffered kernel ready to scan, with `inv_area = 1.0 / area`; a
      textured one blends exactly when the sink plots immediately. */
  predicate ZKernel(k: Kernel, invArea: real, mode: PlotMode) {
    !k.Flat? && Ready(k) && invArea == 1.0 / Area(XY(k.a), XY(k.b), XY(k.c)) &&
    (k.Textured? ==> k.deferred == (mode == Deferred))
  }

  /** The row loop shared by the two Z-buffered kernels. */
  method ZScan(sink: Sink, surf: Surface, k: Kernel, zbuf: array<Depth>, invArea: real, box: Box)
    requires ZKernel(k, invArea, sink.mode)
    requires surf.Valid() && zbuf.Length == surf.img.width * surf.img.height
    requires 0 <= box.minX && box.maxX < surf.img.width && 0 <= box.minY && box.minY <= box.maxY < surf.img.height
    modifies sink`points, surf, zbuf
    ensures surf.Valid() && surf.img.width == old(surf.img.width) && surf.img.height == old(surf.img.height)
    ensures var r := Scan(RuleOf(k), old(surf.img.width), Raster(old(zbuf[..]), []), box, box.maxY + 1);
            zbuf[..] == r.zbuf && SinkView(sink.points, surf.img) == Replay(sink.mode, old(SinkView(sink.points, surf.img)), r.evs)
  {
    var w: int := surf.img.width;
    ghost var h: int := surf.img.height;
    ghost var V0 := SinkView(sink.points, surf.img);
    ghost var R0 := Raster(zbuf[..], []);
    assert Replay(sink.mode, V0, []) == V0;
    var y := box.minY;
    while y <= box.maxY
      invariant box.minY <= y <= box.maxY + 1
      invariant surf.Valid() && surf.img.width == w && surf.img.height == h
      invariant zbuf[..] == Scan(RuleOf(k), w, R0, box, y).zbuf
      invariant SinkView(sink.points, surf.img) == Replay(sink.mode, V0, Scan(RuleOf(k), w, R0, box, y).evs)
    {
      ZRow(sink, surf, k, zbuf, invArea, box, y, V0, Scan(RuleOf(k), w, R0, box, y));
      ScanNext(RuleOf(k), w, R0, box, y);
      y := y + 1;
    }
  }

  /** One row `y`: `row = y * w`, then the pixels min_x..max_x. */
  method ZRow(sink: Sink, surf: Surface, k: Kernel, zbuf: array<Depth>, invArea: real, box: Box,
              y: int, ghost V0: SinkView, ghost R: Raster)
    requires ZKernel(k, invArea, sink.mode)
    requires surf.Valid() && V0.img.Valid() && zbuf.Length == surf.img.width * surf.img.height
    requires 0 <= box.minX && box.maxX < surf.img.width && 0 <= y < surf.img.height
    requires zbuf[..] == R.zbuf && SinkView(sink.points, surf.img) == Replay(sink.mode, V0, R.evs)
    modifies sink`points, surf, zbuf
    ensures surf.Valid() && surf.img.width == old(surf.img.width) && surf.img.height == old(surf.img.height)
    ensures var r := ScanRow(RuleOf(k), surf.img.width, R, y, box.minX, box.maxX + 1);
            zbuf[..] == r.zbuf && SinkView(sink.points, surf.img) == Replay(sink.mode, V0, r.evs)
  {
    var w: int := surf.img.width;
    var row := y * w;
    if box.maxX + 1 < box.minX {
      return;
    }
    ZCols(sink, surf, k, zbuf, invArea, w, surf.img.height, row, box.minX, box.maxX, y, V0, R);
  }

  /** The pixels min_x..max_x of one row. */
  method ZCols(sink: Sink, surf: Surface, k: Kernel, zbuf: array<Depth>, invArea: real, ghost w: int, ghost h: int,
               row: int, minX: int, maxX: int, y: int, ghost V0: SinkView, ghost R: Raster)
    requires ZKernel(k, invArea, sink.mode) && ZRowAt(sink, surf, zbuf, k, V0, R, w, h, y, minX, minX)
    requires Laid(zbuf.Length, row, w, h, y) && 0 <= minX <= maxX + 1 && maxX < w && 0 <= y < h
    modifies sink`points, surf, zbuf
    ensures ZRowAt(sink, surf, zbuf, k, V0, R, w, h, y, minX, maxX + 1)
  {
    var x := minX;
    while x <= maxX
      invariant minX <= x <= maxX + 1
      invariant ZRowAt(sink, surf, zbuf, k, V0, R, w, h, y, minX, x)
    {
      ZCell(sink, surf, k, zbuf, invArea, w, h, row, minX, x, y, V0, R);
      x := x + 1;
    }
  }

  /** Row y of a Z-buffered kernel has been scanned from column lo up to x,
      on a w by h surface. */
  ghost predicate ZRowAt(sink: Sink, surf: Surface, zbuf: array<Depth>, k: Kernel, V0: SinkView, R: Raster,
                         w: int, h: int, y: int, lo: int, x: int)
    reads sink, surf, zbuf
  {
    surf.img.width == w && surf.img.height == h && ZTracks(sink, surf, zbuf, V0, ScanRow(RuleOf(k), w, R, y, lo, x))
  }

  /** A depth buffer of n = w * h cells, with row y starting at cell row. */
  predicate Laid(n: int, row: int, w: int, h: int, y: int)
  {
    row == y * w && n == w * h
  }

  /** Column x of row y: one more pixel of the row's scan. */
  method ZCell(sink: Sink, surf: Surface, k: Kernel, zbuf: array<Depth>, invArea: real, ghost w: int, ghost h: int,
               row: int, lo: int, x: int, y: int, ghost V0: SinkView, ghost R: Raster)
    requires ZKernel(k, invArea, sink.mode) && ZRowAt(sink, surf, zbuf, k, V0, R, w, h, y, lo, x)
    requires Laid(zbuf.Length, row, w, h, y) && lo <= x && 0 <= x < w && 0 <= y < h
    modifies sink`points, surf, zbuf
    ensures ZRowAt(sink, surf, zbuf, k, V0, R, w, h, y, lo, x + 1)
  {
    ZPixel(sink, surf, k, zbuf, invArea, row, x, y, V0, ScanRow(RuleOf(k), w, R, y, lo, x));
    ScanRowNext(RuleOf(k), w, R, y, lo, x);
  }

  /** The depth buffer and the sink are where replaying R from V0 leaves them. */
  ghost predicate ZTracks(sink: Sink, surf: Surface, zbuf: array<Depth>, V0: SinkView, R: Raster)
    reads sink, surf, zbuf
  {
    surf.Valid() && V0.img.Valid() && zbuf[..] == R.zbuf && SinkView(sink.points, surf.img) == Replay(sink.mode, V0, R.evs)
  }

  /** One pixel of either Z-buffered kernel. */
  method ZPixel(sink: Sink, surf: Surface, k: Kernel, zbuf: array<Depth>, invArea: real,
                row: int, x: int, y: int, ghost V0: SinkView, ghost R: Raster)
    requires ZKernel(k, invArea, sink.mode) && ZTracks(sink, surf, zbuf, V0, R)
    requires row == y * surf.img.width && zbuf.Length == surf.img.width * surf.img.height
    requires 0 <= x < surf.img.width && 0 <= y < surf.img.height
    modifies sink`points, surf, zbuf
    ensures surf.img.width == old(surf.img.width) && surf.img.height == old(surf.img.height)
    ensures ZTracks(sink, surf, zbuf, V0, Step(RuleOf(k), surf.img.width, R, x, y))
  {
    FlatIndexInBounds(x, y, surf.img.width, surf.img.height);
    if k.FlatZ? {
      FlatZPixel(sink, surf, k, zbuf, invArea, row, x, y, V0, R);
    } else {
      TexturedPixel(sink, surf, k, zbuf, invArea, row, x, y, V0, R);
    }
  }

  /** The body of `triangle_filled_z`'s pixel loop. */
  method FlatZPixel(sink: Sink, surf: Surface, k: Kernel, zbuf: array<Depth>, invArea: real,
                    row: int, x: int, y: int, ghost V0: SinkView, ghost R: Raster)
    requires k.FlatZ? && Ready(k) && invArea == 1.0 / Area(XY(k.a), XY(k.b), XY(k.c))
    requires surf.Valid() && V0.img.Valid() && row == y * surf.img.width && 0 <= row + x < zbuf.Length
    requires zbuf[..] == R.zbuf && SinkView(sink.points, surf.img) == Replay(sink.mode, V0, R.evs)
    modifies sink`points, surf, zbuf
    ensures surf.Valid() && surf.img.width == old(surf.img.width) && surf.img.height == old(surf.img.height)
    ensures var r := Step(RuleOf(k), surf.img.width, R, x, y);
            zbuf[..] == r.zbuf && SinkView(sink.points, surf.img) == Replay(sink.mode, V0, r.evs)
  {
    var idx := row + x;
    var d := zbuf[idx];
    assert d == DepthOf(R.zbuf, y * surf.img.width + x);
    var write, z := DepthTest(k, invArea, x, y, d);
    ZRule(k, x, y, d);
    if write {
      zbuf[idx] := Fin(z);
      sink.Plot(surf, Vec2(x as real, y as real), k.col);
      ReplaySnoc(sink.mode, V0, R.evs, Put(Pixel(x, y), k.col));
    } else {
      assert R.evs + [] == R.evs;
    }
  }

  /** The inside test, then `z = alpha * a.z + beta * b.z + gamma * c.z`
      and `z < zbuf[idx]`: write says whether the pixel passes both. */
  method DepthTest(k: Kernel, invArea: real, x: int, y: int, d: Depth) returns (write: bool, z: real)
    requires !k.Flat? && Ready(k) && invArea == 1.0 / Area(XY(k.a), XY(k.b), XY(k.c))
    ensures Writes(k, x, y, d) == if write then Some(z) else None
  {
    var inside, alpha, beta, gamma := InsideAndWeights(k, invArea, x, y);
    ghost var wt := Weights(XY(k.a), XY(k.b), XY(k.c), x, y);
    z := alpha * k.a.z + beta * k.b.z + gamma * k.c.z;
    ZDecision(k, x, y, d, inside, wt, z);
    write := inside && Closer(z, d);
  }

  /** The three edge values of pixel centre (x, y), the inside test for
      either winding, and the barycentric weights `w_i * inv_area`. */
  method InsideAndWeights(k: Kernel, invArea: real, x: int, y: int) returns (inside: bool, alpha: real, beta: real, gamma: real)
    requires !k.Flat? && Ready(k) && invArea == 1.0 / Area(XY(k.a), XY(k.b), XY(k.c))
    ensures inside == Covers(XY(k.a), XY(k.b), XY(k.c), x, y)
    ensures (alpha, beta, gamma) == Weights(XY(k.a), XY(k.b), XY(k.c), x, y)
  {
    var a, b, c := k.a, k.b, k.c;
    var area := Edge(XY(a), XY(b), c.x, c.y);
    var px, py := x as real + 0.5, y as real + 0.5;
    var w0 := Edge(XY(b), XY(c), px, py);
    var w1 := Edge(XY(c), XY(a), px, py);
    var w2 := Edge(XY(a), XY(b), px, py);
    inside := if area > 0.0 then w0 >= 0.0 && w1 >= 0.0 && w2 >= 0.0 else w0 <= 0.0 && w1 <= 0.0 && w2 <= 0.0;
    assert px == Center(x) && py == Center(y);
    alpha := w0 * invArea;
    beta := w1 * invArea;
    gamma := w2 * invArea;
    assert alpha == Weights(XY(k.a), XY(k.b), XY(k.c), x, y).0;
    assert beta == Weights(XY(k.a), XY(k.b), XY(k.c), x, y).1;
    assert gamma == Weights(XY(k.a), XY(k.b), XY(k.c), x, y).2;
  }

  /** The inline inside test and depth of the Z-buffered kernels are their
      `Writes` rule. */
  lemma ZDecision(k: Kernel, x: int, y: int, d: Depth, inside: bool, wt: (real, real, real), z: real)
    requires !k.Flat? && Ready(k)
    requires inside == Covers(XY(k.a), XY(k.b), XY(k.c), x, y)
    requires wt == Weights(XY(k.a), XY(k.b), XY(k.c), x, y) && z == wt.0 * k.a.z + wt.1 * k.b.z + wt.2 * k.c.z
    ensures Writes(k, x, y, d) == if inside && Closer(z, d) then Some(z) else None
  {
    assert z == DepthAt(k.a, k.b, k.c, x, y);
  }

  /** A Z-buffered kernel's rule, applied. */
  lemma ZRule(k: Kernel, x: int, y: int, d: Depth)
    requires !k.Flat? && Ready(k)
    ensures RuleOf(k)(x, y, d) == Decision(Writes(k, x, y, d), Emit(k, x, y, d))
  {
  }

  /** The body of `triangle_textured_z`'s pixel loop: depth test and write,
      clamped UV lookup, alpha test, shading, then a plain or blended plot. */
  method TexturedPixel(sink: Sink, surf: Surface, k: Kernel, zbuf: array<Depth>, invArea: real,
                       row: int, x: int, y: int, ghost V0: SinkView, ghost R: Raster)
    requires k.Textured? && Ready(k) && invArea == 1.0 / Area(XY(k.a), XY(k.b), XY(k.c))
    requires k.deferred == (sink.mode == Deferred)
    requires surf.Valid() && V0.img.Valid() && row == y * surf.img.width && 0 <= row + x < zbuf.Length
    requires 0 <= x < surf.img.width && 0 <= y < surf.img.height
    requires zbuf[..] == R.zbuf && SinkView(sink.points, surf.img) == Replay(sink.mode, V0, R.evs)
    modifies sink`points, surf, zbuf
    ensures surf.Valid() && surf.img.width == old(surf.img.width) && surf.img.height == old(surf.img.height)
    ensures var r := Step(RuleOf(k), surf.img.width, R, x, y);
            zbuf[..] == r.zbuf && SinkView(sink.points, surf.img) == Replay(sink.mode, V0, r.evs)
  {
    var idx := row + x;
    var d := zbuf[idx];
    assert d == DepthOf(R.zbuf, y * surf.img.width + x);
    var write, z := DepthTest(k, invArea, x, y, d);
    ZRule(k, x, y, d);
    if write {
      zbuf[idx] := Fin(z);
      TexturedPlot(sink, surf, k, x, y, d, V0, R.evs);
    } else {
      assert R.evs + [] == R.evs;
    }
  }

  /** The rest of a textured pixel once its depth is written: the alpha
      test, shading, and a plain plot or a source-over blend. */
  method TexturedPlot(sink: Sink, surf: Surface, k: Kernel, x: int, y: int,
                      ghost d: Depth, ghost V0: SinkView, ghost evs: seq<Event>)
    requires k.Textured? && Ready(k) && k.deferred == (sink.mode == Deferred) && Writes(k, x, y, d).Some?
    requires surf.Valid() && V0.img.Valid() && 0 <= x < surf.img.width && 0 <= y < surf.img.height
    requires SinkView(sink.points, surf.img) == Replay(sink.mode, V0, evs)
    modifies sink`points, surf
    ensures surf.Valid() && surf.img.width == old(surf.img.width) && surf.img.height == old(surf.img.height)
    ensures SinkView(sink.points, surf.img) == Replay(sink.mode, V0, evs + Emit(k, x, y, d))
  {
    var t := Texel(k, x, y);
    if t.a == 0 {
      assert evs + [] == evs;
      return;
    }
    var src := Shaded(t, k.shade);
    if sink.mode == Deferred || t.a == 255 {
      sink.Plot(surf, Vec2(x as real, y as real), src);
      ReplaySnoc(sink.mode, V0, evs, Put(Pixel(x, y), src));
      return;
    }
    var out := BlendOver(src, surf.img.GetAt(x, y));
    sink.Plot(surf, Vec2(x as real, y as real), out);
    ReplaySnoc(sink.mode, V0, evs, Blend(x, y, src));
  }

  // ------------------------------------------------- the 2D primitives

  /** `point(surface, pos)`: `cpoint` in white. `cpoint` itself is `Sink.Plot`. */
  method Point(sink: Sink, surf: Surface, pos: Vec2)
    requires surf.Valid()
    modifies sink`points, surf
    ensures surf.Valid() && surf.img.width == old(surf.img.width) && surf.img.height == old(surf.img.height)
    ensures SinkView(sink.points, surf.img) == PlotAll(sink.mode, old(SinkView(sink.points, surf.img)), [Queued(pos, White)])
  {
    ghost var V0 := SinkView(sink.points, surf.img);
    sink.Plot(surf, pos, White);
    PlotAllSnoc(sink.mode, V0, [], Queued(pos, White));
    assert [] + [Queued(pos, White)] == [Queued(pos, White)];
  }

  /** `line(surface, a, b, c)`: the DDA walk from a towards b. */
  method Line(sink: Sink, surf: Surface, a: Vec2, b: Vec2, c: Color)
    requires surf.Valid()
    modifies sink`points, surf
    ensures surf.Valid() && surf.img.width == old(surf.img.width) && surf.img.height == old(surf.img.height)
    ensures SinkView(sink.points, surf.img) == PlotAll(sink.mode, old(SinkView(sink.points, surf.img)), LinePoints(a, b, c))
  {
    ghost var V0 := SinkView(sink.points, surf.img);
    var xd := b.x - a.x;
    var yd := b.y - a.y;
    var n := Trunc(Max(Abs(xd), Abs(yd)));
    if n == 0 {
      Point(sink, surf, a);
      return;
    }
    var dx := xd / n as real;
    var dy := yd / n as real;
    LineWalk(sink, surf, a, b, c, n, dx, dy, V0);
  }

  /** The `for` loop of `line`: n + 1 points, each a step (dx, dy) on. */
  method LineWalk(sink: Sink, surf: Surface, a: Vec2, b: Vec2, c: Color, n: nat, dx: real, dy: real, ghost V0: SinkView)
    requires n == LineSteps(a, b) && n > 0
    requires dx == (b.x - a.x) / n as real && dy == (b.y - a.y) / n as real
    requires Tracks(sink, surf, V0, [])
    modifies sink`points, surf
    ensures Tracks(sink, surf, V0, LinePoints(a, b, c))
  {
    ghost var ps := LinePoints(a, b, c);
    var px := a.x;
    var py := a.y;
    var i := 0;
    while i < n + 1
      invariant 0 <= i <= n + 1
      invariant px == Walked(a.x, dx, i) && py == Walked(a.y, dy, i)
      invariant Tracks(sink, surf, V0, ps[..i])
    {
      assert ps[i] == Queued(Vec2(px, py), c);
      sink.Plot(surf, Vec2(px, py), c);
      PlotAllSnoc(sink.mode, V0, ps[..i], ps[i]);
      assert ps[..i + 1] == ps[..i] + [ps[i]];
      NextStep(a.x, dx, i);
      NextStep(a.y, dy, i);
      px := px + dx;
      py := py + dy;
      i := i + 1;
    }
    assert ps[..n + 1] == ps;
  }

  /** `rline(surface, a, b)`: the recursive midpoint line, plotting the same
      white entries as the older layer's `rline`. */
  method RLine(sink: Sink, surf: Surface, a: Vec2, b: Vec2)
    requires surf.Valid()
    modifies sink`points, surf
    ensures surf.Valid() && surf.img.width == old(surf.img.width) && surf.img.height == old(surf.img.height)
    ensures SinkView(sink.points, surf.img) == PlotAll(sink.mode, old(SinkView(sink.points, surf.img)), Gra.RLinePoints(a, b))
    decreases Gra.RLineSize(a, b)
  {
    ghost var V0 := SinkView(sink.points, surf.img);
    var dx := Abs(b.x - a.x);
    var dy := Abs(b.y - a.y);
    if dx <= 1.0 && dy <= 1.0 {
      Point(sink, surf, a);
      ghost var V1 := SinkView(sink.points, surf.img);
      Point(sink, surf, b);
      PlotAllAppend(sink.mode, V0, [Queued(a, White)], [Queued(b, White)]);
      assert [Queued(a, White)] + [Queued(b, White)] == Gra.RLinePoints(a, b);
      return;
    }
    var m := Gra.Mid(a, b);
    Point(sink, surf, m);
    ghost var V1 := SinkView(sink.points, surf.img);
    Gra.HalvesShrink(a, b);
    RLine(sink, surf, a, m);
    ghost var V2 := SinkView(sink.points, surf.img);
    RLine(sink, surf, m, b);
    PlotAllAppend(sink.mode, V0, [Queued(m, White)], Gra.RLinePoints(a, m));
    PlotAllAppend(sink.mode, V0, [Queued(m, White)] + Gra.RLinePoints(a, m), Gra.RLinePoints(m, b));
  }

  /** `triangle_filled_scanline(surface, a, b, c, col)`. */
  method TriangleFilledScanline(sink: Sink, surf: Surface, a: Vec2, b: Vec2, c: Vec2, col: Color)
    requires surf.Valid()
    modifies sink`points, surf
    ensures surf.Valid() && surf.img.width == old(surf.img.width) && surf.img.height == old(surf.img.height)
    ensures SinkView(sink.points, surf.img)
         == PlotAll(sink.mode, old(SinkView(sink.points, surf.img)),
                    ScanlinePoints(a, b, c, col, old(surf.img.width), old(surf.img.height)))
  {
    ghost var V0 := SinkView(sink.points, surf.img);
    if Cross2(Sub2(b, a), Sub2(c, a)) == 0.0 {
      return;
    }
    var w: int := surf.img.width;
    var h: int := surf.img.height;
    var v := SortByY(a, b, c);
    var yStart := IMax(0, Ceil(v.0.y));
    var yEnd := IMin(h - 1, v.2.y.Floor);
    if yStart > yEnd {
      return;
    }
    ScanlineRows(sink, surf, v, col, w, yStart, yEnd, V0);
  }

  /** The row loop of `triangle_filled_scanline`. */
  method ScanlineRows(sink: Sink, surf: Surface, v: (Vec2, Vec2, Vec2), col: Color, w: int, yStart: int, yEnd: int,
                      ghost V0: SinkView)
    requires w == surf.img.width && yStart <= yEnd
    requires Tracks(sink, surf, V0, [])
    modifies sink`points, surf
    ensures Tracks(sink, surf, V0, GridRows(SpanCell(v, w, col), yStart, yEnd + 1, 0, w))
  {
    ghost var cell := SpanCell(v, w, col);
    var y := yStart;
    ghost var done: seq<Queued> := [];
    while y <= yEnd
      invariant yStart <= y <= yEnd + 1
      invariant w == surf.img.width
      invariant done == GridRows(cell, yStart, y, 0, w)
      invariant Tracks(sink, surf, V0, done)
    {
      ScanlineRow(sink, surf, v, col, w, y, V0, done);
      assert GridRows(cell, yStart, y + 1, 0, w) == done + GridRow(cell, y, 0, w);
      done := done + GridRow(cell, y, 0, w);
      y := y + 1;
    }
  }

  /** One row y of `triangle_filled_scanline`: the span at the pixel centre. */
  method ScanlineRow(sink: Sink, surf: Surface, v: (Vec2, Vec2, Vec2), col: Color, w: int, y: int,
                     ghost V0: SinkView, ghost pre: seq<Queued>)
    requires w == surf.img.width && Tracks(sink, surf, V0, pre)
    modifies sink`points, surf
    ensures w == surf.img.width && Tracks(sink, surf, V0, pre + GridRow(SpanCell(v, w, col), y, 0, w))
  {
    ghost var cell := SpanCell(v, w, col);
    // The span at the pixel centre y + 0.5, between the long edge v0 v2 and
    // whichever short edge spans that height, ordered left to right.
    var span := Span(v, y);
    var xa, xb := span.0, span.1;
    var xStart := IMax(0, Ceil(xa));
    var xEnd := IMin(w - 1, xb.Floor);
    if xStart > xEnd {
      GridRowQuiet(cell, y, 0, 0, w);
      assert pre + [] == pre;
      return;
    }
    GridRowQuiet(cell, y, 0, 0, xStart);
    assert pre + GridRow(cell, y, 0, xStart) == pre;
    SpanWalk(sink, surf, cell, col, y, xStart, xEnd, V0, pre);
    GridRowQuiet(cell, y, 0, xEnd + 1, w);
  }

  /** The column loop of one scanline row, over its clamped span. */
  method SpanWalk(sink: Sink, surf: Surface, ghost cell: Cell, col: Color, y: int, xStart: int, xEnd: int,
                  ghost V0: SinkView, ghost pre: seq<Queued>)
    requires 0 <= xStart <= xEnd
    requires forall x :: xStart <= x <= xEnd ==> cell(x, y) == Some(Queued(Pixel(x, y), col))
    requires Tracks(sink, surf, V0, pre + GridRow(cell, y, 0, xStart))
    modifies sink`points, surf
    ensures surf.img.width == old(surf.img.width)
    ensures Tracks(sink, surf, V0, pre + GridRow(cell, y, 0, xEnd + 1))
  {
    var x := xStart;
    ghost var done := pre + GridRow(cell, y, 0, xStart);
    while x <= xEnd
      invariant xStart <= x <= xEnd + 1
      invariant surf.img.width == old(surf.img.width)
      invariant done == pre + GridRow(cell, y, 0, x)
      invariant Tracks(sink, surf, V0, done)
    {
      var q := Queued(Pixel(x, y), col);
      PlotHit(sink, surf, Some(q), V0, done);
      GridRowNext(cell, y, 0, x, pre);
      done := done + Plots(Some(q));
      x := x + 1;
    }
  }

  /** The nested loops `for y in range(y0, y1): for x in range(x0, x1):`
      of `circle_fill_raster`, `circle_raster_lines` and `shader`, whose
      bodies differ only in the test; `cell(x, y)` is that body's test and
      the entry it plots. */
  method PlotCells(sink: Sink, surf: Surface, cell: Cell, y0: int, y1: int, x0: int, x1: int)
    requires surf.Valid()
    modifies sink`points, surf
    ensures surf.Valid() && surf.img.width == old(surf.img.width) && surf.img.height == old(surf.img.height)
    ensures SinkView(sink.points, surf.img) == PlotAll(sink.mode, old(SinkView(sink.points, surf.img)), GridRows(cell, y0, y1, x0, x1))
  {
    ghost var V0 := SinkView(sink.points, surf.img);
    if y1 <= y0 {
      return;
    }
    PlotCellRows(sink, surf, cell, y0, y1, x0, x1, V0);
  }

  /** The outer loop of `PlotCells`, over a non-empty row range. */
  method PlotCellRows(sink: Sink, surf: Surface, cell: Cell, y0: int, y1: int, x0: int, x1: int, ghost V0: SinkView)
    requires y0 < y1 && Tracks(sink, surf, V0, [])
    modifies sink`points, surf
    ensures Tracks(sink, surf, V0, GridRows(cell, y0, y1, x0, x1))
  {
    var y := y0;
    ghost var done: seq<Queued> := [];
    while y < y1
      invariant y0 <= y <= y1
      invariant done == GridRows(cell, y0, y, x0, x1)
      invariant Tracks(sink, surf, V0, done)
    {
      PlotCellRow(sink, surf, cell, y, x0, x1, V0, done);
      assert GridRows(cell, y0, y + 1, x0, x1) == done + GridRow(cell, y, x0, x1);
      done := done + GridRow(cell, y, x0, x1);
      y := y + 1;
    }
  }

  /** The inner loop of `PlotCells`: row y, columns x0 until x1. */
  method PlotCellRow(sink: Sink, surf: Surface, cell: Cell, y: int, x0: int, x1: int,
                     ghost V0: SinkView, ghost pre: seq<Queued>)
    requires Tracks(sink, surf, V0, pre)
    modifies sink`points, surf
    ensures Tracks(sink, surf, V0, pre + GridRow(cell, y, x0, x1))
  {
    assert pre + GridRow(cell, y, x0, x0) == pre;
    var x := x0;
    while x < x1
      invariant x0 <= x && (x <= x1 || x == x0)
      invariant Tracks(sink, surf, V0, pre + GridRow(cell, y, x0, x))
    {
      PlotCell(sink, surf, cell, y, x0, x, V0, pre);
      x := x + 1;
    }
    assert GridRow(cell, y, x0, x1) == GridRow(cell, y, x0, x);
  }

  /** One pass of the cell loop: evaluate cell (x, y) and plot its entry. */
  method PlotCell(sink: Sink, surf: Surface, cell: Cell, y: int, x0: int, x: int,
                  ghost V0: SinkView, ghost pre: seq<Queued>)
    requires x0 <= x && Tracks(sink, surf, V0, pre + GridRow(cell, y, x0, x))
    modifies sink`points, surf
    ensures Tracks(sink, surf, V0, pre + GridRow(cell, y, x0, x + 1))
  {
    var hit := cell(x, y);
    PlotHit(sink, surf, hit, V0, pre + GridRow(cell, y, x0, x));
    GridRowNext(cell, y, x0, x, pre);
  }

  lemma GridRowNext(cell: Cell, y: int, x0: int, x: int, pre: seq<Queued>)
    requires x0 <= x
    ensures pre + GridRow(cell, y, x0, x + 1) == (pre + GridRow(cell, y, x0, x)) + Plots(cell(x, y))
  {
    assert GridRow(cell, y, x0, x + 1) == GridRow(cell, y, x0, x) + Plots(cell(x, y));
  }

  /** The body of a cell loop: plot the cell's entry when its test holds. */
  method PlotHit(sink: Sink, surf: Surface, hit: Option<Queued>, ghost V0: SinkView, ghost pre: seq<Queued>)
    requires Tracks(sink, surf, V0, pre)
    modifies sink`points, surf
    ensures surf.img.width == old(surf.img.width) && surf.img.height == old(surf.img.height)
    ensures Tracks(sink, surf, V0, pre + Plots(hit))
  {
    if hit.Some? {
      sink.Plot(surf, hit.value.pos, hit.value.c);
      PlotAllSnoc(sink.mode, V0, pre, hit.value);
    } else {
      assert pre + Plots(hit) == pre;
    }
  }

  /** `circle_fill_raster(surface, p, r, c)`. */
  method CircleFillRaster(sink: Sink, surf: Surface, p: Vec2, r: int, c: Color)
    requires surf.Valid()
    modifies sink`points, surf
    ensures surf.Valid() && surf.img.width == old(surf.img.width) && surf.img.height == old(surf.img.height)
    ensures SinkView(sink.points, surf.img) == PlotAll(sink.mode, old(SinkView(sink.points, surf.img)), CircleFillPoints(p, r, c))
  {
    PlotCells(sink, surf, DiscCell(p, r, c), -r, r + 1, -r, r + 1);
  }

  /** `circle_raster_lines(surface, p, r, c, w)`, over its loop square `[-r, r]`. */
  method CircleRasterLines(sink: Sink, surf: Surface, p: Vec2, r: int, c: Color, w: int)
    requires surf.Valid()
    modifies sink`points, surf
    ensures surf.Valid() && surf.img.width == old(surf.img.width) && surf.img.height == old(surf.img.height)
    ensures SinkView(sink.points, surf.img) == PlotAll(sink.mode, old(SinkView(sink.points, surf.img)), CircleLinesPoints(p, r, c, w))
  {
    PlotCells(sink, surf, BandCell(p, r, w, c), -r, r + 1, -r, r + 1);
  }

  /** `shader(surface, func, args)`: plot every pixel func colours. */
  method Shader(sink: Sink, surf: Surface, f: ShaderFn)
    requires surf.Valid()
    modifies sink`points, surf
    ensures surf.Valid() && surf.img.width == old(surf.img.width) && surf.img.height == old(surf.img.height)
    ensures SinkView(sink.points, surf.img)
         == PlotAll(sink.mode, old(SinkView(sink.points, surf.img)), ShaderPoints(f, old(surf.img.width), old(surf.img.height)))
  {
    PlotCells(sink, surf, ShaderCell(f), 0, surf.img.height, 0, surf.img.width);
  }

  /** `circle_shader(surface, p, r, c)`: the shader with `c_shader`. */
  method CircleShader(sink: Sink, surf: Surface, p: Vec2, r: real, c: Color)
    requires surf.Valid()
    modifies sink`points, surf
    ensures surf.Valid() && surf.img.width == old(surf.img.width) && surf.img.height == old(surf.img.height)
    ensures SinkView(sink.points, surf.img)
         == PlotAll(sink.mode, old(SinkView(sink.points, surf.img)),
                    ShaderPoints(CircleShade(p, r, c), old(surf.img.width), old(surf.img.height)))
  {
    Shader(sink, surf, CircleShade(p, r, c));
  }
}
