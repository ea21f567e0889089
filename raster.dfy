/** What the triangle rasterizers compute, pixel by pixel. Each kernel scans
    the screen-clipped bounding box row by row (y outer, x inner), tests the
    pixel centre against the three edge functions, and (for the Z-buffered
    kernels) compares the interpolated depth with the flat depth buffer
    before writing it and plotting. `Scan` follows that loop literally, one
    pixel at a time over the live buffer; `Ordered` and `FinalAt` say the same
    thing without the sequential state, and `RasterizeOrder` proves them equal. */
module Raster {
  import opened Util
  import opened LinAlg
  import opened Scene
  import opened State

  /** A depth-buffer entry: `float("inf")` or a finite depth. */
  datatype Depth = Inf | Fin(z: real)

  /** `z < zbuf[idx]`, with infinity above every finite depth. */
  predicate Closer(z: real, d: Depth) {
    d.Inf? || z < d.z
  }

  /** d is at most as far as e. */
  predicate NoFarther(d: Depth, e: Depth) {
    e.Inf? || (d.Fin? && d.z <= e.z)
  }

  /** `edge(p0, p1, x, y)`: which side of the directed edge p0->p1 the point lies on. */
  function Edge(p0: Vec2, p1: Vec2, x: real, y: real): real {
    (x - p0.x) * (p1.y - p0.y) - (y - p0.y) * (p1.x - p0.x)
  }

  /** `area = edge(a, b, c.x, c.y)`: twice the signed area of the triangle. */
  function Area(a: Vec2, b: Vec2, c: Vec2): real {
    Edge(a, b, c.x, c.y)
  }

  /** The three edge values always add up to the signed area. */
  lemma EdgeSum(a: Vec2, b: Vec2, c: Vec2, x: real, y: real)
    ensures Edge(b, c, x, y) + Edge(c, a, x, y) + Edge(a, b, x, y) == Area(a, b, c)
  {
  }

  lemma EdgeReversed(p0: Vec2, p1: Vec2, x: real, y: real)
    ensures Edge(p1, p0, x, y) == -Edge(p0, p1, x, y)
  {
  }

  /** The pixel centre `x + 0.5`. */
  function Center(i: int): real {
    i as real + 0.5
  }

  /** The inside test, for either winding. */
  predicate Inside(area: real, w0: real, w1: real, w2: real) {
    if area > 0.0 then w0 >= 0.0 && w1 >= 0.0 && w2 >= 0.0
    else w0 <= 0.0 && w1 <= 0.0 && w2 <= 0.0
  }

  /** Does the centre of pixel (x, y) pass the inside test of triangle a, b, c? */
  predicate Covers(a: Vec2, b: Vec2, c: Vec2, x: int, y: int) {
    Inside(Area(a, b, c), Edge(b, c, Center(x), Center(y)),
           Edge(c, a, Center(x), Center(y)), Edge(a, b, Center(x), Center(y)))
  }

  /** Swapping b and c negates the area and every edge value, so a
      non-degenerate triangle covers the same pixels in either winding. */
  lemma CoversSwap(a: Vec2, b: Vec2, c: Vec2, x: int, y: int)
    requires Area(a, b, c) != 0.0
    ensures Covers(a, b, c, x, y) == Covers(a, c, b, x, y)
  {
    var px, py := Center(x), Center(y);
    EdgeReversed(b, c, px, py);
    EdgeReversed(a, b, px, py);
    EdgeReversed(c, a, px, py);
    AreaSwapped(a, b, c);
  }

  lemma AreaSwapped(a: Vec2, b: Vec2, c: Vec2)
    ensures Area(a, c, b) == -Area(a, b, c)
  {
  }

  /** `alpha, beta, gamma = w0 * inv_area, w1 * inv_area, w2 * inv_area`. */
  function Weights(a: Vec2, b: Vec2, c: Vec2, x: int, y: int): (r: (real, real, real))
    requires Area(a, b, c) != 0.0
    ensures r.0 + r.1 + r.2 == 1.0
  {
    var px, py := Center(x), Center(y);
    var inv := 1.0 / Area(a, b, c);
    EdgeSum(a, b, c, px, py);
    assert Area(a, b, c) * inv == 1.0;
    assert Edge(b, c, px, py) * inv + Edge(c, a, px, py) * inv + Edge(a, b, px, py) * inv
        == (Edge(b, c, px, py) + Edge(c, a, px, py) + Edge(a, b, px, py)) * inv;
    (Edge(b, c, px, py) * inv, Edge(c, a, px, py) * inv, Edge(a, b, px, py) * inv)
  }

  /** On a covered pixel no weight is negative. */
  lemma WeightsNonNegative(a: Vec2, b: Vec2, c: Vec2, x: int, y: int)
    requires Area(a, b, c) != 0.0 && Covers(a, b, c, x, y)
    ensures var w := Weights(a, b, c, x, y); w.0 >= 0.0 && w.1 >= 0.0 && w.2 >= 0.0
  {
    var px, py := Center(x), Center(y);
    var area := Area(a, b, c);
    var inv := 1.0 / area;
    if area > 0.0 {
      assert inv > 0.0;
      MulSigns(Edge(b, c, px, py), inv);
      MulSigns(Edge(c, a, px, py), inv);
      MulSigns(Edge(a, b, px, py), inv);
    } else {
      assert inv < 0.0;
      MulSigns(Edge(b, c, px, py), inv);
      MulSigns(Edge(c, a, px, py), inv);
      MulSigns(Edge(a, b, px, py), inv);
    }
  }

  lemma MulSigns(p: real, q: real)
    ensures p >= 0.0 && q >= 0.0 ==> p * q >= 0.0
    ensures p <= 0.0 && q <= 0.0 ==> p * q >= 0.0
  {
  }

  lemma MulLeft(s: real, p: real, q: real)
    requires s >= 0.0 && p <= q
    ensures s * p <= s * q
  {
    assert s * q - s * p == s * (q - p);
  }

  lemma MulRight(p: real, q: real, s: real)
    requires s >= 0.0 && p <= q
    ensures p * s <= q * s
  {
    assert q * s - p * s == (q - p) * s;
  }

  lemma MulNonNeg(p: real, s: real)
    requires p >= 0.0 && s >= 0.0
    ensures p * s >= 0.0
  {
  }

  lemma Distrib3(w0: real, w1: real, w2: real, m: real)
    ensures w0 * m + w1 * m + w2 * m == (w0 + w1 + w2) * m
  {
  }

  function XY(v: Vec3): Vec2 {
    Vec2(v.x, v.y)
  }

  /** `z = alpha * a.z + beta * b.z + gamma * c.z`. */
  function DepthAt(a: Vec3, b: Vec3, c: Vec3, x: int, y: int): (z: real)
    requires Area(XY(a), XY(b), XY(c)) != 0.0
    ensures a.z == b.z == c.z ==> z == a.z
  {
    var w := Weights(XY(a), XY(b), XY(c), x, y);
    assert w.0 * a.z + w.1 * a.z + w.2 * a.z == (w.0 + w.1 + w.2) * a.z;
    w.0 * a.z + w.1 * b.z + w.2 * c.z
  }

  /** On a covered pixel the interpolated depth lies between the nearest and
      the farthest vertex depth. */
  lemma DepthBetweenVertices(a: Vec3, b: Vec3, c: Vec3, x: int, y: int)
    requires Area(XY(a), XY(b), XY(c)) != 0.0 && Covers(XY(a), XY(b), XY(c), x, y)
    ensures Min3(a.z, b.z, c.z) <= DepthAt(a, b, c, x, y) <= Max3(a.z, b.z, c.z)
  {
    var w := Weights(XY(a), XY(b), XY(c), x, y);
    WeightsNonNegative(XY(a), XY(b), XY(c), x, y);
    Convex(w.0, w.1, w.2, a.z, b.z, c.z, DepthAt(a, b, c, x, y));
  }

  /** One plotted pixel: an opaque `PLOT(Vec2(x, y), c)`, or the source-over
      blend that reads the destination pixel first. */
  datatype Event = Put(pos: Vec2, c: Color) | Blend(x: int, y: int, src: Color)

  /** The event plots pixel (x, y). */
  predicate At(e: Event, x: int, y: int) {
    match e
    case Put(pos, _) => pos == Pixel(x, y)
    case Blend(ex, ey, _) => ex == x && ey == y
  }

  /** Source-over compositing of src onto dst with src's alpha. */
  function BlendOver(src: Color, dst: Color): (r: Color)
    ensures ColorOk(src) && ColorOk(dst) ==> ColorOk(r)
  {
    var sa := src.a as real / 255.0;
    Color(OverChannel(src.r, dst.r, sa), OverChannel(src.g, dst.g, sa), OverChannel(src.b, dst.b, sa),
          OverAlpha(src.a, dst.a))
  }

  /** One colour channel composited: `int(s * sa + d * (1 - sa))`. */
  function OverChannel(s: int, d: int, sa: real): (r: int)
    ensures 0 <= s <= 255 && 0 <= d <= 255 && 0.0 <= sa <= 1.0 ==> 0 <= r <= 255
  {
    var v := s as real * sa + d as real * (1.0 - sa);
    if 0 <= s <= 255 && 0 <= d <= 255 && 0.0 <= sa <= 1.0 then
      Mix255(s as real, d as real, sa);
      Trunc(v)
    else Trunc(v)
  }

  /** The composited alpha: `int(a + da * (1 - a/255))`. */
  function OverAlpha(a: int, d: int): (r: int)
    ensures 0 <= a <= 255 && 0 <= d <= 255 ==> 0 <= r <= 255
  {
    var v := a as real + d as real * (1.0 - a as real / 255.0);
    if 0 <= a <= 255 && 0 <= d <= 255 then
      AlphaOver(a as real, d as real);
      Trunc(v)
    else Trunc(v)
  }

  /** A convex mix of two channel values stays a channel value. */
  lemma Mix255(p: real, q: real, t: real)
    requires 0.0 <= p <= 255.0 && 0.0 <= q <= 255.0 && 0.0 <= t <= 1.0
    ensures 0.0 <= p * t + q * (1.0 - t) <= 255.0
  {
    MulNonNeg(p, t); MulRight(p, 255.0, t);
    MulNonNeg(q, 1.0 - t); MulRight(q, 255.0, 1.0 - t);
    MixUpper(p, q, t);
  }

  lemma MixUpper(p: real, q: real, t: real)
    requires p * t <= 255.0 * t && q * (1.0 - t) <= 255.0 * (1.0 - t)
    ensures p * t + q * (1.0 - t) <= 255.0
  {
  }

  /** The composited alpha `a + da * (1 - a/255)` never exceeds 255. */
  lemma AlphaOver(a: real, d: real)
    requires 0.0 <= a <= 255.0 && 0.0 <= d <= 255.0
    ensures 0.0 <= a + d * (1.0 - a / 255.0) <= 255.0
  {
    MulNonNeg(d, 1.0 - a / 255.0);
    MulRight(d, 255.0, 1.0 - a / 255.0);
  }

  /** The effect of one event on the sink and the surface. A blend reads the
      destination pixel, which the kernels only do on the surface. */
  function Apply(mode: PlotMode, v: SinkView, e: Event): (r: SinkView)
    requires v.img.Valid()
    ensures r.img.Valid() && r.img.width == v.img.width && r.img.height == v.img.height
  {
    match e
    case Put(pos, c) => PlotStep(mode, v, pos, c)
    case Blend(x, y, src) =>
      if 0 <= x < v.img.width && 0 <= y < v.img.height
      then PlotStep(mode, v, Pixel(x, y), BlendOver(src, v.img.GetAt(x, y)))
      else v
  }

  /** The sink and surface after a sequence of events, in order. */
  function Replay(mode: PlotMode, v: SinkView, evs: seq<Event>): (r: SinkView)
    requires v.img.Valid()
    ensures r.img.Valid() && r.img.width == v.img.width && r.img.height == v.img.height
    decreases |evs|
  {
    if evs == [] then v else Apply(mode, Replay(mode, v, evs[..|evs| - 1]), evs[|evs| - 1])
  }

  lemma {:induction false} ReplayAppend(mode: PlotMode, v: SinkView, e1: seq<Event>, e2: seq<Event>)
    requires v.img.Valid()
    ensures Replay(mode, v, e1 + e2) == Replay(mode, Replay(mode, v, e1), e2)
    decreases |e2|
  {
    if e2 == [] {
      assert e1 + e2 == e1;
    } else {
      var e2' := e2[..|e2| - 1];
      assert (e1 + e2)[..|e1 + e2| - 1] == e1 + e2';
      ReplayAppend(mode, v, e1, e2');
    }
  }

  /** Replaying one more event applies it last. */
  lemma ReplaySnoc(mode: PlotMode, v: SinkView, evs: seq<Event>, e: Event)
    requires v.img.Valid()
    ensures Replay(mode, v, evs + [e]) == Apply(mode, Replay(mode, v, evs), e)
  {
    assert (evs + [e])[..|evs|] == evs;
  }

  /** The pixel bounds `min_x..max_x`, `min_y..max_y` of a kernel. */
  datatype Box = Box(minX: int, maxX: int, minY: int, maxY: int)

  predicate InBox(b: Box, x: int, y: int) {
    b.minX <= x <= b.maxX && b.minY <= y <= b.maxY
  }

  predicate EmptyBox(b: Box) {
    b.minX > b.maxX || b.minY > b.maxY
  }

  /** The triangle's floor/ceil bounding box clamped to a w x h surface. */
  function BBox(a: Vec2, b: Vec2, c: Vec2, w: int, h: int): (r: Box)
    ensures 0 <= r.minX && r.maxX <= w - 1 && 0 <= r.minY && r.maxY <= h - 1
  {
    Box(IMax(0, Min3(a.x, b.x, c.x).Floor), IMin(w - 1, Ceil(Max3(a.x, b.x, c.x))),
        IMax(0, Min3(a.y, b.y, c.y).Floor), IMin(h - 1, Ceil(Max3(a.y, b.y, c.y))))
  }

  /** The edge values reconstruct the sample point: x = Σ wᵢ·vertexᵢ / area. */
  lemma Reconstruct(a: Vec2, b: Vec2, c: Vec2, px: real, py: real)
    ensures Edge(b, c, px, py) * a.x + Edge(c, a, px, py) * b.x + Edge(a, b, px, py) * c.x == Area(a, b, c) * px
    ensures Edge(b, c, px, py) * a.y + Edge(c, a, px, py) * b.y + Edge(a, b, px, py) * c.y == Area(a, b, c) * py
  {
    // Relative to a, with U = b - a, V = c - a and P = p - a.
    var ux, uy, vx, vy, qx, qy := b.x - a.x, b.y - a.y, c.x - a.x, c.y - a.y, px - a.x, py - a.y;
    var w0, w1, w2 := Edge(b, c, px, py), Edge(c, a, px, py), Edge(a, b, px, py);
    var area := Area(a, b, c);
    assert w1 == qy * vx - qx * vy;
    assert w2 == qx * uy - qy * ux;
    assert area == vx * uy - vy * ux;
    EdgeSum(a, b, c, px, py);
    RelativeReconstruct(ux, uy, vx, vy, qx, qy);
    RelativeReconstruct(uy, ux, vy, vx, qy, qx);
    assert w0 * a.x + w1 * b.x + w2 * c.x == (w0 + w1 + w2) * a.x + w1 * ux + w2 * vx;
    assert w0 * a.y + w1 * b.y + w2 * c.y == (w0 + w1 + w2) * a.y + w1 * uy + w2 * vy;
  }

  lemma RelativeReconstruct(ux: real, uy: real, vx: real, vy: real, qx: real, qy: real)
    ensures (qy * vx - qx * vy) * ux + (qx * uy - qy * ux) * vx == qx * (vx * uy - vy * ux)
  {
  }

  /** A weighted average with non-negative weights summing to 1 stays within
      the smallest and largest value. */
  lemma Convex(w0: real, w1: real, w2: real, p: real, q: real, s: real, v: real)
    requires w0 >= 0.0 && w1 >= 0.0 && w2 >= 0.0 && w0 + w1 + w2 == 1.0
    requires v == w0 * p + w1 * q + w2 * s
    ensures Min3(p, q, s) <= v <= Max3(p, q, s)
  {
    var lo, hi := Min3(p, q, s), Max3(p, q, s);
    Shift(w0, w1, w2, p, q, s, lo);
    MulNonNeg(w0, p - lo); MulNonNeg(w1, q - lo); MulNonNeg(w2, s - lo);
    Shift(w0, w1, w2, p, q, s, hi);
    MulNonNeg(w0, hi - p); MulNonNeg(w1, hi - q); MulNonNeg(w2, hi - s);
    assert w0 * (p - hi) == -(w0 * (hi - p));
    assert w1 * (q - hi) == -(w1 * (hi - q));
    assert w2 * (s - hi) == -(w2 * (hi - s));
  }

  /** With weights summing to 1, the average minus m is the average of the differences. */
  lemma Shift(w0: real, w1: real, w2: real, p: real, q: real, s: real, m: real)
    requires w0 + w1 + w2 == 1.0
    ensures w0 * p + w1 * q + w2 * s - m == w0 * (p - m) + w1 * (q - m) + w2 * (s - m)
  {
    assert (w0 + w1 + w2) * m == m;
  }

  /** A covered pixel centre lies within the triangle's extent, so clamping
      the scan to the bounding box never skips a covered on-screen pixel. */
  lemma CoveredInBox(a: Vec2, b: Vec2, c: Vec2, x: int, y: int, w: int, h: int)
    requires Area(a, b, c) != 0.0 && Covers(a, b, c, x, y)
    requires 0 <= x < w && 0 <= y < h
    ensures InBox(BBox(a, b, c, w, h), x, y)
  {
    var px, py := Center(x), Center(y);
    var wt := Weights(a, b, c, x, y);
    WeightsNonNegative(a, b, c, x, y);
    var inv := 1.0 / Area(a, b, c);
    Reconstruct(a, b, c, px, py);
    assert wt.0 * a.x + wt.1 * b.x + wt.2 * c.x
        == (Edge(b, c, px, py) * a.x + Edge(c, a, px, py) * b.x + Edge(a, b, px, py) * c.x) * inv;
    assert wt.0 * a.y + wt.1 * b.y + wt.2 * c.y
        == (Edge(b, c, px, py) * a.y + Edge(c, a, px, py) * b.y + Edge(a, b, px, py) * c.y) * inv;
    Convex(wt.0, wt.1, wt.2, a.x, b.x, c.x, px);
    Convex(wt.0, wt.1, wt.2, a.y, b.y, c.y, py);
  }

  /** `tx = int(u * (tw - 1))` on a clamped coordinate. */
  function TexCoord(u: real, n: int): (t: int)
    requires 0.0 <= u <= 1.0 && n >= 1
    ensures 0 <= t <= n - 1
  {
    var m := (n - 1) as real;
    UnitScale(u, m);
    Trunc(u * m)
  }

  lemma UnitScale(u: real, m: real)
    requires 0.0 <= u <= 1.0 && m >= 0.0
    ensures 0.0 <= u * m <= m
  {
    MulNonNeg(u, m);
    MulRight(u, 1.0, m);
  }

  /** `min(255, int(ch * shade))` with the shade factor clamped at zero. */
  function ShadeChannel(ch: int, shade: real): (r: int)
    requires 0 <= ch <= 255
    ensures 0 <= r <= 255
    ensures shade <= 0.0 ==> r == 0
  {
    MulNonNeg(ch as real, Max(0.0, shade));
    IMin(255, Trunc(ch as real * Max(0.0, shade)))
  }

  /** Each rasterizer's inputs; its per-pixel rule is `Writes` and `Emit`. */
  datatype Kernel =
    | Flat(fa: Vec2, fb: Vec2, fc: Vec2, col: Color)
    | FlatZ(a: Vec3, b: Vec3, c: Vec3, col: Color)
    | Textured(a: Vec3, b: Vec3, c: Vec3, uva: Vec2, uvb: Vec2, uvc: Vec2,
               tex: Image, shade: Vec3, deferred: bool)

  function Corners(k: Kernel): (Vec2, Vec2, Vec2) {
    match k
    case Flat(a, b, c, _) => (a, b, c)
    case FlatZ(a, b, c, _) => (XY(a), XY(b), XY(c))
    case Textured(a, b, c, _, _, _, _, _, _) => (XY(a), XY(b), XY(c))
  }

  /** A texture that `get_at` can be sampled on: a non-empty grid of 8-bit RGBA pixels. */
  predicate TexOk(k: Kernel) {
    k.Textured? ==> ImageOk(k.tex) && k.tex.width >= 1 && k.tex.height >= 1
  }

  /** The scan only runs on a non-degenerate triangle. */
  predicate Ready(k: Kernel) {
    var (a, b, c) := Corners(k);
    Area(a, b, c) != 0.0 && TexOk(k)
  }

  /** The depth the kernel stores at pixel (x, y) over the stored depth d:
      the interpolated z of a covered pixel that is strictly closer. */
  function Writes(k: Kernel, x: int, y: int, d: Depth): (r: Option<real>)
    requires Ready(k)
    ensures r.Some? ==> Closer(r.value, d) && !k.Flat?
  {
    match k
    case Flat(_, _, _, _) => None
    case FlatZ(a, b, c, _) =>
      if Covers(XY(a), XY(b), XY(c), x, y) && Closer(DepthAt(a, b, c, x, y), d)
      then Some(DepthAt(a, b, c, x, y)) else None
    case Textured(a, b, c, _, _, _, _, _, _) =>
      if Covers(XY(a), XY(b), XY(c), x, y) && Closer(DepthAt(a, b, c, x, y), d)
      then Some(DepthAt(a, b, c, x, y)) else None
  }

  /** The texel a textured pixel samples, with its UV clamped to [0, 1]. */
  function Texel(k: Kernel, x: int, y: int): (t: Color)
    requires Ready(k) && k.Textured?
    ensures ColorOk(t)
  {
    var w := Weights(XY(k.a), XY(k.b), XY(k.c), x, y);
    var u := ClampR(w.0 * k.uva.x + w.1 * k.uvb.x + w.2 * k.uvc.x, 0.0, 1.0);
    var v := ClampR(w.0 * k.uva.y + w.1 * k.uvb.y + w.2 * k.uvc.y, 0.0, 1.0);
    k.tex.GetAt(TexCoord(u, k.tex.width), TexCoord(v, k.tex.height))
  }

  /** The shaded source colour `(sr, sg, sb, a_)` of a texel. */
  function Shaded(t: Color, shade: Vec3): (r: Color)
    requires ColorOk(t)
    ensures ColorOk(r) && r.a == t.a
  {
    Color(ShadeChannel(t.r, shade.x), ShadeChannel(t.g, shade.y), ShadeChannel(t.b, shade.z), t.a)
  }

  /** What the kernel plots at pixel (x, y) when the stored depth is d. */
  function Emit(k: Kernel, x: int, y: int, d: Depth): (r: seq<Event>)
    requires Ready(k)
    ensures |r| <= 1 && forall i :: 0 <= i < |r| ==> At(r[i], x, y)
  {
    match k
    case Flat(a, b, c, col) => if Covers(a, b, c, x, y) then [Put(Pixel(x, y), col)] else []
    case FlatZ(_, _, _, col) => if Writes(k, x, y, d).Some? then [Put(Pixel(x, y), col)] else []
    case Textured(_, _, _, _, _, _, tex, shade, deferred) =>
      if Writes(k, x, y, d).None? then []
      else
        var t := Texel(k, x, y);
        if t.a == 0 then []
        else if deferred || t.a == 255 then [Put(Pixel(x, y), Shaded(t, shade))]
        else [Blend(x, y, Shaded(t, shade))]
  }

  /** A kernel's decision at one pixel: the depth to store, and what to plot. */
  datatype Decision = Decision(write: Option<real>, evs: seq<Event>)

  function Decide(k: Kernel, x: int, y: int, d: Depth): Decision {
    if Ready(k) then Decision(Writes(k, x, y, d), Emit(k, x, y, d)) else Decision(None, [])
  }

  /** A per-pixel rule, over the pixel and the depth stored there. */
  type Rule = (int, int, Depth) -> Decision

  function RuleOf(k: Kernel): Rule {
    (x: int, y: int, d: Depth) => Decide(k, x, y, d)
  }

  /** A rule stores only strictly closer depths and plots at most its own pixel. */
  ghost predicate Sound(rule: Rule) {
    forall x: int, y: int, d: Depth ::
      (rule(x, y, d).write.Some? ==> Closer(rule(x, y, d).write.value, d)) &&
      |rule(x, y, d).evs| <= 1 &&
      (|rule(x, y, d).evs| == 1 ==> At(rule(x, y, d).evs[0], x, y))
  }

  lemma KernelSound(k: Kernel)
    ensures Sound(RuleOf(k))
  {
    forall x: int, y: int, d: Depth
      ensures var r := RuleOf(k)(x, y, d);
        (r.write.Some? ==> Closer(r.write.value, d)) && |r.evs| <= 1 && (|r.evs| == 1 ==> At(r.evs[0], x, y))
    {
      assert RuleOf(k)(x, y, d) == Decide(k, x, y, d);
    }
  }

  /** The kernel's state as it scans: the depth buffer and the plots so far. */
  datatype Raster = Raster(zbuf: seq<Depth>, evs: seq<Event>)

  /** The stored depth at a flat index, or infinity past the buffer's end. */
  function DepthOf(zb: seq<Depth>, idx: int): Depth {
    if 0 <= idx < |zb| then zb[idx] else Inf
  }

  /** One iteration of the inner pixel loop at (x, y), reading the live buffer. */
  function Step(rule: Rule, w: int, r: Raster, x: int, y: int): Raster {
    var idx := y * w + x;
    var dec := rule(x, y, DepthOf(r.zbuf, idx));
    var zb := if 0 <= idx < |r.zbuf| && dec.write.Some? then r.zbuf[idx := Fin(dec.write.value)] else r.zbuf;
    Raster(zb, r.evs + dec.evs)
  }

  /** The inner loop over x in [lo, hi) of row y. */
  function ScanRow(rule: Rule, w: int, r: Raster, y: int, lo: int, hi: int): Raster
    decreases hi - lo
  {
    if hi <= lo then r else Step(rule, w, ScanRow(rule, w, r, y, lo, hi - 1), hi - 1, y)
  }

  /** The outer loop over the rows box.minY until yEnd. */
  function Scan(rule: Rule, w: int, r: Raster, box: Box, yEnd: int): Raster
    decreases yEnd - box.minY
  {
    if yEnd <= box.minY then r
    else ScanRow(rule, w, Scan(rule, w, r, box, yEnd - 1), yEnd - 1, box.minX, box.maxX + 1)
  }

  /** The next pixel of a row, or the next row of a scan, is one more step. */
  lemma ScanRowNext(rule: Rule, w: int, r: Raster, y: int, lo: int, x: int)
    requires lo <= x
    ensures ScanRow(rule, w, r, y, lo, x + 1) == Step(rule, w, ScanRow(rule, w, r, y, lo, x), x, y)
  {
  }

  lemma ScanNext(rule: Rule, w: int, r: Raster, box: Box, y: int)
    requires box.minY <= y
    ensures Scan(rule, w, r, box, y + 1) == ScanRow(rule, w, Scan(rule, w, r, box, y), y, box.minX, box.maxX + 1)
  {
  }

  function KernelBox(k: Kernel, w: int, h: int): Box {
    var (a, b, c) := Corners(k);
    BBox(a, b, c, w, h)
  }

  /** Does the kernel scan at all: a non-empty clamped box and a
      non-degenerate triangle. */
  predicate Runs(k: Kernel, w: int, h: int) {
    var (a, b, c) := Corners(k);
    !EmptyBox(KernelBox(k, w, h)) && Area(a, b, c) != 0.0
  }

  /** A whole kernel call: nothing when the clamped box is empty or the
      triangle is degenerate, else the scan of the box. */
  function Rasterize(k: Kernel, w: int, h: int, r: Raster): Raster
    requires TexOk(k)
  {
    var box := KernelBox(k, w, h);
    if Runs(k, w, h) then Scan(RuleOf(k), w, r, box, box.maxY + 1) else r
  }

  // ---- The same result without the sequential buffer ----

  /** Row y's plots, each decided against the ORIGINAL depth buffer z0. */
  function OrderRow(rule: Rule, w: int, z0: seq<Depth>, y: int, lo: int, hi: int): seq<Event>
    decreases hi - lo
  {
    if hi <= lo then [] else OrderRow(rule, w, z0, y, lo, hi - 1) + rule(hi - 1, y, DepthOf(z0, y * w + hi - 1)).evs
  }

  /** All plots of rows box.minY until yEnd, in row-major order. */
  function Ordered(rule: Rule, w: int, z0: seq<Depth>, box: Box, yEnd: int): seq<Event>
    decreases yEnd - box.minY
  {
    if yEnd <= box.minY then []
    else Ordered(rule, w, z0, box, yEnd - 1) + OrderRow(rule, w, z0, yEnd - 1, box.minX, box.maxX + 1)
  }

  /** The final depth at flat index j = y*w + x of a scanned pixel. */
  function FinalAt(rule: Rule, z0: seq<Depth>, x: int, y: int, j: int): Depth
    requires 0 <= j < |z0|
  {
    match rule(x, y, z0[j]).write
    case Some(z) => Fin(z)
    case None => z0[j]
  }

  /** Pixel (x, y) of the box comes before the scan position (x0, y0). */
  predicate Before(box: Box, y0: int, x0: int, x: int, y: int) {
    InBox(box, x, y) && (y < y0 || (y == y0 && x < x0))
  }

  /** The buffer once the scan reaches (x0, y0): FinalAt on every pixel
      scanned before it and the original entry everywhere else. */
  function Expected(rule: Rule, w: int, z0: seq<Depth>, box: Box, y0: int, x0: int): (zb: seq<Depth>)
    requires w > 0
    ensures |zb| == |z0|
  {
    seq(|z0|, j requires 0 <= j < |z0| =>
      if Before(box, y0, x0, j % w, j / w) then FinalAt(rule, z0, j % w, j / w, j) else z0[j])
  }

  /** The box sits on a w-wide surface. */
  predicate BoxFits(box: Box, w: int) {
    w > 0 && 0 <= box.minX && box.maxX < w && 0 <= box.minY
  }

  lemma FlatIndexParts(x: int, y: int, w: int)
    requires 0 <= x < w && 0 <= y
    ensures (y * w + x) % w == x && (y * w + x) / w == y
  {
    var j := y * w + x;
    FlatIndexSplit(j, w);
    FlatIndexInjective(x, y, j % w, j / w, w);
  }

  /** One step moves the expected buffer one pixel on, and reads the
      original depth of its pixel. */
  lemma StepInvariant(rule: Rule, w: int, z0: seq<Depth>, r: Raster, box: Box, y: int, x: int)
    requires BoxFits(box, w) && InBox(box, x, y)
    requires r.zbuf == Expected(rule, w, z0, box, y, x)
    ensures DepthOf(r.zbuf, y * w + x) == DepthOf(z0, y * w + x)
    ensures Step(rule, w, r, x, y).zbuf == Expected(rule, w, z0, box, y, x + 1)
    ensures Step(rule, w, r, x, y).evs == r.evs + rule(x, y, DepthOf(z0, y * w + x)).evs
  {
    var idx := y * w + x;
    FlatIndexParts(x, y, w);
    var zb' := Step(rule, w, r, x, y).zbuf;
    var goal := Expected(rule, w, z0, box, y, x + 1);
    forall j | 0 <= j < |z0|
      ensures zb'[j] == goal[j]
    {
      FlatIndexSplit(j, w);
      if j != idx {
        if j % w == x && j / w == y {
          assert false;
        }
      }
    }
    assert zb' == goal;
  }

  lemma {:induction false} ScanRowInvariant(rule: Rule, w: int, z0: seq<Depth>, r: Raster,
                                             box: Box, y: int, hi: int)
    requires BoxFits(box, w) && box.minY <= y <= box.maxY
    requires box.minX <= hi <= box.maxX + 1
    requires r.zbuf == Expected(rule, w, z0, box, y, box.minX)
    ensures ScanRow(rule, w, r, y, box.minX, hi).zbuf == Expected(rule, w, z0, box, y, hi)
    ensures ScanRow(rule, w, r, y, box.minX, hi).evs == r.evs + OrderRow(rule, w, z0, y, box.minX, hi)
    decreases hi - box.minX
  {
    if hi > box.minX {
      ScanRowInvariant(rule, w, z0, r, box, y, hi - 1);
      var prev := ScanRow(rule, w, r, y, box.minX, hi - 1);
      StepInvariant(rule, w, z0, prev, box, y, hi - 1);
      assert r.evs + OrderRow(rule, w, z0, y, box.minX, hi - 1) + rule(hi - 1, y, DepthOf(z0, y * w + hi - 1)).evs
          == r.evs + OrderRow(rule, w, z0, y, box.minX, hi);
    }
  }

  lemma NextRow(rule: Rule, w: int, z0: seq<Depth>, box: Box, y: int)
    requires w > 0
    ensures Expected(rule, w, z0, box, y, box.maxX + 1) == Expected(rule, w, z0, box, y + 1, box.minX)
  {
  }

  lemma NothingBefore(rule: Rule, w: int, z0: seq<Depth>, box: Box, y: int)
    requires w > 0 && y <= box.minY
    ensures Expected(rule, w, z0, box, y, box.minX) == z0
  {
    var goal := Expected(rule, w, z0, box, y, box.minX);
    assert forall j :: 0 <= j < |z0| ==> goal[j] == z0[j];
  }

  /** The whole box scanned: the buffer holds FinalAt inside the box and the
      original entries outside it, and the plots are the row-major list. */
  lemma ScanBox(rule: Rule, w: int, z0: seq<Depth>, box: Box)
    requires BoxFits(box, w) && !EmptyBox(box)
    ensures var r := Scan(rule, w, Raster(z0, []), box, box.maxY + 1);
            |r.zbuf| == |z0| && r.evs == Ordered(rule, w, z0, box, box.maxY + 1) &&
            forall j :: 0 <= j < |z0| ==>
              r.zbuf[j] == if InBox(box, j % w, j / w) then FinalAt(rule, z0, j % w, j / w, j) else z0[j]
  {
    ScanInvariant(rule, w, z0, [], box, box.maxY + 1);
    assert [] + Ordered(rule, w, z0, box, box.maxY + 1) == Ordered(rule, w, z0, box, box.maxY + 1);
  }

  lemma {:induction false} ScanInvariant(rule: Rule, w: int, z0: seq<Depth>, E: seq<Event>,
                                          box: Box, yEnd: int)
    requires BoxFits(box, w) && box.minX <= box.maxX + 1 && box.minY <= yEnd <= box.maxY + 1
    ensures Scan(rule, w, Raster(z0, E), box, yEnd).zbuf == Expected(rule, w, z0, box, yEnd, box.minX)
    ensures Scan(rule, w, Raster(z0, E), box, yEnd).evs == E + Ordered(rule, w, z0, box, yEnd)
    decreases yEnd - box.minY
  {
    if yEnd <= box.minY {
      assert E + [] == E;
      NothingBefore(rule, w, z0, box, yEnd);
    } else {
      ScanInvariant(rule, w, z0, E, box, yEnd - 1);
      RowOn(rule, w, z0, E, box, yEnd - 1, Scan(rule, w, Raster(z0, E), box, yEnd - 1));
    }
  }

  /** Scanning row y carries the invariant from the start of y to the start of y + 1. */
  lemma RowOn(rule: Rule, w: int, z0: seq<Depth>, E: seq<Event>, box: Box, y: int, r: Raster)
    requires BoxFits(box, w) && box.minX <= box.maxX + 1 && box.minY <= y <= box.maxY
    requires r.zbuf == Expected(rule, w, z0, box, y, box.minX) && r.evs == E + Ordered(rule, w, z0, box, y)
    ensures ScanRow(rule, w, r, y, box.minX, box.maxX + 1).zbuf == Expected(rule, w, z0, box, y + 1, box.minX)
    ensures ScanRow(rule, w, r, y, box.minX, box.maxX + 1).evs == E + Ordered(rule, w, z0, box, y + 1)
  {
    ScanRowInvariant(rule, w, z0, r, box, y, box.maxX + 1);
    NextRow(rule, w, z0, box, y);
    assert E + Ordered(rule, w, z0, box, y) + OrderRow(rule, w, z0, y, box.minX, box.maxX + 1)
        == E + Ordered(rule, w, z0, box, y + 1);
  }

  /** Every pixel is visited once, so the sequential scan equals the
      row-major list of per-pixel decisions made against the original
      buffer, and each scanned entry ends at its FinalAt depth; nothing
      outside the box changes. */
  lemma RasterizeOrder(k: Kernel, w: int, h: int, z0: seq<Depth>)
    requires TexOk(k) && w > 0
    ensures var box := KernelBox(k, w, h);
            var r := Rasterize(k, w, h, Raster(z0, []));
            |r.zbuf| == |z0| &&
            r.evs == (if Runs(k, w, h) then Ordered(RuleOf(k), w, z0, box, box.maxY + 1) else []) &&
            forall j :: 0 <= j < |z0| ==>
              r.zbuf[j] == if Runs(k, w, h) && InBox(box, j % w, j / w) then FinalAt(RuleOf(k), z0, j % w, j / w, j) else z0[j]
  {
    if Runs(k, w, h) {
      ScanBox(RuleOf(k), w, z0, KernelBox(k, w, h));
    }
  }

  /** A sound rule never moves an entry farther away. */
  lemma FinalNoFarther(rule: Rule, z0: seq<Depth>, x: int, y: int, j: int)
    requires Sound(rule) && 0 <= j < |z0|
    ensures NoFarther(FinalAt(rule, z0, x, y, j), z0[j])
  {
    assert rule(x, y, z0[j]).write.Some? ==> Closer(rule(x, y, z0[j]).write.value, z0[j]);
  }

  /** `z < zbuf[idx]` then store: the entry becomes the nearer of the two. */
  function Nearer(d: Depth, z: real): (r: Depth)
    ensures NoFarther(r, d) && NoFarther(r, Fin(z)) && (r == d || r == Fin(z))
  {
    if Closer(z, d) then Fin(z) else d
  }

  /** Consequences for the depth buffer: it never gets farther, entries
      outside the box never change, and an entry changes only to a strictly
      closer depth that the kernel chose to write. On a covered pixel of a
      Z-buffered kernel the entry ends as the nearer of its old value and
      the interpolated depth. */
  lemma RasterizeDepths(k: Kernel, w: int, h: int, z0: seq<Depth>)
    requires TexOk(k) && w > 0
    ensures var r := Rasterize(k, w, h, Raster(z0, []));
            |r.zbuf| == |z0| &&
            (forall j :: 0 <= j < |z0| ==> NoFarther(r.zbuf[j], z0[j])) &&
            (forall j :: 0 <= j < |z0| && !InBox(KernelBox(k, w, h), j % w, j / w) ==> r.zbuf[j] == z0[j]) &&
            (forall j :: 0 <= j < |z0| && r.zbuf[j] != z0[j] ==>
               Ready(k) && Writes(k, j % w, j / w, z0[j]).Some? && r.zbuf[j] == Fin(Writes(k, j % w, j / w, z0[j]).value))
    ensures k.Flat? ==> Rasterize(k, w, h, Raster(z0, [])).zbuf == z0
    ensures var r := Rasterize(k, w, h, Raster(z0, []));
            var (a, b, c) := Corners(k);
            forall j :: (0 <= j < |z0| && !k.Flat? && Area(a, b, c) != 0.0 && InBox(KernelBox(k, w, h), j % w, j / w) &&
                         Covers(a, b, c, j % w, j / w)) ==>
              r.zbuf[j] == Nearer(z0[j], DepthAt(k.a, k.b, k.c, j % w, j / w))
  {
    RasterizeOrder(k, w, h, z0);
    KernelSound(k);
    var r := Rasterize(k, w, h, Raster(z0, []));
    forall j | 0 <= j < |z0|
      ensures NoFarther(r.zbuf[j], z0[j])
    {
      FinalNoFarther(RuleOf(k), z0, j % w, j / w, j);
    }
    forall j | 0 <= j < |z0| && r.zbuf[j] != z0[j]
      ensures Ready(k) && Writes(k, j % w, j / w, z0[j]).Some? && r.zbuf[j] == Fin(Writes(k, j % w, j / w, z0[j]).value)
    {
      assert RuleOf(k)(j % w, j / w, z0[j]) == Decide(k, j % w, j / w, z0[j]);
    }
    if k.Flat? {
      forall j | 0 <= j < |z0| ensures r.zbuf[j] == z0[j] {
        assert RuleOf(k)(j % w, j / w, z0[j]) == Decide(k, j % w, j / w, z0[j]);
      }
    }
    var (a, b, c) := Corners(k);
    forall j | 0 <= j < |z0| && !k.Flat? && Area(a, b, c) != 0.0 && InBox(KernelBox(k, w, h), j % w, j / w) &&
      Covers(a, b, c, j % w, j / w)
      ensures r.zbuf[j] == Nearer(z0[j], DepthAt(k.a, k.b, k.c, j % w, j / w))
    {
      assert RuleOf(k)(j % w, j / w, z0[j]) == Decide(k, j % w, j / w, z0[j]);
    }
  }

  /** The pixel column and row an event plots. */
  function EvX(e: Event): int {
    match e
    case Put(pos, _) => pos.x.Floor
    case Blend(x, _, _) => x
  }

  function EvY(e: Event): int {
    match e
    case Put(pos, _) => pos.y.Floor
    case Blend(_, y, _) => y
  }

  /** The plots of a sound rule at (x, y), located. */
  lemma SoundAt(rule: Rule, x: int, y: int, d: Depth)
    requires Sound(rule)
    ensures var e := rule(x, y, d).evs;
      |e| <= 1 && (|e| == 1 ==> At(e[0], x, y) && EvX(e[0]) == x && EvY(e[0]) == y)
  {
    var e := rule(x, y, d).evs;
    if |e| == 1 {
      AtEv(e[0], x, y);
    }
  }

  lemma AtEv(e: Event, x: int, y: int)
    requires At(e, x, y)
    ensures EvX(e) == x && EvY(e) == y
  {
  }

  /** (x, y) comes strictly before (x', y') in row-major order. */
  predicate RowMajor(e: Event, f: Event) {
    EvY(e) < EvY(f) || (EvY(e) == EvY(f) && EvX(e) < EvX(f))
  }

  /** Plots on row y, columns lo until hi, each at its own pixel. */
  predicate InRow(s: seq<Event>, y: int, lo: int, hi: int) {
    forall i :: 0 <= i < |s| ==> lo <= EvX(s[i]) < hi && EvY(s[i]) == y && At(s[i], EvX(s[i]), EvY(s[i]))
  }

  predicate LeftToRight(s: seq<Event>) {
    forall i, i' :: 0 <= i < i' < |s| ==> EvX(s[i]) < EvX(s[i'])
  }

  /** Plots in the box's columns on rows box.minY until yEnd. */
  predicate InRows(s: seq<Event>, box: Box, yEnd: int) {
    forall i :: 0 <= i < |s| ==>
      box.minX <= EvX(s[i]) <= box.maxX && box.minY <= EvY(s[i]) < yEnd && At(s[i], EvX(s[i]), EvY(s[i]))
  }

  predicate RowMajorSorted(s: seq<Event>) {
    forall i, i' :: 0 <= i < i' < |s| ==> RowMajor(s[i], s[i'])
  }

  lemma ExtendRow(s: seq<Event>, e: seq<Event>, y: int, lo: int, x: int)
    requires InRow(s, y, lo, x) && LeftToRight(s) && lo <= x
    requires |e| <= 1 && (|e| == 1 ==> At(e[0], x, y) && EvX(e[0]) == x && EvY(e[0]) == y)
    ensures InRow(s + e, y, lo, x + 1) && LeftToRight(s + e)
  {
    forall i | 0 <= i < |s + e|
      ensures lo <= EvX((s + e)[i]) < x + 1 && EvY((s + e)[i]) == y && At((s + e)[i], EvX((s + e)[i]), EvY((s + e)[i]))
    {
      if i < |s| {
        assert (s + e)[i] == s[i];
      } else {
        assert (s + e)[i] == e[0];
      }
    }
    forall i, i' | 0 <= i < i' < |s + e|
      ensures EvX((s + e)[i]) < EvX((s + e)[i'])
    {
      if i' < |s| {
        assert (s + e)[i] == s[i] && (s + e)[i'] == s[i'];
      } else {
        assert (s + e)[i] == s[i] && (s + e)[i'] == e[0];
      }
    }
  }

  lemma ExtendRows(s: seq<Event>, e: seq<Event>, box: Box, y: int)
    requires InRows(s, box, y) && RowMajorSorted(s) && box.minY <= y
    requires InRow(e, y, box.minX, box.maxX + 1) && LeftToRight(e)
    ensures InRows(s + e, box, y + 1) && RowMajorSorted(s + e)
  {
    forall i | 0 <= i < |s + e|
      ensures box.minX <= EvX((s + e)[i]) <= box.maxX && box.minY <= EvY((s + e)[i]) < y + 1
           && At((s + e)[i], EvX((s + e)[i]), EvY((s + e)[i]))
    {
      if i < |s| {
        assert (s + e)[i] == s[i];
      } else {
        assert (s + e)[i] == e[i - |s|];
      }
    }
    forall i, i' | 0 <= i < i' < |s + e|
      ensures RowMajor((s + e)[i], (s + e)[i'])
    {
      if i' < |s| {
        assert (s + e)[i] == s[i] && (s + e)[i'] == s[i'];
      } else if i < |s| {
        assert (s + e)[i] == s[i] && (s + e)[i'] == e[i' - |s|];
      } else {
        assert (s + e)[i] == e[i - |s|] && (s + e)[i'] == e[i' - |s|];
      }
    }
  }

  /** A row's plots are on row y in [lo, hi), strictly left to right. */
  lemma {:induction false} OrderRowAt(rule: Rule, w: int, z0: seq<Depth>, y: int, lo: int, hi: int)
    requires Sound(rule)
    ensures InRow(OrderRow(rule, w, z0, y, lo, hi), y, lo, if hi < lo then lo else hi)
    ensures LeftToRight(OrderRow(rule, w, z0, y, lo, hi))
    decreases hi - lo
  {
    if hi > lo {
      OrderRowAt(rule, w, z0, y, lo, hi - 1);
      SoundAt(rule, hi - 1, y, DepthOf(z0, y * w + hi - 1));
      ExtendRow(OrderRow(rule, w, z0, y, lo, hi - 1), rule(hi - 1, y, DepthOf(z0, y * w + hi - 1)).evs, y, lo, hi - 1);
    }
  }

  /** The scan's plots lie in the box, above yEnd, in strictly increasing
      row-major order: no pixel is plotted twice by one kernel call. */
  lemma {:induction false} OrderedInBox(rule: Rule, w: int, z0: seq<Depth>, box: Box, yEnd: int)
    requires Sound(rule)
    ensures InRows(Ordered(rule, w, z0, box, yEnd), box, yEnd)
    ensures RowMajorSorted(Ordered(rule, w, z0, box, yEnd))
    decreases yEnd - box.minY
  {
    if yEnd > box.minY {
      OrderedInBox(rule, w, z0, box, yEnd - 1);
      OrderRowAt(rule, w, z0, yEnd - 1, box.minX, box.maxX + 1);
      if box.maxX + 1 < box.minX {
        assert OrderRow(rule, w, z0, yEnd - 1, box.minX, box.maxX + 1) == [];
      }
      ExtendRows(Ordered(rule, w, z0, box, yEnd - 1), OrderRow(rule, w, z0, yEnd - 1, box.minX, box.maxX + 1), box, yEnd - 1);
    }
  }

  /** Every pixel a kernel plots lies in its clamped box, hence on the
      surface, and none twice; a degenerate triangle or an empty box plots
      nothing and leaves the depth buffer as it was. */
  lemma RasterizeOnScreen(k: Kernel, w: int, h: int, z0: seq<Depth>)
    requires TexOk(k) && w > 0
    ensures var r := Rasterize(k, w, h, Raster(z0, []));
            forall i :: 0 <= i < |r.evs| ==>
              0 <= EvX(r.evs[i]) < w && 0 <= EvY(r.evs[i]) < h &&
              InBox(KernelBox(k, w, h), EvX(r.evs[i]), EvY(r.evs[i])) && At(r.evs[i], EvX(r.evs[i]), EvY(r.evs[i]))
    ensures var r := Rasterize(k, w, h, Raster(z0, []));
            forall i, i' :: 0 <= i < i' < |r.evs| ==> RowMajor(r.evs[i], r.evs[i'])
    ensures !Runs(k, w, h) ==> Rasterize(k, w, h, Raster(z0, [])) == Raster(z0, [])
  {
    RasterizeOrder(k, w, h, z0);
    if Runs(k, w, h) {
      KernelSound(k);
      var box := KernelBox(k, w, h);
      OrderedInBox(RuleOf(k), w, z0, box, box.maxY + 1);
    }
  }
}
