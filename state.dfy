/** The pixel sink shared by every rasterizer: `PLOT` either writes a pixel
    straight to the surface (bounds-checked, coordinates truncated toward
    zero) or appends it to the `POINTS` queue, which `draw_some_points`
    later drains at a fixed pixel rate into the surface. */
module State {
  import opened Util
  import opened LinAlg
  import opened Scene

  /** Which of the two plot functions `PLOT` names. */
  datatype PlotMode = Immediate | Deferred

  /** One queue entry `(pos, c)`. */
  datatype Queued = Queued(pos: Vec2, c: Color)

  const DeferredPlotting := false
  /** Deferred drain rate, in pixels per second. */
  const BlitPps: real := 20000.0
  const ClearColor := Color(0, 0, 0, 255)

  /** The plot mode `main` selects from DEFERRED_PLOTTING. */
  function ConfiguredMode(deferred: bool): (m: PlotMode)
    ensures m == Deferred <==> deferred
  {
    if deferred then Deferred else Immediate
  }

  /** `surface.fill(c)`: every pixel becomes c. */
  function Filled(w: nat, h: nat, c: Color): (img: Image)
    ensures img.Valid() && img.width == w && img.height == h
    ensures forall i, j :: 0 <= i < w && 0 <= j < h ==> img.GetAt(i, j) == c
  {
    Image(w, h, seq(h, _ => seq(w, _ => c)))
  }

  /** `surface.set_at((x, y), c)` on an in-range pixel. */
  function SetAt(img: Image, x: int, y: int, c: Color): (r: Image)
    requires img.Valid() && 0 <= x < img.width && 0 <= y < img.height
    ensures r.Valid() && r.width == img.width && r.height == img.height
    ensures forall i, j :: 0 <= i < r.width && 0 <= j < r.height ==>
      r.GetAt(i, j) == if i == x && j == y then c else img.GetAt(i, j)
  {
    img.(rows := img.rows[y := img.rows[y][x := c]])
  }

  /** Does a plot at pos land on a w x h surface once truncated? */
  predicate OnSurface(w: int, h: int, pos: Vec2) {
    0 <= Trunc(pos.x) < w && 0 <= Trunc(pos.y) < h
  }

  /** The pixel (i, j) that a plot at pos lands on, if any. */
  predicate Lands(w: int, h: int, pos: Vec2, i: int, j: int) {
    OnSurface(w, h, pos) && Trunc(pos.x) == i && Trunc(pos.y) == j
  }

  /** `plot_immediate(surface, pos, c)` on the surface's pixels. */
  function Plotted(img: Image, pos: Vec2, c: Color): (r: Image)
    requires img.Valid()
    ensures r.Valid() && r.width == img.width && r.height == img.height
    ensures forall i, j :: 0 <= i < r.width && 0 <= j < r.height ==>
      r.GetAt(i, j) == if Lands(img.width, img.height, pos, i, j) then c else img.GetAt(i, j)
  {
    if OnSurface(img.width, img.height, pos) then SetAt(img, Trunc(pos.x), Trunc(pos.y), c) else img
  }

  /** Truncation rounds toward zero, so a slightly negative coordinate is
      still drawn in column or row 0. */
  lemma PlotNearZero(img: Image, pos: Vec2, c: Color)
    requires img.Valid() && img.width > 0 && img.height > 0
    requires -1.0 < pos.x < 1.0 && -1.0 < pos.y < 1.0
    ensures Plotted(img, pos, c).GetAt(0, 0) == c
  {
  }

  /** What the rasterizers change: the queue and the surface pixels. */
  datatype SinkView = SinkView(points: seq<Queued>, img: Image)

  /** One call of `PLOT(surface, pos, c)` in the given mode. */
  function PlotStep(mode: PlotMode, v: SinkView, pos: Vec2, c: Color): (r: SinkView)
    requires v.img.Valid()
    ensures r.img.Valid() && r.img.width == v.img.width && r.img.height == v.img.height
    ensures mode == Deferred ==> r.img == v.img && r.points == v.points + [Queued(pos, c)]
    ensures mode == Immediate ==> r.points == v.points
  {
    match mode
    case Deferred => SinkView(v.points + [Queued(pos, c)], v.img)
    case Immediate => SinkView(v.points, Plotted(v.img, pos, c))
  }

  /** The sink and surface after `PLOT` of every entry of ps, in order. */
  function PlotAll(mode: PlotMode, v: SinkView, ps: seq<Queued>): (r: SinkView)
    requires v.img.Valid()
    ensures r.img.Valid() && r.img.width == v.img.width && r.img.height == v.img.height
    decreases |ps|
  {
    if ps == [] then v
    else
      var q := ps[|ps| - 1];
      PlotStep(mode, PlotAll(mode, v, ps[..|ps| - 1]), q.pos, q.c)
  }

  /** The sink and surface are where plotting ps from v leaves them. */
  ghost predicate Tracks(sink: Sink, surf: Surface, v: SinkView, ps: seq<Queued>)
    reads sink, surf
  {
    v.img.Valid() && SinkView(sink.points, surf.img) == PlotAll(sink.mode, v, ps)
  }

  /** Plotting one more entry extends the replay by one step. */
  lemma PlotAllSnoc(mode: PlotMode, v: SinkView, ps: seq<Queued>, q: Queued)
    requires v.img.Valid()
    ensures PlotAll(mode, v, ps + [q]) == PlotStep(mode, PlotAll(mode, v, ps), q.pos, q.c)
  {
    assert (ps + [q])[..|ps|] == ps;
  }

  /** Plotting two lists one after the other is plotting their concatenation. */
  lemma {:induction false} PlotAllAppend(mode: PlotMode, v: SinkView, ps: seq<Queued>, qs: seq<Queued>)
    requires v.img.Valid()
    ensures PlotAll(mode, v, ps + qs) == PlotAll(mode, PlotAll(mode, v, ps), qs)
    decreases |qs|
  {
    if qs == [] {
      assert ps + qs == ps;
    } else {
      var q := qs[|qs| - 1];
      PlotAllAppend(mode, v, ps, qs[..|qs| - 1]);
      assert ps + qs == (ps + qs[..|qs| - 1]) + [q];
      PlotAllSnoc(mode, v, ps + qs[..|qs| - 1], q);
    }
  }

  /** In deferred mode plotting only queues: the entries are appended in
      order and the surface is untouched. */
  lemma {:induction false} DeferredQueues(v: SinkView, ps: seq<Queued>)
    requires v.img.Valid()
    ensures PlotAll(Deferred, v, ps) == SinkView(v.points + ps, v.img)
    decreases |ps|
  {
    if ps != [] {
      DeferredQueues(v, ps[..|ps| - 1]);
      assert v.points + ps == (v.points + ps[..|ps| - 1]) + [ps[|ps| - 1]];
    } else {
      assert v.points + ps == v.points;
    }
  }

  /** In immediate mode the surface ends up as the queue would have left it
      once drained: plotting now and blitting later agree. */
  lemma {:induction false} ImmediateIsBlit(v: SinkView, ps: seq<Queued>)
    requires v.img.Valid()
    ensures PlotAll(Immediate, v, ps) == SinkView(v.points, BlitAll(v.img, ps))
    decreases |ps|
  {
    if ps != [] {
      ImmediateIsBlit(v, ps[..|ps| - 1]);
    }
  }

  /** The surface after plotting every entry of pts in order. */
  function BlitAll(img: Image, pts: seq<Queued>): (r: Image)
    requires img.Valid()
    ensures r.Valid() && r.width == img.width && r.height == img.height
    ensures forall i, j :: 0 <= i < img.width && 0 <= j < img.height ==>
      (forall k :: 0 <= k < |pts| ==> !Lands(img.width, img.height, pts[k].pos, i, j)) ==>
      r.GetAt(i, j) == img.GetAt(i, j)
    ensures forall i, j, k :: (0 <= i < img.width && 0 <= j < img.height && 0 <= k < |pts| &&
      Lands(img.width, img.height, pts[k].pos, i, j) &&
      (forall k' :: k < k' < |pts| ==> !Lands(img.width, img.height, pts[k'].pos, i, j))) ==>
      r.GetAt(i, j) == pts[k].c
    decreases |pts|
  {
    if pts == [] then img
    else
      var q := pts[|pts| - 1];
      Plotted(BlitAll(img, pts[..|pts| - 1]), q.pos, q.c)
  }

  /** A plot on pixel (x, y) of the surface is `set_at((x, y), c)`. */
  lemma PlottedPixel(img: Image, x: int, y: int, c: Color)
    requires img.Valid() && 0 <= x < img.width && 0 <= y < img.height
    ensures Plotted(img, Pixel(x, y), c) == SetAt(img, x, y, c)
  {
    assert Trunc(x as real) == x && Trunc(y as real) == y;
  }

  /** Blitting one more entry plots it on the blitted surface. */
  lemma BlitSnoc(img: Image, ps: seq<Queued>, q: Queued)
    requires img.Valid()
    ensures BlitAll(img, ps + [q]) == Plotted(BlitAll(img, ps), q.pos, q.c)
  {
    assert (ps + [q])[..|ps|] == ps;
  }

  /** Blitting two lists in turn is blitting their concatenation. */
  lemma {:induction false} BlitAppend(img: Image, ps: seq<Queued>, qs: seq<Queued>)
    requires img.Valid()
    ensures BlitAll(img, ps + qs) == BlitAll(BlitAll(img, ps), qs)
    decreases |qs|
  {
    if qs == [] {
      assert ps + qs == ps;
    } else {
      var q := qs[|qs| - 1];
      var qs' := qs[..|qs| - 1];
      assert ps + qs == (ps + qs') + [q];
      assert qs == qs' + [q];
      BlitAppend(img, ps, qs');
      BlitSnoc(img, ps + qs', q);
      BlitSnoc(BlitAll(img, ps), qs', q);
    }
  }

  /** `BLIT_ACCUM += BLIT_PPS * dt; n = int(BLIT_ACCUM)`, then the carry
      that remains once n whole pixels are taken out. */
  function Accrue(accum: real, dt: real): (r: (int, real))
    ensures r.0 == Trunc(accum + BlitPps * dt)
    ensures r.0 <= 0 ==> r.1 == accum + BlitPps * dt
    ensures r.0 > 0 ==> r.0 as real + r.1 == accum + BlitPps * dt && 0.0 <= r.1 < 1.0
  {
    var acc := accum + BlitPps * dt;
    var n := Trunc(acc);
    if n <= 0 then (n, acc) else (n, acc - n as real)
  }

  /** The sink's globals together with the surface. */
  datatype SinkState = SinkState(points: seq<Queued>, accum: real, needsClear: bool, img: Image)

  /** `draw_some_points(surface, dt, stats)`: the new state and the result. */
  function Drain(s: SinkState, dt: real, stats: bool): (r: (SinkState, int))
    requires s.img.Valid()
    ensures r.0.img.Valid() && r.0.img.width == s.img.width && r.0.img.height == s.img.height
    ensures s.points == [] ==> r == (s, 0)
    ensures s.points != [] ==> !r.0.needsClear && r.0.accum == Accrue(s.accum, dt).1
    ensures |r.0.points| <= |s.points| && r.0.points == s.points[|s.points| - |r.0.points|..]
    ensures s.points != [] ==>
      |s.points| - |r.0.points| == (var n := Accrue(s.accum, dt).0; if n <= 0 then 0 else IMin(n, |s.points|))
    ensures r.1 == if stats then |s.points| - |r.0.points| else 0
  {
    if s.points == [] then (s, 0)
    else
      var img0 := if s.needsClear then Filled(s.img.width, s.img.height, ClearColor) else s.img;
      var (n, acc) := Accrue(s.accum, dt);
      if n <= 0 then (SinkState(s.points, acc, false, img0), 0)
      else
        var k := IMin(n, |s.points|);
        (SinkState(s.points[k..], acc, false, BlitAll(img0, s.points[..k])), if stats then k else 0)
  }

  /** With a non-empty queue the surface is cleared first when NEEDS_CLEAR is
      set, and then exactly the drained prefix of the queue is plotted on it. */
  lemma DrainSurface(s: SinkState, dt: real, stats: bool)
    requires s.img.Valid() && s.points != []
    ensures var t := Drain(s, dt, stats).0;
      var img0 := if s.needsClear then Filled(s.img.width, s.img.height, ClearColor) else s.img;
      t.img == BlitAll(img0, s.points[..|s.points| - |t.points|])
  {
    var t := Drain(s, dt, stats).0;
    if Accrue(s.accum, dt).0 <= 0 {
      assert s.points[..|s.points| - |t.points|] == [];
    }
  }

  /** A pixel that no drained entry lands on keeps its colour, or becomes
      CLEAR_COLOR when NEEDS_CLEAR was set. */
  lemma DrainKeepsUnplotted(s: SinkState, dt: real, stats: bool, i: int, j: int)
    requires s.img.Valid() && s.points != [] && 0 <= i < s.img.width && 0 <= j < s.img.height
    requires var t := Drain(s, dt, stats).0;
      forall k :: 0 <= k < |s.points| - |t.points| ==> !Lands(s.img.width, s.img.height, s.points[k].pos, i, j)
    ensures Drain(s, dt, stats).0.img.GetAt(i, j) == if s.needsClear then ClearColor else s.img.GetAt(i, j)
  {
    DrainSurface(s, dt, stats);
  }

  /** A pygame surface: a grid of RGBA pixels. */
  class Surface {
    var img: Image

    ghost predicate Valid()
      reads this
    {
      img.Valid()
    }

    constructor (w: nat, h: nat)
      ensures Valid() && img == Filled(w, h, ClearColor)
    {
      img := Filled(w, h, ClearColor);
    }
  }

  /** `plot_immediate`: write the pixel only when it lies on the surface. */
  method PlotImmediate(surf: Surface, pos: Vec2, c: Color)
    requires surf.Valid()
    modifies surf
    ensures surf.Valid() && surf.img == Plotted(old(surf.img), pos, c)
  {
    var x := Trunc(pos.x);
    var y := Trunc(pos.y);
    if 0 <= x < surf.img.width && 0 <= y < surf.img.height {
      surf.img := SetAt(surf.img, x, y, c);
    }
  }

  /** The module globals `PLOT`, `POINTS`, `BLIT_ACCUM` and `NEEDS_CLEAR`. */
  class Sink {
    var mode: PlotMode
    var points: seq<Queued>
    var blitAccum: real
    var needsClear: bool

    /** The defaults: immediate plotting, an empty queue. */
    constructor ()
      ensures mode == Immediate && points == [] && blitAccum == 0.0 && !needsClear
    {
      mode := Immediate;
      points := [];
      blitAccum := 0.0;
      needsClear := false;
    }

    /** `plot_deferred`: enqueue the pixel and change nothing else. */
    method PlotDeferred(pos: Vec2, c: Color)
      modifies this`points
      ensures points == old(points) + [Queued(pos, c)]
    {
      points := points + [Queued(pos, c)];
    }

    /** `PLOT(surface, pos, c)`, dispatching on the configured mode. */
    method Plot(surf: Surface, pos: Vec2, c: Color)
      requires surf.Valid()
      modifies this`points, surf
      ensures surf.Valid()
      ensures SinkView(points, surf.img) == PlotStep(mode, old(SinkView(points, surf.img)), pos, c)
    {
      if mode == Deferred {
        PlotDeferred(pos, c);
      } else {
        PlotImmediate(surf, pos, c);
      }
    }

    /** `draw_some_points`: drain the queue at BLIT_PPS pixels per second. */
    method DrawSomePoints(surf: Surface, dt: real, stats: bool) returns (drained: int)
      requires surf.Valid()
      modifies this`points, this`blitAccum, this`needsClear, surf
      ensures surf.Valid()
      ensures (SinkState(points, blitAccum, needsClear, surf.img), drained)
           == Drain(old(SinkState(points, blitAccum, needsClear, surf.img)), dt, stats)
    {
      if points == [] {
        return 0;
      }
      if needsClear {
        surf.img := Filled(surf.img.width, surf.img.height, ClearColor);
        needsClear := false;
      }
      ghost var acc0 := blitAccum;
      blitAccum := blitAccum + BlitPps * dt;
      var n := Trunc(blitAccum);
      assert Accrue(acc0, dt).0 == n;
      if n <= 0 {
        return 0;
      }
      blitAccum := blitAccum - n as real;
      assert Accrue(acc0, dt).1 == blitAccum;
      drained := PopAndBlit(surf, IMin(n, |points|), stats);
    }

    /** The drain loop: pop `count` entries from the front of the queue and
        plot each one that lies on the surface. */
    method PopAndBlit(surf: Surface, count: int, stats: bool) returns (drained: int)
      requires surf.Valid() && 0 <= count <= |points|
      modifies this`points, surf
      ensures surf.Valid()
      ensures points == old(points)[count..]
      ensures surf.img == BlitAll(old(surf.img), old(points)[..count])
      ensures drained == if stats then count else 0
    {
      var w := surf.img.width;
      var h := surf.img.height;
      ghost var queue := points;
      ghost var img0 := surf.img;
      drained := 0;
      var i := 0;
      while i < count
        invariant 0 <= i <= count
        invariant points == queue[i..]
        invariant surf.img.Valid() && surf.img.width == w && surf.img.height == h
        invariant surf.img == BlitAll(img0, queue[..i])
        invariant drained == if stats then i else 0
      {
        var q := points[0];
        points := points[1..];
        var x := Trunc(q.pos.x);
        var y := Trunc(q.pos.y);
        if 0 <= x < w && 0 <= y < h {
          surf.img := SetAt(surf.img, x, y, q.c);
        }
        if stats {
          drained := drained + 1;
        }
        assert queue[..i + 1][..i] == queue[..i];
        i := i + 1;
      }
    }
  }
}
