/** The Sutherland-Hodgman clipper of the renderer: a convex polygon of
    clip-space vertices (with optional UVs) is clipped against the six
    OpenGL-style planes -w <= x, y, z <= w, one plane at a time. */
module Clipping {
  import opened Util
  import opened LinAlg

  /** `_ClipVert(clip, uv)`. */
  datatype ClipVert = ClipVert(clip: Vec4, uv: Option<Vec2>)

  /** The six clip planes, in the order `_clip_triangle` applies them. */
  datatype Plane = Left | Right | Bottom | Top | Near | Far

  /** The plane's `dist_fn`: non-negative on the inside. */
  function Dist(p: Plane, c: Vec4): real {
    match p
    case Left => c.x + c.w
    case Right => -c.x + c.w
    case Bottom => c.y + c.w
    case Top => -c.y + c.w
    case Near => c.z + c.w
    case Far => -c.z + c.w
  }

  function Planes(): seq<Plane> {
    [Left, Right, Bottom, Top, Near, Far]
  }

  /** The clip volume. */
  predicate InVolume(c: Vec4) {
    -c.w <= c.x <= c.w && -c.w <= c.y <= c.w && -c.w <= c.z <= c.w
  }

  /** Inside the volume is inside all six planes. */
  lemma InVolumePlanes(c: Vec4)
    ensures InVolume(c) <==> forall j :: 0 <= j < 6 ==> Dist(Planes()[j], c) >= 0.0
  {
    assert Dist(Planes()[0], c) == c.x + c.w && Dist(Planes()[1], c) == -c.x + c.w;
    assert Dist(Planes()[2], c) == c.y + c.w && Dist(Planes()[3], c) == -c.y + c.w;
    assert Dist(Planes()[4], c) == c.z + c.w && Dist(Planes()[5], c) == -c.z + c.w;
  }

  /** Every plane function is linear, so it interpolates along a segment. */
  lemma DistLerp(p: Plane, a: Vec4, b: Vec4, t: real)
    ensures Dist(p, Lerp4(a, b, t)) == Dist(p, a) + t * (Dist(p, b) - Dist(p, a))
  {
  }

  /** `prev.uv + (cur.uv - prev.uv) * t` when both ends have a UV, else None. */
  function UvLerp(a: Option<Vec2>, b: Option<Vec2>, t: real): Option<Vec2> {
    if a.Some? && b.Some? then Some(Lerp2(a.value, b.value, t)) else None
  }

  /** The vertex at parameter t along prev -> cur, position and UV alike. */
  function Intersect(prev: ClipVert, cur: ClipVert, t: real): ClipVert {
    ClipVert(Lerp4(prev.clip, cur.clip, t), UvLerp(prev.uv, cur.uv, t))
  }

  /** The crossing vertex of an edge whose ends lie on opposite sides, if
      the distances differ. */
  function Crossing(p: Plane, prev: ClipVert, cur: ClipVert): seq<ClipVert> {
    var pd, cd := Dist(p, prev.clip), Dist(p, cur.clip);
    if pd - cd != 0.0 then [Intersect(prev, cur, pd / (pd - cd))] else []
  }

  /** What one loop iteration adds for the edge prev -> cur: the current
      vertex when both are inside, the crossing when leaving, the crossing
      then the current vertex when entering, nothing when both are out. */
  function EdgeOut(p: Plane, prev: ClipVert, cur: ClipVert): seq<ClipVert> {
    var prevIn, curIn := Dist(p, prev.clip) >= 0.0, Dist(p, cur.clip) >= 0.0;
    if prevIn && curIn then [cur]
    else if prevIn then Crossing(p, prev, cur)
    else if curIn then Crossing(p, prev, cur) + [cur]
    else []
  }

  /** The vertex before poly[i], cyclically: `prev` starts at `poly[-1]`. */
  function PrevOf(poly: seq<ClipVert>, i: int): ClipVert
    requires 0 <= i < |poly|
  {
    if i == 0 then poly[|poly| - 1] else poly[i - 1]
  }

  /** The output after the first k loop iterations. */
  function ClipEdges(poly: seq<ClipVert>, p: Plane, k: nat): seq<ClipVert>
    requires k <= |poly|
  {
    if k == 0 then [] else ClipEdges(poly, p, k - 1) + EdgeOut(p, PrevOf(poly, k - 1), poly[k - 1])
  }

  /** `_clip_poly_against_plane(poly, dist_fn)`. */
  function ClipPoly(poly: seq<ClipVert>, p: Plane): seq<ClipVert> {
    if poly == [] then [] else ClipEdges(poly, p, |poly|)
  }

  /** The loop of `_clip_poly_against_plane`, carrying `prev`, `prev_d` and `prev_in`. */
  method ClipPolyAgainstPlane(poly: seq<ClipVert>, p: Plane) returns (out: seq<ClipVert>)
    ensures out == ClipPoly(poly, p)
  {
    if |poly| == 0 {
      return [];
    }
    out := [];
    var prev := poly[|poly| - 1];
    var prevD := Dist(p, prev.clip);
    var prevIn := prevD >= 0.0;
    for i := 0 to |poly|
      invariant out == ClipEdges(poly, p, i)
      invariant i < |poly| ==> prev == PrevOf(poly, i)
      invariant prevD == Dist(p, prev.clip) && prevIn == (prevD >= 0.0)
    {
      var cur := poly[i];
      var curD := Dist(p, cur.clip);
      var curIn := curD >= 0.0;
      var added := ClipStep(prev, prevD, prevIn, cur, curD, curIn);
      assert added == EdgeOut(p, prev, cur);
      out := out + added;
      prev := cur;
      prevD := curD;
      prevIn := curIn;
    }
  }

  /** The body of the loop for the edge prev -> cur, given both distances. */
  method ClipStep(prev: ClipVert, prevD: real, prevIn: bool, cur: ClipVert, curD: real, curIn: bool)
    returns (added: seq<ClipVert>)
    requires prevIn == (prevD >= 0.0) && curIn == (curD >= 0.0)
    ensures forall p: Plane :: prevD == Dist(p, prev.clip) && curD == Dist(p, cur.clip) ==> added == EdgeOut(p, prev, cur)
  {
    added := [];
    if prevIn && curIn {
      added := [cur];
    } else if prevIn && !curIn {
      var denom := prevD - curD;
      if denom != 0.0 {
        var t := prevD / denom;
        var iclip := Add4(prev.clip, Scale4(Sub4(cur.clip, prev.clip), t));
        var iuv := if prev.uv.Some? && cur.uv.Some? then Some(Add2(prev.uv.value, Scale2(Sub2(cur.uv.value, prev.uv.value), t))) else None;
        added := [ClipVert(iclip, iuv)];
      }
    } else if !prevIn && curIn {
      var denom := prevD - curD;
      if denom != 0.0 {
        var t := prevD / denom;
        var iclip := Add4(prev.clip, Scale4(Sub4(cur.clip, prev.clip), t));
        var iuv := if prev.uv.Some? && cur.uv.Some? then Some(Add2(prev.uv.value, Scale2(Sub2(cur.uv.value, prev.uv.value), t))) else None;
        added := [ClipVert(iclip, iuv)];
      }
      added := added + [cur];
    }
  }

  // ------------------------------------------------ one-plane properties

  /** A polygon wholly inside the plane comes back unchanged, vertex for
      vertex and in order. */
  lemma ClipKeepsInside(poly: seq<ClipVert>, p: Plane)
    requires forall i :: 0 <= i < |poly| ==> Dist(p, poly[i].clip) >= 0.0
    ensures ClipPoly(poly, p) == poly
  {
    if poly != [] {
      KeptPrefix(poly, p, |poly|);
    }
  }

  lemma {:induction false} KeptPrefix(poly: seq<ClipVert>, p: Plane, k: nat)
    requires k <= |poly| && forall i :: 0 <= i < |poly| ==> Dist(p, poly[i].clip) >= 0.0
    ensures ClipEdges(poly, p, k) == poly[..k]
  {
    if k > 0 {
      KeptPrefix(poly, p, k - 1);
      assert poly[..k] == poly[..k - 1] + [poly[k - 1]];
    }
  }

  /** An empty polygon, or one wholly outside the plane, clips to nothing. */
  lemma ClipDropsOutside(poly: seq<ClipVert>, p: Plane)
    requires forall i :: 0 <= i < |poly| ==> Dist(p, poly[i].clip) < 0.0
    ensures ClipPoly(poly, p) == []
  {
    if poly != [] {
      DroppedPrefix(poly, p, |poly|);
    }
  }

  lemma {:induction false} DroppedPrefix(poly: seq<ClipVert>, p: Plane, k: nat)
    requires k <= |poly| && forall i :: 0 <= i < |poly| ==> Dist(p, poly[i].clip) < 0.0
    ensures ClipEdges(poly, p, k) == []
  {
    if k > 0 {
      DroppedPrefix(poly, p, k - 1);
    }
  }

  /** A vertex the clipper made for edge prev -> cur: the crossing at a
      parameter t in [0, 1], exactly on the plane. */
  ghost predicate MadeOn(p: Plane, prev: ClipVert, cur: ClipVert, v: ClipVert) {
    Dist(p, v.clip) == 0.0 && exists t :: 0.0 <= t <= 1.0 && v == Intersect(prev, cur, t)
  }

  /** The crossing of an edge whose ends are on opposite sides. */
  lemma CrossingOnPlane(p: Plane, prev: ClipVert, cur: ClipVert)
    requires (Dist(p, prev.clip) >= 0.0) != (Dist(p, cur.clip) >= 0.0)
    ensures |Crossing(p, prev, cur)| == 1 && MadeOn(p, prev, cur, Crossing(p, prev, cur)[0])
  {
    var pd, cd := Dist(p, prev.clip), Dist(p, cur.clip);
    var t := pd / (pd - cd);
    OppositeParameter(pd, cd);
    DistLerp(p, prev.clip, cur.clip, t);
    CrossingZero(pd, cd);
  }

  /** With the ends on opposite sides, t = pd / (pd - cd) lies in [0, 1]. */
  lemma OppositeParameter(pd: real, cd: real)
    requires (pd >= 0.0) != (cd >= 0.0)
    ensures pd - cd != 0.0 && 0.0 <= pd / (pd - cd) <= 1.0
  {
    if pd >= 0.0 {
      assert pd - cd > 0.0 && pd <= pd - cd;
    } else {
      assert pd - cd < 0.0 && pd - cd <= pd;
    }
  }

  lemma CrossingZero(pd: real, cd: real)
    requires pd - cd != 0.0
    ensures pd + (pd / (pd - cd)) * (cd - pd) == 0.0
  {
    assert (pd / (pd - cd)) * (cd - pd) == -pd;
  }

  /** Every vertex of one edge's output is inside the plane, and is either
      the edge's current vertex or a crossing made on the plane. */
  lemma EdgeVertices(p: Plane, prev: ClipVert, cur: ClipVert)
    ensures forall v :: v in EdgeOut(p, prev, cur) ==>
      Dist(p, v.clip) >= 0.0 && (v == cur || MadeOn(p, prev, cur, v))
  {
    if (Dist(p, prev.clip) >= 0.0) != (Dist(p, cur.clip) >= 0.0) {
      CrossingOnPlane(p, prev, cur);
    }
  }

  /** Every output vertex is inside the plane: an input vertex, or the
      crossing of some input edge, at t in [0, 1], exactly on the plane. */
  lemma ClipVertices(poly: seq<ClipVert>, p: Plane)
    ensures forall v :: v in ClipPoly(poly, p) ==>
      Dist(p, v.clip) >= 0.0 &&
      (v in poly || exists k :: 0 <= k < |poly| && MadeOn(p, PrevOf(poly, k), poly[k], v))
  {
    if poly != [] {
      PrefixVertices(poly, p, |poly|);
    }
  }

  lemma {:induction false} PrefixVertices(poly: seq<ClipVert>, p: Plane, n: nat)
    requires n <= |poly|
    ensures forall v :: v in ClipEdges(poly, p, n) ==>
      Dist(p, v.clip) >= 0.0 &&
      (v in poly || exists k :: 0 <= k < |poly| && MadeOn(p, PrevOf(poly, k), poly[k], v))
  {
    if n > 0 {
      var k := n - 1;
      PrefixVertices(poly, p, k);
      EdgeVertices(p, PrevOf(poly, k), poly[k]);
      forall v | v in EdgeOut(p, PrevOf(poly, k), poly[k])
        ensures v in poly || exists k' :: 0 <= k' < |poly| && MadeOn(p, PrevOf(poly, k'), poly[k'], v)
      {
        EdgeVertexSource(poly, p, k, v);
      }
    }
  }

  lemma EdgeVertexSource(poly: seq<ClipVert>, p: Plane, k: int, v: ClipVert)
    requires 0 <= k < |poly| && (v == poly[k] || MadeOn(p, PrevOf(poly, k), poly[k], v))
    ensures v in poly || exists k' :: 0 <= k' < |poly| && MadeOn(p, PrevOf(poly, k'), poly[k'], v)
  {
  }

  /** A crossing of two vertices inside a plane is inside it too. */
  lemma MadeInside(p: Plane, q: Plane, prev: ClipVert, cur: ClipVert, v: ClipVert)
    requires Dist(q, prev.clip) >= 0.0 && Dist(q, cur.clip) >= 0.0 && MadeOn(p, prev, cur, v)
    ensures Dist(q, v.clip) >= 0.0
  {
    var t :| 0.0 <= t <= 1.0 && v == Intersect(prev, cur, t);
    LerpInside(q, prev.clip, cur.clip, t);
  }

  lemma LerpInside(q: Plane, a: Vec4, b: Vec4, t: real)
    requires Dist(q, a) >= 0.0 && Dist(q, b) >= 0.0 && 0.0 <= t <= 1.0
    ensures Dist(q, Lerp4(a, b, t)) >= 0.0
  {
    DistLerp(q, a, b, t);
    Convex(Dist(q, a), Dist(q, b), t);
  }

  lemma Convex(da: real, db: real, t: real)
    requires da >= 0.0 && db >= 0.0 && 0.0 <= t <= 1.0
    ensures da + t * (db - da) >= 0.0
  {
    NonNegProduct(1.0 - t, da);
    NonNegProduct(t, db);
    assert da + t * (db - da) == (1.0 - t) * da + t * db;
  }

  lemma NonNegProduct(x: real, y: real)
    requires x >= 0.0 && y >= 0.0
    ensures x * y >= 0.0
  {
  }

  /** Clipping against one plane keeps a polygon inside any plane it was
      already inside: the clip volume is convex. */
  lemma ClipPreserves(poly: seq<ClipVert>, p: Plane, q: Plane)
    requires forall v :: v in poly ==> Dist(q, v.clip) >= 0.0
    ensures forall v :: v in ClipPoly(poly, p) ==> Dist(q, v.clip) >= 0.0
  {
    ClipVertices(poly, p);
    forall v | v in ClipPoly(poly, p)
      ensures Dist(q, v.clip) >= 0.0
    {
      if v !in poly {
        var k :| 0 <= k < |poly| && MadeOn(p, PrevOf(poly, k), poly[k], v);
        MadeInside(p, q, PrevOf(poly, k), poly[k], v);
      }
    }
  }

  /** When every input vertex has a UV, so does every output vertex. */
  lemma ClipKeepsUvs(poly: seq<ClipVert>, p: Plane)
    requires forall v :: v in poly ==> v.uv.Some?
    ensures forall v :: v in ClipPoly(poly, p) ==> v.uv.Some?
  {
    ClipVertices(poly, p);
    forall v | v in ClipPoly(poly, p)
      ensures v.uv.Some?
    {
      if v !in poly {
        var k :| 0 <= k < |poly| && MadeOn(p, PrevOf(poly, k), poly[k], v);
        var t :| 0.0 <= t <= 1.0 && v == Intersect(PrevOf(poly, k), poly[k], t);
      }
    }
  }

  // ------------------------------------------------------ the triangle

  /** `out` after the first i planes of `_clip_triangle`; an output below
      three vertices ends the clip with []. */
  function Clipped(poly: seq<ClipVert>, i: nat): seq<ClipVert>
    requires i <= 6
  {
    if i == 0 then poly
    else
      var o := ClipPoly(Clipped(poly, i - 1), Planes()[i - 1]);
      if |o| < 3 then [] else o
  }

  /** `_clip_triangle(poly)`. */
  function ClipTriangle(poly: seq<ClipVert>): seq<ClipVert> {
    Clipped(poly, 6)
  }

  /** Once the clip has emptied the polygon it stays empty. */
  lemma {:induction false} ClippedStaysEmpty(poly: seq<ClipVert>, i: nat, j: nat)
    requires i <= j <= 6 && Clipped(poly, i) == []
    ensures Clipped(poly, j) == []
    decreases j
  {
    if j > i {
      ClippedStaysEmpty(poly, i, j - 1);
    }
  }

  /** The plane loop of `_clip_triangle`, returning [] as soon as fewer
      than three vertices remain. */
  method ClipTriangleLoop(poly: seq<ClipVert>) returns (out: seq<ClipVert>)
    ensures out == ClipTriangle(poly)
  {
    var planes := [Left, Right, Bottom, Top, Near, Far];
    out := poly;
    for i := 0 to 6
      invariant out == Clipped(poly, i)
    {
      out := ClipPolyAgainstPlane(out, planes[i]);
      if |out| < 3 {
        assert Clipped(poly, i + 1) == [];
        ClippedStaysEmpty(poly, i + 1, 6);
        return [];
      }
    }
  }

  /** After i >= 1 planes the polygon is empty or has at least three
      vertices, each inside the first i planes. */
  lemma {:induction false} ClippedInside(poly: seq<ClipVert>, i: nat)
    requires 1 <= i <= 6
    ensures var r := Clipped(poly, i);
      r == [] || (|r| >= 3 && forall v :: v in r ==> forall j :: 0 <= j < i ==> Dist(Planes()[j], v.clip) >= 0.0)
  {
    var o := ClipPoly(Clipped(poly, i - 1), Planes()[i - 1]);
    ClipVertices(Clipped(poly, i - 1), Planes()[i - 1]);
    if i > 1 {
      ClippedInside(poly, i - 1);
      var prev := Clipped(poly, i - 1);
      forall j | 0 <= j < i - 1
        ensures forall v :: v in o ==> Dist(Planes()[j], v.clip) >= 0.0
      {
        ClipPreserves(prev, Planes()[i - 1], Planes()[j]);
      }
    }
  }

  /** `_clip_triangle` returns [] or a polygon of at least three vertices,
      every one inside the clip volume. */
  lemma ClipTriangleInVolume(poly: seq<ClipVert>)
    ensures var r := ClipTriangle(poly);
      r == [] || (|r| >= 3 && forall v :: v in r ==> InVolume(v.clip))
  {
    ClippedInside(poly, 6);
    forall v | v in ClipTriangle(poly)
      ensures InVolume(v.clip)
    {
      InVolumePlanes(v.clip);
    }
  }

  /** A polygon of three or more vertices wholly inside the volume passes
      through unchanged. */
  lemma ClipTriangleVisible(poly: seq<ClipVert>)
    requires |poly| >= 3 && forall i :: 0 <= i < |poly| ==> InVolume(poly[i].clip)
    ensures ClipTriangle(poly) == poly
  {
    forall i | 0 <= i < |poly|
      ensures forall j :: 0 <= j < 6 ==> Dist(Planes()[j], poly[i].clip) >= 0.0
    {
      InVolumePlanes(poly[i].clip);
    }
    UnclippedPrefix(poly, 6);
  }

  lemma {:induction false} UnclippedPrefix(poly: seq<ClipVert>, i: nat)
    requires i <= 6 && |poly| >= 3
    requires forall k :: 0 <= k < |poly| ==> forall j :: 0 <= j < 6 ==> Dist(Planes()[j], poly[k].clip) >= 0.0
    ensures Clipped(poly, i) == poly
  {
    if i > 0 {
      UnclippedPrefix(poly, i - 1);
      ClipKeepsInside(poly, Planes()[i - 1]);
    }
  }

  /** With UVs on every input vertex, every vertex `_clip_triangle` returns
      has one. */
  lemma {:induction false} ClipTriangleUvs(poly: seq<ClipVert>, i: nat)
    requires i <= 6 && forall v :: v in poly ==> v.uv.Some?
    ensures forall v :: v in Clipped(poly, i) ==> v.uv.Some?
  {
    if i > 0 {
      ClipTriangleUvs(poly, i - 1);
      ClipKeepsUvs(Clipped(poly, i - 1), Planes()[i - 1]);
    }
  }
}
