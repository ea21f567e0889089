/** The 3D pipeline: vertices go to world and clip space, each triangle is
    clipped, fan-triangulated, perspective-divided, back-face culled,
    mapped to the screen and handed to a Z-buffered kernel, flat-shaded
    from the scene's point lights. */
module Rendering {
  import opened Util
  import opened LinAlg
  import opened Scene
  import opened State
  import opened Raster
  import opened Primitives
  import opened Clipping

  const BackfaceCull := true

  // ------------------------------------------------- screen and camera

  /** `ndc_to_screen(ndc, w, h)`: NDC [-1, 1] to pixels [0, w-1] x [0, h-1],
      with y flipped. */
  function NdcToScreen(ndc: Vec3, w: int, h: int): Vec3 {
    Vec3((ndc.x * 0.5 + 0.5) * (w - 1) as real, (1.0 - (ndc.y * 0.5 + 0.5)) * (h - 1) as real, ndc.z)
  }

  /** The NDC square's corners land on the screen's corners (y = 1 at the
      top), depth untouched. */
  lemma NdcToScreenCorners(w: int, h: int, z: real)
    ensures NdcToScreen(Vec3(-1.0, 1.0, z), w, h) == Vec3(0.0, 0.0, z)
    ensures NdcToScreen(Vec3(1.0, -1.0, z), w, h) == Vec3((w - 1) as real, (h - 1) as real, z)
  {
    ZeroScaled((w - 1) as real);
    ZeroScaled((h - 1) as real);
  }

  lemma ZeroScaled(m: real)
    ensures ((-1.0) * 0.5 + 0.5) * m == 0.0 && (1.0 - (1.0 * 0.5 + 0.5)) * m == 0.0
    ensures (1.0 * 0.5 + 0.5) * m == m && (1.0 - ((-1.0) * 0.5 + 0.5)) * m == m
  {
  }

  /** The NDC square lands on the screen, and depth passes through. */
  lemma NdcToScreenBounds(w: int, h: int, ndc: Vec3)
    ensures NdcToScreen(ndc, w, h).z == ndc.z
    ensures w >= 1 && h >= 1 && -1.0 <= ndc.x <= 1.0 && -1.0 <= ndc.y <= 1.0 ==>
      var s := NdcToScreen(ndc, w, h);
      0.0 <= s.x <= (w - 1) as real && 0.0 <= s.y <= (h - 1) as real
  {
    if w >= 1 && h >= 1 && -1.0 <= ndc.x <= 1.0 && -1.0 <= ndc.y <= 1.0 {
      var mw, mh := (w - 1) as real, (h - 1) as real;
      var u, v := ndc.x * 0.5 + 0.5, 1.0 - (ndc.y * 0.5 + 0.5);
      assert 0.0 <= u <= 1.0 && 0.0 <= v <= 1.0;
      UnitScaled(u, mw);
      UnitScaled(v, mh);
      assert NdcToScreen(ndc, w, h) == Vec3(u * mw, v * mh, ndc.z);
    }
  }

  lemma UnitScaled(u: real, m: real)
    requires 0.0 <= u <= 1.0 && m >= 0.0
    ensures 0.0 <= u * m <= m
  {
    assert u * m <= 1.0 * m by {
      NonNegProduct(1.0 - u, m);
      assert (1.0 - u) * m == m - u * m;
    }
    NonNegProduct(u, m);
  }

  /** `(w / h) if h else 1.0`. */
  function Aspect(w: int, h: int): real {
    if h != 0 then w as real / h as real else 1.0
  }

  /** `ortho_for_surface(w, h, half_height, near, far)`. A zero width,
      height or depth of the box divides by zero in `Mat4.ortho`. */
  function OrthoForSurface(w: int, h: int, halfHeight: real, near: real, far: real): Mat4
    requires halfHeight != 0.0 && Aspect(w, h) != 0.0 && near != far
  {
    var halfWidth := halfHeight * Aspect(w, h);
    Ortho(-halfWidth, halfWidth, -halfHeight, halfHeight, near, far)
  }

  /** The view box of half-height hh and the surface's aspect maps onto the
      NDC cube: its near top-right corner to (1, 1, -1), its far
      bottom-left corner to (-1, -1, 1). */
  lemma OrthoCorners(w: int, h: int, halfHeight: real, near: real, far: real)
    requires halfHeight != 0.0 && Aspect(w, h) != 0.0 && near != far
    ensures var hw := halfHeight * Aspect(w, h);
      var m := OrthoForSurface(w, h, halfHeight, near, far);
      TransformPoint(m, Vec3(hw, halfHeight, -near)) == Vec3(1.0, 1.0, -1.0) &&
      TransformPoint(m, Vec3(-hw, -halfHeight, -far)) == Vec3(-1.0, -1.0, 1.0)
  {
    var hw := halfHeight * Aspect(w, h);
    assert hw != 0.0;
    OrthoAxis(hw);
    OrthoAxis(halfHeight);
    OrthoDepth(near, far);
  }

  lemma OrthoAxis(s: real)
    requires s != 0.0
    ensures 2.0 / (s - -s) * s + -(s + -s) / (s - -s) == 1.0
    ensures 2.0 / (s - -s) * -s + -(s + -s) / (s - -s) == -1.0
  {
    assert s - -s == 2.0 * s;
  }

  lemma OrthoDepth(n: real, f: real)
    requires n != f
    ensures -2.0 / (f - n) * -n + -(f + n) / (f - n) == -1.0
    ensures -2.0 / (f - n) * -f + -(f + n) / (f - n) == 1.0
  {
    assert -2.0 / (f - n) * -n == 2.0 * n / (f - n);
    assert -2.0 / (f - n) * -f == 2.0 * f / (f - n);
  }

  // ------------------------------------------------------- flat shading

  /** `PointLight(pos, color, intensity)`, colour in 0..1. */
  datatype PointLight = PointLight(pos: Vec3, color: Vec3, intensity: real)

  /** The renderer's `Scene(lights, ambient)`. */
  datatype Lighting = Lighting(lights: seq<PointLight>, ambient: real)

  /** `Vec3.norm()`, left abstract. */
  type NormFn = Vec3 -> Vec3

  /** One light's contribution `light.color * (max(0, n . ldir) * intensity)`. */
  function LightTerm(l: PointLight, n: Vec3, pos: Vec3, norm: NormFn): Vec3 {
    Scale3(l.color, Max(0.0, Dot3(n, norm(Sub3(l.pos, pos)))) * l.intensity)
  }

  /** `s` after the first k lights. */
  function LightSum(sc: Lighting, n: Vec3, pos: Vec3, norm: NormFn, k: nat): Vec3
    requires k <= |sc.lights|
  {
    if k == 0 then Splat3(sc.ambient) else Add3(LightSum(sc, n, pos, norm, k - 1), LightTerm(sc.lights[k - 1], n, pos, norm))
  }

  /** `shade_flat(scene, normal_ws, pos_ws)`. */
  function Shading(sc: Lighting, normal: Vec3, pos: Vec3, norm: NormFn): Vec3 {
    Clamp3(LightSum(sc, norm(normal), pos, norm, |sc.lights|), 0.0, 1e9)
  }

  /** The loop of `shade_flat`. */
  method ShadeFlat(sc: Lighting, normal: Vec3, pos: Vec3, norm: NormFn) returns (s: Vec3)
    ensures s == Shading(sc, normal, pos, norm)
  {
    var n := norm(normal);
    s := Splat3(sc.ambient);
    for i := 0 to |sc.lights|
      invariant s == LightSum(sc, n, pos, norm, i)
    {
      var light := sc.lights[i];
      var ldir := norm(Sub3(light.pos, pos));
      var ndotl := Max(0.0, Dot3(n, ldir)) * light.intensity;
      s := Add3(s, Scale3(light.color, ndotl));
    }
    s := Clamp3(s, 0.0, 1e9);
  }

  /** Lights of non-negative colour and intensity only brighten. */
  predicate Brightening(l: PointLight) {
    l.color.x >= 0.0 && l.color.y >= 0.0 && l.color.z >= 0.0 && l.intensity >= 0.0
  }

  /** With such lights and an ambient level in range, no channel of the
      shade falls below the ambient level. */
  lemma ShadingAtLeastAmbient(sc: Lighting, normal: Vec3, pos: Vec3, norm: NormFn)
    requires 0.0 <= sc.ambient <= 1e9 && forall l :: l in sc.lights ==> Brightening(l)
    ensures var s := Shading(sc, normal, pos, norm);
      s.x >= sc.ambient && s.y >= sc.ambient && s.z >= sc.ambient
  {
    SumAtLeastAmbient(sc, norm(normal), pos, norm, |sc.lights|);
  }

  lemma {:induction false} SumAtLeastAmbient(sc: Lighting, n: Vec3, pos: Vec3, norm: NormFn, k: nat)
    requires k <= |sc.lights| && forall l :: l in sc.lights ==> Brightening(l)
    ensures var s := LightSum(sc, n, pos, norm, k);
      s.x >= sc.ambient && s.y >= sc.ambient && s.z >= sc.ambient
  {
    if k > 0 {
      SumAtLeastAmbient(sc, n, pos, norm, k - 1);
      var l := sc.lights[k - 1];
      assert l in sc.lights;
      var f := Max(0.0, Dot3(n, norm(Sub3(l.pos, pos)))) * l.intensity;
      NonNegProduct(Max(0.0, Dot3(n, norm(Sub3(l.pos, pos)))), l.intensity);
      NonNegProduct(l.color.x, f);
      NonNegProduct(l.color.y, f);
      NonNegProduct(l.color.z, f);
    }
  }

  // ------------------------------------------------- what gets drawn

  /** `(int(255 * c.x), int(255 * c.y), int(255 * c.z), 255)` of the clamped
      `shade * base_color`. */
  function FlatColor(shade: Vec3, base: Vec3): (r: Color)
    ensures ColorOk(r) && r.a == 255
  {
    var col := Clamp3(Mul3(shade, base), 0.0, 1.0);
    Color(Trunc(255.0 * col.x), Trunc(255.0 * col.y), Trunc(255.0 * col.z), 255)
  }

  /** `area` of the NDC triangle, before the y flip. */
  function NdcArea(a: Vec3, b: Vec3, c: Vec3): real {
    (b.x - a.x) * (c.y - a.y) - (b.y - a.y) * (c.x - a.x)
  }

  /** The back-face test: non-positive area for counter-clockwise front
      faces, non-negative for clockwise ones. */
  predicate BackFacing(ccw: bool, a: Vec3, b: Vec3, c: Vec3) {
    if ccw then NdcArea(a, b, c) <= 0.0 else NdcArea(a, b, c) >= 0.0
  }

  /** Reversing the winding convention and the vertex order together leaves
      the decision unchanged; a zero-area triangle is back-facing either way. */
  lemma BackFacingWinding(ccw: bool, a: Vec3, b: Vec3, c: Vec3)
    ensures BackFacing(ccw, a, b, c) <==> BackFacing(!ccw, a, c, b)
    ensures NdcArea(a, b, c) == 0.0 ==> BackFacing(true, a, b, c) && BackFacing(false, a, b, c)
  {
    assert NdcArea(a, c, b) == -NdcArea(a, b, c);
  }

  /** Everything `draw_model` fixes before its triangle loop. */
  datatype DrawCtx = DrawCtx(clip: seq<Vec4>, world: seq<Vec3>, uvs: seq<Vec2>, useTex: bool, tex: Image,
                             base: Vec3, scene: Option<Lighting>, norm: NormFn,
                             cull: bool, ccw: bool, w: int, h: int, deferred: bool)

  /** `verts_ws = [model_mat @ v for v in verts_ms]`. */
  function WorldVerts(positions: seq<Vec3>, model: Mat4): (r: seq<Vec3>)
    ensures |r| == |positions|
  {
    seq(|positions|, i requires 0 <= i < |positions| => TransformPoint(model, positions[i]))
  }

  /** `verts_clip = [viewproj @ Vec4(v.x, v.y, v.z, 1.0) for v in verts_ws]`. */
  function ClipVerts(world: seq<Vec3>, viewproj: Mat4): (r: seq<Vec4>)
    ensures |r| == |world|
  {
    seq(|world|, i requires 0 <= i < |world| => MulVec4(viewproj, Vec4(world[i].x, world[i].y, world[i].z, 1.0)))
  }

  function MakeCtx(mesh: Mesh, material: Material, model: Mat4, view: Mat4, proj: Mat4, scene: Option<Lighting>,
                   norm: NormFn, cull: bool, ccw: bool, w: int, h: int, deferred: bool): DrawCtx
  {
    var world := WorldVerts(mesh.positions, model);
    var useTex := material.baseColorTex.Some? && mesh.uvs.Some?;
    DrawCtx(ClipVerts(world, MatMul(proj, view)), world, if mesh.uvs.Some? then mesh.uvs.value else [], useTex,
            if material.baseColorTex.Some? then material.baseColorTex.value.surface else Image(0, 0, []),
            material.baseColor, scene, norm, cull, ccw, w, h, deferred)
  }

  /** The indices a triangle may use, and a texture the kernel can sample. */
  predicate CtxOk(ctx: DrawCtx) {
    |ctx.world| == |ctx.clip| && (ctx.useTex ==> |ctx.uvs| == |ctx.clip| && ImageOk(ctx.tex) && ctx.tex.width >= 1 && ctx.tex.height >= 1)
  }

  predicate TriOk(ctx: DrawCtx, t: Tri) {
    IndexOk(t.i1, |ctx.clip|) && IndexOk(t.i2, |ctx.clip|) && IndexOk(t.i3, |ctx.clip|)
  }

  /** The kernel call for fan triangle (va, vb, vc), if it is drawn: none when
      a w is zero, when it is culled, or when a textured draw lacks a UV. */
  function FanKernel(ctx: DrawCtx, va: ClipVert, vb: ClipVert, vc: ClipVert, shade: Vec3): Option<Kernel> {
    if va.clip.w == 0.0 || vb.clip.w == 0.0 || vc.clip.w == 0.0 then None
    else
      var a, b, c := PerspectiveDivide(va.clip), PerspectiveDivide(vb.clip), PerspectiveDivide(vc.clip);
      if BackfaceCull && ctx.cull && BackFacing(ctx.ccw, a, b, c) then None
      else
        var p1, p2, p3 := NdcToScreen(a, ctx.w, ctx.h), NdcToScreen(b, ctx.w, ctx.h), NdcToScreen(c, ctx.w, ctx.h);
        if ctx.useTex then
          if va.uv.None? || vb.uv.None? || vc.uv.None? then None
          else Some(Textured(p1, p2, p3, va.uv.value, vb.uv.value, vc.uv.value, ctx.tex, Mul3(shade, ctx.base), ctx.deferred))
        else Some(FlatZ(p1, p2, p3, FlatColor(shade, ctx.base)))
  }

  function Opt(o: Option<Kernel>): seq<Kernel> {
    if o.Some? then [o.value] else []
  }

  /** The kernels of fan triangles (poly[0], poly[k], poly[k + 1]) for k in [1, m). */
  function Fan(ctx: DrawCtx, poly: seq<ClipVert>, shade: Vec3, m: int): seq<Kernel>
    requires m < |poly|
    decreases m
  {
    if m <= 1 then [] else Fan(ctx, poly, shade, m - 1) + Opt(FanKernel(ctx, poly[0], poly[m - 1], poly[m], shade))
  }

  /** The flat shade of triangle t: lit from the face normal at the
      centroid when there is a scene, else white. */
  function TriShade(ctx: DrawCtx, t: Tri): Vec3
    requires CtxOk(ctx) && TriOk(ctx, t)
  {
    if ctx.scene.Some? then
      var p1, p2, p3 := ctx.world[t.i1], ctx.world[t.i2], ctx.world[t.i3];
      var n := ctx.norm(Cross3(Sub3(p2, p1), Sub3(p3, p1)));
      var c := Scale3(Add3(Add3(p1, p2), p3), 1.0 / 3.0);
      Shading(ctx.scene.value, n, c, ctx.norm)
    else Splat3(1.0)
  }

  /** The clip-space triangle t with its UVs when texturing. */
  function TriPoly(ctx: DrawCtx, t: Tri): seq<ClipVert>
    requires CtxOk(ctx) && TriOk(ctx, t)
  {
    var uv1 := if ctx.useTex then Some(ctx.uvs[t.i1]) else None;
    var uv2 := if ctx.useTex then Some(ctx.uvs[t.i2]) else None;
    var uv3 := if ctx.useTex then Some(ctx.uvs[t.i3]) else None;
    [ClipVert(ctx.clip[t.i1], uv1), ClipVert(ctx.clip[t.i2], uv2), ClipVert(ctx.clip[t.i3], uv3)]
  }

  /** The kernels one triangle of the mesh is drawn with. */
  function TriKernels(ctx: DrawCtx, t: Tri): seq<Kernel>
    requires CtxOk(ctx) && TriOk(ctx, t)
  {
    var poly := ClipTriangle(TriPoly(ctx, t));
    if |poly| < 3 then [] else Fan(ctx, poly, TriShade(ctx, t), |poly| - 1)
  }

  /** The kernels of each triangle of the mesh. */
  function PerTri(ctx: DrawCtx, tris: seq<Tri>): seq<seq<Kernel>>
    requires CtxOk(ctx) && forall t :: t in tris ==> TriOk(ctx, t)
  {
    seq(|tris|, j requires 0 <= j < |tris| => TriKernels(ctx, tris[j]))
  }

  function Concat(ss: seq<seq<Kernel>>): seq<Kernel>
    decreases |ss|
  {
    if ss == [] then [] else Concat(ss[..|ss| - 1]) + ss[|ss| - 1]
  }

  lemma ConcatSnoc(ss: seq<seq<Kernel>>, i: int)
    requires 0 <= i < |ss|
    ensures Concat(ss[..i + 1]) == Concat(ss[..i]) + ss[i]
  {
    assert ss[..i + 1][..i] == ss[..i];
  }

  /** The kernels of all triangles, in index order. */
  function ModelKernels(ctx: DrawCtx, tris: seq<Tri>): seq<Kernel>
    requires CtxOk(ctx) && forall t :: t in tris ==> TriOk(ctx, t)
  {
    Concat(PerTri(ctx, tris))
  }

  lemma {:induction false} ConcatMember(ss: seq<seq<Kernel>>, k: Kernel)
    ensures k in Concat(ss) <==> exists j :: 0 <= j < |ss| && k in ss[j]
    decreases |ss|
  {
    if ss != [] {
      var ss' := ss[..|ss| - 1];
      ConcatMember(ss', k);
      if k in Concat(ss') {
        var j :| 0 <= j < |ss'| && k in ss'[j];
        assert ss[j] == ss'[j];
      }
      if j :| 0 <= j < |ss| && k in ss[j] {
        if j < |ss'| {
          assert ss'[j] == ss[j];
        }
      }
    }
  }

  // ------------------------------------------- properties of that list

  /** A fan kernel is drawn exactly when every w is nonzero, the triangle
      is not culled (culling needs both `BACKFACE_CULL` and the primitive's
      flag) and, when texturing, every vertex has a UV. */
  lemma FanKernelDrawn(ctx: DrawCtx, va: ClipVert, vb: ClipVert, vc: ClipVert, shade: Vec3)
    ensures FanKernel(ctx, va, vb, vc, shade).Some? <==>
      va.clip.w != 0.0 && vb.clip.w != 0.0 && vc.clip.w != 0.0 &&
      !(ctx.cull && BackFacing(ctx.ccw, PerspectiveDivide(va.clip), PerspectiveDivide(vb.clip), PerspectiveDivide(vc.clip))) &&
      (ctx.useTex ==> va.uv.Some? && vb.uv.Some? && vc.uv.Some?)
    ensures FanKernel(ctx, va, vb, vc, shade).Some? ==>
      var k := FanKernel(ctx, va, vb, vc, shade).value;
      (k.Textured? <==> ctx.useTex) && (k.FlatZ? ==> ColorOk(k.col) && k.col.a == 255) &&
      XY(k.a) == XY(NdcToScreen(PerspectiveDivide(va.clip), ctx.w, ctx.h))
  {
  }

  /** An n-vertex polygon yields at most the n - 2 fan triangles
      (poly[0], poly[k], poly[k + 1]), each a drawn kernel of its triangle,
      and every drawn one is in the list. */
  lemma {:induction false} FanMember(ctx: DrawCtx, poly: seq<ClipVert>, shade: Vec3, m: int, k: Kernel)
    requires 1 <= m < |poly|
    ensures |Fan(ctx, poly, shade, m)| <= m - 1
    ensures k in Fan(ctx, poly, shade, m) <==>
      exists j :: 1 <= j < m && FanKernel(ctx, poly[0], poly[j], poly[j + 1], shade) == Some(k)
    decreases m
  {
    if m > 1 {
      FanMember(ctx, poly, shade, m - 1, k);
      var jl := m - 1;
      if FanKernel(ctx, poly[0], poly[jl], poly[jl + 1], shade) == Some(k) {
        assert 1 <= jl < m;
      }
    }
  }

  /** Every kernel `draw_model` calls can run: its texture, if any, is a
      non-empty 8-bit image. */
  lemma ModelKernelsOk(ctx: DrawCtx, tris: seq<Tri>)
    requires CtxOk(ctx) && forall t :: t in tris ==> TriOk(ctx, t)
    ensures forall kern :: kern in ModelKernels(ctx, tris) ==> TexOk(kern)
  {
    forall kern | kern in ModelKernels(ctx, tris)
      ensures TexOk(kern)
    {
      var per := PerTri(ctx, tris);
      ConcatMember(per, kern);
      var j :| 0 <= j < |per| && kern in per[j];
      assert tris[j] in tris;
      TriKernelsOk(ctx, tris[j]);
    }
  }

  lemma TriKernelsOk(ctx: DrawCtx, t: Tri)
    requires CtxOk(ctx) && TriOk(ctx, t)
    ensures forall kern :: kern in TriKernels(ctx, t) ==> TexOk(kern)
  {
    var poly := ClipTriangle(TriPoly(ctx, t));
    if |poly| >= 3 {
      forall kern | kern in TriKernels(ctx, t)
        ensures TexOk(kern)
      {
        FanMember(ctx, poly, TriShade(ctx, t), |poly| - 1, kern);
      }
    }
  }

  /** With texturing on, the clipped vertices all carry UVs, so no fan
      triangle is dropped for a missing one. */
  lemma TexturedPolyHasUvs(ctx: DrawCtx, t: Tri)
    requires CtxOk(ctx) && TriOk(ctx, t) && ctx.useTex
    ensures forall v :: v in ClipTriangle(TriPoly(ctx, t)) ==> v.uv.Some?
  {
    ClipTriangleUvs(TriPoly(ctx, t), 6);
  }

  // ---------------------------------------------- running the kernels

  /** The depth buffer and the plots after running kernels ks in order. */
  function RunAll(ks: seq<Kernel>, w: int, h: int, z0: seq<Depth>): Raster
    requires forall k :: k in ks ==> TexOk(k)
    decreases |ks|
  {
    if ks == [] then Raster(z0, [])
    else
      var r := RunAll(ks[..|ks| - 1], w, h, z0);
      var s := Rasterize(ks[|ks| - 1], w, h, Raster(r.zbuf, []));
      Raster(s.zbuf, r.evs + s.evs)
  }

  /** Over any sequence of kernel calls the depth buffer keeps its size and
      no entry ever moves farther away. */
  lemma {:induction false} RunAllDepths(ks: seq<Kernel>, w: int, h: int, z0: seq<Depth>)
    requires (forall k :: k in ks ==> TexOk(k)) && w > 0
    ensures var r := RunAll(ks, w, h, z0);
      |r.zbuf| == |z0| && forall j :: 0 <= j < |z0| ==> NoFarther(r.zbuf[j], z0[j])
    decreases |ks|
  {
    if ks != [] {
      var ks' := ks[..|ks| - 1];
      assert forall k :: k in ks' ==> k in ks;
      RunAllDepths(ks', w, h, z0);
      var r := RunAll(ks', w, h, z0);
      RasterizeDepths(ks[|ks| - 1], w, h, r.zbuf);
    }
  }

  /** Every plot event lands on the w x h surface. */
  predicate OnScreen(evs: seq<Event>, w: int, h: int) {
    forall i :: 0 <= i < |evs| ==> 0 <= EvX(evs[i]) < w && 0 <= EvY(evs[i]) < h
  }

  lemma OnScreenAppend(evs: seq<Event>, more: seq<Event>, w: int, h: int)
    requires OnScreen(evs, w, h) && OnScreen(more, w, h)
    ensures OnScreen(evs + more, w, h)
  {
    forall i | 0 <= i < |evs + more|
      ensures 0 <= EvX((evs + more)[i]) < w && 0 <= EvY((evs + more)[i]) < h
    {
      if i < |evs| {
        assert (evs + more)[i] == evs[i];
      } else {
        assert (evs + more)[i] == more[i - |evs|];
      }
    }
  }

  lemma KernelOnScreen(k: Kernel, w: int, h: int, z0: seq<Depth>)
    requires TexOk(k) && w > 0
    ensures OnScreen(Rasterize(k, w, h, Raster(z0, [])).evs, w, h)
  {
    RasterizeOnScreen(k, w, h, z0);
  }

  /** Every pixel any of the kernels plots lies on the w x h surface. */
  lemma {:induction false} RunAllOnScreen(ks: seq<Kernel>, w: int, h: int, z0: seq<Depth>)
    requires (forall k :: k in ks ==> TexOk(k)) && w > 0
    ensures OnScreen(RunAll(ks, w, h, z0).evs, w, h)
    decreases |ks|
  {
    if ks != [] {
      var ks' := ks[..|ks| - 1];
      assert forall k :: k in ks' ==> k in ks;
      RunAllOnScreen(ks', w, h, z0);
      var r := RunAll(ks', w, h, z0);
      KernelOnScreen(ks[|ks| - 1], w, h, r.zbuf);
      OnScreenAppend(r.evs, Rasterize(ks[|ks| - 1], w, h, Raster(r.zbuf, [])).evs, w, h);
    }
  }

  /** The sink, surface and depth buffer are what running ks from (V0, z0) leaves. */
  ghost predicate Drawn(sink: Sink, surf: Surface, zbuf: array<Depth>, w: int, h: int, V0: SinkView, z0: seq<Depth>,
                        ks: seq<Kernel>)
    reads sink, surf, zbuf
  {
    V0.img.Valid() && surf.Valid() && surf.img.width == w && surf.img.height == h && zbuf.Length == w * h &&
    (forall k :: k in ks ==> TexOk(k)) &&
    var r := RunAll(ks, w, h, z0);
    zbuf[..] == r.zbuf && SinkView(sink.points, surf.img) == Replay(sink.mode, V0, r.evs)
  }

  /** Running one more kernel: what a kernel method does, composed. */
  lemma RunSnoc(mode: PlotMode, V0: SinkView, ks: seq<Kernel>, k: Kernel, w: int, h: int, z0: seq<Depth>)
    requires V0.img.Valid() && (forall k' :: k' in ks ==> TexOk(k')) && TexOk(k)
    ensures var r := RunAll(ks, w, h, z0);
      var s := Rasterize(k, w, h, Raster(r.zbuf, []));
      RunAll(ks + [k], w, h, z0) == Raster(s.zbuf, r.evs + s.evs) &&
      Replay(mode, Replay(mode, V0, r.evs), s.evs) == Replay(mode, V0, RunAll(ks + [k], w, h, z0).evs)
  {
    var r := RunAll(ks, w, h, z0);
    var s := Rasterize(k, w, h, Raster(r.zbuf, []));
    assert (ks + [k])[..|ks|] == ks;
    ReplayAppend(mode, V0, r.evs, s.evs);
  }

  // ----------------------------------------------------- the methods

  /** Calls the Z-buffered kernel k names. */
  method RunKernel(sink: Sink, surf: Surface, zbuf: array<Depth>, k: Kernel, w: int, h: int,
                   ghost V0: SinkView, ghost z0: seq<Depth>, ghost pre: seq<Kernel>)
    requires (k.FlatZ? || k.Textured?) && TexOk(k) && (k.Textured? ==> k.deferred == (sink.mode == Deferred))
    requires Drawn(sink, surf, zbuf, w, h, V0, z0, pre)
    modifies sink`points, surf, zbuf
    ensures Drawn(sink, surf, zbuf, w, h, V0, z0, pre + [k])
  {
    if k.FlatZ? {
      TriangleFilledZ(sink, surf, k.a, k.b, k.c, k.col, zbuf);
    } else {
      TriangleTexturedZ(sink, surf, k.a, k.b, k.c, k.uva, k.uvb, k.uvc, k.tex, zbuf, k.shade);
    }
    RunSnoc(sink.mode, V0, pre, k, w, h, z0);
  }

  /** The kernel of one fan triangle, computed the way the inner loop does. */
  method FanTriangle(ctx: DrawCtx, va: ClipVert, vb: ClipVert, vc: ClipVert, shade: Vec3) returns (kern: Option<Kernel>)
    ensures kern == FanKernel(ctx, va, vb, vc, shade)
  {
    if va.clip.w == 0.0 || vb.clip.w == 0.0 || vc.clip.w == 0.0 {
      return None;
    }
    var aNdc := PerspectiveDivide(va.clip);
    var bNdc := PerspectiveDivide(vb.clip);
    var cNdc := PerspectiveDivide(vc.clip);
    if BackfaceCull && ctx.cull {
      var area := (bNdc.x - aNdc.x) * (cNdc.y - aNdc.y) - (bNdc.y - aNdc.y) * (cNdc.x - aNdc.x);
      if ctx.ccw {
        if area <= 0.0 {
          return None;
        }
      } else {
        if area >= 0.0 {
          return None;
        }
      }
    }
    var p1s := NdcToScreen(aNdc, ctx.w, ctx.h);
    var p2s := NdcToScreen(bNdc, ctx.w, ctx.h);
    var p3s := NdcToScreen(cNdc, ctx.w, ctx.h);
    if ctx.useTex {
      if va.uv.None? || vb.uv.None? || vc.uv.None? {
        return None;
      }
      var triShade := Mul3(shade, ctx.base);
      return Some(Textured(p1s, p2s, p3s, va.uv.value, vb.uv.value, vc.uv.value, ctx.tex, triShade, ctx.deferred));
    }
    return Some(FlatZ(p1s, p2s, p3s, FlatColor(shade, ctx.base)));
  }

  /** One fan triangle of `draw_model`'s inner loop. */
  method DrawFanTriangle(sink: Sink, surf: Surface, zbuf: array<Depth>, ctx: DrawCtx, va: ClipVert, vb: ClipVert,
                         vc: ClipVert, shade: Vec3, ghost V0: SinkView, ghost z0: seq<Depth>, ghost pre: seq<Kernel>)
    requires CtxOk(ctx) && ctx.deferred == (sink.mode == Deferred)
    requires Drawn(sink, surf, zbuf, ctx.w, ctx.h, V0, z0, pre)
    modifies sink`points, surf, zbuf
    ensures Drawn(sink, surf, zbuf, ctx.w, ctx.h, V0, z0, pre + Opt(FanKernel(ctx, va, vb, vc, shade)))
  {
    var kern := FanTriangle(ctx, va, vb, vc, shade);
    if kern.Some? {
      KernelShape(ctx, va, vb, vc, shade);
      RunKernel(sink, surf, zbuf, kern.value, ctx.w, ctx.h, V0, z0, pre);
    } else {
      assert pre + [] == pre;
    }
  }

  lemma KernelShape(ctx: DrawCtx, va: ClipVert, vb: ClipVert, vc: ClipVert, shade: Vec3)
    requires CtxOk(ctx) && FanKernel(ctx, va, vb, vc, shade).Some?
    ensures var k := FanKernel(ctx, va, vb, vc, shade).value;
      (k.FlatZ? || k.Textured?) && TexOk(k) && (k.Textured? ==> k.deferred == ctx.deferred)
  {
  }

  /** `for k in range(1, len(poly) - 1)`: the fan of the clipped polygon. */
  method DrawFan(sink: Sink, surf: Surface, zbuf: array<Depth>, ctx: DrawCtx, poly: seq<ClipVert>, shade: Vec3,
                 ghost V0: SinkView, ghost z0: seq<Depth>, ghost pre: seq<Kernel>)
    requires CtxOk(ctx) && ctx.deferred == (sink.mode == Deferred) && |poly| >= 3
    requires Drawn(sink, surf, zbuf, ctx.w, ctx.h, V0, z0, pre)
    modifies sink`points, surf, zbuf
    ensures Drawn(sink, surf, zbuf, ctx.w, ctx.h, V0, z0, pre + Fan(ctx, poly, shade, |poly| - 1))
  {
    ghost var done := pre;
    assert done == pre + Fan(ctx, poly, shade, 1);
    for k := 1 to |poly| - 1
      invariant done == pre + Fan(ctx, poly, shade, k)
      invariant Drawn(sink, surf, zbuf, ctx.w, ctx.h, V0, z0, done)
    {
      DrawFanStep(sink, surf, zbuf, ctx, poly, shade, k, V0, z0, pre);
      done := pre + Fan(ctx, poly, shade, k + 1);
    }
  }

  /** Fan triangle (poly[0], poly[k], poly[k + 1]). */
  method DrawFanStep(sink: Sink, surf: Surface, zbuf: array<Depth>, ctx: DrawCtx, poly: seq<ClipVert>, shade: Vec3,
                     k: int, ghost V0: SinkView, ghost z0: seq<Depth>, ghost pre: seq<Kernel>)
    requires CtxOk(ctx) && ctx.deferred == (sink.mode == Deferred) && 1 <= k < |poly| - 1
    requires Drawn(sink, surf, zbuf, ctx.w, ctx.h, V0, z0, pre + Fan(ctx, poly, shade, k))
    modifies sink`points, surf, zbuf
    ensures Drawn(sink, surf, zbuf, ctx.w, ctx.h, V0, z0, pre + Fan(ctx, poly, shade, k + 1))
  {
    ghost var done := pre + Fan(ctx, poly, shade, k);
    DrawFanTriangle(sink, surf, zbuf, ctx, poly[0], poly[k], poly[k + 1], shade, V0, z0, done);
    assert pre + Fan(ctx, poly, shade, k + 1) == done + Opt(FanKernel(ctx, poly[0], poly[k], poly[k + 1], shade));
  }

  /** One iteration of `draw_model`'s triangle loop. */
  method DrawTriangle(sink: Sink, surf: Surface, zbuf: array<Depth>, ctx: DrawCtx, t: Tri,
                      ghost V0: SinkView, ghost z0: seq<Depth>, ghost pre: seq<Kernel>)
    requires CtxOk(ctx) && TriOk(ctx, t) && ctx.deferred == (sink.mode == Deferred)
    requires Drawn(sink, surf, zbuf, ctx.w, ctx.h, V0, z0, pre)
    modifies sink`points, surf, zbuf
    ensures Drawn(sink, surf, zbuf, ctx.w, ctx.h, V0, z0, pre + TriKernels(ctx, t))
  {
    var uv1, uv2, uv3 := None, None, None;
    if ctx.useTex {
      uv1, uv2, uv3 := Some(ctx.uvs[t.i1]), Some(ctx.uvs[t.i2]), Some(ctx.uvs[t.i3]);
    }
    var poly := ClipTriangleLoop([ClipVert(ctx.clip[t.i1], uv1), ClipVert(ctx.clip[t.i2], uv2), ClipVert(ctx.clip[t.i3], uv3)]);
    if |poly| < 3 {
      assert pre + [] == pre;
      return;
    }
    var shade;
    if ctx.scene.Some? {
      var p1w, p2w, p3w := ctx.world[t.i1], ctx.world[t.i2], ctx.world[t.i3];
      var n := ctx.norm(Cross3(Sub3(p2w, p1w), Sub3(p3w, p1w)));
      var c := Scale3(Add3(Add3(p1w, p2w), p3w), 1.0 / 3.0);
      shade := ShadeFlat(ctx.scene.value, n, c, ctx.norm);
    } else {
      shade := Splat3(1.0);
    }
    assert shade == TriShade(ctx, t);
    DrawFan(sink, surf, zbuf, ctx, poly, shade, V0, z0, pre);
  }

  /** The triangle loop of `draw_model`. */
  method DrawTriangles(sink: Sink, surf: Surface, zbuf: array<Depth>, ctx: DrawCtx, tris: seq<Tri>,
                       ghost V0: SinkView, ghost z0: seq<Depth>)
    requires CtxOk(ctx) && ctx.deferred == (sink.mode == Deferred) && forall t :: t in tris ==> TriOk(ctx, t)
    requires Drawn(sink, surf, zbuf, ctx.w, ctx.h, V0, z0, [])
    modifies sink`points, surf, zbuf
    ensures Drawn(sink, surf, zbuf, ctx.w, ctx.h, V0, z0, ModelKernels(ctx, tris))
  {
    ghost var per := PerTri(ctx, tris);
    for i := 0 to |tris|
      invariant Drawn(sink, surf, zbuf, ctx.w, ctx.h, V0, z0, Concat(per[..i]))
    {
      DrawTriangleStep(sink, surf, zbuf, ctx, tris, i, V0, z0, per);
    }
    assert per[..|tris|] == per;
  }

  method DrawTriangleStep(sink: Sink, surf: Surface, zbuf: array<Depth>, ctx: DrawCtx, tris: seq<Tri>, i: int,
                          ghost V0: SinkView, ghost z0: seq<Depth>, ghost per: seq<seq<Kernel>>)
    requires CtxOk(ctx) && ctx.deferred == (sink.mode == Deferred) && forall t :: t in tris ==> TriOk(ctx, t)
    requires per == PerTri(ctx, tris)
    requires 0 <= i < |tris| && Drawn(sink, surf, zbuf, ctx.w, ctx.h, V0, z0, Concat(per[..i]))
    modifies sink`points, surf, zbuf
    ensures Drawn(sink, surf, zbuf, ctx.w, ctx.h, V0, z0, Concat(per[..i + 1]))
  {
    assert tris[i] in tris;
    DrawTriangle(sink, surf, zbuf, ctx, tris[i], V0, z0, Concat(per[..i]));
    ConcatSnoc(per, i);
  }

  /** `draw_model(surface, mesh, material, model_mat, view_mat, proj_mat,
      scene=, zbuf=, cull_backfaces=, front_face_ccw=)`, given a depth buffer. */
  method DrawModel(sink: Sink, surf: Surface, mesh: Mesh, material: Material, model: Mat4, view: Mat4, proj: Mat4,
                   scene: Option<Lighting>, zbuf: array<Depth>, cull: bool, ccw: bool, norm: NormFn)
    requires surf.Valid() && MeshOk(mesh) && zbuf.Length == surf.img.width * surf.img.height
    requires material.baseColorTex.Some? && mesh.uvs.Some? ==>
      var tex := material.baseColorTex.value.surface; ImageOk(tex) && tex.width >= 1 && tex.height >= 1
    modifies sink`points, surf, zbuf
    ensures var ctx := MakeCtx(mesh, material, model, view, proj, scene, norm, cull, ccw,
                               old(surf.img.width), old(surf.img.height), sink.mode == Deferred);
      CtxOk(ctx) && (forall t :: t in mesh.indices ==> TriOk(ctx, t)) &&
      Drawn(sink, surf, zbuf, ctx.w, ctx.h, old(SinkView(sink.points, surf.img)), old(zbuf[..]),
            ModelKernels(ctx, mesh.indices))
  {
    var sw: int := surf.img.width;
    var sh: int := surf.img.height;
    var viewproj := MatMul(proj, view);
    var world := WorldVerts(mesh.positions, model);
    var clip := ClipVerts(world, viewproj);
    var useTex := material.baseColorTex.Some? && mesh.uvs.Some?;
    var ctx := MakeCtx(mesh, material, model, view, proj, scene, norm, cull, ccw, sw, sh, sink.mode == Deferred);
    assert ctx.clip == clip && ctx.useTex == useTex;
    ghost var V0 := SinkView(sink.points, surf.img);
    assert Drawn(sink, surf, zbuf, sw, sh, V0, zbuf[..], []);
    DrawTriangles(sink, surf, zbuf, ctx, mesh.indices, V0, zbuf[..]);
  }

  /** `draw_model` without a depth buffer: a fresh one of infinities. */
  method DrawModelFresh(sink: Sink, surf: Surface, mesh: Mesh, material: Material, model: Mat4, view: Mat4, proj: Mat4,
                        scene: Option<Lighting>, cull: bool, ccw: bool, norm: NormFn)
    requires surf.Valid() && MeshOk(mesh)
    requires material.baseColorTex.Some? && mesh.uvs.Some? ==>
      var tex := material.baseColorTex.value.surface; ImageOk(tex) && tex.width >= 1 && tex.height >= 1
    modifies sink`points, surf
    ensures surf.Valid() && surf.img.width == old(surf.img.width) && surf.img.height == old(surf.img.height)
    ensures var ctx := MakeCtx(mesh, material, model, view, proj, scene, norm, cull, ccw,
                               old(surf.img.width), old(surf.img.height), sink.mode == Deferred);
      (forall t :: t in mesh.indices ==> TriOk(ctx, t)) && CtxOk(ctx) &&
      var ks := ModelKernels(ctx, mesh.indices);
      (forall k :: k in ks ==> TexOk(k)) &&
      SinkView(sink.points, surf.img) ==
        Replay(sink.mode, old(SinkView(sink.points, surf.img)), RunAll(ks, ctx.w, ctx.h, seq(ctx.w * ctx.h, _ => Inf)).evs)
  {
    var zbuf := new Depth[surf.img.width * surf.img.height](_ => Inf);
    assert zbuf[..] == seq(surf.img.width * surf.img.height, _ => Inf);
    DrawModel(sink, surf, mesh, material, model, view, proj, scene, zbuf, cull, ccw, norm);
  }

  /** `draw_primitive(surface, prim, world_mat, view_mat, proj_mat, scene=, zbuf=)`. */
  method DrawPrimitive(sink: Sink, surf: Surface, prim: Primitive, worldMat: Mat4, view: Mat4, proj: Mat4,
                       scene: Option<Lighting>, zbuf: array<Depth>, norm: NormFn)
    requires surf.Valid() && MeshOk(prim.mesh) && zbuf.Length == surf.img.width * surf.img.height
    requires prim.material.baseColorTex.Some? && prim.mesh.uvs.Some? ==>
      var tex := prim.material.baseColorTex.value.surface; ImageOk(tex) && tex.width >= 1 && tex.height >= 1
    modifies sink`points, surf, zbuf
    ensures var ctx := MakeCtx(prim.mesh, prim.material, MatMul(worldMat, prim.localToWorld), view, proj, scene, norm,
                               prim.cullBackfaces, prim.frontFaceCcw,
                               old(surf.img.width), old(surf.img.height), sink.mode == Deferred);
      CtxOk(ctx) && (forall t :: t in prim.mesh.indices ==> TriOk(ctx, t)) &&
      Drawn(sink, surf, zbuf, ctx.w, ctx.h, old(SinkView(sink.points, surf.img)), old(zbuf[..]),
            ModelKernels(ctx, prim.mesh.indices))
  {
    DrawModel(sink, surf, prim.mesh, prim.material, MatMul(worldMat, prim.localToWorld), view, proj, scene, zbuf,
              prim.cullBackfaces, prim.frontFaceCcw, norm);
  }

  /** A primitive made with `MakePrimitive` draws with the world matrix alone,
      culling counter-clockwise back faces. */
  lemma DefaultPrimitiveContext(mesh: Mesh, material: Material, worldMat: Mat4, view: Mat4, proj: Mat4,
                                scene: Option<Lighting>, norm: NormFn, w: int, h: int, deferred: bool)
    ensures var prim := MakePrimitive(mesh, material);
      MakeCtx(prim.mesh, prim.material, MatMul(worldMat, prim.localToWorld), view, proj, scene, norm,
              prim.cullBackfaces, prim.frontFaceCcw, w, h, deferred)
      == MakeCtx(mesh, material, worldMat, view, proj, scene, norm, true, true, w, h, deferred)
  {
    IdentityMulRight(worldMat);
  }
}
