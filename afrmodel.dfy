/** `load_afrmodel`: a loaded `.afrmodel` as one primitive. Its UVs are
    stored per face, so a model with UVs is un-indexed into three fresh
    vertices per face; one without UVs passes through as it is. */
module AfrModel {
  import opened Util
  import opened LinAlg
  import opened Scene
  import opened Text
  import opened AfrFormat

  /** All three corners of a face name a vertex, by Python's indexing. */
  predicate FaceInRange(verts: seq<Vec3>, f: Tri) {
    PyIndex(verts, f.i1).Some? && PyIndex(verts, f.i2).Some? && PyIndex(verts, f.i3).Some?
  }

  /** The un-indexing loop over the faces, or the `IndexError` of the first
      face with a corner out of range. */
  function Unindex(verts: seq<Vec3>, faces: seq<Tri>, uvs: seq<UvTri>): (r: Result<Mesh>)
    requires |uvs| == |faces|
    ensures r.Ok? ==> r.value.uvs.Some? && |r.value.positions| == 3 * |faces|
    decreases |faces|
  {
    if faces == [] then Ok(Mesh([], Some([]), []))
    else
      var n := |faces| - 1;
      var pre := Unindex(verts, faces[..n], uvs[..n]);
      if pre.Err? then pre
      else
        var f, u := faces[n], uvs[n];
        if !FaceInRange(verts, f) then Err("list index out of range")
        else
          var base := |pre.value.positions|;
          var p := pre.value.positions + [PyIndex(verts, f.i1).value, PyIndex(verts, f.i2).value, PyIndex(verts, f.i3).value];
          Ok(Mesh(p, Some(pre.value.uvs.value + [u.a, u.b, u.c]), pre.value.indices + [Tri(base, base + 1, base + 2)]))
  }

  /** Face k of an un-indexed mesh: vertices 3k, 3k+1 and 3k+2, holding the
      face's corner positions and its three UVs. */
  predicate Unindexed(verts: seq<Vec3>, faces: seq<Tri>, uvs: seq<UvTri>, m: Mesh)
    requires |uvs| == |faces|
  {
    m.uvs.Some? && |m.positions| == 3 * |faces| && |m.uvs.value| == 3 * |faces| && |m.indices| == |faces| &&
    forall k :: 0 <= k < |faces| ==>
      m.indices[k] == Tri(3 * k, 3 * k + 1, 3 * k + 2) &&
      Some(m.positions[3 * k]) == PyIndex(verts, faces[k].i1) &&
      Some(m.positions[3 * k + 1]) == PyIndex(verts, faces[k].i2) &&
      Some(m.positions[3 * k + 2]) == PyIndex(verts, faces[k].i3) &&
      m.uvs.value[3 * k] == uvs[k].a && m.uvs.value[3 * k + 1] == uvs[k].b && m.uvs.value[3 * k + 2] == uvs[k].c
  }

  /** Un-indexing fails exactly when some face has a corner out of range,
      and otherwise gives face k the vertices 3k..3k+2. */
  lemma {:induction false} UnindexShape(verts: seq<Vec3>, faces: seq<Tri>, uvs: seq<UvTri>)
    requires |uvs| == |faces|
    ensures var r := Unindex(verts, faces, uvs);
      (r.Err? <==> exists k :: 0 <= k < |faces| && !FaceInRange(verts, faces[k])) &&
      (r.Ok? ==> Unindexed(verts, faces, uvs, r.value))
    decreases |faces|
  {
    if faces != [] {
      var n := |faces| - 1;
      UnindexShape(verts, faces[..n], uvs[..n]);
      var pre := Unindex(verts, faces[..n], uvs[..n]);
      if pre.Err? {
        var k :| 0 <= k < n && !FaceInRange(verts, faces[..n][k]);
        assert faces[k] == faces[..n][k];
      } else if FaceInRange(verts, faces[n]) {
        var m := Unindex(verts, faces, uvs).value;
        forall k | 0 <= k < |faces|
          ensures FaceInRange(verts, faces[k])
        {
          if k < n {
            assert faces[k] == faces[..n][k];
          }
        }
        UnindexStep(verts, faces, uvs, pre.value, m);
      }
    }
  }

  lemma {:induction false} UnindexStep(verts: seq<Vec3>, faces: seq<Tri>, uvs: seq<UvTri>, pre: Mesh, m: Mesh)
    requires |uvs| == |faces| > 0
    requires Unindexed(verts, faces[..|faces| - 1], uvs[..|faces| - 1], pre)
    requires pre.uvs.Some? && FaceInRange(verts, faces[|faces| - 1])
    requires var n := |faces| - 1; var f, u := faces[n], uvs[n]; var base := |pre.positions|;
      m == Mesh(pre.positions + [PyIndex(verts, f.i1).value, PyIndex(verts, f.i2).value, PyIndex(verts, f.i3).value],
                Some(pre.uvs.value + [u.a, u.b, u.c]), pre.indices + [Tri(base, base + 1, base + 2)])
    ensures Unindexed(verts, faces, uvs, m)
  {
    var n := |faces| - 1;
    forall k | 0 <= k < |faces|
      ensures m.indices[k] == Tri(3 * k, 3 * k + 1, 3 * k + 2) &&
        Some(m.positions[3 * k]) == PyIndex(verts, faces[k].i1) &&
        Some(m.positions[3 * k + 1]) == PyIndex(verts, faces[k].i2) &&
        Some(m.positions[3 * k + 2]) == PyIndex(verts, faces[k].i3) &&
        m.uvs.value[3 * k] == uvs[k].a && m.uvs.value[3 * k + 1] == uvs[k].b && m.uvs.value[3 * k + 2] == uvs[k].c
    {
      if k < n {
        assert faces[k] == faces[..n][k] && uvs[k] == uvs[..n][k];
        assert m.positions[3 * k] == pre.positions[3 * k];
        assert m.positions[3 * k + 1] == pre.positions[3 * k + 1];
        assert m.positions[3 * k + 2] == pre.positions[3 * k + 2];
        assert m.uvs.value[3 * k] == pre.uvs.value[3 * k];
        assert m.uvs.value[3 * k + 1] == pre.uvs.value[3 * k + 1];
        assert m.uvs.value[3 * k + 2] == pre.uvs.value[3 * k + 2];
        assert m.indices[k] == pre.indices[k];
      }
    }
  }

  /** An un-indexed mesh is well formed, and each of its triangles has the
      corner positions of the face it came from. */
  lemma {:induction false} UnindexKeepsGeometry(verts: seq<Vec3>, faces: seq<Tri>, uvs: seq<UvTri>)
    requires |uvs| == |faces|
    ensures var r := Unindex(verts, faces, uvs);
      r.Ok? ==>
        MeshOk(r.value) && |r.value.indices| == |faces| &&
        (forall k :: 0 <= k < |faces| ==>
           var t := r.value.indices[k];
           IndexOk(t.i1, |r.value.positions|) && IndexOk(t.i2, |r.value.positions|) &&
           IndexOk(t.i3, |r.value.positions|) &&
           Some(r.value.positions[r.value.indices[k].i1]) == PyIndex(verts, faces[k].i1) &&
           Some(r.value.positions[r.value.indices[k].i2]) == PyIndex(verts, faces[k].i2) &&
           Some(r.value.positions[r.value.indices[k].i3]) == PyIndex(verts, faces[k].i3))
  {
    UnindexShape(verts, faces, uvs);
    var r := Unindex(verts, faces, uvs);
    if r.Ok? {
      var m := r.value;
      forall t | t in m.indices
        ensures IndexOk(t.i1, |m.positions|) && IndexOk(t.i2, |m.positions|) && IndexOk(t.i3, |m.positions|)
      {
        var k :| 0 <= k < |m.indices| && m.indices[k] == t;
      }
    }
  }

  /** The mesh of a model: un-indexed when it has one UV triple per face,
      else its vertices and faces as they are, without UVs. */
  function ModelMesh(verts: seq<Vec3>, faces: seq<Tri>, uvs: seq<UvTri>): Result<Mesh> {
    if uvs != [] && |uvs| == |faces| then Unindex(verts, faces, uvs) else Ok(Mesh(verts, None, faces))
  }

  /** `load_afrmodel(path)` on the file's text; stem is `Path(path).stem`. */
  function LoadAfrModelText(text: string, stem: string, num: NumFn): Result<SceneData> {
    var d := LoadDoc(text, num);
    if d.Err? then Err(d.msg)
    else
      var mesh := ModelMesh(VertsOf(d.value.verts), FacesOf(d.value.faces), UvsOf(d.value.uvs));
      if mesh.Err? then Err(mesh.msg)
      else Ok(SceneData([MakePrimitive(mesh.value, DefaultMaterial(stem))]))
  }

  /** A loaded model is one primitive with the identity transform and a
      default material named after the file; without UVs its mesh is the
      model's own vertices and faces, with UVs it is the un-indexed mesh. */
  lemma {:induction false} LoadedModel(text: string, stem: string, num: NumFn)
    ensures var r := LoadAfrModelText(text, stem, num);
      r.Ok? ==>
        var d := LoadDoc(text, num).value;
        var verts, faces, uvs := VertsOf(d.verts), FacesOf(d.faces), UvsOf(d.uvs);
        |r.value.primitives| == 1 &&
        r.value.primitives[0].material == DefaultMaterial(stem) &&
        r.value.primitives[0].localToWorld == Identity() &&
        (uvs == [] ==> r.value.primitives[0].mesh == Mesh(verts, None, faces)) &&
        (uvs != [] ==> |uvs| == |faces| && Unindexed(verts, faces, uvs, r.value.primitives[0].mesh) &&
                       MeshOk(r.value.primitives[0].mesh))
  {
    var r := LoadAfrModelText(text, stem, num);
    var dr := LoadDoc(text, num);
    if r.Ok? {
      var d := dr.value;
      var uvs := UvsOf(d.uvs);
      var faces := FacesOf(d.faces);
      assert Validate(d).None?;
      if uvs != [] {
        UnindexShape(VertsOf(d.verts), faces, uvs);
        UnindexKeepsGeometry(VertsOf(d.verts), faces, uvs);
      }
    }
  }

  /** An error on one face is the error of the whole loop. */
  lemma {:induction false} UnindexErr(verts: seq<Vec3>, faces: seq<Tri>, uvs: seq<UvTri>, j: int)
    requires |uvs| == |faces| && 0 <= j <= |faces| && Unindex(verts, faces[..j], uvs[..j]).Err?
    ensures Unindex(verts, faces, uvs) == Unindex(verts, faces[..j], uvs[..j])
    decreases |faces|
  {
    if j < |faces| {
      var n := |faces| - 1;
      assert faces[..n][..j] == faces[..j] && uvs[..n][..j] == uvs[..j];
      UnindexErr(verts, faces[..n], uvs[..n], j);
    } else {
      assert faces[..j] == faces && uvs[..j] == uvs;
    }
  }

  // ------------------------------------------------------------ the loop

  /** The `for fi, (i1, i2, i3) in enumerate(m.faces)` loop. */
  method UnindexLoop(verts: seq<Vec3>, faces: seq<Tri>, uvs: seq<UvTri>) returns (r: Result<Mesh>)
    requires |uvs| == |faces|
    ensures r == Unindex(verts, faces, uvs)
  {
    var outPos: seq<Vec3> := [];
    var outUv: seq<Vec2> := [];
    var outIdx: seq<Tri> := [];
    for fi := 0 to |faces|
      invariant Unindex(verts, faces[..fi], uvs[..fi]) == Ok(Mesh(outPos, Some(outUv), outIdx))
    {
      assert faces[..fi + 1][..fi] == faces[..fi] && uvs[..fi + 1][..fi] == uvs[..fi];
      var f := faces[fi];
      var u := uvs[fi];
      var p1, p2, p3 := PyIndex(verts, f.i1), PyIndex(verts, f.i2), PyIndex(verts, f.i3);
      if p1.None? || p2.None? || p3.None? {
        UnindexErr(verts, faces, uvs, fi + 1);
        return Err("list index out of range");
      }
      var base := |outPos|;
      outPos := outPos + [p1.value, p2.value, p3.value];
      outUv := outUv + [u.a, u.b, u.c];
      outIdx := outIdx + [Tri(base + 0, base + 1, base + 2)];
    }
    assert faces[..|faces|] == faces && uvs[..|uvs|] == uvs;
    return Ok(Mesh(outPos, Some(outUv), outIdx));
  }

  /** `load_afrmodel(path)` on the file's text; stem is `Path(path).stem`. */
  method LoadAfrModel(text: string, stem: string, num: NumFn) returns (r: Result<SceneData>)
    ensures r == LoadAfrModelText(text, stem, num)
  {
    var loaded := Load(text, num);
    if loaded.Err? {
      return Err(loaded.msg);
    }
    var m := loaded.value;
    var verts, faces, uvs := m.Verts(), m.Faces(), m.Uvs();
    var mesh: Result<Mesh>;
    if uvs != [] && |uvs| == |faces| {
      mesh := UnindexLoop(verts, faces, uvs);
    } else {
      mesh := Ok(Mesh(verts, None, faces));
    }
    if mesh.Err? {
      return Err(mesh.msg);
    }
    return Ok(SceneData([MakePrimitive(mesh.value, DefaultMaterial(stem))]));
  }
}
