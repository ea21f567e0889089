/** `load_obj`: the Wavefront OBJ subset the renderer reads (`v`, `vt`, `f`
    with `v/vt` or `v` corners, `usemtl` and `mtllib`), with faces
    fan-triangulated and re-indexed into one mesh per material. */
module Obj {
  import opened Util
  import opened LinAlg
  import opened Scene
  import opened Text
  import Mtl

  // ------------------------------------------------------------ indices

  /** `_parse_index(s, n)`: 1-based, or counted back from n when negative. */
  function ParseIndex(s: string, n: int): Result<int> {
    var i := ParseInt(s);
    if i.None? then Err("invalid literal for int()")
    else if i.value < 0 then Ok(n + i.value)
    else Ok(i.value - 1)
  }

  /** The written index i is entry i - 1 when positive and n + i when
      negative; `0` gives -1, which Python's indexing reads as the last entry. */
  lemma {:induction false} ParseIndexOf(i: int, n: int)
    ensures ParseIndex(IntToStr(i), n) == Ok(if i > 0 then i - 1 else if i < 0 then n + i else -1)
  {
    ParseIntToStr(i);
  }

  /** Both ways of writing an index, 1-based and from the end, name the same entry. */
  lemma {:induction false} IndexForms(k: int, n: int)
    requires 0 <= k < n
    ensures ParseIndex(IntToStr(k + 1), n) == Ok(k) && ParseIndex(IntToStr(k - n), n) == Ok(k)
  {
    ParseIndexOf(k + 1, n);
    ParseIndexOf(k - n, n);
  }

  /** A face corner: the position index and the optional UV index. */
  datatype Corner = Corner(vi: int, ti: Option<int>)

  /** One `v/vt/vn`, `v/vt` or `v` token of an `f` statement. */
  function CornerOf(tok: string, np: int, nt: int): Result<Corner> {
    var fields := SplitOn(tok, '/');
    var vi := ParseIndex(fields[0], np);
    if vi.Err? then Err(vi.msg)
    else if |fields| >= 2 && fields[1] != [] then
      var ti := ParseIndex(fields[1], nt);
      if ti.Err? then Err(ti.msg) else Ok(Corner(vi.value, Some(ti.value)))
    else Ok(Corner(vi.value, None))
  }

  /** `s.split('/')` of two slash-free fields joined by one slash. */
  lemma {:induction false} SplitOnPair(a: string, b: string)
    requires '/' !in a && '/' !in b
    ensures SplitOn(a + "/" + b, '/') == [a, b]
  {
    var s := a + "/" + b;
    assert s[|a|] == '/';
    assert '/' in s;
    var (x, y) := SplitOnce(s, '/');
    assert |x| == |a|;
    assert x == s[..|a|] == a;
    assert y == s[|a| + 1..] == b;
  }

  lemma {:induction false} DigitsNoSlash(i: int)
    ensures '/' !in IntToStr(i)
  {
    var d := if i < 0 then NatToStr(-i) else NatToStr(i);
    assert forall k :: 0 <= k < |d| ==> IsDigit(d[k]);
    assert i < 0 ==> IntToStr(i) == "-" + d;
  }

  /** The corner `k+1/j+1` names position k and UV j; `k+1` alone names no UV. */
  lemma {:induction false} CornerWritten(k: int, j: int, np: int, nt: int)
    requires 0 <= k < np && 0 <= j < nt
    ensures CornerOf(IntToStr(k + 1) + "/" + IntToStr(j + 1), np, nt) == Ok(Corner(k, Some(j)))
    ensures CornerOf(IntToStr(k + 1), np, nt) == Ok(Corner(k, None))
  {
    DigitsNoSlash(k + 1);
    DigitsNoSlash(j + 1);
    SplitOnPair(IntToStr(k + 1), IntToStr(j + 1));
    IndexForms(k, np);
    IndexForms(j, nt);
  }

  /** The corners of a face's tokens, in order, or the first error. */
  function Corners(toks: seq<string>, np: int, nt: int): (r: Result<seq<Corner>>)
    ensures r.Ok? ==> |r.value| == |toks|
    decreases |toks|
  {
    if toks == [] then Ok([])
    else
      var pre := Corners(toks[..|toks| - 1], np, nt);
      if pre.Err? then pre
      else
        var c := CornerOf(toks[|toks| - 1], np, nt);
        if c.Err? then Err(c.msg) else Ok(pre.value + [c.value])
  }

  // ------------------------------------------------------------- groups

  /** One material's mesh under construction: `g["v"]`, `g["vt"]`,
      `g["idx"]` and `g["map"]` (corner to unified vertex). */
  datatype Group = Group(v: seq<Vec3>, vt: seq<Vec2>, idx: seq<Tri>, seen: map<Corner, int>)

  const NewGroup := Group([], [], [], map[])

  predicate TriIn(t: Tri, n: int) { IndexOk(t.i1, n) && IndexOk(t.i2, n) && IndexOk(t.i3, n) }

  /** One UV per vertex, and every cached and every triangle index names a vertex. */
  predicate GroupOk(g: Group) {
    |g.v| == |g.vt| && (forall c :: c in g.seen ==> 0 <= g.seen[c] < |g.v|) &&
    forall k :: 0 <= k < |g.idx| ==> TriIn(g.idx[k], |g.v|)
  }

  /** g2 extends g: vertices appended, cached corners kept. */
  predicate Grows(g: Group, g2: Group) {
    g.v <= g2.v && g.vt <= g2.vt && forall c :: c in g.seen ==> c in g2.seen && g2.seen[c] == g.seen[c]
  }

  /** The UV a new corner gets: `uvs[ti]` when ti is given and below
      len(uvs) (negative ti counting from the end), else (0, 0). */
  function CornerUv(c: Corner, uvs: seq<Vec2>): Option<Vec2> {
    if c.ti.Some? && c.ti.value < |uvs| then PyIndex(uvs, c.ti.value) else Some(Vec2(0.0, 0.0))
  }

  /** The unified vertex of one corner: the cached one, or a new one
      appended with the corner's position and UV. */
  function AddCorner(g: Group, c: Corner, positions: seq<Vec3>, uvs: seq<Vec2>): (r: Result<(Group, int)>)
    ensures c in g.seen ==> r == Ok((g, g.seen[c]))
    ensures r.Err? <==> c !in g.seen && (PyIndex(positions, c.vi).None? || CornerUv(c, uvs).None?)
    ensures r.Ok? ==> var (g2, m) := r.value;
      (GroupOk(g) ==> GroupOk(g2)) && Grows(g, g2) && g2.idx == g.idx && c in g2.seen && g2.seen[c] == m &&
      (c !in g.seen ==> m == |g.v| && |g2.v| == |g.v| + 1 && Some(g2.v[m]) == PyIndex(positions, c.vi) &&
                        |g2.vt| == |g.vt| + 1 && Some(g2.vt[|g.vt|]) == CornerUv(c, uvs))
  {
    if c in g.seen then Ok((g, g.seen[c]))
    else
      var p := PyIndex(positions, c.vi);
      var uv := CornerUv(c, uvs);
      if p.None? || uv.None? then Err("list index out of range")
      else
        var m := |g.v|;
        Ok((Group(g.v + [p.value], g.vt + [uv.value], g.idx, g.seen[c := m]), m))
  }

  /** The unified vertices of a run of corners, in order, or the first error. */
  function AddCorners(g: Group, cs: seq<Corner>, positions: seq<Vec3>, uvs: seq<Vec2>): (r: Result<(Group, seq<int>)>)
    ensures r.Ok? ==> var (g2, ms) := r.value;
      (GroupOk(g) ==> GroupOk(g2)) && Grows(g, g2) && g2.idx == g.idx && |ms| == |cs| &&
      forall k :: 0 <= k < |cs| ==> cs[k] in g2.seen && ms[k] == g2.seen[cs[k]]
    decreases |cs|
  {
    if cs == [] then Ok((g, []))
    else
      var pre := AddCorners(g, cs[..|cs| - 1], positions, uvs);
      if pre.Err? then pre
      else
        var one := AddCorner(pre.value.0, cs[|cs| - 1], positions, uvs);
        if one.Err? then Err(one.msg) else Ok((one.value.0, pre.value.1 + [one.value.1]))
  }

  /** One fan triangle: its three corners' unified vertices, appended to `idx`. */
  function AddTri(g: Group, a: Corner, b: Corner, c: Corner, positions: seq<Vec3>, uvs: seq<Vec2>): (r: Result<Group>)
    ensures r.Ok? ==> var g2 := r.value;
      (GroupOk(g) ==> GroupOk(g2)) && Grows(g, g2) && a in g2.seen && b in g2.seen && c in g2.seen &&
      g2.idx == g.idx + [Tri(g2.seen[a], g2.seen[b], g2.seen[c])]
  {
    var cs := [a, b, c];
    var r := AddCorners(g, cs, positions, uvs);
    if r.Err? then Err(r.msg)
    else
      var (g2, ms) := r.value;
      assert cs[0] == a && cs[1] == b && cs[2] == c;
      Ok(g2.(idx := g2.idx + [Tri(ms[0], ms[1], ms[2])]))
  }

  /** g2 is g with the fan triangles (v0, vj, vj+1), j from 1 below i, appended. */
  predicate FanDone(g: Group, g2: Group, vs: seq<Corner>, i: int)
    requires i < |vs|
  {
    GroupOk(g2) && Grows(g, g2) && |g2.idx| == |g.idx| + (if i > 1 then i - 1 else 0) &&
    g2.idx[..|g.idx|] == g.idx &&
    (i >= 2 ==>
       (forall j :: 0 <= j <= i ==> vs[j] in g2.seen) &&
       (forall j :: 1 <= j < i ==> g2.idx[|g.idx| + j - 1] == Tri(g2.seen[vs[0]], g2.seen[vs[j]], g2.seen[vs[j + 1]])))
  }

  /** One step of a fan: the triangle closing at corner i. */
  type TriStep = (Group, int) -> Result<Group>

  /** The steps 2..i of a fan, in order, or the first error. */
  function Fan(tri: TriStep, g: Group, i: int): Result<Group>
    decreases i
  {
    if i <= 1 then Ok(g)
    else
      var pre := Fan(tri, g, i - 1);
      if pre.Err? then pre else tri(pre.value, i)
  }

  /** The fan triangle (v0, v(i-1), vi) of the corners vs. */
  function FanTri(vs: seq<Corner>, positions: seq<Vec3>, uvs: seq<Vec2>): TriStep {
    (h: Group, i: int) => if 1 <= i < |vs| then AddTri(h, vs[0], vs[i - 1], vs[i], positions, uvs) else Ok(h)
  }

  /** The fan triangles (v0, vj, vj+1) for j from 1 below i; none when
      i <= 1, as for a face of fewer than three corners. */
  function FanTo(g: Group, vs: seq<Corner>, i: int, positions: seq<Vec3>, uvs: seq<Vec2>): Result<Group> {
    Fan(FanTri(vs, positions, uvs), g, i)
  }

  /** The fan appends, in order, the triangles (v0, vj, vj+1) of the
      corners' unified vertices, i - 1 of them, keeping every cached corner. */
  lemma {:induction false} FanShape(g: Group, vs: seq<Corner>, i: int, positions: seq<Vec3>, uvs: seq<Vec2>)
    requires GroupOk(g) && i < |vs|
    ensures var r := FanTo(g, vs, i, positions, uvs); r.Ok? ==> FanDone(g, r.value, vs, i)
    decreases i
  {
    var r := FanTo(g, vs, i, positions, uvs);
    if i > 1 && r.Ok? {
      FanShape(g, vs, i - 1, positions, uvs);
      var pre := FanTo(g, vs, i - 1, positions, uvs);
      FanNext(g, vs, i - 1, pre.value, positions, uvs);
      FanStep(g, pre.value, r.value, vs, i);
    }
  }

  /** The fan up to i + 1 is the fan up to i and one more triangle. */
  lemma {:induction false} FanNext(g: Group, vs: seq<Corner>, i: int, h: Group, positions: seq<Vec3>, uvs: seq<Vec2>)
    requires 1 <= i && i + 1 < |vs| && FanTo(g, vs, i, positions, uvs) == Ok(h)
    ensures FanTo(g, vs, i + 1, positions, uvs) == AddTri(h, vs[0], vs[i], vs[i + 1], positions, uvs)
  {
  }

  /** An error in one step of a fan is the error of the whole fan. */
  lemma {:induction false} FanErr(tri: TriStep, g: Group, i: int, j: int)
    requires i <= j && Fan(tri, g, i).Err?
    ensures Fan(tri, g, j) == Fan(tri, g, i)
    decreases j
  {
    if i < j {
      FanErr(tri, g, i, j - 1);
    }
  }

  lemma {:induction false} FanStep(g: Group, g1: Group, g2: Group, vs: seq<Corner>, i: int)
    requires 2 <= i < |vs| && GroupOk(g)
    requires FanDone(g, g1, vs, i - 1)
    requires GroupOk(g2) && Grows(g1, g2) && vs[0] in g2.seen && vs[i - 1] in g2.seen && vs[i] in g2.seen
    requires g2.idx == g1.idx + [Tri(g2.seen[vs[0]], g2.seen[vs[i - 1]], g2.seen[vs[i]])]
    ensures FanDone(g, g2, vs, i)
  {
    assert g2.idx[..|g1.idx|] == g1.idx;
    assert g2.idx[..|g.idx|] == g1.idx[..|g.idx|];
    forall j | 1 <= j < i
      ensures g2.idx[|g.idx| + j - 1] == Tri(g2.seen[vs[0]], g2.seen[vs[j]], g2.seen[vs[j + 1]])
    {
      if j < i - 1 {
        assert g2.idx[|g.idx| + j - 1] == g1.idx[|g.idx| + j - 1];
      }
    }
  }

  // ------------------------------------------------ the groups registry

  /** `groups`: the material groups in insertion order, and their contents. */
  datatype Groups = Groups(order: seq<string>, table: map<string, Group>)

  predicate Distinct(xs: seq<string>) {
    forall i, j :: 0 <= i < j < |xs| ==> xs[i] != xs[j]
  }

  /** Each name is listed once, exactly the tabled names are listed, and
      every group is well formed. */
  predicate GroupsOk(gs: Groups) {
    Distinct(gs.order) && (forall n :: n in gs.table ==> n in gs.order) &&
    (forall k :: 0 <= k < |gs.order| ==> gs.order[k] in gs.table) &&
    forall n :: n in gs.table ==> GroupOk(gs.table[n])
  }

  /** `group(name)` before any change: the stored group, or a fresh one. */
  function GroupOf(gs: Groups, name: string): (g: Group)
    requires GroupsOk(gs)
    ensures GroupOk(g)
  {
    if name in gs.table then gs.table[name] else NewGroup
  }

  /** The registry with the group of `name` stored, a new name going last. */
  function Put(gs: Groups, name: string, g: Group): (r: Groups)
    requires GroupsOk(gs) && GroupOk(g)
    ensures GroupsOk(r) && r.table == gs.table[name := g] && gs.order <= r.order
    ensures name in gs.table ==> r.order == gs.order
    ensures name !in gs.table ==> r.order == gs.order + [name]
  {
    if name in gs.table then Groups(gs.order, gs.table[name := g]) else Groups(gs.order + [name], gs.table[name := g])
  }

  // ----------------------------------------------------------- statements

  /** The statements the loader acts on; everything else is `NoOp`. */
  datatype ObjStmt = NoOp | MtlLib(file: string) | UseMtl(name: string) | V(x: string, y: string, z: string)
                   | Vt(u: string, v: string) | F(toks: seq<string>)

  /** A non-empty statement, split into its command and arguments. */
  function ParseParts(parts: seq<string>): (r: ObjStmt)
    ensures r.F? ==> |r.toks| >= 3
  {
    if parts == [] then NoOp
    else
      var cmd := parts[0];
      var args := parts[1..];
      if cmd == "mtllib" && args != [] then MtlLib(args[|args| - 1])
      else if cmd == "usemtl" && args != [] then UseMtl(Join(" ", args))
      else if cmd == "v" && |args| >= 3 then V(args[0], args[1], args[2])
      else if cmd == "vt" && |args| >= 2 then Vt(args[0], args[1])
      else if cmd == "f" && |args| >= 3 then F(args)
      else NoOp
  }

  /** A line: stripped, skipped when blank or a `#` comment, else split on whitespace. */
  function ParseLine(raw: string): (r: ObjStmt)
    ensures r.F? ==> |r.toks| >= 3
  {
    var line := Strip(raw);
    if line == [] || line[0] == '#' then NoOp else ParseParts(Split(line))
  }

  /** The statements of the lines, in order. */
  function Parsed(lines: seq<string>): (r: seq<ObjStmt>)
    ensures |r| == |lines| && forall i :: 0 <= i < |lines| ==> r[i] == ParseLine(lines[i])
    decreases |lines|
  {
    if lines == [] then [] else Parsed(lines[..|lines| - 1]) + [ParseLine(lines[|lines| - 1])]
  }

  // ------------------------------------------------------------- loading

  /** The directories (`base_dir`, `tex_dir`, `mat_dir`), the abstract file
      system (`exists`, `read_text`), the image loader and `float`. */
  datatype Env = Env(baseDir: string, texDir: string, mtlDir: string, isFile: Mtl.ExistsFn,
                     read: (string, string) -> string, load: Mtl.LoadFn, num: NumFn)

  /** The loop's state: the vertex lists, `materials`, `current_mtl` and `groups`. */
  datatype ObjState = ObjState(positions: seq<Vec3>, uvs: seq<Vec2>, materials: map<string, Material>,
                               current: string, groups: Groups)

  const Start := ObjState([], [], map[], "default", Groups([], map[]))

  /** The groups are well formed and every material is filed under its name. */
  predicate StateOk(st: ObjState) {
    GroupsOk(st.groups) && forall k :: k in st.materials ==> st.materials[k].name == k
  }

  /** The library directory: next to the model, else the materials directory. */
  function LibDir(file: string, env: Env): Option<Mtl.Location> {
    Mtl.FirstDir(file, [env.baseDir, env.mtlDir], env.isFile)
  }

  /** `mtllib file`: the library's materials, when it is found, added over
      the known ones. */
  function LoadLib(mats: map<string, Material>, file: string, env: Env): (r: map<string, Material>)
    requires forall k :: k in mats ==> mats[k].name == k
    ensures forall k :: k in r ==> r[k].name == k
    ensures mats.Keys <= r.Keys
    ensures LibDir(file, env).None? ==> r == mats
  {
    var loc := LibDir(file, env);
    if loc.None? then mats
    else
      var dir := loc.value.dir;
      var lib := Mtl.LoadMtlText(env.read(dir, file), dir, Some([env.baseDir, env.texDir, env.mtlDir]),
                                 env.isFile, env.load, env.num);
      assert forall k :: k in lib ==> lib[k].name == k by {
        forall k | k in lib ensures lib[k].name == k {
          Mtl.NamesMatch(env.read(dir, file), dir, Some([env.baseDir, env.texDir, env.mtlDir]),
                         env.isFile, env.load, env.num, k);
        }
      }
      mats + lib
  }

  /** One `f` statement: its corners, fanned into the current group. */
  function Face(st: ObjState, toks: seq<string>): (r: Result<ObjState>)
    requires StateOk(st)
    ensures r.Ok? ==> StateOk(r.value) && r.value == st.(groups := r.value.groups)
  {
    var cs := Corners(toks, |st.positions|, |st.uvs|);
    if cs.Err? then Err(cs.msg)
    else
      var vs := cs.value;
      var g := FanTo(GroupOf(st.groups, st.current), vs, |vs| - 1, st.positions, st.uvs);
      if g.Err? then Err(g.msg)
      else
        FanShape(GroupOf(st.groups, st.current), vs, |vs| - 1, st.positions, st.uvs);
        Ok(st.(groups := Put(st.groups, st.current, g.value)))
  }

  /** One pass of the statement loop; a failed `float` or `int` or an
      index out of range ends the load. */
  function StepObj(st: ObjState, s: ObjStmt, env: Env): (r: Result<ObjState>)
    requires StateOk(st)
    ensures r.Ok? ==> StateOk(r.value) && st.positions <= r.value.positions && st.uvs <= r.value.uvs &&
                      st.groups.order <= r.value.groups.order
    ensures r.Err? ==> s.V? || s.Vt? || s.F?
  {
    match s
    case NoOp => Ok(st)
    case MtlLib(file) => Ok(st.(materials := LoadLib(st.materials, file, env)))
    case UseMtl(n) => Ok(st.(current := n))
    case V(a, b, c) =>
      var x, y, z := env.num(a), env.num(b), env.num(c);
      if x.None? || y.None? || z.None? then Err("could not convert string to float")
      else Ok(st.(positions := st.positions + [Vec3(x.value, y.value, z.value)]))
    case Vt(a, b) =>
      var x, y := env.num(a), env.num(b);
      if x.None? || y.None? then Err("could not convert string to float")
      else Ok(st.(uvs := st.uvs + [Vec2(x.value, y.value)]))
    case F(toks) => Face(st, toks)
  }

  /** The statement loop, continuing from st; the first error ends it. */
  function RunObj(st: ObjState, ss: seq<ObjStmt>, env: Env): (r: Result<ObjState>)
    requires StateOk(st)
    ensures r.Ok? ==> StateOk(r.value)
    decreases |ss|
  {
    if ss == [] then Ok(st)
    else
      var pre := RunObj(st, ss[..|ss| - 1], env);
      if pre.Err? then pre else StepObj(pre.value, ss[|ss| - 1], env)
  }

  /** One primitive per group: the group's mesh (no UVs when it has no
      vertices) and the material of its name, or a default one. */
  function PrimFor(name: string, g: Group, mats: map<string, Material>): Primitive {
    MakePrimitive(Mesh(g.v, if g.vt == [] then None else Some(g.vt), g.idx),
                  if name in mats then mats[name] else DefaultMaterial(name))
  }

  /** The primitives of the groups, in the order they were first used. */
  function PrimsOf(order: seq<string>, table: map<string, Group>, mats: map<string, Material>): (r: seq<Primitive>)
    requires forall k :: 0 <= k < |order| ==> order[k] in table
    ensures |r| == |order|
    ensures forall k :: 0 <= k < |order| ==> r[k] == PrimFor(order[k], table[order[k]], mats)
    decreases |order|
  {
    if order == [] then []
    else PrimsOf(order[..|order| - 1], table, mats) + [PrimFor(order[|order| - 1], table[order[|order| - 1]], mats)]
  }

  /** `load_obj` on the file's text. */
  function LoadObjText(text: string, env: Env): Result<SceneData> {
    var r := RunObj(Start, Parsed(SplitLines(text)), env);
    if r.Err? then Err(r.msg)
    else Ok(SceneData(PrimsOf(r.value.groups.order, r.value.groups.table, r.value.materials)))
  }

  // ------------------------------------------ properties of the loader

  /** An error in a face's tokens is the error of the whole face. */
  lemma {:induction false} CornersErr(toks: seq<string>, j: int, np: int, nt: int)
    requires 0 <= j <= |toks| && Corners(toks[..j], np, nt).Err?
    ensures Corners(toks, np, nt) == Corners(toks[..j], np, nt)
    decreases |toks|
  {
    if j < |toks| {
      var pre := toks[..|toks| - 1];
      assert pre[..j] == toks[..j];
      CornersErr(pre, j, np, nt);
    } else {
      assert toks[..j] == toks;
    }
  }

  /** An error on one corner is the error of the whole run of corners. */
  lemma {:induction false} AddCornersErr(g: Group, cs: seq<Corner>, j: int, positions: seq<Vec3>, uvs: seq<Vec2>)
    requires 0 <= j <= |cs| && AddCorners(g, cs[..j], positions, uvs).Err?
    ensures AddCorners(g, cs, positions, uvs) == AddCorners(g, cs[..j], positions, uvs)
    decreases |cs|
  {
    if j < |cs| {
      var pre := cs[..|cs| - 1];
      assert pre[..j] == cs[..j];
      AddCornersErr(g, pre, j, positions, uvs);
    } else {
      assert cs[..j] == cs;
    }
  }

  /** An error on one line ends the load with that error: no later line runs. */
  lemma {:induction false} RunErr(st: ObjState, ss: seq<ObjStmt>, j: int, env: Env)
    requires StateOk(st) && 0 <= j <= |ss| && RunObj(st, ss[..j], env).Err?
    ensures RunObj(st, ss, env) == RunObj(st, ss[..j], env)
    decreases |ss|
  {
    if j < |ss| {
      var pre := ss[..|ss| - 1];
      assert pre[..j] == ss[..j];
      RunErr(st, pre, j, env);
    } else {
      assert ss[..j] == ss;
    }
  }

  /** Line i of the loop carries the loop over the lines before it one
      line further, and an error there is the error of the whole load. */
  lemma {:induction false} LineRuns(lines: seq<string>, i: int, st: ObjState, res: Result<ObjState>, env: Env)
    requires 0 <= i < |lines| && StateOk(st) && RunObj(Start, Parsed(lines[..i]), env) == Ok(st)
    requires res == StepObj(st, ParseLine(lines[i]), env)
    ensures RunObj(Start, Parsed(lines[..i + 1]), env) == res
    ensures res.Err? ==> RunObj(Start, Parsed(lines), env) == res
  {
    ParsedSnoc(lines, i);
    RunSnoc(Start, Parsed(lines[..i]), ParseLine(lines[i]), env);
    if res.Err? {
      ParsedPrefix(lines, i + 1);
      RunErr(Start, Parsed(lines), i + 1, env);
    }
  }

  lemma {:induction false} ParsedSnoc(lines: seq<string>, i: int)
    requires 0 <= i < |lines|
    ensures Parsed(lines[..i + 1]) == Parsed(lines[..i]) + [ParseLine(lines[i])]
  {
    assert lines[..i + 1][..i] == lines[..i];
  }

  lemma {:induction false} ParsedPrefix(lines: seq<string>, j: int)
    requires 0 <= j <= |lines|
    ensures Parsed(lines)[..j] == Parsed(lines[..j])
  {
  }

  /** The statement loop over ss + [s] is one more pass after the loop over ss. */
  lemma {:induction false} RunSnoc(st: ObjState, ss: seq<ObjStmt>, s: ObjStmt, env: Env)
    requires StateOk(st)
    ensures RunObj(st, ss + [s], env) == (var pre := RunObj(st, ss, env); if pre.Err? then pre else StepObj(pre.value, s, env))
  {
    assert (ss + [s])[..|ss|] == ss;
  }

  /** The statement loop over a + b is the loop over a, then over b. */
  lemma {:induction false} RunAppend(st: ObjState, a: seq<ObjStmt>, b: seq<ObjStmt>, env: Env)
    requires StateOk(st)
    ensures RunObj(st, a + b, env) ==
            (var r := RunObj(st, a, env); if r.Err? then r else RunObj(r.value, b, env))
    decreases |b|
  {
    if b == [] {
      assert a + b == a;
    } else {
      assert (a + b)[..|a + b| - 1] == a + b[..|b| - 1];
      assert (a + b)[|a + b| - 1] == b[|b| - 1];
      RunAppend(st, a, b[..|b| - 1], env);
    }
  }

  /** A well-formed group is a well-formed mesh. */
  lemma {:induction false} GroupMesh(g: Group)
    requires GroupOk(g)
    ensures MeshOk(Mesh(g.v, if g.vt == [] then None else Some(g.vt), g.idx))
  {
    forall t | t in g.idx
      ensures IndexOk(t.i1, |g.v|) && IndexOk(t.i2, |g.v|) && IndexOk(t.i3, |g.v|)
    {
      var k :| 0 <= k < |g.idx| && g.idx[k] == t;
      assert TriIn(g.idx[k], |g.v|);
    }
  }

  /** Every loaded primitive has a well-formed mesh, the identity transform
      and back-face culling of clockwise faces, and no two share a material name. */
  lemma {:induction false} LoadedPrims(text: string, env: Env)
    ensures var r := LoadObjText(text, env);
      r.Ok? ==>
        (forall p :: p in r.value.primitives ==>
           MeshOk(p.mesh) && p.localToWorld == Identity() && p.cullBackfaces && p.frontFaceCcw) &&
        (forall i, j :: 0 <= i < j < |r.value.primitives| ==>
           r.value.primitives[i].material.name != r.value.primitives[j].material.name)
  {
    var run := RunObj(Start, Parsed(SplitLines(text)), env);
    if run.Ok? {
      var st := run.value;
      var ps := PrimsOf(st.groups.order, st.groups.table, st.materials);
      assert LoadObjText(text, env) == Ok(SceneData(ps));
      forall k | 0 <= k < |ps|
        ensures MeshOk(ps[k].mesh) && ps[k].localToWorld == Identity() && ps[k].material.name == st.groups.order[k]
      {
        GroupMesh(st.groups.table[st.groups.order[k]]);
      }
    }
  }

  /** An `f` statement of k corners adds k - 2 triangles to the current
      group and leaves every other group as it was. */
  lemma {:induction false} FaceAdds(st: ObjState, toks: seq<string>)
    requires StateOk(st) && |toks| >= 3
    ensures var r := Face(st, toks);
      r.Ok? ==>
        var before := GroupOf(st.groups, st.current);
        var after := r.value.groups.table[st.current];
        |after.idx| == |before.idx| + |toks| - 2 && after.idx[..|before.idx|] == before.idx &&
        forall n :: n in st.groups.table && n != st.current ==> r.value.groups.table[n] == st.groups.table[n]
  {
    var r := Face(st, toks);
    if r.Ok? {
      var vs := Corners(toks, |st.positions|, |st.uvs|).value;
      FanShape(GroupOf(st.groups, st.current), vs, |vs| - 1, st.positions, st.uvs);
      var g := FanTo(GroupOf(st.groups, st.current), vs, |vs| - 1, st.positions, st.uvs).value;
      assert r.value.groups == Put(st.groups, st.current, g);
    }
  }

  /** Without `usemtl`, everything goes to the single group "default". */
  lemma {:induction false} DefaultOnly(ss: seq<ObjStmt>, env: Env)
    requires forall k :: 0 <= k < |ss| ==> !ss[k].UseMtl?
    ensures var r := RunObj(Start, ss, env);
      r.Ok? ==> r.value.current == "default" && (r.value.groups.order == [] || r.value.groups.order == ["default"])
    decreases |ss|
  {
    if ss != [] {
      DefaultOnly(ss[..|ss| - 1], env);
    }
  }

  /** Every cached corner with a non-negative position index stands for
      that position. */
  predicate PosKept(g: Group, positions: seq<Vec3>) {
    forall c :: c in g.seen && c.vi >= 0 ==>
      0 <= g.seen[c] < |g.v| && c.vi < |positions| && g.v[g.seen[c]] == positions[c.vi]
  }

  lemma {:induction false} PosKeptLonger(g: Group, p: seq<Vec3>, q: seq<Vec3>)
    requires PosKept(g, p) && p <= q
    ensures PosKept(g, q)
  {
    forall c | c in g.seen && c.vi >= 0
      ensures 0 <= g.seen[c] < |g.v| && c.vi < |q| && g.v[g.seen[c]] == q[c.vi]
    {
      assert q[c.vi] == p[c.vi];
    }
  }

  lemma {:induction false} CornerKeeps(g: Group, c: Corner, positions: seq<Vec3>, uvs: seq<Vec2>)
    requires PosKept(g, positions)
    ensures var r := AddCorner(g, c, positions, uvs); r.Ok? ==> PosKept(r.value.0, positions)
  {
    var r := AddCorner(g, c, positions, uvs);
    if r.Ok? && c !in g.seen {
      var g2 := r.value.0;
      forall d | d in g2.seen && d.vi >= 0
        ensures 0 <= g2.seen[d] < |g2.v| && d.vi < |positions| && g2.v[g2.seen[d]] == positions[d.vi]
      {
        if d != c {
          assert g2.v[g2.seen[d]] == g.v[g.seen[d]];
        }
      }
    }
  }

  lemma {:induction false} CornersKeep(g: Group, cs: seq<Corner>, positions: seq<Vec3>, uvs: seq<Vec2>)
    requires PosKept(g, positions)
    ensures var r := AddCorners(g, cs, positions, uvs); r.Ok? ==> PosKept(r.value.0, positions)
    decreases |cs|
  {
    if cs != [] {
      CornersKeep(g, cs[..|cs| - 1], positions, uvs);
      var pre := AddCorners(g, cs[..|cs| - 1], positions, uvs);
      if pre.Ok? {
        CornerKeeps(pre.value.0, cs[|cs| - 1], positions, uvs);
      }
    }
  }

  lemma {:induction false} FanKeeps(g: Group, vs: seq<Corner>, i: int, positions: seq<Vec3>, uvs: seq<Vec2>)
    requires PosKept(g, positions) && i < |vs|
    ensures var r := FanTo(g, vs, i, positions, uvs); r.Ok? ==> PosKept(r.value, positions)
    decreases i
  {
    if i > 1 {
      FanKeeps(g, vs, i - 1, positions, uvs);
      var pre := FanTo(g, vs, i - 1, positions, uvs);
      if pre.Ok? {
        FanNext(g, vs, i - 1, pre.value, positions, uvs);
        CornersKeep(pre.value, [vs[0], vs[i - 1], vs[i]], positions, uvs);
      }
    }
  }

  /** The state's groups all keep their positions. */
  predicate StateKept(st: ObjState) {
    forall n :: n in st.groups.table ==> PosKept(st.groups.table[n], st.positions)
  }

  lemma {:induction false} StepKeeps(st: ObjState, s: ObjStmt, env: Env)
    requires StateOk(st) && StateKept(st)
    ensures var r := StepObj(st, s, env); r.Ok? ==> StateKept(r.value)
  {
    match s
    case V(a, b, c) => VertexKeeps(st, s, env);
    case F(toks) => FaceKeeps(st, toks);
    case _ =>
  }

  lemma {:induction false} VertexKeeps(st: ObjState, s: ObjStmt, env: Env)
    requires StateOk(st) && StateKept(st) && s.V?
    ensures var r := StepObj(st, s, env); r.Ok? ==> StateKept(r.value)
  {
    var r := StepObj(st, s, env);
    if r.Ok? {
      forall n | n in st.groups.table
        ensures PosKept(st.groups.table[n], r.value.positions)
      {
        PosKeptLonger(st.groups.table[n], st.positions, r.value.positions);
      }
    }
  }

  lemma {:induction false} FaceKeeps(st: ObjState, toks: seq<string>)
    requires StateOk(st) && StateKept(st)
    ensures var r := Face(st, toks); r.Ok? ==> StateKept(r.value)
  {
    var r := Face(st, toks);
    if r.Ok? {
      var vs := Corners(toks, |st.positions|, |st.uvs|).value;
      var g := GroupOf(st.groups, st.current);
      assert PosKept(g, st.positions) by {
        if st.current !in st.groups.table {
          assert g == NewGroup;
        }
      }
      FanKeeps(g, vs, |vs| - 1, st.positions, st.uvs);
      var g' := FanTo(g, vs, |vs| - 1, st.positions, st.uvs).value;
      assert PosKept(g', st.positions);
      FanShape(g, vs, |vs| - 1, st.positions, st.uvs);
      assert GroupOk(g');
      assert r.value.groups == Put(st.groups, st.current, g');
      assert r.value.positions == st.positions;
      forall n | n in r.value.groups.table
        ensures PosKept(r.value.groups.table[n], r.value.positions)
      {
        if n != st.current {
          assert r.value.groups.table[n] == st.groups.table[n];
        }
      }
    }
  }

  /** Re-indexing is faithful: in every loaded group, the unified vertex of
      a corner `v` (or `v/vt`) with a non-negative index is the position it names. */
  lemma {:induction false} UnifiedVertices(ss: seq<ObjStmt>, env: Env)
    ensures var r := RunObj(Start, ss, env);
      r.Ok? ==> forall n, c :: n in r.value.groups.table && c in r.value.groups.table[n].seen && c.vi >= 0 ==>
        var g := r.value.groups.table[n];
        0 <= g.seen[c] < |g.v| && c.vi < |r.value.positions| && g.v[g.seen[c]] == r.value.positions[c.vi]
  {
    RunKeeps(Start, ss, env);
    var r := RunObj(Start, ss, env);
    if r.Ok? {
      forall n, c | n in r.value.groups.table && c in r.value.groups.table[n].seen && c.vi >= 0
        ensures var g := r.value.groups.table[n];
          0 <= g.seen[c] < |g.v| && c.vi < |r.value.positions| && g.v[g.seen[c]] == r.value.positions[c.vi]
      {
        assert PosKept(r.value.groups.table[n], r.value.positions);
      }
    }
  }

  lemma {:induction false} RunKeeps(st: ObjState, ss: seq<ObjStmt>, env: Env)
    requires StateOk(st) && StateKept(st)
    ensures var r := RunObj(st, ss, env); r.Ok? ==> StateKept(r.value)
    decreases |ss|
  {
    if ss != [] {
      RunKeeps(st, ss[..|ss| - 1], env);
      var pre := RunObj(st, ss[..|ss| - 1], env);
      if pre.Ok? {
        StepKeeps(pre.value, ss[|ss| - 1], env);
      }
    }
  }

  // ------------------------------------------------------------ the loop

  /** The `for tok in args` loop of an `f` statement. */
  method FaceCorners(toks: seq<string>, np: int, nt: int) returns (r: Result<seq<Corner>>)
    ensures r == Corners(toks, np, nt)
  {
    var verts: seq<Corner> := [];
    for i := 0 to |toks|
      invariant Corners(toks[..i], np, nt) == Ok(verts)
    {
      assert toks[..i + 1][..i] == toks[..i];
      var fields := SplitOn(toks[i], '/');
      var vi := ParseIndex(fields[0], np);
      if vi.Err? {
        CornersErr(toks, i + 1, np, nt);
        return Err(vi.msg);
      }
      var ti: Option<int> := None;
      if |fields| >= 2 && fields[1] != [] {
        var t := ParseIndex(fields[1], nt);
        if t.Err? {
          CornersErr(toks, i + 1, np, nt);
          return Err(t.msg);
        }
        ti := Some(t.value);
      }
      verts := verts + [Corner(vi.value, ti)];
    }
    assert toks[..|toks|] == toks;
    return Ok(verts);
  }

  /** The `for (vi, ti) in tri` loop: each corner's cached vertex, or a new
      one appended to the group. */
  method CornerIndices(g: Group, cs: seq<Corner>, positions: seq<Vec3>, uvs: seq<Vec2>)
    returns (r: Result<(Group, seq<int>)>)
    ensures r == AddCorners(g, cs, positions, uvs)
  {
    var v, vt, seen := g.v, g.vt, g.seen;
    var outIdx: seq<int> := [];
    for j := 0 to |cs|
      invariant AddCorners(g, cs[..j], positions, uvs) == Ok((Group(v, vt, g.idx, seen), outIdx))
    {
      assert cs[..j + 1][..j] == cs[..j];
      var key := cs[j];
      var mi: int;
      if key in seen {
        mi := seen[key];
      } else {
        mi := |v|;
        var p := PyIndex(positions, key.vi);
        var uv := if key.ti.Some? && key.ti.value < |uvs| then PyIndex(uvs, key.ti.value) else Some(Vec2(0.0, 0.0));
        if p.None? || uv.None? {
          AddCornersErr(g, cs, j + 1, positions, uvs);
          return Err("list index out of range");
        }
        seen := seen[key := mi];
        v := v + [p.value];
        vt := vt + [uv.value];
      }
      outIdx := outIdx + [mi];
    }
    assert cs[..|cs|] == cs;
    return Ok((Group(v, vt, g.idx, seen), outIdx));
  }

  /** One fan triangle: `out_idx` of its corners, appended to `g["idx"]`. */
  method TriInto(g: Group, a: Corner, b: Corner, c: Corner, positions: seq<Vec3>, uvs: seq<Vec2>)
    returns (r: Result<Group>)
    ensures r == AddTri(g, a, b, c, positions, uvs)
  {
    var tri := CornerIndices(g, [a, b, c], positions, uvs);
    if tri.Err? {
      return Err(tri.msg);
    }
    var (g2, out) := tri.value;
    return Ok(g2.(idx := g2.idx + [Tri(out[0], out[1], out[2])]));
  }

  /** Pass i of the fan loop: the triangle (v0, vi, vi+1). */
  method FanTriInto(g: Group, vs: seq<Corner>, i: int, h: Group, positions: seq<Vec3>, uvs: seq<Vec2>)
    returns (next: Result<Group>)
    requires 1 <= i && i + 1 < |vs| && FanTo(g, vs, i, positions, uvs) == Ok(h)
    ensures next == FanTo(g, vs, i + 1, positions, uvs)
    ensures next.Err? ==> next == FanTo(g, vs, |vs| - 1, positions, uvs)
  {
    next := TriInto(h, vs[0], vs[i], vs[i + 1], positions, uvs);
    FanNext(g, vs, i, h, positions, uvs);
    if next.Err? {
      FanErr(FanTri(vs, positions, uvs), g, i + 1, |vs| - 1);
    }
  }

  /** The `for i in range(1, len(verts) - 1)` fan loop. */
  method FanInto(g: Group, vs: seq<Corner>, positions: seq<Vec3>, uvs: seq<Vec2>) returns (r: Result<Group>)
    ensures r == FanTo(g, vs, |vs| - 1, positions, uvs)
  {
    if |vs| < 3 {
      return Ok(g);
    }
    var h := g;
    for i := 1 to |vs| - 1
      invariant FanTo(g, vs, i, positions, uvs) == Ok(h)
    {
      var next := FanTriInto(g, vs, i, h, positions, uvs);
      if next.Err? {
        return next;
      }
      h := next.value;
    }
    return Ok(h);
  }

  /** An `f` statement: its corners, fanned into the group of `current_mtl`. */
  method AddFace(st: ObjState, toks: seq<string>) returns (r: Result<ObjState>)
    requires StateOk(st)
    ensures r == Face(st, toks)
  {
    var verts := FaceCorners(toks, |st.positions|, |st.uvs|);
    if verts.Err? {
      return Err(verts.msg);
    }
    var order, table := st.groups.order, st.groups.table;
    var g := if st.current in table then table[st.current] else NewGroup;
    var g2 := FanInto(g, verts.value, st.positions, st.uvs);
    if g2.Err? {
      return Err(g2.msg);
    }
    if st.current !in table {
      order := order + [st.current];
    }
    table := table[st.current := g2.value];
    return Ok(st.(groups := Groups(order, table)));
  }

  /** `mtllib ... file`: the library next to the model, else in the
      materials directory, merged into `materials` when it exists. */
  method LinkLib(mats: map<string, Material>, file: string, env: Env) returns (mats': map<string, Material>)
    requires forall k :: k in mats ==> mats[k].name == k
    ensures mats' == LoadLib(mats, file, env)
  {
    assert [env.baseDir, env.mtlDir][1..] == [env.mtlDir] && [env.mtlDir][1..] == [];
    assert Mtl.FirstDir(file, [env.mtlDir][1..], env.isFile) == None;
    assert Mtl.FirstDir(file, [env.mtlDir], env.isFile) ==
           if env.isFile(env.mtlDir, file) then Some(Mtl.Location(env.mtlDir, file)) else None;
    var dir := env.baseDir;
    if !env.isFile(dir, file) {
      dir := env.mtlDir;
    }
    mats' := mats;
    if env.isFile(dir, file) {
      var lib := Mtl.LoadMtl(env.read(dir, file), dir, Some([env.baseDir, env.texDir, env.mtlDir]),
                             env.isFile, env.load, env.num);
      mats' := mats + lib;
    }
  }

  /** The statement `cmd args...`. */
  method ObjCommand(st: ObjState, cmd: string, args: seq<string>, env: Env) returns (r: Result<ObjState>)
    requires StateOk(st)
    ensures r == StepObj(st, ParseParts([cmd] + args), env)
  {
    assert ([cmd] + args)[0] == cmd && ([cmd] + args)[1..] == args;
    r := Ok(st);
    if cmd == "mtllib" && args != [] {
      var mats := LinkLib(st.materials, args[|args| - 1], env);
      r := Ok(st.(materials := mats));
    } else if cmd == "usemtl" && args != [] {
      r := Ok(st.(current := Join(" ", args)));
    } else if cmd == "v" && |args| >= 3 {
      var x, y, z := env.num(args[0]), env.num(args[1]), env.num(args[2]);
      if x.None? || y.None? || z.None? {
        return Err("could not convert string to float");
      }
      r := Ok(st.(positions := st.positions + [Vec3(x.value, y.value, z.value)]));
    } else if cmd == "vt" && |args| >= 2 {
      var x, y := env.num(args[0]), env.num(args[1]);
      if x.None? || y.None? {
        return Err("could not convert string to float");
      }
      r := Ok(st.(uvs := st.uvs + [Vec2(x.value, y.value)]));
    } else if cmd == "f" && |args| >= 3 {
      r := AddFace(st, args);
    }
  }

  /** One pass of the loop of `load_obj`. */
  method ObjLine(st: ObjState, raw: string, env: Env) returns (r: Result<ObjState>)
    requires StateOk(st)
    ensures r == StepObj(st, ParseLine(raw), env)
  {
    var line := Strip(raw);
    if line == [] || line[0] == '#' {
      return Ok(st);
    }
    var parts := Split(line);
    if parts == [] {
      return Ok(st);
    }
    r := ObjCommand(st, parts[0], parts[1..], env);
    assert parts == [parts[0]] + parts[1..];
  }

  /** The `for mtl_name, g in groups.items()` loop. */
  method BuildPrims(gs: Groups, mats: map<string, Material>) returns (prims: seq<Primitive>)
    requires GroupsOk(gs)
    ensures prims == PrimsOf(gs.order, gs.table, mats)
  {
    prims := [];
    for k := 0 to |gs.order|
      invariant prims == PrimsOf(gs.order[..k], gs.table, mats)
    {
      assert gs.order[..k + 1][..k] == gs.order[..k];
      var name := gs.order[k];
      var g := gs.table[name];
      var mat := if name in mats then mats[name] else DefaultMaterial(name);
      var mesh := Mesh(g.v, if g.vt != [] then Some(g.vt) else None, g.idx);
      prims := prims + [MakePrimitive(mesh, mat)];
    }
    assert gs.order[..|gs.order|] == gs.order;
  }

  /** `load_obj(path)` on the file's text. */
  method LoadObj(text: string, env: Env) returns (r: Result<SceneData>)
    ensures r == LoadObjText(text, env)
  {
    var positions: seq<Vec3> := [];
    var uvs: seq<Vec2> := [];
    var materials: map<string, Material> := map[];
    var current := "default";
    var groups := Groups([], map[]);
    var lines := SplitLines(text);
    for i := 0 to |lines|
      invariant StateOk(ObjState(positions, uvs, materials, current, groups))
      invariant RunObj(Start, Parsed(lines[..i]), env) == Ok(ObjState(positions, uvs, materials, current, groups))
    {
      var res := ObjLine(ObjState(positions, uvs, materials, current, groups), lines[i], env);
      LineRuns(lines, i, ObjState(positions, uvs, materials, current, groups), res, env);
      if res.Err? {
        return Err(res.msg);
      }
      positions, uvs, materials, current, groups :=
        res.value.positions, res.value.uvs, res.value.materials, res.value.current, res.value.groups;
    }
    assert lines[..|lines|] == lines;
    var prims := BuildPrims(groups, materials);
    return Ok(SceneData(prims));
  }
}
