/** The collision layer: a uniform XZ grid over static triangles, Ericson's
    closest point on a triangle, a downward Moller-Trumbore raycast, the
    collider build and the substepped character integrator. */
module Physics {
  import opened Util
  import opened LinAlg
  import opened Scene

  /** A collision triangle with its precomputed XZ bounds. */
  datatype Triangle = Triangle(a: Vec3, b: Vec3, c: Vec3, minX: real, maxX: real, minZ: real, maxZ: real)

  type Cell = (int, int)
  type Cells = map<Cell, seq<nat>>

  /** `cells.get(k)`, with an absent cell read as the empty list. */
  function Lookup(cells: Cells, k: Cell): seq<nat> {
    if k in cells then cells[k] else []
  }

  /** Whether cell k lists triangle index i. */
  predicate Listed(cells: Cells, k: Cell, i: int) {
    i in Lookup(cells, k)
  }

  /** An inclusive rectangle of grid cells. */
  datatype CellBox = CellBox(ix0: int, ix1: int, iz0: int, iz1: int)

  predicate InBox(k: Cell, bx: CellBox) {
    bx.ix0 <= k.0 <= bx.ix1 && bx.iz0 <= k.1 <= bx.iz1
  }

  /** `_cell`: the grid cell holding the point (x, z). */
  function CellOf(inv: real, x: real, z: real): Cell {
    (CellIndex(inv, x), CellIndex(inv, z))
  }

  /** `int(math.floor(x * inv))`: the grid index of coordinate x. */
  function CellIndex(inv: real, x: real): int {
    (x * inv).Floor
  }

  /** The cells from the corner cell of (minX, minZ) to that of (maxX, maxZ). */
  function BoxCells(inv: real, minX: real, maxX: real, minZ: real, maxZ: real): CellBox {
    var lo := CellOf(inv, minX, minZ);
    var hi := CellOf(inv, maxX, maxZ);
    CellBox(lo.0, hi.0, lo.1, hi.1)
  }

  function TriCells(inv: real, t: Triangle): CellBox {
    BoxCells(inv, t.minX, t.maxX, t.minZ, t.maxZ)
  }

  /** Concatenation of the lists of cells (ix0, iz) .. (ix - 1, iz). */
  function RowList(cells: Cells, ix0: int, ix: int, iz: int): seq<nat>
    decreases ix - ix0
  {
    if ix <= ix0 then [] else RowList(cells, ix0, ix - 1, iz) + Lookup(cells, (ix - 1, iz))
  }

  /** Concatenation of the rows bx.iz0 .. iz - 1 of a box: z outer, x inner. */
  function GridList(cells: Cells, bx: CellBox, iz: int): seq<nat>
    decreases iz - bx.iz0
  {
    if iz <= bx.iz0 then [] else GridList(cells, bx, iz - 1) + RowList(cells, bx.ix0, bx.ix1 + 1, iz - 1)
  }

  /** Keeps the first occurrence of every element, in order. */
  function Dedup(s: seq<nat>): seq<nat> {
    if |s| == 0 then []
    else
      var d := Dedup(s[..|s| - 1]);
      if s[|s| - 1] in d then d else d + [s[|s| - 1]]
  }

  predicate NoDup(s: seq<nat>) {
    forall i, j :: 0 <= i < j < |s| ==> s[i] != s[j]
  }

  /** What `query_aabb` returns for a box of cells. */
  function QuerySpec(cells: Cells, bx: CellBox): seq<nat> {
    Dedup(GridList(cells, bx, bx.iz1 + 1))
  }

  lemma DedupSnoc(s: seq<nat>, x: nat)
    ensures Dedup(s + [x]) == if x in Dedup(s) then Dedup(s) else Dedup(s) + [x]
  {
    assert (s + [x])[..|s|] == s;
  }

  lemma {:induction false} DedupMem(s: seq<nat>, t: nat)
    ensures t in Dedup(s) <==> t in s
  {
    if |s| > 0 {
      DedupMem(s[..|s| - 1], t);
      assert s == s[..|s| - 1] + [s[|s| - 1]];
    }
  }

  /** Every element comes out at most once. */
  lemma {:induction false} DedupNoDup(s: seq<nat>)
    ensures NoDup(Dedup(s))
  {
    if |s| > 0 {
      DedupNoDup(s[..|s| - 1]);
    }
  }

  lemma {:induction false} RowListMem(cells: Cells, ix0: int, ix: int, iz: int, t: nat)
    ensures t in RowList(cells, ix0, ix, iz) <==> exists x :: ix0 <= x < ix && t in Lookup(cells, (x, iz))
    decreases ix - ix0
  {
    if ix > ix0 {
      RowListMem(cells, ix0, ix - 1, iz, t);
    }
  }

  lemma {:induction false} GridListMem(cells: Cells, bx: CellBox, iz: int, t: nat)
    ensures t in GridList(cells, bx, iz) <==>
            exists k: Cell :: bx.ix0 <= k.0 <= bx.ix1 && bx.iz0 <= k.1 < iz && t in Lookup(cells, k)
    decreases iz - bx.iz0
  {
    if iz > bx.iz0 {
      GridListMem(cells, bx, iz - 1, t);
      RowListMem(cells, bx.ix0, bx.ix1 + 1, iz - 1, t);
      if t in RowList(cells, bx.ix0, bx.ix1 + 1, iz - 1) {
        var x :| bx.ix0 <= x < bx.ix1 + 1 && t in Lookup(cells, (x, iz - 1));
        var k: Cell := (x, iz - 1);
        assert bx.ix0 <= k.0 <= bx.ix1 && bx.iz0 <= k.1 < iz && t in Lookup(cells, k);
      }
      if exists k: Cell :: bx.ix0 <= k.0 <= bx.ix1 && bx.iz0 <= k.1 < iz && t in Lookup(cells, k) {
        var k: Cell :| bx.ix0 <= k.0 <= bx.ix1 && bx.iz0 <= k.1 < iz && t in Lookup(cells, k);
        if k.1 == iz - 1 {
          assert bx.ix0 <= k.0 < bx.ix1 + 1 && t in Lookup(cells, (k.0, iz - 1));
        }
      }
    }
  }

  /** An index is returned exactly when some cell of the box lists it, and
      then only once. */
  lemma QueryMem(cells: Cells, bx: CellBox, t: nat)
    ensures t in QuerySpec(cells, bx) <==> exists k: Cell :: InBox(k, bx) && t in Lookup(cells, k)
    ensures NoDup(QuerySpec(cells, bx))
  {
    DedupMem(GridList(cells, bx, bx.iz1 + 1), t);
    GridListMem(cells, bx, bx.iz1 + 1, t);
    DedupNoDup(GridList(cells, bx, bx.iz1 + 1));
  }

  lemma FloorMonotone(inv: real, x: real, x': real)
    requires inv >= 0.0 && x <= x'
    ensures CellIndex(inv, x) <= CellIndex(inv, x')
  {
    assert x' * inv - x * inv == (x' - x) * inv;
  }

  class SpatialHashXZ {
    const cellSize: real
    const invCellSize: real
    var cells: Cells

    /** `SpatialHashXZ(cell_size)`: a zero cell size falls back to an inverse of 1. */
    constructor (cellSize: real)
      ensures this.cellSize == cellSize
      ensures invCellSize == if cellSize != 0.0 then 1.0 / cellSize else 1.0
      ensures cells == map[]
    {
      this.cellSize := cellSize;
      invCellSize := if cellSize != 0.0 then 1.0 / cellSize else 1.0;
      cells := map[];
    }

    /** `insert_tri`: appends triIdx to every cell of the triangle's box and to no other. */
    method InsertTri(triIdx: nat, tri: Triangle)
      modifies this`cells
      ensures forall k :: (Lookup(cells, k) ==
        if InBox(k, TriCells(invCellSize, tri)) then Lookup(old(cells), k) + [triIdx] else Lookup(old(cells), k))
      ensures forall k :: k in cells <==> (k in old(cells) || InBox(k, TriCells(invCellSize, tri)))
    {
      var bx := TriCells(invCellSize, tri);
      var iz := bx.iz0;
      while iz <= bx.iz1
        invariant bx.iz0 <= iz <= IMax(bx.iz0, bx.iz1 + 1)
        invariant forall k :: (Lookup(cells, k) ==
          if bx.ix0 <= k.0 <= bx.ix1 && bx.iz0 <= k.1 < iz then Lookup(old(cells), k) + [triIdx]
          else Lookup(old(cells), k))
        invariant forall k :: k in cells <==> (k in old(cells) || (bx.ix0 <= k.0 <= bx.ix1 && bx.iz0 <= k.1 < iz))
        decreases bx.iz1 - iz
      {
        var ix := bx.ix0;
        while ix <= bx.ix1
          invariant bx.ix0 <= ix <= IMax(bx.ix0, bx.ix1 + 1)
          invariant forall k :: (Lookup(cells, k) ==
            if (bx.ix0 <= k.0 <= bx.ix1 && bx.iz0 <= k.1 < iz) || (k.1 == iz && bx.ix0 <= k.0 < ix)
            then Lookup(old(cells), k) + [triIdx]
            else Lookup(old(cells), k))
          invariant forall k :: k in cells <==> (k in old(cells) ||
            (bx.ix0 <= k.0 <= bx.ix1 && bx.iz0 <= k.1 < iz) || (k.1 == iz && bx.ix0 <= k.0 < ix))
          decreases bx.ix1 - ix
        {
          cells := cells[(ix, iz) := Lookup(cells, (ix, iz)) + [triIdx]];
          ix := ix + 1;
        }
        iz := iz + 1;
      }
    }

    /** `query_aabb`: the de-duplicated, first-seen-order union of the cells under the box. */
    method QueryAabb(minX: real, maxX: real, minZ: real, maxZ: real) returns (out: seq<nat>)
      ensures out == QuerySpec(cells, BoxCells(invCellSize, minX, maxX, minZ, maxZ))
    {
      out := QueryCells(BoxCells(invCellSize, minX, maxX, minZ, maxZ));
    }

    /** The two loops of `query_aabb` over the cell range bx. */
    method QueryCells(bx: CellBox) returns (out: seq<nat>)
      ensures out == QuerySpec(cells, bx)
    {
      out := [];
      var seen: set<nat> := {};
      var iz := bx.iz0;
      while iz <= bx.iz1
        invariant bx.iz0 <= iz <= IMax(bx.iz0, bx.iz1 + 1)
        invariant out == Dedup(GridList(cells, bx, iz))
        invariant forall t :: t in seen <==> t in out
        decreases bx.iz1 - iz
      {
        out, seen := QueryRow(bx, iz, GridList(cells, bx, iz), out, seen);
        iz := iz + 1;
      }
      assert GridList(cells, bx, iz) == GridList(cells, bx, bx.iz1 + 1);
    }

    /** The middle loop of `query_aabb`: the cells of row iz, left to right. */
    method QueryRow(bx: CellBox, iz: int, ghost pre: seq<nat>, out: seq<nat>, seen: set<nat>)
      returns (out': seq<nat>, seen': set<nat>)
      requires out == Dedup(pre) && forall t :: t in seen <==> t in out
      ensures out' == Dedup(pre + RowList(cells, bx.ix0, bx.ix1 + 1, iz))
      ensures forall t :: t in seen' <==> t in out'
    {
      out', seen' := out, seen;
      var ix := bx.ix0;
      assert pre + RowList(cells, bx.ix0, ix, iz) == pre;
      while ix <= bx.ix1
        invariant bx.ix0 <= ix && (ix <= bx.ix1 + 1 || ix == bx.ix0)
        invariant out' == Dedup(pre + RowList(cells, bx.ix0, ix, iz))
        invariant forall t :: t in seen' <==> t in out'
        decreases bx.ix1 - ix
      {
        out', seen' := QueryCell(bx.ix0, ix, iz, pre, out', seen');
        ix := ix + 1;
      }
      assert RowList(cells, bx.ix0, ix, iz) == RowList(cells, bx.ix0, bx.ix1 + 1, iz);
    }

    /** One cell (ix, iz) of the middle loop. */
    method QueryCell(ix0: int, ix: int, iz: int, ghost pre: seq<nat>, out: seq<nat>, seen: set<nat>)
      returns (out': seq<nat>, seen': set<nat>)
      requires ix0 <= ix && out == Dedup(pre + RowList(cells, ix0, ix, iz)) && forall t :: t in seen <==> t in out
      ensures out' == Dedup(pre + RowList(cells, ix0, ix + 1, iz))
      ensures forall t :: t in seen' <==> t in out'
    {
      var lst := Lookup(cells, (ix, iz));
      assert pre + RowList(cells, ix0, ix + 1, iz) == pre + RowList(cells, ix0, ix, iz) + lst;
      if lst != [] {
        out', seen' := AppendUnseen(pre + RowList(cells, ix0, ix, iz), out, seen, lst);
      } else {
        out', seen' := out, seen;
        assert pre + RowList(cells, ix0, ix, iz) + lst == pre + RowList(cells, ix0, ix, iz);
      }
    }
  }

  /** The innermost loop of `query_aabb`: appends the not-yet-seen indices of one cell. */
  method AppendUnseen(ghost prefix: seq<nat>, out: seq<nat>, seen: set<nat>, lst: seq<nat>)
    returns (out': seq<nat>, seen': set<nat>)
    requires out == Dedup(prefix) && forall t :: t in seen <==> t in out
    ensures out' == Dedup(prefix + lst) && forall t :: t in seen' <==> t in out'
  {
    out', seen' := out, seen;
    var j := 0;
    assert prefix + lst[..0] == prefix;
    while j < |lst|
      invariant 0 <= j <= |lst|
      invariant out' == Dedup(prefix + lst[..j])
      invariant forall t :: t in seen' <==> t in out'
    {
      var ti := lst[j];
      DedupSnoc(prefix + lst[..j], ti);
      assert prefix + lst[..j + 1] == (prefix + lst[..j]) + [ti];
      if ti !in seen' {
        seen' := seen' + {ti};
        out' := out' + [ti];
      }
      j := j + 1;
    }
    assert lst[..|lst|] == lst;
  }

  /** Every listed index names a triangle whose box covers that cell. */
  ghost predicate Sound(tris: seq<Triangle>, cells: Cells, inv: real) {
    forall k: Cell, i: int :: Listed(cells, k, i) ==> 0 <= i < |tris| && InBox(k, TriCells(inv, tris[i]))
  }

  /** Every triangle is listed in every cell of its box. */
  ghost predicate Covers(tris: seq<Triangle>, cells: Cells, inv: real) {
    forall i: int, k: Cell :: 0 <= i < |tris| && InBox(k, TriCells(inv, tris[i])) ==> Listed(cells, k, i)
  }

  /** Spatial-hash completeness: a triangle whose XZ box overlaps the query box
      is in the query result (exactly once, as the result has no repeats). */
  lemma QueryFindsOverlapping(tris: seq<Triangle>, cells: Cells, inv: real, i: nat,
                              minX: real, maxX: real, minZ: real, maxZ: real)
    requires Covers(tris, cells, inv) && inv > 0.0 && i < |tris|
    requires tris[i].minX <= tris[i].maxX && tris[i].minZ <= tris[i].maxZ
    requires minX <= maxX && minZ <= maxZ
    requires minX <= tris[i].maxX && tris[i].minX <= maxX
    requires minZ <= tris[i].maxZ && tris[i].minZ <= maxZ
    ensures i in QuerySpec(cells, BoxCells(inv, minX, maxX, minZ, maxZ))
    ensures NoDup(QuerySpec(cells, BoxCells(inv, minX, maxX, minZ, maxZ)))
  {
    var q := BoxCells(inv, minX, maxX, minZ, maxZ);
    var tb := TriCells(inv, tris[i]);
    FloorMonotone(inv, minX, tris[i].maxX);
    FloorMonotone(inv, tris[i].minX, maxX);
    FloorMonotone(inv, minX, maxX);
    FloorMonotone(inv, tris[i].minX, tris[i].maxX);
    FloorMonotone(inv, minZ, tris[i].maxZ);
    FloorMonotone(inv, tris[i].minZ, maxZ);
    FloorMonotone(inv, minZ, maxZ);
    FloorMonotone(inv, tris[i].minZ, tris[i].maxZ);
    BoxesMeet(q, tb);
    QueryMem(cells, q, i);
  }

  /** Two cell boxes whose ranges overlap on both axes share their
      lower-corner maximum. */
  lemma BoxesMeet(a: CellBox, b: CellBox)
    requires a.ix0 <= a.ix1 && b.ix0 <= b.ix1 && a.ix0 <= b.ix1 && b.ix0 <= a.ix1
    requires a.iz0 <= a.iz1 && b.iz0 <= b.iz1 && a.iz0 <= b.iz1 && b.iz0 <= a.iz1
    ensures var k: Cell := (IMax(a.ix0, b.ix0), IMax(a.iz0, b.iz0)); InBox(k, a) && InBox(k, b)
  {
  }

  /** Every index a query returns names a triangle sharing a cell with the query box. */
  lemma QueryOnlyNearby(tris: seq<Triangle>, cells: Cells, inv: real, bx: CellBox, i: nat)
    requires Sound(tris, cells, inv)
    requires i in QuerySpec(cells, bx)
    ensures i < |tris| && exists k: Cell :: InBox(k, bx) && InBox(k, TriCells(inv, tris[i]))
  {
    QueryMem(cells, bx, i);
    var k: Cell :| InBox(k, bx) && i in Lookup(cells, k);
    assert Listed(cells, k, i);
    assert InBox(k, bx) && InBox(k, TriCells(inv, tris[i]));
  }

  /** The static collider: the triangle list and its grid. */
  class CastleCollider {
    const tris: seq<Triangle>
    const grid: SpatialHashXZ

    constructor (tris: seq<Triangle>, grid: SpatialHashXZ)
      ensures this.tris == tris && this.grid == grid
    {
      this.tris := tris;
      this.grid := grid;
    }

    ghost predicate Valid()
      reads grid
    {
      Sound(tris, grid.cells, grid.invCellSize)
    }

    /** `query_sphere`: the grid query over [cx - r, cx + r] x [cz - r, cz + r]. */
    method QuerySphere(center: Vec3, radius: real) returns (r: seq<nat>)
      ensures r == QuerySpec(grid.cells, BoxCells(grid.invCellSize, center.x - radius, center.x + radius,
                                                  center.z - radius, center.z + radius))
    {
      r := grid.QueryAabb(center.x - radius, center.x + radius, center.z - radius, center.z + radius);
    }
  }

  /** A collision triangle with the XZ bounds of its three corners. */
  function MakeTriangle(a: Vec3, b: Vec3, c: Vec3): (t: Triangle)
    ensures t.a == a && t.b == b && t.c == c
    ensures t.minX <= t.maxX && t.minZ <= t.maxZ
    ensures t.minX <= a.x && t.minX <= b.x && t.minX <= c.x && (t.minX == a.x || t.minX == b.x || t.minX == c.x)
    ensures t.maxX >= a.x && t.maxX >= b.x && t.maxX >= c.x && (t.maxX == a.x || t.maxX == b.x || t.maxX == c.x)
    ensures t.minZ <= a.z && t.minZ <= b.z && t.minZ <= c.z && (t.minZ == a.z || t.minZ == b.z || t.minZ == c.z)
    ensures t.maxZ >= a.z && t.maxZ >= b.z && t.maxZ >= c.z && (t.maxZ == a.z || t.maxZ == b.z || t.maxZ == c.z)
  {
    Triangle(a, b, c, Min3(a.x, b.x, c.x), Max3(a.x, b.x, c.x), Min3(a.z, b.z, c.z), Max3(a.z, b.z, c.z))
  }

  /** The world-space collision triangles of one primitive, in index order. */
  function WorldTriangles(p: Primitive): (r: seq<Triangle>)
    requires MeshOk(p.mesh)
    ensures |r| == |p.mesh.indices|
  {
    var m := p.mesh;
    seq(|m.indices|, k requires 0 <= k < |m.indices| =>
      var t := m.indices[k];
      MakeTriangle(TransformPoint(p.localToWorld, m.positions[t.i1]),
                   TransformPoint(p.localToWorld, m.positions[t.i2]),
                   TransformPoint(p.localToWorld, m.positions[t.i3])))
  }

  predicate AllMeshesOk(prims: seq<Primitive>) {
    forall p :: p in prims ==> MeshOk(p.mesh)
  }

  /** The collider's triangle list: every primitive's triangles, primitive by primitive. */
  function CollisionTriangles(prims: seq<Primitive>): seq<Triangle>
    requires AllMeshesOk(prims)
  {
    if |prims| == 0 then [] else CollisionTriangles(prims[..|prims| - 1]) + WorldTriangles(prims[|prims| - 1])
  }

  /** Appending one triangle under the next free index keeps the grid exact. */
  lemma InsertKeepsIndexExact(tris: seq<Triangle>, cells: Cells, cells': Cells, tri: Triangle, inv: real)
    requires Covers(tris, cells, inv) && Sound(tris, cells, inv)
    requires forall k :: (Lookup(cells', k) ==
      if InBox(k, TriCells(inv, tri)) then Lookup(cells, k) + [|tris|] else Lookup(cells, k))
    ensures Covers(tris + [tri], cells', inv) && Sound(tris + [tri], cells', inv)
  {
    var tris' := tris + [tri];
    forall i, k | 0 <= i < |tris'| && InBox(k, TriCells(inv, tris'[i]))
      ensures i in Lookup(cells', k)
    {
      if i < |tris| {
        assert tris'[i] == tris[i];
      }
    }
    forall k, i | i in Lookup(cells', k)
      ensures i < |tris'| && InBox(k, TriCells(inv, tris'[i]))
    {
      if InBox(k, TriCells(inv, tri)) {
        if i != |tris| {
          assert Listed(cells, k, i);
          assert tris'[i] == tris[i];
        }
      } else {
        assert Listed(cells, k, i);
        assert tris'[i] == tris[i];
      }
    }
  }

  /** The inner loop of `build_collider_from_scene` for one primitive. */
  method AddPrimitive(grid: SpatialHashXZ, tris: seq<Triangle>, prim: Primitive) returns (tris': seq<Triangle>)
    requires MeshOk(prim.mesh)
    requires Covers(tris, grid.cells, grid.invCellSize) && Sound(tris, grid.cells, grid.invCellSize)
    modifies grid
    ensures tris' == tris + WorldTriangles(prim)
    ensures Covers(tris', grid.cells, grid.invCellSize) && Sound(tris', grid.cells, grid.invCellSize)
  {
    var m := prim.mesh;
    var vertsWs := seq(|m.positions|, j requires 0 <= j < |m.positions| =>
                       TransformPoint(prim.localToWorld, m.positions[j]));
    tris' := tris;
    var k := 0;
    while k < |m.indices|
      invariant 0 <= k <= |m.indices|
      invariant tris' == tris + WorldTriangles(prim)[..k]
      invariant Covers(tris', grid.cells, grid.invCellSize) && Sound(tris', grid.cells, grid.invCellSize)
    {
      var t := m.indices[k];
      assert t in m.indices;
      var tri := MakeTriangle(vertsWs[t.i1], vertsWs[t.i2], vertsWs[t.i3]);
      assert tri == WorldTriangles(prim)[k];
      ghost var oldCells := grid.cells;
      grid.InsertTri(|tris'|, tri);
      InsertKeepsIndexExact(tris', oldCells, grid.cells, tri, grid.invCellSize);
      tris' := tris' + [tri];
      assert WorldTriangles(prim)[..k + 1] == WorldTriangles(prim)[..k] + [tri];
      k := k + 1;
    }
    assert WorldTriangles(prim)[..k] == WorldTriangles(prim);
  }

  /** `build_collider_from_scene`: triangle i carries its corners' XZ bounds and
      is listed, under index i, in exactly the cells of its box (cell size 2). */
  method BuildCollider(scene: SceneData) returns (c: CastleCollider)
    requires AllMeshesOk(scene.primitives)
    ensures fresh(c) && fresh(c.grid)
    ensures c.grid.cellSize == 2.0 && c.grid.invCellSize == 0.5
    ensures c.tris == CollisionTriangles(scene.primitives)
    ensures Covers(c.tris, c.grid.cells, 0.5) && Sound(c.tris, c.grid.cells, 0.5)
    ensures c.Valid()
  {
    var tris: seq<Triangle> := [];
    var grid := new SpatialHashXZ(2.0);
    var pi := 0;
    while pi < |scene.primitives|
      invariant 0 <= pi <= |scene.primitives|
      invariant fresh(grid) && grid.cellSize == 2.0 && grid.invCellSize == 0.5
      invariant tris == CollisionTriangles(scene.primitives[..pi])
      invariant Covers(tris, grid.cells, 0.5) && Sound(tris, grid.cells, 0.5)
    {
      assert scene.primitives[..pi + 1][..pi] == scene.primitives[..pi];
      assert scene.primitives[pi] in scene.primitives;
      tris := AddPrimitive(grid, tris, scene.primitives[pi]);
      pi := pi + 1;
    }
    assert scene.primitives[..pi] == scene.primitives;
    c := new CastleCollider(tris, grid);
  }

  // ---------------------------------------------------------------------------
  // Closest point on a triangle (Ericson, Real-Time Collision Detection 5.1.5)

  /** Which feature of the triangle the closest point lies on, with its
      barycentric parameters, in the order the tests are made. */
  datatype Feature =
    | VertexA | VertexB | VertexC
    | EdgeAB(v: real) | EdgeAC(w: real) | EdgeBC(w: real)
    | Face(v: real, w: real)
    | Flat

  /** q lies in the vertex region of corner a of the triangle (a, b, c). */
  predicate InVertexRegion(q: Vec3, a: Vec3, b: Vec3, c: Vec3) {
    Dot3(Sub3(b, a), Sub3(q, a)) <= 0.0 && Dot3(Sub3(c, a), Sub3(q, a)) <= 0.0
  }

  /** An edge parameter `num / den`, or 0 when the edge has zero length. */
  function Ratio(num: real, den: real): (r: real)
    requires 0.0 <= num <= den
    ensures 0.0 <= r <= 1.0
    ensures den != 0.0 ==> r * den == num
    ensures den == 0.0 ==> r == 0.0
  {
    if den != 0.0 then num / den else 0.0
  }

  /** `num * (1 / denom)`, the barycentric weights of the face case. */
  function Scaled(num: real, denom: real): (r: real)
    requires denom != 0.0
    ensures r * denom == num
  {
    num * (1.0 / denom)
  }

  /** `va + vb + vc`. */
  function FaceDenom(d1: real, d2: real, d3: real, d4: real, d5: real, d6: real): real {
    (d3 * d6 - d5 * d4) + (d5 * d2 - d1 * d6) + (d1 * d4 - d3 * d2)
  }

  /** The region tests of `_closest_point_on_triangle`, over the six dot
      products d1 = ab.ap, d2 = ac.ap, d3 = ab.bp, d4 = ac.bp, d5 = ab.cp, d6 = ac.cp. */
  function ClassifyDots(d1: real, d2: real, d3: real, d4: real, d5: real, d6: real): (f: Feature)
    ensures f == VertexA <==> d1 <= 0.0 && d2 <= 0.0
    ensures f == VertexB <==> !(d1 <= 0.0 && d2 <= 0.0) && d3 >= 0.0 && d4 <= d3
    ensures f == VertexC ==> d6 >= 0.0 && d5 <= d6
    ensures f.EdgeAB? ==> 0.0 <= f.v <= 1.0
    ensures f.EdgeAC? ==> 0.0 <= f.w <= 1.0
    ensures f.EdgeBC? ==> 0.0 <= f.w <= 1.0
  {
    if d1 <= 0.0 && d2 <= 0.0 then VertexA
    else if d3 >= 0.0 && d4 <= d3 then VertexB
    else
      var vc := d1 * d4 - d3 * d2;
      if vc <= 0.0 && d1 >= 0.0 && d3 <= 0.0 then EdgeAB(Ratio(d1, d1 - d3))
      else if d6 >= 0.0 && d5 <= d6 then VertexC
      else
        var vb := d5 * d2 - d1 * d6;
        if vb <= 0.0 && d2 >= 0.0 && d6 <= 0.0 then EdgeAC(Ratio(d2, d2 - d6))
        else
          var va := d3 * d6 - d5 * d4;
          if va <= 0.0 && d4 - d3 >= 0.0 && d5 - d6 >= 0.0 then EdgeBC(Ratio(d4 - d3, (d4 - d3) + (d5 - d6)))
          else
            var denom := FaceDenom(d1, d2, d3, d4, d5, d6);
            if denom == 0.0 then Flat
            else Face(Scaled(vb, denom), Scaled(vc, denom))
  }

  /** The parameters each edge or face answer carries. */
  lemma ClassifyParams(d1: real, d2: real, d3: real, d4: real, d5: real, d6: real)
    ensures var f := ClassifyDots(d1, d2, d3, d4, d5, d6);
            (f.EdgeAB? ==> d1 >= 0.0 && d3 <= 0.0 && f == EdgeAB(Ratio(d1, d1 - d3)))
            && (f.EdgeAC? ==> d2 >= 0.0 && d6 <= 0.0 && f == EdgeAC(Ratio(d2, d2 - d6)))
            && (f.EdgeBC? ==> d4 - d3 >= 0.0 && d5 - d6 >= 0.0 && f == EdgeBC(Ratio(d4 - d3, (d4 - d3) + (d5 - d6))))
            && (f.Face? ==> (FaceDenom(d1, d2, d3, d4, d5, d6) != 0.0 &&
                  f == Face(Scaled(d5 * d2 - d1 * d6, FaceDenom(d1, d2, d3, d4, d5, d6)),
                            Scaled(d1 * d4 - d3 * d2, FaceDenom(d1, d2, d3, d4, d5, d6)))))
            && (f == Flat ==> FaceDenom(d1, d2, d3, d4, d5, d6) == 0.0)
  {
  }

  lemma DotSubLeft(x: Vec3, y: Vec3, z: Vec3)
    ensures Dot3(Sub3(x, y), z) == Dot3(x, z) - Dot3(y, z)
  {
  }

  lemma DotSubRight(x: Vec3, y: Vec3, z: Vec3)
    ensures Dot3(x, Sub3(y, z)) == Dot3(x, y) - Dot3(x, z)
  {
  }

  lemma DotSymm(x: Vec3, y: Vec3)
    ensures Dot3(x, y) == Dot3(y, x)
  {
  }

  /** How the six dot products relate to the edge Gram entries and to the
      vertex regions seen from b and from c. */
  lemma DotFacts(p: Vec3, a: Vec3, b: Vec3, c: Vec3)
    ensures var ab, ac, ap := Sub3(b, a), Sub3(c, a), Sub3(p, a);
            var bp, cp := Sub3(p, b), Sub3(p, c);
            Dot3(ab, bp) == Dot3(ab, ap) - Dot3(ab, ab) && Dot3(ac, bp) == Dot3(ac, ap) - Dot3(ab, ac)
            && Dot3(ab, cp) == Dot3(ab, ap) - Dot3(ab, ac) && Dot3(ac, cp) == Dot3(ac, ap) - Dot3(ac, ac)
            && Dot3(Sub3(a, b), bp) == -Dot3(ab, bp) && Dot3(Sub3(c, b), bp) == Dot3(ac, bp) - Dot3(ab, bp)
            && Dot3(Sub3(a, c), cp) == -Dot3(ac, cp) && Dot3(Sub3(b, c), cp) == Dot3(ab, cp) - Dot3(ac, cp)
  {
    var ab, ac, ap := Sub3(b, a), Sub3(c, a), Sub3(p, a);
    var bp, cp := Sub3(p, b), Sub3(p, c);
    assert bp == Sub3(ap, ab);
    assert cp == Sub3(ap, ac);
    DotSubRight(ab, ap, ab);
    DotSubRight(ac, ap, ab);
    DotSymm(ac, ab);
    DotSubRight(ab, ap, ac);
    DotSubRight(ac, ap, ac);
    assert Sub3(c, b) == Sub3(ac, ab);
    DotSubLeft(ac, ab, bp);
    assert Sub3(b, c) == Sub3(ab, ac);
    DotSubLeft(ab, ac, cp);
  }

  /** `_closest_point_on_triangle`'s choice of feature. */
  function ClosestFeature(p: Vec3, a: Vec3, b: Vec3, c: Vec3): (f: Feature)
    ensures f == VertexA <==> InVertexRegion(p, a, b, c)
    ensures f == VertexB <==> !InVertexRegion(p, a, b, c) && InVertexRegion(p, b, a, c)
    ensures f == VertexC ==> InVertexRegion(p, c, a, b)
    ensures f.EdgeAB? ==> 0.0 <= f.v <= 1.0
    ensures f.EdgeAC? ==> 0.0 <= f.w <= 1.0
    ensures f.EdgeBC? ==> 0.0 <= f.w <= 1.0
  {
    var ab, ac, ap := Sub3(b, a), Sub3(c, a), Sub3(p, a);
    var bp, cp := Sub3(p, b), Sub3(p, c);
    DotFacts(p, a, b, c);
    DotSymm(ab, ap);
    DotSymm(ac, ap);
    ClassifyDots(Dot3(ab, ap), Dot3(ac, ap), Dot3(ab, bp), Dot3(ac, bp), Dot3(ab, cp), Dot3(ac, cp))
  }
  function FeaturePoint(f: Feature, a: Vec3, b: Vec3, c: Vec3): Vec3 {
    match f
    case VertexA => a
    case VertexB => b
    case VertexC => c
    case EdgeAB(v) => Add3(a, Scale3(Sub3(b, a), v))
    case EdgeAC(w) => Add3(a, Scale3(Sub3(c, a), w))
    case EdgeBC(w) => Add3(b, Scale3(Sub3(c, b), w))
    case Face(v, w) => Add3(Add3(a, Scale3(Sub3(b, a), v)), Scale3(Sub3(c, a), w))
    case Flat => a
  }

  /** `_closest_point_on_triangle`. */
  function ClosestPointOnTriangle(p: Vec3, a: Vec3, b: Vec3, c: Vec3): Vec3 {
    FeaturePoint(ClosestFeature(p, a, b, c), a, b, c)
  }

  lemma DotLinear(x: Vec3, y: Vec3, s: real, z: Vec3)
    ensures Dot3(Sub3(x, Scale3(y, s)), z) == Dot3(x, z) - s * Dot3(y, z)
  {
  }

  /** A point q + e t with t e.e == e.(p - q) is the foot of the perpendicular from p. */
  lemma LineProjection(p: Vec3, q: Vec3, e: Vec3, t: real)
    requires t * Dot3(e, e) == Dot3(e, Sub3(p, q))
    ensures Dot3(Sub3(p, Add3(q, Scale3(e, t))), e) == 0.0
  {
    assert Sub3(p, Add3(q, Scale3(e, t))) == Sub3(Sub3(p, q), Scale3(e, t));
    DotLinear(Sub3(p, q), e, t, e);
    DotSymm(Sub3(p, q), e);
  }

  /** The edge parameter `num / den` of an edge e with den = e.e and num = e.(p - q)
      gives the foot of the perpendicular from p. */
  lemma RatioProjection(p: Vec3, q: Vec3, e: Vec3, num: real, den: real)
    requires 0.0 <= num <= den && den != 0.0
    requires den == Dot3(e, e) && num == Dot3(e, Sub3(p, q))
    ensures Dot3(Sub3(p, Add3(q, Scale3(e, Ratio(num, den)))), e) == 0.0
  {
    LineProjection(p, q, e, Ratio(num, den));
  }

  /** The six dot products of the region tests. */
  predicate AreDots(p: Vec3, a: Vec3, b: Vec3, c: Vec3, d1: real, d2: real, d3: real, d4: real, d5: real, d6: real) {
    var ab, ac := Sub3(b, a), Sub3(c, a);
    d1 == Dot3(ab, Sub3(p, a)) && d2 == Dot3(ac, Sub3(p, a)) && d3 == Dot3(ab, Sub3(p, b))
    && d4 == Dot3(ac, Sub3(p, b)) && d5 == Dot3(ab, Sub3(p, c)) && d6 == Dot3(ac, Sub3(p, c))
  }

  lemma ClosestFeatureDots(p: Vec3, a: Vec3, b: Vec3, c: Vec3)
    ensures var ab, ac := Sub3(b, a), Sub3(c, a);
            var d1, d2, d3 := Dot3(ab, Sub3(p, a)), Dot3(ac, Sub3(p, a)), Dot3(ab, Sub3(p, b));
            var d4, d5, d6 := Dot3(ac, Sub3(p, b)), Dot3(ab, Sub3(p, c)), Dot3(ac, Sub3(p, c));
            AreDots(p, a, b, c, d1, d2, d3, d4, d5, d6) && ClosestFeature(p, a, b, c) == ClassifyDots(d1, d2, d3, d4, d5, d6)
  {
    DotSymm(Sub3(b, a), Sub3(p, a));
    DotSymm(Sub3(c, a), Sub3(p, a));
  }

  lemma EdgeABScalar(p: Vec3, a: Vec3, b: Vec3, c: Vec3, d1: real, d2: real, d3: real, d4: real, d5: real, d6: real)
    requires d1 == Dot3(Sub3(b, a), Sub3(p, a)) && d3 == Dot3(Sub3(b, a), Sub3(p, b))
    requires ClassifyDots(d1, d2, d3, d4, d5, d6).EdgeAB? && Dot3(Sub3(b, a), Sub3(b, a)) != 0.0
    ensures Dot3(Sub3(p, FeaturePoint(ClassifyDots(d1, d2, d3, d4, d5, d6), a, b, c)), Sub3(b, a)) == 0.0
  {
    var ab, ap, bp := Sub3(b, a), Sub3(p, a), Sub3(p, b);
    ClassifyParams(d1, d2, d3, d4, d5, d6);
    assert bp == Sub3(ap, ab);
    DotSubRight(ab, ap, ab);
    RatioProjection(p, a, ab, d1, d1 - d3);
  }

  lemma EdgeACScalar(p: Vec3, a: Vec3, b: Vec3, c: Vec3, d1: real, d2: real, d3: real, d4: real, d5: real, d6: real)
    requires d2 == Dot3(Sub3(c, a), Sub3(p, a)) && d6 == Dot3(Sub3(c, a), Sub3(p, c))
    requires ClassifyDots(d1, d2, d3, d4, d5, d6).EdgeAC? && Dot3(Sub3(c, a), Sub3(c, a)) != 0.0
    ensures Dot3(Sub3(p, FeaturePoint(ClassifyDots(d1, d2, d3, d4, d5, d6), a, b, c)), Sub3(c, a)) == 0.0
  {
    var ac, ap, cp := Sub3(c, a), Sub3(p, a), Sub3(p, c);
    ClassifyParams(d1, d2, d3, d4, d5, d6);
    assert cp == Sub3(ap, ac);
    DotSubRight(ac, ap, ac);
    RatioProjection(p, a, ac, d2, d2 - d6);
  }

  lemma EdgeBCScalar(p: Vec3, a: Vec3, b: Vec3, c: Vec3, d1: real, d2: real, d3: real, d4: real, d5: real, d6: real)
    requires d3 == Dot3(Sub3(b, a), Sub3(p, b)) && d4 == Dot3(Sub3(c, a), Sub3(p, b))
    requires d5 == Dot3(Sub3(b, a), Sub3(p, c)) && d6 == Dot3(Sub3(c, a), Sub3(p, c))
    requires ClassifyDots(d1, d2, d3, d4, d5, d6).EdgeBC? && Dot3(Sub3(c, b), Sub3(c, b)) != 0.0
    ensures Dot3(Sub3(p, FeaturePoint(ClassifyDots(d1, d2, d3, d4, d5, d6), a, b, c)), Sub3(c, b)) == 0.0
  {
    var ab, ac, bc := Sub3(b, a), Sub3(c, a), Sub3(c, b);
    var bp, cp := Sub3(p, b), Sub3(p, c);
    ClassifyParams(d1, d2, d3, d4, d5, d6);
    assert bc == Sub3(ac, ab);
    DotSubLeft(ac, ab, bp);
    assert cp == Sub3(bp, bc);
    DotSubRight(bc, bp, bc);
    DotSubLeft(ac, ab, cp);
    DotSymm(bc, bp);
    RatioProjection(p, b, bc, d4 - d3, (d4 - d3) + (d5 - d6));
  }

  /** On an edge of non-zero length the result is the orthogonal projection
      of p onto that edge's line. */
  lemma EdgeResultIsProjection(p: Vec3, a: Vec3, b: Vec3, c: Vec3)
    ensures ClosestFeature(p, a, b, c).EdgeAB? && Dot3(Sub3(b, a), Sub3(b, a)) != 0.0 ==>
              Dot3(Sub3(p, ClosestPointOnTriangle(p, a, b, c)), Sub3(b, a)) == 0.0
    ensures ClosestFeature(p, a, b, c).EdgeAC? && Dot3(Sub3(c, a), Sub3(c, a)) != 0.0 ==>
              Dot3(Sub3(p, ClosestPointOnTriangle(p, a, b, c)), Sub3(c, a)) == 0.0
    ensures ClosestFeature(p, a, b, c).EdgeBC? && Dot3(Sub3(c, b), Sub3(c, b)) != 0.0 ==>
              Dot3(Sub3(p, ClosestPointOnTriangle(p, a, b, c)), Sub3(c, b)) == 0.0
  {
    var ab, ac := Sub3(b, a), Sub3(c, a);
    var d1, d2, d3 := Dot3(ab, Sub3(p, a)), Dot3(ac, Sub3(p, a)), Dot3(ab, Sub3(p, b));
    var d4, d5, d6 := Dot3(ac, Sub3(p, b)), Dot3(ab, Sub3(p, c)), Dot3(ac, Sub3(p, c));
    ClosestFeatureDots(p, a, b, c);
    var f := ClassifyDots(d1, d2, d3, d4, d5, d6);
    if f.EdgeAB? && Dot3(ab, ab) != 0.0 {
      EdgeABScalar(p, a, b, c, d1, d2, d3, d4, d5, d6);
    }
    if f.EdgeAC? && Dot3(ac, ac) != 0.0 {
      EdgeACScalar(p, a, b, c, d1, d2, d3, d4, d5, d6);
    }
    if f.EdgeBC? && Dot3(Sub3(c, b), Sub3(c, b)) != 0.0 {
      EdgeBCScalar(p, a, b, c, d1, d2, d3, d4, d5, d6);
    }
  }

  /** The face-case formulas in terms of the Gram entries aa = ab.ab,
      bb = ab.ac, cc = ac.ac. */
  lemma GramAlgebra(d1: real, d2: real, d3: real, d4: real, d5: real, d6: real, aa: real, bb: real, cc: real)
    requires d3 == d1 - aa && d4 == d2 - bb && d5 == d1 - bb && d6 == d2 - cc
    ensures FaceDenom(d1, d2, d3, d4, d5, d6) == aa * cc - bb * bb
    ensures d5 * d2 - d1 * d6 == cc * d1 - bb * d2
    ensures d1 * d4 - d3 * d2 == aa * d2 - bb * d1
  {
  }

  /** Cramer's rule for the 2x2 normal equations of the projection. */
  lemma CramerSolves(d1: real, d2: real, aa: real, bb: real, cc: real, v: real, w: real)
    requires aa * cc - bb * bb != 0.0
    requires v * (aa * cc - bb * bb) == cc * d1 - bb * d2
    requires w * (aa * cc - bb * bb) == aa * d2 - bb * d1
    ensures aa * v + bb * w == d1 && bb * v + cc * w == d2
  {
    var g := aa * cc - bb * bb;
    assert (aa * v + bb * w) * g == aa * (v * g) + bb * (w * g);
    assert (aa * v + bb * w) * g == d1 * g;
    assert (bb * v + cc * w) * g == bb * (v * g) + cc * (w * g);
    assert (bb * v + cc * w) * g == d2 * g;
  }

  /** A point a + ab v + ac w whose weights solve the normal equations is the
      foot of the perpendicular from p. */
  lemma NormalEquations(p: Vec3, a: Vec3, ab: Vec3, ac: Vec3, v: real, w: real, d1: real, d2: real)
    requires d1 == Dot3(ab, Sub3(p, a)) && d2 == Dot3(ac, Sub3(p, a))
    requires Dot3(ab, ab) * v + Dot3(ab, ac) * w == d1
    requires Dot3(ab, ac) * v + Dot3(ac, ac) * w == d2
    ensures Dot3(Sub3(p, Add3(Add3(a, Scale3(ab, v)), Scale3(ac, w))), ab) == 0.0
    ensures Dot3(Sub3(p, Add3(Add3(a, Scale3(ab, v)), Scale3(ac, w))), ac) == 0.0
  {
    var ap := Sub3(p, a);
    var x := Sub3(ap, Scale3(ab, v));
    assert Sub3(p, Add3(Add3(a, Scale3(ab, v)), Scale3(ac, w))) == Sub3(x, Scale3(ac, w));
    DotLinear(x, ac, w, ab);
    DotLinear(ap, ab, v, ab);
    DotLinear(x, ac, w, ac);
    DotLinear(ap, ab, v, ac);
    DotSymm(ap, ab);
    DotSymm(ap, ac);
    DotSymm(ac, ab);
  }

  /** The face weights solve the normal equations of the projection. */
  lemma FaceSolve(d1: real, d2: real, d3: real, d4: real, d5: real, d6: real,
                  aa: real, bb: real, cc: real, v: real, w: real)
    requires d3 == d1 - aa && d4 == d2 - bb && d5 == d1 - bb && d6 == d2 - cc
    requires FaceDenom(d1, d2, d3, d4, d5, d6) != 0.0
    requires v == Scaled(d5 * d2 - d1 * d6, FaceDenom(d1, d2, d3, d4, d5, d6))
    requires w == Scaled(d1 * d4 - d3 * d2, FaceDenom(d1, d2, d3, d4, d5, d6))
    ensures aa * v + bb * w == d1 && bb * v + cc * w == d2
  {
    GramAlgebra(d1, d2, d3, d4, d5, d6, aa, bb, cc);
    CramerSolves(d1, d2, aa, bb, cc, v, w);
  }

  /** The face weights, and the normal equations they solve, in terms of the
      Gram entries aa = ab.ab, bb = ab.ac, cc = ac.ac. */
  lemma FaceWeights(d1: real, d2: real, d3: real, d4: real, d5: real, d6: real, aa: real, bb: real, cc: real)
    returns (v: real, w: real)
    requires d3 == d1 - aa && d4 == d2 - bb && d5 == d1 - bb && d6 == d2 - cc
    requires ClassifyDots(d1, d2, d3, d4, d5, d6).Face?
    ensures ClassifyDots(d1, d2, d3, d4, d5, d6) == Face(v, w)
    ensures aa * v + bb * w == d1 && bb * v + cc * w == d2
  {
    ClassifyParams(d1, d2, d3, d4, d5, d6);
    v, w := ClassifyDots(d1, d2, d3, d4, d5, d6).v, ClassifyDots(d1, d2, d3, d4, d5, d6).w;
    FaceSolve(d1, d2, d3, d4, d5, d6, aa, bb, cc, v, w);
  }

  lemma FaceScalar(p: Vec3, a: Vec3, b: Vec3, c: Vec3, d1: real, d2: real, d3: real, d4: real, d5: real, d6: real)
    requires AreDots(p, a, b, c, d1, d2, d3, d4, d5, d6)
    requires ClassifyDots(d1, d2, d3, d4, d5, d6).Face?
    ensures Dot3(Sub3(p, FeaturePoint(ClassifyDots(d1, d2, d3, d4, d5, d6), a, b, c)), Sub3(b, a)) == 0.0
    ensures Dot3(Sub3(p, FeaturePoint(ClassifyDots(d1, d2, d3, d4, d5, d6), a, b, c)), Sub3(c, a)) == 0.0
  {
    var ab, ac := Sub3(b, a), Sub3(c, a);
    DotFacts(p, a, b, c);
    var v, w := FaceWeights(d1, d2, d3, d4, d5, d6, Dot3(ab, ab), Dot3(ab, ac), Dot3(ac, ac));
    NormalEquations(p, a, ab, ac, v, w, d1, d2);
  }

  /** In the face case the result is the orthogonal projection of p onto the
      triangle's plane: p minus the result is perpendicular to both edges. */
  lemma FaceResultIsProjection(p: Vec3, a: Vec3, b: Vec3, c: Vec3)
    requires ClosestFeature(p, a, b, c).Face?
    ensures Dot3(Sub3(p, ClosestPointOnTriangle(p, a, b, c)), Sub3(b, a)) == 0.0
    ensures Dot3(Sub3(p, ClosestPointOnTriangle(p, a, b, c)), Sub3(c, a)) == 0.0
  {
    var ab, ac := Sub3(b, a), Sub3(c, a);
    ClosestFeatureDots(p, a, b, c);
    FaceScalar(p, a, b, c, Dot3(ab, Sub3(p, a)), Dot3(ac, Sub3(p, a)), Dot3(ab, Sub3(p, b)),
               Dot3(ac, Sub3(p, b)), Dot3(ab, Sub3(p, c)), Dot3(ac, Sub3(p, c)));
  }

  /** Lagrange's identity |u x v|^2 = |u|^2 |v|^2 - (u . v)^2. */
  lemma Lagrange(u: Vec3, v: Vec3)
    ensures Dot3(Cross3(u, v), Cross3(u, v)) == Dot3(u, u) * Dot3(v, v) - Dot3(u, v) * Dot3(u, v)
  {
  }

  lemma FlatScalar(p: Vec3, a: Vec3, b: Vec3, c: Vec3, d1: real, d2: real, d3: real, d4: real, d5: real, d6: real)
    requires AreDots(p, a, b, c, d1, d2, d3, d4, d5, d6)
    requires ClassifyDots(d1, d2, d3, d4, d5, d6) == Flat
    ensures Dot3(Cross3(Sub3(b, a), Sub3(c, a)), Cross3(Sub3(b, a), Sub3(c, a))) == 0.0
  {
    var ab, ac := Sub3(b, a), Sub3(c, a);
    DotFacts(p, a, b, c);
    ClassifyParams(d1, d2, d3, d4, d5, d6);
    GramAlgebra(d1, d2, d3, d4, d5, d6, Dot3(ab, ab), Dot3(ab, ac), Dot3(ac, ac));
    Lagrange(ab, ac);
  }

  /** The flat fallback (answer a) only happens for a degenerate triangle:
      the cross product of its edges, twice its area vector, has length 0. */
  lemma FlatMeansDegenerate(p: Vec3, a: Vec3, b: Vec3, c: Vec3)
    requires ClosestFeature(p, a, b, c) == Flat
    ensures Dot3(Cross3(Sub3(b, a), Sub3(c, a)), Cross3(Sub3(b, a), Sub3(c, a))) == 0.0
    ensures ClosestPointOnTriangle(p, a, b, c) == a
  {
    var ab, ac := Sub3(b, a), Sub3(c, a);
    ClosestFeatureDots(p, a, b, c);
    FlatScalar(p, a, b, c, Dot3(ab, Sub3(p, a)), Dot3(ac, Sub3(p, a)), Dot3(ab, Sub3(p, b)),
               Dot3(ac, Sub3(p, b)), Dot3(ab, Sub3(p, c)), Dot3(ac, Sub3(p, c)));
  }

  // ---------------------------------------------------------------------------
  // Downward raycast (Moller-Trumbore with the direction fixed to -Y)

  /** The parallel-ray and minimum-distance threshold `eps = 1e-8`. */
  const Eps: real := 0.00000001

  /** A ray hit: distance t along the ray and barycentric coordinates u, v. */
  datatype Hit = Hit(t: real, u: real, v: real)

  /** The accept/reject cascade of Moller-Trumbore over its four dot products:
      det = e1.h, su = s.h, dq = dir.q and eq = e2.q. */
  function RayAccept(det: real, su: real, dq: real, eq: real): (r: Option<Hit>)
    ensures r.Some? ==> r.value.t > Eps && 0.0 <= r.value.u <= 1.0 && 0.0 <= r.value.v
                        && r.value.u + r.value.v <= 1.0
    ensures r.Some? ==> det != 0.0 && r.value.u * det == su && r.value.v * det == dq && r.value.t * det == eq
  {
    if -Eps < det < Eps then None
    else
      var invDet := 1.0 / det;
      var u := invDet * su;
      if u < 0.0 || u > 1.0 then None
      else
        var v := invDet * dq;
        if v < 0.0 || u + v > 1.0 then None
        else
          var t := invDet * eq;
          if t <= Eps then None else Some(Hit(t, u, v))
  }

  /** One Moller-Trumbore test of the ray from `orig` along (0, -1, 0):
      None exactly when one of the det, u, v or t tests rejects the triangle. */
  function RayDownHit(orig: Vec3, tri: Triangle): Option<Hit> {
    var dir := Vec3(0.0, -1.0, 0.0);
    var e1, e2 := Sub3(tri.b, tri.a), Sub3(tri.c, tri.a);
    var h := Cross3(dir, e2);
    var s := Sub3(orig, tri.a);
    var q := Cross3(s, e1);
    RayAccept(Dot3(e1, h), Dot3(s, h), Dot3(dir, q), Dot3(e2, q))
  }

  /** Cramer's rule behind Moller-Trumbore for a ray along -Y, component by
      component: s = u e1 + v e2 - t (0, -1, 0). */
  lemma RayDownCramer(sx: real, sy: real, sz: real, ax: real, ay: real, az: real,
                      fx: real, fy: real, fz: real, det: real, u: real, v: real, t: real)
    requires det == fx * az - ax * fz && det != 0.0
    requires u * det == fx * sz - sx * fz
    requires v * det == sx * az - sz * ax
    requires t * det == fx * (sy * az - sz * ay) + fy * (sz * ax - sx * az) + fz * (sx * ay - sy * ax)
    ensures sx == ax * u + fx * v
    ensures sy - t == ay * u + fy * v
    ensures sz == az * u + fz * v
  {
    assert (u * ax + v * fx) * det == (u * det) * ax + (v * det) * fx;
    assert (u * ax + v * fx) * det == sx * det;
    assert (u * az + v * fz) * det == (u * det) * az + (v * det) * fz;
    assert (u * az + v * fz) * det == sz * det;
    assert (u * ay + v * fy + t) * det == (u * det) * ay + (v * det) * fy + t * det;
    assert (u * ay + v * fy + t) * det == sy * det;
  }

  /** The four dot products of a ray along -Y, written out by component. */
  lemma RayDownDots(e1: Vec3, e2: Vec3, s: Vec3)
    ensures var dir := Vec3(0.0, -1.0, 0.0);
            Dot3(e1, Cross3(dir, e2)) == e2.x * e1.z - e1.x * e2.z
            && Dot3(s, Cross3(dir, e2)) == e2.x * s.z - s.x * e2.z
            && Dot3(dir, Cross3(s, e1)) == s.x * e1.z - s.z * e1.x
            && Dot3(e2, Cross3(s, e1)) == e2.x * (s.y * e1.z - s.z * e1.y) + e2.y * (s.z * e1.x - s.x * e1.z)
                                          + e2.z * (s.x * e1.y - s.y * e1.x)
  {
  }

  lemma RayDownScalar(orig: Vec3, a: Vec3, e1: Vec3, e2: Vec3, sx: real, sy: real, sz: real,
                      det: real, su: real, dq: real, eq: real, hit: Hit)
    requires sx == orig.x - a.x && sy == orig.y - a.y && sz == orig.z - a.z
    requires det == e2.x * e1.z - e1.x * e2.z
    requires su == e2.x * sz - sx * e2.z
    requires dq == sx * e1.z - sz * e1.x
    requires eq == e2.x * (sy * e1.z - sz * e1.y) + e2.y * (sz * e1.x - sx * e1.z) + e2.z * (sx * e1.y - sy * e1.x)
    requires det != 0.0 && hit.u * det == su && hit.v * det == dq && hit.t * det == eq
    ensures Vec3(orig.x, orig.y - hit.t, orig.z) == Add3(Add3(a, Scale3(e1, hit.u)), Scale3(e2, hit.v))
  {
    RayDownCramer(sx, sy, sz, e1.x, e1.y, e1.z, e2.x, e2.y, e2.z, det, hit.u, hit.v, hit.t);
  }

  /** The accepted hit point orig - t Y lies on the triangle, at barycentric
      coordinates (u, v). */
  lemma RayDownHitOnTriangle(orig: Vec3, tri: Triangle)
    requires RayDownHit(orig, tri).Some?
    ensures var hit := RayDownHit(orig, tri).value;
            Vec3(orig.x, orig.y - hit.t, orig.z)
            == Add3(Add3(tri.a, Scale3(Sub3(tri.b, tri.a), hit.u)), Scale3(Sub3(tri.c, tri.a), hit.v))
  {
    var dir := Vec3(0.0, -1.0, 0.0);
    var e1, e2, s := Sub3(tri.b, tri.a), Sub3(tri.c, tri.a), Sub3(orig, tri.a);
    RayDownDots(e1, e2, s);
    RayDownScalar(orig, tri.a, e1, e2, s.x, s.y, s.z, Dot3(e1, Cross3(dir, e2)), Dot3(s, Cross3(dir, e2)),
                  Dot3(dir, Cross3(s, e1)), Dot3(e2, Cross3(s, e1)), RayDownHit(orig, tri).value);
  }

  predicate AllBelow(cand: seq<nat>, n: int) {
    forall j :: 0 <= j < |cand| ==> cand[j] < n
  }

  /** The Moller-Trumbore outcome of each candidate triangle, in candidate order. */
  function CandidateHits(tris: seq<Triangle>, cand: seq<nat>, orig: Vec3): (hs: seq<Option<Hit>>)
    requires AllBelow(cand, |tris|)
    ensures |hs| == |cand| && forall j :: 0 <= j < |cand| ==> hs[j] == RayDownHit(orig, tris[cand[j]])
  {
    seq(|cand|, j requires 0 <= j < |cand| => RayDownHit(orig, tris[cand[j]]))
  }

  /** The running minimum `best_t` over a list of hit outcomes. */
  function BestT(hits: seq<Option<Hit>>): Option<real> {
    if |hits| == 0 then None
    else
      var best := BestT(hits[..|hits| - 1]);
      var hit := hits[|hits| - 1];
      if hit.None? then best
      else if best.None? || hit.value.t < best.value then Some(hit.value.t)
      else best
  }

  /** `best_t` is None exactly when no test passes, and otherwise is the least
      accepted distance. */
  lemma {:induction false} BestTIsMinimum(hits: seq<Option<Hit>>)
    ensures BestT(hits).None? <==> forall j :: 0 <= j < |hits| ==> hits[j].None?
    ensures BestT(hits).Some? ==>
              (exists j :: 0 <= j < |hits| && hits[j].Some? && hits[j].value.t == BestT(hits).value)
              && (forall j :: 0 <= j < |hits| && hits[j].Some? ==> BestT(hits).value <= hits[j].value.t)
  {
    if |hits| > 0 {
      var pre := hits[..|hits| - 1];
      BestTIsMinimum(pre);
      assert forall j :: 0 <= j < |pre| ==> pre[j] == hits[j];
      if BestT(hits).Some? && BestT(hits) == BestT(pre) {
        var j :| 0 <= j < |pre| && pre[j].Some? && pre[j].value.t == BestT(pre).value;
        assert hits[j] == pre[j];
      }
    }
  }

  /** A sound grid only ever returns indices of existing triangles. */
  lemma QueryInRange(tris: seq<Triangle>, cells: Cells, inv: real, bx: CellBox)
    requires Sound(tris, cells, inv)
    ensures AllBelow(QuerySpec(cells, bx), |tris|)
  {
    var q := QuerySpec(cells, bx);
    forall j | 0 <= j < |q|
      ensures q[j] < |tris|
    {
      QueryOnlyNearby(tris, cells, inv, bx, q[j]);
    }
  }

  /** The value `raycast_down_y` returns for a given `best_t`. */
  function HitY(best: Option<real>, y0: real): (r: Option<real>)
    ensures r.None? <==> best.None?
    ensures best.Some? ==> r == Some(y0 - best.value)
  {
    if best.None? then None else Some(y0 - best.value)
  }

  /** `raycast_down_y`: the hit height y0 - t of the nearest triangle hit among
      the grid candidates of the square [x - qr, x + qr] x [z - qr, z + qr]. */
  method RaycastDownY(c: CastleCollider, x: real, z: real, y0: real, queryRadius: real) returns (r: Option<real>)
    requires c.Valid()
    ensures var cand := QuerySpec(c.grid.cells, BoxCells(c.grid.invCellSize, x - queryRadius, x + queryRadius,
                                                        z - queryRadius, z + queryRadius));
            AllBelow(cand, |c.tris|) && r == HitY(BestT(CandidateHits(c.tris, cand, Vec3(x, y0, z))), y0)
  {
    var orig := Vec3(x, y0, z);
    var bestT: Option<real> := None;
    var cand := c.grid.QueryAabb(x - queryRadius, x + queryRadius, z - queryRadius, z + queryRadius);
    QueryInRange(c.tris, c.grid.cells, c.grid.invCellSize,
                 BoxCells(c.grid.invCellSize, x - queryRadius, x + queryRadius, z - queryRadius, z + queryRadius));
    ghost var hits := CandidateHits(c.tris, cand, orig);
    var k := 0;
    while k < |cand|
      invariant 0 <= k <= |cand|
      invariant bestT == BestT(hits[..k])
    {
      bestT := NearestStep(c.tris, cand, orig, k, bestT);
      k := k + 1;
    }
    assert hits[..k] == hits;
    r := HitY(bestT, y0);
  }

  /** One candidate of `raycast_down_y`'s loop: keep the nearer of best_t and
      this triangle's hit. */
  method NearestStep(tris: seq<Triangle>, cand: seq<nat>, orig: Vec3, k: nat, bestT: Option<real>)
    returns (b: Option<real>)
    requires AllBelow(cand, |tris|) && k < |cand| && bestT == BestT(CandidateHits(tris, cand, orig)[..k])
    ensures b == BestT(CandidateHits(tris, cand, orig)[..k + 1])
  {
    ghost var hits := CandidateHits(tris, cand, orig);
    var hit := RayDownHit(orig, tris[cand[k]]);
    assert hits[..k + 1][..k] == hits[..k];
    if hit.Some? && (bestT.None? || hit.value.t < bestT.value) {
      b := Some(hit.value.t);
    } else {
      b := bestT;
    }
  }

  /** A raycast hit lies strictly below the ray origin, at the height of the
      nearest accepted triangle, and no accepted triangle is nearer. */
  lemma RaycastHitIsNearest(tris: seq<Triangle>, cand: seq<nat>, orig: Vec3)
    requires AllBelow(cand, |tris|)
    ensures var r := HitY(BestT(CandidateHits(tris, cand, orig)), orig.y);
            (r.None? <==> forall j :: 0 <= j < |cand| ==> RayDownHit(orig, tris[cand[j]]).None?)
            && (r.Some? ==>
                  (r.value < orig.y - Eps
                   && (exists j :: 0 <= j < |cand| && RayDownHit(orig, tris[cand[j]]).Some?
                        && r.value == orig.y - RayDownHit(orig, tris[cand[j]]).value.t)
                   && (forall j :: 0 <= j < |cand| && RayDownHit(orig, tris[cand[j]]).Some? ==>
                        orig.y - RayDownHit(orig, tris[cand[j]]).value.t <= r.value)))
  {
    var hits := CandidateHits(tris, cand, orig);
    BestTIsMinimum(hits);
    if BestT(hits).Some? {
      var j :| 0 <= j < |hits| && hits[j].Some? && hits[j].value.t == BestT(hits).value;
      assert RayDownHit(orig, tris[cand[j]]).Some?;
    }
  }

  // ---------------------------------------------------------------------------
  // Character integration (`step_mario_physics`)

  const Gravity: real := 20.0
  const JumpSpeed: real := 7.0
  const WalkSpeed: real := 4.5
  /** Squared distances at or below 1e-12 count as a degenerate contact. */
  const TinyDist2: real := 0.000000000001

  /** `dt = max(0.0, min(dt, 0.10))`. */
  function ClampDt(dt: real): (r: real)
    ensures 0.0 <= r <= 0.1
    ensures 0.0 <= dt <= 0.1 ==> r == dt
    ensures dt < 0.0 ==> r == 0.0
    ensures dt > 0.1 ==> r == 0.1
  {
    Max(0.0, Min(dt, 0.1))
  }

  /** `max_step = max(0.05, radius * 0.50)`. */
  function MaxStep(radius: real): (r: real)
    ensures r >= 0.05 && r >= radius * 0.5
  {
    Max(0.05, radius * 0.5)
  }

  /** `n = max(1, min(int(ceil(travel / max_step)) if travel > 0 else 1, 8))`. */
  function SubstepCount(travel: real, maxStep: real): (n: int)
    requires maxStep > 0.0
    ensures 1 <= n <= 8
    ensures travel <= 0.0 ==> n == 1
    ensures travel > 8.0 * maxStep ==> n == 8
  {
    var n := if travel > 0.0 then Ceil(travel / maxStep) else 1;
    IMax(1, IMin(n, 8))
  }

  lemma DivLe(x: real, y: real, m: real)
    requires m > 0.0 && y > 0.0 && x / m <= y
    ensures x / y <= m
  {
    assert x <= y * m;
  }

  /** When the estimated travel fits in 8 steps, each substep moves at most
      `max_step`, which is what keeps fast motion from tunnelling. */
  lemma SubstepBound(travel: real, maxStep: real)
    requires maxStep > 0.0 && 0.0 < travel <= 8.0 * maxStep
    ensures travel / SubstepCount(travel, maxStep) as real <= maxStep
  {
    var c := Ceil(travel / maxStep);
    assert travel / maxStep <= 8.0;
    assert 1 <= c <= 8;
    assert SubstepCount(travel, maxStep) == c;
    DivLe(travel, c as real, maxStep);
  }

  /** The horizontal velocity intent: the normalised move direction times 4.5,
      doubled when sprinting, or zero when there is no input. `mag` and `norm`
      stand for `Vec3.mag` and `Vec3.norm`. */
  function HorizontalVel(moveDir: Vec3, sprint: bool, mag: Vec3 -> real, norm: Vec3 -> Vec3): (r: Vec3)
    ensures r.y == 0.0
    ensures mag(moveDir) <= 0.0 ==> r == Vec3(0.0, 0.0, 0.0)
    ensures mag(moveDir) > 0.0 ==>
              r == Vec3(norm(moveDir).x * (if sprint then 9.0 else 4.5), 0.0, norm(moveDir).z * (if sprint then 9.0 else 4.5))
  {
    var speed := WalkSpeed * (if sprint then 2.0 else 1.0);
    if mag(moveDir) > 0.0 then
      var d := norm(moveDir);
      Vec3(d.x * speed, 0.0, d.z * speed)
    else Vec3(0.0, 0.0, 0.0)
  }

  /** `travel = sqrt(hx^2 + hz^2 + vy_est^2) * dt` with `vy_est = vy - 20 dt`. */
  function Travel(hvel: Vec3, vy: real, dt: real, sqrt: real -> real): real {
    var vyEst := vy - Gravity * dt;
    sqrt(hvel.x * hvel.x + hvel.z * hvel.z + vyEst * vyEst) * dt
  }

  /** What the model needs of `math.sqrt`: a positive argument has a positive root. */
  ghost predicate SqrtPositive(sqrt: real -> real) {
    forall x :: x > 0.0 ==> sqrt(x) > 0.0
  }

  /** The outcome of pushing the sphere out of one triangle. */
  datatype Push = Push(center: Vec3, moved: bool, ground: bool)

  /** One candidate of a resolution pass, given the closest point cp of the
      triangle: a sphere of the given radius whose centre is nearer than the
      radius to cp is moved to lie on the contact normal at that distance
      (straight up when the centre is on the triangle); a contact whose
      normal points mostly up counts as ground. */
  function PushOut(center: Vec3, cp: Vec3, radius: real, sqrt: real -> real): (r: Push)
    requires SqrtPositive(sqrt)
    ensures var d := Sub3(center, cp);
            (r.moved <==> Dot3(d, d) < radius * radius)
            && (!r.moved ==> r.center == center && !r.ground)
            && (r.moved && Dot3(d, d) <= TinyDist2 ==> r.center == Add3(cp, Vec3(0.0, radius, 0.0)) && r.ground)
            && (r.moved && Dot3(d, d) > TinyDist2 ==>
                  var nrm := Scale3(d, 1.0 / sqrt(Dot3(d, d)));
                  r.center == Add3(cp, Scale3(nrm, radius)) && (r.ground <==> nrm.y > 0.5))
  {
    var v := Sub3(center, cp);
    var d2 := Dot3(v, v);
    if d2 >= radius * radius then Push(center, false, false)
    else
      var nrm := if d2 > TinyDist2 then Scale3(v, 1.0 / sqrt(d2)) else Vec3(0.0, 1.0, 0.0);
      Push(Add3(cp, Scale3(nrm, radius)), true, nrm.y > 0.5)
  }

  /** The push against one collision triangle. */
  function PushOutTri(center: Vec3, tri: Triangle, radius: real, sqrt: real -> real): Push
    requires SqrtPositive(sqrt)
  {
    PushOut(center, ClosestPointOnTriangle(center, tri.a, tri.b, tri.c), radius, sqrt)
  }

  /** One resolution pass over a candidate list, in order, each push starting
      from the centre the previous one left. */
  function PassSpec(tris: seq<Triangle>, cand: seq<nat>, center: Vec3, radius: real, sqrt: real -> real): Push
    requires AllBelow(cand, |tris|) && SqrtPositive(sqrt)
  {
    if |cand| == 0 then Push(center, false, false)
    else
      var p := PassSpec(tris, cand[..|cand| - 1], center, radius, sqrt);
      var q := PushOutTri(p.center, tris[cand[|cand| - 1]], radius, sqrt);
      Push(q.center, p.moved || q.moved, p.ground || q.ground)
  }

  /** A pass in which nothing moved leaves the centre where it was and finds no ground. */
  lemma {:induction false} PassUnmoved(tris: seq<Triangle>, cand: seq<nat>, center: Vec3, radius: real, sqrt: real -> real)
    requires AllBelow(cand, |tris|) && SqrtPositive(sqrt)
    ensures var p := PassSpec(tris, cand, center, radius, sqrt);
            (!p.moved ==> p.center == center && !p.ground) && (p.ground ==> p.moved)
  {
    if |cand| > 0 {
      PassUnmoved(tris, cand[..|cand| - 1], center, radius, sqrt);
    }
  }

  /** The candidates `query_sphere(center, radius)` returns. */
  function SphereCandidates(cells: Cells, inv: real, center: Vec3, radius: real): seq<nat> {
    QuerySpec(cells, BoxCells(inv, center.x - radius, center.x + radius, center.z - radius, center.z + radius))
  }

  /** The remaining resolution passes: each pass re-queries the grid at the
      current centre, and the passes stop after one in which nothing moved. */
  function ResolveFrom(tris: seq<Triangle>, cells: Cells, inv: real, center: Vec3, ground: bool,
                       radius: real, sqrt: real -> real, passes: nat): (Vec3, bool)
    requires Sound(tris, cells, inv) && SqrtPositive(sqrt)
    decreases passes
  {
    if passes == 0 then (center, ground)
    else
      var cand := SphereCandidates(cells, inv, center, radius);
      QueryInRange(tris, cells, inv, BoxCells(inv, center.x - radius, center.x + radius,
                                              center.z - radius, center.z + radius));
      var p := PassSpec(tris, cand, center, radius, sqrt);
      if !p.moved then (p.center, ground || p.ground)
      else ResolveFrom(tris, cells, inv, p.center, ground || p.ground, radius, sqrt, passes - 1)
  }

  /** Resolution never clears a ground flag, sets one only after a contact, and
      leaves the sphere alone when no triangle is within reach. */
  lemma {:induction false} ResolveFacts(tris: seq<Triangle>, cells: Cells, inv: real, center: Vec3, ground: bool,
                                        radius: real, sqrt: real -> real, passes: nat)
    requires Sound(tris, cells, inv) && SqrtPositive(sqrt)
    ensures var r := ResolveFrom(tris, cells, inv, center, ground, radius, sqrt, passes);
            (ground ==> r.1)
            && (passes > 0 ==>
                  (QueryInRange(tris, cells, inv, BoxCells(inv, center.x - radius, center.x + radius,
                                                           center.z - radius, center.z + radius));
                   !PassSpec(tris, SphereCandidates(cells, inv, center, radius), center, radius, sqrt).moved ==>
                     r == (center, ground)))
    decreases passes
  {
    if passes > 0 {
      QueryInRange(tris, cells, inv, BoxCells(inv, center.x - radius, center.x + radius,
                                              center.z - radius, center.z + radius));
      var cand := SphereCandidates(cells, inv, center, radius);
      var p := PassSpec(tris, cand, center, radius, sqrt);
      PassUnmoved(tris, cand, center, radius, sqrt);
      if p.moved {
        ResolveFacts(tris, cells, inv, p.center, ground || p.ground, radius, sqrt, passes - 1);
      }
    }
  }

  /** One resolution pass: each candidate in turn may push the sphere out,
      and `stepGround` is raised by any ground contact. */
  method RunPass(c: CastleCollider, cand: seq<nat>, center: Vec3, stepGround: bool, radius: real,
                 sqrt: real -> real)
    returns (center': Vec3, moved: bool, stepGround': bool)
    requires AllBelow(cand, |c.tris|) && SqrtPositive(sqrt)
    ensures var p := PassSpec(c.tris, cand, center, radius, sqrt);
            center' == p.center && moved == p.moved && stepGround' == (stepGround || p.ground)
  {
    center', moved, stepGround' := center, false, stepGround;
    var k := 0;
    while k < |cand|
      invariant 0 <= k <= |cand|
      invariant var p := PassSpec(c.tris, cand[..k], center, radius, sqrt);
                center' == p.center && moved == p.moved && stepGround' == (stepGround || p.ground)
    {
      assert cand[..k + 1][..k] == cand[..k];
      var tri := c.tris[cand[k]];
      var q := PushOutTri(center', tri, radius, sqrt);
      if q.moved {
        moved := true;
        center' := q.center;
        if q.ground {
          stepGround' := true;
        }
      }
      k := k + 1;
    }
    assert cand[..k] == cand;
  }

  /** The resolution loop: up to two passes, each over a fresh `query_sphere`
      at the current centre, stopping after a pass in which nothing moved. */
  method ResolvePenetrations(c: CastleCollider, center: Vec3, radius: real, sqrt: real -> real)
    returns (center': Vec3, stepGround: bool)
    requires c.Valid() && SqrtPositive(sqrt)
    ensures (center', stepGround) == ResolveFrom(c.tris, c.grid.cells, c.grid.invCellSize, center, false, radius, sqrt, 2)
  {
    ghost var target := ResolveFrom(c.tris, c.grid.cells, c.grid.invCellSize, center, false, radius, sqrt, 2);
    center', stepGround := center, false;
    var pass := 0;
    while pass < 2
      invariant 0 <= pass <= 2
      invariant ResolveFrom(c.tris, c.grid.cells, c.grid.invCellSize, center', stepGround, radius, sqrt, 2 - pass) == target
    {
      var cand := c.QuerySphere(center', radius);
      QueryInRange(c.tris, c.grid.cells, c.grid.invCellSize,
                   BoxCells(c.grid.invCellSize, center'.x - radius, center'.x + radius, center'.z - radius, center'.z + radius));
      var moved;
      center', moved, stepGround := RunPass(c, cand, center', stepGround, radius, sqrt);
      pass := pass + 1;
      if !moved {
        break;
      }
    }
  }

  /** The feet position, velocity and ground flag the integrator carries. */
  datatype Body = Body(pos: Vec3, vel: Vec3, onGround: bool)

  /** The integration half of a substep: move horizontally, apply gravity to
      the vertical speed, then move vertically with the new speed. */
  function Drift(b: Body, hvel: Vec3, subDt: real): (d: Body)
    ensures d.vel == Vec3(b.vel.x, b.vel.y - Gravity * subDt, b.vel.z) && d.onGround == b.onGround
    ensures d.pos == Vec3(b.pos.x + hvel.x * subDt, b.pos.y + (b.vel.y - Gravity * subDt) * subDt, b.pos.z + hvel.z * subDt)
  {
    var p1 := Vec3(b.pos.x + hvel.x * subDt, b.pos.y, b.pos.z + hvel.z * subDt);
    var vel := Vec3(b.vel.x, b.vel.y - Gravity * subDt, b.vel.z);
    var p2 := Vec3(p1.x, p1.y + vel.y * subDt, p1.z);
    Body(p2, vel, b.onGround)
  }

  /** The sphere centre one radius above the feet. */
  function SphereCenter(pos: Vec3, radius: real): Vec3 {
    Add3(pos, Vec3(0.0, radius, 0.0))
  }

  /** The collision half of a substep, given the resolved centre and contact
      flag: back to the feet pivot, a fall stopped on ground, the flag latched. */
  function Settle(d: Body, radius: real, r: (Vec3, bool)): Body {
    var vel' := if r.1 && d.vel.y < 0.0 then Vec3(d.vel.x, 0.0, d.vel.z) else d.vel;
    Body(Sub3(r.0, Vec3(0.0, radius, 0.0)), vel', r.1 || d.onGround)
  }

  /** One substep of the integrator. */
  function Substep(tris: seq<Triangle>, cells: Cells, inv: real, b: Body, hvel: Vec3, radius: real,
                   subDt: real, sqrt: real -> real): Body
    requires Sound(tris, cells, inv) && SqrtPositive(sqrt)
  {
    var d := Drift(b, hvel, subDt);
    Settle(d, radius, ResolveFrom(tris, cells, inv, SphereCenter(d.pos, radius), false, radius, sqrt, 2))
  }

  /** What a substep guarantees: horizontal velocity is kept, the ground flag
      is never cleared and is raised by a ground contact in this substep's
      resolution, and the vertical speed only loses gravity unless such a
      contact stops a fall, in which case it becomes zero. */
  lemma SubstepFacts(tris: seq<Triangle>, cells: Cells, inv: real, b: Body, hvel: Vec3, radius: real,
                     subDt: real, sqrt: real -> real)
    requires Sound(tris, cells, inv) && SqrtPositive(sqrt)
    ensures var r := Substep(tris, cells, inv, b, hvel, radius, subDt, sqrt);
            var vy := b.vel.y - Gravity * subDt;
            var stepGround := ResolveFrom(tris, cells, inv, SphereCenter(Drift(b, hvel, subDt).pos, radius), false,
                                          radius, sqrt, 2).1;
            r.vel.x == b.vel.x && r.vel.z == b.vel.z
            && r.onGround == (stepGround || b.onGround)
            && (r.vel.y != vy <==> stepGround && vy < 0.0)
            && (r.vel.y != vy ==> r.vel.y == 0.0)
            && (subDt >= 0.0 ==> r.vel.y <= Max(b.vel.y, 0.0))
  {
  }

  /** With no triangle within reach of the moved sphere, a substep is free flight. */
  lemma SubstepFreeFlight(tris: seq<Triangle>, cells: Cells, inv: real, b: Body, hvel: Vec3, radius: real,
                          subDt: real, sqrt: real -> real)
    requires Sound(tris, cells, inv) && SqrtPositive(sqrt)
    requires var center := SphereCenter(Drift(b, hvel, subDt).pos, radius);
             (QueryInRange(tris, cells, inv, BoxCells(inv, center.x - radius, center.x + radius,
                                                      center.z - radius, center.z + radius));
              !PassSpec(tris, SphereCandidates(cells, inv, center, radius), center, radius, sqrt).moved)
    ensures var vy := b.vel.y - Gravity * subDt;
            Substep(tris, cells, inv, b, hvel, radius, subDt, sqrt)
            == Body(Vec3(b.pos.x + hvel.x * subDt, b.pos.y + vy * subDt, b.pos.z + hvel.z * subDt),
                    Vec3(b.vel.x, vy, b.vel.z), b.onGround)
  {
    var d := Drift(b, hvel, subDt);
    var center := SphereCenter(d.pos, radius);
    ResolveFacts(tris, cells, inv, center, false, radius, sqrt, 2);
    assert Sub3(center, Vec3(0.0, radius, 0.0)) == d.pos;
    assert Settle(d, radius, (center, false)) == d;
  }

  /** n substeps in a row. */
  function Substeps(tris: seq<Triangle>, cells: Cells, inv: real, b: Body, hvel: Vec3, radius: real,
                    subDt: real, sqrt: real -> real, n: nat): Body
    requires Sound(tris, cells, inv) && SqrtPositive(sqrt)
  {
    if n == 0 then b
    else Substep(tris, cells, inv, Substeps(tris, cells, inv, b, hvel, radius, subDt, sqrt, n - 1),
                 hvel, radius, subDt, sqrt)
  }

  /** Over any number of substeps the horizontal velocity is kept, the ground
      flag is never cleared, and (for a forward time step) the vertical speed
      never rises above its start or zero. */
  lemma {:induction false} SubstepsFacts(tris: seq<Triangle>, cells: Cells, inv: real, b: Body, hvel: Vec3,
                                         radius: real, subDt: real, sqrt: real -> real, n: nat)
    requires Sound(tris, cells, inv) && SqrtPositive(sqrt)
    ensures var r := Substeps(tris, cells, inv, b, hvel, radius, subDt, sqrt, n);
            r.vel.x == b.vel.x && r.vel.z == b.vel.z
            && (b.onGround ==> r.onGround)
            && (subDt >= 0.0 ==> r.vel.y <= Max(b.vel.y, 0.0))
  {
    if n > 0 {
      var r0 := Substeps(tris, cells, inv, b, hvel, radius, subDt, sqrt, n - 1);
      SubstepsFacts(tris, cells, inv, b, hvel, radius, subDt, sqrt, n - 1);
      SubstepFacts(tris, cells, inv, r0, hvel, radius, subDt, sqrt);
    }
  }

  /** The body of the substep loop of `step_mario_physics`. */
  method StepOnce(c: CastleCollider, b: Body, hvel: Vec3, radius: real, subDt: real,
                  sqrt: real -> real) returns (b': Body)
    requires c.Valid() && SqrtPositive(sqrt)
    ensures b' == Substep(c.tris, c.grid.cells, c.grid.invCellSize, b, hvel, radius, subDt, sqrt)
  {
    var pos, vel, onGround := b.pos, b.vel, b.onGround;
    pos := Vec3(pos.x + hvel.x * subDt, pos.y, pos.z + hvel.z * subDt);
    vel := Vec3(vel.x, vel.y - Gravity * subDt, vel.z);
    pos := Vec3(pos.x, pos.y + vel.y * subDt, pos.z);
    ghost var d := Body(pos, vel, onGround);
    assert d == Drift(b, hvel, subDt);
    var center := SphereCenter(pos, radius);
    var stepGround;
    center, stepGround := ResolvePenetrations(c, center, radius, sqrt);
    pos := Sub3(center, Vec3(0.0, radius, 0.0));
    if stepGround && vel.y < 0.0 {
      vel := Vec3(vel.x, 0.0, vel.z);
    }
    onGround := stepGround || onGround;
    b' := Body(pos, vel, onGround);
    assert b' == Settle(d, radius, (center, stepGround));
  }

  /** The substep loop of `step_mario_physics`. */
  method RunSubsteps(c: CastleCollider, b: Body, hvel: Vec3, radius: real, subDt: real, n: nat,
                     sqrt: real -> real) returns (b': Body)
    requires c.Valid() && SqrtPositive(sqrt)
    ensures b' == Substeps(c.tris, c.grid.cells, c.grid.invCellSize, b, hvel, radius, subDt, sqrt, n)
  {
    b' := b;
    var step := 0;
    while step < n
      invariant 0 <= step <= n
      invariant b' == Substeps(c.tris, c.grid.cells, c.grid.invCellSize, b, hvel, radius, subDt, sqrt, step)
    {
      b' := StepOnce(c, b', hvel, radius, subDt, sqrt);
      step := step + 1;
    }
  }

  /** The jump impulse: only a jump pressed while grounded sets the vertical
      speed to 7 and clears the ground flag. */
  function JumpStart(b: Body, jumpPressed: bool): (r: Body)
    ensures r.pos == b.pos && r.vel.x == b.vel.x && r.vel.z == b.vel.z
    ensures jumpPressed && b.onGround ==> r.vel.y == JumpSpeed && !r.onGround
    ensures !(jumpPressed && b.onGround) ==> r == b
  {
    if jumpPressed && b.onGround then Body(b.pos, Vec3(b.vel.x, JumpSpeed, b.vel.z), false) else b
  }

  /** The substep count of a frame: from the estimated travel at the vertical
      speed after one frame of gravity. */
  function FrameSubsteps(b0: Body, hvel: Vec3, radius: real, dt: real, sqrt: real -> real): (n: int)
    ensures 1 <= n <= 8
  {
    SubstepCount(Travel(hvel, b0.vel.y, ClampDt(dt), sqrt), MaxStep(radius))
  }

  /** One frame of the integrator on the body, after the jump press is read. */
  function StepSpec(tris: seq<Triangle>, cells: Cells, inv: real, b: Body, jumpPressed: bool, hvel: Vec3,
                    radius: real, dt: real, sqrt: real -> real): Body
    requires Sound(tris, cells, inv) && SqrtPositive(sqrt)
  {
    var b0 := JumpStart(b, jumpPressed);
    var n := FrameSubsteps(b0, hvel, radius, dt, sqrt);
    Substeps(tris, cells, inv, b0, hvel, radius, ClampDt(dt) / n as real, sqrt, n)
  }

  /** The body of `step_mario_physics` once the collider and position are known. */
  method StepBody(c: CastleCollider, b: Body, jump: bool, hvel: Vec3, radius: real, dt: real, sqrt: real -> real)
    returns (b': Body)
    requires c.Valid() && SqrtPositive(sqrt)
    ensures b' == StepSpec(c.tris, c.grid.cells, c.grid.invCellSize, b, jump, hvel, radius, dt, sqrt)
  {
    var pos, vel, grounded := b.pos, b.vel, b.onGround;
    var dt' := ClampDt(dt);
    if jump && grounded {
      vel := Vec3(vel.x, JumpSpeed, vel.z);
      grounded := false;
    }
    assert Body(pos, vel, grounded) == JumpStart(b, jump);
    var maxStep := MaxStep(radius);
    var travel := Travel(hvel, vel.y, dt', sqrt);
    var n := SubstepCount(travel, maxStep);
    var subDt := dt' / n as real;
    b' := RunSubsteps(c, Body(pos, vel, grounded), hvel, radius, subDt, n, sqrt);
  }

  /** The player-controlled state `step_mario_physics` reads and writes. A
      missing attribute of the original object is the constructor's default. */
  class AppState {
    var castleCollider: CastleCollider?
    var marioPos: Option<Vec3>
    var marioVel: Vec3
    var onGround: bool
    var marioRadius: real
    var moveDir: Vec3
    var sprint: bool
    var jumpPressed: bool

    constructor (collider: CastleCollider?, pos: Option<Vec3>)
      ensures castleCollider == collider && marioPos == pos
      ensures marioVel == Vec3(0.0, 0.0, 0.0) && !onGround && marioRadius == 0.35
      ensures moveDir == Vec3(0.0, 0.0, 0.0) && !sprint && !jumpPressed
    {
      castleCollider := collider;
      marioPos := pos;
      marioVel := Vec3(0.0, 0.0, 0.0);
      onGround := false;
      marioRadius := 0.35;
      moveDir := Vec3(0.0, 0.0, 0.0);
      sprint := false;
      jumpPressed := false;
    }

    /** `step_mario_physics`: nothing happens without a collider or a position;
        otherwise the jump press is consumed and the body is integrated over n
        equal substeps of the clamped time step. `sqrt`, `mag` and `norm` stand
        for `math.sqrt`, `Vec3.mag` and `Vec3.norm`. */
    method StepMarioPhysics(dt: real, sqrt: real -> real,
                            mag: Vec3 -> real, norm: Vec3 -> Vec3)
      requires castleCollider != null ==> castleCollider.Valid()
      requires SqrtPositive(sqrt)
      modifies this
      ensures old(castleCollider) == null || old(marioPos).None? ==> unchanged(this)
      ensures old(castleCollider) != null && old(marioPos).Some? ==>
                var c := old(castleCollider);
                var hvel := HorizontalVel(old(moveDir), old(sprint), mag, norm);
                !jumpPressed && marioPos.Some?
                && Body(marioPos.value, marioVel, onGround)
                   == StepSpec(c.tris, c.grid.cells, c.grid.invCellSize, Body(old(marioPos).value, old(marioVel), old(onGround)),
                               old(jumpPressed), hvel, old(marioRadius), dt, sqrt)
                && castleCollider == c && marioRadius == old(marioRadius) && moveDir == old(moveDir) && sprint == old(sprint)
    {
      if castleCollider == null {
        return;
      }
      if marioPos.None? {
        return;
      }
      var collider := castleCollider;
      var jump := jumpPressed;
      jumpPressed := false;
      var hvel := HorizontalVel(moveDir, sprint, mag, norm);
      var b := StepBody(collider, Body(marioPos.value, marioVel, onGround), jump, hvel, marioRadius, dt, sqrt);
      marioPos := Some(b.pos);
      marioVel := b.vel;
      onGround := b.onGround;
    }
  }

  /** What a frame of `step_mario_physics` guarantees: the horizontal velocity
      is kept, the ground flag survives unless a jump was made from the ground,
      a jump from the ground starts the frame at vertical speed 7, and the
      vertical speed never ends above that starting value or zero. */
  lemma StepFacts(tris: seq<Triangle>, cells: Cells, inv: real, b: Body, jumpPressed: bool, hvel: Vec3,
                  radius: real, dt: real, sqrt: real -> real)
    requires Sound(tris, cells, inv) && SqrtPositive(sqrt)
    ensures var r := StepSpec(tris, cells, inv, b, jumpPressed, hvel, radius, dt, sqrt);
            var vy0 := if jumpPressed && b.onGround then JumpSpeed else b.vel.y;
            r.vel.x == b.vel.x && r.vel.z == b.vel.z
            && (b.onGround && !jumpPressed ==> r.onGround)
            && r.vel.y <= Max(vy0, 0.0)
  {
    var b0 := JumpStart(b, jumpPressed);
    var n := FrameSubsteps(b0, hvel, radius, dt, sqrt);
    assert ClampDt(dt) / n as real >= 0.0;
    SubstepsFacts(tris, cells, inv, b0, hvel, radius, ClampDt(dt) / n as real, sqrt, n);
  }
}
