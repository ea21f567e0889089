# adams-first-renderer, modelled in Dafny

adams-first-renderer is a small software renderer written in Python on top of
pygame. This project models its core in Dafny and proves properties of that model:

- **The collision layer**: an XZ spatial hash of triangle indices, Ericson's
  closest point on a triangle, a Moller-Trumbore downward raycast, and the
  substepped character integrator `step_mario_physics`.
- **The 3D pipeline**: the Sutherland-Hodgman clipper against the six
  OpenGL-style clip planes, fan triangulation, the perspective divide, the
  back-face cull decision, flat lighting, colour quantisation, and the
  NDC-to-screen mapping. Together these are `draw_model` and `draw_primitive`.
- **The triangle rasterizers**: the bounding-box edge-function fill, the
  Z-buffered flat and textured fills, and the scanline fill.
  - The textured kernel writes the depth before its alpha-0 test, as the code does.
  - `triangle_textured_z` takes its `shade` as `Vec3` only. The source's scalar
    form (the default `shade=1.0`) clamps the one number for all three channels,
    which is the same as passing `Vec3(s, s, s)`.
- **The pixel sink**: immediate plotting that skips pixels off the surface, versus a deferred
  FIFO queue that `draw_some_points` drains at a rate set by a fractional
  accumulator. Colours are RGBA: the 3-tuple `(255, 255, 255)` that `point`
  plots is stored as `Scene.White`, with alpha 255, which is how pygame reads
  a 3-tuple.
- **The loaders, with their I/O given as parameters**:
  - Wavefront OBJ: faces, groups and vertex de-duplication;
  - Wavefront MTL: `newmtl`, `Kd` and `map_Kd`, plus the texture search;
  - the AFR text format (`model.py`): comment-preserving load, validate and save;
  - `.afrmodel` un-indexing;
  - glTF 2.0: node transforms (section 3.5.3 of the glTF 2.0 specification)
    and accessor layout and integer decoding (section 3.6.2 of the glTF 2.0
    specification).
- **The 2D primitives of both drawing layers**: DDA and recursive lines,
  rectangles, polylines, raster circles and the per-pixel shader.

State the source changes in place is modelled in place:

- the sink's globals are fields of class `State.Sink`, and the surface is class `State.Surface`;
- the depth buffer is an `array`;
- the spatial hash, the collider and the physics state are classes;
- the AFR `Model` is a class;
- the older layer's global `POINTS` list is class `Gra.PointList`.

Every loop of the source is a method with its invariants. Each method is
proved equal to a function over the old state, and the promised properties
are lemmas about those functions. Python floats are modelled as `real`,
with exact arithmetic. `int()` truncates toward zero (`Util.Trunc`), and
`math.floor` and `math.ceil` are `.Floor` and `Util.Ceil`. The z-buffer's
infinity is `Raster.Depth.Inf`.

The modules follow the repository:

| module | models |
|---|---|
| Util, LinAlg, Text | helpers: integer rounding, vectors and 4x4 matrices, and Python's string methods (`strip`, `split`, `splitlines`, `lower`, `int()`) |
| Scene | src/afr/scene.py |
| State | src/afr/state.py and `draw_some_points` in src/afr/core_rendering.py |
| Physics | src/afr/physics.py |
| Clipping, Rendering | src/afr/rendering.py |
| Raster, Primitives, Shapes | src/afr/primitives.py |
| Gra | gra/primitives.py |
| Obj, Mtl, AfrFormat, AfrModel, Gltf | src/afr/models/obj.py, mtl.py, model.py, afrmodel.py and gltf.py |

## Model

| member | source | states |
|---|---|---|
| Util.Trunc | src/afr/state.py:31-32 | Python's `int()` on a float truncates toward zero: for x >= 0 the result is the largest integer not above x, for x < 0 the least integer not below x. |
| Util.Ceil | src/afr/physics.py:231 | `math.ceil(x)` is the least integer not below x. |
| Util.Min3 | src/afr/primitives.py:70-73 | `min(a, b, c)` is one of its arguments and no greater than any of them. |
| Util.Max3 | src/afr/primitives.py:70-73 | `max(a, b, c)` is one of its arguments and no less than any of them. |
| Util.PyIndex | src/afr/models/afrmodel.py:27 | Python list indexing succeeds exactly for indices in [-len, len), counting from the end when negative; any other index raises IndexError. |
| Util.FlatIndexInBounds | src/afr/primitives.py:134-155 | The row-major index y*w + x of an on-surface pixel lies inside the w*h depth buffer. |
| Util.FlatIndexInjective | src/afr/primitives.py:134-155 | Two pixels with in-row columns and the same flat index are the same pixel, so each depth-buffer slot belongs to one pixel. |
| Util.FlatIndexSplit | src/afr/primitives.py:134-155 | Every flat index splits back into a column below w and a row. |
| LinAlg.FromRowMajor | src/afr/models/gltf.py:76-83 | `Mat4([...])` from 16 numbers: entry (i, j) is element 4i + j. |
| LinAlg.IdentityMulLeft | src/afr/models/gltf.py:238-240 | `Mat4.identity() @ m == m`, so a root node's world matrix is its local matrix. |
| LinAlg.IdentityMulRight | src/afr/models/gltf.py:238-240 | `m @ Mat4.identity() == m`. |
| LinAlg.IdentityTransformPoint | src/afr/rendering.py:168 | The identity model matrix leaves every vertex where it is. |
| LinAlg.MatMulAssoc | src/afr/models/gltf.py:196-199 | The matrix product `@` is associative, so a world matrix does not depend on how parent and local matrices are grouped. |
| State.ConfiguredMode | src/afr/state.py:6-38 | The sink is deferred exactly when DEFERRED_PLOTTING is set, so the default `PLOT` is `plot_immediate`. |
| State.Filled | src/afr/core_rendering.py:16-17 | `surface.fill(c)` keeps the surface size and makes every pixel c. |
| State.SetAt | src/afr/state.py:34 | `set_at((x, y), c)` on an in-range pixel changes that pixel to c and no other. |
| State.Plotted | src/afr/state.py:29-34 | `plot_immediate` changes exactly the pixel (int(x), int(y)) to c when it lies on the surface, and otherwise nothing; the size is kept. |
| State.PlotNearZero | src/afr/state.py:31-33 | `int()` truncates toward zero, so a plot at a coordinate in (-1, 1) lands on pixel 0. |
| State.PlottedPixel | src/afr/state.py:31-34 | A plot at an integer pixel inside the surface is `set_at` of that pixel. |
| State.PlotStep | src/afr/state.py:24-38 | One `PLOT` call: deferred appends (pos, c) to the back of POINTS and leaves the surface alone; immediate leaves POINTS alone; the size is kept. |
| State.PlotAllSnoc | src/afr/state.py:24-38 | Plotting one more entry after a list is one more `PLOT` step. |
| State.PlotAllAppend | src/afr/state.py:24-38 | Plotting two lists one after the other is plotting their concatenation. |
| State.DeferredQueues | src/afr/state.py:24-26 | In deferred mode plotting a list appends exactly its entries, in order, to POINTS and leaves the surface untouched. |
| State.ImmediateIsBlit | src/afr/state.py:29-34 | Plotting a list immediately leaves the surface as draining the same list from the queue would. |
| State.BlitAll | src/afr/core_rendering.py:30-37 | Draining a list keeps every pixel no entry lands on, and gives a landed-on pixel the colour of the last entry landing there; out-of-bounds entries are dropped. |
| State.BlitSnoc | src/afr/core_rendering.py:30-37 | Draining one more entry plots it on the drained surface. |
| State.BlitAppend | src/afr/core_rendering.py:30-37 | Draining two lists in turn is draining their concatenation. |
| State.Accrue | src/afr/core_rendering.py:21-25 | n = int(BLIT_ACCUM + BLIT_PPS * dt); when n <= 0 the accumulator keeps the sum, otherwise n plus the new accumulator is the sum and the accumulator ends in [0, 1). |
| State.Drain | src/afr/core_rendering.py:10-41 | With an empty queue nothing changes and the result is 0; otherwise NEEDS_CLEAR becomes False, the accumulator is as `Accrue` says, exactly min(n, len(POINTS)) entries (none when n <= 0) leave the front of the queue, and the result is that count when `stats`, else 0. |
| State.DrainSurface | src/afr/core_rendering.py:16-37 | With a non-empty queue the surface is filled with CLEAR_COLOR first when NEEDS_CLEAR is set, and then exactly the drained prefix of the queue is plotted, in FIFO order. |
| State.DrainKeepsUnplotted | src/afr/core_rendering.py:16-37 | A pixel no drained entry lands on keeps its colour, or becomes CLEAR_COLOR when NEEDS_CLEAR was set. |
| State.Surface.constructor | src/afr/state.py:21 | A new surface of the given size holds CLEAR_COLOR everywhere. |
| State.PlotImmediate | src/afr/state.py:29-34 | The method writes the surface to `Plotted` of its old contents. |
| State.Sink.constructor | src/afr/state.py:6-20 | The globals start as immediate plotting, an empty queue, BLIT_ACCUM 0 and NEEDS_CLEAR False. |
| State.Sink.PlotDeferred | src/afr/state.py:24-26 | `plot_deferred` appends exactly (pos, c) to POINTS and changes nothing else. |
| State.Sink.Plot | src/afr/state.py:24-38 | `PLOT` changes the queue and surface as `PlotStep` says for the configured mode. |
| State.Sink.DrawSomePoints | src/afr/core_rendering.py:10-41 | The method leaves the queue, accumulator, flag, surface and result as `Drain` says. |
| State.Sink.PopAndBlit | src/afr/core_rendering.py:30-41 | The counted loop removes the first `count` entries and plots them in order (`BlitAll`); it returns `count` when `stats`, else 0. |
| Text.LineBreakIsSpace | src/afr/models/model.py:110-113 | Every line boundary of `splitlines` is whitespace to `strip`. |
| Text.LStrip | src/afr/models/model.py:113 | Left stripping drops a whitespace-only prefix and leaves no whitespace in front. |
| Text.RStrip | src/afr/models/model.py:113 | Right stripping drops a whitespace-only suffix and leaves no whitespace at the end. |
| Text.StripSpec | src/afr/models/obj.py:57 | `strip` returns a slice of the string flanked by whitespace only, with no whitespace at either end. |
| Text.StripTrimmed | src/afr/models/obj.py:57 | A string without whitespace at either end strips to itself. |
| Text.StripPadded | src/afr/models/model.py:113 | Whitespace around a trimmed string is exactly what `strip` removes. |
| Text.StripAllSpace | src/afr/models/model.py:116 | A whitespace-only string strips to "". |
| Text.TokenLen | src/afr/models/obj.py:60 | The leading token is a maximal run of non-whitespace. |
| Text.Split | src/afr/models/obj.py:60 | `split()` yields only non-empty, whitespace-free tokens. |
| Text.SplitLeadingSpace | src/afr/models/obj.py:60 | Leading whitespace does not change `split()`. |
| Text.SplitToken | src/afr/models/obj.py:60 | A token followed by whitespace splits off whole. |
| Text.SplitJoin | src/afr/models/model.py:135 | `split()` undoes `" ".join` of tokens, whatever whitespace follows. (Also models src/afr/models/model.py:176.) |
| Text.SplitAllSpace | src/afr/models/obj.py:60-62 | Whitespace splits into no tokens. |
| Text.JoinNoSpace | src/afr/models/model.py:176 | Tokens joined with spaces have no whitespace at either end, and are non-empty when there is a token. |
| Text.IndexOf | src/afr/models/model.py:21 | The first occurrence of a character: it is there and not before. |
| Text.SplitOnce | src/afr/models/model.py:21 | `split(c, 1)` cuts at the first occurrence of c: the parts rebuild the string and the first holds no c. |
| Text.SplitOn | src/afr/models/obj.py:94 | `split(c)` yields at least one field and no field holds c. |
| Text.JoinSplitOn | src/afr/models/obj.py:94 | `c.join(s.split(c)) == s`. |
| Text.LineLen | src/afr/models/model.py:110 | A line runs up to, not including, the first line boundary. |
| Text.SplitLines | src/afr/models/model.py:110 | `splitlines()` yields lines free of line boundaries. |
| Text.SplitLinesCons | src/afr/models/model.py:110 | A line followed by "\n" is split off whole. |
| Text.SplitLinesJoin | src/afr/models/model.py:110 | Reading `"\n".join(out)` back with `splitlines` gives out, less a final empty line. (Also models src/afr/models/model.py:216.) |
| Text.LowerAscii | src/afr/models/model.py:125 | Lower-casing keeps the length. |
| Text.LowerAsciiAt | src/afr/models/model.py:125 | Lower-casing works character by character. |
| Text.LowerNoUpper | src/afr/models/model.py:125 | A string with no upper-case letter is its own lower case. |
| Text.NatToStr | src/afr/models/model.py:179 | `str(n)` of a non-negative int is a non-empty run of digits whose value is n. |
| Text.IntToStr | src/afr/models/model.py:179 | `str(i)` is non-empty. |
| Text.IntToStrToken | src/afr/models/model.py:179 | `str(i)` is one token: no whitespace, no line break and no `#`. |
| Text.ParseInt | src/afr/models/model.py:145 | `int()` accepts no empty token. |
| Text.ParseIntToStr | src/afr/models/obj.py:14 | `int(str(i)) == i`. (Also models src/afr/models/model.py:145.) |
| Mtl.FirstDirSpec | src/afr/models/mtl.py:19-25 | The texture search finds nothing exactly when no directory holds the file, and otherwise returns the earliest directory that does. |
| Mtl.ResolveTexture | src/afr/models/mtl.py:19-25 | The `for d in search_dirs` loop computes the first directory holding the file. |
| Mtl.ParseWords | src/afr/models/mtl.py:46-54 | A line written as its whitespace-free words joined by single spaces reads back as those words. |
| Mtl.StepOn | src/afr/models/mtl.py:56-75 | One statement keeps every material filed under its own name and `current` among them, never drops a material, changes `current` and the names only on `newmtl`, and leaves every non-current material as it was. |
| Mtl.Parsed | src/afr/models/mtl.py:46-54 | Each line is parsed on its own, in order. |
| Mtl.RunStmts | src/afr/models/mtl.py:46-75 | The statement loop keeps every material filed under its own name. |
| Mtl.NewMtlFresh | src/afr/models/mtl.py:56-60 | `newmtl` starts a fresh default material under its name, replacing any earlier entry of that name, and makes it current. |
| Mtl.NoCurrentIgnored | src/afr/models/mtl.py:62-63 | Before any `newmtl` every other statement is ignored. |
| Mtl.KdSets | src/afr/models/mtl.py:65-70 | `Kd` with three numbers sets only the current material's colour; a number that fails to parse (ValueError) leaves everything as it was. |
| Mtl.MapKdSets | src/afr/models/mtl.py:71-75 | `map_Kd` sets the current material's texture exactly when the search finds the file, to the image loaded from where it was found, and otherwise changes nothing. |
| Mtl.RunAppend | src/afr/models/mtl.py:46-75 | The loop over two runs of statements is the loop over the first, then over the second. |
| Mtl.NoNewMtlNoChange | src/afr/models/mtl.py:62-63 | A file with no `newmtl` yields no materials. |
| Mtl.PrefixIgnored | src/afr/models/mtl.py:62-63 | Statements before the first `newmtl` are ignored. |
| Mtl.KeysAreNames | src/afr/models/mtl.py:56-60 | The dict's keys are exactly the names given to `newmtl`. |
| Mtl.NamesMatch | src/afr/models/mtl.py:56-60 | The material filed under each name is named by it. |
| Mtl.RunNextLine | src/afr/models/mtl.py:46-75 | One more line of the file is one more step of the statement loop. |
| Mtl.LoadLine | src/afr/models/mtl.py:46-75 | One pass of the loop computes `StepOn` of the parsed line. |
| Mtl.RunCommand | src/afr/models/mtl.py:53-75 | The statement dispatch computes `StepOn` of the parsed statement. |
| Mtl.SetColor | src/afr/models/mtl.py:65-70 | `Kd` on the current material computes `StepOn`. |
| Mtl.SetTexture | src/afr/models/mtl.py:71-75 | `map_Kd` on the current material computes `StepOn`. |
| Mtl.LoadMtl | src/afr/models/mtl.py:28-77 | `load_mtl` computes `LoadMtlText` of the file's text, searching the file's directory first and then the extra directories. |
| Obj.ParseIndexOf | src/afr/models/obj.py:12-17 | A written OBJ index i names entry i - 1 when positive and n + i when negative; `0` gives -1. |
| Obj.IndexForms | src/afr/models/obj.py:12-17 | The 1-based index k + 1 and the from-the-end index k - n name the same entry k. |
| Obj.CornerWritten | src/afr/models/obj.py:92-97 | The token `k+1/j+1` is the corner (k, j), and `k+1` alone is the corner (k, None). |
| Obj.Corners | src/afr/models/obj.py:92-97 | A face's corners, when all parse, are one per token. |
| Obj.CornersErr | src/afr/models/obj.py:92-97 | A token that fails to parse is the error of the whole face. |
| Obj.AddCorner | src/afr/models/obj.py:103-114 | A cached corner reuses its vertex and changes nothing; a new one fails exactly when its position index is out of range or its UV index is out of range from the end, and otherwise appends one vertex with the named position and UV (or (0, 0)) and caches it, keeping the group well formed. |
| Obj.AddCorners | src/afr/models/obj.py:103-114 | The corners of a triangle each get the vertex the cache records for them, and the group stays well formed and only grows. |
| Obj.AddCornersErr | src/afr/models/obj.py:103-114 | An error on one corner is the error of the whole triangle. |
| Obj.AddTri | src/afr/models/obj.py:101-115 | A fan triangle appends the cached vertices of its three corners to `idx`, keeping the group well formed. |
| Obj.FanShape | src/afr/models/obj.py:100-115 | The fan of a face appends, in order, the triangles (v0, vj, vj+1) of the corners' unified vertices, keeping every cached corner. |
| Obj.FanNext | src/afr/models/obj.py:100-101 | The fan up to i + 1 is the fan up to i and one more triangle. |
| Obj.FanErr | src/afr/models/obj.py:100-115 | An error in one fan triangle is the error of the whole face. |
| Obj.FanStep | src/afr/models/obj.py:100-115 | Appending the next closing triangle to a fan in progress extends the fan by that triangle. |
| Obj.GroupOf | src/afr/models/obj.py:44-54 | `group(name)` gives a well-formed group: the stored one or a fresh empty one. |
| Obj.Put | src/afr/models/obj.py:44-54 | Storing a group keeps the registry well formed; a new name goes last in insertion order and a known name keeps its place. |
| Obj.ParseParts | src/afr/models/obj.py:63-97 | Only an `f` statement with at least three corner tokens becomes a face. |
| Obj.ParseLine | src/afr/models/obj.py:56-62 | A face statement parsed from a line has at least three corners. |
| Obj.Parsed | src/afr/models/obj.py:56-62 | Each line is parsed on its own, in order. |
| Obj.LoadLib | src/afr/models/obj.py:66-74 | `mtllib` keeps every known material, files every material under its own name, and changes nothing when the library is found in neither directory. |
| Obj.Face | src/afr/models/obj.py:89-116 | A face only changes the groups and keeps the state well formed. |
| Obj.FaceAdds | src/afr/models/obj.py:99-115 | A face of k corners appends k - 2 triangles to the current material's group and leaves every other group as it was. |
| Obj.StepObj | src/afr/models/obj.py:56-116 | One statement only appends positions, UVs and group names and keeps the state well formed; only `v`, `vt` and `f` can fail. |
| Obj.RunObj | src/afr/models/obj.py:56-116 | The statement loop keeps the state well formed. |
| Obj.RunErr | src/afr/models/obj.py:56-116 | An error on one line ends the load with that error; no later line runs. |
| Obj.RunSnoc | src/afr/models/obj.py:56-116 | The loop over one more statement is one more pass after the loop before it. |
| Obj.RunAppend | src/afr/models/obj.py:56-116 | The loop over two runs of statements is the loop over the first, then over the second. |
| Obj.LineRuns | src/afr/models/obj.py:56-116 | Line i carries the loop over the lines before it one line further, and an error there is the error of the whole load. |
| Obj.DefaultOnly | src/afr/models/obj.py:39 | Without `usemtl` every face goes to the single group "default". (Also models src/afr/models/obj.py:76-78.) |
| Obj.GroupMesh | src/afr/models/obj.py:118-126 | A well-formed group is a well-formed mesh. |
| Obj.PrimsOf | src/afr/models/obj.py:118-126 | One primitive per group, in first-use order, with the group's mesh and the material of its name or a default one. |
| Obj.LoadedPrims | src/afr/models/obj.py:118-128 | Every loaded primitive has a well-formed mesh, the identity transform and the default culling, and no two share a material name. |
| Obj.UnifiedVertices | src/afr/models/obj.py:103-114 | Re-indexing is faithful: in every group the unified vertex of a corner with a non-negative position index is the position it names. |
| Obj.FaceCorners | src/afr/models/obj.py:91-97 | The `for tok in args` loop computes `Corners`. |
| Obj.CornerIndices | src/afr/models/obj.py:102-114 | The `for (vi, ti) in tri` loop computes `AddCorners`. |
| Obj.TriInto | src/afr/models/obj.py:101-115 | One fan triangle computes `AddTri`. |
| Obj.FanTriInto | src/afr/models/obj.py:100-115 | Pass i of the fan loop extends the fan by one triangle, and its error is the face's error. |
| Obj.FanInto | src/afr/models/obj.py:100-115 | The `for i in range(1, len(verts) - 1)` loop computes the fan. |
| Obj.AddFace | src/afr/models/obj.py:89-116 | An `f` statement computes `Face`. |
| Obj.LinkLib | src/afr/models/obj.py:66-74 | `mtllib` computes `LoadLib`. |
| Obj.ObjCommand | src/afr/models/obj.py:63-116 | The statement dispatch computes `StepObj` of the parsed statement. |
| Obj.ObjLine | src/afr/models/obj.py:56-116 | One pass of the loop computes `StepObj` of the parsed line. |
| Obj.BuildPrims | src/afr/models/obj.py:118-126 | The `for mtl_name, g in groups.items()` loop computes `PrimsOf`. |
| Obj.LoadObj | src/afr/models/obj.py:20-128 | `load_obj` computes `LoadObjText` of the file's text. |
| AfrFormat.VertLines | src/afr/models/model.py:73-75 | The `verts` setter stores one comment-free vert line per vertex, in order. |
| AfrFormat.FaceLines | src/afr/models/model.py:81-83 | The `faces` setter stores one comment-free face line per face, in order. |
| AfrFormat.UvLines | src/afr/models/model.py:89-91 | The `uvs` setter stores one comment-free uv line per face, in order. |
| AfrFormat.GetAfterSetVerts | src/afr/models/model.py:69-75 | The `verts` getter returns exactly the list its setter was given. |
| AfrFormat.GetAfterSetFaces | src/afr/models/model.py:77-83 | The `faces` getter returns exactly the list its setter was given. |
| AfrFormat.GetAfterSetUvs | src/afr/models/model.py:85-91 | The `uvs` getter returns exactly the list its setter was given. |
| AfrFormat.Validate | src/afr/models/model.py:93-97 | `validate` raises exactly when there are UVs and their count differs from the face count. |
| AfrFormat.SplitComment | src/afr/models/model.py:18-23 | The code part never holds a `#`, and a line without `#` is all code with no comment. |
| AfrFormat.NonEmpty | src/afr/models/model.py:23 | An empty comment becomes None, any other is kept. |
| AfrFormat.SplitCommentAt | src/afr/models/model.py:18-23 | The code ends at the first `#` and the stripped rest is the comment, None when empty. |
| AfrFormat.SplitCommentCut | src/afr/models/model.py:21-23 | With a `#`, the line is the code, that `#` and a rest whose stripped form is the comment. |
| AfrFormat.ParseRealsSpec | src/afr/models/model.py:140 | A run of tokens parses as floats exactly when each one does, to those numbers. (Also models src/afr/models/model.py:150.) |
| AfrFormat.ParseIntsSpec | src/afr/models/model.py:145 | A run of tokens parses as ints exactly when each one does, to those numbers. |
| AfrFormat.RunAppend | src/afr/models/model.py:110-156 | The line loop over two runs of lines is the loop over the first, then over the second, stopping at the first error. |
| AfrFormat.RunSnoc | src/afr/models/model.py:110-156 | One more line carries the loop one step further, and an error there is the error of the whole loop. |
| AfrFormat.BlankOrCommentKept | src/afr/models/model.py:115-123 | A line whose code is blank is kept in the current section (or the preamble), as a blank or as its comment, and the section stays current. |
| AfrFormat.HeaderSwitches | src/afr/models/model.py:125-128 | A header in any case switches the section and stores no line. |
| AfrFormat.HeaderIgnoresCase | src/afr/models/model.py:125-126 | "VeRtS" and "UVS" are headers. |
| AfrFormat.PreambleKept | src/afr/models/model.py:130-133 | Text before the first header is kept as a preamble comment, with its own comment re-attached after " # ". |
| AfrFormat.DataLineErrors | src/afr/models/model.py:135-156 | A data line raises ValueError exactly when it has the wrong number of fields (3 for verts and faces, 6 for uvs) or a field does not parse; otherwise it is a line of its section's kind. |
| AfrFormat.DataLineKept | src/afr/models/model.py:135-156 | Inside a section, text raises exactly when its data line does, and is appended to that section otherwise. |
| AfrFormat.EmitAll | src/afr/models/model.py:165-192 | Every stored line is emitted as one output line, in order. |
| AfrFormat.SaveLayout | src/afr/models/model.py:194-215 | The saved layout: "# afrmodel v1" when there is no preamble, then the headers verts, faces and uvs in that order, with the blank separators. |
| AfrFormat.ClassifyComment | src/afr/models/model.py:115-123 | A saved comment line reads back as that comment. (Also models src/afr/models/model.py:169-172.) |
| AfrFormat.SplitCommentData | src/afr/models/model.py:18-23 | A saved data line is cut at the `#` of its comment, after the two padding spaces. (Also models src/afr/models/model.py:190-191.) |
| AfrFormat.SplitCommentSome | src/afr/models/model.py:18-23 | A comment appended after "  # " reads back unchanged. (Also models src/afr/models/model.py:190-191.) |
| AfrFormat.ClassifyData | src/afr/models/model.py:112-135 | An emitted data line reads back as text with the same fields and the same comment. (Also models src/afr/models/model.py:190-191.) |
| AfrFormat.EmitLineLoads | src/afr/models/model.py:110-156 | One emitted line, read back in its own section, appends that line with its numbers passed through `_fmt_num` and `float`. (Also models src/afr/models/model.py:165-192.) |
| AfrFormat.EmittedLoad | src/afr/models/model.py:110-156 | A section's emitted lines read back as its lines, numbers re-read. (Also models src/afr/models/model.py:196-213.) |
| AfrFormat.RereadKeepsComments | src/afr/models/model.py:142-146 | Blank, comment and face lines come back exactly. |
| AfrFormat.LoadSaved | src/afr/models/model.py:194-215 | The saved file's lines, loaded in order, rebuild the preamble and the three sections. |
| AfrFormat.SaveLoad | src/afr/models/model.py:100-216 | Saving then loading round-trips: the preamble survives (or gains the default comment), face lines and comments survive exactly, numbers pass through `_fmt_num` and `float`, and the verts and faces sections each gain one trailing blank line from the separators `save` writes. |
| AfrFormat.SplitCommentOneLine | src/afr/models/model.py:18-23 | On a line holding no line break, the code part holds none either, and a comment, when there is one, is non-empty, already stripped and on one line. |
| AfrFormat.ClassifyOneLine | src/afr/models/model.py:111-135 | A line read by `splitlines` classifies as blank with such a comment, a header, or non-empty stripped one-line text with such a comment. |
| AfrFormat.PreambleTextOk | src/afr/models/model.py:132 | Preamble text with its comment re-attached after " # " is itself a valid stored comment. |
| AfrFormat.DataLineOk | src/afr/models/model.py:137-156 | A parsed data line is of its own section's kind and carries the line's comment. |
| AfrFormat.StepOnOk | src/afr/models/model.py:115-156 | Every branch of the loop body appends a line that may stand where it goes (blank and comment lines anywhere, preamble text as a comment, data lines only in their own section), so DocOk is kept. |
| AfrFormat.LoadStepOk | src/afr/models/model.py:110-156 | One pass of the loop keeps DocOk on every line holding no line break. |
| AfrFormat.RunOk | src/afr/models/model.py:110 | A line loop whose step keeps DocOk keeps it over any list of one-line strings. |
| AfrFormat.LoadedDocOk | src/afr/models/model.py:99-159 | Every document `Model.load` returns meets DocOk, the precondition of the save/load round trip. |
| AfrFormat.SettersOk | src/afr/models/model.py:73-91 | A document built by the constructor's setters meets DocOk, and a setter applied to a document that meets it keeps it. |
| AfrFormat.LoadSaveLoad | src/afr/models/model.py:99-159 | For every file `Model.load` accepts, saving the loaded model and loading again gives its preamble (or the default comment), its face lines and comments exactly, its numbers through `_fmt_num` and `float`, and one blank line after the verts and faces sections. (Also models src/afr/models/model.py:161-216.) |
| AfrFormat.SaveLinesOneLine | src/afr/models/model.py:194-216 | Every saved line holds no line break, so `"\n".join` writes one text line per stored line. |
| AfrFormat.RereadCounts | src/afr/models/model.py:93-97 | Re-reading keeps the UV and face counts, so a valid model saves to a file that validates. (Also models src/afr/models/model.py:158.) |
| AfrFormat.Model.constructor | src/afr/models/model.py:51-67 | A new model has no preamble, and each given list is stored through its setter. |
| AfrFormat.Model.SetVerts | src/afr/models/model.py:73-75 | The setter replaces the verts lines, comments included, so the getter returns the list; nothing else changes. |
| AfrFormat.Model.SetFaces | src/afr/models/model.py:81-83 | The setter replaces the faces lines, so the getter returns the list; nothing else changes. |
| AfrFormat.Model.SetUvs | src/afr/models/model.py:89-91 | The setter replaces the uvs lines, so the getter returns the list; nothing else changes. |
| AfrFormat.Model.Save | src/afr/models/model.py:161-216 | `save` validates, then writes the emitted lines joined with "\n". |
| AfrFormat.EmitInto | src/afr/models/model.py:196-213 | The `for ln in lines: emit_line(out, ln)` loops append the emitted lines in order. |
| AfrFormat.LoadDocOf | src/afr/models/model.py:110-159 | `load` ends with the line loop's error, or with `validate` on the loop's document. |
| AfrFormat.ReadLines | src/afr/models/model.py:110-156 | The `for raw in text.splitlines()` loop fills the model with the document the line loop computes, or stops at its first error. |
| AfrFormat.Load | src/afr/models/model.py:99-159 | `Model.load` fails exactly when the line loop or `validate` fails, with that error, and otherwise returns a new model holding the loaded document. |
| Gltf.ComponentFmt | src/afr/models/gltf.py:17-24 | Exactly the codes 5120-5126 other than 5124 have a format, and only 5126 is FLOAT; any other code is a KeyError. |
| Gltf.CompSize | src/afr/models/gltf.py:17-24 | Each component is 1, 2 or 4 bytes. |
| Gltf.TypeCount | src/afr/models/gltf.py:26-34 | Exactly the seven glTF type names have a component count, and it is one of 1, 2, 3, 4, 9, 16. |
| Gltf.LeBytes | src/afr/models/gltf.py:119 | A value is written in exactly k little-endian bytes. |
| Gltf.LeRange | src/afr/models/gltf.py:119 | The unsigned value of k bytes lies in [0, 256^k). |
| Gltf.LeDecodeEncode | src/afr/models/gltf.py:119 | Encoding a value below 256^k in k bytes and decoding it gives it back. |
| Gltf.LeEncodeDecode | src/afr/models/gltf.py:119 | Decoding k bytes and re-encoding the value in k bytes gives the bytes back. |
| Gltf.SignedRange | src/afr/models/gltf.py:18 | A signed k-byte value lies in [-256^k/2, 256^k/2), and equals the unsigned value exactly when that is below 256^k/2. (Also models src/afr/models/gltf.py:20, src/afr/models/gltf.py:119.) |
| Gltf.Comps | src/afr/models/gltf.py:119 | `fmt * ncomp` yields exactly n components. |
| Gltf.Unpack | src/afr/models/gltf.py:118-119 | `struct.unpack_from` succeeds exactly when the element fits in the buffer at its offset (a negative offset counting from the end), and then yields ncomp components. |
| Gltf.UnpackComponent | src/afr/models/gltf.py:119 | Component j of an unpacked element is decoded from the component-sized bytes at offset + j*size, with the format's size and signedness. |
| Gltf.IntegerValue | src/afr/models/gltf.py:18-22 | An integer component decodes to its two's complement (b, h) or unsigned (B, H, I) little-endian value, within the range of its size. (Also models src/afr/models/gltf.py:119.) |
| Gltf.ReadN | src/afr/models/gltf.py:116-121 | A successful read has one element per iteration. |
| Gltf.ReadNShape | src/afr/models/gltf.py:116-121 | The read succeeds exactly when every element fits, and element i is the one unpacked at base + i*stride, of ncomp components. |
| Gltf.ReadNErr | src/afr/models/gltf.py:116-121 | Once an element fails the whole read fails with the same error. |
| Gltf.QuatIdentity | src/afr/models/gltf.py:37-68 | The unit quaternion (0, 0, 0, 1) is no rotation. |
| Gltf.QuatAffine | src/afr/models/gltf.py:61-68 | Every quaternion's matrix has last row and last column (0, 0, 0, 1). |
| Gltf.QuatRow0Unit | src/afr/models/gltf.py:51-53 | Row 0 of a unit quaternion's matrix has length one. |
| Gltf.QuatRow1Unit | src/afr/models/gltf.py:54-56 | Row 1 of a unit quaternion's matrix has length one. |
| Gltf.QuatRow2Unit | src/afr/models/gltf.py:57-59 | Row 2 of a unit quaternion's matrix has length one. |
| Gltf.QuatRows01 | src/afr/models/gltf.py:51-56 | Rows 0 and 1 of a unit quaternion's matrix are orthogonal. |
| Gltf.QuatRows02 | src/afr/models/gltf.py:51-59 | Rows 0 and 2 of a unit quaternion's matrix are orthogonal. |
| Gltf.QuatRows12 | src/afr/models/gltf.py:54-59 | Rows 1 and 2 of a unit quaternion's matrix are orthogonal. |
| Gltf.QuatOrthogonal | src/afr/models/gltf.py:37-68 | A unit quaternion gives a rotation: its matrix times its transpose is the identity. |
| Gltf.ColumnMajor | src/afr/models/gltf.py:72-83 | A node's matrix array is column-major: entry (i, j) of the row-major matrix is element 4j + i. |
| Gltf.MatrixNode | src/afr/models/gltf.py:72-83 | A node with a matrix uses its transpose, and fails with IndexError exactly when the array is shorter than 16. |
| Gltf.DefaultsIdentity | src/afr/models/gltf.py:86-88 | The default translation, rotation and scale are each the identity. |
| Gltf.TrsOf | src/afr/models/gltf.py:86-92 | A node without a matrix has local matrix T @ R @ S of its arrays, with their defaults. |
| Gltf.TrsNoRotation | src/afr/models/gltf.py:90-92 | Without rotation, T @ R @ S is T @ S. |
| Gltf.DefaultNodeIdentity | src/afr/models/gltf.py:71-92 | A node with none of matrix, translation, rotation and scale has the identity as its local matrix. |
| Gltf.TranslateScaleMaps | src/afr/models/gltf.py:90-92 | Translation after scale maps p to t + s * p, component by component. |
| Gltf.NoRotationNode | src/afr/models/gltf.py:86-92 | Without rotation, a node's local matrix is its translation times its scale. |
| Gltf.AccessorLayout | src/afr/models/gltf.py:104-114 | A layout exists only when the accessor, its buffer view and buffer exist with Python's indexing and the component type and type are known; then the offset is the view's plus the accessor's and the stride defaults to the element size. |
| Gltf.ReadAccessorShape | src/afr/models/gltf.py:103-121 | A read gives exactly `count` elements (none when negative) of `ncomp` components each, element i unpacked at the offset plus i times the stride. |
| Gltf.ReadAccessorLoop | src/afr/models/gltf.py:103-121 | `_read_accessor` computes `ReadAccessor`. |
| Gltf.ReadElements | src/afr/models/gltf.py:116-121 | The `for i in range(count)` loop computes `ReadN` over `count` elements. |
| Gltf.Verts | src/afr/models/gltf.py:216 | The positions unpack exactly when each has three components, one vertex per element with those components. |
| Gltf.Flat | src/afr/models/gltf.py:221 | The flat index list exists exactly when every element has a first component, and is those components truncated toward zero. |
| Gltf.UvAt | src/afr/models/gltf.py:226-228 | `u, v = uvs[i]` succeeds exactly when the Python index exists and that element has two components. |
| Gltf.FaceStepOk | src/afr/models/gltf.py:222-229 | A full iteration succeeds exactly when, with UVs, its three indices have UVs; it then appends the triple and, with UVs, their UVs. |
| Gltf.TriplesShape | src/afr/models/gltf.py:222-229 | The first n full iterations succeed exactly when their indices all have UVs, and then face k is the k-th consecutive triple with its indices' UVs. |
| Gltf.TriplesErr | src/afr/models/gltf.py:222-229 | Once an iteration fails the loop fails with that error. |
| Gltf.GroupTriplesShape | src/afr/models/gltf.py:222-229 | The triples loop succeeds exactly when the index count is a multiple of three and, with UVs, each index has a two-component UV; face k is then the k-th triple. |
| Gltf.GroupFaces | src/afr/models/gltf.py:222-229 | The `for i in range(0, len(flat), 3)` loop computes `GroupTriples`. |
| Gltf.AppendFace | src/afr/models/gltf.py:223-229 | One iteration computes `FaceStep`. |
| Gltf.TexForMaterial | src/afr/models/gltf.py:166-185 | A material has a texture exactly when its index, its base-colour texture index, that texture's source, and the source's uri all exist, and then it is that image. |
| Gltf.BuildModelShape | src/afr/models/gltf.py:216-231 | The model exists exactly when every position has three components, every index element a first component, the indices come in whole triples and, with UVs, each index has a two-component UV; then its vertices are the positions, face k the k-th triple and its UVs those of the faces' indices. |
| Gltf.PrimModel | src/afr/models/gltf.py:212-231 | A primitive's model is built from its POSITION, TEXCOORD_0 and indices accessors, each of which then reads successfully. |
| Gltf.PrimitiveOf | src/afr/models/gltf.py:205-233 | A primitive is output exactly when it has POSITION and indices, with the node's world matrix and its material's texture. |
| Gltf.MeshPrims | src/afr/models/gltf.py:204-233 | The mesh loop outputs one primitive per drawn primitive, each at the node's world matrix. |
| Gltf.Roots | src/afr/models/gltf.py:190-192 | Without scenes every node is a root, in order; otherwise the roots are the chosen scene's nodes, which must exist. |
| Gltf.Moved | src/afr/models/gltf.py:199 | Premultiplying every primitive's matrix keeps the list and its errors. |
| Gltf.MovedAppend | src/afr/models/gltf.py:199 | Moving a concatenation moves each part. |
| Gltf.MeshPrimsMoved | src/afr/models/gltf.py:199-233 | A mesh's primitives under `a @ w` are those under `w`, moved by `a`. |
| Gltf.OwnMoved | src/afr/models/gltf.py:199-233 | A node's own primitives under `a @ w` are those under `w`, moved by `a`. |
| Gltf.VisitMoved | src/afr/models/gltf.py:196-236 | Setting a node's parent matrix to `a @ p` moves every primitive below it by `a`. |
| Gltf.VisitAllMoved | src/afr/models/gltf.py:235-236 | The same holds for a node's children visited in order. |
| Gltf.VisitFromIdentity | src/afr/models/gltf.py:196-240 | A node's primitives under parent `p` are its primitives from the identity, moved by `p`, so each primitive's matrix is the product of the local matrices on its path. |
| Gltf.VisitOwnFirst | src/afr/models/gltf.py:196-236 | A visit that succeeds gives the node's own primitives at `parent @ local` first, then what its children give under that matrix. |
| Gltf.MeshPrimsErr | src/afr/models/gltf.py:204-233 | Once the mesh loop fails it stays failed with the same error. |
| Gltf.VisitAllErr | src/afr/models/gltf.py:235-240 | Once a traversal of several nodes fails it stays failed with the same error. |
| Gltf.BuildPrimitive | src/afr/models/gltf.py:212-231 | The body of the primitive loop computes `PrimModel`. |
| Gltf.MeshLoop | src/afr/models/gltf.py:204-233 | The `for prim in mesh.get("primitives", [])` loop computes `MeshPrims`. |
| Gltf.VisitNode | src/afr/models/gltf.py:196-236 | `visit` computes `Visit`, recursing into the children in order. |
| Gltf.NodeMesh | src/afr/models/gltf.py:201-233 | The node's mesh, when it has one, computes `OwnPrims`. |
| Gltf.LoadGltfScene | src/afr/models/gltf.py:238-242 | `load_gltf_scene` after parsing computes `LoadScene`: every root visited from the identity. |
| AfrModel.Unindex | src/afr/models/afrmodel.py:23-29 | A successful un-indexing has UVs and three positions per face. |
| AfrModel.UnindexShape | src/afr/models/afrmodel.py:23-29 | Un-indexing raises IndexError exactly when some face has a corner out of range; otherwise out_pos[3k+j] is verts[faces[k][j]], out_uv[3k+j] is uvs[k][j] and out_idx[k] is (3k, 3k+1, 3k+2). |
| AfrModel.UnindexKeepsGeometry | src/afr/models/afrmodel.py:26-29 | The un-indexed mesh is well formed: one triangle per face, every index below len(out_pos), and each triangle has its face's corner positions. |
| AfrModel.UnindexErr | src/afr/models/afrmodel.py:24-27 | The error of the first failing face is the error of the whole loop. |
| AfrModel.LoadedModel | src/afr/models/afrmodel.py:17-37 | A loaded model is exactly one primitive with the identity transform and a material named after the file stem; without UVs its mesh is the model's vertices and faces with uvs None, with UVs it is the well-formed un-indexed mesh. |
| AfrModel.UnindexLoop | src/afr/models/afrmodel.py:19-29 | The `enumerate(m.faces)` loop computes `Unindex`. |
| AfrModel.LoadAfrModel | src/afr/models/afrmodel.py:11-37 | `load_afrmodel` returns what `LoadAfrModelText` says for the file's text. |
| Physics.DedupSnoc | src/afr/physics.py:52-56 | Seeing one more index appends it exactly when it was not seen before. |
| Physics.DedupMem | src/afr/physics.py:52-56 | De-duplication keeps exactly the indices it was given. |
| Physics.DedupNoDup | src/afr/physics.py:52-56 | De-duplication never returns an index twice. |
| Physics.RowListMem | src/afr/physics.py:48-52 | An index is in a row's cells exactly when one cell of the row lists it. |
| Physics.GridListMem | src/afr/physics.py:47-52 | An index is in the box's cells exactly when one cell of the box lists it. |
| Physics.QueryMem | src/afr/physics.py:42-57 | `query_aabb` returns an index exactly when some cell of the box lists it, and returns it only once. |
| Physics.FloorMonotone | src/afr/physics.py:32-33 | `_cell` is monotone: a larger coordinate never falls in a lower cell. |
| Physics.SpatialHashXZ.constructor | src/afr/physics.py:26-30 | A new grid keeps its cell size, has inverse 1/size or 1 when the size is zero, and no cells. |
| Physics.SpatialHashXZ.InsertTri | src/afr/physics.py:35-40 | `insert_tri` appends the index to every cell of the triangle's box, creating the cells it needs, and to no other cell. |
| Physics.SpatialHashXZ.QueryAabb | src/afr/physics.py:42-57 | `query_aabb` returns the first-seen-order, de-duplicated union of the cells under the box. |
| Physics.SpatialHashXZ.QueryCells | src/afr/physics.py:45-57 | The two loops over the box's cells compute the query's result. |
| Physics.SpatialHashXZ.QueryRow | src/afr/physics.py:48-56 | One row of the box adds its cells' indices, left to right, keeping `seen` equal to the output's indices. |
| Physics.SpatialHashXZ.QueryCell | src/afr/physics.py:49-56 | One cell of the row adds its unseen indices, keeping `seen` equal to the output's indices. |
| Physics.AppendUnseen | src/afr/physics.py:52-56 | The `for ti in lst` loop appends the unseen indices of one cell in order, keeping `seen` equal to the output's indices. |
| Physics.QueryFindsOverlapping | src/afr/physics.py:32-57 | Grid completeness: a triangle whose XZ box overlaps the query box is in the result, exactly once. |
| Physics.BoxesMeet | src/afr/physics.py:36-48 | Two cell boxes that overlap on both axes share a cell. |
| Physics.QueryOnlyNearby | src/afr/physics.py:42-57 | Grid soundness: every returned index names a triangle sharing a cell with the query box. |
| Physics.CastleCollider.constructor | src/afr/physics.py:60-63 | The collider holds the triangle list and the grid it is given. |
| Physics.CastleCollider.QuerySphere | src/afr/physics.py:65-67 | `query_sphere` is the grid query over the square [cx - r, cx + r] x [cz - r, cz + r]. |
| Physics.MakeTriangle | src/afr/physics.py:125-132 | A collision triangle keeps its corners and has their exact XZ minimum and maximum. |
| Physics.WorldTriangles | src/afr/physics.py:123-132 | A primitive gives one collision triangle per index triple. |
| Physics.InsertKeepsIndexExact | src/afr/physics.py:133-135 | Inserting the next triangle under its index keeps the grid complete and sound. |
| Physics.AddPrimitive | src/afr/physics.py:123-135 | One primitive appends its world-space triangles, in index order, and keeps the grid complete and sound. |
| Physics.BuildCollider | src/afr/physics.py:116-137 | `build_collider_from_scene` gives a cell-size-2 grid in which triangle i, carrying its corners' XZ bounds, is listed under i in exactly the cells of its box. |
| Physics.Ratio | src/afr/physics.py:88 | An edge parameter lies in [0, 1], is num/den for a non-zero length, and 0 otherwise. (Also models src/afr/physics.py:99, src/afr/physics.py:104.) |
| Physics.Scaled | src/afr/physics.py:110-112 | `num * (1 / denom)` times denom is num. |
| Physics.ClassifyDots | src/afr/physics.py:75-113 | The first test picks vertex a exactly when d1 <= 0 and d2 <= 0, vertex b exactly when that fails and d3 >= 0 and d4 <= d3; the edge parameters lie in [0, 1]. |
| Physics.ClassifyParams | src/afr/physics.py:86-113 | Each edge answer carries the ratio of its test, the face answer carries vb/denom and vc/denom, and the flat fallback only happens when denom is 0. |
| Physics.DotFacts | src/afr/physics.py:75-93 | The six dot products relate to the edge Gram entries and to the vertex regions seen from b and c. |
| Physics.ClosestFeature | src/afr/physics.py:70-113 | The answer is corner a exactly when p is in a's vertex region, corner b exactly when it is not in a's and is in b's, corner c only in c's region, and the edge parameters lie in [0, 1]. |
| Physics.LineProjection | src/afr/physics.py:88-89 | A point q + e t with t e.e = e.(p - q) is the foot of the perpendicular from p onto the line. |
| Physics.RatioProjection | src/afr/physics.py:88-89 | An edge answer of the region tests is the foot of the perpendicular from p onto its edge's line. |
| Physics.ClosestFeatureDots | src/afr/physics.py:72-93 | The choice of feature depends only on the six dot products. |
| Physics.EdgeResultIsProjection | src/afr/physics.py:86-105 | On an edge of non-zero length the result is the orthogonal projection of p onto that edge's line. |
| Physics.CramerSolves | src/afr/physics.py:107-113 | Cramer's rule solves the 2x2 normal equations of the projection. |
| Physics.NormalEquations | src/afr/physics.py:113 | A point a + ab v + ac w whose weights solve the normal equations is the foot of the perpendicular from p. |
| Physics.FaceWeights | src/afr/physics.py:107-112 | The face weights solve the normal equations. |
| Physics.FaceResultIsProjection | src/afr/physics.py:107-113 | In the face case the result is the orthogonal projection of p onto the triangle's plane. |
| Physics.Lagrange | src/afr/physics.py:107-109 | Lagrange's identity relates the cross product of the edges to their Gram determinant. |
| Physics.FlatMeansDegenerate | src/afr/physics.py:107-109 | The flat fallback, answer a, only happens for a degenerate triangle whose edges' cross product is zero. |
| Physics.RayAccept | src/afr/physics.py:163-177 | An accepted hit has t > 1e-8, u in [0, 1], v >= 0 and u + v <= 1, and u, v, t solve Cramer's system with the non-zero det. |
| Physics.RayDownCramer | src/afr/physics.py:160-175 | The Moller-Trumbore quotients solve s = u e1 + v e2 - t (0, -1, 0). |
| Physics.RayDownHitOnTriangle | src/afr/physics.py:149-177 | An accepted hit point orig - t Y lies on the triangle at barycentric coordinates (u, v). |
| Physics.CandidateHits | src/afr/physics.py:155-177 | Each candidate's hit outcome is the Moller-Trumbore test of its triangle, in candidate order. |
| Physics.BestTIsMinimum | src/afr/physics.py:179-180 | `best_t` is None exactly when no test passes, and otherwise is the least accepted distance. |
| Physics.QueryInRange | src/afr/physics.py:156 | A sound grid only returns indices of existing triangles. |
| Physics.HitY | src/afr/physics.py:182-184 | The result is None exactly without a hit, else y0 - best_t. |
| Physics.RaycastDownY | src/afr/physics.py:140-184 | `raycast_down_y` returns the hit height of the nearest accepted triangle among the grid candidates of the query square. |
| Physics.NearestStep | src/afr/physics.py:156-180 | One candidate keeps the nearer of best_t and its own hit. |
| Physics.RaycastHitIsNearest | src/afr/physics.py:140-184 | A raycast misses exactly when no candidate is hit; a hit lies strictly below the ray origin at the height of an accepted triangle, and no accepted triangle is higher. |
| Physics.ClampDt | src/afr/physics.py:210 | The time step is clamped to [0, 0.1]. |
| Physics.MaxStep | src/afr/physics.py:226 | `max_step` is at least 0.05 and at least half the radius. |
| Physics.SubstepCount | src/afr/physics.py:231-232 | The substep count lies in 1..8, is 1 without travel, and 8 when the travel exceeds eight steps. |
| Physics.SubstepBound | src/afr/physics.py:231-233 | When the travel fits in eight steps, each substep moves at most `max_step`, which is what keeps fast motion from tunnelling. |
| Physics.HorizontalVel | src/afr/physics.py:213-218 | The horizontal velocity is the normalised move direction times 4.5 (9 when sprinting) with no vertical part, or zero without input. |
| Physics.PushOut | src/afr/physics.py:253-268 | The sphere moves exactly when its centre is nearer than the radius to the closest point; it then lies on the contact normal at radius distance (straight up when degenerate), and the contact is ground exactly when the normal points mostly up. |
| Physics.PassUnmoved | src/afr/physics.py:248-270 | A pass in which nothing moved leaves the centre as it was and finds no ground. |
| Physics.ResolveFacts | src/afr/physics.py:246-270 | Resolution never clears the ground flag and leaves the sphere alone after a pass in which nothing moved. |
| Physics.RunPass | src/afr/physics.py:248-268 | One pass pushes the sphere out of each candidate in turn and raises `step_ground` on any ground contact. |
| Physics.ResolvePenetrations | src/afr/physics.py:246-270 | The resolution loop runs up to two passes, each over a fresh `query_sphere`, stopping after a pass in which nothing moved. |
| Physics.Drift | src/afr/physics.py:238-240 | A substep moves horizontally, applies gravity to the vertical speed, then moves vertically at the new speed. |
| Physics.SubstepFacts | src/afr/physics.py:236-277 | A substep keeps the horizontal velocity; its ground flag is the old flag or a ground contact found by this substep's own resolution passes; the vertical speed changes from its gravity-updated value exactly when such a contact meets a fall, and then it becomes 0. |
| Physics.SubstepFreeFlight | src/afr/physics.py:236-277 | With nothing in reach of the moved sphere a substep is free flight. |
| Physics.SubstepsFacts | src/afr/physics.py:236-277 | Over any number of substeps the horizontal velocity is kept, the ground flag never cleared, and the vertical speed never rises above its start or zero. |
| Physics.StepOnce | src/afr/physics.py:237-277 | The body of the substep loop computes `Substep`. |
| Physics.RunSubsteps | src/afr/physics.py:236-277 | The `for _step in range(n)` loop computes n substeps. |
| Physics.JumpStart | src/afr/physics.py:221-223 | Only a jump pressed while grounded sets the vertical speed to 7 and clears the ground flag. |
| Physics.FrameSubsteps | src/afr/physics.py:226-232 | A frame takes between 1 and 8 substeps. |
| Physics.StepBody | src/afr/physics.py:210-281 | The integrator computes `StepSpec`: the jump, then n equal substeps of the clamped time step. |
| Physics.AppState.constructor | src/afr/physics.py:194-204 | A new state has the defaults `step_mario_physics` falls back to. |
| Physics.AppState.StepMarioPhysics | src/afr/physics.py:187-281 | Without a collider or a position nothing changes; otherwise the jump press is consumed and the body is integrated by `StepSpec`, the other fields kept. |
| Physics.StepFacts | src/afr/physics.py:187-281 | A frame keeps the horizontal velocity, keeps the ground flag unless a jump was made, and the vertical speed never ends above its starting value (7 after a jump) or zero. |
| Clipping.InVolumePlanes | src/afr/rendering.py:100-111 | A clip-space point is inside the OpenGL volume -w <= x, y, z <= w exactly when all six plane functions are non-negative. |
| Clipping.DistLerp | src/afr/rendering.py:66-69 | Every plane function is linear along an edge, which is what makes t = prev_d / (prev_d - cur_d) the crossing. (Also models src/afr/rendering.py:105-110.) |
| Clipping.ClipPolyAgainstPlane | src/afr/rendering.py:44-95 | The loop of `_clip_poly_against_plane`, carrying `prev`, `prev_d` and `prev_in` from the last vertex, computes `ClipPoly`. |
| Clipping.ClipStep | src/afr/rendering.py:58-89 | One iteration adds the current vertex for in->in, the crossing for in->out, the crossing then the current vertex for out->in, and nothing for out->out, skipping a crossing when the distances are equal. |
| Clipping.ClipKeepsInside | src/afr/rendering.py:57-63 | A polygon wholly inside the plane is returned unchanged, vertex for vertex and in order. |
| Clipping.ClipDropsOutside | src/afr/rendering.py:49-50 | An empty polygon, or one wholly outside the plane, clips to nothing. (Also models src/afr/rendering.py:87-89.) |
| Clipping.CrossingOnPlane | src/afr/rendering.py:64-85 | An edge whose ends lie on opposite sides yields exactly one crossing, made at a parameter in [0, 1] and lying exactly on the plane. |
| Clipping.OppositeParameter | src/afr/rendering.py:66-68 | With the ends on opposite sides the denominator is non-zero and t lies in [0, 1]. |
| Clipping.CrossingZero | src/afr/rendering.py:68-69 | The crossing at t = pd / (pd - cd) has plane distance zero. |
| Clipping.EdgeVertices | src/afr/rendering.py:58-89 | Every vertex one edge contributes is inside the plane and is either the edge's current vertex or a crossing on the plane. |
| Clipping.ClipVertices | src/afr/rendering.py:44-95 | Every output vertex is inside the plane and is an input vertex or the crossing, at t in [0, 1], of some input edge. |
| Clipping.MadeInside | src/afr/rendering.py:69 | A crossing of two vertices inside another plane is inside that plane too. |
| Clipping.LerpInside | src/afr/rendering.py:69 | Interpolating two points inside a plane stays inside it. |
| Clipping.ClipPreserves | src/afr/rendering.py:113-115 | Clipping against one plane keeps the polygon inside every plane it was already inside. |
| Clipping.ClipKeepsUvs | src/afr/rendering.py:70-73 | When every input vertex carries a UV, so does every output vertex. (Also models src/afr/rendering.py:81-84.) |
| Clipping.ClippedStaysEmpty | src/afr/rendering.py:113-117 | Once the plane loop has emptied the polygon, every later stage is empty. |
| Clipping.ClipTriangleLoop | src/afr/rendering.py:98-118 | The six-plane loop of `_clip_triangle`, returning [] as soon as fewer than three vertices remain, computes `ClipTriangle`. |
| Clipping.ClippedInside | src/afr/rendering.py:113-118 | After the first i planes the polygon is empty or has at least three vertices, each inside those i planes. |
| Clipping.ClipTriangleInVolume | src/afr/rendering.py:98-118 | `_clip_triangle` returns [] or a polygon of at least three vertices, every one inside the clip volume. |
| Clipping.ClipTriangleVisible | src/afr/rendering.py:98-118 | A polygon of three or more vertices wholly inside the volume comes back unchanged. |
| Clipping.ClipTriangleUvs | src/afr/rendering.py:98-118 | With a UV on every input vertex, every vertex `_clip_triangle` returns has one. |
| Rendering.NdcToScreenCorners | src/afr/rendering.py:121-126 | The NDC corner (-1, 1) lands on pixel (0, 0) and (1, -1) on (w-1, h-1): y is flipped, depth untouched. |
| Rendering.NdcToScreenBounds | src/afr/rendering.py:121-126 | Depth passes through, and every point of the NDC square lands inside [0, w-1] x [0, h-1]. |
| Rendering.OrthoCorners | src/afr/rendering.py:129-134 | The surface-shaped view box maps onto the NDC cube: its near top-right corner to (1, 1, -1) and its far bottom-left corner to (-1, -1, 1), with aspect w/h, or 1 when h is 0. |
| Rendering.ShadeFlat | src/afr/rendering.py:137-145 | The loop over the lights computes `Shading`: the ambient level plus each light's colour times its clamped cosine and intensity, clamped to [0, 1e9]. |
| Rendering.ShadingAtLeastAmbient | src/afr/rendering.py:137-145 | With lights of non-negative colour and intensity, no channel of the shade falls below the ambient level. |
| Rendering.FlatColor | src/afr/rendering.py:251-252 | The flat colour is an 8-bit RGBA colour with alpha 255. |
| Rendering.BackFacingWinding | src/afr/rendering.py:219-228 | Flipping the winding convention and the vertex order together leaves the cull decision unchanged, and a zero-area triangle is culled under either convention. |
| Rendering.WorldVerts | src/afr/rendering.py:168 | One world-space vertex per model vertex. |
| Rendering.ClipVerts | src/afr/rendering.py:171 | One clip-space vertex per world vertex. |
| Rendering.ConcatMember | src/afr/rendering.py:177-253 | A kernel call is in the whole draw exactly when it is in some triangle's calls. |
| Rendering.FanKernelDrawn | src/afr/rendering.py:203-253 | A fan triangle is drawn exactly when no w is zero, it is not culled (both `BACKFACE_CULL` and the primitive's flag are needed to cull) and, when texturing, every vertex has a UV. |
| Rendering.FanMember | src/afr/rendering.py:202-207 | An n-vertex polygon gives at most n - 2 fan triangles (poly[0], poly[k], poly[k + 1]); a kernel call is in the fan exactly when it is the drawn kernel of one of them. |
| Rendering.ModelKernelsOk | src/afr/rendering.py:173-174 | Every kernel `draw_model` calls can run: a textured one samples a non-empty 8-bit image. (Also models src/afr/rendering.py:234-249.) |
| Rendering.TriKernelsOk | src/afr/rendering.py:177-253 | Every kernel one triangle is drawn with can run. |
| Rendering.TexturedPolyHasUvs | src/afr/rendering.py:178-189 | With texturing on, every clipped vertex has a UV, so the missing-UV skip never fires. (Also models src/afr/rendering.py:235-236.) |
| Rendering.RunAllDepths | src/afr/rendering.py:163-164 | Over any sequence of kernel calls the depth buffer keeps its size and no entry moves farther away. (Also models src/afr/rendering.py:238-253.) |
| Rendering.KernelOnScreen | src/afr/rendering.py:238-253 | Every plot one kernel makes lands on the surface. |
| Rendering.RunAllOnScreen | src/afr/rendering.py:177-253 | Every pixel a draw plots lies on the w x h surface. |
| Rendering.RunSnoc | src/afr/rendering.py:238-253 | Running one more kernel composes with the run before it. |
| Rendering.FanTriangle | src/afr/rendering.py:210-253 | The inner loop's tests and transforms compute the fan triangle's kernel call, or none. |
| Rendering.KernelShape | src/afr/rendering.py:234-253 | A drawn fan triangle calls the flat or the textured Z-buffered kernel, with a usable texture. |
| Rendering.RunKernel | src/afr/rendering.py:238-253 | Calling a kernel extends the draw by that kernel's plots and depth updates. |
| Rendering.DrawFanTriangle | src/afr/rendering.py:205-253 | One fan triangle draws its kernel call, or nothing when it is skipped. |
| Rendering.DrawFan | src/afr/rendering.py:202-253 | The fan loop draws the fan triangles of the clipped polygon in order. |
| Rendering.DrawFanStep | src/afr/rendering.py:204-253 | Fan triangle k extends the draw of the first k - 1 fan triangles by its kernel call. |
| Rendering.DrawTriangle | src/afr/rendering.py:177-253 | One mesh triangle is clipped, skipped when fewer than three vertices remain, shaded (lit at the centroid, or white without a scene) and fan-drawn. |
| Rendering.DrawTriangles | src/afr/rendering.py:177-253 | The triangle loop draws each triangle's kernel calls, in index order. |
| Rendering.DrawTriangleStep | src/afr/rendering.py:177-253 | Triangle i extends the draw of the first i triangles by its own kernel calls. |
| Rendering.DrawModel | src/afr/rendering.py:148-253 | `draw_model` leaves the sink, surface and depth buffer exactly as running the kernels of every triangle, in order, from their old state. |
| Rendering.DrawModelFresh | src/afr/rendering.py:163-164 | Without a depth buffer, a fresh one of infinities is used, and the surface is what replaying those kernels' plots leaves. |
| Rendering.DrawPrimitive | src/afr/rendering.py:256-277 | `draw_primitive` draws the mesh with `world_mat @ local_to_world` and the primitive's culling flags. |
| Rendering.DefaultPrimitiveContext | src/afr/scene.py:30-40 | A primitive with the default fields draws with the world matrix alone, culling counter-clockwise back faces. (Also models src/afr/rendering.py:266-277.) |
| Raster.EdgeSum | src/afr/primitives.py:78-92 | The three edge values of any point add up to the triangle's signed area. |
| Raster.EdgeReversed | src/afr/primitives.py:78-79 | Reversing an edge negates its edge function. |
| Raster.CoversSwap | src/afr/primitives.py:81-97 | A non-degenerate triangle covers the same pixel centres in either winding. |
| Raster.AreaSwapped | src/afr/primitives.py:82 | Swapping two corners negates the signed area. |
| Raster.Weights | src/afr/primitives.py:130 | The barycentric weights sum to 1. (Also models src/afr/primitives.py:149-152.) |
| Raster.WeightsNonNegative | src/afr/primitives.py:141-152 | On a covered pixel centre no barycentric weight is negative, whatever the winding. |
| Raster.DepthAt | src/afr/primitives.py:153 | A triangle of constant depth interpolates that depth everywhere. |
| Raster.DepthBetweenVertices | src/afr/primitives.py:137-153 | On a covered pixel the interpolated depth lies between the nearest and the farthest corner depth. |
| Raster.BlendOver | src/afr/primitives.py:258-265 | Source-over compositing of two 8-bit colours is an 8-bit colour. |
| Raster.OverChannel | src/afr/primitives.py:259-263 | `int(s * sa + d * (1 - sa))` of two channel values stays a channel value for sa in [0, 1]. |
| Raster.OverAlpha | src/afr/primitives.py:264 | The composited alpha `int(a + da * (1 - a/255))` stays in 0..255. |
| Raster.AlphaOver | src/afr/primitives.py:264 | `a + da * (1 - a/255)` lies in [0, 255] for a and da in [0, 255]. |
| Raster.Apply | src/afr/primitives.py:254 | Plotting one event keeps the surface well formed and its size unchanged. (Also models src/afr/primitives.py:258-265.) |
| Raster.Replay | src/afr/primitives.py:86-100 | Plotting a sequence of events keeps the surface well formed and its size unchanged. |
| Raster.ReplayAppend | src/afr/primitives.py:86-100 | Plotting two event lists one after the other is plotting their concatenation. |
| Raster.ReplaySnoc | src/afr/primitives.py:100 | Plotting one more event applies it last. |
| Raster.BBox | src/afr/primitives.py:70-73 | The floor/ceil bounding box is clamped to the surface's pixels. |
| Raster.Reconstruct | src/afr/primitives.py:90-92 | The edge values, weighting the corners, reconstruct the sample point times the area. (Also models src/afr/primitives.py:149-153.) |
| Raster.Convex | src/afr/primitives.py:153 | An average with non-negative weights summing to 1 lies between the smallest and the largest value. |
| Raster.CoveredInBox | src/afr/primitives.py:70-99 | Any on-screen pixel whose centre the triangle covers is inside the clamped box, so the box scan misses no covered pixel. |
| Raster.TexCoord | src/afr/primitives.py:242-243 | `int(u * (tw - 1))` of a clamped u is a valid texel column. |
| Raster.ShadeChannel | src/afr/primitives.py:195-200 | `min(255, int(ch * shade))` with the shade clamped at 0 is a channel value, and 0 for a non-positive shade. (Also models src/afr/primitives.py:248-250.) |
| Raster.Writes | src/afr/primitives.py:153-157 | A Z-buffered kernel only stores a depth strictly closer than the stored one; the plain fill stores none. (Also models src/afr/primitives.py:223-227.) |
| Raster.Texel | src/afr/primitives.py:229-244 | The texel sampled at the clamped UV is an 8-bit colour. |
| Raster.Shaded | src/afr/primitives.py:248-250 | The shaded texel is an 8-bit colour keeping the texel's alpha. (Also models src/afr/primitives.py:254.) |
| Raster.Emit | src/afr/primitives.py:99-100 | A kernel plots at most one event per pixel, at that pixel. (Also models src/afr/primitives.py:156-158, src/afr/primitives.py:225-265.) |
| Raster.KernelSound | src/afr/primitives.py:86-265 | Every kernel's pixel rule stores only strictly closer depths and plots at most its own pixel. |
| Raster.ScanRowNext | src/afr/primitives.py:88 | The next pixel of a row is one more step of the inner loop. (Also models src/afr/primitives.py:135, src/afr/primitives.py:205.) |
| Raster.ScanNext | src/afr/primitives.py:86 | The next row is one more iteration of the outer loop. (Also models src/afr/primitives.py:132, src/afr/primitives.py:202.) |
| Raster.Expected | src/afr/primitives.py:132-157 | The expected buffer has the buffer's size. |
| Raster.StepInvariant | src/afr/primitives.py:155-157 | One pixel step reads the original depth of its pixel and moves the expected buffer one pixel on. |
| Raster.ScanRowInvariant | src/afr/primitives.py:135-157 | Scanning part of a row keeps the buffer as expected and appends that part's plots in order. |
| Raster.ScanBox | src/afr/primitives.py:132-157 | The whole box scanned: each entry inside the box is its final depth, outside it unchanged, and the plots are the row-major decisions. |
| Raster.ScanInvariant | src/afr/primitives.py:132-157 | Scanning the rows up to yEnd leaves the expected buffer and the row-major plots of those rows. |
| Raster.RowOn | src/afr/primitives.py:132-157 | Scanning row y carries the invariant from the start of row y to the start of row y + 1. |
| Raster.RasterizeOrder | src/afr/primitives.py:103-265 | Since every pixel is visited once, the sequential scan equals the row-major list of per-pixel decisions against the ORIGINAL depth buffer, and nothing outside the box changes. |
| Raster.FinalNoFarther | src/afr/primitives.py:156-157 | A sound rule never moves a depth entry farther away. |
| Raster.Nearer | src/afr/primitives.py:156-157 | Storing a closer depth leaves the nearer of the old entry and the new depth. |
| Raster.RasterizeDepths | src/afr/primitives.py:103-265 | A kernel call keeps the buffer's size, never makes an entry farther, changes nothing outside the box, changes an entry only to the strictly closer depth it chose, leaves the buffer alone for the plain fill, and leaves a covered pixel at the nearer of old and interpolated depth. |
| Raster.SoundAt | src/afr/primitives.py:99-100 | A sound rule's plots at a pixel are located at that pixel. |
| Raster.ExtendRow | src/afr/primitives.py:88-100 | Appending pixel x's plot keeps a row's plots on the row and left to right. |
| Raster.ExtendRows | src/afr/primitives.py:86-100 | Appending a row's plots keeps all plots in the box and in row-major order. |
| Raster.OrderRowAt | src/afr/primitives.py:88-100 | A row's plots lie on that row within its columns, strictly left to right. |
| Raster.OrderedInBox | src/afr/primitives.py:86-100 | The scan's plots lie in the box in strictly increasing row-major order. |
| Raster.RasterizeOnScreen | src/afr/primitives.py:65-265 | Every pixel a kernel plots lies in its clamped box, hence on the surface, none is plotted twice, and an empty box or a degenerate triangle plots nothing and leaves the buffer alone. |
| Primitives.TriangleFilled | src/afr/primitives.py:65-100 | `triangle_filled` plots exactly the events of the plain fill kernel, in scan order, and keeps the surface's size. |
| Primitives.FilledScan | src/afr/primitives.py:86-100 | The row loop of `triangle_filled` plots the scan of the whole box. |
| Primitives.FilledRow | src/afr/primitives.py:88-100 | One row of `triangle_filled` plots that row's scan. |
| Primitives.FilledPixel | src/afr/primitives.py:89-100 | One pixel of `triangle_filled` is one step of the scan. |
| Primitives.FlatDecision | src/afr/primitives.py:90-100 | The inline edge tests of `triangle_filled` are the plain fill kernel's per-pixel rule. |
| Primitives.TriangleFilledZ | src/afr/primitives.py:103-158 | `triangle_filled_z` leaves the depth array and the sink exactly as rasterizing its kernel from their old values does. |
| Primitives.TriangleTexturedZ | src/afr/primitives.py:161-265 | `triangle_textured_z` leaves the depth array and the sink exactly as rasterizing its kernel from their old values does, blending only when the sink plots immediately. |
| Primitives.ZScan | src/afr/primitives.py:132-158 | The row loop shared by the Z-buffered kernels computes the scan of the box over the live depth array. (Also models src/afr/primitives.py:202-265.) |
| Primitives.ZRow | src/afr/primitives.py:133-135 | One row, with `row = y * w`, computes that row's scan. (Also models src/afr/primitives.py:203-205.) |
| Primitives.ZCols | src/afr/primitives.py:135-158 | The column loop carries the row's scan from min_x to max_x. (Also models src/afr/primitives.py:205-265.) |
| Primitives.ZCell | src/afr/primitives.py:135-158 | One column of the row is one more pixel of the row's scan. |
| Primitives.ZPixel | src/afr/primitives.py:136-158 | One pixel of either Z-buffered kernel is one step of the scan. (Also models src/afr/primitives.py:206-265.) |
| Primitives.FlatZPixel | src/afr/primitives.py:136-158 | The body of `triangle_filled_z`'s pixel loop is one step of its kernel's scan. |
| Primitives.DepthTest | src/afr/primitives.py:137-157 | The inside test, the interpolated z and `z < zbuf[idx]` decide exactly the depth the kernel writes. (Also models src/afr/primitives.py:207-227.) |
| Primitives.InsideAndWeights | src/afr/primitives.py:137-152 | The inline edge tests compute coverage, and `w_i * inv_area` the barycentric weights. (Also models src/afr/primitives.py:207-221.) |
| Primitives.ZDecision | src/afr/primitives.py:141-157 | The inline inside test and depth compare are the Z-buffered kernels' write rule. |
| Primitives.ZRule | src/afr/primitives.py:141-158 | A Z-buffered kernel's per-pixel rule is its write rule and its plot rule. |
| Primitives.TexturedPixel | src/afr/primitives.py:206-265 | The body of `triangle_textured_z`'s pixel loop is one step of its kernel's scan. |
| Primitives.TexturedPlot | src/afr/primitives.py:229-265 | After the depth write: the clamped UV lookup, the alpha-0 skip, shading, then a plain plot when deferred or opaque, else a source-over blend. |
| Primitives.Point | src/afr/primitives.py:7-12 | `point` plots one white entry at pos. |
| Primitives.Line | src/afr/primitives.py:15-32 | `line` plots the DDA walk from a towards b: one white point when the step count is 0, else n + 1 points in colour c. |
| Primitives.LineWalk | src/afr/primitives.py:24-32 | The `for` loop plots the n + 1 points, each a step (dx, dy) further on. |
| Primitives.RLine | src/afr/primitives.py:35-47 | `rline` plots the same white entries as the older layer's recursive midpoint line. |
| Primitives.TriangleFilledScanline | src/afr/primitives.py:268-314 | `triangle_filled_scanline` plots exactly the entries of `ScanlinePoints`, in row order. |
| Primitives.ScanlineRows | src/afr/primitives.py:297-314 | The row loop plots the span of every row from y_start to y_end. |
| Primitives.ScanlineRow | src/afr/primitives.py:298-314 | One row plots its clamped span at the pixel centre, left to right. |
| Primitives.SpanWalk | src/afr/primitives.py:311-314 | The column loop plots the pixels x_start to x_end of the row. |
| Primitives.PlotCells | src/afr/primitives.py:348-352 | The nested offset loops plot the grid of their cells' entries, row by row. (Also models src/afr/primitives.py:357-362, src/afr/primitives.py:379-383.) |
| Primitives.PlotCellRows | src/afr/primitives.py:348-352 | The outer loop plots the rows y0 until y1. |
| Primitives.PlotCellRow | src/afr/primitives.py:349-352 | The inner loop plots row y's cells x0 until x1. |
| Primitives.PlotCell | src/afr/primitives.py:351-352 | One pass of the cell loop plots that cell's entry when its test holds. |
| Primitives.PlotHit | src/afr/primitives.py:351-352 | The loop body plots its entry exactly when the test passed. |
| Primitives.CircleFillRaster | src/afr/primitives.py:346-352 | `circle_fill_raster` plots exactly `CircleFillPoints`. |
| Primitives.CircleRasterLines | src/afr/primitives.py:356-362 | `circle_raster_lines` plots exactly `CircleLinesPoints`, the band test over the loop square [-r, r]. |
| Primitives.Shader | src/afr/primitives.py:376-383 | `shader` plots every surface pixel its function colours, in that colour, row by row. |
| Primitives.CircleShader | src/afr/primitives.py:365-373 | `circle_shader` is the shader with the disc test `c_shader`. |
| Shapes.LineSteps | src/afr/primitives.py:19 | The step count is the integer part of the larger axis distance. (Also models gra/primitives.py:19.) |
| Shapes.LinePoints | src/afr/primitives.py:19-32 | A line has one more point than its step count. |
| Shapes.LineOnSegment | src/afr/primitives.py:15-32 | A zero-step line is the single white point a; otherwise the k-th point is the point k/n of the way from a to b, so the line starts at a and ends at b. |
| Shapes.LinePointAt | src/afr/primitives.py:29-32 | The k-th plotted point is the interpolation of a and b at k/n. |
| Shapes.StepIsLerp | src/afr/primitives.py:24-32 | k steps of (xd, yd)/n from a reach the interpolation at k/n. |
| Shapes.NextStep | src/afr/primitives.py:31-32 | `px += dx` after i increments is i + 1 increments. |
| Shapes.LineSpacing | src/afr/primitives.py:19-32 | Consecutive points are less than two pixels apart on each axis and at least one pixel apart on the major axis, so the line has no gaps. |
| Shapes.GridRowMember | src/afr/primitives.py:349-352 | A row plots an entry exactly when one of its cells does. |
| Shapes.GridMember | src/afr/primitives.py:348-352 | The grid plots an entry exactly when one of its cells does. |
| Shapes.GridRowOrdered | src/afr/primitives.py:349-352 | A row of located cells plots on its own row, within its columns, strictly left to right. |
| Shapes.GridOrdered | src/afr/primitives.py:348-352 | The grid's plots come in strictly increasing row-major order, so no pixel is plotted twice. |
| Shapes.RowsThenRow | src/afr/primitives.py:348-352 | Ordered rows followed by one ordered row below them stay ordered. |
| Shapes.GridRowQuiet | src/afr/primitives.py:349-352 | Cells that plot nothing leave a row as it was. |
| Shapes.SortByY | src/afr/primitives.py:283 | The sort is by y and a permutation of the three vertices. |
| Shapes.XAtYOnEdge | src/afr/primitives.py:285-290 | `x_at_y` gives p0.x at p0's height and p1.x at p1's, and stays between them in between. |
| Shapes.Span | src/afr/primitives.py:299-309 | A row's span is ordered left to right. |
| Shapes.ScanlineMember | src/afr/primitives.py:268-314 | The scanline fill plots pixel (x, y) exactly when the triangle is not degenerate and the pixel lies on the surface, between the top and bottom vertex rows, on its row's span. |
| Shapes.SpanCellMember | src/afr/primitives.py:311-314 | Inside the row range a cell plots exactly its own pixel when it is on the span. |
| Shapes.CoveredRow | src/afr/primitives.py:292-297 | A pixel on a span lies in the fill's row range. |
| Shapes.ScanlineOrdered | src/afr/primitives.py:297-314 | The scanline fill plots each pixel at most once, in row-major order, within rows 0 to h - 1. |
| Shapes.SquareBound | src/afr/primitives.py:348-351 | x*x <= r*r only when -r <= x <= r. |
| Shapes.CircleFillMember | src/afr/primitives.py:346-352 | `circle_fill_raster` plots exactly the offsets of the disc's lattice points in colour c: the square loop cuts nothing off, and a negative radius plots nothing. (Also models gra/primitives.py:94-100.) |
| Shapes.OffsetFloor | src/afr/primitives.py:352 | An offset's plot lands on the centre's pixel shifted by the offset. |
| Shapes.CircleFillOrdered | src/afr/primitives.py:348-352 | `circle_fill_raster` plots row by row, left to right, never twice on one pixel. |
| Shapes.CircleLinesClipsBand | src/afr/primitives.py:356-362 | As written, offset (3, 0) passes the band test for r = 2, w = 1 but is not plotted: the loop square [-r, r] cuts off the band's outer half. (Also models gra/primitives.py:104-110.) |
| Shapes.IAbs | src/afr/primitives.py:359-361 | The absolute value is n or -n. |
| Shapes.CircleBandMember | src/afr/primitives.py:356-362 | With the loop square widened to the band's outer radius, exactly the offsets of the band are plotted. (Also models gra/primitives.py:104-110.) |
| Shapes.BandInReach | src/afr/primitives.py:359-361 | Every offset of the band lies within |r| + |w| on both axes. |
| Shapes.ShaderMember | src/afr/primitives.py:376-383 | The shader plots exactly the surface pixels its function colours, in that colour. |
| Shapes.ShaderOrdered | src/afr/primitives.py:379-383 | The shader plots row by row, left to right, each pixel once. |
| Shapes.ShaderPixels | gra/primitives.py:124-131 | After the older layer's `shader`, each pixel its function colours has that colour and every other pixel is unchanged. |
| Shapes.ShadedRows | gra/primitives.py:127-131 | After rows 0 until y, exactly the coloured pixels of those rows have changed. |
| Shapes.ShadedRow | gra/primitives.py:128-131 | After columns 0 until x of row y, exactly those coloured pixels of the row have changed. |
| Shapes.CircleShaderMember | src/afr/primitives.py:365-373 | `circle_shader` plots exactly the surface pixels within distance r of p. (Also models gra/primitives.py:113-121.) |
| Gra.HalvesShrink | gra/primitives.py:39-47 | Both halves of a segment longer than one pixel are strictly shorter, so `rline` terminates. |
| Gra.HalfCeil | gra/primitives.py:44 | Above one, halving lowers the ceiling. |
| Gra.RLineEnds | gra/primitives.py:35-47 | The recursive line reaches both endpoints. |
| Gra.RLineInBox | gra/primitives.py:35-47 | Every entry of the recursive line is white and lies in the box spanned by its endpoints. |
| Gra.RectCorners | gra/primitives.py:50-56 | The rectangle plots its two given corners, and all four once a side is at least a pixel long. |
| Gra.LineStart | gra/primitives.py:15-33 | A white line always plots its first endpoint. |
| Gra.LineEnd | gra/primitives.py:15-33 | A line of at least one step plots its second endpoint. |
| Gra.TriangleCorners | gra/primitives.py:59-62 | The outline plots a and b, and c unless both sides reaching c are shorter than a pixel, and only entries of its three sides. |
| Gra.ChainMember | gra/primitives.py:70-71 | An entry of the open chain is exactly an entry of one of its segments. |
| Gra.LinesMember | gra/primitives.py:65-73 | `lines` plots nothing for fewer than two points, else exactly the entries of its consecutive segments and the closing segment from the first point to the last. |
| Gra.LinesVertices | gra/primitives.py:65-73 | Every vertex but the last is plotted, and the last once the closing segment is at least a pixel long. |
| Gra.PointList.constructor | gra/primitives.py:3 | The global `POINTS` list starts empty. |
| Gra.PointList.Point | gra/primitives.py:6-8 | `point` appends pos in white. |
| Gra.PointList.CPoint | gra/primitives.py:11-12 | `cpoint` appends pos in colour c. |
| Gra.PointList.Line | gra/primitives.py:15-33 | `line` appends exactly the DDA walk's entries, in white. |
| Gra.PointList.LineWalk | gra/primitives.py:24-33 | The `for` loop appends the n + 1 points, each a step further on. |
| Gra.PointList.RLine | gra/primitives.py:35-47 | `rline` appends exactly the recursive midpoint line's entries. |
| Gra.PointList.Rect | gra/primitives.py:50-56 | `rect` appends the four sides' entries in order. |
| Gra.PointList.Triangle | gra/primitives.py:59-62 | `triangle` appends lines a-b, b-c and a-c in order. |
| Gra.PointList.Lines | gra/primitives.py:65-73 | `lines` appends the closed polyline's entries. |
| Gra.PointList.Polygon | gra/primitives.py:76-77 | `polygon` appends the closed polyline's entries. |
| Gra.PointList.LinesChain | gra/primitives.py:70-71 | The `for` loop appends the consecutive segments in order. |
| Gra.PointList.AppendCells | gra/primitives.py:96-100 | The nested offset loops append the grid of their cells' entries. (Also models gra/primitives.py:105-110.) |
| Gra.PointList.AppendRow | gra/primitives.py:97-100 | The inner loop appends row y's cell entries. |
| Gra.PointList.CircleFillRaster | gra/primitives.py:94-100 | `circle_fill_raster` appends exactly `CircleFillPoints`. |
| Gra.PointList.CircleRasterLines | gra/primitives.py:104-110 | `circle_raster_lines` appends exactly `CircleLinesPoints`. |
| Gra.Shader | gra/primitives.py:124-131 | `shader` writes the surface as blitting the shader's entries does, leaving `POINTS` alone. |
| Gra.ShadeRow | gra/primitives.py:128-131 | One row of `shader` blits that row's entries. |
| Gra.CircleShader | gra/primitives.py:113-121 | `circle_shader` is the shader with the disc test `c_shader`. |

## Left out

- Floating point: every float is an exact `real`. There is no rounding, no NaN and no infinity, except the depth buffer's `float("inf")`.
- The DDA line's accumulation `px += dx` is exact, so the last point equals b. In IEEE arithmetic it can drift.
- `math.sqrt`, `Vec3.norm` and `Vec2.mag` are function-valued parameters. The physics model assumes only that a positive argument has a positive root.
- The linear algebra package is not part of this model. `Util` and `LinAlg` define real-valued Vec2, Vec3 and Vec4 and a row-major Mat4 in the textbook way. `Mat4 @ Vec3` is the affine product with w = 1.
- All file and image I/O, the JSON parser, base64 and binary buffer loading are left out. The loaders take the file text, the decoded JSON document, the byte buffers, an abstract `exists`/`read_text`, and an image loader as parameters.
- The global image cache of `tex_for_material` is left out; an image is identified by its index.
- `float()` text parsing is an abstract `Text.NumFn` parameter, and `_fmt_num` is an abstract `AfrFormat.FmtFn` parameter.
- Text.ParseInt: accepts an optional sign followed by ASCII digits. It is only applied to tokens from `split`, which contain no whitespace. Python's `int()` also accepts `_` separators and non-ASCII digits; these are not modelled.
- Text.LowerAscii: lowercases ASCII letters only. `str.lower` folds all of Unicode.
- The paths `p.parent` and `Path` joining are plain string concatenation. An MTL or texture name with directory parts is not resolved the way `pathlib` would.
- Mtl.LoadMtl: the current material and its dictionary entry are one object in Python. The model updates both by value, so later aliasing of the returned dictionary is not captured.
- Obj.LoadObj: the `groups` dictionary and its per-group lists are values threaded through the loop, not shared objects.
- Gltf.ReadAccessor: FLOAT components (componentType 5126) are decoded by an abstract `FloatFn` parameter, which is a stand-in for `struct.unpack`.
- Gltf.LoadGltfScene: the recursion over child nodes carries a `fuel` bound that stands for Python's recursion limit. The exact depth at which RecursionError is raised is not modelled.
- Gltf.LoadGltfScene: JSON values of the wrong type (a string in place of a number, say) are not modelled. The document shape is typed, and fields the source reads with `[...]` are required fields.
- Gltf.LoadGltfScene: the shared `prims` list that `visit` appends to is accumulated by value.
- Gltf: the face UVs are shown to match their faces when they are inserted. Later reorderings are not tracked.
- AfrFormat.ReadLines: generic over the per-line step it is given, so its contract is stated in terms of `Run`.
- Rendering.DrawModel: requires every triangle index to be in range (`MeshOk`). Python would also accept negative indices, counting from the end of the list.
- Rendering.DrawModel: when the textured path is taken (a base-colour texture and UVs), it requires the texture to be at least 1x1. Sampling a 0x0 image would make pygame raise, and that error is not modelled. `DrawModelFresh` and `DrawPrimitive` require the same.
- Physics.AppState.constructor: `getattr(..., default)` in `step_mario_physics` is modelled by initialising the fields to those defaults.
- In src/afr/primitives.py, `rect`, `triangle`, `lines`, `polygon`, `regular_polygon` and `circle` call `line` without its colour argument. They raise TypeError on the first segment they draw, so they are not modelled.
- `line_shader` in both drawing layers is not modelled: it needs `norm` and `mag`.
- `regular_polygon` and `circle` in gra/primitives.py are not modelled: they need sin and cos.
- The pygame window, event loop and per-frame scene assembly (`main.py`, `cli.py`, `input.py`, `draw.py`) are outside the modelled core.

## Findings

| source | as written | input that shows it | evidently intended | confidence | as-written member | corrected member |
|---|---|---|---|---|---|---|
| src/afr/primitives.py:356-362 | `circle_raster_lines` (and its copy at gra/primitives.py:104-110) loops x and y over [-r, r] only, but its band test admits radii up to r + w, so the outer half of the band is never drawn | r = 2, w = 1: offset (3, 0) passes the band test (9 lies between 1 and 9) and is not plotted | every offset with (r - w)^2 <= x^2 + y^2 <= (r + w)^2 is plotted, as the comment above the function says | not executed | Shapes.CircleLinesClipsBand | Shapes.CircleBandMember |
