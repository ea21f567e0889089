/** The plain data shapes shared by the loaders, the renderer and the
    collider: meshes, materials, primitives and scenes, plus the RGBA colour
    and the read-only image that stands in for a texture surface. */
module Scene {
  import opened Util
  import opened LinAlg

  /** An 8-bit-per-channel RGBA colour as pygame hands it out. */
  datatype Color = Color(r: int, g: int, b: int, a: int)

  predicate ChannelOk(c: int) { 0 <= c <= 255 }
  predicate ColorOk(c: Color) { ChannelOk(c.r) && ChannelOk(c.g) && ChannelOk(c.b) && ChannelOk(c.a) }

  const White := Color(255, 255, 255, 255)

  /** The position of pixel (x, y). */
  function Pixel(x: int, y: int): Vec2 {
    Vec2(x as real, y as real)
  }

  /** A read-only pixel grid (a loaded texture image), one row per y. */
  datatype Image = Image(width: nat, height: nat, rows: seq<seq<Color>>) {
    predicate Valid() {
      |rows| == height && forall y :: 0 <= y < |rows| ==> |rows[y]| == width
    }
    /** `surface.get_at((x, y))`. */
    function GetAt(x: int, y: int): Color
      requires Valid() && 0 <= x < width && 0 <= y < height
    {
      rows[y][x]
    }
  }

  /** A well-formed image whose every pixel is an 8-bit RGBA colour. */
  predicate ImageOk(img: Image) {
    img.Valid() && forall x, y :: 0 <= x < img.width && 0 <= y < img.height ==> ColorOk(img.GetAt(x, y))
  }

  datatype Texture = Texture(surface: Image)

  /** `Material(name, base_color=(1,1,1), base_color_tex=None)`. */
  datatype Material = Material(name: string, baseColor: Vec3, baseColorTex: Option<Texture>)

  function DefaultMaterial(name: string): Material {
    Material(name, Vec3(1.0, 1.0, 1.0), None)
  }

  datatype Tri = Tri(i1: int, i2: int, i3: int)

  /** A triangle list over shared per-vertex positions and optional UVs. */
  datatype Mesh = Mesh(positions: seq<Vec3>, uvs: Option<seq<Vec2>>, indices: seq<Tri>)

  predicate IndexOk(i: int, n: int) { 0 <= i < n }

  /** Every index names a position; UVs, when present, are one per position. */
  predicate MeshOk(m: Mesh) {
    (forall t :: t in m.indices ==>
       IndexOk(t.i1, |m.positions|) && IndexOk(t.i2, |m.positions|) && IndexOk(t.i3, |m.positions|))
    && (m.uvs.Some? ==> |m.uvs.value| == |m.positions|)
  }

  /** `Primitive(mesh, material, local_to_world=identity, cull_backfaces=True, front_face_ccw=True)`. */
  datatype Primitive = Primitive(mesh: Mesh, material: Material, localToWorld: Mat4,
                                 cullBackfaces: bool, frontFaceCcw: bool)

  function MakePrimitive(mesh: Mesh, material: Material): Primitive
  {
    Primitive(mesh, material, Identity(), true, true)
  }

  datatype SceneData = SceneData(primitives: seq<Primitive>)
}
