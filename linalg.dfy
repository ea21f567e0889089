/** Real-valued vectors and a row-major 4x4 matrix: the parts of the
    renderer's linear-algebra kernel that the modelled code relies on.
    The kernel's own source is not part of this model, so `@`, `translate`
    and `scale` are given their usual textbook definitions here. */
module LinAlg {

  datatype Vec2 = Vec2(x: real, y: real)
  datatype Vec3 = Vec3(x: real, y: real, z: real)
  datatype Vec4 = Vec4(x: real, y: real, z: real, w: real)

  function Add2(a: Vec2, b: Vec2): Vec2 { Vec2(a.x + b.x, a.y + b.y) }
  function Sub2(a: Vec2, b: Vec2): Vec2 { Vec2(a.x - b.x, a.y - b.y) }
  function Scale2(a: Vec2, s: real): Vec2 { Vec2(a.x * s, a.y * s) }

  /** The scalar 2D cross product `a.x*b.y - a.y*b.x`. */
  function Cross2(a: Vec2, b: Vec2): real { a.x * b.y - a.y * b.x }

  function Add3(a: Vec3, b: Vec3): Vec3 { Vec3(a.x + b.x, a.y + b.y, a.z + b.z) }
  function Sub3(a: Vec3, b: Vec3): Vec3 { Vec3(a.x - b.x, a.y - b.y, a.z - b.z) }
  function Scale3(a: Vec3, s: real): Vec3 { Vec3(a.x * s, a.y * s, a.z * s) }
  /** Component-wise product (`Vec3 * Vec3`). */
  function Mul3(a: Vec3, b: Vec3): Vec3 { Vec3(a.x * b.x, a.y * b.y, a.z * b.z) }
  function Dot3(a: Vec3, b: Vec3): real { a.x * b.x + a.y * b.y + a.z * b.z }
  function Cross3(a: Vec3, b: Vec3): Vec3 {
    Vec3(a.y * b.z - a.z * b.y, a.z * b.x - a.x * b.z, a.x * b.y - a.y * b.x)
  }
  function Splat3(s: real): Vec3 { Vec3(s, s, s) }

  function ClampR(x: real, lo: real, hi: real): (r: real)
    requires lo <= hi
    ensures lo <= r <= hi
    ensures lo <= x <= hi ==> r == x
  {
    if x < lo then lo else if x > hi then hi else x
  }

  /** `Vec3.clamp(lo, hi)`, component-wise. */
  function Clamp3(v: Vec3, lo: real, hi: real): (r: Vec3)
    requires lo <= hi
    ensures lo <= r.x <= hi && lo <= r.y <= hi && lo <= r.z <= hi
  {
    Vec3(ClampR(v.x, lo, hi), ClampR(v.y, lo, hi), ClampR(v.z, lo, hi))
  }

  function Add4(a: Vec4, b: Vec4): Vec4 { Vec4(a.x + b.x, a.y + b.y, a.z + b.z, a.w + b.w) }
  function Sub4(a: Vec4, b: Vec4): Vec4 { Vec4(a.x - b.x, a.y - b.y, a.z - b.z, a.w - b.w) }
  function Scale4(a: Vec4, s: real): Vec4 { Vec4(a.x * s, a.y * s, a.z * s, a.w * s) }
  function Dot4(a: Vec4, b: Vec4): real { a.x * b.x + a.y * b.y + a.z * b.z + a.w * b.w }

  /** `a + (b - a) * t`, the linear interpolation used by the clipper. */
  function Lerp4(a: Vec4, b: Vec4, t: real): Vec4 { Add4(a, Scale4(Sub4(b, a), t)) }
  function Lerp2(a: Vec2, b: Vec2, t: real): Vec2 { Add2(a, Scale2(Sub2(b, a), t)) }

  /** Row-major 4x4 matrix, one Vec4 per row. */
  datatype Mat4 = Mat4(r0: Vec4, r1: Vec4, r2: Vec4, r3: Vec4)

  function Row(m: Mat4, i: nat): Vec4
    requires i < 4
  {
    if i == 0 then m.r0 else if i == 1 then m.r1 else if i == 2 then m.r2 else m.r3
  }

  function Comp(v: Vec4, j: nat): real
    requires j < 4
  {
    if j == 0 then v.x else if j == 1 then v.y else if j == 2 then v.z else v.w
  }

  /** Entry (row i, column j). */
  function Entry(m: Mat4, i: nat, j: nat): real
    requires i < 4 && j < 4
  {
    Comp(Row(m, i), j)
  }

  function Col(m: Mat4, j: nat): Vec4
    requires j < 4
  {
    Vec4(Comp(m.r0, j), Comp(m.r1, j), Comp(m.r2, j), Comp(m.r3, j))
  }

  /** Builds a matrix from 16 numbers listed row by row (`Mat4([...])`). */
  function FromRowMajor(s: seq<real>): (m: Mat4)
    requires |s| == 16
    ensures forall i, j :: 0 <= i < 4 && 0 <= j < 4 ==> Entry(m, i, j) == s[4 * i + j]
  {
    Mat4(Vec4(s[0], s[1], s[2], s[3]), Vec4(s[4], s[5], s[6], s[7]),
         Vec4(s[8], s[9], s[10], s[11]), Vec4(s[12], s[13], s[14], s[15]))
  }

  function Identity(): Mat4 {
    Mat4(Vec4(1.0, 0.0, 0.0, 0.0), Vec4(0.0, 1.0, 0.0, 0.0),
         Vec4(0.0, 0.0, 1.0, 0.0), Vec4(0.0, 0.0, 0.0, 1.0))
  }

  function MulRow(r: Vec4, b: Mat4): Vec4 {
    Vec4(Dot4(r, Col(b, 0)), Dot4(r, Col(b, 1)), Dot4(r, Col(b, 2)), Dot4(r, Col(b, 3)))
  }

  /** Matrix product `a @ b`. */
  function MatMul(a: Mat4, b: Mat4): Mat4 {
    Mat4(MulRow(a.r0, b), MulRow(a.r1, b), MulRow(a.r2, b), MulRow(a.r3, b))
  }

  /** `Mat4.translate(tx, ty, tz)`. */
  function Translate(tx: real, ty: real, tz: real): Mat4 {
    Mat4(Vec4(1.0, 0.0, 0.0, tx), Vec4(0.0, 1.0, 0.0, ty),
         Vec4(0.0, 0.0, 1.0, tz), Vec4(0.0, 0.0, 0.0, 1.0))
  }

  /** `Mat4.scale(sx, sy, sz)`. */
  function ScaleMat(sx: real, sy: real, sz: real): Mat4 {
    Mat4(Vec4(sx, 0.0, 0.0, 0.0), Vec4(0.0, sy, 0.0, 0.0),
         Vec4(0.0, 0.0, sz, 0.0), Vec4(0.0, 0.0, 0.0, 1.0))
  }

  /** `Mat4.ortho(l, r, b, t, n, f)` in the OpenGL convention (view space looks down -Z). */
  function Ortho(l: real, r: real, b: real, t: real, n: real, f: real): Mat4
    requires r != l && t != b && f != n
  {
    Mat4(Vec4(2.0 / (r - l), 0.0, 0.0, -(r + l) / (r - l)),
         Vec4(0.0, 2.0 / (t - b), 0.0, -(t + b) / (t - b)),
         Vec4(0.0, 0.0, -2.0 / (f - n), -(f + n) / (f - n)),
         Vec4(0.0, 0.0, 0.0, 1.0))
  }

  /** `m @ v` for a 4-vector. */
  function MulVec4(m: Mat4, v: Vec4): Vec4 {
    Vec4(Dot4(m.r0, v), Dot4(m.r1, v), Dot4(m.r2, v), Dot4(m.r3, v))
  }

  /** `m @ v` for a point: v is extended with w = 1 and the w row is dropped. */
  function TransformPoint(m: Mat4, v: Vec3): Vec3 {
    var p := MulVec4(m, Vec4(v.x, v.y, v.z, 1.0));
    Vec3(p.x, p.y, p.z)
  }

  /** `Vec4.to_vec3(perspective_divide=True)`. */
  function PerspectiveDivide(v: Vec4): Vec3
    requires v.w != 0.0
  {
    Vec3(v.x / v.w, v.y / v.w, v.z / v.w)
  }

  lemma IdentityMulLeft(m: Mat4)
    ensures MatMul(Identity(), m) == m
  {
  }

  lemma IdentityMulRight(m: Mat4)
    ensures MatMul(m, Identity()) == m
  {
  }

  /** The identity matrix leaves every point where it is. */
  lemma IdentityTransformPoint(v: Vec3)
    ensures TransformPoint(Identity(), v) == v
  {
  }

  /** Multiplying out a row times a matrix times a vector, in both groupings. */
  /** `(r @ b) . v` written out over the 24 scalars. */
  function RowThenDot(r: Vec4, b: Mat4, v: Vec4): real {
    (r.x * b.r0.x + r.y * b.r1.x + r.z * b.r2.x + r.w * b.r3.x) * v.x +
    (r.x * b.r0.y + r.y * b.r1.y + r.z * b.r2.y + r.w * b.r3.y) * v.y +
    (r.x * b.r0.z + r.y * b.r1.z + r.z * b.r2.z + r.w * b.r3.z) * v.z +
    (r.x * b.r0.w + r.y * b.r1.w + r.z * b.r2.w + r.w * b.r3.w) * v.w
  }

  /** `r . (b @ v)` written out over the 24 scalars. */
  function DotThenCol(r: Vec4, b: Mat4, v: Vec4): real {
    r.x * (b.r0.x * v.x + b.r0.y * v.y + b.r0.z * v.z + b.r0.w * v.w) +
    r.y * (b.r1.x * v.x + b.r1.y * v.y + b.r1.z * v.z + b.r1.w * v.w) +
    r.z * (b.r2.x * v.x + b.r2.y * v.y + b.r2.z * v.z + b.r2.w * v.w) +
    r.w * (b.r3.x * v.x + b.r3.y * v.y + b.r3.z * v.z + b.r3.w * v.w)
  }

  lemma Bilinear(r0: real, r1: real, r2: real, r3: real,
                 b00: real, b01: real, b02: real, b03: real, b10: real, b11: real, b12: real, b13: real,
                 b20: real, b21: real, b22: real, b23: real, b30: real, b31: real, b32: real, b33: real,
                 v0: real, v1: real, v2: real, v3: real)
    ensures (r0 * b00 + r1 * b10 + r2 * b20 + r3 * b30) * v0 + (r0 * b01 + r1 * b11 + r2 * b21 + r3 * b31) * v1 +
            (r0 * b02 + r1 * b12 + r2 * b22 + r3 * b32) * v2 + (r0 * b03 + r1 * b13 + r2 * b23 + r3 * b33) * v3 ==
            r0 * (b00 * v0 + b01 * v1 + b02 * v2 + b03 * v3) + r1 * (b10 * v0 + b11 * v1 + b12 * v2 + b13 * v3) +
            r2 * (b20 * v0 + b21 * v1 + b22 * v2 + b23 * v3) + r3 * (b30 * v0 + b31 * v1 + b32 * v2 + b33 * v3)
  {
  }

  lemma RowThenDotIs(r: Vec4, b: Mat4, v: Vec4)
    ensures Dot4(MulRow(r, b), v) == RowThenDot(r, b, v)
  {
  }

  lemma DotThenColIs(r: Vec4, b: Mat4, v: Vec4)
    ensures Dot4(r, MulVec4(b, v)) == DotThenCol(r, b, v)
  {
  }

  lemma {:induction false} DotMulRow(r: Vec4, b: Mat4, v: Vec4)
    ensures Dot4(MulRow(r, b), v) == Dot4(r, MulVec4(b, v))
  {
    RowThenDotIs(r, b, v);
    DotThenColIs(r, b, v);
    Bilinear(r.x, r.y, r.z, r.w, b.r0.x, b.r0.y, b.r0.z, b.r0.w, b.r1.x, b.r1.y, b.r1.z, b.r1.w,
             b.r2.x, b.r2.y, b.r2.z, b.r2.w, b.r3.x, b.r3.y, b.r3.z, b.r3.w, v.x, v.y, v.z, v.w);
    assert RowThenDot(r, b, v) == DotThenCol(r, b, v);
  }

  lemma ColMatMul(b: Mat4, c: Mat4, j: nat)
    requires j < 4
    ensures Col(MatMul(b, c), j) == MulVec4(b, Col(c, j))
  {
  }

  lemma {:induction false} RowAssoc(r: Vec4, b: Mat4, c: Mat4)
    ensures MulRow(MulRow(r, b), c) == MulRow(r, MatMul(b, c))
  {
    ColMatMul(b, c, 0);
    ColMatMul(b, c, 1);
    ColMatMul(b, c, 2);
    ColMatMul(b, c, 3);
    DotMulRow(r, b, Col(c, 0));
    DotMulRow(r, b, Col(c, 1));
    DotMulRow(r, b, Col(c, 2));
    DotMulRow(r, b, Col(c, 3));
  }

  /** The matrix product `@` is associative. */
  lemma {:induction false} MatMulAssoc(a: Mat4, b: Mat4, c: Mat4)
    ensures MatMul(MatMul(a, b), c) == MatMul(a, MatMul(b, c))
  {
    RowAssoc(a.r0, b, c);
    RowAssoc(a.r1, b, c);
    RowAssoc(a.r2, b, c);
    RowAssoc(a.r3, b, c);
  }
}
