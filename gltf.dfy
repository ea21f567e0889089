/** `load_gltf_scene`: the subset of glTF 2.0 the renderer reads, over an
    already parsed JSON document and already loaded buffers. Accessors are
    decoded little-endian from the buffers, node transforms come from a
    column-major matrix or from translation, rotation and scale, and the
    scene graph is walked depth first from the roots, each node's world
    matrix being its parent's times its own. */
module Gltf {
  import opened Util
  import opened LinAlg
  import opened Scene
  import opened AfrFormat

  newtype byte = b: int | 0 <= b < 256

  /** A value of an optional JSON key, or the default `dict.get` falls back to. */
  function OrElse<T>(o: Option<T>, d: T): T {
    if o.Some? then o.value else d
  }

  // ---------------------------------------------------------------------
  // Component formats

  /** The `struct` codes b, B, h, H, I and f. */
  datatype CompType = I8 | U8 | I16 | U16 | U32 | F32

  /** `_COMPONENT_FMT`: the glTF componentType codes the loader knows; any
      other code (5124, INT, among them) is a KeyError, None here. */
  function ComponentFmt(code: int): (r: Option<CompType>)
    ensures r.Some? <==> 5120 <= code <= 5126 && code != 5124
    ensures r == Some(F32) <==> code == 5126
  {
    if code == 5120 then Some(I8)
    else if code == 5121 then Some(U8)
    else if code == 5122 then Some(I16)
    else if code == 5123 then Some(U16)
    else if code == 5125 then Some(U32)
    else if code == 5126 then Some(F32)
    else None
  }

  /** The standard size of one component, in bytes. */
  function CompSize(t: CompType): (r: nat)
    ensures r == 1 || r == 2 || r == 4
  {
    match t
    case I8 => 1
    case U8 => 1
    case I16 => 2
    case U16 => 2
    case U32 => 4
    case F32 => 4
  }

  function IsSigned(t: CompType): bool {
    t == I8 || t == I16
  }

  /** `_TYPE_COUNT`: components per element; an unknown type name is a KeyError. */
  function TypeCount(name: string): (r: Option<nat>)
    ensures r.Some? ==> r.value in {1, 2, 3, 4, 9, 16}
    ensures r.Some? <==> name in {"SCALAR", "VEC2", "VEC3", "VEC4", "MAT2", "MAT3", "MAT4"}
  {
    if name == "SCALAR" then Some(1)
    else if name == "VEC2" then Some(2)
    else if name == "VEC3" then Some(3)
    else if name == "VEC4" || name == "MAT2" then Some(4)
    else if name == "MAT3" then Some(9)
    else if name == "MAT4" then Some(16)
    else None
  }

  // ---------------------------------------------------------------------
  // Little-endian integers

  function Pow256(k: nat): (r: nat)
    ensures r >= 1
  {
    if k == 0 then 1 else 256 * Pow256(k - 1)
  }

  /** The unsigned little-endian value of `bs`: least significant byte first. */
  function LeUnsigned(bs: seq<byte>): nat
    decreases |bs|
  {
    if bs == [] then 0 else bs[0] as nat + 256 * LeUnsigned(bs[1..])
  }

  /** The `k` little-endian bytes of `n` (its value modulo 256^k). */
  function LeBytes(n: nat, k: nat): (r: seq<byte>)
    ensures |r| == k
  {
    if k == 0 then [] else [(n % 256) as byte] + LeBytes(n / 256, k - 1)
  }

  /** Two's complement of a `k`-byte unsigned value. */
  function TwosComplement(u: nat, k: nat): int {
    if 2 * u >= Pow256(k) then u - Pow256(k) else u
  }

  /** The unsigned value of k bytes lies in [0, 256^k). */
  lemma {:induction false} LeRange(bs: seq<byte>)
    ensures LeUnsigned(bs) < Pow256(|bs|)
    decreases |bs|
  {
    if bs != [] {
      LeRange(bs[1..]);
    }
  }

  /** Encoding a value below 256^k in k bytes and decoding it gives it back. */
  lemma {:induction false} LeDecodeEncode(n: nat, k: nat)
    requires n < Pow256(k)
    ensures LeUnsigned(LeBytes(n, k)) == n
    decreases k
  {
    if k > 0 {
      LeDecodeEncode(n / 256, k - 1);
      var bs := LeBytes(n, k);
      assert bs[1..] == LeBytes(n / 256, k - 1);
    }
  }

  /** Decoding k bytes and encoding the value in k bytes gives the bytes back. */
  lemma {:induction false} LeEncodeDecode(bs: seq<byte>)
    ensures LeBytes(LeUnsigned(bs), |bs|) == bs
    decreases |bs|
  {
    if bs != [] {
      LeEncodeDecode(bs[1..]);
      DivMod256(bs[0] as nat, LeUnsigned(bs[1..]));
      assert bs == [bs[0]] + bs[1..];
    }
  }

  lemma DivMod256(b: nat, rest: nat)
    requires b < 256
    ensures (b + 256 * rest) % 256 == b && (b + 256 * rest) / 256 == rest
  {
  }

  /** A signed k-byte value lies in [-256^k/2, 256^k/2), and equals the
      unsigned value exactly when that is below 256^k/2. */
  lemma {:induction false} SignedRange(bs: seq<byte>)
    ensures var s := TwosComplement(LeUnsigned(bs), |bs|);
      -(Pow256(|bs|) as int) <= 2 * s < Pow256(|bs|) &&
      (s == LeUnsigned(bs) <==> 2 * LeUnsigned(bs) < Pow256(|bs|))
  {
    LeRange(bs);
  }

  // ---------------------------------------------------------------------
  // Unpacking elements

  /** `struct`'s decoding of a 4-byte little-endian IEEE float, which the
      model takes as given. */
  type FloatFn = seq<byte> -> real

  /** One component: integers two's complement or unsigned as the table says. */
  function Value(t: CompType, bs: seq<byte>, f32: FloatFn): real {
    if t == F32 then f32(bs)
    else if IsSigned(t) then TwosComplement(LeUnsigned(bs), |bs|) as real
    else LeUnsigned(bs) as real
  }

  /** Component j of `n` consecutive components at the front of `bs`
      occupies bytes j*size .. (j+1)*size. */
  function Comps(bs: seq<byte>, t: CompType, n: nat, f32: FloatFn): (r: seq<real>)
    requires n * CompSize(t) <= |bs|
    ensures |r| == n
  {
    var cs := CompSize(t);
    seq(n, j requires 0 <= j < n => (MulLeRight(j + 1, n, cs); Value(t, bs[j * cs .. (j + 1) * cs], f32)))
  }

  /** `struct.unpack_from("<" + fmt * ncomp, buf, off)`: a negative offset
      counts from the end of the buffer, and the element must fit. */
  function Unpack(buf: seq<byte>, off: int, t: CompType, ncomp: nat, f32: FloatFn): (r: Result<seq<real>>)
    ensures r.Ok? <==> var o := if off < 0 then off + |buf| else off; 0 <= o && o + ncomp * CompSize(t) <= |buf|
    ensures r.Ok? ==> |r.value| == ncomp
  {
    var o := if off < 0 then off + |buf| else off;
    if o < 0 then Err("offset out of range")
    else if |buf| - o < ncomp * CompSize(t) then Err("not enough data to unpack")
    else Ok(Comps(buf[o..], t, ncomp, f32))
  }

  /** Component j of an unpacked element is decoded from the `size` bytes
      at offset + j*size, with the format's size and signedness. */
  lemma {:induction false} UnpackComponent(buf: seq<byte>, off: int, t: CompType, ncomp: nat, f32: FloatFn, j: nat)
    requires Unpack(buf, off, t, ncomp, f32).Ok? && j < ncomp
    ensures var o := if off < 0 then off + |buf| else off;
      0 <= o + j * CompSize(t) && o + (j + 1) * CompSize(t) <= |buf| &&
      Unpack(buf, off, t, ncomp, f32).value[j] ==
        Value(t, buf[o + j * CompSize(t) .. o + (j + 1) * CompSize(t)], f32)
  {
    var o := if off < 0 then off + |buf| else off;
    var cs := CompSize(t);
    MulLeRight(j + 1, ncomp, cs);
    var lo, hi := j * cs, (j + 1) * cs;
    assert 0 <= lo <= hi <= |buf| - o;
    SliceOfSlice(buf, o, lo, hi);
  }

  lemma SliceOfSlice<T>(s: seq<T>, o: nat, lo: nat, hi: nat)
    requires o <= |s| && lo <= hi <= |s| - o
    ensures s[o..][lo..hi] == s[o + lo .. o + hi]
  {
  }

  /** An integer component decodes to its two's complement or unsigned
      little-endian value, within the range of its size. */
  lemma {:induction false} IntegerValue(t: CompType, bs: seq<byte>, f32: FloatFn)
    requires t != F32 && |bs| == CompSize(t)
    ensures IsSigned(t) ==> Value(t, bs, f32) == TwosComplement(LeUnsigned(bs), |bs|) as real
    ensures !IsSigned(t) ==> Value(t, bs, f32) == LeUnsigned(bs) as real
    ensures t == I8 ==> -128.0 <= Value(t, bs, f32) < 128.0
    ensures t == U8 ==> 0.0 <= Value(t, bs, f32) < 256.0
    ensures t == I16 ==> -32768.0 <= Value(t, bs, f32) < 32768.0
    ensures t == U16 ==> 0.0 <= Value(t, bs, f32) < 65536.0
    ensures t == U32 ==> 0.0 <= Value(t, bs, f32) < 4294967296.0
  {
    LeRange(bs);
    SignedRange(bs);
    assert Pow256(1) == 256;
    assert Pow256(2) == 65536;
    assert Pow256(4) == 4294967296 by {
      assert Pow256(3) == 16777216;
    }
  }

  /** Where an accessor's elements are: `_read_accessor` before its loop. */
  datatype Layout = Layout(t: CompType, ncomp: nat, count: int, base: int, stride: int, buf: seq<byte>)

  /** `range(count)` is empty for a negative count. */
  function Count(l: Layout): nat {
    if l.count < 0 then 0 else l.count
  }

  /** The first `n` elements, element i at `base + i * stride`, or the
      error of the first one that does not fit. */
  function ReadN(l: Layout, n: nat, f32: FloatFn): (r: Result<seq<seq<real>>>)
    ensures r.Ok? ==> |r.value| == n
    decreases n
  {
    if n == 0 then Ok([])
    else
      var pre := ReadN(l, n - 1, f32);
      if pre.Err? then pre
      else
        var e := Unpack(l.buf, l.base + (n - 1) * l.stride, l.t, l.ncomp, f32);
        if e.Err? then Err(e.msg) else Ok(pre.value + [e.value])
  }

  /** Element i of a read: the element unpacked at `base + i * stride`;
      the read fails exactly when one of those elements does not fit. */
  lemma {:induction false} ReadNShape(l: Layout, n: nat, f32: FloatFn)
    ensures var r := ReadN(l, n, f32);
      (r.Ok? <==> forall i :: 0 <= i < n ==> Unpack(l.buf, l.base + i * l.stride, l.t, l.ncomp, f32).Ok?) &&
      (r.Ok? ==> forall i :: 0 <= i < n ==>
        Ok(r.value[i]) == Unpack(l.buf, l.base + i * l.stride, l.t, l.ncomp, f32) && |r.value[i]| == l.ncomp)
    decreases n
  {
    if n > 0 {
      ReadNShape(l, n - 1, f32);
    }
  }

  /** Once the first `i` elements fail, so does the whole read, with the same error. */
  lemma {:induction false} ReadNErr(l: Layout, i: nat, n: nat, f32: FloatFn)
    requires i <= n && ReadN(l, i, f32).Err?
    ensures ReadN(l, n, f32) == ReadN(l, i, f32)
    decreases n
  {
    if n > i {
      ReadNErr(l, i, n - 1, f32);
    }
  }

  // ---------------------------------------------------------------------
  // Node transforms

  /** `_quat_to_mat4`: the rotation of the quaternion x, y, z, w (glTF's
      order), written row-major with a homogeneous last row and column. */
  function QuatToMat4(x: real, y: real, z: real, w: real): Mat4 {
    var xx, yy, zz := x * x, y * y, z * z;
    var xy, xz, yz := x * y, x * z, y * z;
    var wx, wy, wz := w * x, w * y, w * z;
    Mat4(Vec4(1.0 - 2.0 * (yy + zz), 2.0 * (xy - wz), 2.0 * (xz + wy), 0.0),
         Vec4(2.0 * (xy + wz), 1.0 - 2.0 * (xx + zz), 2.0 * (yz - wx), 0.0),
         Vec4(2.0 * (xz - wy), 2.0 * (yz + wx), 1.0 - 2.0 * (xx + yy), 0.0),
         Vec4(0.0, 0.0, 0.0, 1.0))
  }

  /** The unit quaternion (0, 0, 0, 1) is no rotation. */
  lemma {:induction false} QuatIdentity()
    ensures QuatToMat4(0.0, 0.0, 0.0, 1.0) == Identity()
  {
  }

  /** Every quaternion gives an affine matrix: last row and last column (0, 0, 0, 1). */
  lemma {:induction false} QuatAffine(x: real, y: real, z: real, w: real)
    ensures Row(QuatToMat4(x, y, z, w), 3) == Vec4(0.0, 0.0, 0.0, 1.0)
    ensures Col(QuatToMat4(x, y, z, w), 3) == Vec4(0.0, 0.0, 0.0, 1.0)
  {
  }

  function Transpose(m: Mat4): Mat4 {
    Mat4(Col(m, 0), Col(m, 1), Col(m, 2), Col(m, 3))
  }

  predicate UnitQuat(x: real, y: real, z: real, w: real) {
    x * x + y * y + z * z + w * w == 1.0
  }

  /** Fibonacci's identity, in the two sign patterns the rotation rows use. */
  lemma Fibonacci1(a: real, b: real, c: real, d: real)
    ensures (a * b - c * d) * (a * b - c * d) + (a * d + c * b) * (a * d + c * b) == (a * a + c * c) * (b * b + d * d)
  {
  }

  lemma Fibonacci2(a: real, b: real, c: real, d: real)
    ensures (a * b + c * d) * (a * b + c * d) + (a * d - c * b) * (a * d - c * b) == (a * a + c * c) * (b * b + d * d)
  {
  }

  /** A diagonal entry (1 - 2k)^2 + 4 k m is 1 when k + m is 1. */
  lemma DiagonalSquare(k: real, m: real)
    requires k + m == 1.0
    ensures (1.0 - 2.0 * k) * (1.0 - 2.0 * k) + 4.0 * (m * k) == 1.0
  {
    assert m * k == (1.0 - k) * k;
  }

  /** The rows of a unit quaternion's matrix have length one and are
      pairwise orthogonal, one lemma per pair. */
  lemma {:induction false} QuatRow0Unit(x: real, y: real, z: real, w: real)
    requires UnitQuat(x, y, z, w)
    ensures var m := QuatToMat4(x, y, z, w); Dot4(m.r0, m.r0) == 1.0
  {
    var k, rest := y * y + z * z, x * x + w * w;
    Fibonacci1(x, y, w, z);
    DiagonalSquare(k, rest);
  }

  lemma {:induction false} QuatRow1Unit(x: real, y: real, z: real, w: real)
    requires UnitQuat(x, y, z, w)
    ensures var m := QuatToMat4(x, y, z, w); Dot4(m.r1, m.r1) == 1.0
  {
    var k, rest := x * x + z * z, y * y + w * w;
    Fibonacci2(y, x, w, z);
    DiagonalSquare(k, rest);
  }

  lemma {:induction false} QuatRow2Unit(x: real, y: real, z: real, w: real)
    requires UnitQuat(x, y, z, w)
    ensures var m := QuatToMat4(x, y, z, w); Dot4(m.r2, m.r2) == 1.0
  {
    var k, rest := x * x + y * y, z * z + w * w;
    Fibonacci1(z, x, w, y);
    DiagonalSquare(k, rest);
  }

  lemma {:induction false} QuatRows01(x: real, y: real, z: real, w: real)
    requires UnitQuat(x, y, z, w)
    ensures var m := QuatToMat4(x, y, z, w); Dot4(m.r0, m.r1) == 0.0
  {
  }

  /** Rows 0 and 2 of any quaternion's matrix have dot product 4 x z (1 - |q|^2). */
  lemma Rows02Identity(x: real, y: real, z: real, w: real)
    ensures (1.0 - 2.0 * (y * y + z * z)) * (2.0 * (x * z - w * y)) + (2.0 * (x * y - w * z)) * (2.0 * (y * z + w * x)) +
            (2.0 * (x * z + w * y)) * (1.0 - 2.0 * (x * x + y * y)) == 4.0 * (x * z) * (1.0 - (x * x + y * y + z * z + w * w))
  {
    var xz, wy := x * z, w * y;
    var xx, yy, zz, ww := x * x, y * y, z * z, w * w;
    assert (1.0 - 2.0 * (y * y + z * z)) * (2.0 * (x * z - w * y)) ==
           2.0 * xz - 2.0 * wy - 4.0 * (yy * xz) + 4.0 * (yy * wy) - 4.0 * (zz * xz) + 4.0 * (zz * wy);
    assert (2.0 * (x * y - w * z)) * (2.0 * (y * z + w * x)) ==
           4.0 * (yy * xz) + 4.0 * (xx * wy) - 4.0 * (zz * wy) - 4.0 * (ww * xz);
    assert (2.0 * (x * z + w * y)) * (1.0 - 2.0 * (x * x + y * y)) ==
           2.0 * xz + 2.0 * wy - 4.0 * (xx * xz) - 4.0 * (yy * xz) - 4.0 * (xx * wy) - 4.0 * (yy * wy);
    assert 4.0 * (x * z) * (1.0 - (x * x + y * y + z * z + w * w)) ==
           4.0 * xz - 4.0 * (xx * xz) - 4.0 * (yy * xz) - 4.0 * (zz * xz) - 4.0 * (ww * xz);
  }

  lemma {:induction false} QuatRows02(x: real, y: real, z: real, w: real)
    requires UnitQuat(x, y, z, w)
    ensures var m := QuatToMat4(x, y, z, w); Dot4(m.r0, m.r2) == 0.0
  {
    var m := QuatToMat4(x, y, z, w);
    var a0, a1, a2 := m.r0.x, m.r0.y, m.r0.z;
    var b0, b1, b2 := m.r2.x, m.r2.y, m.r2.z;
    assert a0 == 1.0 - 2.0 * (y * y + z * z) && a1 == 2.0 * (x * y - w * z) && a2 == 2.0 * (x * z + w * y);
    assert b0 == 2.0 * (x * z - w * y) && b1 == 2.0 * (y * z + w * x) && b2 == 1.0 - 2.0 * (x * x + y * y);
    assert Dot4(m.r0, m.r2) == a0 * b0 + a1 * b1 + a2 * b2;
    Rows02Identity(x, y, z, w);
    ZeroFactor(4.0 * (x * z), 1.0 - (x * x + y * y + z * z + w * w));
  }

  lemma ZeroFactor(a: real, b: real)
    requires b == 0.0
    ensures a * b == 0.0
  {
  }

  lemma {:induction false} QuatRows12(x: real, y: real, z: real, w: real)
    requires UnitQuat(x, y, z, w)
    ensures var m := QuatToMat4(x, y, z, w); Dot4(m.r1, m.r2) == 0.0
  {
  }

  lemma Dot4Comm(a: Vec4, b: Vec4)
    ensures Dot4(a, b) == Dot4(b, a)
  {
  }

  /** A unit quaternion gives a rotation: its matrix times its transpose is the identity. */
  lemma {:induction false} QuatOrthogonal(x: real, y: real, z: real, w: real)
    requires UnitQuat(x, y, z, w)
    ensures MatMul(QuatToMat4(x, y, z, w), Transpose(QuatToMat4(x, y, z, w))) == Identity()
  {
    var m := QuatToMat4(x, y, z, w);
    QuatRow0Unit(x, y, z, w);
    QuatRow1Unit(x, y, z, w);
    QuatRow2Unit(x, y, z, w);
    QuatRows01(x, y, z, w);
    QuatRows02(x, y, z, w);
    QuatRows12(x, y, z, w);
    Dot4Comm(m.r0, m.r1);
    Dot4Comm(m.r0, m.r2);
    Dot4Comm(m.r1, m.r2);
    var t := Transpose(m);
    assert Col(t, 0) == m.r0 && Col(t, 1) == m.r1 && Col(t, 2) == m.r2 && Col(t, 3) == m.r3;
  }

  /** A glTF column-major array as a row-major matrix: the transpose. */
  function ColumnMajor(m: seq<real>): (r: Mat4)
    requires |m| >= 16
    ensures forall i, j :: 0 <= i < 4 && 0 <= j < 4 ==> Entry(r, i, j) == m[4 * j + i]
  {
    Mat4(Vec4(m[0], m[4], m[8], m[12]), Vec4(m[1], m[5], m[9], m[13]),
         Vec4(m[2], m[6], m[10], m[14]), Vec4(m[3], m[7], m[11], m[15]))
  }

  /** `_node_local_mat`: the node's matrix, or T @ R @ S from translation,
      rotation and scale with their defaults; an array too short for the
      entries read is an IndexError. */
  function NodeLocalMat(n: Node): (r: Result<Mat4>)
  {
    if n.matrix.Some? then
      var m := n.matrix.value;
      if |m| < 16 then Err("list index out of range") else Ok(ColumnMajor(m))
    else
      var t := OrElse(n.translation, [0.0, 0.0, 0.0]);
      var q := OrElse(n.rotation, [0.0, 0.0, 0.0, 1.0]);
      var s := OrElse(n.scale, [1.0, 1.0, 1.0]);
      if |t| < 3 || |q| < 4 || |s| < 3 then Err("list index out of range")
      else Ok(Trs(t, q, s))
  }

  /** `mt @ mr @ ms`, Python's `@` grouping to the left. */
  function Trs(t: seq<real>, q: seq<real>, s: seq<real>): Mat4
    requires |t| >= 3 && |q| >= 4 && |s| >= 3
  {
    var mt := Translate(t[0], t[1], t[2]);
    var mr := QuatToMat4(q[0], q[1], q[2], q[3]);
    var ms := ScaleMat(s[0], s[1], s[2]);
    MatMul(MatMul(mt, mr), ms)
  }

  /** A node with a matrix uses entry (r, c) = m[4c + r] of its array, and
      fails exactly when the array is shorter than 16. */
  lemma {:induction false} MatrixNode(n: Node)
    requires n.matrix.Some?
    ensures NodeLocalMat(n).Ok? <==> |n.matrix.value| >= 16
    ensures NodeLocalMat(n).Ok? ==> forall i, j :: 0 <= i < 4 && 0 <= j < 4 ==>
      Entry(NodeLocalMat(n).value, i, j) == n.matrix.value[4 * j + i]
  {
  }

  /** The default translation, rotation and scale are each the identity. */
  lemma {:induction false} DefaultsIdentity()
    ensures Translate(0.0, 0.0, 0.0) == Identity()
    ensures QuatToMat4(0.0, 0.0, 0.0, 1.0) == Identity()
    ensures ScaleMat(1.0, 1.0, 1.0) == Identity()
  {
    QuatIdentity();
  }

  /** The local matrix of a node without a matrix, once its three arrays are known. */
  lemma {:induction false} TrsOf(n: Node, t: seq<real>, q: seq<real>, s: seq<real>)
    requires n.matrix.None?
    requires t == OrElse(n.translation, [0.0, 0.0, 0.0]) && |t| >= 3
    requires q == OrElse(n.rotation, [0.0, 0.0, 0.0, 1.0]) && |q| >= 4
    requires s == OrElse(n.scale, [1.0, 1.0, 1.0]) && |s| >= 3
    ensures NodeLocalMat(n) == Ok(Trs(t, q, s))
  {
  }

  /** Without rotation, T @ R @ S is T @ S. */
  lemma {:induction false} TrsNoRotation(t: seq<real>, s: seq<real>)
    requires |t| >= 3 && |s| >= 3
    ensures Trs(t, [0.0, 0.0, 0.0, 1.0], s) == MatMul(Translate(t[0], t[1], t[2]), ScaleMat(s[0], s[1], s[2]))
  {
    var q := [0.0, 0.0, 0.0, 1.0];
    DefaultRotation(q);
    RotationFree(Translate(t[0], t[1], t[2]), QuatToMat4(q[0], q[1], q[2], q[3]), ScaleMat(s[0], s[1], s[2]));
  }

  lemma {:induction false} DefaultRotation(q: seq<real>)
    requires q == [0.0, 0.0, 0.0, 1.0]
    ensures QuatToMat4(q[0], q[1], q[2], q[3]) == Identity()
  {
    assert q[0] == 0.0 && q[1] == 0.0 && q[2] == 0.0 && q[3] == 1.0;
    QuatIdentity();
  }

  lemma {:induction false} RotationFree(mt: Mat4, mr: Mat4, ms: Mat4)
    requires mr == Identity()
    ensures MatMul(MatMul(mt, mr), ms) == MatMul(mt, ms)
  {
    IdentityMulRight(mt);
  }

  /** A node with neither a matrix nor any of translation, rotation and
      scale has the identity as its local matrix. */
  lemma {:induction false} DefaultNodeIdentity(n: Node)
    requires n.matrix.None? && n.translation.None? && n.rotation.None? && n.scale.None?
    ensures NodeLocalMat(n) == Ok(Identity())
  {
    var t, s := [0.0, 0.0, 0.0], [1.0, 1.0, 1.0];
    TrsOf(n, t, [0.0, 0.0, 0.0, 1.0], s);
    TrsNoRotation(t, s);
    assert t[0] == 0.0 && t[1] == 0.0 && t[2] == 0.0;
    assert s[0] == 1.0 && s[1] == 1.0 && s[2] == 1.0;
    DefaultsIdentity();
    IdentityMulLeft(Identity());
  }

  /** A translation after a scale maps p to t + s * p, component by component. */
  lemma {:induction false} TranslateScaleMaps(tx: real, ty: real, tz: real, sx: real, sy: real, sz: real, p: Vec3)
    ensures TransformPoint(MatMul(Translate(tx, ty, tz), ScaleMat(sx, sy, sz)), p) ==
      Vec3(tx + sx * p.x, ty + sy * p.y, tz + sz * p.z)
  {
  }

  /** Without rotation, a node's local matrix is its translation times its
      scale, which by `TranslateScaleMaps` maps p to t + s * p. */
  lemma {:induction false} NoRotationNode(n: Node)
    requires n.matrix.None? && n.rotation.None?
    requires |OrElse(n.translation, [0.0, 0.0, 0.0])| >= 3 && |OrElse(n.scale, [1.0, 1.0, 1.0])| >= 3
    ensures var t := OrElse(n.translation, [0.0, 0.0, 0.0]);
      var s := OrElse(n.scale, [1.0, 1.0, 1.0]);
      NodeLocalMat(n) == Ok(MatMul(Translate(t[0], t[1], t[2]), ScaleMat(s[0], s[1], s[2])))
  {
    var t := OrElse(n.translation, [0.0, 0.0, 0.0]);
    var s := OrElse(n.scale, [1.0, 1.0, 1.0]);
    TrsOf(n, t, [0.0, 0.0, 0.0, 1.0], s);
    TrsNoRotation(t, s);
  }

  // ---------------------------------------------------------------------
  // The document

  datatype Accessor = Accessor(bufferView: int, componentType: int, typ: string, count: int, byteOffset: Option<int>)

  datatype BufferView = BufferView(buffer: int, byteOffset: Option<int>, byteStride: Option<int>)

  /** A node; JSON's array-of-numbers values are sequences of reals. */
  datatype Node = Node(matrix: Option<seq<real>>, translation: Option<seq<real>>, rotation: Option<seq<real>>,
                       scale: Option<seq<real>>, mesh: Option<int>, children: seq<int>)

  /** A mesh primitive: its POSITION and TEXCOORD_0 attributes, its indices
      accessor and its material. */
  datatype GPrim = GPrim(position: Option<int>, texcoord: Option<int>, indices: Option<int>, material: Option<int>)

  /** The parsed document. A material is reduced to the index of its
      `pbrMetallicRoughness.baseColorTexture`, a texture to its source image
      and an image to its uri. */
  datatype Doc = Doc(accessors: seq<Accessor>, bufferViews: seq<BufferView>, meshes: seq<seq<GPrim>>,
                     nodes: seq<Node>, scenes: seq<seq<int>>, scene: Option<int>,
                     materials: seq<Option<int>>, textures: seq<Option<int>>, images: seq<Option<string>>)

  /** The lookups `_read_accessor` makes before its loop, each with Python's indexing. */
  function AccessorLayout(d: Doc, buffers: seq<seq<byte>>, idx: int): (r: Result<Layout>)
    ensures r.Ok? ==> PyIndex(d.accessors, idx).Some?
    ensures r.Ok? ==> PyIndex(d.bufferViews, PyIndex(d.accessors, idx).value.bufferView).Some?
    ensures r.Ok? ==>
      var acc := PyIndex(d.accessors, idx).value;
      var bv := PyIndex(d.bufferViews, acc.bufferView).value;
      Some(r.value.buf) == PyIndex(buffers, bv.buffer) &&
      Some(r.value.t) == ComponentFmt(acc.componentType) &&
      Some(r.value.ncomp) == TypeCount(acc.typ) &&
      r.value.count == acc.count &&
      r.value.base == OrElse(bv.byteOffset, 0) + OrElse(acc.byteOffset, 0) &&
      r.value.stride == OrElse(bv.byteStride, CompSize(r.value.t) * r.value.ncomp)
  {
    var acc := PyIndex(d.accessors, idx);
    if acc.None? then Err("list index out of range")
    else
      var bv := PyIndex(d.bufferViews, acc.value.bufferView);
      if bv.None? then Err("list index out of range")
      else
        var buf := PyIndex(buffers, bv.value.buffer);
        if buf.None? then Err("list index out of range")
        else
          var t := ComponentFmt(acc.value.componentType);
          var nc := TypeCount(acc.value.typ);
          if t.None? || nc.None? then Err("KeyError")
          else
            var base := OrElse(bv.value.byteOffset, 0) + OrElse(acc.value.byteOffset, 0);
            Ok(Layout(t.value, nc.value, acc.value.count, base,
                      OrElse(bv.value.byteStride, CompSize(t.value) * nc.value), buf.value))
  }

  /** `_read_accessor(gltf, buffers, idx)`. */
  function ReadAccessor(d: Doc, buffers: seq<seq<byte>>, idx: int, f32: FloatFn): Result<seq<seq<real>>> {
    var l := AccessorLayout(d, buffers, idx);
    if l.Err? then Err(l.msg) else ReadN(l.value, Count(l.value), f32)
  }

  /** A read gives exactly `count` elements (none for a negative count) of
      `ncomp` components each, element i unpacked at the buffer view's offset
      plus the accessor's plus i times the stride. */
  lemma {:induction false} ReadAccessorShape(d: Doc, buffers: seq<seq<byte>>, idx: int, f32: FloatFn)
    ensures var r := ReadAccessor(d, buffers, idx, f32);
      r.Ok? ==> var l := AccessorLayout(d, buffers, idx).value;
        |r.value| == (if l.count < 0 then 0 else l.count) &&
        forall i :: 0 <= i < |r.value| ==>
          |r.value[i]| == l.ncomp && Ok(r.value[i]) == Unpack(l.buf, l.base + i * l.stride, l.t, l.ncomp, f32)
  {
    var l := AccessorLayout(d, buffers, idx);
    if l.Ok? {
      ReadNShape(l.value, Count(l.value), f32);
    }
  }

  /** The loop of `_read_accessor`. */
  method ReadAccessorLoop(d: Doc, buffers: seq<seq<byte>>, idx: int, f32: FloatFn) returns (r: Result<seq<seq<real>>>)
    ensures r == ReadAccessor(d, buffers, idx, f32)
  {
    var lr := AccessorLayout(d, buffers, idx);
    if lr.Err? {
      return Err(lr.msg);
    }
    r := ReadElements(lr.value, f32);
  }

  /** `for i in range(count)`: unpack element i at `base + i * stride`. */
  method ReadElements(l: Layout, f32: FloatFn) returns (r: Result<seq<seq<real>>>)
    ensures r == ReadN(l, Count(l), f32)
  {
    var out: seq<seq<real>> := [];
    for i := 0 to Count(l)
      invariant ReadN(l, i, f32) == Ok(out)
    {
      var vals := Unpack(l.buf, l.base + i * l.stride, l.t, l.ncomp, f32);
      if vals.Err? {
        ReadNErr(l, i + 1, Count(l), f32);
        return Err(vals.msg);
      }
      out := out + [vals.value];
    }
    return Ok(out);
  }
  // ---------------------------------------------------------------------
  // Primitives

  /** `[Vec3(x, y, z) for (x, y, z) in positions]`: an element with other
      than three components is a ValueError from the unpacking. */
  function Verts(ps: seq<seq<real>>): (r: Result<seq<Vec3>>)
    ensures r.Ok? <==> forall i :: 0 <= i < |ps| ==> |ps[i]| == 3
    ensures r.Ok? ==> |r.value| == |ps|
    ensures r.Ok? ==> forall i :: 0 <= i < |ps| ==> r.value[i] == Vec3(ps[i][0], ps[i][1], ps[i][2])
    decreases |ps|
  {
    if ps == [] then Ok([])
    else
      var n := |ps| - 1;
      var pre := Verts(ps[..n]);
      if pre.Err? then pre
      else if |ps[n]| < 3 then Err("not enough values to unpack")
      else if |ps[n]| > 3 then Err("too many values to unpack")
      else Ok(pre.value + [Vec3(ps[n][0], ps[n][1], ps[n][2])])
  }

  /** `[int(i[0]) for i in indices]`: the first component of each element,
      truncated toward zero. */
  function Flat(ix: seq<seq<real>>): (r: Result<seq<int>>)
    ensures r.Ok? <==> forall i :: 0 <= i < |ix| ==> |ix[i]| >= 1
    ensures r.Ok? ==> |r.value| == |ix| && forall i :: 0 <= i < |ix| ==> r.value[i] == Trunc(ix[i][0])
    decreases |ix|
  {
    if ix == [] then Ok([])
    else
      var n := |ix| - 1;
      var pre := Flat(ix[..n]);
      if pre.Err? then pre
      else if |ix[n]| < 1 then Err("tuple index out of range")
      else Ok(pre.value + [Trunc(ix[n][0])])
  }

  /** `u, v = uvs[i]`, with Python's indexing. */
  function UvAt(uvs: seq<seq<real>>, i: int): (r: Result<Vec2>)
    ensures r.Ok? <==> PyIndex(uvs, i).Some? && |PyIndex(uvs, i).value| == 2
    ensures r.Ok? ==> r.value == Vec2(PyIndex(uvs, i).value[0], PyIndex(uvs, i).value[1])
  {
    var e := PyIndex(uvs, i);
    if e.None? then Err("list index out of range")
    else if |e.value| < 2 then Err("not enough values to unpack")
    else if |e.value| > 2 then Err("too many values to unpack")
    else Ok(Vec2(e.value[0], e.value[1]))
  }

  /** The faces and per-face UVs the triples loop has built. */
  datatype FaceLists = FaceLists(faces: seq<Tri>, uvs: seq<UvTri>)

  /** Iteration k of `for i in range(0, len(flat), 3)`, at i = 3k. */
  function FaceStep(flat: seq<int>, uvs: Option<seq<seq<real>>>, acc: FaceLists, k: nat): Result<FaceLists> {
    var i := 3 * k;
    if i + 2 >= |flat| then Err("list index out of range")
    else
      var f := Tri(flat[i], flat[i + 1], flat[i + 2]);
      if uvs.None? then Ok(FaceLists(acc.faces + [f], acc.uvs))
      else
        var a := UvAt(uvs.value, f.i1);
        var b := UvAt(uvs.value, f.i2);
        var c := UvAt(uvs.value, f.i3);
        if a.Err? then Err(a.msg)
        else if b.Err? then Err(b.msg)
        else if c.Err? then Err(c.msg)
        else Ok(FaceLists(acc.faces + [f], acc.uvs + [UvTri(a.value, b.value, c.value)]))
  }

  /** The first `n` iterations of the triples loop. */
  function Triples(flat: seq<int>, uvs: Option<seq<seq<real>>>, n: nat): Result<FaceLists>
    decreases n
  {
    if n == 0 then Ok(FaceLists([], []))
    else
      var pre := Triples(flat, uvs, n - 1);
      if pre.Err? then pre else FaceStep(flat, uvs, pre.value, n - 1)
  }

  /** `range(0, len(flat), 3)` has ceil(len / 3) iterations. */
  function Iterations(flat: seq<int>): nat {
    (|flat| + 2) / 3
  }

  /** The whole triples loop. */
  function GroupTriples(flat: seq<int>, uvs: Option<seq<seq<real>>>): Result<FaceLists> {
    Triples(flat, uvs, Iterations(flat))
  }

  /** Every index among the first `m` has a two-component UV, when there are UVs. */
  predicate UvsFit(flat: seq<int>, uvs: Option<seq<seq<real>>>, m: nat)
    requires m <= |flat|
  {
    uvs.Some? ==> forall j :: 0 <= j < m ==> UvAt(uvs.value, flat[j]).Ok?
  }

  /** Face k is the k-th consecutive triple, and its UVs, when there are
      UVs, are those of the triple's three indices. */
  predicate TriplesOk(flat: seq<int>, uvs: Option<seq<seq<real>>>, n: nat, r: FaceLists)
    requires 3 * n <= |flat| && UvsFit(flat, uvs, 3 * n)
  {
    |r.faces| == n &&
    (forall k :: 0 <= k < n ==> r.faces[k] == Tri(flat[3 * k], flat[3 * k + 1], flat[3 * k + 2])) &&
    (uvs.None? ==> r.uvs == []) &&
    (uvs.Some? ==> |r.uvs| == n && forall k :: 0 <= k < n ==>
      r.uvs[k] == UvTri(UvAt(uvs.value, flat[3 * k]).value, UvAt(uvs.value, flat[3 * k + 1]).value,
                        UvAt(uvs.value, flat[3 * k + 2]).value))
  }

  /** A full iteration succeeds exactly when, with UVs, its three indices have UVs. */
  lemma {:induction false} FaceStepOk(flat: seq<int>, uvs: Option<seq<seq<real>>>, acc: FaceLists, k: nat)
    requires 3 * k + 2 < |flat|
    ensures var r := FaceStep(flat, uvs, acc, k);
      (r.Ok? <==> (uvs.Some? ==> UvAt(uvs.value, flat[3 * k]).Ok? && UvAt(uvs.value, flat[3 * k + 1]).Ok? &&
                                 UvAt(uvs.value, flat[3 * k + 2]).Ok?)) &&
      (r.Ok? ==> r.value.faces == acc.faces + [Tri(flat[3 * k], flat[3 * k + 1], flat[3 * k + 2])]) &&
      (r.Ok? && uvs.None? ==> r.value.uvs == acc.uvs) &&
      (r.Ok? && uvs.Some? ==> r.value.uvs == acc.uvs + [UvTri(UvAt(uvs.value, flat[3 * k]).value,
         UvAt(uvs.value, flat[3 * k + 1]).value, UvAt(uvs.value, flat[3 * k + 2]).value)])
  {
  }

  lemma {:induction false} UvsFitSnoc(flat: seq<int>, uvs: Option<seq<seq<real>>>, n: nat)
    requires 3 * n + 3 <= |flat|
    ensures UvsFit(flat, uvs, 3 * n + 3) <==>
      (UvsFit(flat, uvs, 3 * n) &&
       (uvs.Some? ==> UvAt(uvs.value, flat[3 * n]).Ok? && UvAt(uvs.value, flat[3 * n + 1]).Ok? &&
                      UvAt(uvs.value, flat[3 * n + 2]).Ok?))
  {
    if uvs.Some? && UvsFit(flat, uvs, 3 * n) && UvAt(uvs.value, flat[3 * n]).Ok? &&
       UvAt(uvs.value, flat[3 * n + 1]).Ok? && UvAt(uvs.value, flat[3 * n + 2]).Ok? {
      forall j | 0 <= j < 3 * n + 3
        ensures UvAt(uvs.value, flat[j]).Ok?
      {
        if j >= 3 * n {
          assert j == 3 * n || j == 3 * n + 1 || j == 3 * n + 2;
        }
      }
    }
  }

  lemma {:induction false} TriplesOkSnoc(flat: seq<int>, uvs: Option<seq<seq<real>>>, n: nat, acc: FaceLists)
    requires 3 * n + 3 <= |flat| && UvsFit(flat, uvs, 3 * n + 3)
    requires UvsFit(flat, uvs, 3 * n) && TriplesOk(flat, uvs, n, acc)
    requires FaceStep(flat, uvs, acc, n).Ok?
    ensures TriplesOk(flat, uvs, n + 1, FaceStep(flat, uvs, acc, n).value)
  {
    FaceStepOk(flat, uvs, acc, n);
  }

  /** The first n full iterations succeed exactly when their indices all
      have UVs, and then build the consecutive triples. */
  lemma {:induction false} TriplesShape(flat: seq<int>, uvs: Option<seq<seq<real>>>, n: nat)
    requires 3 * n <= |flat|
    ensures Triples(flat, uvs, n).Ok? <==> UvsFit(flat, uvs, 3 * n)
    ensures Triples(flat, uvs, n).Ok? ==> TriplesOk(flat, uvs, n, Triples(flat, uvs, n).value)
    decreases n
  {
    if n > 0 {
      TriplesShape(flat, uvs, n - 1);
      UvsFitSnoc(flat, uvs, n - 1);
      var pre := Triples(flat, uvs, n - 1);
      if pre.Ok? {
        FaceStepOk(flat, uvs, pre.value, n - 1);
        if Triples(flat, uvs, n).Ok? {
          TriplesOkSnoc(flat, uvs, n - 1, pre.value);
        }
      }
    }
  }

  /** Once an iteration fails, the loop fails with that error. */
  lemma {:induction false} TriplesErr(flat: seq<int>, uvs: Option<seq<seq<real>>>, k: nat, n: nat)
    requires k <= n && Triples(flat, uvs, k).Err?
    ensures Triples(flat, uvs, n) == Triples(flat, uvs, k)
    decreases n
  {
    if n > k {
      TriplesErr(flat, uvs, k, n - 1);
    }
  }

  /** The triples loop succeeds exactly when the indices come in whole
      triples and, when there are UVs, each index has a two-component UV. */
  lemma {:induction false} GroupTriplesShape(flat: seq<int>, uvs: Option<seq<seq<real>>>)
    ensures GroupTriples(flat, uvs).Ok? <==> |flat| % 3 == 0 && UvsFit(flat, uvs, |flat|)
    ensures GroupTriples(flat, uvs).Ok? ==>
      (|flat| % 3 == 0 && UvsFit(flat, uvs, |flat|) &&
       TriplesOk(flat, uvs, |flat| / 3, GroupTriples(flat, uvs).value))
  {
    var n := Iterations(flat);
    if |flat| % 3 == 0 {
      assert 3 * n == |flat|;
      TriplesShape(flat, uvs, n);
    } else {
      assert 3 * (n - 1) < |flat| < 3 * n;
      var pre := Triples(flat, uvs, n - 1);
      if pre.Ok? {
        assert Triples(flat, uvs, n).Err?;
      } else {
        TriplesErr(flat, uvs, n - 1, n);
      }
    }
  }

  /** The loop of `visit` over the index triples. */
  method GroupFaces(flat: seq<int>, uvs: Option<seq<seq<real>>>) returns (r: Result<FaceLists>)
    ensures r == GroupTriples(flat, uvs)
  {
    var acc := FaceLists([], []);
    for k := 0 to Iterations(flat)
      invariant Triples(flat, uvs, k) == Ok(acc)
    {
      var next := AppendFace(flat, uvs, acc.faces, acc.uvs, k);
      if next.Err? {
        TriplesErr(flat, uvs, k + 1, Iterations(flat));
        return next;
      }
      acc := next.value;
    }
    return Ok(acc);
  }

  /** One iteration: append face (flat[i], flat[i+1], flat[i+2]) and, with
      UVs, the UVs of its three indices. */
  method AppendFace(flat: seq<int>, uvs: Option<seq<seq<real>>>, faces: seq<Tri>, faceUvs: seq<UvTri>, k: nat)
    returns (r: Result<FaceLists>)
    ensures r == FaceStep(flat, uvs, FaceLists(faces, faceUvs), k)
  {
    var i := 3 * k;
    if i + 2 >= |flat| {
      return Err("list index out of range");
    }
    var f := Tri(flat[i], flat[i + 1], flat[i + 2]);
    var faces' := faces + [f];
    if uvs.None? {
      return Ok(FaceLists(faces', faceUvs));
    }
    var a := UvAt(uvs.value, f.i1);
    if a.Err? {
      return Err(a.msg);
    }
    var b := UvAt(uvs.value, f.i2);
    if b.Err? {
      return Err(b.msg);
    }
    var c := UvAt(uvs.value, f.i3);
    if c.Err? {
      return Err(c.msg);
    }
    return Ok(FaceLists(faces', faceUvs + [UvTri(a.value, b.value, c.value)]));
  }
  // ---------------------------------------------------------------------
  // Textures

  /** `tex_for_material`: the image a material's base colour texture shows,
      as the index of its entry in `images`. The loop-up stops at a missing
      or out-of-range material, texture index, source or uri. A material
      whose `baseColorTexture` is absent, empty or has no index has no
      texture index here, as `int(bct.get("index", -1))` makes it -1. */
  function TexForMaterial(d: Doc, mat: Option<int>): (r: Option<nat>)
    ensures r.Some? ==> r.value < |d.images| && d.images[r.value].Some?
    ensures r.Some? <==>
      (mat.Some? && 0 <= mat.value < |d.materials| &&
       var t := OrElse(d.materials[mat.value], -1);
       0 <= t < |d.textures| &&
       var src := OrElse(d.textures[t], -1);
       0 <= src < |d.images| && d.images[src].Some? && r == Some(src))
  {
    if mat.None? || mat.value < 0 || mat.value >= |d.materials| then None
    else
      var t := OrElse(d.materials[mat.value], -1);
      if t < 0 || t >= |d.textures| then None
      else
        var src := OrElse(d.textures[t], -1);
        if src < 0 || src >= |d.images| then None
        else if d.images[src].None? then None
        else Some(src)
  }

  // ---------------------------------------------------------------------
  // Primitives of a mesh

  /** The arrays of the `Model` a primitive becomes. */
  datatype MeshModel = MeshModel(verts: seq<Vec3>, faces: seq<Tri>, uvs: seq<UvTri>)

  /** The loader's `Primitive(model, texture, local_mat)`; the texture is the
      index of the image whose surface it shares through the image cache. */
  datatype GltfPrim = GltfPrim(model: MeshModel, texture: Option<nat>, localMat: Mat4)

  /** A primitive is drawn only with both POSITION and indices. */
  predicate Drawable(p: GPrim) {
    p.position.Some? && p.indices.Some?
  }

  /** `Model(verts, faces, uvs)` from the data read through the POSITION,
      TEXCOORD_0 (when present) and indices accessors. */
  function BuildModel(positions: seq<seq<real>>, uvs: Option<seq<seq<real>>>, indices: seq<seq<real>>): Result<MeshModel> {
    var verts := Verts(positions);
    if verts.Err? then Err(verts.msg)
    else
      var flat := Flat(indices);
      if flat.Err? then Err(flat.msg)
      else
        var fl := GroupTriples(flat.value, uvs);
        if fl.Err? then Err(fl.msg)
        else Ok(MeshModel(verts.value, fl.value.faces, fl.value.uvs))
  }

  /** The model exists exactly when every position has three components,
      every index element has a first component, the indices come in whole
      triples and, with UVs, each index has a two-component UV; then its
      vertices are the positions, face k the k-th index triple, and its UVs
      those of the faces' indices. */
  lemma {:induction false} BuildModelShape(positions: seq<seq<real>>, uvs: Option<seq<seq<real>>>, indices: seq<seq<real>>)
    ensures var flat := Flat(indices);
      BuildModel(positions, uvs, indices).Ok? <==>
        Verts(positions).Ok? && flat.Ok? && |flat.value| % 3 == 0 && UvsFit(flat.value, uvs, |flat.value|)
    ensures var m := BuildModel(positions, uvs, indices);
      m.Ok? ==> var flat := Flat(indices).value;
        |flat| % 3 == 0 && UvsFit(flat, uvs, |flat|) && Verts(positions) == Ok(m.value.verts) &&
        TriplesOk(flat, uvs, |flat| / 3, FaceLists(m.value.faces, m.value.uvs))
  {
    var flat := Flat(indices);
    if flat.Ok? {
      GroupTriplesShape(flat.value, uvs);
    }
  }

  /** The model of a drawn primitive, from its three accessors. */
  function PrimModel(d: Doc, buffers: seq<seq<byte>>, f32: FloatFn, pos: int, tex: Option<int>, ind: int): (r: Result<MeshModel>)
    ensures r.Ok? ==> ReadAccessor(d, buffers, pos, f32).Ok? && ReadAccessor(d, buffers, ind, f32).Ok?
    ensures r.Ok? && tex.Some? ==> ReadAccessor(d, buffers, tex.value, f32).Ok?
    ensures r.Ok? ==> r == BuildModel(ReadAccessor(d, buffers, pos, f32).value,
                                      if tex.Some? then Some(ReadAccessor(d, buffers, tex.value, f32).value) else None,
                                      ReadAccessor(d, buffers, ind, f32).value)
  {
    var positions := ReadAccessor(d, buffers, pos, f32);
    if positions.Err? then Err(positions.msg)
    else
      var uvs := if tex.Some? then ReadAccessor(d, buffers, tex.value, f32) else Ok([]);
      if uvs.Err? then Err(uvs.msg)
      else
        var indices := ReadAccessor(d, buffers, ind, f32);
        if indices.Err? then Err(indices.msg)
        else BuildModel(positions.value, if tex.Some? then Some(uvs.value) else None, indices.value)
  }

  /** How a primitive's accessors become a model; `PrimModel` for the
      document's buffers, abstract in the traversal's lemmas. */
  type PartFn = (int, Option<int>, int) -> Result<MeshModel>

  function Parts(d: Doc, buffers: seq<seq<byte>>, f32: FloatFn): PartFn {
    (pos, tex, ind) => PrimModel(d, buffers, f32, pos, tex, ind)
  }

  /** One primitive of the mesh loop, or None for one that is skipped. */
  function PrimitiveOf(d: Doc, part: PartFn, p: GPrim, world: Mat4): (r: Result<Option<GltfPrim>>)
    ensures r.Ok? ==> (r.value.Some? <==> Drawable(p))
    ensures r.Ok? && r.value.Some? ==> r.value.value.localMat == world
    ensures r.Ok? && r.value.Some? ==> r.value.value.texture == TexForMaterial(d, p.material)
  {
    if !Drawable(p) then Ok(None)
    else
      var m := part(p.position.value, p.texcoord, p.indices.value);
      if m.Err? then Err(m.msg) else Ok(Some(GltfPrim(m.value, TexForMaterial(d, p.material), world)))
  }

  /** How many primitives of a mesh are drawn. */
  function CountDrawable(ps: seq<GPrim>): nat
    decreases |ps|
  {
    if ps == [] then 0
    else CountDrawable(ps[..|ps| - 1]) + (if Drawable(ps[|ps| - 1]) then 1 else 0)
  }

  /** `for prim in mesh.get("primitives", [])`: one output per drawn primitive,
      in order, each with the node's world matrix. */
  function MeshPrims(d: Doc, part: PartFn, ps: seq<GPrim>, world: Mat4): (r: Result<seq<GltfPrim>>)
    ensures r.Ok? ==> |r.value| == CountDrawable(ps)
    ensures r.Ok? ==> forall i :: 0 <= i < |r.value| ==> r.value[i].localMat == world
    decreases |ps|
  {
    if ps == [] then Ok([])
    else
      var n := |ps| - 1;
      var pre := MeshPrims(d, part, ps[..n], world);
      if pre.Err? then pre
      else
        var p := PrimitiveOf(d, part, ps[n], world);
        if p.Err? then Err(p.msg)
        else if p.value.None? then pre
        else Ok(pre.value + [p.value.value])
  }

  // ---------------------------------------------------------------------
  // The scene graph

  /** The primitives of a node's own mesh, if it has one. */
  function OwnPrims(d: Doc, part: PartFn, node: Node, world: Mat4): Result<seq<GltfPrim>> {
    if node.mesh.None? then Ok([])
    else
      var mesh := PyIndex(d.meshes, node.mesh.value);
      if mesh.None? then Err("list index out of range")
      else MeshPrims(d, part, mesh.value, world)
  }

  /** `visit(node_idx, parent_mat)`: the node's own primitives at
      `parent @ local`, then those of its children in order. `fuel` stands
      for Python's recursion limit, the depth at which a cyclic or very deep
      node graph raises RecursionError. */
  function Visit(d: Doc, part: PartFn, idx: int, parent: Mat4, fuel: nat): Result<seq<GltfPrim>>
    decreases fuel, 0
  {
    if fuel == 0 then Err("maximum recursion depth exceeded")
    else
      var node := PyIndex(d.nodes, idx);
      if node.None? then Err("list index out of range")
      else
        var local := NodeLocalMat(node.value);
        if local.Err? then Err(local.msg)
        else
          var world := MatMul(parent, local.value);
          var own := OwnPrims(d, part, node.value, world);
          if own.Err? then own
          else
            var rest := VisitAll(d, part, node.value.children, world, fuel - 1);
            if rest.Err? then rest else Ok(own.value + rest.value)
  }

  /** Visiting the nodes `cs` in order under the same parent matrix. */
  function VisitAll(d: Doc, part: PartFn, cs: seq<int>, parent: Mat4, fuel: nat): Result<seq<GltfPrim>>
    decreases fuel, |cs| + 1
  {
    if cs == [] then Ok([])
    else
      var n := |cs| - 1;
      var pre := VisitAll(d, part, cs[..n], parent, fuel);
      if pre.Err? then pre
      else
        var last := Visit(d, part, cs[n], parent, fuel);
        if last.Err? then last else Ok(pre.value + last.value)
  }

  /** `root_nodes`: the chosen scene's nodes, or every node when the
      document has no scenes. */
  function Roots(d: Doc): (r: Result<seq<int>>)
    ensures d.scenes == [] ==> r.Ok? && |r.value| == |d.nodes| && forall i :: 0 <= i < |d.nodes| ==> r.value[i] == i
    ensures d.scenes != [] ==> (r.Ok? <==> PyIndex(d.scenes, OrElse(d.scene, 0)).Some?)
    ensures d.scenes != [] && r.Ok? ==> r.value == PyIndex(d.scenes, OrElse(d.scene, 0)).value
  {
    if d.scenes != [] then
      var sc := PyIndex(d.scenes, OrElse(d.scene, 0));
      if sc.None? then Err("list index out of range") else Ok(sc.value)
    else Ok(seq(|d.nodes|, i => i))
  }

  /** `load_gltf_scene` after parsing: every root visited from the identity. */
  function LoadScene(d: Doc, buffers: seq<seq<byte>>, f32: FloatFn, fuel: nat): Result<seq<GltfPrim>> {
    var roots := Roots(d);
    if roots.Err? then Err(roots.msg) else VisitAll(d, Parts(d, buffers, f32), roots.value, Identity(), fuel)
  }

  // ---------------------------------------------------------------------
  // World matrices

  /** Every primitive's matrix premultiplied by `a`. */
  function Moved(a: Mat4, r: Result<seq<GltfPrim>>): (r': Result<seq<GltfPrim>>)
    ensures r'.Ok? <==> r.Ok?
    ensures r.Err? ==> r' == r
    ensures r.Ok? ==> |r'.value| == |r.value| && forall i :: 0 <= i < |r.value| ==>
      r'.value[i] == r.value[i].(localMat := MatMul(a, r.value[i].localMat))
  {
    if r.Err? then r
    else Ok(seq(|r.value|, i requires 0 <= i < |r.value| => r.value[i].(localMat := MatMul(a, r.value[i].localMat))))
  }

  lemma {:induction false} MovedAppend(a: Mat4, x: seq<GltfPrim>, y: seq<GltfPrim>)
    ensures Moved(a, Ok(x + y)) == Ok(Moved(a, Ok(x)).value + Moved(a, Ok(y)).value)
  {
    var l := Moved(a, Ok(x + y)).value;
    var r := Moved(a, Ok(x)).value + Moved(a, Ok(y)).value;
    forall i | 0 <= i < |l|
      ensures l[i] == r[i]
    {
      if i >= |x| {
        assert (x + y)[i] == y[i - |x|];
      }
    }
    assert l == r;
  }

  /** A mesh's primitives under `a @ w` are those under `w`, moved by `a`. */
  lemma {:induction false} MeshPrimsMoved(d: Doc, part: PartFn, ps: seq<GPrim>, a: Mat4, w: Mat4)
    ensures MeshPrims(d, part, ps, MatMul(a, w)) == Moved(a, MeshPrims(d, part, ps, w))
    decreases |ps|
  {
    if ps != [] {
      var n := |ps| - 1;
      MeshPrimsMoved(d, part, ps[..n], a, w);
      var pre := MeshPrims(d, part, ps[..n], w);
      var p := PrimitiveOf(d, part, ps[n], w);
      var pa := PrimitiveOf(d, part, ps[n], MatMul(a, w));
      assert pa.Ok? == p.Ok? && (p.Ok? ==> pa.value.None? == p.value.None?);
      if pre.Ok? && p.Ok? && p.value.Some? {
        assert pa.value.value == p.value.value.(localMat := MatMul(a, w));
        MovedAppend(a, pre.value, [p.value.value]);
        assert Moved(a, Ok([p.value.value])).value == [pa.value.value];
        assert MeshPrims(d, part, ps, MatMul(a, w)) == Ok(Moved(a, pre).value + [pa.value.value]);
      }
    }
  }

  /** Setting a node's parent matrix to `a @ p` moves every primitive below
      it by `a`: a child's world matrix is its parent's times its own, all
      the way down, and nothing else depends on the parent. */
  lemma {:induction false} VisitMoved(d: Doc, part: PartFn, idx: int, a: Mat4, p: Mat4, fuel: nat)
    ensures Visit(d, part, idx, MatMul(a, p), fuel) == Moved(a, Visit(d, part, idx, p, fuel))
    decreases fuel, 0
  {
    if fuel > 0 {
      var node := PyIndex(d.nodes, idx);
      if node.Some? {
        var local := NodeLocalMat(node.value);
        if local.Ok? {
          var w := MatMul(p, local.value);
          MatMulAssoc(a, p, local.value);
          OwnMoved(d, part, node.value, a, w);
          VisitAllMoved(d, part, node.value.children, a, w, fuel - 1);
          var own := OwnPrims(d, part, node.value, w);
          var rest := VisitAll(d, part, node.value.children, w, fuel - 1);
          if own.Ok? && rest.Ok? {
            MovedAppend(a, own.value, rest.value);
          }
        }
      }
    }
  }

  lemma {:induction false} OwnMoved(d: Doc, part: PartFn, node: Node, a: Mat4, w: Mat4)
    ensures OwnPrims(d, part, node, MatMul(a, w)) == Moved(a, OwnPrims(d, part, node, w))
  {
    if node.mesh.Some? && PyIndex(d.meshes, node.mesh.value).Some? {
      MeshPrimsMoved(d, part, PyIndex(d.meshes, node.mesh.value).value, a, w);
    }
  }

  lemma {:induction false} VisitAllMoved(d: Doc, part: PartFn, cs: seq<int>, a: Mat4, p: Mat4, fuel: nat)
    ensures VisitAll(d, part, cs, MatMul(a, p), fuel) == Moved(a, VisitAll(d, part, cs, p, fuel))
    decreases fuel, |cs| + 1
  {
    if cs != [] {
      var n := |cs| - 1;
      VisitAllMoved(d, part, cs[..n], a, p, fuel);
      VisitMoved(d, part, cs[n], a, p, fuel);
      var pre := VisitAll(d, part, cs[..n], p, fuel);
      var last := Visit(d, part, cs[n], p, fuel);
      if pre.Ok? && last.Ok? {
        MovedAppend(a, pre.value, last.value);
      }
    }
  }

  /** What a node contributes under parent `p` is what it contributes from
      the identity, moved by `p`: roots start from the identity, and each
      primitive's matrix is the product of the local matrices on its path. */
  lemma {:induction false} VisitFromIdentity(d: Doc, part: PartFn, idx: int, p: Mat4, fuel: nat)
    ensures Visit(d, part, idx, p, fuel) == Moved(p, Visit(d, part, idx, Identity(), fuel))
  {
    IdentityMulRight(p);
    VisitMoved(d, part, idx, p, Identity(), fuel);
  }

  /** A node's own primitives come first, at `parent @ local`, followed by
      what its children give under that world matrix. */
  lemma {:induction false} VisitOwnFirst(d: Doc, part: PartFn, idx: int, parent: Mat4, fuel: nat)
    requires Visit(d, part, idx, parent, fuel).Ok?
    ensures fuel > 0 && PyIndex(d.nodes, idx).Some? && NodeLocalMat(PyIndex(d.nodes, idx).value).Ok?
    ensures var node := PyIndex(d.nodes, idx).value;
      var world := MatMul(parent, NodeLocalMat(node).value);
      var own := OwnPrims(d, part, node, world);
      var rest := VisitAll(d, part, node.children, world, fuel - 1);
      own.Ok? && rest.Ok? && Visit(d, part, idx, parent, fuel).value == own.value + rest.value &&
      forall i :: 0 <= i < |own.value| ==> own.value[i].localMat == world
  {
  }

  // ---------------------------------------------------------------------
  // The loader's loops

  /** Once the mesh loop has failed it stays failed with the same error. */
  lemma {:induction false} MeshPrimsErr(d: Doc, part: PartFn, ps: seq<GPrim>, k: nat, world: Mat4)
    requires k <= |ps| && MeshPrims(d, part, ps[..k], world).Err?
    ensures MeshPrims(d, part, ps, world) == MeshPrims(d, part, ps[..k], world)
    decreases |ps|
  {
    if k < |ps| {
      var n := |ps| - 1;
      assert ps[..n][..k] == ps[..k];
      MeshPrimsErr(d, part, ps[..n], k, world);
    } else {
      assert ps[..k] == ps;
    }
  }

  /** Once a traversal of several nodes has failed it stays failed with the
      same error. */
  lemma {:induction false} VisitAllErr(d: Doc, part: PartFn, cs: seq<int>, k: nat, parent: Mat4, fuel: nat)
    requires k <= |cs| && VisitAll(d, part, cs[..k], parent, fuel).Err?
    ensures VisitAll(d, part, cs, parent, fuel) == VisitAll(d, part, cs[..k], parent, fuel)
    decreases |cs|
  {
    if k < |cs| {
      var n := |cs| - 1;
      assert cs[..n][..k] == cs[..k];
      VisitAllErr(d, part, cs[..n], k, parent, fuel);
    } else {
      assert cs[..k] == cs;
    }
  }

  /** The body of the primitive loop for a drawn primitive: read the three
      accessors, build the vertices and the flat index list, run the triples
      loop. */
  method BuildPrimitive(d: Doc, buffers: seq<seq<byte>>, f32: FloatFn, pos: int, tex: Option<int>, ind: int)
    returns (r: Result<MeshModel>)
    ensures r == PrimModel(d, buffers, f32, pos, tex, ind)
  {
    var positions := ReadAccessorLoop(d, buffers, pos, f32);
    if positions.Err? {
      return Err(positions.msg);
    }
    var uvs: Option<seq<seq<real>>> := None;
    if tex.Some? {
      var u := ReadAccessorLoop(d, buffers, tex.value, f32);
      if u.Err? {
        return Err(u.msg);
      }
      uvs := Some(u.value);
    }
    var indices := ReadAccessorLoop(d, buffers, ind, f32);
    if indices.Err? {
      return Err(indices.msg);
    }
    var verts := Verts(positions.value);
    if verts.Err? {
      return Err(verts.msg);
    }
    var flat := Flat(indices.value);
    if flat.Err? {
      return Err(flat.msg);
    }
    var fl := GroupFaces(flat.value, uvs);
    if fl.Err? {
      return Err(fl.msg);
    }
    return Ok(MeshModel(verts.value, fl.value.faces, fl.value.uvs));
  }

  /** `for prim in mesh.get("primitives", [])`, skipping a primitive without
      POSITION or indices. */
  method MeshLoop(d: Doc, buffers: seq<seq<byte>>, f32: FloatFn, ps: seq<GPrim>, world: Mat4)
    returns (r: Result<seq<GltfPrim>>)
    ensures r == MeshPrims(d, Parts(d, buffers, f32), ps, world)
  {
    var part := Parts(d, buffers, f32);
    var out: seq<GltfPrim> := [];
    for i := 0 to |ps|
      invariant MeshPrims(d, part, ps[..i], world) == Ok(out)
    {
      assert ps[..i + 1][..i] == ps[..i];
      var p := ps[i];
      if !Drawable(p) {
        continue;
      }
      var m := BuildPrimitive(d, buffers, f32, p.position.value, p.texcoord, p.indices.value);
      if m.Err? {
        MeshPrimsErr(d, part, ps, i + 1, world);
        return Err(m.msg);
      }
      out := out + [GltfPrim(m.value, TexForMaterial(d, p.material), world)];
    }
    assert ps[..|ps|] == ps;
    return Ok(out);
  }

  /** `visit(node_idx, parent_mat)`, recursing into the children in order. */
  method VisitNode(d: Doc, buffers: seq<seq<byte>>, f32: FloatFn, idx: int, parent: Mat4, fuel: nat)
    returns (r: Result<seq<GltfPrim>>)
    ensures r == Visit(d, Parts(d, buffers, f32), idx, parent, fuel)
    decreases fuel
  {
    var part := Parts(d, buffers, f32);
    if fuel == 0 {
      return Err("maximum recursion depth exceeded");
    }
    var node := PyIndex(d.nodes, idx);
    if node.None? {
      return Err("list index out of range");
    }
    var local := NodeLocalMat(node.value);
    if local.Err? {
      return Err(local.msg);
    }
    var world := MatMul(parent, local.value);
    var own := NodeMesh(d, buffers, f32, node.value, world);
    if own.Err? {
      return own;
    }
    var cs := node.value.children;
    var rest: seq<GltfPrim> := [];
    for i := 0 to |cs|
      invariant VisitAll(d, part, cs[..i], world, fuel - 1) == Ok(rest)
    {
      assert cs[..i + 1][..i] == cs[..i];
      var c := VisitNode(d, buffers, f32, cs[i], world, fuel - 1);
      if c.Err? {
        VisitAllErr(d, part, cs, i + 1, world, fuel - 1);
        return c;
      }
      rest := rest + c.value;
    }
    assert cs[..|cs|] == cs;
    return Ok(own.value + rest);
  }

  /** `mesh_idx = node.get("mesh")` and, when present, the loop over that
      mesh's primitives. */
  method NodeMesh(d: Doc, buffers: seq<seq<byte>>, f32: FloatFn, node: Node, world: Mat4)
    returns (r: Result<seq<GltfPrim>>)
    ensures r == OwnPrims(d, Parts(d, buffers, f32), node, world)
  {
    if node.mesh.None? {
      return Ok([]);
    }
    var mesh := PyIndex(d.meshes, node.mesh.value);
    if mesh.None? {
      return Err("list index out of range");
    }
    r := MeshLoop(d, buffers, f32, mesh.value, world);
  }

  /** `load_gltf_scene` after parsing: `for n in root_nodes: visit(int(n), ident)`. */
  method LoadGltfScene(d: Doc, buffers: seq<seq<byte>>, f32: FloatFn, fuel: nat) returns (r: Result<seq<GltfPrim>>)
    ensures r == LoadScene(d, buffers, f32, fuel)
  {
    var part := Parts(d, buffers, f32);
    var roots := Roots(d);
    if roots.Err? {
      return Err(roots.msg);
    }
    var ns := roots.value;
    var prims: seq<GltfPrim> := [];
    for i := 0 to |ns|
      invariant VisitAll(d, part, ns[..i], Identity(), fuel) == Ok(prims)
    {
      assert ns[..i + 1][..i] == ns[..i];
      var c := VisitNode(d, buffers, f32, ns[i], Identity(), fuel);
      if c.Err? {
        VisitAllErr(d, part, ns, i + 1, Identity(), fuel);
        return c;
      }
      prims := prims + c.value;
    }
    assert ns[..|ns|] == ns;
    return Ok(prims);
  }
}
