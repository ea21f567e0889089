/** Small shared helpers: optional values, Python-style errors and the
    integer conversions of Python's float arithmetic, stated over reals. */
module Util {

  datatype Option<+T> = None | Some(value: T)

  /** The outcome of an operation that may raise a Python exception. */
  datatype Result<+T> = Ok(value: T) | Err(msg: string)

  /** Python's `int(x)` on a float: truncation toward zero. */
  function Trunc(x: real): (r: int)
    ensures x >= 0.0 ==> 0 <= r && r as real <= x < r as real + 1.0
    ensures x < 0.0 ==> r <= 0 && r as real - 1.0 < x <= r as real
  {
    if x >= 0.0 then x.Floor else -((-x).Floor)
  }

  /** Python's `math.ceil(x)`: the least integer not below x. */
  function Ceil(x: real): (r: int)
    ensures x <= r as real < x + 1.0
  {
    -((-x).Floor)
  }

  function Max(a: real, b: real): (r: real)
    ensures r >= a && r >= b && (r == a || r == b)
  {
    if a >= b then a else b
  }

  function Min(a: real, b: real): (r: real)
    ensures r <= a && r <= b && (r == a || r == b)
  {
    if a <= b then a else b
  }

  function IMax(a: int, b: int): (r: int)
    ensures r >= a && r >= b && (r == a || r == b)
  {
    if a >= b then a else b
  }

  function IMin(a: int, b: int): (r: int)
    ensures r <= a && r <= b && (r == a || r == b)
  {
    if a <= b then a else b
  }

  /** Python's `min(a, b, c)`. */
  function Min3(a: real, b: real, c: real): (r: real)
    ensures r <= a && r <= b && r <= c
    ensures r == a || r == b || r == c
  {
    Min(Min(a, b), c)
  }

  /** Python's `max(a, b, c)`. */
  function Max3(a: real, b: real, c: real): (r: real)
    ensures r >= a && r >= b && r >= c
    ensures r == a || r == b || r == c
  {
    Max(Max(a, b), c)
  }

  function Abs(x: real): (r: real)
    ensures r >= 0.0 && (r == x || r == -x)
  {
    if x < 0.0 then -x else x
  }

  /** Python's `s[i]` on a list: negative indices count from the end, and
      anything else outside the list raises IndexError (None here). */
  function PyIndex<T>(s: seq<T>, i: int): (r: Option<T>)
    ensures r.Some? <==> -|s| <= i < |s|
    ensures 0 <= i < |s| ==> r == Some(s[i])
    ensures -|s| <= i < 0 ==> r == Some(s[|s| + i])
  {
    if 0 <= i < |s| then Some(s[i])
    else if -|s| <= i < 0 then Some(s[|s| + i])
    else None
  }

  /** The flat row-major index y*w + x of a pixel lies inside a w*h buffer. */
  lemma FlatIndexInBounds(x: int, y: int, w: int, h: int)
    requires 0 <= x < w && 0 <= y < h
    ensures 0 <= y * w + x < w * h
  {
    assert y * w <= (h - 1) * w by { MulLeRight(y, h - 1, w); }
    assert (h - 1) * w + w == h * w;
  }

  lemma MulLeRight(a: int, b: int, c: int)
    requires a <= b && c >= 0
    ensures a * c <= b * c
  {
    assert b * c - a * c == (b - a) * c;
  }

  /** Distinct pixels of one row-major grid have distinct flat indices. */
  lemma FlatIndexInjective(x: int, y: int, x': int, y': int, w: int)
    requires 0 <= x < w && 0 <= x' < w
    requires y * w + x == y' * w + x'
    ensures x == x' && y == y'
  {
    if y < y' {
      MulLeRight(y + 1, y', w);
      assert false;
    } else if y' < y {
      MulLeRight(y' + 1, y, w);
      assert false;
    }
  }

  /** Decomposing a flat index back into its column and row. */
  lemma FlatIndexSplit(j: int, w: int)
    requires w > 0 && j >= 0
    ensures j == (j / w) * w + j % w && 0 <= j % w < w && j / w >= 0
  {
  }
}
