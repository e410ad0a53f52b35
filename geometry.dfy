/**
 * Vectors, colours and matrices of the rasterizer, over exact reals.
 * The math headers of the renderer (Vector2, Vector3, Vector4, Matrix,
 * ColorRGB) are not part of this model; the operations below are the ones
 * the rasterizer uses, in the row-vector convention of `Matrix{xAxis, yAxis,
 * zAxis, translation}`.
 */
module Geometry {

  datatype Vector2 = Vector2(x: real, y: real)
  datatype Vector3 = Vector3(x: real, y: real, z: real)
  datatype Vector4 = Vector4(x: real, y: real, z: real, w: real)
  datatype ColorRGB = ColorRGB(r: real, g: real, b: real)

  /** A 4x4 matrix given by its rows. */
  datatype Matrix = Matrix(r0: Vector4, r1: Vector4, r2: Vector4, r3: Vector4)

  function Sub2(a: Vector2, b: Vector2): Vector2 {
    Vector2(a.x - b.x, a.y - b.y)
  }

  /** The 2D cross product: twice the signed area spanned by a and b. */
  function Cross2(a: Vector2, b: Vector2): real {
    a.x * b.y - a.y * b.x
  }

  function Min(a: real, b: real): real { if a < b then a else b }
  function Max(a: real, b: real): real { if a < b then b else a }

  /** Clamp v into [lo, hi]. */
  function Clamp(v: real, lo: real, hi: real): (r: real)
    requires lo <= hi
    ensures lo <= r <= hi
    ensures lo <= v <= hi ==> r == v
  {
    if v < lo then lo else if hi < v then hi else v
  }

  lemma ClampMonotone(a: real, b: real, lo: real, hi: real)
    requires lo <= hi && a <= b
    ensures Clamp(a, lo, hi) <= Clamp(b, lo, hi)
  {
  }

  /** A float-to-int cast: truncation toward zero. */
  function Trunc(v: real): int {
    if 0.0 <= v then v.Floor else -((-v).Floor)
  }

  /** On non-negative values truncation is the floor. */
  lemma TruncNonNegative(v: real)
    requires 0.0 <= v
    ensures Trunc(v) == v.Floor && 0 <= Trunc(v)
    ensures Trunc(v) as real <= v < Trunc(v) as real + 1.0
  {
  }

  /** Truncation moves toward zero by less than one. */
  lemma TruncBounds(v: real)
    ensures 0.0 <= v ==> 0 <= Trunc(v) && Trunc(v) as real <= v < Trunc(v) as real + 1.0
    ensures v <= 0.0 ==> Trunc(v) <= 0 && Trunc(v) as real - 1.0 < v <= Trunc(v) as real
  {
  }

  lemma MulAtLeast(c: real, m: real)
    requires 1.0 <= c && 0.0 < m
    ensures m <= c * m
  {
    assert c * m == m + (c - 1.0) * m;
  }

  /** A fraction a / m with 0 <= a < m lies in [0, 1). */
  lemma DivBelowOne(a: real, m: real)
    requires 0.0 < m && 0.0 <= a < m
    ensures 0.0 <= a / m < 1.0 && (a / m) * m == a
  {
    var c := a / m;
    assert c * m == a;
    if 1.0 <= c {
      MulAtLeast(c, m);
      assert false;
    }
  }

  /** Multiplying by a and by 1 / a cancels. */
  lemma CancelReciprocal(a: real, v: real)
    requires a != 0.0
    ensures a * ((1.0 / a) * v) == v && (1.0 / a) * (a * v) == v
  {
    assert (1.0 / a) * a == 1.0;
    assert a * ((1.0 / a) * v) == ((1.0 / a) * a) * v;
    assert (1.0 / a) * (a * v) == ((1.0 / a) * a) * v;
  }

  lemma ReciprocalOfReciprocal(a: real)
    requires a != 0.0
    ensures 1.0 / (1.0 / a) == a
  {
  }

  function Scale3(s: real, v: Vector3): Vector3 { Vector3(s * v.x, s * v.y, s * v.z) }
  function Add3(a: Vector3, b: Vector3): Vector3 { Vector3(a.x + b.x, a.y + b.y, a.z + b.z) }
  function Scale2(s: real, v: Vector2): Vector2 { Vector2(s * v.x, s * v.y) }
  function Add2(a: Vector2, b: Vector2): Vector2 { Vector2(a.x + b.x, a.y + b.y) }

  function AddColor(a: ColorRGB, b: ColorRGB): ColorRGB { ColorRGB(a.r + b.r, a.g + b.g, a.b + b.b) }
  function ScaleColor(s: real, c: ColorRGB): ColorRGB { ColorRGB(s * c.r, s * c.g, s * c.b) }
  function Gray(v: real): ColorRGB { ColorRGB(v, v, v) }

  predicate NonNegative(c: ColorRGB) { 0.0 <= c.r && 0.0 <= c.g && 0.0 <= c.b }
  predicate InUnitRange(c: ColorRGB) { NonNegative(c) && c.r <= 1.0 && c.g <= 1.0 && c.b <= 1.0 }

  function Dot4(a: Vector4, b: Vector4): real { a.x * b.x + a.y * b.y + a.z * b.z + a.w * b.w }

  /** Column j of m, in the order x, y, z, w. */
  function Column(m: Matrix, j: nat): Vector4
    requires j < 4
  {
    if j == 0 then Vector4(m.r0.x, m.r1.x, m.r2.x, m.r3.x)
    else if j == 1 then Vector4(m.r0.y, m.r1.y, m.r2.y, m.r3.y)
    else if j == 2 then Vector4(m.r0.z, m.r1.z, m.r2.z, m.r3.z)
    else Vector4(m.r0.w, m.r1.w, m.r2.w, m.r3.w)
  }

  /** The row vector r times the matrix b. */
  function RowTimes(r: Vector4, b: Matrix): Vector4 {
    Vector4(Dot4(r, Column(b, 0)), Dot4(r, Column(b, 1)), Dot4(r, Column(b, 2)), Dot4(r, Column(b, 3)))
  }

  /** Matrix product a * b, row by row. */
  function Mul(a: Matrix, b: Matrix): Matrix {
    Matrix(RowTimes(a.r0, b), RowTimes(a.r1, b), RowTimes(a.r2, b), RowTimes(a.r3, b))
  }

  /** A homogeneous point transformed as a row vector: p * m. */
  function TransformPoint(m: Matrix, p: Vector4): Vector4 {
    Vector4(
      p.x * m.r0.x + p.y * m.r1.x + p.z * m.r2.x + p.w * m.r3.x,
      p.x * m.r0.y + p.y * m.r1.y + p.z * m.r2.y + p.w * m.r3.y,
      p.x * m.r0.z + p.y * m.r1.z + p.z * m.r2.z + p.w * m.r3.z,
      p.x * m.r0.w + p.y * m.r1.w + p.z * m.r2.w + p.w * m.r3.w)
  }

  /** A direction transformed by the upper-left 3x3 part only (no translation). */
  function TransformVector(m: Matrix, v: Vector3): Vector3 {
    Vector3(
      v.x * m.r0.x + v.y * m.r1.x + v.z * m.r2.x,
      v.x * m.r0.y + v.y * m.r1.y + v.z * m.r2.y,
      v.x * m.r0.z + v.y * m.r1.z + v.z * m.r2.z)
  }

  /** A matrix whose linear part is the identity: a pure translation by t. */
  function Translation(t: Vector3): Matrix {
    Matrix(Vector4(1.0, 0.0, 0.0, 0.0), Vector4(0.0, 1.0, 0.0, 0.0),
           Vector4(0.0, 0.0, 1.0, 0.0), Vector4(t.x, t.y, t.z, 1.0))
  }

  /** Directions ignore the translation row: a translation leaves them unchanged,
      while a point is moved by exactly t. */
  lemma TranslationMovesPointsOnly(t: Vector3, v: Vector3)
    ensures TransformVector(Translation(t), v) == v
    ensures TransformPoint(Translation(t), Vector4(v.x, v.y, v.z, 1.0)) == Vector4(v.x + t.x, v.y + t.y, v.z + t.z, 1.0)
  {
  }

  /** One output component of p * (a * b), regrouped as (p * a) * b. */
  lemma {:induction false} RegroupComponent(p: Vector4, a: Matrix, c: Vector4)
    ensures Dot4(p, Vector4(Dot4(a.r0, c), Dot4(a.r1, c), Dot4(a.r2, c), Dot4(a.r3, c))) == Dot4(RowTimes(p, a), c)
  {
    var u0, u1, u2, u3 := Scale4(p.x, a.r0), Scale4(p.y, a.r1), Scale4(p.z, a.r2), Scale4(p.w, a.r3);
    ScaledDot(p.x, a.r0, c);
    ScaledDot(p.y, a.r1, c);
    ScaledDot(p.z, a.r2, c);
    ScaledDot(p.w, a.r3, c);
    DotAdd(u0, u1, c);
    DotAdd(Add4(u0, u1), u2, c);
    DotAdd(Add4(Add4(u0, u1), u2), u3, c);
    ScaledRowsSum(p, a);
  }

  /** The row vector p times a is the sum of a's rows scaled by p's components. */
  lemma ScaledRowsSum(p: Vector4, a: Matrix)
    ensures Add4(Add4(Add4(Scale4(p.x, a.r0), Scale4(p.y, a.r1)), Scale4(p.z, a.r2)), Scale4(p.w, a.r3)) == RowTimes(p, a)
  {
    var r := RowTimes(p, a);
    assert r.x == p.x * a.r0.x + p.y * a.r1.x + p.z * a.r2.x + p.w * a.r3.x;
    assert r.y == p.x * a.r0.y + p.y * a.r1.y + p.z * a.r2.y + p.w * a.r3.y;
    assert r.z == p.x * a.r0.z + p.y * a.r1.z + p.z * a.r2.z + p.w * a.r3.z;
    assert r.w == p.x * a.r0.w + p.y * a.r1.w + p.z * a.r2.w + p.w * a.r3.w;
  }

  function Scale4(k: real, v: Vector4): Vector4 { Vector4(k * v.x, k * v.y, k * v.z, k * v.w) }
  function Add4(u: Vector4, v: Vector4): Vector4 { Vector4(u.x + v.x, u.y + v.y, u.z + v.z, u.w + v.w) }

  lemma ScaledDot(k: real, r: Vector4, c: Vector4)
    ensures k * Dot4(r, c) == Dot4(Scale4(k, r), c)
  {
    assert k * (r.x * c.x) == (k * r.x) * c.x;
    assert k * (r.y * c.y) == (k * r.y) * c.y;
    assert k * (r.z * c.z) == (k * r.z) * c.z;
    assert k * (r.w * c.w) == (k * r.w) * c.w;
  }

  lemma DotAdd(u: Vector4, v: Vector4, c: Vector4)
    ensures Dot4(u, c) + Dot4(v, c) == Dot4(Add4(u, v), c)
  {
    assert u.x * c.x + v.x * c.x == (u.x + v.x) * c.x;
    assert u.y * c.y + v.y * c.y == (u.y + v.y) * c.y;
    assert u.z * c.z + v.z * c.z == (u.z + v.z) * c.z;
    assert u.w * c.w + v.w * c.w == (u.w + v.w) * c.w;
  }

  /** TransformPoint is the row vector p times the matrix. */
  lemma TransformPointByColumns(m: Matrix, p: Vector4)
    ensures TransformPoint(m, p) == RowTimes(p, m)
  {
  }

  /** Transforming by a product is transforming by each factor in turn, so
      world * view * projection applies world first. */
  lemma {:induction false} TransformPointMul(a: Matrix, b: Matrix, p: Vector4)
    ensures TransformPoint(Mul(a, b), p) == TransformPoint(b, TransformPoint(a, p))
  {
    TransformPointByColumns(Mul(a, b), p);
    TransformPointByColumns(a, p);
    TransformPointByColumns(b, TransformPoint(a, p));
    var ab := Mul(a, b);
    assert Column(ab, 0) == Vector4(Dot4(a.r0, Column(b, 0)), Dot4(a.r1, Column(b, 0)), Dot4(a.r2, Column(b, 0)), Dot4(a.r3, Column(b, 0)));
    assert Column(ab, 1) == Vector4(Dot4(a.r0, Column(b, 1)), Dot4(a.r1, Column(b, 1)), Dot4(a.r2, Column(b, 1)), Dot4(a.r3, Column(b, 1)));
    assert Column(ab, 2) == Vector4(Dot4(a.r0, Column(b, 2)), Dot4(a.r1, Column(b, 2)), Dot4(a.r2, Column(b, 2)), Dot4(a.r3, Column(b, 2)));
    assert Column(ab, 3) == Vector4(Dot4(a.r0, Column(b, 3)), Dot4(a.r1, Column(b, 3)), Dot4(a.r2, Column(b, 3)), Dot4(a.r3, Column(b, 3)));
    RegroupComponent(p, a, Column(b, 0));
    RegroupComponent(p, a, Column(b, 1));
    RegroupComponent(p, a, Column(b, 2));
    RegroupComponent(p, a, Column(b, 3));
  }
}
