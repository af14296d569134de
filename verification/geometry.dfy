/**
 * Points, vectors, sizes and the affine matrices of WPF (`System.Windows.Point`,
 * `Vector`, `Size`, `System.Windows.Media.Matrix`), over the reals.
 *
 * WPF matrices act on row vectors: a point (x, y) is sent to
 * (x*M11 + y*M21 + OffsetX, x*M12 + y*M22 + OffsetY), and `RotateAt`, `ScaleAt` and
 * `Translate` append their operation, so it is applied after the existing transform.
 */
module Geometry {

  /** A WPF `Point` or `Vector`. */
  datatype Vec = Vec(x: real, y: real)

  const Origin: Vec := Vec(0.0, 0.0)

  function Add(a: Vec, b: Vec): Vec { Vec(a.x + b.x, a.y + b.y) }

  function Sub(a: Vec, b: Vec): Vec { Vec(a.x - b.x, a.y - b.y) }

  function Times(v: Vec, k: real): Vec { Vec(v.x * k, v.y * k) }

  /** Componentwise product, the effect of a non-uniform scale on a vector. */
  function ScaleBy(v: Vec, s: Vec): Vec { Vec(v.x * s.x, v.y * s.y) }

  lemma AddSubCancel(a: Vec, b: Vec)
    ensures Sub(Add(a, b), a) == b
    ensures Add(a, Sub(b, a)) == b
  {
  }

  lemma AddOrigin(a: Vec)
    ensures Add(a, Origin) == a
    ensures Sub(a, Origin) == a
  {
  }

  function SquaredLength(v: Vec): real { v.x * v.x + v.y * v.y }

  /**
   * `v.Length > limit`, written without a square root: a length is never negative,
   * and for a non-negative limit the comparison survives squaring both sides.
   */
  predicate LongerThan(v: Vec, limit: real)
  {
    limit < 0.0 || SquaredLength(v) > limit * limit
  }

  /** A WPF `Size`. */
  datatype Size = Size(width: real, height: real)

  /** A WPF `Rect`: top-left corner and size. */
  datatype Rect = Rect(left: real, top: real, width: real, height: real)

  /** A double that may be NaN; only the display-matrix center carries one. */
  datatype Double = Finite(value: real) | NaN

  /** A WPF `Point` whose coordinates may be NaN. */
  datatype NPoint = NPoint(x: Double, y: Double)

  function Lift(p: Vec): NPoint { NPoint(Finite(p.x), Finite(p.y)) }

  /** C#'s `==` on doubles: NaN equals nothing, not even itself. */
  predicate IeeeEqual(a: Double, b: Double)
  {
    a.Finite? && b.Finite? && a.value == b.value
  }

  /** C#'s `==` on points (`Point.op_Equality`). */
  predicate IeeeEqualPoints(p: NPoint, q: NPoint)
  {
    IeeeEqual(p.x, q.x) && IeeeEqual(p.y, q.y)
  }

  /** NaN propagates through a subtraction. */
  function SubDouble(a: Double, b: real): Double
  {
    match a
    case Finite(v) => Finite(v - b)
    case NaN => NaN
  }

  /**
   * Cosine and sine of an angle given in degrees. Trigonometry is not modelled:
   * every operation that rotates takes the function `trig` that supplies them.
   */
  datatype CosSin = CosSin(cos: real, sin: real)

  type Trig = real -> CosSin

  /** Counter-clockwise rotation of a vector by the angle whose cosine and sine are given. */
  function Rotate(v: Vec, cs: CosSin): Vec
  {
    Vec(v.x * cs.cos - v.y * cs.sin, v.x * cs.sin + v.y * cs.cos)
  }

  /** The only fact about `trig` the model relies on: a zero angle does not rotate. */
  predicate ZeroAngleIsIdentity(trig: Trig)
  {
    trig(0.0) == CosSin(1.0, 0.0)
  }

  /** An affine WPF `Matrix`. */
  datatype Matrix = Matrix(m11: real, m12: real, m21: real, m22: real, offsetX: real, offsetY: real)

  const Identity: Matrix := Matrix(1.0, 0.0, 0.0, 1.0, 0.0, 0.0)

  /** `Matrix.Transform(Point)`. */
  function Transform(m: Matrix, p: Vec): Vec
  {
    Vec(p.x * m.m11 + p.y * m.m21 + m.offsetX, p.x * m.m12 + p.y * m.m22 + m.offsetY)
  }

  /** `Matrix.Transform(Vector)`: vectors ignore the offset. */
  function TransformVector(m: Matrix, v: Vec): Vec
  {
    Vec(v.x * m.m11 + v.y * m.m21, v.x * m.m12 + v.y * m.m22)
  }

  /** A transformed vector is the difference of the transformed points it joins: the offset cancels. */
  lemma TransformVectorDifference(m: Matrix, a: Vec, b: Vec)
    ensures TransformVector(m, Sub(a, b)) == Sub(Transform(m, a), Transform(m, b))
  {
  }

  /** `a * b`: first `a`, then `b`. */
  function Multiply(a: Matrix, b: Matrix): Matrix
  {
    Matrix(
      a.m11 * b.m11 + a.m12 * b.m21, a.m11 * b.m12 + a.m12 * b.m22,
      a.m21 * b.m11 + a.m22 * b.m21, a.m21 * b.m12 + a.m22 * b.m22,
      a.offsetX * b.m11 + a.offsetY * b.m21 + b.offsetX,
      a.offsetX * b.m12 + a.offsetY * b.m22 + b.offsetY)
  }

  /** The product applies `a` and then `b`. */
  lemma MultiplyPoint(a: Matrix, b: Matrix, p: Vec)
    ensures Transform(Multiply(a, b), p) == Transform(b, Transform(a, p))
  {
    MultiplyPointX(a, b, p);
    MultiplyPointY(a, b, p);
  }

  lemma MultiplyPointX(a: Matrix, b: Matrix, p: Vec)
    ensures Transform(Multiply(a, b), p).x == Transform(b, Transform(a, p)).x
  {
    var q := Transform(a, p);
    Regroup(q.x, q.y, p.x, p.y, a.m11, a.m12, a.m21, a.m22, a.offsetX, a.offsetY, b.m11, b.m21, b.offsetX);
  }

  lemma MultiplyPointY(a: Matrix, b: Matrix, p: Vec)
    ensures Transform(Multiply(a, b), p).y == Transform(b, Transform(a, p)).y
  {
    var q := Transform(a, p);
    Regroup(q.x, q.y, p.x, p.y, a.m11, a.m12, a.m21, a.m22, a.offsetX, a.offsetY, b.m12, b.m22, b.offsetY);
  }

  /** One coordinate of a point (qx, qy) mapped by `a` and then by a row (b1, b2, bo) of `b`, regrouped by the point's coordinates. */
  lemma Regroup(qx: real, qy: real, px: real, py: real, a11: real, a12: real, a21: real, a22: real, ax: real, ay: real,
                b1: real, b2: real, bo: real)
    requires qx == px * a11 + py * a21 + ax && qy == px * a12 + py * a22 + ay
    ensures qx * b1 + qy * b2 + bo == px * (a11 * b1 + a12 * b2) + py * (a21 * b1 + a22 * b2) + (ax * b1 + ay * b2 + bo)
  {
  }

  /** Multiplying by the identity on either side changes nothing. */
  lemma MultiplyIdentity(m: Matrix)
    ensures Multiply(Identity, m) == m
    ensures Multiply(m, Identity) == m
  {
  }

  lemma IdentityPoint(p: Vec)
    ensures Transform(Identity, p) == p
  {
  }

  /** The translation matrix of `Matrix.Translate`. */
  function Translation(dx: real, dy: real): Matrix
  {
    Matrix(1.0, 0.0, 0.0, 1.0, dx, dy)
  }

  /** The matrix of `Matrix.ScaleAt(sx, sy, cx, cy)`: scaling about (cx, cy). */
  function ScalingAt(sx: real, sy: real, cx: real, cy: real): Matrix
  {
    Matrix(sx, 0.0, 0.0, sy, cx - sx * cx, cy - sy * cy)
  }

  /** The matrix of `Matrix.RotateAt(angle, cx, cy)` for the given cosine and sine. */
  function RotationAt(cs: CosSin, cx: real, cy: real): Matrix
  {
    Matrix(cs.cos, cs.sin, -cs.sin, cs.cos,
           cx * (1.0 - cs.cos) + cy * cs.sin, cy * (1.0 - cs.cos) - cx * cs.sin)
  }

  function Translate(m: Matrix, dx: real, dy: real): Matrix
  {
    Multiply(m, Translation(dx, dy))
  }

  function ScaleAt(m: Matrix, sx: real, sy: real, cx: real, cy: real): Matrix
  {
    Multiply(m, ScalingAt(sx, sy, cx, cy))
  }

  function RotateAt(m: Matrix, angle: real, cx: real, cy: real, trig: Trig): Matrix
  {
    Multiply(m, RotationAt(trig(angle), cx, cy))
  }

  /** `ScaleAt` scales every image point about (cx, cy). */
  lemma ScaleAtPoint(m: Matrix, sx: real, sy: real, cx: real, cy: real, p: Vec)
    ensures Transform(ScaleAt(m, sx, sy, cx, cy), p)
            == Add(Vec(cx, cy), ScaleBy(Sub(Transform(m, p), Vec(cx, cy)), Vec(sx, sy)))
  {
    MultiplyPoint(m, ScalingAt(sx, sy, cx, cy), p);
  }

  /** `RotateAt` rotates every image point about (cx, cy). */
  lemma RotateAtPoint(m: Matrix, angle: real, cx: real, cy: real, trig: Trig, p: Vec)
    ensures Transform(RotateAt(m, angle, cx, cy, trig), p)
            == Add(Vec(cx, cy), Rotate(Sub(Transform(m, p), Vec(cx, cy)), trig(angle)))
  {
    MultiplyPoint(m, RotationAt(trig(angle), cx, cy), p);
    RotationAtPoint(trig(angle), cx, cy, Transform(m, p));
  }

  lemma RotationAtPoint(cs: CosSin, cx: real, cy: real, q: Vec)
    ensures Transform(RotationAt(cs, cx, cy), q) == Add(Vec(cx, cy), Rotate(Sub(q, Vec(cx, cy)), cs))
  {
    var c := cs.cos;
    var s := cs.sin;
    assert q.x * c + q.y * -s + (cx * (1.0 - c) + cy * s) == cx + ((q.x - cx) * c - (q.y - cy) * s);
    assert q.x * s + q.y * c + (cy * (1.0 - c) - cx * s) == cy + ((q.x - cx) * s + (q.y - cy) * c);
  }

  function Determinant(m: Matrix): real { m.m11 * m.m22 - m.m12 * m.m21 }

  /** `Matrix.HasInverse`. */
  predicate HasInverse(m: Matrix) { Determinant(m) != 0.0 }

  /** `Matrix.Invert()`, which throws for a singular matrix; callers guard with `HasInverse`. */
  function Invert(m: Matrix): (r: Matrix)
    requires HasInverse(m)
    ensures forall p :: Transform(r, Transform(m, p)) == p
  {
    var d := Determinant(m);
    var r := Matrix(m.m22 / d, -m.m12 / d, -m.m21 / d, m.m11 / d,
                    (m.m21 * m.offsetY - m.m22 * m.offsetX) / d,
                    (m.m12 * m.offsetX - m.m11 * m.offsetY) / d);
    assert forall p :: Transform(r, Transform(m, p)) == p by {
      forall p ensures Transform(r, Transform(m, p)) == p {
        InvertPoint(m, d, r, p);
      }
    }
    r
  }

  lemma InvertPoint(m: Matrix, d: real, r: Matrix, p: Vec)
    requires d == Determinant(m) && d != 0.0
    requires r == Matrix(m.m22 / d, -m.m12 / d, -m.m21 / d, m.m11 / d,
                         (m.m21 * m.offsetY - m.m22 * m.offsetX) / d,
                         (m.m12 * m.offsetX - m.m11 * m.offsetY) / d)
    ensures Transform(r, Transform(m, p)) == p
  {
    InvertCoordinates(m.m11, m.m12, m.m21, m.m22, m.offsetX, m.offsetY, p.x, p.y, d);
    assert m == Matrix(m.m11, m.m12, m.m21, m.m22, m.offsetX, m.offsetY) && p == Vec(p.x, p.y);
  }

  /** The inverse formula undoes the matrix (a, b, c, e) with offset (ox, oy) on the point (px, py). */
  lemma InvertCoordinates(a: real, b: real, c: real, e: real, ox: real, oy: real, px: real, py: real, d: real)
    requires d == a * e - b * c && d != 0.0
    ensures Transform(Matrix(e / d, -b / d, -c / d, a / d, (c * oy - e * ox) / d, (b * ox - a * oy) / d),
                      Transform(Matrix(a, b, c, e, ox, oy), Vec(px, py))) == Vec(px, py)
  {
    var qx := px * a + py * c + ox;
    var qy := px * b + py * e + oy;
    assert Transform(Matrix(a, b, c, e, ox, oy), Vec(px, py)) == Vec(qx, qy);
    InvertX(a, b, c, e, ox, oy, px, py, qx, qy, d, e / d, -c / d, (c * oy - e * ox) / d);
    InvertY(a, b, c, e, ox, oy, px, py, qx, qy, d, -b / d, a / d, (b * ox - a * oy) / d);
  }

  /**
   * The x coordinate of the inverse image, for the matrix (a, b, c, e) with
   * offset (ox, oy) and the inverse's first column (r11, r21) and x offset.
   */
  lemma InvertX(a: real, b: real, c: real, e: real, ox: real, oy: real, px: real, py: real, qx: real, qy: real,
                d: real, r11: real, r21: real, rx: real)
    requires qx == px * a + py * c + ox && qy == px * b + py * e + oy
    requires d == a * e - b * c && d != 0.0
    requires r11 == e / d && r21 == -c / d && rx == (c * oy - e * ox) / d
    ensures qx * r11 + qy * r21 + rx == px
  {
    var u := qx - ox;
    var w := qy - oy;
    Cramer(a, b, c, e, px, py, u, w);
    OverCommon(qx, e, qy, -c, c * oy - e * ox, d);
    assert qx * e + qy * -c + (c * oy - e * ox) == u * e - w * c;
    assert (px * d) / d == px;
  }

  /** The y coordinate of the inverse image, from the inverse's second column (r12, r22) and y offset. */
  lemma InvertY(a: real, b: real, c: real, e: real, ox: real, oy: real, px: real, py: real, qx: real, qy: real,
                d: real, r12: real, r22: real, ry: real)
    requires qx == px * a + py * c + ox && qy == px * b + py * e + oy
    requires d == a * e - b * c && d != 0.0
    requires r12 == -b / d && r22 == a / d && ry == (b * ox - a * oy) / d
    ensures qx * r12 + qy * r22 + ry == py
  {
    var u := qx - ox;
    var w := qy - oy;
    Cramer(a, b, c, e, px, py, u, w);
    OverCommon(qx, -b, qy, a, b * ox - a * oy, d);
    assert qx * -b + qy * a + (b * ox - a * oy) == w * a - u * b;
    assert (py * d) / d == py;
  }

  /** Three fractions over one denominator. */
  lemma OverCommon(a: real, b: real, c: real, e: real, f: real, d: real)
    requires d != 0.0
    ensures a * (b / d) + c * (e / d) + f / d == (a * b + c * e + f) / d
  {
  }

  /** Cramer's rule for the 2x2 linear part. */
  lemma Cramer(a: real, b: real, c: real, e: real, x: real, y: real, u: real, w: real)
    requires u == x * a + y * c && w == x * b + y * e
    ensures u * e - w * c == x * (a * e - b * c)
    ensures w * a - u * b == y * (a * e - b * c)
  {
  }
}
