/**
 * The numeric helpers of `MathUtility`: fuzzy equality, linear remapping,
 * clamping, angle normalisation and vector rotation.
 */
module MathUtility {
  import opened Wrappers
  import opened Geometry

  function Abs(x: real): real { if x < 0.0 then -x else x }

  function Min(a: real, b: real): real { if a <= b then a else b }

  function Max(a: real, b: real): real { if a >= b then a else b }

  /** The default tolerance of `IsEqualFuzzy` (1e-8). */
  const DefaultEpsilon: real := 0.00000001

  /** `IsEqualFuzzy`: the strict test |a - b| < eps. */
  function IsEqualFuzzy(a: real, b: real, eps: real := DefaultEpsilon): (r: bool)
    ensures r <==> (a - eps < b < a + eps)
  {
    Abs(a - b) < eps
  }

  lemma IsEqualFuzzySymmetric(a: real, b: real, eps: real)
    ensures IsEqualFuzzy(a, b, eps) == IsEqualFuzzy(b, a, eps)
  {
  }

  /** A value is fuzzily equal to itself exactly when the tolerance is positive. */
  lemma IsEqualFuzzyReflexive(a: real, eps: real)
    ensures IsEqualFuzzy(a, a, eps) <==> eps > 0.0
  {
  }

  /**
   * `MapValue`: the affine map sending [fromMin, fromMax] onto [toMin, toMax].
   * An empty source interval divides by zero, which gives a non-finite double;
   * that case is `None`.
   */
  function MapValue(value: real, fromMin: real, fromMax: real, toMin: real, toMax: real): (r: Option<real>)
    ensures r.None? <==> fromMax == fromMin
    ensures r.Some? ==> (r.value - toMin) * (fromMax - fromMin) == (value - fromMin) * (toMax - toMin)
  {
    if fromMax == fromMin then None
    else
      var ret := (value - fromMin) / (fromMax - fromMin);
      Some(ret * (toMax - toMin) + toMin)
  }

  lemma MapValueEndpoints(fromMin: real, fromMax: real, toMin: real, toMax: real)
    requires fromMax != fromMin
    ensures MapValue(fromMin, fromMin, fromMax, toMin, toMax) == Some(toMin)
    ensures MapValue(fromMax, fromMin, fromMax, toMin, toMax) == Some(toMax)
  {
    var d := fromMax - fromMin;
    var lo := MapValue(fromMin, fromMin, fromMax, toMin, toMax).value;
    var hi := MapValue(fromMax, fromMin, fromMax, toMin, toMax).value;
    assert (lo - toMin) * d == 0.0 * (toMax - toMin) == 0.0 * d;
    CancelFactor(lo - toMin, 0.0, d);
    assert (hi - toMin) * d == d * (toMax - toMin) == (toMax - toMin) * d;
    CancelFactor(hi - toMin, toMax - toMin, d);
  }

  /** Mapping forth and back between two non-empty intervals gives the value back. */
  lemma MapValueRoundTrip(value: real, fromMin: real, fromMax: real, toMin: real, toMax: real)
    requires fromMax != fromMin && toMax != toMin
    ensures MapValue(value, fromMin, fromMax, toMin, toMax).Some?
    ensures MapValue(MapValue(value, fromMin, fromMax, toMin, toMax).value, toMin, toMax, fromMin, fromMax) == Some(value)
  {
    var y := MapValue(value, fromMin, fromMax, toMin, toMax).value;
    var z := MapValue(y, toMin, toMax, fromMin, fromMax).value;
    assert (y - toMin) * (fromMax - fromMin) == (value - fromMin) * (toMax - toMin);
    assert (z - fromMin) * (toMax - toMin) == (y - toMin) * (fromMax - fromMin);
    assert (z - fromMin) * (toMax - toMin) == (value - fromMin) * (toMax - toMin);
    CancelFactor(z - fromMin, value - fromMin, toMax - toMin);
  }

  lemma CancelFactor(a: real, b: real, k: real)
    requires k != 0.0 && a * k == b * k
    ensures a == b
  {
    assert (a - b) * k == 0.0;
  }

  lemma DivMul(a: real, d: real)
    requires d != 0.0
    ensures (a / d) * d == a
  {
  }

  lemma MulMono(a: real, b: real, d: real)
    requires d > 0.0 && a >= b
    ensures a * d >= b * d
  {
  }

  lemma MulStrict(a: real, b: real, d: real)
    requires d > 0.0 && a < b
    ensures a * d < b * d
  {
  }

  lemma MulPositive(a: real, b: real)
    requires a > 0.0 && b > 0.0
    ensures a * b > 0.0
  {
  }

  lemma SubFractions(a: real, b: real, d: real)
    requires d != 0.0
    ensures a / d - b / d == (a - b) / d
  {
  }

  lemma DivPositive(a: real, d: real)
    requires a > 0.0 && d > 0.0
    ensures a / d > 0.0
  {
  }

  lemma ScaleDiv(k: real, a: real, d: real)
    requires d != 0.0
    ensures (k * a) / d == k * (a / d)
  {
    DivMul(k * a, d);
    DivMul(a, d);
    assert (k * (a / d)) * d == k * ((a / d) * d);
    CancelFactor((k * a) / d, k * (a / d), d);
  }

  /**
   * `Clamp`: the bounds may come in either order; the value is forced into the
   * interval between them.
   */
  function Clamp(value: real, a: real, b: real): (r: real)
    ensures Min(a, b) <= r <= Max(a, b)
    ensures Min(a, b) <= value <= Max(a, b) ==> r == value
    ensures value < Min(a, b) ==> r == Min(a, b)
    ensures value > Max(a, b) ==> r == Max(a, b)
  {
    var actualMin := Min(a, b);
    var actualMax := Max(a, b);
    Min(actualMax, Max(actualMin, value))
  }

  lemma ClampSymmetric(value: real, a: real, b: real)
    ensures Clamp(value, a, b) == Clamp(value, b, a)
  {
  }

  lemma ClampIdempotent(value: real, a: real, b: real)
    ensures Clamp(Clamp(value, a, b), a, b) == Clamp(value, a, b)
  {
  }

  /** C#'s conversion of a double quotient to an integer: rounds toward zero. */
  function Trunc(q: real): (r: int)
    ensures q >= 0.0 ==> r as real <= q < r as real + 1.0
    ensures q < 0.0 ==> r as real - 1.0 < q <= r as real
  {
    if q >= 0.0 then q.Floor else -((-q).Floor)
  }

  /** An angle that is a whole number of full turns. */
  predicate WholeTurns(x: real) { 360.0 * (x / 360.0).Floor as real == x }

  /**
   * C#'s `% 360.0` on doubles: the remainder of a division truncated toward zero,
   * with the sign of `a`.
   */
  function Remainder360(a: real): (r: real)
    ensures a >= 0.0 ==> 0.0 <= r < 360.0
    ensures a < 0.0 ==> -360.0 < r <= 0.0
    ensures WholeTurns(a - r)
  {
    var k := Trunc(a / 360.0);
    assert (360.0 * k as real) / 360.0 == k as real;
    a - 360.0 * Trunc(a / 360.0) as real
  }

  /** The number of whole turns below an angle: floor(angle / 360). */
  function Turns(angle: real): int { (angle / 360.0).Floor }

  /**
   * `NormalizeAngle`: an angle in degrees brought into [0, 360). The source takes
   * the truncated remainder and then corrects a negative one; the result is the
   * floored remainder.
   */
  function NormalizeAngle(angle: real): (r: real)
    ensures 0.0 <= r < 360.0
    ensures r == angle - 360.0 * Turns(angle) as real
  {
    var num := Remainder360(angle);
    var t := Trunc(angle / 360.0);
    assert num == angle - 360.0 * t as real;
    if num >= 360.0 then
      assert false; num - 360.0
    else if num < 0.0 then
      assert num + 360.0 == angle - 360.0 * (t - 1) as real;
      UniqueQuotient(angle, t - 1);
      num + 360.0
    else
      UniqueQuotient(angle, t);
      num
  }

  /** At most one whole number of turns brings an angle into [0, 360). */
  lemma UniqueQuotient(angle: real, k: int)
    requires 0.0 <= angle - 360.0 * k as real < 360.0
    ensures k == Turns(angle)
  {
    var q := angle / 360.0;
    assert angle == 360.0 * q;
    assert k as real <= q < k as real + 1.0 by {
      assert 360.0 * (k as real) <= 360.0 * q;
      assert 360.0 * q < 360.0 * (k as real + 1.0);
    }
  }

  /** Turning by whole turns does not change the normalised angle. */
  lemma NormalizeAnglePeriodic(angle: real, turns: int)
    ensures NormalizeAngle(angle + 360.0 * turns as real) == NormalizeAngle(angle)
  {
    var a := angle + 360.0 * turns as real;
    UniqueQuotient(a, Turns(angle) + turns);
  }

  /** An angle already in [0, 360) is left as it is, so normalising twice changes nothing. */
  lemma NormalizeAngleInRange(angle: real)
    requires 0.0 <= angle < 360.0
    ensures NormalizeAngle(angle) == angle
  {
    UniqueQuotient(angle, 0);
  }

  /** `RotateVector`: counter-clockwise rotation by `degrees`, whose cosine and sine `trig` gives. */
  function RotateVector(v: Vec, degrees: real, trig: Trig): (r: Vec)
    ensures ZeroAngleIsIdentity(trig) && degrees == 0.0 ==> r == v
    ensures var cs := trig(degrees); cs.cos * cs.cos + cs.sin * cs.sin == 1.0 ==> SquaredLength(r) == SquaredLength(v)
  {
    var cs := trig(degrees);
    RotationKeepsLength(v.x, v.y, cs.cos, cs.sin);
    Rotate(v, cs)
  }

  lemma RotationKeepsLength(x: real, y: real, c: real, s: real)
    ensures (x * c - y * s) * (x * c - y * s) + (x * s + y * c) * (x * s + y * c)
            == (x * x + y * y) * (c * c + s * s)
  {
  }

  /** `RotateVector` is the rotation part of the `RotateAt` matrix about the origin. */
  lemma RotateVectorIsRotationAt(v: Vec, degrees: real, trig: Trig)
    ensures RotateVector(v, degrees, trig) == Transform(RotationAt(trig(degrees), 0.0, 0.0), v)
  {
  }

  /** Rotation is linear: it commutes with sums and scalar multiples. */
  lemma RotateVectorLinear(u: Vec, v: Vec, k: real, degrees: real, trig: Trig)
    ensures RotateVector(Add(u, v), degrees, trig) == Add(RotateVector(u, degrees, trig), RotateVector(v, degrees, trig))
    ensures RotateVector(Times(u, k), degrees, trig) == Times(RotateVector(u, degrees, trig), k)
  {
    var cs := trig(degrees);
    assert (u.x * k) * cs.cos - (u.y * k) * cs.sin == (u.x * cs.cos - u.y * cs.sin) * k;
    assert (u.x * k) * cs.sin + (u.y * k) * cs.cos == (u.x * cs.sin + u.y * cs.cos) * k;
  }
}
