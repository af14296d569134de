/**
 * `BoundedManipulationRange`: a position on a line with lower and upper
 * boundaries. It reports the position clamped to the boundaries, how far the
 * position overflows them, and a rubber-band offset that grows with the overflow
 * but never reaches the elastic margin. The three derived values are cached and
 * recomputed lazily when a read finds the object dirty.
 */
module BoundedManipulationRange {
  import opened Wrappers
  import opened MathUtility

  /**
   * The object's fields. `elasticOffset` is `None` where the source divides a
   * non-zero value by zero and so produces an infinite double.
   */
  datatype Range = Range(
    lower: real,
    upper: real,
    elasticMargin: real,
    position: real,
    isDirty: bool,
    boundedPosition: real,
    elasticOffset: Option<real>,
    boundaryOverflow: real)

  /** A freshly constructed range: boundaries 0 and 1, margin 40, position 0, clean. */
  const Initial: Range := Range(0.0, 1.0, 40.0, 0.0, false, 0.0, Some(0.0), 0.0)

  /** `Math.Sign`. */
  function Sign(x: real): real { if x > 0.0 then 1.0 else if x < 0.0 then -1.0 else 0.0 }

  /** How far `position` lies outside [lower, upper]; the lower test is made first. */
  function Overflow(position: real, lower: real, upper: real): (r: real)
    ensures r < 0.0 <==> position < lower
    ensures r > 0.0 <==> lower <= position && position > upper
    ensures lower <= upper ==> Clamp(position, lower, upper) + r == position
  {
    if position < lower then position - lower
    else if position > upper then position - upper
    else 0.0
  }

  /**
   * `GetRubberStretch`: sign(v) * m * |v| / (|v| + m), and 0 when both are 0.
   * The quotient is infinite when |v| + m is 0 but v is not.
   */
  function RubberStretch(value: real, maxDisplacement: real): (r: Option<real>)
    ensures r.None? <==> value != 0.0 && Abs(value) + maxDisplacement == 0.0
    ensures value == 0.0 ==> r == Some(0.0)
  {
    if value == 0.0 && maxDisplacement == 0.0 then Some(0.0)
    else if Abs(value) + maxDisplacement == 0.0 then None
    else Some(Sign(value) * maxDisplacement * Abs(value) / (Abs(value) + maxDisplacement))
  }

  /** For a positive margin, a positive overflow stretches to a value strictly between 0 and the margin. */
  lemma RubberStretchPositive(value: real, m: real)
    requires m > 0.0 && value > 0.0
    ensures RubberStretch(value, m).Some?
    ensures 0.0 < RubberStretch(value, m).value < m
  {
    StretchFormula(value, m);
    PositiveStretch(value, m);
    FractionBounds(m, value);
  }

  /** For a positive margin, a negative overflow stretches to a value strictly between minus the margin and 0. */
  lemma RubberStretchNegative(value: real, m: real)
    requires m > 0.0 && value < 0.0
    ensures RubberStretch(value, m).Some?
    ensures -m < RubberStretch(value, m).value < 0.0
  {
    StretchFormula(value, m);
    NegativeStretch(value, m);
    FractionBounds(m, -value);
  }

  lemma StretchFormula(value: real, m: real)
    requires value != 0.0 && Abs(value) + m != 0.0
    ensures RubberStretch(value, m) == Some(Sign(value) * m * Abs(value) / (Abs(value) + m))
  {
  }

  lemma PositiveStretch(value: real, m: real)
    requires m > 0.0 && value > 0.0
    ensures Sign(value) * m * Abs(value) / (Abs(value) + m) == m * value / (value + m)
  {
    assert Sign(value) == 1.0;
    assert Abs(value) == value;
    assert Sign(value) * m * Abs(value) == m * value;
  }

  lemma NegativeStretch(value: real, m: real)
    requires m > 0.0 && value < 0.0
    ensures Sign(value) * m * Abs(value) / (Abs(value) + m) == -(m * -value / (-value + m))
  {
    assert Sign(value) == -1.0;
    assert Abs(value) == -value;
    assert Sign(value) * m * Abs(value) == -1.0 * (m * -value);
    ScaleDiv(-1.0, m * -value, -value + m);
  }

  /** 0 < m * x / (x + m) < m for positive m and x. */
  lemma FractionBounds(m: real, x: real)
    requires m > 0.0 && x > 0.0
    ensures 0.0 < m * x / (x + m) < m
  {
    MulPositive(m, x);
    DivPositive(m * x, x + m);
    MulPositive(m, m);
    DivPositive(m * m, x + m);
    assert m == m * (x + m) / (x + m);
    SubFractions(m * (x + m), m * x, x + m);
    assert m * (x + m) - m * x == m * m;
  }

  /** Half the margin at an overflow equal to the margin. */
  lemma RubberStretchAtMargin(value: real, m: real)
    requires m > 0.0 && Abs(value) == m
    ensures RubberStretch(value, m) == Some(value / 2.0)
  {
    StretchFormula(value, m);
    StretchAtMargin(value, m);
  }

  lemma StretchAtMargin(value: real, m: real)
    requires m > 0.0 && Abs(value) == m
    ensures Sign(value) * m * Abs(value) / (Abs(value) + m) == value / 2.0
  {
    assert Sign(value) * m == value;
    assert Sign(value) * m * Abs(value) == value * m;
    assert Abs(value) + m == m + m;
    HalfOf(value, m);
  }

  lemma HalfOf(v: real, m: real)
    requires m > 0.0
    ensures v * m / (m + m) == v / 2.0
  {
    assert m + m == 2.0 * m;
  }

  /** The three derived values as the current inputs determine them. */
  ghost predicate Consistent(s: Range)
  {
    && s.boundaryOverflow == Overflow(s.position, s.lower, s.upper)
    && s.elasticOffset == RubberStretch(s.boundaryOverflow, s.elasticMargin)
    && s.boundedPosition == Clamp(s.position, s.lower, s.upper)
  }

  /** The cache invariant: a clean object holds up-to-date derived values. */
  ghost predicate Valid(s: Range)
  {
    !s.isDirty ==> Consistent(s)
  }

  lemma InitialValid()
    ensures Valid(Initial) && Consistent(Initial)
  {
  }

  /** The setters share one shape: an equal value changes nothing, any other is stored and marks the object dirty. */
  function SetLower(s: Range, value: real): (r: Range)
    ensures r.lower == value
    ensures r.isDirty <==> s.isDirty || s.lower != value
    ensures r.(lower := s.lower, isDirty := s.isDirty) == s
    ensures Valid(s) ==> Valid(r)
  {
    if s.lower == value then s else s.(lower := value, isDirty := true)
  }

  function SetUpper(s: Range, value: real): (r: Range)
    ensures r.upper == value
    ensures r.isDirty <==> s.isDirty || s.upper != value
    ensures r.(upper := s.upper, isDirty := s.isDirty) == s
    ensures Valid(s) ==> Valid(r)
  {
    if s.upper == value then s else s.(upper := value, isDirty := true)
  }

  function SetElasticMargin(s: Range, value: real): (r: Range)
    ensures r.elasticMargin == value
    ensures r.isDirty <==> s.isDirty || s.elasticMargin != value
    ensures r.(elasticMargin := s.elasticMargin, isDirty := s.isDirty) == s
    ensures Valid(s) ==> Valid(r)
  {
    if s.elasticMargin == value then s else s.(elasticMargin := value, isDirty := true)
  }

  function SetPosition(s: Range, value: real): (r: Range)
    ensures r.position == value
    ensures r.isDirty <==> s.isDirty || s.position != value
    ensures r.(position := s.position, isDirty := s.isDirty) == s
    ensures Valid(s) ==> Valid(r)
  {
    if s.position == value then s else s.(position := value, isDirty := true)
  }

  /** `VerifyValues`: recompute the derived values if the object is dirty. */
  function VerifyValues(s: Range): (r: Range)
    ensures !r.isDirty
    ensures Valid(s) ==> Consistent(r)
    ensures s.isDirty ==> Consistent(r)
    ensures r.lower == s.lower && r.upper == s.upper
    ensures r.elasticMargin == s.elasticMargin && r.position == s.position
  {
    if !s.isDirty then s
    else
      var overflow := Overflow(s.position, s.lower, s.upper);
      s.(isDirty := false,
         boundaryOverflow := overflow,
         elasticOffset := RubberStretch(overflow, s.elasticMargin),
         boundedPosition := Clamp(s.position, s.lower, s.upper))
  }

  /** The `BoundedPosition` getter: the object after the read, and the value read. */
  function GetBoundedPosition(s: Range): (r: (Range, real))
    ensures Valid(s) ==> r.1 == Clamp(s.position, s.lower, s.upper)
    ensures Valid(s) ==> Valid(r.0)
  {
    var t := VerifyValues(s);
    (t, t.boundedPosition)
  }

  /** The `ElasticOffset` getter. */
  function GetElasticOffset(s: Range): (r: (Range, Option<real>))
    ensures Valid(s) ==> r.1 == RubberStretch(Overflow(s.position, s.lower, s.upper), s.elasticMargin)
    ensures Valid(s) ==> Valid(r.0)
  {
    var t := VerifyValues(s);
    (t, t.elasticOffset)
  }

  /** The `BoundaryOverflow` getter. */
  function GetBoundaryOverflow(s: Range): (r: (Range, real))
    ensures Valid(s) ==> r.1 == Overflow(s.position, s.lower, s.upper)
    ensures Valid(s) ==> Valid(r.0)
  {
    var t := VerifyValues(s);
    (t, t.boundaryOverflow)
  }

  predicate IsPositionBelowLowerElasticMargin(s: Range) { s.position < s.lower - s.elasticMargin }

  predicate IsPositionAboveUpperElasticMargin(s: Range) { s.position > s.upper + s.elasticMargin }

  predicate IsPositionBelowLowerBoundary(s: Range) { s.position < s.lower }

  predicate IsPositionAboveUpperBoundary(s: Range) { s.position > s.upper }

  predicate IsPositionOutOfBounds(s: Range)
  {
    IsPositionAboveUpperBoundary(s) || IsPositionBelowLowerBoundary(s)
  }

  /** The position is out of bounds exactly when a read of the overflow gives a non-zero value. */
  lemma OutOfBoundsIffOverflow(s: Range)
    requires Valid(s)
    ensures IsPositionOutOfBounds(s) <==> GetBoundaryOverflow(s).1 != 0.0
  {
  }

  /** With a non-negative margin, passing an elastic margin means passing the boundary too. */
  lemma ElasticMarginBeyondBoundary(s: Range)
    requires s.elasticMargin >= 0.0
    ensures IsPositionBelowLowerElasticMargin(s) ==> IsPositionBelowLowerBoundary(s)
    ensures IsPositionAboveUpperElasticMargin(s) ==> IsPositionAboveUpperBoundary(s)
  {
  }

  /** With ordered boundaries the clamped position and the overflow add up to the position. */
  lemma BoundedPlusOverflow(s: Range)
    requires Valid(s) && s.lower <= s.upper
    ensures GetBoundedPosition(s).1 + GetBoundaryOverflow(s).1 == s.position
  {
  }

  /** One call a client can make on the object. */
  datatype Op =
    | WriteLower(value: real)
    | WriteUpper(value: real)
    | WriteElasticMargin(value: real)
    | WritePosition(value: real)
    | ReadBoundedPosition
    | ReadElasticOffset
    | ReadBoundaryOverflow

  /** What a read returned; writes return nothing. */
  datatype Reading = NoReading | Bounded(bounded: real) | Elastic(elastic: Option<real>) | Overflowed(overflow: real)

  function Apply(s: Range, op: Op): (Range, Reading)
  {
    match op
    case WriteLower(v) => (SetLower(s, v), NoReading)
    case WriteUpper(v) => (SetUpper(s, v), NoReading)
    case WriteElasticMargin(v) => (SetElasticMargin(s, v), NoReading)
    case WritePosition(v) => (SetPosition(s, v), NoReading)
    case ReadBoundedPosition => var (t, b) := GetBoundedPosition(s); (t, Bounded(b))
    case ReadElasticOffset => var (t, e) := GetElasticOffset(s); (t, Elastic(e))
    case ReadBoundaryOverflow => var (t, o) := GetBoundaryOverflow(s); (t, Overflowed(o))
  }

  /** The reading that the current inputs call for. */
  function Expected(s: Range, op: Op): Reading
  {
    var overflow := Overflow(s.position, s.lower, s.upper);
    match op
    case ReadBoundedPosition => Bounded(Clamp(s.position, s.lower, s.upper))
    case ReadElasticOffset => Elastic(RubberStretch(overflow, s.elasticMargin))
    case ReadBoundaryOverflow => Overflowed(overflow)
    case _ => NoReading
  }

  /** Runs a sequence of calls from `s`, collecting what each returned. */
  function Run(s: Range, ops: seq<Op>): (Range, seq<Reading>)
    decreases |ops|
  {
    if |ops| == 0 then (s, [])
    else
      var (t, reading) := Apply(s, ops[0]);
      var (u, rest) := Run(t, ops[1..]);
      (u, [reading] + rest)
  }

  /** Every read made along any sequence of calls from a fresh object matches the inputs at that moment. */
  lemma {:induction false} RunReadsCurrent(s: Range, ops: seq<Op>)
    requires Valid(s)
    ensures |Run(s, ops).1| == |ops|
    ensures Valid(Run(s, ops).0)
    ensures forall i :: 0 <= i < |ops| ==> Run(s, ops).1[i] == Expected(RunState(s, ops[..i]), ops[i])
    decreases |ops|
  {
    if |ops| > 0 {
      var t := Apply(s, ops[0]).0;
      assert Valid(t);
      assert Apply(s, ops[0]).1 == Expected(s, ops[0]);
      RunReadsCurrent(t, ops[1..]);
      forall i | 0 <= i < |ops|
        ensures Run(s, ops).1[i] == Expected(RunState(s, ops[..i]), ops[i])
      {
        if i > 0 {
          assert ops[1..][..i - 1] == ops[1..i];
          assert ops[..i][1..] == ops[1..i];
          assert RunState(s, ops[..i]) == RunState(t, ops[1..][..i - 1]);
        }
      }
    }
  }

  /** The object after a sequence of calls. */
  function RunState(s: Range, ops: seq<Op>): Range
  {
    Run(s, ops).0
  }
}
