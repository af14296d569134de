/**
 * `RadialStackPanel`: lays its children out along an arc. Each child sits at
 * a radius chosen from the inner and outer radius by the horizontal content
 * alignment, consecutive children are separated by the angle their average
 * height subtends at that radius, and the vertical content alignment decides
 * whether the arc starts, ends or is centred at `Angle`.
 *
 * The angle an average height subtends, `Atan2(avgHeight, radius)` in
 * degrees, is a parameter; the render transforms and the positions built
 * with `Sin` and `Cos` are not modelled.
 */
module RadialStackPanel {
  import opened Geometry

  datatype HorizontalAlignment = Left | Center | Right | Stretch

  datatype VerticalAlignment = Top | Center | Bottom | Stretch

  /** The arc in degrees that a height subtends at a radius. */
  type Arc = (real, real) -> real

  /**
   * The panel's inputs to layout. The two flags record whether a radius was
   * ever given; a radius that was not given does not take part in choosing
   * a child's radius.
   */
  datatype Panel = Panel(
    angle: real,
    innerRadius: real,
    outerRadius: real,
    innerRadiusSet: bool,
    outerRadiusSet: bool,
    horizontal: HorizontalAlignment,
    vertical: VerticalAlignment)

  /** A new panel: both radii at their default 0 and neither flag set; both alignments centred. */
  const Initial := Panel(0.0, 0.0, 0.0, false, false, HorizontalAlignment.Center, VerticalAlignment.Center)

  /** The `InnerRadius` property setter sets the flag whatever the value. */
  function SetInnerRadius(p: Panel, value: real): (r: Panel)
    ensures r.innerRadiusSet && r.innerRadius == value
    ensures r.(innerRadius := p.innerRadius, innerRadiusSet := p.innerRadiusSet) == p
  {
    p.(innerRadius := value, innerRadiusSet := true)
  }

  function SetOuterRadius(p: Panel, value: real): (r: Panel)
    ensures r.outerRadiusSet && r.outerRadius == value
    ensures r.(outerRadius := p.outerRadius, outerRadiusSet := p.outerRadiusSet) == p
  {
    p.(outerRadius := value, outerRadiusSet := true)
  }

  /**
   * The dependency property written directly (the attached setter, a
   * binding, inheritance): the change callback sets the flag, and it runs
   * only when the value actually changes.
   */
  function WriteInnerRadius(p: Panel, value: real): (r: Panel)
    ensures r.innerRadius == value
    ensures r.innerRadiusSet <==> p.innerRadiusSet || value != p.innerRadius
  {
    if value == p.innerRadius then p else p.(innerRadius := value, innerRadiusSet := true)
  }

  function WriteOuterRadius(p: Panel, value: real): (r: Panel)
    ensures r.outerRadius == value
    ensures r.outerRadiusSet <==> p.outerRadiusSet || value != p.outerRadius
  {
    if value == p.outerRadius then p else p.(outerRadius := value, outerRadiusSet := true)
  }

  /** A radius whose flag is clear still holds its default. */
  predicate Inv(p: Panel)
  {
    (!p.innerRadiusSet ==> p.innerRadius == 0.0) && (!p.outerRadiusSet ==> p.outerRadius == 0.0)
  }

  datatype RadiusOp = SetInner(value: real) | SetOuter(value: real) | WriteInner(value: real) | WriteOuter(value: real)

  function ApplyRadius(p: Panel, op: RadiusOp): Panel
  {
    match op
    case SetInner(v) => SetInnerRadius(p, v)
    case SetOuter(v) => SetOuterRadius(p, v)
    case WriteInner(v) => WriteInnerRadius(p, v)
    case WriteOuter(v) => WriteOuterRadius(p, v)
  }

  /** Once set, a flag stays set; and a clear flag means the radius was never moved off its default. */
  lemma ApplyRadiusPreservesInv(p: Panel, op: RadiusOp)
    requires Inv(p)
    ensures Inv(ApplyRadius(p, op))
    ensures p.innerRadiusSet ==> ApplyRadius(p, op).innerRadiusSet
    ensures p.outerRadiusSet ==> ApplyRadius(p, op).outerRadiusSet
  {
  }

  lemma InitialInv()
    ensures Inv(Initial) && !Initial.innerRadiusSet && !Initial.outerRadiusSet
  {
  }

  /**
   * `GetElementRadius`: the radius of a child's near edge. Left alignment
   * puts the near edge on the inner radius, Right puts the far edge on the
   * outer radius, and Center or Stretch centres the child between the two;
   * a radius that was not set is replaced by the other, and 0 when neither is.
   */
  function ElementRadius(p: Panel, size: Size): (r: real)
    ensures !p.innerRadiusSet && !p.outerRadiusSet ==> r == 0.0
    ensures p.horizontal == Left && p.innerRadiusSet ==> r == p.innerRadius
    ensures p.horizontal == Right && p.outerRadiusSet ==> r + size.width == p.outerRadius
    ensures (p.horizontal == HorizontalAlignment.Center || p.horizontal == HorizontalAlignment.Stretch)
            && p.innerRadiusSet && p.outerRadiusSet
            ==> r + size.width / 2.0 == (p.innerRadius + p.outerRadius) / 2.0
    ensures p.innerRadiusSet != p.outerRadiusSet && !(p.horizontal == Right && p.outerRadiusSet)
            ==> r == (if p.innerRadiusSet then p.innerRadius else p.outerRadius)
    ensures p.horizontal == Right && p.innerRadiusSet && !p.outerRadiusSet ==> r == p.innerRadius
  {
    match p.horizontal
    case Left =>
      if p.innerRadiusSet then p.innerRadius
      else if p.outerRadiusSet then p.outerRadius
      else 0.0
    case Center =>
      CenteredRadius(p, size)
    case Stretch =>
      CenteredRadius(p, size)
    case Right =>
      if p.outerRadiusSet then p.outerRadius - size.width
      else if p.innerRadiusSet then p.innerRadius
      else 0.0
  }

  function CenteredRadius(p: Panel, size: Size): real
  {
    if p.innerRadiusSet && p.outerRadiusSet then (p.outerRadius + p.innerRadius - size.width) / 2.0
    else if p.innerRadiusSet then p.innerRadius
    else if p.outerRadiusSet then p.outerRadius
    else 0.0
  }

  /** Layout falls back to the plain canvas when there are no children or no radius was given. */
  predicate Skips(p: Panel, sizes: seq<Size>)
  {
    |sizes| == 0 || (!p.innerRadiusSet && !p.outerRadiusSet)
  }

  function AverageHeight(sizes: seq<Size>, i: nat): real
    requires i + 1 < |sizes|
  {
    (sizes[i].height + sizes[i + 1].height) / 2.0
  }

  /** The arc between child `i` and the next one, counted in the total; the last child has none. */
  function Gap(p: Panel, sizes: seq<Size>, arc: Arc, i: nat): real
    requires i < |sizes|
  {
    if i + 1 < |sizes| then arc(AverageHeight(sizes, i), ElementRadius(p, sizes[i])) else 0.0
  }

  /** How far the placement advances after child `i`: the gap, but nothing at a zero radius. */
  function Advance(p: Panel, sizes: seq<Size>, arc: Arc, i: nat): real
    requires i < |sizes|
  {
    if ElementRadius(p, sizes[i]) != 0.0 then Gap(p, sizes, arc, i) else 0.0
  }

  /** The sum of the first `k` gaps. */
  function ArcSum(p: Panel, sizes: seq<Size>, arc: Arc, k: nat): real
    requires k <= |sizes|
  {
    if k == 0 then 0.0 else ArcSum(p, sizes, arc, k - 1) + Gap(p, sizes, arc, k - 1)
  }

  /** The sum of the first `k` advances. */
  function Swept(p: Panel, sizes: seq<Size>, arc: Arc, k: nat): real
    requires k <= |sizes|
  {
    if k == 0 then 0.0 else Swept(p, sizes, arc, k - 1) + Advance(p, sizes, arc, k - 1)
  }

  /** `totalArcAngle`. */
  function TotalArc(p: Panel, sizes: seq<Size>, arc: Arc): real
  {
    ArcSum(p, sizes, arc, |sizes|)
  }

  /** The first child's angle: the arc starts at `Angle` (Top), ends there (Bottom), or is centred on it. */
  function StartAngle(p: Panel, total: real): (r: real)
    ensures p.vertical == Top ==> r == p.angle
    ensures p.vertical == Bottom ==> r + total == p.angle
    ensures p.vertical != Top && p.vertical != Bottom ==> r + total / 2.0 == p.angle
  {
    match p.vertical
    case Top => p.angle
    case Bottom => p.angle - total
    case Center => p.angle - total / 2.0
    case Stretch => p.angle - total / 2.0
  }

  /**
   * `ArrangeOverride`'s angles: nothing when layout is skipped, otherwise one
   * rotation per child, the first at the start angle and each later one
   * advanced by the arcs swept so far.
   */
  method Arrange(p: Panel, sizes: seq<Size>, arc: Arc) returns (arranged: bool, angles: seq<real>)
    ensures arranged <==> !Skips(p, sizes)
    ensures !arranged ==> angles == []
    ensures arranged ==> |angles| == |sizes|
    ensures arranged ==> forall i :: 0 <= i < |angles| ==>
      angles[i] == StartAngle(p, TotalArc(p, sizes, arc)) + Swept(p, sizes, arc, i)
  {
    if |sizes| == 0 || (!p.innerRadiusSet && !p.outerRadiusSet) {
      return false, [];
    }
    var total := MeasureArc(p, sizes, arc);
    angles := PlaceChildren(p, sizes, arc, StartAngle(p, total));
    return true, angles;
  }

  /** The first loop: the gaps between neighbours summed into `totalArcAngle`. */
  method MeasureArc(p: Panel, sizes: seq<Size>, arc: Arc) returns (total: real)
    ensures total == TotalArc(p, sizes, arc)
  {
    total := 0.0;
    var k := 0;
    while k < |sizes|
      invariant 0 <= k <= |sizes|
      invariant total == ArcSum(p, sizes, arc, k)
    {
      if k + 1 < |sizes| {
        total := total + arc(AverageHeight(sizes, k), ElementRadius(p, sizes[k]));
      }
      k := k + 1;
    }
  }

  /** The second loop: each child placed at the current angle, which then advances unless the child sits at radius 0. */
  method PlaceChildren(p: Panel, sizes: seq<Size>, arc: Arc, start: real) returns (angles: seq<real>)
    ensures |angles| == |sizes|
    ensures forall i :: 0 <= i < |angles| ==> angles[i] == start + Swept(p, sizes, arc, i)
  {
    var current := start;
    angles := [];
    var i := 0;
    while i < |sizes|
      invariant 0 <= i <= |sizes|
      invariant |angles| == i
      invariant current == start + Swept(p, sizes, arc, i)
      invariant forall j :: 0 <= j < i ==> angles[j] == start + Swept(p, sizes, arc, j)
    {
      angles := angles + [current];
      var radius := ElementRadius(p, sizes[i]);
      var step := if radius != 0.0 && i + 1 < |sizes| then arc(AverageHeight(sizes, i), radius) else 0.0;
      assert step == Advance(p, sizes, arc, i);
      current := current + step;
      i := i + 1;
    }
  }

  predicate NoZeroRadius(p: Panel, sizes: seq<Size>)
  {
    forall i :: 0 <= i < |sizes| ==> ElementRadius(p, sizes[i]) != 0.0
  }

  /** When no child sits at radius 0, placement advances by exactly the gaps counted in the total. */
  lemma {:induction false} SweptIsArcSum(p: Panel, sizes: seq<Size>, arc: Arc, k: nat)
    requires k <= |sizes| && NoZeroRadius(p, sizes)
    ensures Swept(p, sizes, arc, k) == ArcSum(p, sizes, arc, k)
  {
    if k > 0 {
      SweptIsArcSum(p, sizes, arc, k - 1);
      assert ElementRadius(p, sizes[k - 1]) != 0.0;
    }
  }

  /** The last child's angle lies exactly `totalArcAngle` past the first one's. */
  lemma LastAngle(p: Panel, sizes: seq<Size>, arc: Arc)
    requires |sizes| > 0 && NoZeroRadius(p, sizes)
    ensures Swept(p, sizes, arc, |sizes| - 1) == TotalArc(p, sizes, arc)
  {
    SweptIsArcSum(p, sizes, arc, |sizes| - 1);
    assert Gap(p, sizes, arc, |sizes| - 1) == 0.0;
  }

  /**
   * Centred vertical alignment puts `Angle` midway between the first and the
   * last child; Bottom puts the last child at `Angle`.
   */
  lemma CentredArc(p: Panel, sizes: seq<Size>, arc: Arc)
    requires |sizes| > 0 && NoZeroRadius(p, sizes)
    ensures var total := TotalArc(p, sizes, arc);
      var first := StartAngle(p, total);
      var last := first + Swept(p, sizes, arc, |sizes| - 1);
      && (p.vertical == VerticalAlignment.Center || p.vertical == VerticalAlignment.Stretch ==> first + last == 2.0 * p.angle)
      && (p.vertical == Bottom ==> last == p.angle)
      && (p.vertical == Top ==> first == p.angle)
  {
    LastAngle(p, sizes, arc);
  }

  /**
   * A child at radius 0 still counts its gap in the total but does not
   * advance the placement, so two children of height 10 that both sit at
   * radius 0 (Right alignment, outer radius equal to their width) are both
   * placed at `Angle - 45`, not centred on `Angle`, given a 90-degree gap.
   */
  lemma ZeroRadiusShiftsStart(arc: Arc)
    requires arc(10.0, 0.0) == 90.0
    ensures var p := Panel(0.0, 0.0, 10.0, false, true, Right, VerticalAlignment.Center);
      var sizes := [Size(10.0, 10.0), Size(10.0, 10.0)];
      && ElementRadius(p, sizes[0]) == 0.0 && ElementRadius(p, sizes[1]) == 0.0
      && StartAngle(p, TotalArc(p, sizes, arc)) == -45.0
      && Swept(p, sizes, arc, 1) == 0.0
  {
    var p := Panel(0.0, 0.0, 10.0, false, true, Right, VerticalAlignment.Center);
    var sizes := [Size(10.0, 10.0), Size(10.0, 10.0)];
    assert AverageHeight(sizes, 0) == 10.0;
    assert ArcSum(p, sizes, arc, 1) == 90.0;
    assert ArcSum(p, sizes, arc, 2) == 90.0;
  }
}
