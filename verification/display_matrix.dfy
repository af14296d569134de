/**
 * `DisplayMatrix`: the center, orientation and scale of an element, the
 * transform matrix generated from them (cached behind a dirty flag), and the
 * original and actual sizes that the scale couples.
 *
 * Center, orientation and scale are also dependency properties: each has a
 * backing field and a property-system value. Writing the property system
 * (`SetValue`, or a binding or animation) calls back into the object only when
 * the new value differs from the one it holds, and the callback rewrites the
 * backing field. The model keeps both copies.
 */
module Display {
  import opened Wrappers
  import opened Geometry
  import opened MathUtility

  datatype DisplayMatrix = DisplayMatrix(
    center: NPoint,
    orientation: real,
    scale: Vec,
    originalSize: Size,
    actualSize: Size,
    zIndex: int,
    isDirty: bool,
    isMatrixDirty: bool,
    transformMatrix: Matrix,
    dpCenter: NPoint,
    dpOrientation: real,
    dpScale: Vec,
    viewChanges: nat)  // how many times ViewChanged has been raised

  /** The fields before the constructor body runs; WPF's default `Matrix` is the identity. */
  const Unconstructed: DisplayMatrix := DisplayMatrix(
    Lift(Origin), 0.0, Origin, Size(1.0, 1.0), Size(1.0, 1.0), 0,
    false, true, Identity,
    Lift(Origin), 0.0, Vec(1.0, 1.0), 0)

  /** The z-index the constructor assigns. */
  const DefaultZIndex: int := 100000

  /** ActualSize = OriginalSize scaled componentwise by Scale. */
  predicate SizeCoupled(s: DisplayMatrix)
  {
    s.actualSize == Size(s.originalSize.width * s.scale.x, s.originalSize.height * s.scale.y)
  }

  /**
   * `GenerateTransformMatrix`: rotate about the origin, scale about the origin,
   * then translate to the center unless a coordinate of the center is NaN.
   */
  function Generate(center: NPoint, orientation: real, scale: Vec, trig: Trig): Matrix
  {
    var scaled := RotatedScaled(orientation, scale, trig);
    if center.x.Finite? && center.y.Finite? then Translate(scaled, center.x.value, center.y.value)
    else scaled
  }

  /** The rotation and scale about the origin that `GenerateTransformMatrix` starts with. */
  function RotatedScaled(orientation: real, scale: Vec, trig: Trig): Matrix
  {
    ScaleAt(RotateAt(Identity, orientation, 0.0, 0.0, trig), scale.x, scale.y, 0.0, 0.0)
  }

  /** The generated matrix maps p to scale * rot(p) + center, leaving out the center when it holds a NaN. */
  lemma GenerateMaps(center: NPoint, orientation: real, scale: Vec, trig: Trig, p: Vec)
    ensures var placed := ScaleBy(RotateVector(p, orientation, trig), scale);
      Transform(Generate(center, orientation, scale, trig), p)
        == if center.x.Finite? && center.y.Finite? then Add(placed, Vec(center.x.value, center.y.value)) else placed
  {
    var rotated := RotateAt(Identity, orientation, 0.0, 0.0, trig);
    var scaled := RotatedScaled(orientation, scale, trig);
    IdentityPoint(p);
    RotateAtPoint(Identity, orientation, 0.0, 0.0, trig, p);
    assert Vec(0.0, 0.0) == Origin;
    AddOrigin(p);
    AddOrigin(RotateVector(p, orientation, trig));
    ScaleAtPoint(rotated, scale.x, scale.y, 0.0, 0.0, p);
    AddOrigin(ScaleBy(RotateVector(p, orientation, trig), scale));
    if center.x.Finite? && center.y.Finite? {
      MultiplyPoint(scaled, Translation(center.x.value, center.y.value), p);
    }
  }

  /** The generated matrix sends the origin to a finite center. */
  lemma GenerateMapsOriginToCenter(c: Vec, orientation: real, scale: Vec, trig: Trig)
    ensures Transform(Generate(Lift(c), orientation, scale, trig), Origin) == c
  {
    GenerateMaps(Lift(c), orientation, scale, trig, Origin);
    assert RotateVector(Origin, orientation, trig) == Origin;
  }

  /** Without rotation and scaling the generated matrix is the translation to the center. */
  lemma GenerateUnrotatedUnscaled(c: Vec, orientation: real, scale: Vec, trig: Trig)
    requires ZeroAngleIsIdentity(trig) && orientation == 0.0 && scale == Vec(1.0, 1.0)
    ensures Generate(Lift(c), orientation, scale, trig) == Translation(c.x, c.y)
  {
    GenerateFinite(Lift(c), orientation, scale, trig);
    UnitRotatedScaled(trig);
    MultiplyIdentity(Translation(c.x, c.y));
  }

  lemma GenerateFinite(center: NPoint, orientation: real, scale: Vec, trig: Trig)
    requires center.x.Finite? && center.y.Finite?
    ensures Generate(center, orientation, scale, trig)
            == Translate(RotatedScaled(orientation, scale, trig), center.x.value, center.y.value)
  {
  }

  lemma UnitRotatedScaled(trig: Trig)
    requires ZeroAngleIsIdentity(trig)
    ensures RotatedScaled(0.0, Vec(1.0, 1.0), trig) == Identity
  {
    UnitRotation(trig(0.0));
    MultiplyIdentity(Identity);
    assert RotateAt(Identity, 0.0, 0.0, 0.0, trig) == Identity;
    UnitScaling();
  }

  lemma UnitRotation(cs: CosSin)
    requires cs == CosSin(1.0, 0.0)
    ensures RotationAt(cs, 0.0, 0.0) == Identity
  {
  }

  lemma UnitScaling()
    ensures ScalingAt(1.0, 1.0, 0.0, 0.0) == Identity
  {
  }

  /** The matrix cache is sound: a clean cache holds the matrix generated from the current state. */
  ghost predicate CacheSound(s: DisplayMatrix, trig: Trig)
  {
    !s.isMatrixDirty ==> s.transformMatrix == Generate(s.center, s.orientation, s.scale, trig)
  }

  /** What every operation preserves once the constructor has run. */
  ghost predicate Valid(s: DisplayMatrix, trig: Trig)
  {
    SizeCoupled(s) && CacheSound(s, trig) && s.center == s.dpCenter
  }

  /** `OnViewChanged`: marks the object and its matrix dirty and raises ViewChanged. */
  function OnViewChanged(s: DisplayMatrix): (r: DisplayMatrix)
    ensures r.isDirty && r.isMatrixDirty && r.viewChanges == s.viewChanges + 1
  {
    s.(isDirty := true, isMatrixDirty := true, viewChanges := s.viewChanges + 1)
  }

  /** The `IsDirty` setter: setting it marks the matrix dirty; clearing it leaves the matrix flag alone. */
  function SetIsDirty(s: DisplayMatrix, value: bool): (r: DisplayMatrix)
    ensures r.isDirty == value
    ensures r.isMatrixDirty == (value || s.isMatrixDirty)
    ensures r.(isDirty := s.isDirty, isMatrixDirty := s.isMatrixDirty) == s
  {
    s.(isDirty := value, isMatrixDirty := if value then true else s.isMatrixDirty)
  }

  function UpdateActualSizeFromScale(s: DisplayMatrix): (r: DisplayMatrix)
    ensures SizeCoupled(r) && r.(actualSize := s.actualSize) == s
  {
    s.(actualSize := Size(s.originalSize.width * s.scale.x, s.originalSize.height * s.scale.y))
  }

  /** `ZIndex` setter. */
  function SetZIndex(s: DisplayMatrix, value: int): (r: DisplayMatrix)
    ensures r.zIndex == value && r.isMatrixDirty && r.viewChanges > s.viewChanges
    ensures r.(zIndex := s.zIndex, isDirty := s.isDirty, isMatrixDirty := s.isMatrixDirty, viewChanges := s.viewChanges) == s
  {
    OnViewChanged(s.(zIndex := value))
  }

  /**
   * A write of the center through the property system; the callback runs only
   * for a value different from the one held (NaN equals NaN here, as `Equals` does).
   */
  function SetDpCenter(s: DisplayMatrix, value: NPoint): (r: DisplayMatrix)
    ensures r.dpCenter == value
    ensures s.dpCenter == value ==> r == s
    ensures s.dpCenter != value ==> r.center == value && r.isMatrixDirty && r.viewChanges == s.viewChanges + 1
    ensures r.(center := s.center, dpCenter := s.dpCenter, isDirty := s.isDirty,
               isMatrixDirty := s.isMatrixDirty, viewChanges := s.viewChanges) == s
  {
    if s.dpCenter == value then s
    else OnViewChanged(s.(dpCenter := value, center := value))
  }

  /** `Center` setter: store, raise ViewChanged, then write the property system. */
  function SetCenter(s: DisplayMatrix, value: NPoint): (r: DisplayMatrix)
    ensures r.center == value && r.dpCenter == value
    ensures r.isDirty && r.isMatrixDirty && r.viewChanges > s.viewChanges
    ensures r.(center := s.center, dpCenter := s.dpCenter, isDirty := s.isDirty,
               isMatrixDirty := s.isMatrixDirty, viewChanges := s.viewChanges) == s
  {
    SetDpCenter(OnViewChanged(s.(center := value)), value)
  }

  /** A write of the orientation through the property system; the callback stores the normalised angle. */
  function SetDpOrientation(s: DisplayMatrix, value: real): (r: DisplayMatrix)
    ensures r.dpOrientation == value
    ensures s.dpOrientation == value ==> r == s
    ensures s.dpOrientation != value ==> r.orientation == NormalizeAngle(value) && r.isMatrixDirty && r.viewChanges == s.viewChanges + 1
    ensures r.(orientation := s.orientation, dpOrientation := s.dpOrientation, isDirty := s.isDirty,
               isMatrixDirty := s.isMatrixDirty, viewChanges := s.viewChanges) == s
  {
    if s.dpOrientation == value then s
    else OnViewChanged(s.(dpOrientation := value, orientation := NormalizeAngle(value)))
  }

  /**
   * `Orientation` setter: the field gets the normalised angle and the property
   * system the raw one, so its callback (if it runs) stores the same angle again.
   */
  function SetOrientation(s: DisplayMatrix, value: real): (r: DisplayMatrix)
    ensures r.orientation == NormalizeAngle(value) && 0.0 <= r.orientation < 360.0
    ensures r.dpOrientation == value
    ensures r.isDirty && r.isMatrixDirty && r.viewChanges > s.viewChanges
    ensures r.(orientation := s.orientation, dpOrientation := s.dpOrientation, isDirty := s.isDirty,
               isMatrixDirty := s.isMatrixDirty, viewChanges := s.viewChanges) == s
  {
    SetDpOrientation(OnViewChanged(s.(orientation := NormalizeAngle(value))), value)
  }

  /** Orientations that differ by whole turns are stored identically. */
  lemma SetOrientationPeriodic(s: DisplayMatrix, value: real, turns: int)
    ensures SetOrientation(s, value + 360.0 * turns as real).orientation == SetOrientation(s, value).orientation
  {
    NormalizeAnglePeriodic(value, turns);
  }

  /** A write of the scale through the property system; the callback recomputes the actual size. */
  function SetDpScale(s: DisplayMatrix, value: Vec): (r: DisplayMatrix)
    ensures r.dpScale == value
    ensures s.dpScale == value ==> r == s
    ensures s.dpScale != value ==> r.scale == value && SizeCoupled(r) && r.isMatrixDirty && r.viewChanges == s.viewChanges + 1
    ensures r.(scale := s.scale, dpScale := s.dpScale, actualSize := s.actualSize, isDirty := s.isDirty,
               isMatrixDirty := s.isMatrixDirty, viewChanges := s.viewChanges) == s
  {
    if s.dpScale == value then s
    else OnViewChanged(UpdateActualSizeFromScale(s.(dpScale := value, scale := value)))
  }

  /** `Scale` setter: store, write the property system, recompute the actual size, raise ViewChanged. */
  function SetScale(s: DisplayMatrix, value: Vec): (r: DisplayMatrix)
    ensures r.scale == value && r.dpScale == value && SizeCoupled(r)
    ensures r.isDirty && r.isMatrixDirty && r.viewChanges > s.viewChanges
    ensures r.(scale := s.scale, dpScale := s.dpScale, actualSize := s.actualSize, isDirty := s.isDirty,
               isMatrixDirty := s.isMatrixDirty, viewChanges := s.viewChanges) == s
  {
    OnViewChanged(UpdateActualSizeFromScale(SetDpScale(s.(scale := value), value)))
  }

  /** `OriginalSize` setter: nothing for an equal size; otherwise the actual size follows. No ViewChanged. */
  function SetOriginalSize(s: DisplayMatrix, value: Size): (r: DisplayMatrix)
    ensures s.originalSize == value ==> r == s
    ensures r.originalSize == value && SizeCoupled(r) == (s.originalSize == value ==> SizeCoupled(s))
    ensures r.(originalSize := s.originalSize, actualSize := s.actualSize) == s
  {
    if s.originalSize == value then s
    else UpdateActualSizeFromScale(s.(originalSize := value))
  }

  /**
   * `ActualSize` setter: nothing for an equal size; otherwise the scale becomes
   * actual / original, bypassing the property system, and ViewChanged is raised.
   * A zero original dimension would make the scale infinite or NaN: `None`.
   */
  function SetActualSize(s: DisplayMatrix, value: Size): (r: Option<DisplayMatrix>)
    ensures r.None? <==> s.actualSize != value && (s.originalSize.width == 0.0 || s.originalSize.height == 0.0)
    ensures s.actualSize == value ==> r == Some(s)
    ensures r.Some? && s.actualSize != value ==>
      var t := r.value;
      t.actualSize == value && SizeCoupled(t) && t.isMatrixDirty && t.viewChanges == s.viewChanges + 1
      && t.scale == Vec(value.width / s.originalSize.width, value.height / s.originalSize.height)
      && t.(actualSize := s.actualSize, scale := s.scale, isDirty := s.isDirty,
            isMatrixDirty := s.isMatrixDirty, viewChanges := s.viewChanges) == s
  {
    if s.actualSize == value then Some(s)
    else if s.originalSize.width == 0.0 || s.originalSize.height == 0.0 then None
    else
      var scale := Vec(value.width / s.originalSize.width, value.height / s.originalSize.height);
      DivMul(value.width, s.originalSize.width);
      DivMul(value.height, s.originalSize.height);
      Some(OnViewChanged(s.(actualSize := value, scale := scale)))
  }

  /** Setting the actual size and reading back the scale inverts the scale's effect on the size. */
  lemma ActualSizeRoundTrip(s: DisplayMatrix, value: Size)
    requires SizeCoupled(s) && s.originalSize.width != 0.0 && s.originalSize.height != 0.0
    ensures SetActualSize(s, value).Some?
    ensures var t := SetActualSize(s, value).value;
      SetActualSize(SetScale(t, s.scale), s.actualSize) == Some(SetScale(t, s.scale))
  {
  }

  /** `TransformMatrix` setter: stores the matrix, but the ViewChanged it raises marks it stale at once. */
  function SetTransformMatrix(s: DisplayMatrix, m: Matrix): (r: DisplayMatrix)
    ensures r.transformMatrix == m && r.isMatrixDirty && r.viewChanges == s.viewChanges + 1
    ensures r.(transformMatrix := s.transformMatrix, isDirty := s.isDirty, isMatrixDirty := s.isMatrixDirty,
               viewChanges := s.viewChanges) == s
  {
    OnViewChanged(s.(transformMatrix := m))
  }

  /** `TransformMatrix` getter: regenerates a dirty matrix and caches it. */
  function GetTransformMatrix(s: DisplayMatrix, trig: Trig): (r: (DisplayMatrix, Matrix))
    ensures CacheSound(s, trig) ==> r.1 == Generate(s.center, s.orientation, s.scale, trig)
    ensures !r.0.isMatrixDirty && r.0.transformMatrix == r.1
    ensures CacheSound(s, trig) ==> CacheSound(r.0, trig)
    ensures r.0.(transformMatrix := s.transformMatrix, isMatrixDirty := s.isMatrixDirty) == s
  {
    if s.isMatrixDirty then
      var m := Generate(s.center, s.orientation, s.scale, trig);
      (s.(transformMatrix := m, isMatrixDirty := false), m)
    else (s, s.transformMatrix)
  }

  /** `UpdateMatrix`: writes the generated matrix through the setter. */
  function UpdateMatrix(s: DisplayMatrix, trig: Trig): (r: DisplayMatrix)
    ensures r.transformMatrix == Generate(s.center, s.orientation, s.scale, trig) && r.isMatrixDirty
    ensures r.(transformMatrix := s.transformMatrix, isDirty := s.isDirty, isMatrixDirty := s.isMatrixDirty,
               viewChanges := s.viewChanges) == s
  {
    SetTransformMatrix(s, Generate(s.center, s.orientation, s.scale, trig))
  }

  /** The constructor: z-index 100000, center (0, 0), orientation 0, scale (1, 1), then `UpdateMatrix`. */
  function New(trig: Trig): (r: DisplayMatrix)
    ensures r.center == Lift(Origin) && r.orientation == 0.0 && r.scale == Vec(1.0, 1.0)
    ensures r.originalSize == Size(1.0, 1.0) && r.actualSize == Size(1.0, 1.0) && r.zIndex == DefaultZIndex
    ensures r.isDirty && Valid(r, trig)
  {
    var s1 := SetZIndex(Unconstructed, DefaultZIndex);
    var s2 := SetCenter(s1, Lift(Origin));
    var s3 := SetOrientation(s2, 0.0);
    NormalizeAngleInRange(0.0);
    var s4 := SetScale(s3, Vec(1.0, 1.0));
    UpdateMatrix(s4, trig)
  }

  /**
   * `BatchUpdate`: writes the three backing fields raw and then the property
   * system. The orientation is normalised only if the property system held a
   * different value, since only then does its callback run.
   */
  function BatchUpdate(s: DisplayMatrix, center: NPoint, orientation: real, scale: Vec, trig: Trig): (r: DisplayMatrix)
    ensures r.center == center && r.dpCenter == center
    ensures r.orientation == (if s.dpOrientation == orientation then orientation else NormalizeAngle(orientation))
    ensures r.dpOrientation == orientation
    ensures r.scale == scale && r.dpScale == scale && SizeCoupled(r)
    ensures r.originalSize == s.originalSize && r.zIndex == s.zIndex
    ensures r.isDirty && r.isMatrixDirty && r.viewChanges >= s.viewChanges + 2
  {
    var s1 := SetDpCenter(s.(center := center), center);
    var s2 := SetDpOrientation(s1.(orientation := orientation), orientation);
    var s3 := UpdateActualSizeFromScale(SetDpScale(s2.(scale := scale), scale));
    OnViewChanged(UpdateMatrix(s3, trig))
  }

  /**
   * The orientation setter always normalises, but `BatchUpdate` with the raw
   * value the property system already holds keeps it raw: an angle of 400
   * stays 400.
   */
  lemma BatchUpdateKeepsRawOrientation(s: DisplayMatrix, center: NPoint, scale: Vec, trig: Trig)
    ensures SetOrientation(s, 400.0).orientation == 40.0
    ensures BatchUpdate(SetOrientation(s, 400.0), center, 400.0, scale, trig).orientation == 400.0
  {
    UniqueQuotient(400.0, 1);
  }

  /** NaN coordinates read as 0. */
  function ResetNaN(p: NPoint): (r: Vec)
    ensures p.x.Finite? ==> r.x == p.x.value
    ensures p.y.Finite? ==> r.y == p.y.value
    ensures p.x.NaN? ==> r.x == 0.0
    ensures p.y.NaN? ==> r.y == 0.0
  {
    Vec(if p.x.NaN? then 0.0 else p.x.value, if p.y.NaN? then 0.0 else p.y.value)
  }

  /** The center's offset from where the manipulation started. */
  function OffsetToCenter(center: Vec, deltaTranslation: Vec, manipulationOrigin: Vec): Vec
  {
    Sub(center, Sub(manipulationOrigin, deltaTranslation))
  }

  /**
   * The pivot-corrected translation: the offset is rotated and scaled, and the
   * translation corrected so that the manipulation origin stays put.
   */
  function CorrectedTranslation(center: Vec, deltaTranslation: Vec, deltaRotation: real, scaleX: real,
                                manipulationOrigin: Vec, trig: Trig): Vec
  {
    var offsetToCenter := OffsetToCenter(center, deltaTranslation, manipulationOrigin);
    var rotatedOffset := RotateVector(offsetToCenter, deltaRotation, trig);
    var rotatedTranslation := Add(deltaTranslation, Sub(rotatedOffset, offsetToCenter));
    var scaledOffsetToCenter := Times(offsetToCenter, scaleX);
    Add(rotatedTranslation, Sub(scaledOffsetToCenter, offsetToCenter))
  }

  /** The new center is the manipulation origin plus the rotated offset plus the extra length the scale adds to it. */
  lemma CorrectedCenter(center: Vec, deltaTranslation: Vec, deltaRotation: real, scaleX: real, manipulationOrigin: Vec, trig: Trig)
    ensures var off := OffsetToCenter(center, deltaTranslation, manipulationOrigin);
      Add(center, CorrectedTranslation(center, deltaTranslation, deltaRotation, scaleX, manipulationOrigin, trig))
        == Add(manipulationOrigin, Add(RotateVector(off, deltaRotation, trig), Sub(Times(off, scaleX), off)))
  {
  }

  /** The center after the NaN resets of `ManipulationDelta`, which go through the `Center` setter. */
  function ResetCenter(s: DisplayMatrix): (r: DisplayMatrix)
    ensures r.center == Lift(ResetNaN(s.center))
    ensures r.orientation == s.orientation && r.scale == s.scale && r.dpOrientation == s.dpOrientation
    ensures r.originalSize == s.originalSize && r.actualSize == s.actualSize && r.zIndex == s.zIndex
    ensures s.center.x.Finite? && s.center.y.Finite? ==> r == s
    ensures s.center.x.NaN? || s.center.y.NaN? ==> r.isMatrixDirty && r.dpCenter == r.center
  {
    var c := s.center;
    var s1 := if c.x.NaN? then SetCenter(s, NPoint(Finite(0.0), c.y)) else s;
    var c1 := if c.x.NaN? then NPoint(Finite(0.0), c.y) else c;
    if c1.y.NaN? then SetCenter(s1, NPoint(c1.x, Finite(0.0))) else s1
  }

  /**
   * `ManipulationDelta`: composes a translation, a rotation and a scale about the
   * manipulation origin, and applies the result with `BatchUpdate`. Only the X
   * component of the scale delta moves the center.
   */
  function ManipulationDelta(s: DisplayMatrix, deltaTranslation: Vec, deltaRotation: real, deltaScale: Vec,
                             manipulationOrigin: Vec, trig: Trig): (r: DisplayMatrix)
    ensures r.scale == ScaleBy(s.scale, deltaScale)
    ensures var o := s.orientation + deltaRotation;
      r.orientation == if s.dpOrientation == o then o else NormalizeAngle(o)
    ensures r.originalSize == s.originalSize && SizeCoupled(r) && r.zIndex == s.zIndex
    ensures r.isMatrixDirty && r.center == r.dpCenter
  {
    var s1 := ResetCenter(s);
    var center := ResetNaN(s.center);
    var correction := CorrectedTranslation(center, deltaTranslation, deltaRotation, deltaScale.x, manipulationOrigin, trig);
    var newCenter := Add(center, correction);
    var newOrientation := s1.orientation + deltaRotation;
    var newScale := ScaleBy(s1.scale, deltaScale);
    assert newScale == ScaleBy(s.scale, deltaScale);
    BatchUpdate(s1, Lift(newCenter), newOrientation, newScale, trig)
  }

  /**
   * The center after `ManipulationDelta`: with off the center's offset from the
   * manipulation start, it is the manipulation origin plus rot(off) plus
   * (sX * off - off).
   */
  lemma ManipulationDeltaCenter(s: DisplayMatrix, deltaTranslation: Vec, deltaRotation: real, deltaScale: Vec,
                                manipulationOrigin: Vec, trig: Trig)
    ensures var off := OffsetToCenter(ResetNaN(s.center), deltaTranslation, manipulationOrigin);
      ManipulationDelta(s, deltaTranslation, deltaRotation, deltaScale, manipulationOrigin, trig).center
        == Lift(Add(manipulationOrigin, Add(RotateVector(off, deltaRotation, trig), Sub(Times(off, deltaScale.x), off))))
  {
    var center := ResetNaN(s.center);
    CorrectedCenter(center, deltaTranslation, deltaRotation, deltaScale.x, manipulationOrigin, trig);
  }

  /** Without rotation the center is scaled about the manipulation origin by the X scale delta. */
  lemma ManipulationScalesAboutOrigin(s: DisplayMatrix, deltaTranslation: Vec, deltaScale: Vec, manipulationOrigin: Vec, trig: Trig)
    requires ZeroAngleIsIdentity(trig)
    ensures var off := OffsetToCenter(ResetNaN(s.center), deltaTranslation, manipulationOrigin);
      ManipulationDelta(s, deltaTranslation, 0.0, deltaScale, manipulationOrigin, trig).center
        == Lift(Add(manipulationOrigin, Times(off, deltaScale.x)))
  {
    var off := OffsetToCenter(ResetNaN(s.center), deltaTranslation, manipulationOrigin);
    ManipulationDeltaCenter(s, deltaTranslation, 0.0, deltaScale, manipulationOrigin, trig);
    AddSubCancel(off, Times(off, deltaScale.x));
  }

  /** Without scaling the center turns about the manipulation origin and keeps its distance from it. */
  lemma ManipulationRotatesAboutOrigin(s: DisplayMatrix, deltaTranslation: Vec, deltaRotation: real, deltaScale: Vec,
                                       manipulationOrigin: Vec, trig: Trig)
    requires deltaScale.x == 1.0
    ensures var off := OffsetToCenter(ResetNaN(s.center), deltaTranslation, manipulationOrigin);
      ManipulationDelta(s, deltaTranslation, deltaRotation, deltaScale, manipulationOrigin, trig).center
        == Lift(Add(manipulationOrigin, RotateVector(off, deltaRotation, trig)))
    ensures var cs := trig(deltaRotation); var off := OffsetToCenter(ResetNaN(s.center), deltaTranslation, manipulationOrigin);
      cs.cos * cs.cos + cs.sin * cs.sin == 1.0 ==>
        SquaredLength(Sub(ResetNaN(ManipulationDelta(s, deltaTranslation, deltaRotation, deltaScale, manipulationOrigin, trig).center),
                          manipulationOrigin))
        == SquaredLength(off)
  {
    var off := OffsetToCenter(ResetNaN(s.center), deltaTranslation, manipulationOrigin);
    var turned := RotateVector(off, deltaRotation, trig);
    ManipulationDeltaCenter(s, deltaTranslation, deltaRotation, deltaScale, manipulationOrigin, trig);
    assert Times(off, 1.0) == off;
    assert Sub(off, off) == Origin;
    AddOrigin(turned);
    AddSubCancel(manipulationOrigin, turned);
  }

  /** With neither rotation nor scaling the center simply moves by the translation delta, and the scale stays. */
  lemma ManipulationPureTranslation(s: DisplayMatrix, deltaTranslation: Vec, manipulationOrigin: Vec, trig: Trig)
    requires ZeroAngleIsIdentity(trig)
    ensures var r := ManipulationDelta(s, deltaTranslation, 0.0, Vec(1.0, 1.0), manipulationOrigin, trig);
      r.center == Lift(Add(ResetNaN(s.center), deltaTranslation)) && r.scale == s.scale
  {
    ManipulationScalesAboutOrigin(s, deltaTranslation, Vec(1.0, 1.0), manipulationOrigin, trig);
    var off := OffsetToCenter(ResetNaN(s.center), deltaTranslation, manipulationOrigin);
    assert Times(off, 1.0) == off;
  }

  /** One call a client, a binding or an animation can make on the object. */
  datatype Op =
    | WriteCenter(center: NPoint)
    | WriteOrientation(orientation: real)
    | WriteScale(scale: Vec)
    | WriteOriginalSize(size: Size)
    | WriteActualSize(size: Size)
    | WriteZIndex(zIndex: int)
    | WriteIsDirty(isDirty: bool)
    | WriteTransformMatrix(matrix: Matrix)
    | WriteDpCenter(center: NPoint)
    | WriteDpOrientation(orientation: real)
    | WriteDpScale(scale: Vec)
    | Batch(center: NPoint, orientation: real, scale: Vec)
    | Manipulate(deltaTranslation: Vec, deltaRotation: real, deltaScale: Vec, manipulationOrigin: Vec)
    | Regenerate
    | ReadTransformMatrix

  /** The object after a call; `None` where an actual size over a zero original size makes the scale non-finite. */
  function Apply(s: DisplayMatrix, op: Op, trig: Trig): Option<DisplayMatrix>
  {
    match op
    case WriteCenter(c) => Some(SetCenter(s, c))
    case WriteOrientation(o) => Some(SetOrientation(s, o))
    case WriteScale(v) => Some(SetScale(s, v))
    case WriteOriginalSize(z) => Some(SetOriginalSize(s, z))
    case WriteActualSize(z) => SetActualSize(s, z)
    case WriteZIndex(z) => Some(SetZIndex(s, z))
    case WriteIsDirty(b) => Some(SetIsDirty(s, b))
    case WriteTransformMatrix(m) => Some(SetTransformMatrix(s, m))
    case WriteDpCenter(c) => Some(SetDpCenter(s, c))
    case WriteDpOrientation(o) => Some(SetDpOrientation(s, o))
    case WriteDpScale(v) => Some(SetDpScale(s, v))
    case Batch(c, o, v) => Some(BatchUpdate(s, c, o, v, trig))
    case Manipulate(t, a, v, p) => Some(ManipulationDelta(s, t, a, v, p, trig))
    case Regenerate => Some(UpdateMatrix(s, trig))
    case ReadTransformMatrix => Some(GetTransformMatrix(s, trig).0)
  }

  /**
   * Every call keeps the size coupling, the matrix cache and the center's two
   * copies consistent, so every read of `TransformMatrix` is the matrix
   * generated from the current center, orientation and scale.
   */
  lemma ApplyPreservesValid(s: DisplayMatrix, op: Op, trig: Trig)
    requires Valid(s, trig)
    ensures var r := Apply(s, op, trig); r.Some? ==> Valid(r.value, trig)
    ensures GetTransformMatrix(s, trig).1 == Generate(s.center, s.orientation, s.scale, trig)
  {
    assert GetTransformMatrix(s, trig).1 == Generate(s.center, s.orientation, s.scale, trig);
    match op
    case WriteCenter(c) => SetCenterValid(s, c, trig);
    case WriteOrientation(o) => SetOrientationValid(s, o, trig);
    case WriteScale(v) => SetScaleValid(s, v, trig);
    case WriteOriginalSize(z) => SetOriginalSizeValid(s, z, trig);
    case WriteActualSize(z) => SetActualSizeValid(s, z, trig);
    case WriteZIndex(z) => SetZIndexValid(s, z, trig);
    case WriteIsDirty(b) => SetIsDirtyValid(s, b, trig);
    case WriteTransformMatrix(m) => SetTransformMatrixValid(s, m, trig);
    case WriteDpCenter(c) => SetDpCenterValid(s, c, trig);
    case WriteDpOrientation(o) => SetDpOrientationValid(s, o, trig);
    case WriteDpScale(v) => SetDpScaleValid(s, v, trig);
    case Batch(c, o, v) => BatchUpdateValid(s, c, o, v, trig);
    case Manipulate(t, a, v, p) => ManipulationDeltaValid(s, t, a, v, p, trig);
    case Regenerate => UpdateMatrixValid(s, trig);
    case ReadTransformMatrix => ReadTransformMatrixValid(s, trig);
  }

  lemma ReadTransformMatrixValid(s: DisplayMatrix, trig: Trig)
    requires Valid(s, trig)
    ensures Valid(GetTransformMatrix(s, trig).0, trig)
  {
  }

  lemma SetOriginalSizeValid(s: DisplayMatrix, z: Size, trig: Trig)
    requires Valid(s, trig)
    ensures Valid(SetOriginalSize(s, z), trig)
  {
  }

  lemma SetActualSizeValid(s: DisplayMatrix, z: Size, trig: Trig)
    requires Valid(s, trig)
    ensures SetActualSize(s, z).Some? ==> Valid(SetActualSize(s, z).value, trig)
  {
  }

  lemma SetZIndexValid(s: DisplayMatrix, z: int, trig: Trig)
    requires Valid(s, trig)
    ensures Valid(SetZIndex(s, z), trig)
  {
  }

  lemma SetIsDirtyValid(s: DisplayMatrix, b: bool, trig: Trig)
    requires Valid(s, trig)
    ensures Valid(SetIsDirty(s, b), trig)
  {
  }

  lemma SetTransformMatrixValid(s: DisplayMatrix, m: Matrix, trig: Trig)
    requires Valid(s, trig)
    ensures Valid(SetTransformMatrix(s, m), trig)
  {
  }

  lemma UpdateMatrixValid(s: DisplayMatrix, trig: Trig)
    requires Valid(s, trig)
    ensures Valid(UpdateMatrix(s, trig), trig)
  {
  }

  lemma SetCenterValid(s: DisplayMatrix, c: NPoint, trig: Trig)
    requires Valid(s, trig)
    ensures Valid(SetCenter(s, c), trig)
  {
  }

  lemma SetOrientationValid(s: DisplayMatrix, o: real, trig: Trig)
    requires Valid(s, trig)
    ensures Valid(SetOrientation(s, o), trig)
  {
  }

  lemma SetScaleValid(s: DisplayMatrix, v: Vec, trig: Trig)
    requires Valid(s, trig)
    ensures Valid(SetScale(s, v), trig)
  {
  }

  lemma SetDpCenterValid(s: DisplayMatrix, c: NPoint, trig: Trig)
    requires Valid(s, trig)
    ensures Valid(SetDpCenter(s, c), trig)
  {
  }

  lemma SetDpOrientationValid(s: DisplayMatrix, o: real, trig: Trig)
    requires Valid(s, trig)
    ensures Valid(SetDpOrientation(s, o), trig)
  {
  }

  lemma SetDpScaleValid(s: DisplayMatrix, v: Vec, trig: Trig)
    requires Valid(s, trig)
    ensures Valid(SetDpScale(s, v), trig)
  {
  }

  lemma BatchUpdateValid(s: DisplayMatrix, c: NPoint, o: real, v: Vec, trig: Trig)
    requires Valid(s, trig)
    ensures Valid(BatchUpdate(s, c, o, v, trig), trig)
  {
  }

  lemma ManipulationDeltaValid(s: DisplayMatrix, t: Vec, a: real, v: Vec, p: Vec, trig: Trig)
    requires Valid(s, trig)
    ensures Valid(ManipulationDelta(s, t, a, v, p, trig), trig)
  {
  }

  /** A matrix written through the setter is never read back: the next read regenerates it. */
  lemma WrittenMatrixIsRegenerated(s: DisplayMatrix, m: Matrix, trig: Trig)
    ensures GetTransformMatrix(SetTransformMatrix(s, m), trig).1 == Generate(s.center, s.orientation, s.scale, trig)
  {
  }

  /** The freshly constructed object reads back the identity rotation and scale placed at the origin. */
  lemma NewReadsPlacedAtOrigin(trig: Trig)
    requires ZeroAngleIsIdentity(trig)
    ensures GetTransformMatrix(New(trig), trig).1 == Translation(0.0, 0.0)
  {
    var s := New(trig);
    GenerateUnrotatedUnscaled(Origin, s.orientation, s.scale, trig);
  }

  /** The exception `BoundsToMatrix` throws. */
  datatype Error = DivideByZero

  /** The center of a rectangle: its top-left corner plus half its size. */
  function RectCenter(rect: Rect): Vec
  {
    Add(Vec(rect.left, rect.top), Vec(rect.width / 2.0, rect.height / 2.0))
  }

  /**
   * `BoundsToMatrix`: a new matrix centred on the rectangle with the uniform
   * scale that fits the default size inside it; a zero default dimension throws.
   */
  function BoundsToMatrix(rect: Rect, defaultSize: Size, trig: Trig): (r: Result<DisplayMatrix, Error>)
    ensures r.Failure? <==> defaultSize.width == 0.0 || defaultSize.height == 0.0
    ensures r.Success? ==>
      var k := FitScale(rect, defaultSize);
      r.value.center == Lift(RectCenter(rect)) && r.value.scale == Vec(k, k)
      && r.value.orientation == 0.0 && r.value.actualSize == Size(k, k)
  {
    if defaultSize.width == 0.0 || defaultSize.height == 0.0 then Failure(DivideByZero)
    else Success(Fitted(rect, defaultSize, trig))
  }

  /** The uniform scale that fits the default size inside the rectangle. */
  function FitScale(rect: Rect, defaultSize: Size): real
    requires defaultSize.width != 0.0 && defaultSize.height != 0.0
  {
    Min(rect.width / defaultSize.width, rect.height / defaultSize.height)
  }

  /** A new object given the fitting scale and then the rectangle's center. */
  function Fitted(rect: Rect, defaultSize: Size, trig: Trig): (r: DisplayMatrix)
    requires defaultSize.width != 0.0 && defaultSize.height != 0.0
    ensures var k := FitScale(rect, defaultSize);
      r.center == Lift(RectCenter(rect)) && r.scale == Vec(k, k)
      && r.orientation == 0.0 && r.actualSize == Size(k, k)
  {
    var k := FitScale(rect, defaultSize);
    var data := New(trig);
    var scaled := SetScale(data, Vec(k, k));
    assert scaled.originalSize == Size(1.0, 1.0);
    assert scaled.actualSize == Size(1.0 * k, 1.0 * k);
    SetCenter(scaled, Lift(RectCenter(rect)))
  }

  /** The object `BoundsToMatrix` returns satisfies the invariant every operation keeps. */
  lemma BoundsToMatrixValid(rect: Rect, defaultSize: Size, trig: Trig)
    requires BoundsToMatrix(rect, defaultSize, trig).Success?
    ensures Valid(BoundsToMatrix(rect, defaultSize, trig).value, trig)
  {
    FittedValid(rect, defaultSize, trig);
  }

  lemma FittedValid(rect: Rect, defaultSize: Size, trig: Trig)
    requires defaultSize.width != 0.0 && defaultSize.height != 0.0
    ensures Valid(Fitted(rect, defaultSize, trig), trig)
  {
    var data := New(trig);
    var k := FitScale(rect, defaultSize);
    var scaled := SetScale(data, Vec(k, k));
    SetScaleValid(data, Vec(k, k), trig);
    SetCenterValid(scaled, Lift(RectCenter(rect)), trig);
    assert Fitted(rect, defaultSize, trig) == SetCenter(scaled, Lift(RectCenter(rect)));
  }

  /**
   * For a positive default size, the scale `BoundsToMatrix` chooses makes the
   * default size fit inside the rectangle and fill it in at least one dimension.
   */
  lemma UniformFit(rect: Rect, defaultSize: Size)
    requires defaultSize.width > 0.0 && defaultSize.height > 0.0
    ensures var k := FitScale(rect, defaultSize);
      k * defaultSize.width <= rect.width && k * defaultSize.height <= rect.height
      && (k * defaultSize.width == rect.width || k * defaultSize.height == rect.height)
  {
    var w, h, dw, dh := rect.width, rect.height, defaultSize.width, defaultSize.height;
    var sx := w / dw;
    var sy := h / dh;
    DivMul(w, dw);
    DivMul(h, dh);
    if sx <= sy {
      MulMono(sy, sx, dh);
    } else {
      MulMono(sx, sy, dw);
    }
  }
}
