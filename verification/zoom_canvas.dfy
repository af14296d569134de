/**
 * `ZoomCanvas`: a control whose view is a `DisplayMatrix`. Input adapters push
 * manipulations and absolute states into the matrix; every ViewChanged of the
 * matrix sets an update flag, and a 15 ms timer re-renders the zoom element
 * only when the flag is set, so many changes between two ticks cost one render.
 */
module Zoom {
  import opened Wrappers
  import opened Geometry
  import opened MathUtility
  import Display
  import ScatterMatrixHelper

  /** The timer interval the constructor sets, in milliseconds. */
  const UpdateIntervalMs: nat := 15

  /** A display matrix instance: `id` stands for its object identity. */
  datatype Held = Held(id: nat, matrix: Display.DisplayMatrix)

  /** The render transform last applied to the zoom element: rotation, scale, then translation. */
  datatype RenderState = RenderState(angle: real, scale: Vec, offset: NPoint)

  /** The template part `PART_ZoomElement`. */
  datatype ZoomElement = ZoomElement(
    renderSize: Size,
    renderTransformOrigin: Vec,
    isHitTestVisible: bool,
    render: Option<RenderState>)

  datatype ZoomCanvas = ZoomCanvas(
    zoomMatrix: Option<Held>,
    nextId: nat,                  // an identity no instance seen so far has
    isRotateEnabled: bool,
    isLocked: bool,
    isZoomUpdateNecessary: bool,
    timerArmed: bool,
    zoomElement: Option<ZoomElement>,
    viewChanges: nat)             // how many times the canvas raised its own ViewChanged

  /** The constructor: starts the update timer, enables rotation and applies the (default, unlocked) lock state. */
  function New(): (r: ZoomCanvas)
    ensures r.timerArmed && r.isRotateEnabled && !r.isLocked && r.isZoomUpdateNecessary
    ensures r.zoomMatrix.None? && r.zoomElement.None?
  {
    UpdateIsLocked(ZoomCanvas(None, 0, true, false, true, true, None, 0))
  }

  /** The held matrix as the matrix subscription saw it change: a ViewChanged raised in between sets the flag. */
  function Observe(c: ZoomCanvas, m: Display.DisplayMatrix): (r: ZoomCanvas)
    requires c.zoomMatrix.Some?
    ensures r.zoomMatrix == Some(Held(c.zoomMatrix.value.id, m))
    ensures r.isZoomUpdateNecessary <==> c.isZoomUpdateNecessary || m.viewChanges != c.zoomMatrix.value.matrix.viewChanges
    ensures r.(zoomMatrix := c.zoomMatrix, isZoomUpdateNecessary := c.isZoomUpdateNecessary) == c
  {
    var h := c.zoomMatrix.value;
    c.(zoomMatrix := Some(Held(h.id, m)),
       isZoomUpdateNecessary := c.isZoomUpdateNecessary || m.viewChanges != h.matrix.viewChanges)
  }

  /** Two references to the same instance, or both null. */
  predicate SameInstance(a: Option<Held>, b: Option<Held>)
  {
    (a.None? && b.None?) || (a.Some? && b.Some? && a.value.id == b.value.id)
  }

  /**
   * `ZoomMatrix` setter: nothing for the instance already held; otherwise the
   * subscription moves to the new instance and the update flag is set.
   */
  function SetZoomMatrix(c: ZoomCanvas, value: Option<Held>): (r: ZoomCanvas)
    ensures SameInstance(c.zoomMatrix, value) ==> r == c
    ensures !SameInstance(c.zoomMatrix, value) ==> r.zoomMatrix == value && r.isZoomUpdateNecessary
    ensures !SameInstance(c.zoomMatrix, value) && value.Some? ==> value.value.id < r.nextId
    ensures r.(zoomMatrix := c.zoomMatrix, isZoomUpdateNecessary := c.isZoomUpdateNecessary, nextId := c.nextId) == c
  {
    if SameInstance(c.zoomMatrix, value) then c
    else
      var next := if value.Some? && value.value.id >= c.nextId then value.value.id + 1 else c.nextId;
      c.(zoomMatrix := value, isZoomUpdateNecessary := true, nextId := next)
  }

  /**
   * `ZoomMatrix` getter: the first read creates a matrix, installs it through
   * the setter and sets its center to (0, 0).
   */
  function GetZoomMatrix(c: ZoomCanvas, trig: Trig): (r: (ZoomCanvas, Display.DisplayMatrix))
    ensures r.0.zoomMatrix.Some? && r.0.zoomMatrix.value.matrix == r.1
    ensures c.zoomMatrix.Some? ==> r == (c, c.zoomMatrix.value.matrix)
    ensures c.zoomMatrix.None? ==>
      r.1.center == Lift(Origin) && r.1.orientation == 0.0 && r.1.scale == Vec(1.0, 1.0)
      && Display.Valid(r.1, trig) && r.0.isZoomUpdateNecessary
    ensures r.0.(zoomMatrix := c.zoomMatrix, isZoomUpdateNecessary := c.isZoomUpdateNecessary, nextId := c.nextId) == c
  {
    match c.zoomMatrix
    case Some(h) => (c, h.matrix)
    case None =>
      var created := Display.New(trig);
      var c1 := SetZoomMatrix(c, Some(Held(c.nextId, created)));
      var m := Display.SetCenter(created, Lift(Origin));
      (Observe(c1, m), m)
  }

  /** `Center` getter: the matrix's center (creating the matrix first if need be). */
  function GetCenter(c: ZoomCanvas, trig: Trig): (r: (ZoomCanvas, NPoint))
    ensures r.0.zoomMatrix.Some? && r.1 == r.0.zoomMatrix.value.matrix.center
    ensures c.zoomMatrix.None? ==> r.1 == Lift(Origin)
  {
    var (c1, m) := GetZoomMatrix(c, trig);
    (c1, m.center)
  }

  /** `Center` setter: nothing when the matrix's center is already equal by `==` (never for NaN), else the matrix's setter. */
  function SetCenter(c: ZoomCanvas, value: NPoint, trig: Trig): (r: ZoomCanvas)
    ensures r.zoomMatrix.Some? && r.zoomMatrix.value.matrix.center
            == if c.zoomMatrix.Some? && IeeeEqualPoints(c.zoomMatrix.value.matrix.center, value)
               then c.zoomMatrix.value.matrix.center else value
    ensures c.zoomMatrix.Some? && IeeeEqualPoints(c.zoomMatrix.value.matrix.center, value) ==> r == c
    ensures !(c.zoomMatrix.Some? && IeeeEqualPoints(c.zoomMatrix.value.matrix.center, value)) ==> r.isZoomUpdateNecessary
  {
    var (c1, m) := GetZoomMatrix(c, trig);
    if IeeeEqualPoints(m.center, value) then
      assert c.zoomMatrix.None? ==> m.center == Lift(Origin);
      c1
    else Observe(c1, Display.SetCenter(m, value))
  }

  /** Setting the center twice to the same finite point is the same as setting it once. */
  lemma SetCenterIdempotent(c: ZoomCanvas, p: Vec, trig: Trig)
    ensures SetCenter(SetCenter(c, Lift(p), trig), Lift(p), trig) == SetCenter(c, Lift(p), trig)
  {
  }

  /** A NaN center never compares equal, so setting it always reaches the matrix and raises ViewChanged. */
  lemma SetNaNCenterAlwaysUpdates(c: ZoomCanvas, y: Double, trig: Trig)
    requires c.zoomMatrix.Some?
    ensures var r := SetCenter(c, NPoint(NaN, y), trig);
      r.isZoomUpdateNecessary && r.zoomMatrix.value.matrix.viewChanges > c.zoomMatrix.value.matrix.viewChanges
  {
  }

  /** `StopFlyTo`: no animation is modelled, so stopping them only reads (and may create) the matrix. */
  function StopFlyTo(c: ZoomCanvas, trig: Trig): (r: ZoomCanvas)
    ensures r == GetZoomMatrix(c, trig).0
  {
    GetZoomMatrix(c, trig).0
  }

  /** The input adapter's SetState: a `BatchUpdate` of the matrix; the event's lock request is ignored. */
  function ChildSetState(c: ZoomCanvas, center: NPoint, orientation: real, scale: Vec, isLocked: bool, trig: Trig): (r: ZoomCanvas)
    ensures r.zoomMatrix.Some?
    ensures var m := r.zoomMatrix.value.matrix; var before := GetZoomMatrix(c, trig).1;
      m.center == center && m.scale == scale
      && m.orientation == (if before.dpOrientation == orientation then orientation else NormalizeAngle(orientation))
    ensures r.isZoomUpdateNecessary && r.isLocked == c.isLocked && r.zoomElement == c.zoomElement
  {
    var c1 := StopFlyTo(c, trig);
    var (c2, m) := GetZoomMatrix(c1, trig);
    Observe(c2, Display.BatchUpdate(m, center, orientation, scale, trig))
  }

  /** The lock request carried by SetState makes no difference. */
  lemma ChildSetStateIgnoresLock(c: ZoomCanvas, center: NPoint, orientation: real, scale: Vec, trig: Trig)
    ensures ChildSetState(c, center, orientation, scale, true, trig) == ChildSetState(c, center, orientation, scale, false, trig)
  {
  }

  /** The render offset, which is NaN in every coordinate where the center is NaN. */
  function RenderOffset(size: Size, renderTransformOrigin: Vec, center: NPoint, angle: real, scale: Vec, trig: Trig): (r: NPoint)
    ensures center.x.Finite? && center.y.Finite? ==>
      r == Lift(ScatterMatrixHelper.CalculateRenderOffset(size, renderTransformOrigin, Vec(center.x.value, center.y.value), angle, scale, trig))
    ensures center.x.NaN? ==> r.x.NaN?
    ensures center.y.NaN? ==> r.y.NaN?
  {
    var rendered := ScatterMatrixHelper.RenderedCenter(size, renderTransformOrigin, angle, scale, trig);
    NPoint(SubDouble(center.x, rendered.x), SubDouble(center.y, rendered.y))
  }

  /**
   * `UpdateZoomElement`: without a zoom element nothing happens. Otherwise the
   * flag is cleared, the element gets the matrix's rotation, scale and render
   * offset, and the canvas raises its own ViewChanged. Reading the matrix may
   * create it, which sets the flag again.
   */
  function UpdateZoomElement(c: ZoomCanvas, trig: Trig): (r: ZoomCanvas)
    ensures c.zoomElement.None? ==> r == c
    ensures c.zoomElement.Some? ==> r.zoomMatrix.Some?
    ensures c.zoomElement.Some? ==>
      var m := r.zoomMatrix.value.matrix; var e := c.zoomElement.value;
      r.zoomElement == Some(e.(render := Some(RenderState(m.orientation, m.scale,
        RenderOffset(e.renderSize, e.renderTransformOrigin, m.center, m.orientation, m.scale, trig)))))
      && r.viewChanges == c.viewChanges + 1
      && (r.isZoomUpdateNecessary <==> c.zoomMatrix.None?)
    ensures c.zoomMatrix.Some? ==> r.zoomMatrix == c.zoomMatrix
  {
    match c.zoomElement
    case None => c
    case Some(e) =>
      var c1 := c.(isZoomUpdateNecessary := false);
      var (c2, m) := GetZoomMatrix(c1, trig);
      var offset := RenderOffset(e.renderSize, e.renderTransformOrigin, m.center, m.orientation, m.scale, trig);
      c2.(zoomElement := Some(e.(render := Some(RenderState(m.orientation, m.scale, offset)))),
          viewChanges := c2.viewChanges + 1)
  }

  /**
   * `UpdateZoomView`: applies a manipulation delta to the matrix, with the
   * rotation dropped when rotation is disabled, and re-renders at once.
   */
  function UpdateZoomView(c: ZoomCanvas, deltaTranslation: Vec, deltaRotation: real, deltaScale: Vec,
                          manipulationOrigin: Vec, trig: Trig): (r: ZoomCanvas)
    ensures var before := GetZoomMatrix(c, trig).1;
      var rotation := if c.isRotateEnabled then deltaRotation else 0.0;
      r.zoomMatrix.Some? &&
      r.zoomMatrix.value.matrix == Display.ManipulationDelta(before, deltaTranslation, rotation, deltaScale, manipulationOrigin, trig)
    ensures c.zoomElement.Some? ==> !r.isZoomUpdateNecessary && r.zoomElement.Some? && r.zoomElement.value.render.Some?
    ensures c.zoomElement.None? ==> r.isZoomUpdateNecessary && r.zoomElement.None?
  {
    var rotation := if c.isRotateEnabled then deltaRotation else 0.0;
    var (c1, m) := GetZoomMatrix(c, trig);
    var c2 := Observe(c1, Display.ManipulationDelta(m, deltaTranslation, rotation, deltaScale, manipulationOrigin, trig));
    UpdateZoomElement(c2, trig)
  }

  /** With rotation disabled the matrix's orientation moves only by renormalisation, never by the gesture. */
  lemma RotateDisabledKeepsOrientation(c: ZoomCanvas, deltaTranslation: Vec, deltaRotation: real, deltaScale: Vec,
                                       manipulationOrigin: Vec, trig: Trig)
    requires !c.isRotateEnabled
    ensures var before := GetZoomMatrix(c, trig).1;
      var after := UpdateZoomView(c, deltaTranslation, deltaRotation, deltaScale, manipulationOrigin, trig).zoomMatrix.value.matrix;
      after.orientation == if before.dpOrientation == before.orientation then before.orientation else NormalizeAngle(before.orientation)
  {
  }

  /**
   * The input adapter's ManipulationDelta: the delta lands on the matrix the
   * canvas held (or created), rotation dropped when disabled, and an attached
   * element is re-rendered at once.
   */
  function ChildManipulationDelta(c: ZoomCanvas, deltaTranslation: Vec, deltaRotation: real, deltaScale: Vec,
                                  manipulationOrigin: Vec, trig: Trig): (r: ZoomCanvas)
    ensures var before := GetZoomMatrix(c, trig).1;
      var rotation := if c.isRotateEnabled then deltaRotation else 0.0;
      r.zoomMatrix.Some? &&
      r.zoomMatrix.value.matrix == Display.ManipulationDelta(before, deltaTranslation, rotation, deltaScale, manipulationOrigin, trig)
    ensures c.zoomElement.Some? ==> !r.isZoomUpdateNecessary && r.zoomElement.Some? && r.zoomElement.value.render.Some?
    ensures c.zoomElement.None? ==> r.isZoomUpdateNecessary && r.zoomElement.None?
  {
    var stopped := StopFlyTo(c, trig);
    assert GetZoomMatrix(stopped, trig).1 == GetZoomMatrix(c, trig).1;
    assert stopped.isRotateEnabled == c.isRotateEnabled && stopped.zoomElement == c.zoomElement;
    UpdateZoomView(stopped, deltaTranslation, deltaRotation, deltaScale, manipulationOrigin, trig)
  }

  /**
   * The update timer's tick: renders only when something changed since the
   * last render and an element is attached; the render shows the matrix's
   * rotation and scale, raises the canvas's ViewChanged once and clears the flag.
   */
  function Tick(c: ZoomCanvas, trig: Trig): (r: ZoomCanvas)
    requires c.timerArmed
    ensures !c.isZoomUpdateNecessary || c.zoomElement.None? ==> r == c
    ensures c.isZoomUpdateNecessary && c.zoomElement.Some? ==>
      && r.zoomMatrix.Some?
      && var m := r.zoomMatrix.value.matrix;
      r.zoomElement.Some? && r.zoomElement.value.render.Some?
      && r.zoomElement.value.render.value.angle == m.orientation
      && r.zoomElement.value.render.value.scale == m.scale
      && r.viewChanges == c.viewChanges + 1
    ensures c.zoomMatrix.Some? ==> r.zoomMatrix == c.zoomMatrix
    ensures c.zoomMatrix.Some? && c.zoomElement.Some? ==> !r.isZoomUpdateNecessary
    ensures r.timerArmed
  {
    if c.isZoomUpdateNecessary then UpdateZoomElement(c, trig) else c
  }

  /** Changes between two ticks are coalesced: once a tick has rendered, the next tick does nothing. */
  lemma TickCoalesces(c: ZoomCanvas, trig: Trig)
    requires c.timerArmed && c.zoomElement.Some? && c.zoomMatrix.Some?
    ensures Tick(Tick(c, trig), trig) == Tick(c, trig)
    ensures !Tick(c, trig).isZoomUpdateNecessary
  {
  }

  /** Without a zoom element the flag is never cleared, so every tick retries. */
  lemma TickWithoutElement(c: ZoomCanvas, trig: Trig)
    requires c.timerArmed && c.zoomElement.None?
    ensures Tick(c, trig) == c
  {
  }

  /** The rendered element after a tick shows the matrix's rotation and scale, placed so its midpoint lands on the center. */
  lemma TickRendersCenter(c: ZoomCanvas, trig: Trig, center: Vec)
    requires c.timerArmed && c.isZoomUpdateNecessary && c.zoomElement.Some? && c.zoomMatrix.Some?
    requires c.zoomMatrix.value.matrix.center == Lift(center)
    ensures var e := Tick(c, trig).zoomElement.value; var m := c.zoomMatrix.value.matrix;
      e.render.Some? && e.render.value.angle == m.orientation && e.render.value.scale == m.scale
      && var offset := e.render.value.offset;
      var origin := ScatterMatrixHelper.GetRenderOrigin(e.renderSize.width, e.renderSize.height, e.renderTransformOrigin);
      offset.x.Finite? && offset.y.Finite?
      && Transform(ScatterMatrixHelper.GetRenderMatrix(origin, Vec(offset.x.value, offset.y.value), m.orientation, m.scale, trig),
                   Vec(e.renderSize.width * 0.5, e.renderSize.height * 0.5)) == center
  {
  }

  /** `UpdateIsLocked`: a zoom element is hit-testable exactly when the canvas is unlocked. */
  function UpdateIsLocked(c: ZoomCanvas): (r: ZoomCanvas)
    ensures c.zoomElement.None? ==> r == c
    ensures c.zoomElement.Some? ==> r.zoomElement == Some(c.zoomElement.value.(isHitTestVisible := !c.isLocked))
    ensures r.(zoomElement := c.zoomElement) == c
  {
    match c.zoomElement
    case None => c
    case Some(e) => c.(zoomElement := Some(e.(isHitTestVisible := !c.isLocked)))
  }

  /** The `IsLocked` dependency property: its callback runs only for a changed value. */
  function SetIsLocked(c: ZoomCanvas, value: bool): (r: ZoomCanvas)
    ensures r.isLocked == value
    ensures r.zoomElement.Some? <==> c.zoomElement.Some?
    ensures c.isLocked != value && c.zoomElement.Some? ==> r.zoomElement.value.isHitTestVisible == !value
    ensures c.isLocked == value ==> r == c
  {
    if c.isLocked == value then c else UpdateIsLocked(c.(isLocked := value))
  }

  /** Once an element is attached, it is hit-testable exactly when the canvas is unlocked, whatever the lock writes. */
  ghost predicate LockApplied(c: ZoomCanvas)
  {
    c.zoomElement.Some? ==> c.zoomElement.value.isHitTestVisible == !c.isLocked
  }

  lemma SetIsLockedKeepsLockApplied(c: ZoomCanvas, value: bool)
    requires LockApplied(c)
    ensures LockApplied(SetIsLocked(c, value))
  {
  }

  /** `OnApplyTemplate`: picks up the zoom element (or none) and applies the lock state to it. */
  function OnApplyTemplate(c: ZoomCanvas, element: Option<ZoomElement>): (r: ZoomCanvas)
    ensures r.zoomElement.Some? <==> element.Some?
    ensures LockApplied(r)
    ensures r.(zoomElement := c.zoomElement) == c
  {
    UpdateIsLocked(c.(zoomElement := element))
  }

  /** The `IsRotateEnabled` auto-property. */
  function SetIsRotateEnabled(c: ZoomCanvas, value: bool): (r: ZoomCanvas)
    ensures r.isRotateEnabled == value && r.(isRotateEnabled := c.isRotateEnabled) == c
  {
    c.(isRotateEnabled := value)
  }

  /** The `Loaded` handler: centers the view on the middle of the control. */
  function Loaded(c: ZoomCanvas, actualWidth: real, actualHeight: real, trig: Trig): (r: ZoomCanvas)
    ensures r.zoomMatrix.Some? && r.zoomMatrix.value.matrix.center == Lift(Vec(actualWidth / 2.0, actualHeight / 2.0))
  {
    SetCenter(c, Lift(Vec(actualWidth / 2.0, actualHeight / 2.0)), trig)
  }

  /** `ViewMatrix`: the matrix's (possibly regenerated) transform matrix. */
  function ViewMatrix(c: ZoomCanvas, trig: Trig): (r: (ZoomCanvas, Matrix))
    ensures var m := GetZoomMatrix(c, trig).1;
      Display.CacheSound(m, trig) ==> r.1 == Display.Generate(m.center, m.orientation, m.scale, trig)
    ensures r.0.isZoomUpdateNecessary == GetZoomMatrix(c, trig).0.isZoomUpdateNecessary
  {
    var (c1, m) := GetZoomMatrix(c, trig);
    var (m2, matrix) := Display.GetTransformMatrix(m, trig);
    (c1.(zoomMatrix := Some(Held(c1.zoomMatrix.value.id, m2))), matrix)
  }

  /** `ViewMatrixInvert`: the inverse of the view matrix, or the identity when it has none. */
  function ViewMatrixInvert(c: ZoomCanvas, trig: Trig): (r: (ZoomCanvas, Matrix))
    ensures var v := ViewMatrix(c, trig);
      r.0 == v.0 && (HasInverse(v.1) ==> forall p :: Transform(r.1, Transform(v.1, p)) == p)
    ensures !HasInverse(ViewMatrix(c, trig).1) ==> r.1 == Identity
  {
    var (c1, m) := ViewMatrix(c, trig);
    if !HasInverse(m) then (c1, Identity) else (c1, Invert(m))
  }

  /**
   * `WorldToScreen` for a point: the point placed by the matrix's center,
   * orientation and scale, once the matrix is read (and possibly created).
   */
  function WorldToScreen(c: ZoomCanvas, p: Vec, trig: Trig): (r: (ZoomCanvas, Vec))
    ensures var m := GetZoomMatrix(c, trig).1;
      Display.CacheSound(m, trig) ==> r.1 == Transform(Display.Generate(m.center, m.orientation, m.scale, trig), p)
    ensures r.0.zoomMatrix.Some? && r.0.isZoomUpdateNecessary == GetZoomMatrix(c, trig).0.isZoomUpdateNecessary
  {
    var (c1, m) := ViewMatrix(c, trig);
    (c1, Transform(m, p))
  }

  /**
   * `ScreenToWorld` for a point: the world point the view maps onto `p`, and
   * `p` itself when the view matrix is singular.
   */
  function ScreenToWorld(c: ZoomCanvas, p: Vec, trig: Trig): (r: (ZoomCanvas, Vec))
    ensures var v := ViewMatrix(c, trig).1;
      HasInverse(v) ==> forall w :: Transform(v, w) == p ==> r.1 == w
    ensures !HasInverse(ViewMatrix(c, trig).1) ==> r.1 == p
    ensures r.0 == ViewMatrix(c, trig).0
  {
    var (c1, m) := ViewMatrixInvert(c, trig);
    IdentityPoint(p);
    (c1, Transform(m, p))
  }

  /**
   * `WorldToScreen` for a vector: the screen displacement between the images
   * of any two world points `v` apart, so the view's translation plays no part.
   */
  function WorldToScreenVector(c: ZoomCanvas, v: Vec, trig: Trig): (r: (ZoomCanvas, Vec))
    ensures var m := ViewMatrix(c, trig).1;
      forall a :: r.1 == Sub(Transform(m, Add(a, v)), Transform(m, a))
    ensures r.0 == ViewMatrix(c, trig).0
  {
    var (c1, m) := ViewMatrix(c, trig);
    assert forall a :: TransformVector(m, v) == Sub(Transform(m, Add(a, v)), Transform(m, a)) by {
      forall a ensures TransformVector(m, v) == Sub(Transform(m, Add(a, v)), Transform(m, a)) {
        TransformVectorDifference(m, Add(a, v), a);
        assert Sub(Add(a, v), a) == v;
      }
    }
    (c1, TransformVector(m, v))
  }

  /**
   * `ScreenToWorld` for a vector: the world vector the view maps onto `d`, and
   * `d` itself when the view matrix is singular.
   */
  function ScreenToWorldVector(c: ZoomCanvas, d: Vec, trig: Trig): (r: (ZoomCanvas, Vec))
    ensures var v := ViewMatrix(c, trig).1;
      HasInverse(v) ==> forall w :: TransformVector(v, w) == d ==> r.1 == w
    ensures !HasInverse(ViewMatrix(c, trig).1) ==> r.1 == d
    ensures r.0 == ViewMatrix(c, trig).0
  {
    var (c1, m) := ViewMatrixInvert(c, trig);
    var v := ViewMatrix(c, trig).1;
    assert HasInverse(v) ==> forall w :: TransformVector(v, w) == d ==> TransformVector(m, d) == w by {
      if HasInverse(v) {
        forall w | TransformVector(v, w) == d ensures TransformVector(m, d) == w {
          TransformVectorDifference(v, w, Origin);
          TransformVectorDifference(m, Transform(v, w), Transform(v, Origin));
          AddOrigin(w);
        }
      }
    }
    (c1, TransformVector(m, d))
  }

  /** Mapping a world vector to the screen and back gives it back whenever the view matrix is invertible. */
  lemma ScreenToWorldVectorInvertsWorldToScreenVector(c: ZoomCanvas, v: Vec, trig: Trig)
    requires HasInverse(ViewMatrix(c, trig).1)
    ensures var (c1, d) := WorldToScreenVector(c, v, trig);
      ScreenToWorldVector(c1, d, trig).1 == v
  {
    var (c1, m) := ViewMatrix(c, trig);
    var (c2, m2) := ViewMatrix(c1, trig);
    assert m2 == m;
    TransformVectorDifference(m, v, Origin);
    AddOrigin(v);
  }

  /** Mapping a world point to the screen and back gives it back whenever the view matrix is invertible. */
  lemma ScreenToWorldInvertsWorldToScreen(c: ZoomCanvas, p: Vec, trig: Trig)
    requires HasInverse(ViewMatrix(c, trig).1)
    ensures var (c1, q) := WorldToScreen(c, p, trig);
      ScreenToWorld(c1, q, trig).1 == p
  {
    var (c1, m) := ViewMatrix(c, trig);
    var (c2, m2) := ViewMatrix(c1, trig);
    assert m2 == m;
  }
}
