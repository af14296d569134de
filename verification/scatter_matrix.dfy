/**
 * `ScatterMatrixHelper`: the render transform of a scatter element, a rotation
 * and a scale about the element's render origin followed by a translation, and
 * the translation that puts the element's midpoint at a requested center.
 */
module ScatterMatrixHelper {
  import opened Geometry
  import opened MathUtility

  /** `GetRenderOrigin`: a normalised origin inside a width x height box, in box coordinates. */
  function GetRenderOrigin(width: real, height: real, renderTransformOrigin: Vec): (r: Vec)
    ensures renderTransformOrigin == Vec(0.5, 0.5) ==> r == Vec(width / 2.0, height / 2.0)
    ensures renderTransformOrigin == Origin ==> r == Origin
  {
    Vec(width * renderTransformOrigin.x, height * renderTransformOrigin.y)
  }

  /** The image of `p` under rotation and scaling about `origin` and then a translation by `offset`. */
  function RenderImage(origin: Vec, offset: Vec, rotation: real, scale: Vec, p: Vec, trig: Trig): Vec
  {
    Add(Add(origin, ScaleBy(RotateVector(Sub(p, origin), rotation, trig), scale)), offset)
  }

  /**
   * `GetRenderMatrix`: identity, then `RotateAt(rotation, origin)`, then
   * `ScaleAt(scale, origin)`, then `Translate(offset)`.
   */
  function GetRenderMatrix(renderOrigin: Vec, offset: Vec, rotation: real, scale: Vec, trig: Trig): Matrix
  {
    var rotated := RotateAt(Identity, rotation, renderOrigin.x, renderOrigin.y, trig);
    var scaled := ScaleAt(rotated, scale.x, scale.y, renderOrigin.x, renderOrigin.y);
    Translate(scaled, offset.x, offset.y)
  }

  /** The render matrix rotates and scales about the render origin and then translates by the offset. */
  lemma RenderMatrixMaps(renderOrigin: Vec, offset: Vec, rotation: real, scale: Vec, trig: Trig, p: Vec)
    ensures Transform(GetRenderMatrix(renderOrigin, offset, rotation, scale, trig), p)
            == RenderImage(renderOrigin, offset, rotation, scale, p, trig)
  {
    var rotated := RotateAt(Identity, rotation, renderOrigin.x, renderOrigin.y, trig);
    var scaled := ScaleAt(rotated, scale.x, scale.y, renderOrigin.x, renderOrigin.y);
    IdentityPoint(p);
    RotateAtPoint(Identity, rotation, renderOrigin.x, renderOrigin.y, trig, p);
    AddSubCancel(renderOrigin, RotateVector(Sub(p, renderOrigin), rotation, trig));
    ScaleAtPoint(rotated, scale.x, scale.y, renderOrigin.x, renderOrigin.y, p);
    MultiplyPoint(scaled, Translation(offset.x, offset.y), p);
  }

  /** With no offset, the render origin stays where it is. */
  lemma RenderOriginFixed(renderOrigin: Vec, rotation: real, scale: Vec, trig: Trig)
    ensures Transform(GetRenderMatrix(renderOrigin, Origin, rotation, scale, trig), renderOrigin) == renderOrigin
  {
    RenderMatrixMaps(renderOrigin, Origin, rotation, scale, trig, renderOrigin);
    assert Sub(renderOrigin, renderOrigin) == Origin;
    assert Rotate(Origin, trig(rotation)) == Origin;
    assert RotateVector(Origin, rotation, trig) == Origin;
    assert ScaleBy(Origin, scale) == Origin;
    AddOrigin(renderOrigin);
  }

  /** Where the midpoint of a box lands under the offset-free render matrix. */
  function RenderedCenter(size: Size, renderTransformOrigin: Vec, angle: real, scale: Vec, trig: Trig): Vec
  {
    var renderOrigin := GetRenderOrigin(size.width, size.height, renderTransformOrigin);
    var renderMatrix := GetRenderMatrix(renderOrigin, Origin, angle, scale, trig);
    Transform(renderMatrix, Vec(size.width * 0.5, size.height * 0.5))
  }

  /** `CalculateRenderOffset`: the translation that moves the rendered midpoint onto `center`. */
  function CalculateRenderOffset(size: Size, renderTransformOrigin: Vec, center: Vec, angle: real, scale: Vec, trig: Trig): (r: Vec)
    ensures
      var renderOrigin := GetRenderOrigin(size.width, size.height, renderTransformOrigin);
      Transform(GetRenderMatrix(renderOrigin, r, angle, scale, trig), Vec(size.width * 0.5, size.height * 0.5)) == center
  {
    var renderOrigin := GetRenderOrigin(size.width, size.height, renderTransformOrigin);
    var mid := Vec(size.width * 0.5, size.height * 0.5);
    var r := Sub(center, RenderedCenter(size, renderTransformOrigin, angle, scale, trig));
    RenderMatrixMaps(renderOrigin, Origin, angle, scale, trig, mid);
    RenderMatrixMaps(renderOrigin, r, angle, scale, trig, mid);
    r
  }

  /** A centred render origin makes the offset independent of angle and scale. */
  lemma CenteredOriginOffset(size: Size, center: Vec, angle: real, scale: Vec, trig: Trig)
    ensures CalculateRenderOffset(size, Vec(0.5, 0.5), center, angle, scale, trig)
            == Vec(center.x - size.width / 2.0, center.y - size.height / 2.0)
  {
    var ro := GetRenderOrigin(size.width, size.height, Vec(0.5, 0.5));
    assert Vec(size.width * 0.5, size.height * 0.5) == ro;
    RenderOriginFixed(ro, angle, scale, trig);
  }

  /** Without rotation the midpoint is only scaled about the render origin `o`: the offset is center - (o + s * (size / 2 - o)). */
  lemma UnrotatedOffset(size: Size, renderTransformOrigin: Vec, center: Vec, scale: Vec, trig: Trig)
    requires ZeroAngleIsIdentity(trig)
    ensures
      var o := GetRenderOrigin(size.width, size.height, renderTransformOrigin);
      var mid := Vec(size.width * 0.5, size.height * 0.5);
      CalculateRenderOffset(size, renderTransformOrigin, center, 0.0, scale, trig)
        == Sub(center, Add(o, ScaleBy(Sub(mid, o), scale)))
  {
    var o := GetRenderOrigin(size.width, size.height, renderTransformOrigin);
    var mid := Vec(size.width * 0.5, size.height * 0.5);
    RenderMatrixMaps(o, Origin, 0.0, scale, trig, mid);
    AddOrigin(Add(o, ScaleBy(Sub(mid, o), scale)));
  }
}
