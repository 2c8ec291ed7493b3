/*
 * The drawee Attacher (zoomabledrawee): the zoom, pan and quarter-turn state
 * of one DraweeView. The base matrix is only ever reset, so the drawing matrix
 * is the supplementary matrix alone, applied to the actual image bounds the
 * Fresco hierarchy reports. The scale bounds come from the static ScaleConfig
 * table, which the attacher reads but never writes.
 */
module DraweeAttacher {
  import opened Wrappers
  import opened Geometry
  import opened EdgeDrag
  import opened RotationMath
  import opened Gestures
  import opened Animation
  import DraweeScaleConfig
  import LevelTable

  /**
   * The DraweeView while the weak reference still holds it: its size inside the
   * padding, getRight() and getBottom(), whether it has a parent and a
   * drawable, and the actual image bounds the hierarchy reports.
   */
  datatype DraweeFrame = DraweeFrame(width: int, height: int, right: int, bottom: int,
                                     hasParent: bool, hasDrawable: bool, imageBounds: Rect)

  /** The settings the attacher reads; each has a plain setter in the library. */
  datatype Settings = Settings(takeOverPolicy: int, allowParentInterceptOnEdge: bool,
                               allowRotateInAnyScale: bool, enableMatrix: bool)

  /** mDoubleTapScale starts at -1 and nothing in the library changes it. */
  const DoubleTapScaleUnset: real := -1.0

  class Attacher {
    /** The static ScaleConfig table. */
    const config: DraweeScaleConfig.ScaleConfig
    const settings: Settings
    /** The view behind the weak reference; None once it has been collected. */
    const view: Option<DraweeFrame>
    /** mDoubleTapScale */
    const doubleTapScale: real

    /** mImageInfoWidth, mImageInfoHeight: -1 and -1 until update() reports the image size. */
    var imageWidth: int
    var imageHeight: int
    /** mSuppMatrix */
    var supp: Supp
    /** mCompensateScaleValue */
    var compensateScale: real
    /** mCurrentRotation: DEGREE_X (-1) or DEGREE_0 .. DEGREE_270 (0 .. 3); setRotateConfig accepts any int. */
    var rotation: int
    /** mBlockParentIntercept */
    var blockParentIntercept: bool
    /** mBlockParentTouchEventInLifeCycle */
    var latch: bool

    predicate Valid()
      reads this, config
    {
      && config.Valid() && supp.Valid() && compensateScale > 0.0
      && (view.Some? ==> view.value.width > 0 && view.value.height > 0 && view.value.imageBounds.Sorted())
      && (ImageInfoKnown() ==> imageWidth > 0 && imageHeight > 0)
    }

    /** The image size has been reported: the pair is not (-1, -1). */
    predicate ImageInfoKnown()
      reads this
    {
      !(imageWidth == -1 && imageHeight == -1)
    }

    /** The constructor's defaults: identity matrix, DEGREE_0, compensation 1, image size unknown. */
    constructor(config: DraweeScaleConfig.ScaleConfig, settings: Settings, view: Option<DraweeFrame>)
      requires config.Valid()
      requires view.Some? ==> view.value.width > 0 && view.value.height > 0 && view.value.imageBounds.Sorted()
      ensures Valid()
      ensures this.config == config && this.settings == settings && this.view == view
      ensures doubleTapScale == DoubleTapScaleUnset && imageWidth == -1 && imageHeight == -1
      ensures supp == Identity && compensateScale == 1.0 && rotation == 0
      ensures !blockParentIntercept && !latch
    {
      this.config := config;
      this.settings := settings;
      this.view := view;
      doubleTapScale := DoubleTapScaleUnset;
      imageWidth := -1;
      imageHeight := -1;
      supp := Identity;
      compensateScale := 1.0;
      rotation := 0;
      blockParentIntercept := false;
      latch := false;
    }

    // -------------------------------------------------------------------------
    // Reading the state
    // -------------------------------------------------------------------------

    /** getCompensatedMinScale: key 0 of the table, which is always SCALE_MIN = 1, times the compensation. */
    function CompensatedMinScale(): (r: real)
      reads this, config
      requires Valid()
      ensures r == compensateScale
    {
      config.MinScale() * compensateScale
    }

    /** getCompensatedMaxScale: the last level times the compensation; on an ordered table never below the minimum. */
    function CompensatedMaxScale(): (r: real)
      reads this, config
      requires Valid()
      ensures LevelTable.NonDecreasing(config.levels) ==> r >= CompensatedMinScale()
    {
      var max := config.MaxScale();
      assert LevelTable.NonDecreasing(config.levels) ==> config.levels[0] <= max;
      max * compensateScale
    }

    /** getCompensateScaleAtLevel: a missing key unboxes null and throws (None). */
    function CompensatedScaleAtLevel(level: int): (r: Option<real>)
      reads this, config
      requires Valid()
      ensures r.Some? <==> 0 <= level < |config.levels|
      ensures r.Some? ==> r.value == config.levels[level] * compensateScale
    {
      var v := config.ScaleAtLevel(level);
      if v.None? then None else Some(v.value * compensateScale)
    }

    /** getDisplayRect(getDrawMatrix()): none without the view or before the image size is known. */
    function DisplayRect(): Option<Rect>
      reads this, config
      requires Valid()
    {
      if view.None? || !ImageInfoKnown() then None else Some(MapRect(supp, view.value.imageBounds))
    }

    /** The displayed rectangle needs no correction: checkMatrixBounds would not move it. */
    predicate Settled()
      reads this, config
      requires Valid()
    {
      DisplayRect().Some? ==> Correction(DisplayRect().value, view.value.width, view.value.height, Centred) == Delta(0.0, 0.0)
    }

    /** The early returns of rotate90Degrees before its scaleValue is computed. */
    predicate RotateBlocked()
      reads this, config
      requires Valid()
    {
      || view.None? || !ImageInfoKnown()
      || rotation == DegreeX
      || (!settings.allowRotateInAnyScale && GetScale(supp) > CompensatedMinScale())
      || !view.value.hasDrawable
    }

    /** The scaleValue of rotate90Degrees in the current state, from the image size and the view size. */
    function ScaleValue(): (v: real)
      reads this, config
      requires Valid() && !RotateBlocked()
      ensures v > 0.0
    {
      DraweeScaleValue(rotation, imageWidth, imageHeight, view.value.width as real, view.value.height as real)
    }

    /**
     * The rotation state agrees with the picture: DEGREE_0 or DEGREE_180 with
     * compensation SCALE_MIN, or DEGREE_90 or DEGREE_270 with the FIT_CENTER factor.
     */
    predicate Consistent()
      reads this, config
      requires Valid()
    {
      && view.Some? && ImageInfoKnown()
      && DraweeConsistent(rotation, compensateScale, imageWidth, imageHeight, view.value.width as real, view.value.height as real)
    }

    // -------------------------------------------------------------------------
    // The bounds clamp
    // -------------------------------------------------------------------------

    /**
     * checkMatrixBounds: without a displayed rectangle it reports false;
     * otherwise it translates the supplementary matrix so that each axis is
     * centred when the content fits and covers the viewport when it does not.
     * (checkMatrixAndInvalidate adds only a view check this one already makes.)
     */
    method CheckMatrixBounds() returns (ok: bool)
      requires Valid()
      modifies this`supp
      ensures Valid() && Settled()
      ensures ok <==> view.Some? && ImageInfoKnown()
      ensures !ok ==> supp == old(supp)
      ensures ok ==> var d := Correction(old(DisplayRect()).value, view.value.width, view.value.height, Centred);
                     supp == PostTranslate(old(supp), d.dx, d.dy)
      ensures supp == Clamped(old(supp))
    {
      if view.None? || !ImageInfoKnown() {
        return false;
      }
      var rect := MapRect(supp, view.value.imageBounds);
      var d := Correction(rect, view.value.width, view.value.height, Centred);
      MapRectAfterTranslate(supp, view.value.imageBounds, d.dx, d.dy);
      CorrectionIdempotent(rect, view.value.width, view.value.height, Centred);
      supp := PostTranslate(supp, d.dx, d.dy);
      return true;
    }

    /**
     * The supplementary matrix m as checkMatrixBounds leaves it: without the
     * view or the image size it is kept, otherwise it is moved so that the
     * displayed rectangle needs no further centring or covering, at the same
     * scale and rotation.
     */
    function Clamped(m: Supp): (r: Supp)
      reads this, config
      requires Valid() && m.Valid()
      ensures r.Valid() && GetScale(r) == GetScale(m) && r.quarter == m.quarter
      ensures view.None? || !ImageInfoKnown() ==> r == m
      ensures view.Some? && ImageInfoKnown() ==>
                Correction(MapRect(r, view.value.imageBounds), view.value.width, view.value.height, Centred) == Delta(0.0, 0.0)
    {
      if view.None? || !ImageInfoKnown() then m
      else
        var rect := MapRect(m, view.value.imageBounds);
        var d := Correction(rect, view.value.width, view.value.height, Centred);
        MapRectAfterTranslate(m, view.value.imageBounds, d.dx, d.dy);
        CorrectionIdempotent(rect, view.value.width, view.value.height, Centred);
        PostTranslate(m, d.dx, d.dy)
    }

    /** getDisplayRect(): the displayed rectangle after the bounds check. */
    method GetDisplayRect() returns (r: Option<Rect>)
      requires Valid()
      modifies this`supp
      ensures Valid() && Settled()
      ensures r == DisplayRect() && GetScale(supp) == old(GetScale(supp)) && supp.quarter == old(supp.quarter)
      ensures r.None? ==> supp == old(supp)
      ensures supp == Clamped(old(supp))
      ensures r.Some? ==> && (r.value.Width() > view.value.width as real ==> r.value.left <= 0.0 && view.value.width as real <= r.value.right)
                          && (r.value.Height() > view.value.height as real ==> r.value.top <= 0.0 && view.value.height as real <= r.value.bottom)
    {
      if DisplayRect().Some? {
        CorrectedCovers(DisplayRect().value, view.value.width, view.value.height, Centred);
      }
      var _ := CheckMatrixBounds();
      r := DisplayRect();
    }

    /**
     * update(imageInfoWidth, imageInfoHeight): records the image size; once it
     * is known the matrix is reset, that is turned by the base rotation (0) and
     * clamped, then clamped again.
     */
    method Update(width: int, height: int)
      requires Valid()
      requires (width == -1 && height == -1) || (width > 0 && height > 0)
      modifies this`imageWidth, this`imageHeight, this`supp
      ensures Valid() && imageWidth == width && imageHeight == height
      ensures !ImageInfoKnown() ==> supp == old(supp)
      ensures ImageInfoKnown() ==> Settled() && GetScale(supp) == old(GetScale(supp)) && supp.quarter == old(supp.quarter)
      ensures ImageInfoKnown() && view.Some? ==>
                var d := Correction(MapRect(old(supp), view.value.imageBounds), view.value.width, view.value.height, Centred);
                supp == PostTranslate(old(supp), d.dx, d.dy)
      ensures ImageInfoKnown() ==> supp == Clamped(old(supp))
    {
      imageWidth, imageHeight := width, height;
      if width == -1 && height == -1 {
        return;
      }
      supp := PostRotate(supp, 0);
      var _ := CheckMatrixBounds();
      var _ := CheckMatrixBounds();
    }

    // -------------------------------------------------------------------------
    // Rotation
    // -------------------------------------------------------------------------

    /** setRotateConfig: records the rotation, and the compensation unless the rotation is DEGREE_X. */
    method SetRotateConfig(currentRotation: int, compensateScaleValue: real)
      requires Valid() && (currentRotation != DegreeX ==> compensateScaleValue > 0.0)
      modifies this`rotation, this`compensateScale
      ensures Valid() && rotation == currentRotation
      ensures compensateScale == if currentRotation == DegreeX then old(compensateScale) else compensateScaleValue
    {
      rotation := currentRotation;
      if currentRotation != DegreeX {
        compensateScale := compensateScaleValue;
      }
    }

    /**
     * rotate90Degrees(clockwise, animate): after the early returns, and unless
     * animate is set (which then does nothing at all), the scale is reset to
     * the compensation, multiplied by scaleValue and turned by a quarter; the
     * rotation steps round DEGREE_0 .. DEGREE_270 and the compensation becomes
     * scaleValue on entering 90 or 270 degrees and SCALE_MIN otherwise.
     * scaleValue is computed from the display size in floats (see
     * DraweeDisplaySize).
     */
    method Rotate90Degrees(clockwise: bool, animate: bool) returns (turned: bool)
      requires Valid()
      modifies this`supp, this`rotation, this`compensateScale
      ensures Valid()
      ensures turned <==> !old(RotateBlocked()) && !animate
      ensures !turned ==> supp == old(supp) && rotation == old(rotation) && compensateScale == old(compensateScale)
      ensures turned ==>
                var v := old(ScaleValue());
                && GetScale(supp) == Compensation(old(compensateScale), v)
                && supp.quarter == (old(supp.quarter) + (if clockwise then 1 else -1)) % 4
                && Settled()
                && (0 <= old(rotation) < 4 ==>
                      rotation == NextRotation(old(rotation), clockwise)
                      && compensateScale == (if rotation % 2 == 1 then v else DraweeScaleMin))
                && (!(0 <= old(rotation) < 4) ==> rotation == old(rotation) && compensateScale == old(compensateScale))
      ensures turned ==> supp == Clamped(TurnedSupp(old(supp), old(compensateScale), old(ScaleValue()), if clockwise then 1 else -1))
      ensures turned && old(Consistent()) ==> Consistent() && GetScale(supp) == CompensatedMinScale()
    {
      if RotateBlocked() {
        return false;
      }
      if animate {
        return false;
      }
      Turn(clockwise);
      return true;
    }

    /** rotate90Degrees past its early returns, not animated. */
    method Turn(clockwise: bool)
      requires Valid() && !RotateBlocked()
      modifies this`supp, this`rotation, this`compensateScale
      ensures Valid()
      ensures var v := old(ScaleValue());
              && GetScale(supp) == Compensation(old(compensateScale), v)
              && supp.quarter == (old(supp.quarter) + (if clockwise then 1 else -1)) % 4
              && Settled()
              && (0 <= old(rotation) < 4 ==>
                    rotation == NextRotation(old(rotation), clockwise)
                    && compensateScale == (if rotation % 2 == 1 then v else DraweeScaleMin))
              && (!(0 <= old(rotation) < 4) ==> rotation == old(rotation) && compensateScale == old(compensateScale))
      ensures supp == Clamped(TurnedSupp(old(supp), old(compensateScale), old(ScaleValue()), if clockwise then 1 else -1))
      ensures old(Consistent()) ==> Consistent() && GetScale(supp) == CompensatedMinScale()
    {
      var v := ScaleValue();
      if Consistent() {
        DraweeTurnConsistent(rotation, compensateScale, clockwise, imageWidth, imageHeight,
                             view.value.width as real, view.value.height as real);
      }
      // The clamp reads neither the rotation nor the compensation, so it may
      // run before setRotateConfig, which the source calls first.
      TurnMatrix(compensateScale, v, if clockwise then 1 else -1);
      if 0 <= rotation < 4 {
        var config := NextRotateConfig(rotation, clockwise, v);
        SetRotateConfig(config.rotation, config.compensate);
      }
    }

    /** The matrix half of rotate90Degrees: reset, step, quarter turn, then the bounds check. */
    method TurnMatrix(compensate: real, scaleFactor: real, turns: int)
      requires Valid() && compensate > 0.0 && scaleFactor > 0.0
      modifies this`supp
      ensures Valid() && Settled()
      ensures GetScale(supp) == Compensation(compensate, scaleFactor)
      ensures supp.quarter == (old(supp.quarter) + turns) % 4
      ensures supp == Clamped(TurnedSupp(old(supp), compensate, scaleFactor, turns))
    {
      supp := TurnedSupp(supp, compensate, scaleFactor, turns);
      var _ := CheckMatrixBounds();
    }

    /**
     * clearScaleEffect: DEGREE_90 and DEGREE_270 turn back by one quarter,
     * DEGREE_180 by two (the second turn is refused when rotation is only
     * allowed at the minimum scale and the first did not end there); DEGREE_0
     * and DEGREE_X set the compensated minimum scale, DEGREE_X after replacing
     * the matrix by setRotationTo(base rotation 0), the identity, and clamping it.
     */
    method ClearScaleEffect()
      requires Valid()
      modifies this`supp, this`rotation, this`compensateScale
      ensures Valid()
      ensures (old(rotation) == 1 || old(rotation) == 3) && old(RotateBlocked()) ==>
                supp == old(supp) && rotation == old(rotation) && compensateScale == old(compensateScale)
      ensures (old(rotation) == 1 || old(rotation) == 3) && !old(RotateBlocked()) ==>
                && rotation == 0 && compensateScale == DraweeScaleMin
                && supp == Clamped(TurnedSupp(old(supp), old(compensateScale), old(ScaleValue()), if old(rotation) == 1 then -1 else 1))
      ensures (old(rotation) == 1 || old(rotation) == 3) && !old(RotateBlocked()) && old(Consistent()) ==>
                Consistent() && GetScale(supp) == CompensatedMinScale()
      ensures old(rotation) == 2 && old(RotateBlocked()) ==>
                supp == old(supp) && rotation == old(rotation) && compensateScale == old(compensateScale)
      ensures old(rotation) == 2 && !old(RotateBlocked()) ==>
                var v := old(ScaleValue());
                var half := Clamped(TurnedSupp(old(supp), old(compensateScale), v, -1));
                if settings.allowRotateInAnyScale || old(compensateScale) <= DraweeScaleMin then
                  && rotation == 0 && compensateScale == DraweeScaleMin
                  && supp == Clamped(TurnedSupp(half, v, DraweeScaleValue(1, imageWidth, imageHeight, view.value.width as real, view.value.height as real), -1))
                else
                  rotation == 1 && compensateScale == v && supp == half
      ensures old(rotation) == 2 && !old(RotateBlocked()) && old(Consistent()) ==>
                rotation == 0 && Consistent() && GetScale(supp) == CompensatedMinScale()
      ensures old(rotation) == 0 ==>
                rotation == old(rotation) && compensateScale == old(compensateScale) && supp == MinimumReset(old(supp))
      ensures old(rotation) == DegreeX ==>
                rotation == old(rotation) && compensateScale == old(compensateScale) && supp == MinimumReset(Clamped(Identity))
      ensures old(rotation) == DegreeX ==> supp.quarter == 0
      ensures !(-1 <= old(rotation) <= 3) ==>
                supp == old(supp) && rotation == old(rotation) && compensateScale == old(compensateScale)
    {
      if rotation == DegreeX {
        supp := Identity;
        var _ := CheckMatrixBounds();
        ResetScale();
      } else if rotation == 0 {
        ResetScale();
      } else if rotation == 1 || rotation == 3 {
        TurnBackQuarter();
      } else if rotation == 2 {
        TurnBackHalf();
      }
    }

    /** clearScaleEffect at DEGREE_90 or DEGREE_270: one quarter turn back, counter-clockwise from 90, clockwise from 270. */
    method TurnBackQuarter()
      requires Valid() && (rotation == 1 || rotation == 3)
      modifies this`supp, this`rotation, this`compensateScale
      ensures Valid()
      ensures old(RotateBlocked()) ==> supp == old(supp) && rotation == old(rotation) && compensateScale == old(compensateScale)
      ensures !old(RotateBlocked()) ==>
                && rotation == 0 && compensateScale == DraweeScaleMin
                && supp == Clamped(TurnedSupp(old(supp), old(compensateScale), old(ScaleValue()), if old(rotation) == 1 then -1 else 1))
      ensures !old(RotateBlocked()) && old(Consistent()) ==> Consistent() && GetScale(supp) == CompensatedMinScale()
    {
      var _ := Rotate90Degrees(rotation == 3, false);
    }

    /**
     * clearScaleEffect at DEGREE_180: two quarter turns counter-clockwise. The
     * first ends at DEGREE_90 with compensation scaleValue and scale
     * compensation times scaleValue; the second is refused when rotation is only
     * allowed at the minimum scale and that scale lies above it, that is when
     * the old compensation exceeds SCALE_MIN.
     */
    method TurnBackHalf()
      requires Valid() && rotation == 2
      modifies this`supp, this`rotation, this`compensateScale
      ensures Valid()
      ensures old(RotateBlocked()) ==> supp == old(supp) && rotation == old(rotation) && compensateScale == old(compensateScale)
      ensures !old(RotateBlocked()) ==>
                var v := old(ScaleValue());
                var half := Clamped(TurnedSupp(old(supp), old(compensateScale), v, -1));
                if settings.allowRotateInAnyScale || old(compensateScale) <= DraweeScaleMin then
                  && rotation == 0 && compensateScale == DraweeScaleMin
                  && supp == Clamped(TurnedSupp(half, v, DraweeScaleValue(1, imageWidth, imageHeight, view.value.width as real, view.value.height as real), -1))
                else
                  rotation == 1 && compensateScale == v && supp == half
      ensures !old(RotateBlocked()) && old(Consistent()) ==> rotation == 0 && Consistent() && GetScale(supp) == CompensatedMinScale()
    {
      if RotateBlocked() {
        var _ := Rotate90Degrees(false, false);
        var _ := Rotate90Degrees(false, false);
        return;
      }
      ghost var c := compensateScale;
      ghost var v := ScaleValue();
      ghost var half := Clamped(TurnedSupp(supp, c, v, -1));
      var _ := Rotate90Degrees(false, false);
      assert rotation == 1 && compensateScale == v && supp == half;
      FinishTurnBack(c);
    }

    /**
     * The second rotate90Degrees(false, false) of clearScaleEffect at
     * DEGREE_180, entered at DEGREE_90 with the scale at c times the
     * compensation, c being the compensation the first turn left.
     */
    method FinishTurnBack(ghost c: real)
      requires Valid() && view.Some? && ImageInfoKnown() && view.value.hasDrawable && rotation == 1
      requires c > 0.0 && compensateScale > 0.0 && GetScale(supp) == Compensation(c, compensateScale)
      modifies this`supp, this`rotation, this`compensateScale
      ensures Valid()
      ensures if settings.allowRotateInAnyScale || c <= DraweeScaleMin then
                && rotation == 0 && compensateScale == DraweeScaleMin
                && supp == Clamped(TurnedSupp(old(supp), old(compensateScale), old(ScaleValue()), -1))
              else
                supp == old(supp) && rotation == old(rotation) && compensateScale == old(compensateScale)
      ensures (settings.allowRotateInAnyScale || c <= DraweeScaleMin) && old(Consistent()) ==>
                Consistent() && GetScale(supp) == CompensatedMinScale()
    {
      SecondTurnGate(c);
      var _ := Rotate90Degrees(false, false);
    }

    /** After the first turn back from 180 degrees the second is refused exactly when the old compensation c lies above SCALE_MIN and rotation needs the minimum scale. */
    lemma SecondTurnGate(c: real)
      requires Valid() && view.Some? && ImageInfoKnown() && view.value.hasDrawable && rotation == 1
      requires c > 0.0 && compensateScale > 0.0 && GetScale(supp) == Compensation(c, compensateScale)
      ensures RotateBlocked() <==> !settings.allowRotateInAnyScale && c > DraweeScaleMin
    {
      RaisedExactlyAboveOne(c, compensateScale);
    }

    /**
     * The matrix clearScaleEffect's "if (getScale() != getCompensatedMinScale())
     * setScale(getCompensatedMinScale())" leaves from m: a plain scale to the
     * compensated minimum about the view centre, clamped, when the scale differs
     * and setScale accepts it; m itself otherwise.
     */
    function MinimumReset(m: Supp): (r: Supp)
      reads this, config
      requires Valid() && m.Valid()
      ensures r.Valid()
      ensures settings.enableMatrix && view.Some? && CompensatedMinScale() <= CompensatedMaxScale() ==>
                GetScale(r) == CompensatedMinScale()
      ensures r.quarter == m.quarter || r.quarter == 0
    {
      if GetScale(m) != CompensatedMinScale() && settings.enableMatrix && view.Some? && CompensatedMinScale() <= CompensatedMaxScale()
      then Clamped(Geometry.SetScale(CompensatedMinScale(), HalfTowardZero(view.value.right) as real, HalfTowardZero(view.value.bottom) as real))
      else m
    }

    /** clearScaleEffect's "if (getScale() != getCompensatedMinScale()) setScale(getCompensatedMinScale())". */
    method ResetScale()
      requires Valid()
      modifies this`supp
      ensures Valid()
      ensures supp == MinimumReset(old(supp))
    {
      if GetScale(supp) != CompensatedMinScale() {
        var _ := SetScaleCentred(CompensatedMinScale(), false);
      }
    }

    // -------------------------------------------------------------------------
    // Scaling
    // -------------------------------------------------------------------------

    /**
     * setScale(scale, focalX, focalY, animate): nothing while the matrix is
     * disabled or the view is gone (None); a scale outside the compensated
     * bounds is ignored silently; an animated call posts a zoom from the
     * current scale; any other replaces the supplementary matrix by a plain
     * scale about the focus.
     */
    method SetScale(scale: real, focalX: real, focalY: real, animate: bool) returns (o: Option<ScaleOutcome>)
      requires Valid()
      modifies this`supp
      ensures Valid()
      ensures o.None? <==> !settings.enableMatrix || view.None?
      ensures o == Some(OutOfBounds) <==>
                settings.enableMatrix && view.Some? && (scale < CompensatedMinScale() || scale > CompensatedMaxScale())
      ensures o.Some? && o.value != OutOfBounds ==> (o.value.Animated? <==> animate)
      ensures o.Some? && o.value.Animated? ==> o.value.request == ZoomRequest(old(GetScale(supp)), scale, focalX, focalY)
      ensures !(o.Some? && o.value.Applied?) ==> supp == old(supp)
      ensures o.Some? && o.value.Applied? ==> GetScale(supp) == scale && supp.quarter == 0 && Settled()
      ensures o.Some? && o.value.Applied? ==> supp == Clamped(Geometry.SetScale(scale, focalX, focalY))
    {
      if !settings.enableMatrix || view.None? {
        return None;
      }
      if scale < CompensatedMinScale() || scale > CompensatedMaxScale() {
        return Some(OutOfBounds);
      }
      if animate {
        return Some(Animated(ZoomRequest(GetScale(supp), scale, focalX, focalY)));
      }
      supp := Geometry.SetScale(scale, focalX, focalY);
      var _ := CheckMatrixBounds();
      return Some(Applied);
    }

    /**
     * setScale(scale, animate), and setScale(scale) with animate false: about
     * the view's centre, getRight() / 2 and getBottom() / 2 in int arithmetic.
     */
    method SetScaleCentred(scale: real, animate: bool) returns (o: Option<ScaleOutcome>)
      requires Valid()
      modifies this`supp
      ensures Valid()
      ensures o.None? <==> !settings.enableMatrix || view.None?
      ensures o == Some(OutOfBounds) <==>
                settings.enableMatrix && view.Some? && (scale < CompensatedMinScale() || scale > CompensatedMaxScale())
      ensures o.Some? && o.value != OutOfBounds ==> (o.value.Animated? <==> animate)
      ensures o.Some? && o.value.Animated? ==>
                o.value.request == ZoomRequest(old(GetScale(supp)), scale, HalfTowardZero(view.value.right) as real,
                                               HalfTowardZero(view.value.bottom) as real)
      ensures !(o.Some? && o.value.Applied?) ==> supp == old(supp)
      ensures o.Some? && o.value.Applied? ==> GetScale(supp) == scale && supp.quarter == 0 && Settled()
      ensures o.Some? && o.value.Applied? ==>
                supp == Clamped(Geometry.SetScale(scale, HalfTowardZero(view.value.right) as real, HalfTowardZero(view.value.bottom) as real))
    {
      if !settings.enableMatrix || view.None? {
        return None;
      }
      o := SetScale(scale, HalfTowardZero(view.value.right) as real, HalfTowardZero(view.value.bottom) as real, animate);
    }

    /**
     * onScale: the step is applied only when it does not push the scale
     * further beyond either compensated bound; the scale is then multiplied by
     * the factor about the focus and the bounds are checked.
     */
    method OnScale(factor: real, focusX: real, focusY: real) returns (applied: bool)
      requires Valid() && factor > 0.0
      modifies this`supp
      ensures Valid()
      ensures applied <==> DraweeScaleGate(old(GetScale(supp)), CompensatedMinScale(), CompensatedMaxScale(), factor)
      ensures !applied ==> supp == old(supp)
      ensures applied ==> GetScale(supp) == factor * old(GetScale(supp)) && supp.quarter == old(supp.quarter) && Settled()
      ensures applied ==> supp == Clamped(PostScale(old(supp), factor, focusX, focusY))
    {
      applied := DraweeScaleGate(GetScale(supp), CompensatedMinScale(), CompensatedMaxScale(), factor);
      if applied {
        supp := PostScale(supp, factor, focusX, focusY);
        var _ := CheckMatrixBounds();
      }
    }

    /**
     * onScaleEnd (checkMinScale): with the view present and the scale below the
     * compensated minimum, a zoom back to the minimum is posted, centred on the
     * displayed rectangle after the bounds check.
     */
    method CheckMinScale() returns (zoom: Option<ZoomRequest>)
      requires Valid()
      modifies this`supp
      ensures Valid() && GetScale(supp) == old(GetScale(supp))
      ensures zoom.Some? <==> view.Some? && ImageInfoKnown() && old(GetScale(supp)) < CompensatedMinScale()
      ensures zoom.None? ==> supp == old(supp)
      ensures zoom.Some? ==>
                Settled() && zoom.value == ZoomRequest(GetScale(supp), CompensatedMinScale(),
                                                       DisplayRect().value.CenterX(), DisplayRect().value.CenterY())
      ensures zoom.Some? ==> supp == Clamped(old(supp))
    {
      if view.None? || GetScale(supp) >= CompensatedMinScale() {
        return None;
      }
      var rect := GetDisplayRect();
      if rect.None? {
        return None;
      }
      return Some(ZoomRequest(GetScale(supp), CompensatedMinScale(), rect.value.CenterX(), rect.value.CenterY()));
    }

    // -------------------------------------------------------------------------
    // Gestures
    // -------------------------------------------------------------------------

    /** The arbiter's decision for a drag in the current state from the given latch; without the view or a parent nothing is requested. */
    function EdgeDecision(dx: real, dy: real, scaling: bool, latchBefore: bool): Decision
      reads this, config
      requires Valid()
    {
      if view.None? || !view.value.hasParent then Decision(NoRequest, latchBefore)
      else Arbitrate(settings.allowParentInterceptOnEdge, scaling, blockParentIntercept, DisplayRect(),
                     view.value.width, view.value.height, dx, dy, settings.takeOverPolicy, latchBefore)
    }

    /** parentTakeOverOnEdge(dx, dy, policy): the request made to the parent, and the new latch. */
    method ParentTakeOverOnEdge(dx: real, dy: real, scaling: bool) returns (request: Request)
      requires Valid()
      modifies this`latch
      ensures Valid()
      ensures Decision(request, latch) == EdgeDecision(dx, dy, scaling, old(latch))
    {
      if view.None? || !view.value.hasParent {
        return NoRequest;
      }
      var d := Arbitrate(settings.allowParentInterceptOnEdge, scaling, blockParentIntercept, DisplayRect(),
                         view.value.width, view.value.height, dx, dy, settings.takeOverPolicy, latch);
      latch := d.latch;
      request := d.request;
    }

    /**
     * onDrag: ignored while a scale gesture runs; otherwise the content follows
     * the finger, is clamped, and the arbiter decides about the parent.
     */
    method OnDrag(dx: real, dy: real, scaling: bool) returns (request: Request)
      requires Valid()
      modifies this`supp, this`latch
      ensures Valid()
      ensures scaling ==> supp == old(supp) && latch == old(latch) && request == NoRequest
      ensures !scaling ==> Settled() && GetScale(supp) == old(GetScale(supp)) && supp.quarter == old(supp.quarter)
      ensures !scaling && DisplayRect().Some? ==>
                var moved := PostTranslate(old(supp), dx, dy);
                var d := Correction(MapRect(moved, view.value.imageBounds), view.value.width, view.value.height, Centred);
                supp == PostTranslate(moved, d.dx, d.dy)
      ensures !scaling ==> supp == Clamped(PostTranslate(old(supp), dx, dy))
      ensures !scaling ==> Decision(request, latch) == EdgeDecision(dx, dy, false, old(latch))
    {
      if scaling {
        return NoRequest;
      }
      supp := PostTranslate(supp, dx, dy);
      var _ := CheckMatrixBounds();
      request := ParentTakeOverOnEdge(dx, dy, false);
    }

    /**
     * onDoubleTap: refused while the matrix is disabled; otherwise an animated
     * setScale to the toggle target (silently ignored out of bounds). The event's
     * coordinates are read inside the try that covers the whole body, so when
     * getX() or getY() throws (readable false) nothing is scaled and the tap
     * still counts as handled.
     */
    method OnDoubleTap(x: real, y: real, readable: bool) returns (handled: bool, o: Option<ScaleOutcome>)
      requires Valid()
      modifies this`supp
      ensures Valid() && supp == old(supp)
      ensures handled <==> settings.enableMatrix
      ensures o.None? <==> !settings.enableMatrix || !readable || view.None?
      ensures o.Some? ==>
                var target := DraweeDoubleTapTarget(GetScale(supp), CompensatedMinScale(), CompensatedMaxScale(), doubleTapScale);
                && (o.value == OutOfBounds <==> target < CompensatedMinScale() || target > CompensatedMaxScale())
                && (o.value != OutOfBounds ==> o.value == Animated(ZoomRequest(GetScale(supp), target, x, y)))
    {
      if !settings.enableMatrix {
        return false, None;
      }
      if !readable {
        return true, None;
      }
      var target := DraweeDoubleTapTarget(GetScale(supp), CompensatedMinScale(), CompensatedMaxScale(), doubleTapScale);
      o := SetScale(target, x, y, true);
      handled := true;
    }

    /**
     * onSingleTapConfirmed: without the view nothing is consumed; with the
     * matrix disabled the tap is a view tap; otherwise it is measured against
     * the displayed rectangle after the bounds check.
     */
    method OnSingleTapConfirmed(x: real, y: real) returns (r: TapResult)
      requires Valid()
      modifies this`supp
      ensures Valid() && GetScale(supp) == old(GetScale(supp))
      ensures view.None? ==> r == TapResult(false, None, false) && supp == old(supp)
      ensures view.Some? && !settings.enableMatrix ==> r == DraweeSingleTap(false, None, x, y) && supp == old(supp)
      ensures view.Some? && settings.enableMatrix ==> Settled() && r == DraweeSingleTap(true, DisplayRect(), x, y)
      ensures view.Some? && settings.enableMatrix ==> supp == Clamped(old(supp))
    {
      if view.None? {
        return TapResult(false, None, false);
      }
      if !settings.enableMatrix {
        return DraweeSingleTap(false, None, x, y);
      }
      var rect := GetDisplayRect();
      r := DraweeSingleTap(true, rect, x, y);
    }

    /**
     * ACTION_DOWN in onTouch, with the matrix enabled: the latch is cleared
     * under TAKE_OVER_UNTIL_NEXT_DOWN and the parent is told to keep out.
     */
    method OnActionDown() returns (request: Request)
      requires Valid()
      modifies this`latch
      ensures Valid()
      ensures !settings.enableMatrix ==> request == NoRequest && latch == old(latch)
      ensures settings.enableMatrix && settings.takeOverPolicy == InTouchLifecycle ==> !latch
      ensures settings.enableMatrix && settings.takeOverPolicy != InTouchLifecycle ==> latch == old(latch)
      ensures settings.enableMatrix ==>
                request == (if view.Some? && view.value.hasParent then Request(true) else NoRequest)
    {
      if !settings.enableMatrix {
        return NoRequest;
      }
      if settings.takeOverPolicy == InTouchLifecycle {
        latch := false;
      }
      request := if view.Some? && view.value.hasParent then Request(true) else NoRequest;
    }

    /** After the scale/drag detector has seen an event: mBlockParentIntercept records that it neither scaled nor dragged. */
    method TrackDetector(wasScaling: bool, isScaling: bool, wasDragging: bool, isDragging: bool)
      requires Valid()
      modifies this`blockParentIntercept
      ensures Valid()
      ensures settings.enableMatrix ==> (blockParentIntercept <==> !wasScaling && !isScaling && !wasDragging && !isDragging)
      ensures !settings.enableMatrix ==> blockParentIntercept == old(blockParentIntercept)
    {
      if settings.enableMatrix {
        blockParentIntercept := !wasScaling && !isScaling && !wasDragging && !isDragging;
      }
    }

    // -------------------------------------------------------------------------
    // Animations
    // -------------------------------------------------------------------------

    /** One frame of AnimatedZoomRunnable: with the view present, the step that brings the scale to the interpolated one, through onScale. */
    method ZoomTick(request: ZoomRequest, t: real) returns (applied: bool)
      requires Valid() && request.from > 0.0 && request.to > 0.0 && 0.0 <= t <= 1.0
      modifies this`supp
      ensures Valid()
      ensures applied ==> view.Some? && GetScale(supp) == Interpolate(request.from, request.to, t) && Settled()
      ensures applied ==> supp == Clamped(PostScale(old(supp), ZoomStep(request, t, old(GetScale(supp))), request.focalX, request.focalY))
      ensures !applied ==> supp == old(supp)
    {
      if view.None? {
        return false;
      }
      var factor := ZoomStep(request, t, GetScale(supp));
      applied := OnScale(factor, request.focalX, request.focalY);
    }

    /**
     * onFling: with the view present a new FlingRunnable is started from the
     * displayed rectangle after the bounds check; without a rectangle it is
     * posted with its positions left at 0.
     */
    method OnFling() returns (runnable: Option<FlingRunnable>, range: Option<FlingRange>, started: bool)
      requires Valid()
      modifies this`supp
      ensures Valid() && GetScale(supp) == old(GetScale(supp))
      ensures runnable.None? <==> view.None?
      ensures runnable.Some? ==> fresh(runnable.value) && Settled()
      ensures runnable.None? ==> supp == old(supp)
      ensures runnable.Some? ==> supp == Clamped(old(supp))
      ensures range.Some? <==> view.Some? && ImageInfoKnown()
      ensures range.Some? ==> range.value == FlingBounds(DisplayRect().value, view.value.width, view.value.height)
      ensures range.Some? ==> var r := range.value;
                              r.minX <= r.startX <= r.maxX && r.minY <= r.startY <= r.maxY
                              && runnable.value.currentX == r.startX && runnable.value.currentY == r.startY
      ensures range.None? && runnable.Some? ==> runnable.value.currentX == 0 && runnable.value.currentY == 0
      ensures started <==> range.Some? && FlingStarts(range.value)
    {
      if view.None? {
        return None, None, false;
      }
      var fling := new FlingRunnable();
      var rect := GetDisplayRect();
      if rect.None? {
        return Some(fling), None, false;
      }
      var r := FlingBounds(rect.value, view.value.width, view.value.height);
      FlingStartsInRange(rect.value, view.value.width, view.value.height);
      fling.Start(r);
      return Some(fling), Some(r), FlingStarts(r);
    }

    /**
     * One frame of FlingRunnable.run with the view present: the content moves
     * by the scroller's step. Unlike PhotoViewAttacher, no bounds check follows.
     */
    method FlingTick(runnable: FlingRunnable, newX: int, newY: int)
      requires Valid()
      modifies this`supp, runnable
      ensures Valid()
      ensures view.None? ==> supp == old(supp) && runnable.currentX == old(runnable.currentX) && runnable.currentY == old(runnable.currentY)
      ensures view.Some? ==>
                && runnable.currentX == newX && runnable.currentY == newY
                && supp == PostTranslate(old(supp), (old(runnable.currentX) - newX) as real, (old(runnable.currentY) - newY) as real)
    {
      if view.None? {
        return;
      }
      var dx, dy := runnable.Step(newX, newY);
      supp := PostTranslate(supp, dx as real, dy as real);
    }
  }

  /**
   * The fling does not clamp: a step that carries content narrower than the
   * viewport off centre leaves it there until the next bounds check.
   */
  lemma FlingLeavesContentUnsettled()
    ensures var m := PostTranslate(Identity, 10.0, 0.0);
            Correction(MapRect(m, Rect(0.0, 0.0, 100.0, 100.0)), 100, 100, Centred) != Delta(0.0, 0.0)
  {
    var m := PostTranslate(Identity, 10.0, 0.0);
    assert m == Supp(1.0, 0, 10.0, 0.0);
    assert Mul(1.0, 0.0) == 0.0 && Mul(1.0, 100.0) == 100.0;
    var r := MapRect(m, Rect(0.0, 0.0, 100.0, 100.0));
    assert r.left == 10.0 && r.right == 110.0;
  }
}
