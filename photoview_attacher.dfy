/*
 * PhotoViewAttacher: the zoom, pan and quarter-turn state of one ImageView.
 * The drawing matrix is the base matrix (the scale type's placement of the
 * drawable, taken here as the drawable's placed bounds) followed by the
 * supplementary matrix, which every gesture updates in place.
 */
module PhotoViewAttacher {
  import opened Wrappers
  import opened Geometry
  import opened LevelTable
  import opened EdgeDrag
  import opened RotationMath
  import opened Gestures
  import opened Animation
  import PhotoViewScaleConfig

  /** The drawable: its intrinsic size, and its bounds as the base matrix places them in the view. */
  datatype Drawable = Drawable(width: real, height: real, placed: Rect) {
    predicate Valid() { width > 0.0 && height > 0.0 && placed.Sorted() }
  }

  /** The ImageView: its size inside the padding, getRight() and getBottom(), and whether it has a parent. */
  datatype ViewFrame = ViewFrame(width: int, height: int, right: int, bottom: int, hasParent: bool)

  /** The settings the attacher reads; each has a plain setter in the library. */
  datatype Settings = Settings(scaleType: ScaleType, edgeDragPolicy: int, allowParentInterceptOnEdge: bool,
                               allowRotateInAnyScale: bool, zoomEnabled: bool)

  /** How a rotateTo call ends. */
  datatype RotateOutcome =
    | SameDegree                  // the target is the current angle: nothing happens
    | UnsupportedScaleType        // IllegalArgumentException: neither FIT_CENTER nor CENTER_INSIDE
    | ZoomedIn                    // rotation is only allowed at the minimum scale, and the picture is zoomed in
    | NoDrawable                  // a null dereference: no drawable, so no display size
    | Rotated                     // the matrix is turned at once
    | RotationPosted(rotation: int, scaleResetFactor: real, scaleFactor: real)  // a RotateRunnable is posted

  /** The validation of setScaleLevels: strict order, and every entry in [SCALE_VALUE_MIN, SCALE_VALUE_MAX]. */
  function Validation(s: seq<real>): Option<LevelError>
  {
    FirstFailure(true, true, PhotoViewScaleConfig.ScaleValueMin, PhotoViewScaleConfig.ScaleValueMax, s, 0)
  }

  predicate AllInRange(t: seq<real>) {
    forall k :: 0 <= k < |t| ==> InRange(t[k], PhotoViewScaleConfig.ScaleValueMin, PhotoViewScaleConfig.ScaleValueMax)
  }

  class Attacher {
    const settings: Settings
    const view: ViewFrame
    const drawable: Option<Drawable>

    /** scaleLevels, by key. */
    var scaleLevels: seq<real>
    /** mSuppMatrix */
    var supp: Supp
    /** mCompensateScale */
    var compensateScale: real
    /** mCurrentDegree */
    var currentDegree: int
    /** mBlockParentIntercept: the last touch event neither scaled nor dragged. */
    var blockParentIntercept: bool
    /** mBlockParentTouchEventInLifeCycle: the latch of the edge-drag arbiter. */
    var latch: bool

    predicate Valid()
      reads this
    {
      && supp.Valid() && compensateScale > 0.0 && IsDegree(currentDegree)
      && view.width > 0 && view.height > 0
      && (drawable.Some? ==> drawable.value.Valid())
      && |scaleLevels| >= 2 && AllInRange(scaleLevels)
    }

    /**
     * The attacher as PhotoView sets it up: the constructor's defaults, then
     * setScaleLevels with the default table, which must pass validation.
     */
    constructor(levels: seq<real>, settings: Settings, view: ViewFrame, drawable: Option<Drawable>)
      requires |levels| >= 2 && Validation(levels) == None
      requires view.width > 0 && view.height > 0
      requires drawable.Some? ==> drawable.value.Valid()
      ensures Valid()
      ensures scaleLevels == levels && this.settings == settings && this.view == view && this.drawable == drawable
      ensures supp == Identity && compensateScale == 1.0 && currentDegree == 0
      ensures !blockParentIntercept && !latch
    {
      NoFailureIffValid(true, true, PhotoViewScaleConfig.ScaleValueMin, PhotoViewScaleConfig.ScaleValueMax, levels);
      this.settings := settings;
      this.view := view;
      this.drawable := drawable;
      scaleLevels := levels;
      supp := Identity;
      compensateScale := 1.0;
      currentDegree := 0;
      blockParentIntercept := false;
      latch := false;
    }

    // -------------------------------------------------------------------------
    // Reading the state
    // -------------------------------------------------------------------------

    /** getDisplayRect(getDrawMatrix()): the drawable's bounds under the drawing matrix, none without a drawable. */
    function DisplayRect(): Option<Rect>
      reads this
      requires Valid()
    {
      if drawable.None? then None else Some(MapRect(supp, drawable.value.placed))
    }

    /** The alignment checkMatrixBounds uses for content that fits. */
    function Alignment(): Align
      reads this
    {
      AlignFor(settings.scaleType)
    }

    /** The displayed rectangle needs no correction: checkMatrixBounds would not move it. */
    predicate Settled()
      reads this
      requires Valid()
    {
      drawable.Some? ==> Correction(DisplayRect().value, view.width, view.height, Alignment()) == Delta(0.0, 0.0)
    }

    function Scale(): real
      reads this
      requires Valid()
    {
      GetScale(supp)
    }

    /** getCompensatedMinScale: the lowest level times the compensation. */
    function CompensatedMinScale(): (r: real)
      reads this
      requires Valid()
      ensures r >= PhotoViewScaleConfig.ScaleValueMin * compensateScale
    {
      scaleLevels[0] * compensateScale
    }

    /** getCompensatedMaxScale: the level at the last key times the compensation. */
    function CompensatedMaxScale(): (r: real)
      reads this
      requires Valid()
      ensures r <= PhotoViewScaleConfig.ScaleValueMax * compensateScale
    {
      scaleLevels[|scaleLevels| - 1] * compensateScale
    }

    /**
     * getCompensateScaleAtLevel: a key that is not in the table gives null,
     * which the unboxing turns into a null dereference (None).
     */
    function CompensatedScaleAtLevel(level: int): (r: Option<real>)
      reads this
      requires Valid()
      ensures r.Some? <==> 0 <= level < |scaleLevels|
      ensures r.Some? ==> PhotoViewScaleConfig.ScaleValueMin * compensateScale <= r.value <= PhotoViewScaleConfig.ScaleValueMax * compensateScale
    {
      if 0 <= level < |scaleLevels| then Some(scaleLevels[level] * compensateScale) else None
    }

    /** getLevelByScale: the scan over the keys in order. */
    method GetLevelByScale(scale: real) returns (level: int)
      requires Valid()
      ensures level == LevelOf(scaleLevels, scale)
    {
      var i := 0;
      while i < |scaleLevels|
        invariant 0 <= i <= |scaleLevels|
        invariant LevelOf(scaleLevels, scale) == LevelFrom(scaleLevels, scale, i)
      {
        if scale >= scaleLevels[i] {
          i := i + 1;
          continue;
        }
        return i - 1;
      }
      return |scaleLevels| - 1;
    }

    // -------------------------------------------------------------------------
    // The scale-level table
    // -------------------------------------------------------------------------

    /**
     * setScaleLevels: fewer than two entries throw before anything is written;
     * otherwise each entry is checked against every earlier one, then range
     * checked and put at its own key, so a failure leaves the entries before it
     * stored and the table is never cleared.
     */
    method SetScaleLevels(s: seq<real>) returns (o: Outcome)
      requires Valid()
      modifies this`scaleLevels
      ensures Valid()
      ensures |s| < 2 ==> o == Thrown(TooFewLevels) && scaleLevels == old(scaleLevels)
      ensures |s| >= 2 ==> o == OutcomeOf(Validation(s)) && scaleLevels == Overlay(old(scaleLevels), 0, Written(Validation(s), s))
    {
      if |s| < 2 {
        return Thrown(TooFewLevels);
      }
      var i := 0;
      while i < |s|
        invariant 0 <= i <= |s|
        invariant Valid()
        invariant scaleLevels == Overlay(old(scaleLevels), 0, s[..i])
        invariant Validation(s) == FirstFailure(true, true, PhotoViewScaleConfig.ScaleValueMin, PhotoViewScaleConfig.ScaleValueMax, s, i)
      {
        var j := 0;
        while j < i
          invariant 0 <= j <= i
          invariant EarlierRejected(true, s, i, 0) == EarlierRejected(true, s, i, j)
        {
          if s[i] <= s[j] {
            assert Validation(s) == Some(Misordered(i, j));
            return Thrown(Misordered(i, j));
          }
          j := j + 1;
        }
        OverlayNext(old(scaleLevels), 0, s, i);
        var put := SetScaleLevel(i, s[i]);
        if put.Thrown? {
          assert Validation(s) == Some(OutOfRange(i));
          return put;
        }
        i := i + 1;
      }
      assert s[..i] == s;
      return Ok;
    }

    /** setScaleLevel: an entry outside [SCALE_VALUE_MIN, SCALE_VALUE_MAX] throws; any other is put at its key. */
    method SetScaleLevel(key: nat, v: real) returns (o: Outcome)
      requires Valid() && key <= |scaleLevels|
      modifies this`scaleLevels
      ensures Valid()
      ensures !InRange(v, PhotoViewScaleConfig.ScaleValueMin, PhotoViewScaleConfig.ScaleValueMax) ==> o == Thrown(OutOfRange(key)) && scaleLevels == old(scaleLevels)
      ensures InRange(v, PhotoViewScaleConfig.ScaleValueMin, PhotoViewScaleConfig.ScaleValueMax) ==> o == Ok && scaleLevels == Put(old(scaleLevels), key, v)
    {
      if v < PhotoViewScaleConfig.ScaleValueMin || v > PhotoViewScaleConfig.ScaleValueMax {
        return Thrown(OutOfRange(key));
      }
      scaleLevels := Put(scaleLevels, key, v);
      return Ok;
    }

    // -------------------------------------------------------------------------
    // The bounds clamp
    // -------------------------------------------------------------------------

    /**
     * checkMatrixBounds: without a drawable it reports false; otherwise it
     * translates the supplementary matrix by the correction of the displayed
     * rectangle, after which the rectangle needs no further correction.
     */
    method CheckMatrixBounds() returns (ok: bool)
      requires Valid()
      modifies this`supp
      ensures Valid() && Settled()
      ensures ok <==> drawable.Some?
      ensures !ok ==> supp == old(supp)
      ensures ok ==> var d := Correction(old(DisplayRect()).value, view.width, view.height, Alignment());
                     supp == PostTranslate(old(supp), d.dx, d.dy)
      ensures supp == Clamped(old(supp))
    {
      if drawable.None? {
        return false;
      }
      var rect := MapRect(supp, drawable.value.placed);
      var d := Correction(rect, view.width, view.height, Alignment());
      MapRectAfterTranslate(supp, drawable.value.placed, d.dx, d.dy);
      CorrectionIdempotent(rect, view.width, view.height, Alignment());
      supp := PostTranslate(supp, d.dx, d.dy);
      return true;
    }

    /**
     * The supplementary matrix m as checkMatrixBounds leaves it: without a
     * drawable it is kept, otherwise it is moved so that the displayed
     * rectangle needs no further correction, at the same scale and rotation.
     */
    function Clamped(m: Supp): (r: Supp)
      reads this
      requires Valid() && m.Valid()
      ensures r.Valid() && GetScale(r) == GetScale(m) && r.quarter == m.quarter
      ensures drawable.None? ==> r == m
      ensures drawable.Some? ==> Correction(MapRect(r, drawable.value.placed), view.width, view.height, Alignment()) == Delta(0.0, 0.0)
    {
      if drawable.None? then m
      else
        var rect := MapRect(m, drawable.value.placed);
        var d := Correction(rect, view.width, view.height, Alignment());
        MapRectAfterTranslate(m, drawable.value.placed, d.dx, d.dy);
        CorrectionIdempotent(rect, view.width, view.height, Alignment());
        PostTranslate(m, d.dx, d.dy)
    }

    /** getDisplayRect(): the displayed rectangle after the bounds check. */
    method GetDisplayRect() returns (r: Option<Rect>)
      requires Valid()
      modifies this`supp
      ensures Valid() && Settled()
      ensures r == DisplayRect() && GetScale(supp) == old(GetScale(supp)) && supp.quarter == old(supp.quarter)
      ensures supp == Clamped(old(supp))
      ensures r.Some? ==> && (r.value.Width() > view.width as real ==> r.value.left <= 0.0 && view.width as real <= r.value.right)
                          && (r.value.Height() > view.height as real ==> r.value.top <= 0.0 && view.height as real <= r.value.bottom)
    {
      if drawable.Some? {
        CorrectedCovers(DisplayRect().value, view.width, view.height, Alignment());
      }
      var _ := CheckMatrixBounds();
      r := DisplayRect();
    }

    // -------------------------------------------------------------------------
    // Gestures
    // -------------------------------------------------------------------------

    /** The arbiter's decision for a drag in the current state from the given latch; without a parent nothing is requested. */
    function EdgeDecision(dx: real, dy: real, scaling: bool, latchBefore: bool): Decision
      reads this
      requires Valid()
    {
      if !view.hasParent then Decision(NoRequest, latchBefore)
      else Arbitrate(settings.allowParentInterceptOnEdge, scaling, blockParentIntercept, DisplayRect(),
                     view.width, view.height, dx, dy, settings.edgeDragPolicy, latchBefore)
    }

    /** handleEdgeDrag: the request made to the parent, and the new latch. */
    method HandleEdgeDrag(dx: real, dy: real, scaling: bool) returns (request: Request)
      requires Valid()
      modifies this`latch
      ensures Valid()
      ensures Decision(request, latch) == EdgeDecision(dx, dy, scaling, old(latch))
    {
      if !view.hasParent {
        return NoRequest;
      }
      var d := Arbitrate(settings.allowParentInterceptOnEdge, scaling, blockParentIntercept, DisplayRect(),
                         view.width, view.height, dx, dy, settings.edgeDragPolicy, latch);
      latch := d.latch;
      request := d.request;
    }

    /**
     * onDrag: ignored while a scale gesture runs; otherwise the content follows
     * the finger, is clamped, and the arbiter decides about the parent.
     */
    method OnDrag(dx: real, dy: real, scaling: bool) returns (request: Request)
      requires Valid()
      modifies this`supp, this`latch
      ensures Valid()
      ensures scaling ==> supp == old(supp) && latch == old(latch) && request == NoRequest
      ensures !scaling ==> Settled() && GetScale(supp) == old(GetScale(supp)) && supp.quarter == old(supp.quarter)
      ensures !scaling && drawable.Some? ==>
                var moved := PostTranslate(old(supp), dx, dy);
                var d := Correction(MapRect(moved, drawable.value.placed), view.width, view.height, Alignment());
                supp == PostTranslate(moved, d.dx, d.dy)
      ensures !scaling ==> Decision(request, latch) == EdgeDecision(dx, dy, false, old(latch))
    {
      if scaling {
        return NoRequest;
      }
      supp := PostTranslate(supp, dx, dy);
      var _ := CheckMatrixBounds();
      request := HandleEdgeDrag(dx, dy, false);
    }

    /**
     * onScale: the step is applied only below the compensated maximum or when
     * it zooms out; the scale is then multiplied by the factor about the focus.
     */
    method OnScale(factor: real, focusX: real, focusY: real) returns (applied: bool)
      requires Valid() && factor > 0.0
      modifies this`supp
      ensures Valid()
      ensures applied <==> PhotoViewScaleGate(old(GetScale(supp)), CompensatedMaxScale(), factor)
      ensures !applied ==> supp == old(supp)
      ensures applied ==> GetScale(supp) == factor * old(GetScale(supp)) && supp.quarter == old(supp.quarter) && Settled()
      ensures applied ==> supp == Clamped(PostScale(old(supp), factor, focusX, focusY))
    {
      applied := GetScale(supp) < CompensatedMaxScale() || factor < 1.0;
      if applied {
        supp := PostScale(supp, factor, focusX, focusY);
        var _ := CheckMatrixBounds();
      }
    }

    /**
     * setScale(scale, focalX, focalY, animate): a scale outside the compensated
     * bounds throws; an animated call posts a zoom from the current scale; any
     * other replaces the supplementary matrix by a plain scale about the focus,
     * which drops any quarter turn the matrix held.
     */
    method SetScale(scale: real, focalX: real, focalY: real, animate: bool) returns (o: ScaleOutcome)
      requires Valid()
      modifies this`supp
      ensures Valid()
      ensures o == OutOfBounds <==> scale < CompensatedMinScale() || scale > CompensatedMaxScale()
      ensures o.Animated? <==> o != OutOfBounds && animate
      ensures o.Animated? ==> o.request == ZoomRequest(old(GetScale(supp)), scale, focalX, focalY)
      ensures !o.Applied? ==> supp == old(supp)
      ensures o.Applied? ==> GetScale(supp) == scale && supp.quarter == 0 && Settled()
      ensures o.Applied? ==> supp == Clamped(Geometry.SetScale(scale, focalX, focalY))
    {
      if scale < CompensatedMinScale() || scale > CompensatedMaxScale() {
        return OutOfBounds;
      }
      if animate {
        return Animated(ZoomRequest(GetScale(supp), scale, focalX, focalY));
      }
      supp := Geometry.SetScale(scale, focalX, focalY);
      var _ := CheckMatrixBounds();
      return Applied;
    }

    /** setScale(scale, animate): about the view's centre, getRight() / 2 and getBottom() / 2 in int arithmetic. */
    method SetScaleCentred(scale: real, animate: bool) returns (o: ScaleOutcome)
      requires Valid()
      modifies this`supp
      ensures Valid()
      ensures o == OutOfBounds <==> scale < CompensatedMinScale() || scale > CompensatedMaxScale()
      ensures o.Animated? <==> o != OutOfBounds && animate
      ensures o.Animated? ==> o.request == ZoomRequest(old(GetScale(supp)), scale, HalfTowardZero(view.right) as real, HalfTowardZero(view.bottom) as real)
      ensures !o.Applied? ==> supp == old(supp)
      ensures o.Applied? ==> GetScale(supp) == scale && supp.quarter == 0 && Settled()
      ensures o.Applied? ==> supp == Clamped(Geometry.SetScale(scale, HalfTowardZero(view.right) as real, HalfTowardZero(view.bottom) as real))
    {
      o := SetScale(scale, HalfTowardZero(view.right) as real, HalfTowardZero(view.bottom) as real, animate);
    }

    /**
     * onDoubleTap: when the event's coordinates could be read, zoom (animated)
     * to the compensated minimum from within (min, max], to the maximum otherwise.
     */
    method OnDoubleTap(x: real, y: real) returns (o: Option<ScaleOutcome>)
      requires Valid()
      modifies this`supp
      ensures Valid() && supp == old(supp)
      ensures o.None? <==> x == -1.0 || y == -1.0
      ensures o.Some? ==>
                var target := PhotoViewDoubleTapTarget(GetScale(supp), CompensatedMinScale(), CompensatedMaxScale());
                && (o.value == OutOfBounds <==> CompensatedMaxScale() < CompensatedMinScale())
                && (o.value != OutOfBounds ==> o.value == Animated(ZoomRequest(GetScale(supp), target, x, y)))
    {
      if x == -1.0 || y == -1.0 {
        return None;
      }
      var target := PhotoViewDoubleTapTarget(GetScale(supp), CompensatedMinScale(), CompensatedMaxScale());
      var r := SetScale(target, x, y, true);
      return Some(r);
    }

    /** onSingleTapConfirmed: the tap measured against the displayed rectangle after the bounds check. */
    method OnSingleTapConfirmed(x: real, y: real) returns (r: TapResult)
      requires Valid()
      modifies this`supp
      ensures Valid() && Settled() && GetScale(supp) == old(GetScale(supp))
      ensures supp == Clamped(old(supp))
      ensures r == PhotoViewSingleTap(DisplayRect(), x, y)
    {
      var rect := GetDisplayRect();
      r := PhotoViewSingleTap(rect, x, y);
    }

    /**
     * ACTION_DOWN in onTouch, with zoom enabled and a drawable: the latch is
     * cleared under PARENT_INTERCEPT_IN_TOUCH_LIFECYCLE and the parent is told
     * to keep out.
     */
    method OnActionDown() returns (request: Request)
      requires Valid()
      modifies this`latch
      ensures Valid()
      ensures !(settings.zoomEnabled && drawable.Some?) ==> request == NoRequest && latch == old(latch)
      ensures settings.zoomEnabled && drawable.Some? && settings.edgeDragPolicy == InTouchLifecycle ==> !latch
      ensures settings.zoomEnabled && drawable.Some? && settings.edgeDragPolicy != InTouchLifecycle ==> latch == old(latch)
      ensures settings.zoomEnabled && drawable.Some? ==>
                request == (if view.hasParent then Request(true) else NoRequest)
    {
      if !(settings.zoomEnabled && drawable.Some?) {
        return NoRequest;
      }
      if settings.edgeDragPolicy == InTouchLifecycle {
        latch := false;
      }
      request := if view.hasParent then Request(true) else NoRequest;
    }

    /**
     * ACTION_UP / ACTION_CANCEL in onTouch, with zoom enabled and a drawable:
     * a scale below the compensated minimum (or above the maximum) starts a zoom
     * back to it, centred on the displayed rectangle.
     */
    method OnActionUp() returns (zoom: Option<ZoomRequest>)
      requires Valid()
      modifies this`supp
      ensures Valid() && GetScale(supp) == old(GetScale(supp))
      ensures zoom.Some? <==> settings.zoomEnabled && drawable.Some? && SnapBackTarget(old(GetScale(supp)), CompensatedMinScale(), CompensatedMaxScale()).Some?
      ensures zoom.None? ==> supp == old(supp)
      ensures zoom.Some? ==> supp == Clamped(old(supp)) && Settled()
      ensures zoom.Some? ==>
                zoom.value == ZoomRequest(GetScale(supp), SnapBackTarget(old(GetScale(supp)), CompensatedMinScale(), CompensatedMaxScale()).value,
                                          DisplayRect().value.CenterX(), DisplayRect().value.CenterY())
    {
      if !(settings.zoomEnabled && drawable.Some?) {
        return None;
      }
      var target := SnapBackTarget(GetScale(supp), CompensatedMinScale(), CompensatedMaxScale());
      if target.None? {
        return None;
      }
      var request := ZoomFromDisplayRect(target.value);
      return Some(request);
    }

    /** The zoom of ACTION_UP: the bounds check through getDisplayRect, then a zoom to target from the rectangle's centre. */
    method ZoomFromDisplayRect(target: real) returns (request: ZoomRequest)
      requires Valid() && drawable.Some?
      modifies this`supp
      ensures Valid() && Settled() && supp == Clamped(old(supp))
      ensures request == ZoomRequest(GetScale(supp), target, DisplayRect().value.CenterX(), DisplayRect().value.CenterY())
    {
      var rect := GetDisplayRect();
      request := ZoomRequest(GetScale(supp), target, rect.value.CenterX(), rect.value.CenterY());
    }

    /** After the scale/drag detector has seen an event: mBlockParentIntercept records that it neither scaled nor dragged. */
    method TrackDetector(wasScaling: bool, isScaling: bool, wasDragging: bool, isDragging: bool)
      requires Valid()
      modifies this`blockParentIntercept
      ensures Valid()
      ensures settings.zoomEnabled && drawable.Some? ==>
                (blockParentIntercept <==> !wasScaling && !isScaling && !wasDragging && !isDragging)
      ensures !(settings.zoomEnabled && drawable.Some?) ==> blockParentIntercept == old(blockParentIntercept)
    {
      if settings.zoomEnabled && drawable.Some? {
        blockParentIntercept := !wasScaling && !isScaling && !wasDragging && !isDragging;
      }
    }

    // -------------------------------------------------------------------------
    // Animations
    // -------------------------------------------------------------------------

    /** One frame of AnimatedZoomRunnable: the step that brings the scale to the interpolated one, through onScale. */
    method ZoomTick(request: ZoomRequest, t: real) returns (applied: bool)
      requires Valid() && request.from > 0.0 && request.to > 0.0 && 0.0 <= t <= 1.0
      modifies this`supp
      ensures Valid()
      ensures applied ==> GetScale(supp) == Interpolate(request.from, request.to, t) && Settled()
      ensures applied ==> supp == Clamped(PostScale(old(supp), ZoomStep(request, t, old(GetScale(supp))), request.focalX, request.focalY))
      ensures !applied ==> supp == old(supp)
    {
      var factor := ZoomStep(request, t, GetScale(supp));
      applied := OnScale(factor, request.focalX, request.focalY);
    }

    /**
     * onFling: a new FlingRunnable is started from the displayed rectangle after
     * the bounds check; the start lies within the scroll range, and the scroller
     * is started unless the start is the far corner.
     */
    method OnFling() returns (runnable: FlingRunnable, range: Option<FlingRange>, started: bool)
      requires Valid()
      modifies this`supp
      ensures Valid() && Settled() && GetScale(supp) == old(GetScale(supp))
      ensures supp == Clamped(old(supp))
      ensures fresh(runnable)
      ensures range.Some? <==> drawable.Some?
      ensures range.None? ==> runnable.currentX == 0 && runnable.currentY == 0
      ensures range.Some? ==> range.value == FlingBounds(DisplayRect().value, view.width, view.height)
      ensures range.Some? ==> var r := range.value;
                              r.minX <= r.startX <= r.maxX && r.minY <= r.startY <= r.maxY
                              && runnable.currentX == r.startX && runnable.currentY == r.startY
      ensures started <==> range.Some? && FlingStarts(range.value)
    {
      runnable := new FlingRunnable();
      var rect := GetDisplayRect();
      if rect.None? {
        return runnable, None, false;
      }
      var r := FlingBounds(rect.value, view.width, view.height);
      FlingStartsInRange(rect.value, view.width, view.height);
      runnable.Start(r);
      return runnable, Some(r), FlingStarts(r);
    }

    /** One frame of FlingRunnable.run: the content moves by the scroller's step, then is clamped. */
    method FlingTick(runnable: FlingRunnable, newX: int, newY: int)
      requires Valid()
      modifies this`supp, runnable
      ensures Valid() && Settled() && GetScale(supp) == old(GetScale(supp))
      ensures runnable.currentX == newX && runnable.currentY == newY
      ensures drawable.Some? ==>
                var moved := PostTranslate(old(supp), (old(runnable.currentX) - newX) as real, (old(runnable.currentY) - newY) as real);
                var d := Correction(MapRect(moved, drawable.value.placed), view.width, view.height, Alignment());
                supp == PostTranslate(moved, d.dx, d.dy)
    {
      var dx, dy := runnable.Step(newX, newY);
      supp := PostTranslate(supp, dx as real, dy as real);
      var _ := CheckMatrixBounds();
    }

    // -------------------------------------------------------------------------
    // Quarter turns
    // -------------------------------------------------------------------------

    /** The early exits of rotateTo, in the order the source takes them. */
    function RotateRefusal(degree: int): Option<RotateOutcome>
      reads this
      requires Valid()
    {
      if currentDegree == degree then Some(SameDegree)
      else if settings.scaleType != FitCenter && settings.scaleType != CenterInside then Some(UnsupportedScaleType)
      else if !settings.allowRotateInAnyScale && GetScale(supp) > CompensatedMinScale() then Some(ZoomedIn)
      else if drawable.None? then Some(NoDrawable)
      else None
    }

    /** The step factor rotateTo computes for a turn to degree. */
    function StepFactor(degree: int): (f: real)
      reads this
      requires Valid() && RotateRefusal(degree).None?
      ensures f > 0.0
    {
      RotateScaleFactor(settings.scaleType, currentDegree, degree, drawable.value.width, drawable.value.height,
                        view.width as real, view.height as real)
    }

    /**
     * rotateTo(degree, clockwise, animate). After the early exits it resets the
     * scale to the compensation, applies the step factor, turns by the rotation
     * angle and clamps; animated, it posts a RotateRunnable instead. Either way
     * the new angle and compensation are recorded. The angle and the recorded
     * compensation are the corrected ones (RotateFactor, Compensation), so the
     * scale the picture is left at is the recorded compensation.
     */
    method RotateTo(degree: int, clockwise: bool, animate: bool) returns (o: RotateOutcome)
      requires Valid() && IsDegree(degree)
      modifies this`supp, this`compensateScale, this`currentDegree
      ensures Valid()
      ensures old(RotateRefusal(degree)).Some? ==>
                o == old(RotateRefusal(degree)).value
                && supp == old(supp) && compensateScale == old(compensateScale) && currentDegree == old(currentDegree)
      ensures old(RotateRefusal(degree)).None? ==>
                && currentDegree == degree
                && compensateScale == Compensation(old(compensateScale), old(StepFactor(degree)))
                && (o.Rotated? <==> !animate)
      ensures o.RotationPosted? ==>
                && old(RotateRefusal(degree)).None?
                && o == RotationPosted(RotateFactor(old(currentDegree), degree, clockwise),
                                       old(compensateScale) / old(GetScale(supp)), old(StepFactor(degree)))
                && supp == old(supp)
      ensures o.Rotated? ==>
                && GetScale(supp) == compensateScale
                && supp.quarter == (old(supp.quarter) + RotateFactor(old(currentDegree), degree, clockwise) / 90) % 4
                && Settled()
      ensures o.Rotated? ==>
                supp == Clamped(TurnedSupp(old(supp), old(compensateScale), old(StepFactor(degree)),
                                           RotateFactor(old(currentDegree), degree, clockwise) / 90))
    {
      var refusal := RotateRefusal(degree);
      if refusal.Some? {
        return refusal.value;
      }
      o := Rotate(degree, clockwise, animate);
    }

    /** rotateTo past its early exits. */
    method Rotate(degree: int, clockwise: bool, animate: bool) returns (o: RotateOutcome)
      requires Valid() && IsDegree(degree) && RotateRefusal(degree).None?
      modifies this`supp, this`compensateScale, this`currentDegree
      ensures Valid()
      ensures currentDegree == degree
      ensures compensateScale == Compensation(old(compensateScale), old(StepFactor(degree)))
      ensures !animate ==> o == Rotated
      ensures animate ==> o == RotationPosted(RotateFactor(old(currentDegree), degree, clockwise),
                                              old(compensateScale) / old(GetScale(supp)), old(StepFactor(degree)))
                          && supp == old(supp)
      ensures !animate ==>
                && GetScale(supp) == compensateScale
                && supp.quarter == (old(supp.quarter) + RotateFactor(old(currentDegree), degree, clockwise) / 90) % 4
                && Settled()
      ensures !animate ==>
                supp == Clamped(TurnedSupp(old(supp), old(compensateScale), old(StepFactor(degree)),
                                           RotateFactor(old(currentDegree), degree, clockwise) / 90))
    {
      var scale := GetScale(supp);
      var scaleResetFactor := compensateScale / scale;
      var scaleFactor := StepFactor(degree);
      var rotateFactor := RotateFactor(currentDegree, degree, clockwise);
      var newCompensation := Compensation(compensateScale, scaleFactor);
      if animate {
        o := RotationPosted(rotateFactor, scaleResetFactor, scaleFactor);
      } else {
        Turn(compensateScale, scaleFactor, rotateFactor / 90);
        o := Rotated;
      }
      currentDegree := degree;
      compensateScale := newCompensation;
    }

    /** The matrix part of a rotateTo that is not animated: the turn, then the bounds check. */
    method Turn(compensate: real, scaleFactor: real, turns: int)
      requires Valid() && compensate > 0.0 && scaleFactor > 0.0
      modifies this`supp
      ensures Valid() && Settled()
      ensures GetScale(supp) == Compensation(compensate, scaleFactor)
      ensures supp.quarter == (old(supp.quarter) + turns) % 4
      ensures supp == Clamped(TurnedSupp(old(supp), compensate, scaleFactor, turns))
    {
      supp := TurnedSupp(supp, compensate, scaleFactor, turns);
      var _ := CheckMatrixBounds();
    }
  }

  /** setScaleLevels throws exactly when the entries are too few, not strictly increasing, or out of range. */
  lemma ThrowsIffInvalid(s: seq<real>)
    ensures Validation(s) == None <==> StrictlyIncreasing(s) && AllInRange(s)
  {
    NoFailureIffValid(true, true, PhotoViewScaleConfig.ScaleValueMin, PhotoViewScaleConfig.ScaleValueMax, s);
    OrderedMeaning(s);
  }

  /**
   * A failed call can leave the table out of order: {1, 4} followed by the
   * rejected {5, 1} holds {5, 4}, whose compensated minimum lies above its
   * maximum, so every setScale, and with it onDoubleTap, then throws.
   */
  lemma FailedCallLeavesBoundsInverted()
    ensures Validation([5.0, 1.0]) == Some(Misordered(1, 0))
    ensures Overlay([1.0, 4.0], 0, Written(Validation([5.0, 1.0]), [5.0, 1.0])) == [5.0, 4.0]
  {
    assert EarlierRejected(true, [5.0, 1.0], 0, 0) == None;
    assert EarlierRejected(true, [5.0, 1.0], 1, 0) == Some(0);
  }

  /**
   * The animated rotation meets the immediate one: rotateTo posts a
   * RotateRunnable with scaleResetFactor = compensation / scale, whose end
   * scale (scaleResetFactor times the step factor times the current scale)
   * its last frame, at t = 1, reaches. That is the scale of the matrix the
   * immediate turn produces, and the first frame, at t = 0, keeps the current
   * scale.
   */
  lemma AnimatedRotationMeetsTurn(m: Supp, compensate: real, scaleFactor: real, turns: int)
    requires m.Valid() && compensate > 0.0 && scaleFactor > 0.0
    ensures var endScale := (compensate / GetScale(m)) * scaleFactor * GetScale(m);
            && Interpolate(GetScale(m), endScale, 0.0) == GetScale(m)
            && Interpolate(GetScale(m), endScale, 1.0) == GetScale(TurnedSupp(m, compensate, scaleFactor, turns))
  {
  }
}
