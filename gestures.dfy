/*
 * The decisions both attachers take in reaction to a recognised gesture: where
 * a single tap falls on the photo, which scale a double tap zooms to, whether a
 * pinch step may be applied, and where a finished gesture snaps back to.
 */
module Gestures {
  import opened Wrappers
  import opened Geometry

  datatype Point = Point(x: real, y: real)

  // ---------------------------------------------------------------------------
  // Single tap
  // ---------------------------------------------------------------------------

  /**
   * onSingleTapConfirmed: a tap inside the displayed rectangle, reported as
   * fractions of the rectangle's width and height; none outside it.
   */
  function PhotoTap(rect: Rect, x: real, y: real): (r: Option<Point>)
    ensures r.Some? <==> rect.Contains(x, y)
    ensures r.Some? ==> 0.0 <= r.value.x < 1.0 && 0.0 <= r.value.y < 1.0
    ensures r.Some? ==> x == rect.left + r.value.x * rect.Width() && y == rect.top + r.value.y * rect.Height()
  {
    if rect.Contains(x, y) then
      Fraction(x - rect.left, rect.Width());
      Fraction(y - rect.top, rect.Height());
      Some(Point((x - rect.left) / rect.Width(), (y - rect.top) / rect.Height()))
    else None
  }

  /** An offset inside a positive length, as a fraction of it. */
  lemma Fraction(a: real, w: real)
    requires 0.0 <= a < w
    ensures 0.0 <= a / w < 1.0 && a / w * w == a
  {
    assert a / w * w == a;
  }

  /** What a single tap leads to: whether it is consumed, the photo tap, and whether the outside-photo listener is told. */
  datatype TapResult = TapResult(handled: bool, photoTap: Option<Point>, outsideTap: bool)

  /**
   * PhotoViewAttacher's single-tap reaction to the displayed rectangle: a tap
   * on the photo is reported and consumed; a tap beside it is reported to the
   * outside-photo listener; without a drawable nothing happens.
   */
  function PhotoViewSingleTap(displayRect: Option<Rect>, x: real, y: real): (r: TapResult)
    ensures r.handled <==> r.photoTap.Some?
    ensures r.handled <==> displayRect.Some? && displayRect.value.Contains(x, y)
    ensures r.outsideTap <==> displayRect.Some? && !displayRect.value.Contains(x, y)
    ensures r.photoTap.Some? ==> r.photoTap == PhotoTap(displayRect.value, x, y)
  {
    match displayRect
    case None => TapResult(false, None, false)
    case Some(rect) =>
      var p := PhotoTap(rect, x, y);
      TapResult(p.Some?, p, p.None?)
  }

  /**
   * The drawee attacher's single-tap reaction: with the matrix disabled every
   * tap is consumed as a view tap; otherwise only a tap on the photo is.
   */
  function DraweeSingleTap(matrixEnabled: bool, displayRect: Option<Rect>, x: real, y: real): (r: TapResult)
    ensures !r.outsideTap
    ensures !matrixEnabled ==> r.handled && r.photoTap.None?
    ensures matrixEnabled ==> (r.handled <==> displayRect.Some? && displayRect.value.Contains(x, y))
    ensures matrixEnabled && r.handled ==> r.photoTap == PhotoTap(displayRect.value, x, y)
  {
    if !matrixEnabled then TapResult(true, None, false)
    else match displayRect
      case None => TapResult(false, None, false)
      case Some(rect) =>
        var p := PhotoTap(rect, x, y);
        TapResult(p.Some?, p, false)
  }

  // ---------------------------------------------------------------------------
  // Double tap
  // ---------------------------------------------------------------------------

  /** PhotoViewAttacher.onDoubleTap: zoomed in (within (min, max]) goes to min; anything else goes to max. */
  function PhotoViewDoubleTapTarget(scale: real, minScale: real, maxScale: real): (t: real)
    ensures t == minScale || t == maxScale
  {
    if minScale < scale <= maxScale then minScale else maxScale
  }

  /**
   * The double tap toggles: its target is one of the two bounds, within them,
   * and once the zoom has reached it the next double tap goes to the other one.
   */
  lemma PhotoViewDoubleTapToggles(scale: real, minScale: real, maxScale: real)
    requires minScale < maxScale
    ensures var t := PhotoViewDoubleTapTarget(scale, minScale, maxScale);
            && (t == minScale <==> minScale < scale <= maxScale)
            && PhotoViewDoubleTapTarget(t, minScale, maxScale) != t
            && PhotoViewDoubleTapTarget(PhotoViewDoubleTapTarget(t, minScale, maxScale), minScale, maxScale) == t
  {
  }

  /**
   * The drawee attacher's double-tap target: mDoubleTapScale, or the
   * compensated maximum while that is -1.
   */
  function DoubleTapScale(doubleTapScale: real, maxScale: real): real {
    if doubleTapScale == -1.0 then maxScale else doubleTapScale
  }

  /** The drawee Attacher.onDoubleTap: from [min, target) it zooms to the target, otherwise back to min. */
  function DraweeDoubleTapTarget(scale: real, minScale: real, maxScale: real, doubleTapScale: real): (t: real)
    ensures t == minScale || t == DoubleTapScale(doubleTapScale, maxScale)
  {
    var target := DoubleTapScale(doubleTapScale, maxScale);
    if minScale <= scale < target then target else minScale
  }

  /** The drawee double tap toggles between min and its target, once the target lies above min. */
  lemma DraweeDoubleTapToggles(scale: real, minScale: real, maxScale: real, doubleTapScale: real)
    requires minScale < DoubleTapScale(doubleTapScale, maxScale)
    ensures var target := DoubleTapScale(doubleTapScale, maxScale);
            var t := DraweeDoubleTapTarget(scale, minScale, maxScale, doubleTapScale);
            && (t == target <==> minScale <= scale < target)
            && (t == minScale <==> !(minScale <= scale < target))
            && DraweeDoubleTapTarget(t, minScale, maxScale, doubleTapScale) != t
  {
  }

  // ---------------------------------------------------------------------------
  // Pinch gates
  // ---------------------------------------------------------------------------

  /**
   * PhotoViewAttacher.onScale applies a step only below the compensated
   * maximum, or when it zooms out: at or beyond the maximum only steps that
   * move the scale back down pass, and the minimum is not guarded.
   */
  function PhotoViewScaleGate(scale: real, maxScale: real, factor: real): (applies: bool)
    ensures scale > 0.0 && factor > 0.0 && scale >= maxScale ==> (applies <==> factor * scale < scale)
    ensures scale < maxScale ==> applies
  {
    StepDirection(scale, factor);
    scale < maxScale || factor < 1.0
  }

  /**
   * The drawee Attacher.onScale also refuses to zoom out at or below the
   * compensated minimum: at or beyond the maximum (and above the minimum) it
   * passes only steps that shrink the scale, at or below the minimum (and
   * below the maximum) only steps that grow it, strictly between the two every
   * step, and at a scale that is both at the maximum and at the minimum (the
   * default one-level table) none.
   */
  function DraweeScaleGate(scale: real, minScale: real, maxScale: real, factor: real): (applies: bool)
    ensures scale > 0.0 && factor > 0.0 && minScale < scale && scale >= maxScale ==> (applies <==> factor * scale < scale)
    ensures scale > 0.0 && factor > 0.0 && scale <= minScale && scale < maxScale ==> (applies <==> factor * scale > scale)
    ensures minScale < scale < maxScale ==> applies
    ensures maxScale <= scale <= minScale ==> !applies
  {
    StepDirection(scale, factor);
    (scale < maxScale || factor < 1.0) && (scale > minScale || factor > 1.0)
  }

  /** A positive step shrinks a positive scale exactly when its factor is below 1, and grows it exactly when above. */
  lemma StepDirection(scale: real, factor: real)
    ensures scale > 0.0 && factor > 0.0 ==> (factor * scale < scale <==> factor < 1.0) && (factor * scale > scale <==> factor > 1.0)
  {
    if scale > 0.0 && factor > 0.0 {
      assert scale == 1.0 * scale;
      if factor < 1.0 {
        assert factor * scale < 1.0 * scale;
      } else if factor > 1.0 {
        assert factor * scale > 1.0 * scale;
      }
    }
  }

  /** The gate looks at the scale before the step, so a step that starts below the maximum may end above it. */
  lemma GateAllowsOvershoot()
    ensures PhotoViewScaleGate(3.5, 4.0, 2.0) && DraweeScaleGate(3.5, 1.0, 4.0, 2.0) && 2.0 * 3.5 > 4.0
  {
  }

  // ---------------------------------------------------------------------------
  // Snap back
  // ---------------------------------------------------------------------------

  function Distance(a: real, b: real): real { if a <= b then b - a else a - b }

  /**
   * ACTION_UP / ACTION_CANCEL in PhotoViewAttacher: below min zoom back to
   * min, above max back to max. The snap-back is a clamp: no animation when
   * the scale lies within the bounds, and otherwise the animation ends at the
   * allowed scale nearest to it.
   */
  function SnapBackTarget(scale: real, minScale: real, maxScale: real): (r: Option<real>)
    ensures minScale <= maxScale ==> (r.None? <==> minScale <= scale <= maxScale)
    ensures minScale <= maxScale && r.Some? ==>
              && minScale <= r.value <= maxScale
              && forall v :: minScale <= v <= maxScale ==> Distance(r.value, scale) <= Distance(v, scale)
  {
    if scale < minScale then Some(minScale)
    else if scale > maxScale then Some(maxScale)
    else None
  }

  // ---------------------------------------------------------------------------
  // Numbers shared by the gestures and the animations
  // ---------------------------------------------------------------------------

  /** start + t * (end - start): the animated value at progress t, from start at 0 to end at 1. */
  function Interpolate(start: real, end: real, t: real): (v: real)
    ensures t == 0.0 ==> v == start
    ensures t == 1.0 ==> v == end
  {
    start + t * (end - start)
  }

  /** In between, the animated value stays between start and end. */
  lemma InterpolateBetween(start: real, end: real, t: real)
    requires 0.0 <= t <= 1.0
    ensures start <= end ==> start <= Interpolate(start, end, t) <= end
    ensures end <= start ==> end <= Interpolate(start, end, t) <= start
  {
    var d := end - start;
    assert Interpolate(start, end, t) == start + t * d;
    if start <= end {
      PartOf(t, d);
    } else {
      PartOf(t, -d);
      NegatedPart(t, d);
    }
  }

  lemma NegatedPart(t: real, d: real)
    ensures t * d == -(t * -d)
  {
  }

  lemma PartOf(t: real, d: real)
    requires 0.0 <= t <= 1.0 && d >= 0.0
    ensures 0.0 <= t * d <= d
  {
    assert t * d <= 1.0 * d by {
      assert (1.0 - t) * d >= 0.0;
    }
  }

  /** The Java int division n / 2, which truncates towards zero. */
  function HalfTowardZero(n: int): (h: int)
    ensures n >= 0 ==> 0 <= h && 2 * h <= n < 2 * h + 2
    ensures n < 0 ==> h <= 0 && 2 * h - 2 < n <= 2 * h
  {
    if n >= 0 then n / 2 else -((-n) / 2)
  }
}
