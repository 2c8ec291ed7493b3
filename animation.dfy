/*
 * The per-frame arithmetic of the runnables both attachers post: the animated
 * zoom, the animated rotation of PhotoViewAttacher.rotateTo and the fling. The
 * interpolator's progress t and the scroller's positions are inputs.
 */
module Animation {
  import opened Geometry
  import opened Gestures

  // ---------------------------------------------------------------------------
  // AnimatedZoomRunnable
  // ---------------------------------------------------------------------------

  /** The constructor arguments of an AnimatedZoomRunnable: from and to scale, and the focal point. */
  datatype ZoomRequest = ZoomRequest(from: real, to: real, focalX: real, focalY: real)

  /**
   * What a setScale call does: it refuses a scale outside the compensated
   * bounds (PhotoViewAttacher throws, the drawee attacher returns silently),
   * posts an AnimatedZoomRunnable, or sets the matrix at once.
   */
  datatype ScaleOutcome = OutOfBounds | Animated(request: ZoomRequest) | Applied

  /**
   * The factor one frame hands to onScale: the interpolated scale divided by
   * the current one, so that the matrix reaches the interpolated scale.
   */
  function ZoomStep(request: ZoomRequest, t: real, currentScale: real): (factor: real)
    requires currentScale > 0.0
    ensures factor * currentScale == Interpolate(request.from, request.to, t)
    ensures request.from > 0.0 && request.to > 0.0 && 0.0 <= t <= 1.0 ==> factor > 0.0
  {
    InterpolatePositive(request.from, request.to, t);
    Interpolate(request.from, request.to, t) / currentScale
  }

  lemma InterpolatePositive(start: real, end: real, t: real)
    ensures start > 0.0 && end > 0.0 && 0.0 <= t <= 1.0 ==> Interpolate(start, end, t) > 0.0
  {
    if start > 0.0 && end > 0.0 && 0.0 <= t <= 1.0 {
      InterpolateBetween(start, end, t);
    }
  }

  // ---------------------------------------------------------------------------
  // RotateRunnable
  // ---------------------------------------------------------------------------

  /**
   * PhotoViewAttacher.RotateRunnable: every frame turns by the part of the
   * rotation not yet applied and scales towards endScale.
   */
  class RotateRunnable {
    const rotation: real
    const startScale: real
    const endScale: real
    const focusX: real
    const focusY: real
    var rotatedDegrees: real

    /** The scale the animation ends at resets the current scale to the compensation, then applies the step factor. */
    constructor(rotation: real, scaleResetFactor: real, scaleFactor: real, currentScale: real, right: int, bottom: int)
      ensures this.rotation == rotation && startScale == currentScale
      ensures endScale == scaleResetFactor * scaleFactor * currentScale
      ensures focusX == HalfTowardZero(right) as real && focusY == HalfTowardZero(bottom) as real
      ensures rotatedDegrees == 0.0
    {
      this.rotation := rotation;
      startScale := currentScale;
      endScale := scaleResetFactor * scaleFactor * currentScale;
      focusX := HalfTowardZero(right) as real;
      focusY := HalfTowardZero(bottom) as real;
      rotatedDegrees := 0.0;
    }

    /**
     * One frame at progress t: the scale factor and the rotation step it posts.
     * The rotation applied so far becomes t * rotation.
     */
    method Tick(t: real, currentScale: real) returns (deltaScale: real, deltaRotate: real)
      requires currentScale > 0.0
      modifies this
      ensures rotatedDegrees == t * rotation
      ensures deltaRotate == rotatedDegrees - old(rotatedDegrees)
      ensures deltaScale * currentScale == Interpolate(startScale, endScale, t)
    {
      var scale := startScale + t * (endScale - startScale);
      deltaScale := scale / currentScale;
      var rotate := t * rotation;
      deltaRotate := rotate - rotatedDegrees;
      rotatedDegrees := rotatedDegrees + deltaRotate;
    }

    /**
     * A run of frames: the rotation steps add up to the last progress times the
     * whole rotation, so a run that ends at t = 1 has turned by exactly rotation.
     */
    method Run(ts: seq<real>, scales: seq<real>) returns (turned: real)
      requires |scales| == |ts| && forall i :: 0 <= i < |scales| ==> scales[i] > 0.0
      modifies this
      ensures |ts| > 0 ==> rotatedDegrees == ts[|ts| - 1] * rotation
      ensures |ts| == 0 ==> rotatedDegrees == old(rotatedDegrees)
      ensures turned == rotatedDegrees - old(rotatedDegrees)
    {
      turned := 0.0;
      var i := 0;
      while i < |ts|
        invariant 0 <= i <= |ts|
        invariant turned == rotatedDegrees - old(rotatedDegrees)
        invariant i > 0 ==> rotatedDegrees == ts[i - 1] * rotation
        invariant i == 0 ==> rotatedDegrees == old(rotatedDegrees)
      {
        var deltaScale, deltaRotate := Tick(ts[i], scales[i]);
        turned := turned + deltaRotate;
        i := i + 1;
      }
    }
  }

  // ---------------------------------------------------------------------------
  // FlingRunnable
  // ---------------------------------------------------------------------------

  /** The start position and the scroll range FlingRunnable.fling gives the scroller, per axis. */
  datatype FlingRange = FlingRange(startX: int, minX: int, maxX: int, startY: int, minY: int, maxY: int)

  /**
   * fling(): the scroll position is the rounded distance the content's left
   * (top) edge lies before the view's; an axis on which the content is wider
   * than the view scrolls over [0, round(width - view)], any other axis is
   * pinned at its start.
   */
  function FlingBounds(rect: Rect, viewWidth: int, viewHeight: int): (r: FlingRange)
    ensures -rect.left - 0.5 < r.startX as real <= -rect.left + 0.5
    ensures -rect.top - 0.5 < r.startY as real <= -rect.top + 0.5
    ensures r.minX <= r.maxX && r.minY <= r.maxY
    ensures (viewWidth as real) < rect.Width() ==> r.minX == 0
    ensures (viewHeight as real) < rect.Height() ==> r.minY == 0
    ensures !((viewWidth as real) < rect.Width()) ==> r.minX == r.startX == r.maxX
    ensures !((viewHeight as real) < rect.Height()) ==> r.minY == r.startY == r.maxY
  {
    var startX := Round(-rect.left);
    var startY := Round(-rect.top);
    var wide := (viewWidth as real) < rect.Width();
    var tall := (viewHeight as real) < rect.Height();
    FlingRange(startX, if wide then 0 else startX, if wide then Round(rect.Width() - viewWidth as real) else startX,
               startY, if tall then 0 else startY, if tall then Round(rect.Height() - viewHeight as real) else startY)
  }

  /**
   * The guard before the scroller is started: the start differs from the far
   * corner. With the start in range, that is some axis still has room towards
   * its far end.
   */
  function FlingStarts(r: FlingRange): (starts: bool)
    ensures r.startX <= r.maxX && r.startY <= r.maxY ==> (starts <==> r.startX < r.maxX || r.startY < r.maxY)
  {
    r.startX != r.maxX || r.startY != r.maxY
  }

  /**
   * After checkMatrixBounds (fling reads the display rectangle through
   * getDisplayRect, which corrects it first) an axis wider than the view covers
   * it, so the start lies within the scroll range on that axis.
   */
  lemma FlingStartsInRange(rect: Rect, viewWidth: int, viewHeight: int)
    requires rect.Sorted()
    requires (viewWidth as real) < rect.Width() ==> rect.left <= 0.0 && viewWidth as real <= rect.right
    requires (viewHeight as real) < rect.Height() ==> rect.top <= 0.0 && viewHeight as real <= rect.bottom
    ensures var r := FlingBounds(rect, viewWidth, viewHeight);
            r.minX <= r.startX <= r.maxX && r.minY <= r.startY <= r.maxY
  {
    if (viewWidth as real) < rect.Width() {
      RoundMonotonic(0.0, -rect.left);
      RoundMonotonic(-rect.left, rect.Width() - viewWidth as real);
    }
    if (viewHeight as real) < rect.Height() {
      RoundMonotonic(0.0, -rect.top);
      RoundMonotonic(-rect.top, rect.Height() - viewHeight as real);
    }
  }

  /**
   * The guard compares the start with the far corner only: content scrolled to
   * its bottom-right end can still be flung back, but no fling is started.
   */
  lemma NoFlingFromFarCorner()
    ensures var r := FlingBounds(Rect(-100.0, -100.0, 100.0, 100.0), 100, 100);
            r.minX < r.maxX && r.minY < r.maxY && !FlingStarts(r)
  {
    assert Round(100.0) == 100;
    assert Round(200.0 - 100.0) == 100;
  }

  /** FlingRunnable: the last scroller position it has turned into a translation. */
  class FlingRunnable {
    var currentX: int
    var currentY: int

    /** A new runnable has not been given a range yet; Java's int fields start at 0. */
    constructor()
      ensures currentX == 0 && currentY == 0
    {
      currentX := 0;
      currentY := 0;
    }

    /** fling(): the last position becomes the start of the range the scroller is given. */
    method Start(range: FlingRange)
      modifies this
      ensures currentX == range.startX && currentY == range.startY
    {
      currentX := range.startX;
      currentY := range.startY;
    }

    /** One frame: the translation from the last position to the scroller's new one (content moves against the scroll). */
    method Step(newX: int, newY: int) returns (dx: int, dy: int)
      modifies this
      ensures dx == old(currentX) - newX && dy == old(currentY) - newY
      ensures currentX == newX && currentY == newY
    {
      dx := currentX - newX;
      dy := currentY - newY;
      currentX := newX;
      currentY := newY;
    }

    /**
     * A run of frames: the translations add up to the distance from the
     * position before the run to the last scroller position, whatever the
     * positions in between.
     */
    method Follow(xs: seq<int>, ys: seq<int>) returns (totalX: int, totalY: int)
      requires |xs| == |ys|
      modifies this
      ensures |xs| > 0 ==> currentX == xs[|xs| - 1] && currentY == ys[|ys| - 1]
      ensures totalX == old(currentX) - currentX && totalY == old(currentY) - currentY
    {
      totalX, totalY := 0, 0;
      var i := 0;
      while i < |xs|
        invariant 0 <= i <= |xs|
        invariant totalX == old(currentX) - currentX && totalY == old(currentY) - currentY
        invariant i > 0 ==> currentX == xs[i - 1] && currentY == ys[i - 1]
      {
        var dx, dy := Step(xs[i], ys[i]);
        totalX, totalY := totalX + dx, totalY + dy;
        i := i + 1;
      }
    }
  }
}
