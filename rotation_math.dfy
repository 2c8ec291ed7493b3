/*
 * The arithmetic of quarter-turn rotation shared by both attachers: the size
 * at which the drawable is displayed before any zoom, the factor that makes
 * the quarter-turned content fit the viewport again, the rotation angle of
 * PhotoViewAttacher.rotateTo, and the rotation state table of the drawee
 * Attacher.rotate90Degrees.
 */
module RotationMath {
  import opened Wrappers
  import opened Geometry

  /** A width and a height, as the float[2] of getDrawableDisplayWidthHeight. */
  datatype Size = Size(width: real, height: real)

  function Min(a: real, b: real): real { if a <= b then a else b }
  function Max(a: real, b: real): real { if a >= b then a else b }

  // ---------------------------------------------------------------------------
  // Display size
  // ---------------------------------------------------------------------------

  /**
   * FIT_CENTER: content wider than the viewport (in aspect) spans the viewport
   * width, other content spans its height. The size fits the viewport, touches
   * it on one side, and keeps the aspect ratio.
   */
  function FitCenterSize(dw: real, dh: real, vw: real, vh: real): (s: Size)
    requires dw > 0.0 && dh > 0.0 && vw > 0.0 && vh > 0.0
    ensures 0.0 < s.width <= vw && 0.0 < s.height <= vh
    ensures s.width == vw || s.height == vh
    ensures s.width * dh == s.height * dw
  {
    RatioOrder(dw, dh, vw, vh);
    if dw / dh > vw / vh then
      assert dw * vh > vw * dh;
      Scaled(vw, dh, dw);
      Below(vw * dh, vh, dw);
      Size(vw, vw * (dh / dw))
    else
      assert dw * vh <= vw * dh;
      Scaled(vh, dw, dh);
      Below(vh * dw, vw, dh);
      Size(vh * (dw / dh), vh)
  }

  /** Comparing ratios of positive numbers is comparing cross products. */
  lemma RatioOrder(a: real, b: real, c: real, d: real)
    requires a > 0.0 && b > 0.0 && c > 0.0 && d > 0.0
    ensures a / b > c / d <==> a * d > c * b
  {
    assert a / b * (b * d) == a * d;
    assert c / d * (b * d) == c * b;
    if a / b > c / d {
      MultiplyStrict(c / d, a / b, b * d);
    } else {
      MultiplyWeak(a / b, c / d, b * d);
    }
  }

  lemma MultiplyStrict(x: real, y: real, k: real)
    requires x < y && k > 0.0
    ensures x * k < y * k
  {
  }

  lemma MultiplyWeak(x: real, y: real, k: real)
    requires x <= y && k > 0.0
    ensures x * k <= y * k
  {
  }

  /** Multiplying a positive k by c raises it exactly when c exceeds 1. */
  lemma RaisedExactlyAboveOne(c: real, k: real)
    requires k > 0.0
    ensures c * k > k <==> c > 1.0
  {
    if c > 1.0 {
      MultiplyStrict(1.0, c, k);
    } else {
      MultiplyWeak(c, 1.0, k);
    }
  }

  /** a * (b / c) is positive and carries the ratio b : c. */
  lemma Scaled(a: real, b: real, c: real)
    requires a > 0.0 && b > 0.0 && c > 0.0
    ensures a * (b / c) > 0.0
    ensures a * (b / c) == a * b / c
    ensures a * (b / c) * c == a * b
  {
  }

  /** p / c <= q when p <= q * c. */
  lemma Below(p: real, q: real, c: real)
    requires c > 0.0 && p <= q * c
    ensures p / c <= q
  {
    assert p / c * c == p;
    if p / c > q {
      MultiplyStrict(q, p / c, c);
    }
  }

  /**
   * getDrawableDisplayWidthHeight (PhotoViewAttacher): CENTER_INSIDE shows
   * content that fits at its own size and reports 0 x 0 otherwise; FIT_CENTER
   * uses the FIT_CENTER size; other scale types have no answer (null).
   */
  function DisplaySize(scaleType: ScaleType, dw: real, dh: real, vw: real, vh: real): (r: Option<Size>)
    requires dw > 0.0 && dh > 0.0 && vw > 0.0 && vh > 0.0
    ensures r.Some? <==> scaleType == CenterInside || scaleType == FitCenter
    ensures r.Some? ==> 0.0 <= r.value.width <= vw && 0.0 <= r.value.height <= vh
  {
    match scaleType
    case CenterInside => Some(if dw <= vw && dh <= vh then Size(dw, dh) else Size(0.0, 0.0))
    case FitCenter => Some(FitCenterSize(dw, dh, vw, vh))
    case _ => None
  }

  // ---------------------------------------------------------------------------
  // Compensation factor for a quarter turn
  // ---------------------------------------------------------------------------

  /**
   * The FIT_CENTER factor of rotateTo and rotate90Degrees, from the display
   * aspect displaySpec = w / h and the viewport aspect viewSpec = vw / vh.
   */
  function QuarterTurnFactor(displaySpec: real, viewSpec: real): real
    requires displaySpec > 0.0 && viewSpec > 0.0
  {
    if displaySpec > Min(viewSpec, 1.0 / viewSpec) && displaySpec < Max(viewSpec, 1.0 / viewSpec) then
      if viewSpec < 1.0 then displaySpec else 1.0 / displaySpec
    else if displaySpec >= Max(viewSpec, 1.0 / viewSpec) then 1.0 / viewSpec
    else viewSpec
  }

  lemma Reciprocal(a: real, b: real)
    requires 0.0 < a <= b
    ensures 0.0 < 1.0 / b <= 1.0 / a
    ensures a < b ==> 1.0 / b < 1.0 / a
    ensures a < 1.0 ==> 1.0 / a > 1.0
    ensures a >= 1.0 ==> 1.0 / a <= 1.0
  {
    assert 1.0 / a - 1.0 / b == (b - a) / (a * b);
    assert 1.0 / a - 1.0 == (1.0 - a) / a;
  }

  /**
   * The piecewise rule is the smaller of two ratios: for content wider (in
   * aspect) than the viewport, min(displaySpec, 1 / viewSpec); otherwise
   * min(viewSpec, 1 / displaySpec).
   */
  lemma QuarterTurnFactorIsMin(d: real, v: real)
    requires d > 0.0 && v > 0.0
    ensures QuarterTurnFactor(d, v) == if d > v then Min(d, 1.0 / v) else Min(v, 1.0 / d)
  {
    Reciprocal(v, v);
    if d <= v {
      Reciprocal(d, v);
    } else {
      Reciprocal(v, d);
    }
    if v < 1.0 {
      if d >= 1.0 / v {
        Reciprocal(1.0 / v, d);
        assert 1.0 / (1.0 / v) == v;
      }
    } else {
      if d <= 1.0 / v {
        Reciprocal(d, 1.0 / v);
        assert 1.0 / (1.0 / v) == v;
      } else if d < v {
        Reciprocal(1.0 / v, d);
        assert 1.0 / (1.0 / v) == v;
      }
    }
  }

  /**
   * Content w x h, turned a quarter and scaled by f, fits a vw x vh viewport
   * and touches it on one side.
   */
  predicate TurnFits(f: real, w: real, h: real, vw: real, vh: real) {
    f > 0.0 && f * h <= vw && f * w <= vh && (f * h == vw || f * w == vh)
  }

  /**
   * The meaning of the factor: the FIT_CENTER content, turned a quarter (so
   * its width lies along the viewport height), fits the viewport at that factor
   * and touches it on one side.
   */
  lemma TurnedFitCenterFits(dw: real, dh: real, vw: real, vh: real)
    requires dw > 0.0 && dh > 0.0 && vw > 0.0 && vh > 0.0
    ensures var s := FitCenterSize(dw, dh, vw, vh);
            TurnFits(QuarterTurnFactor(s.width / s.height, vw / vh), s.width, s.height, vw, vh)
  {
    var s := FitCenterSize(dw, dh, vw, vh);
    TurnedFits(s.width, s.height, vw, vh);
  }

  /** Content that fits the viewport and touches it on one side fits again, turned, at the factor. */
  lemma TurnedFits(w: real, h: real, vw: real, vh: real)
    requires 0.0 < w <= vw && 0.0 < h <= vh && (w == vw || h == vh)
    ensures TurnFits(QuarterTurnFactor(w / h, vw / vh), w, h, vw, vh)
  {
    if w == vw {
      TurnedSpanningWidth(h, vw, vh);
    } else {
      TurnedSpanningHeight(w, vw, vh);
    }
  }

  /** The FIT_CENTER factor for the FIT_CENTER display size of a dw x dh drawable. */
  function FitCenterTurnFactor(dw: real, dh: real, vw: real, vh: real): (f: real)
    requires dw > 0.0 && dh > 0.0 && vw > 0.0 && vh > 0.0
    ensures f > 0.0
  {
    var s := FitCenterSize(dw, dh, vw, vh);
    TurnedFitCenterFits(dw, dh, vw, vh);
    QuarterTurnFactor(s.width / s.height, vw / vh)
  }

  lemma RatioFacts(a: real, b: real)
    requires a > 0.0 && b > 0.0
    ensures a / b > 0.0 && a / b * b == a && 1.0 / (a / b) == b / a
  {
  }

  /** Content spanning the viewport width, turned. */
  lemma TurnedSpanningWidth(h: real, vw: real, vh: real)
    requires 0.0 < h <= vh && vw > 0.0
    ensures TurnFits(QuarterTurnFactor(vw / h, vw / vh), vw, h, vw, vh)
  {
    var d, v := vw / h, vw / vh;
    RatioFacts(vw, h);
    RatioFacts(vw, vh);
    MultiplyWeak(h, vh, vw);
    RatioOrder(vw, vh, vw, h);
    QuarterTurnFactorIsMin(d, v);
    FitsAtSmaller(QuarterTurnFactor(d, v), d, 1.0 / v, vw, h, vw, vh);
  }

  /** Content spanning the viewport height, turned. */
  lemma TurnedSpanningHeight(w: real, vw: real, vh: real)
    requires 0.0 < w <= vw && vh > 0.0
    ensures TurnFits(QuarterTurnFactor(w / vh, vw / vh), w, vh, vw, vh)
  {
    var d, v := w / vh, vw / vh;
    RatioFacts(vw, vh);
    ReciprocalRatio(w, vh);
    Below(w, v, vh);
    FitsAtLargerView(d, v, w, vh, vw);
  }

  /** The height-spanning case with the ratios as plain values: d is at most v. */
  lemma FitsAtLargerView(d: real, v: real, w: real, vh: real, vw: real)
    requires d > 0.0 && v > 0.0 && w > 0.0 && vh > 0.0 && d <= v
    requires v * vh == vw && 1.0 / d > 0.0 && 1.0 / d * w == vh
    ensures TurnFits(QuarterTurnFactor(d, v), w, vh, vw, vh)
  {
    QuarterTurnFactorIsMin(d, v);
    FitsAtSmaller(QuarterTurnFactor(d, v), v, 1.0 / d, w, vh, vw, vh);
  }

  lemma ReciprocalRatio(a: real, b: real)
    requires a > 0.0 && b > 0.0
    ensures a / b > 0.0 && 1.0 / (a / b) > 0.0 && 1.0 / (a / b) * a == b
  {
    RatioFacts(a, b);
    RatioFacts(b, a);
  }

  /**
   * The smaller of a factor a that makes the turned height span the viewport
   * width and a factor b that makes the turned width span its height fits.
   */
  lemma FitsAtSmaller(f: real, a: real, b: real, w: real, h: real, vw: real, vh: real)
    requires a > 0.0 && b > 0.0 && w > 0.0 && h > 0.0
    requires f == Min(a, b) && a * h == vw && b * w == vh
    ensures TurnFits(f, w, h, vw, vh)
  {
    if a <= b {
      MultiplyWeak(a, b, w);
    } else {
      MultiplyWeak(b, a, h);
    }
  }

  /**
   * The CENTER_INSIDE factor of rotateTo: content shown at its own size whose
   * longer side exceeds the viewport's shorter side is shrunk so that the
   * longer side equals the shorter side of the viewport.
   */
  function CenterInsideFactor(w: real, h: real, vw: real, vh: real): real
    requires vw > 0.0 && vh > 0.0
  {
    if w <= vw && h <= vh && Max(w, h) > Min(vw, vh) then Min(vw, vh) / Max(w, h) else 1.0
  }

  /**
   * The meaning of the CENTER_INSIDE factor: content that fits the viewport
   * still fits, turned a quarter, at that factor, and is never enlarged.
   */
  lemma TurnedCenterInsideFits(w: real, h: real, vw: real, vh: real)
    requires vw > 0.0 && vh > 0.0 && 0.0 <= w <= vw && 0.0 <= h <= vh
    ensures var f := CenterInsideFactor(w, h, vw, vh);
            0.0 < f <= 1.0 && f * h <= vw && f * w <= vh
  {
    var f := CenterInsideFactor(w, h, vw, vh);
    var m, n := Max(w, h), Min(vw, vh);
    if m > n {
      assert f == n / m;
      assert f * m == n;
      Below(n, 1.0, m);
      MultiplyWeak(h, m, f);
      MultiplyWeak(w, m, f);
    }
  }

  // ---------------------------------------------------------------------------
  // PhotoViewAttacher.rotateTo
  // ---------------------------------------------------------------------------

  /** The DegreeDefines of PhotoViewAttacher. */
  predicate IsDegree(d: int) {
    d == 0 || d == 90 || d == 180 || d == 270
  }

  function Abs(x: int): nat { if x < 0 then -x else x }

  /**
   * The step factor rotateTo applies: only a difference of exactly 90 degrees
   * between the current and the target angle needs one; FIT_CENTER inverts it
   * when leaving 90 or 270 degrees, CENTER_INSIDE does not.
   */
  function RotateScaleFactor(scaleType: ScaleType, current: int, degree: int,
                             dw: real, dh: real, vw: real, vh: real): (factor: real)
    requires scaleType == FitCenter || scaleType == CenterInside
    requires dw > 0.0 && dh > 0.0 && vw > 0.0 && vh > 0.0
    ensures factor > 0.0
    ensures Abs(current - degree) != 90 ==> factor == 1.0
  {
    if Abs(current - degree) != 90 then 1.0
    else if scaleType == CenterInside then
      var display := DisplaySize(scaleType, dw, dh, vw, vh).value;
      TurnedCenterInsideFits(display.width, display.height, vw, vh);
      CenterInsideFactor(display.width, display.height, vw, vh)
    else
      var f := FitCenterTurnFactor(dw, dh, vw, vh);
      Inverse(f);
      if current == 90 || current == 270 then 1.0 / f else f
  }

  /** FIT_CENTER: the factor for leaving a quarter-turned angle undoes the factor for entering it. */
  lemma FitCenterFactorsCancel(current: int, degree: int, dw: real, dh: real, vw: real, vh: real)
    requires dw > 0.0 && dh > 0.0 && vw > 0.0 && vh > 0.0
    requires (current == 0 || current == 180) && IsDegree(degree) && Abs(current - degree) == 90
    ensures RotateScaleFactor(FitCenter, current, degree, dw, dh, vw, vh)
          * RotateScaleFactor(FitCenter, degree, current, dw, dh, vw, vh) == 1.0
  {
    FitCenterQuarterFactor(current, degree, dw, dh, vw, vh);
    FitCenterQuarterFactor(degree, current, dw, dh, vw, vh);
    Inverse(FitCenterTurnFactor(dw, dh, vw, vh));
  }

  /** Across a quarter turn the FIT_CENTER factor is the turn factor, inverted when leaving 90 or 270 degrees. */
  lemma FitCenterQuarterFactor(current: int, degree: int, dw: real, dh: real, vw: real, vh: real)
    requires dw > 0.0 && dh > 0.0 && vw > 0.0 && vh > 0.0 && Abs(current - degree) == 90
    ensures var f := FitCenterTurnFactor(dw, dh, vw, vh);
            RotateScaleFactor(FitCenter, current, degree, dw, dh, vw, vh)
              == if current == 90 || current == 270 then 1.0 / f else f
  {
  }

  /**
   * rotateTo tests for a difference of exactly 90 degrees, so a direct turn
   * from 0 to 270 degrees, a quarter turn as well, keeps factor 1: a 100 x 200
   * picture fitted into a 100 x 200 viewport then lies 200 wide across a
   * viewport 100 wide, while the turn from 0 to 90 degrees halves it to fit.
   */
  lemma DirectQuarterTurnNotRefit()
    ensures RotateScaleFactor(FitCenter, 0, 270, 100.0, 200.0, 100.0, 200.0) == 1.0
    ensures RotateScaleFactor(FitCenter, 0, 90, 100.0, 200.0, 100.0, 200.0) == 0.5
    ensures var s := FitCenterSize(100.0, 200.0, 100.0, 200.0);
            && TurnFits(0.5, s.width, s.height, 100.0, 200.0)
            && !TurnFits(1.0, s.width, s.height, 100.0, 200.0)
  {
  }

  lemma Inverse(f: real)
    requires f > 0.0
    ensures f * (1.0 / f) == 1.0 && 1.0 / f > 0.0
  {
  }

  /**
   * CENTER_INSIDE does not invert its factor when leaving a quarter-turned
   * angle: 0 -> 90 -> 0 applies the same shrinking factor twice.
   */
  lemma CenterInsideFactorsDoNotCancel()
    ensures RotateScaleFactor(CenterInside, 0, 90, 200.0, 100.0, 200.0, 100.0) == 0.5
    ensures RotateScaleFactor(CenterInside, 90, 0, 200.0, 100.0, 200.0, 100.0) == 0.5
  {
    assert DisplaySize(CenterInside, 200.0, 100.0, 200.0, 100.0) == Some(Size(200.0, 100.0));
  }

  /**
   * The rotation angle rotateTo computes, as written: clockwise it is
   * |current - degree|, counter-clockwise the negative angle that reaches the
   * target going backwards.
   */
  function RotateFactorAsWritten(current: int, degree: int, clockwise: bool): (f: int)
    ensures clockwise ==> f >= 0
    ensures IsDegree(current) && IsDegree(degree) ==> -360 < f < 360 && f % 90 == 0
    ensures !clockwise && IsDegree(current) && IsDegree(degree) ==> (current + f) % 360 == degree
  {
    if clockwise then Abs(current - degree)
    else if degree > current then -(360 - (degree - current))
    else -(current - degree)
  }

  /**
   * Clockwise from 90 to 0 degrees the written angle is +90, which turns the
   * picture to 180 degrees while the attacher records 0.
   */
  lemma RotateFactorAsWrittenOvershoots()
    ensures RotateFactorAsWritten(90, 0, true) == 90
    ensures (90 + RotateFactorAsWritten(90, 0, true)) % 360 != 0
  {
  }

  /**
   * The rotation angle corrected: clockwise it is the positive angle that
   * reaches the target going forwards; counter-clockwise it is unchanged.
   */
  function RotateFactor(current: int, degree: int, clockwise: bool): (f: int)
    requires IsDegree(current) && IsDegree(degree) && current != degree
    ensures (current + f) % 360 == degree
    ensures clockwise ==> 0 < f < 360
    ensures !clockwise ==> -360 < f < 0
    ensures f % 90 == 0
  {
    if clockwise then
      if degree > current then degree - current else 360 - (current - degree)
    else if degree > current then -(360 - (degree - current))
    else -(current - degree)
  }

  /** The correction changes only the clockwise turn towards a smaller angle. */
  lemma RotateFactorAgreesElsewhere(current: int, degree: int, clockwise: bool)
    requires IsDegree(current) && IsDegree(degree) && current != degree
    ensures !clockwise || degree > current || current - degree == 180
            <==> RotateFactor(current, degree, clockwise) == RotateFactorAsWritten(current, degree, clockwise)
  {
  }

  /** Counter-clockwise, the angle is a whole negative number of quarter turns. */
  lemma CounterClockwiseQuarterTurns(current: int, degree: int)
    requires IsDegree(current) && IsDegree(degree) && current != degree
    ensures var f := RotateFactorAsWritten(current, degree, false);
            f == -90 || f == -180 || f == -270
  {
  }

  /**
   * The compensation scale rotateTo stores, as written: the step factor of this
   * rotation alone, whatever compensation was in force before.
   */
  function CompensationAsWritten(compensate: real, factor: real): (c: real)
    ensures compensate > 0.0 && factor > 0.0 && compensate != 1.0 ==> c != Compensation(compensate, factor)
  {
    OnlyOneKeepsFactor(compensate, factor);
    factor
  }

  /** Compensating a positive factor by anything but 1 changes it. */
  lemma OnlyOneKeepsFactor(c: real, f: real)
    ensures c > 0.0 && f > 0.0 && c != 1.0 ==> Compensation(c, f) != f
  {
    if c > 0.0 && f > 0.0 && c != 1.0 {
      assert Compensation(c, f) == c * f;
      assert c * f - f == (c - 1.0) * f;
      MultiplyNonZero(c - 1.0, f);
    }
  }

  lemma MultiplyNonZero(x: real, y: real)
    requires x != 0.0 && y != 0.0
    ensures x * y != 0.0
  {
  }

  /**
   * Turning from 0 to 90 degrees and back under FIT_CENTER, from scale 1 with
   * compensation 1, whenever the step factor f is not 1: the picture ends at
   * scale 1 again, but the compensation stored as written is 1/f, so it no
   * longer records the scale; the corrected compensation does.
   */
  lemma CompensationAsWrittenDrifts(m: Supp, dw: real, dh: real, vw: real, vh: real)
    requires m.Valid() && GetScale(m) == 1.0
    requires dw > 0.0 && dh > 0.0 && vw > 0.0 && vh > 0.0
    requires RotateScaleFactor(FitCenter, 0, 90, dw, dh, vw, vh) != 1.0
    ensures var f := RotateScaleFactor(FitCenter, 0, 90, dw, dh, vw, vh);
            var g := RotateScaleFactor(FitCenter, 90, 0, dw, dh, vw, vh);
            && f > 0.0 && g > 0.0
            && var stored := CompensationAsWritten(1.0, f);
               var back := TurnedSupp(TurnedSupp(m, 1.0, f, 1), stored, g, -1);
               && GetScale(back) == 1.0
               && CompensationAsWritten(stored, g) != GetScale(back)
               && Compensation(Compensation(1.0, f), g) == GetScale(back)
  {
    var t := FitCenterTurnFactor(dw, dh, vw, vh);
    FitCenterQuarterFactor(0, 90, dw, dh, vw, vh);
    FitCenterQuarterFactor(90, 0, dw, dh, vw, vh);
    Inverse(t);
    CompensationInverse(1.0, t, 1.0 / t);
    assert 1.0 / t != 1.0;
  }

  /**
   * The compensation corrected: the scale the picture is left at, which is the
   * compensation in force (the scale rotateTo first resets to) times the step
   * factor.
   */
  function Compensation(compensate: real, factor: real): (c: real)
    requires compensate > 0.0 && factor > 0.0
    ensures c > 0.0
  {
    compensate * factor
  }

  /**
   * The matrix update of a quarter turn (rotateTo, rotate90Degrees): scale about the origin by compensation / scale,
   * which resets the scale to the compensation, then by the step factor, then
   * turn; the scale is left at the new compensation.
   */
  function TurnedSupp(m: Supp, compensate: real, scaleFactor: real, turns: int): (r: Supp)
    requires m.Valid() && compensate > 0.0 && scaleFactor > 0.0
    ensures r.Valid() && GetScale(r) == Compensation(compensate, scaleFactor)
    ensures r.quarter == (m.quarter + turns) % 4
  {
    var reset := compensate / GetScale(m);
    ResetThenStep(compensate, GetScale(m), reset, scaleFactor);
    PostRotate(PostScale(PostScale(m, reset, 0.0, 0.0), scaleFactor, 0.0, 0.0), turns)
  }

  /** Resetting a scale s to c (by c / s) and then applying the step factor f leaves c times f. */
  lemma ResetThenStep(c: real, s: real, r: real, f: real)
    requires c > 0.0 && s > 0.0 && f > 0.0 && r == c / s
    ensures r > 0.0
    ensures f * (r * s) == Compensation(c, f)
  {
    assert r * s == c;
  }

  /** FIT_CENTER: a quarter turn and the turn back restore the compensation. */
  lemma CompensationRoundTrip(compensate: real, dw: real, dh: real, vw: real, vh: real)
    requires compensate > 0.0 && dw > 0.0 && dh > 0.0 && vw > 0.0 && vh > 0.0
    ensures var f := RotateScaleFactor(FitCenter, 0, 90, dw, dh, vw, vh);
            var g := RotateScaleFactor(FitCenter, 90, 0, dw, dh, vw, vh);
            f > 0.0 && g > 0.0 && Compensation(Compensation(compensate, f), g) == compensate
  {
    var t := FitCenterTurnFactor(dw, dh, vw, vh);
    FitCenterQuarterFactor(0, 90, dw, dh, vw, vh);
    FitCenterQuarterFactor(90, 0, dw, dh, vw, vh);
    Inverse(t);
    CompensationInverse(compensate, t, 1.0 / t);
  }

  lemma CompensationInverse(c: real, f: real, g: real)
    requires c > 0.0 && f > 0.0 && g > 0.0 && f * g == 1.0
    ensures Compensation(Compensation(c, f), g) == c
  {
    assert c * f * g == c * (f * g);
  }

  // ---------------------------------------------------------------------------
  // Drawee Attacher.rotate90Degrees
  // ---------------------------------------------------------------------------

  /** DEGREE_X (an arbitrary rotation) and DEGREE_0 .. DEGREE_270 of the drawee attacher. */
  const DegreeX: int := -1

  /** SCALE_MIN of the drawee ScaleConfig, the compensation stored on entering 0 or 180 degrees. */
  const DraweeScaleMin: real := 1.0

  /**
   * getDrawableDisplayWidthHeight (drawee Attacher), as written: the two
   * image-info sizes are ints, so the aspect test and the height divide in
   * integer arithmetic; only the width in the other branch divides in floats.
   */
  function DraweeDisplaySizeAsWritten(imageWidth: nat, imageHeight: nat, vw: real, vh: real): (s: Size)
    requires imageWidth > 0 && imageHeight > 0 && vh > 0.0
    ensures s.width == vw || s.height == vh
    ensures vw > 0.0 ==> s.width > 0.0 && s.height >= 0.0
  {
    if (imageWidth / imageHeight) as real > vw / vh then
      var q := (imageHeight / imageWidth) as real;
      assert vw > 0.0 ==> vw * q >= 0.0 by {
        if vw > 0.0 && q > 0.0 { MultiplyStrict(0.0, vw, q); }
      }
      Size(vw, vw * q)
    else
      Scaled(vh, imageWidth as real, imageHeight as real);
      Size(vh * (imageWidth as real / imageHeight as real), vh)
  }

  /** A 300 x 200 image in a 100 x 100 viewport is reported 150 wide: wider than the viewport. */
  lemma DraweeDisplaySizeAsWrittenOverflows()
    ensures DraweeDisplaySizeAsWritten(300, 200, 100.0, 100.0) == Size(150.0, 100.0)
  {
  }

  /** A 400 x 100 image in a 100 x 100 viewport is reported with height 0. */
  lemma DraweeDisplaySizeAsWrittenCollapses()
    ensures DraweeDisplaySizeAsWritten(400, 100, 100.0, 100.0) == Size(100.0, 0.0)
  {
  }

  /** getDrawableDisplayWidthHeight corrected: the FIT_CENTER size computed in floats. */
  function DraweeDisplaySize(imageWidth: nat, imageHeight: nat, vw: real, vh: real): (s: Size)
    requires imageWidth > 0 && imageHeight > 0 && vw > 0.0 && vh > 0.0
    ensures 0.0 < s.width <= vw && 0.0 < s.height <= vh
    ensures s.width == vw || s.height == vh
    ensures s.width * imageHeight as real == s.height * imageWidth as real
  {
    FitCenterSize(imageWidth as real, imageHeight as real, vw, vh)
  }

  /** The scaleValue of rotate90Degrees: the FIT_CENTER factor, inverted when leaving 90 or 270 degrees. */
  function DraweeScaleValue(rotation: int, imageWidth: nat, imageHeight: nat, vw: real, vh: real): (f: real)
    requires imageWidth > 0 && imageHeight > 0 && vw > 0.0 && vh > 0.0
    ensures f > 0.0
  {
    var f := FitCenterTurnFactor(imageWidth as real, imageHeight as real, vw, vh);
    if rotation == 1 || rotation == 3 then 1.0 / f else f
  }

  /**
   * The scaleValue of rotate90Degrees as written, from the integer-divided
   * display size. A display height of 0 makes displaySpec a float infinity,
   * which is at least max(viewSpec, 1 / viewSpec), so the value is
   * 1 / viewSpec before the inversion for 90 and 270 degrees.
   */
  function DraweeScaleValueAsWritten(rotation: int, imageWidth: nat, imageHeight: nat, vw: real, vh: real): (f: real)
    requires imageWidth > 0 && imageHeight > 0 && vw > 0.0 && vh > 0.0
    ensures f > 0.0
    ensures DraweeDisplaySizeAsWritten(imageWidth, imageHeight, vw, vh).height == 0.0 ==>
              f == if rotation == 1 || rotation == 3 then vw / vh else vh / vw
  {
    var s := DraweeDisplaySizeAsWritten(imageWidth, imageHeight, vw, vh);
    var v := DisplayTurnFactor(s.width, s.height, vw, vh);
    RatioFacts(vh, vw);
    if rotation == 1 || rotation == 3 then 1.0 / v else v
  }

  /** The FIT_CENTER factor from a display size whose height may be 0, which makes displaySpec infinite. */
  function DisplayTurnFactor(w: real, h: real, vw: real, vh: real): (v: real)
    requires w > 0.0 && h >= 0.0 && vw > 0.0 && vh > 0.0
    ensures v > 0.0
    ensures h == 0.0 ==> v == vh / vw
  {
    RatioFacts(vw, vh);
    if h == 0.0 then 1.0 / (vw / vh)
    else
      RatioFacts(w, h);
      QuarterTurnFactorIsMin(w / h, vw / vh);
      QuarterTurnFactor(w / h, vw / vh)
  }

  /**
   * The integer display size changes what a quarter turn does: a 300 x 200
   * image in a 100 x 200 viewport is reported 100 x 0, so scaleValue is 2
   * where the float size gives 1.5, and at 2 the turned picture no longer
   * fits the viewport, while at 1.5 it fits and touches its width.
   */
  lemma DraweeScaleValueAsWrittenOverflows()
    ensures DraweeDisplaySizeAsWritten(300, 200, 100.0, 200.0) == Size(100.0, 0.0)
    ensures DraweeScaleValueAsWritten(0, 300, 200, 100.0, 200.0) == 2.0
    ensures DraweeScaleValue(0, 300, 200, 100.0, 200.0) == 1.5
    ensures var s := DraweeDisplaySize(300, 200, 100.0, 200.0);
            TurnFits(1.5, s.width, s.height, 100.0, 200.0) && !TurnFits(2.0, s.width, s.height, 100.0, 200.0)
  {
    var s := DraweeDisplaySize(300, 200, 100.0, 200.0);
    assert 300.0 / 200.0 > 100.0 / 200.0;
    assert s == Size(100.0, 100.0 * (200.0 / 300.0));
    assert s.height == 200.0 / 3.0;
    assert s.width / s.height == 1.5;
    assert QuarterTurnFactor(1.5, 0.5) == 1.5;
  }

  /** The rotation rotate90Degrees moves to: one step clockwise or counter-clockwise round DEGREE_0 .. DEGREE_270. */
  function NextRotation(rotation: int, clockwise: bool): (r: int)
    requires 0 <= rotation < 4
    ensures 0 <= r < 4
    ensures r == (if clockwise then (rotation + 1) % 4 else (rotation + 3) % 4)
  {
    match rotation
    case 0 => if clockwise then 1 else 3
    case 1 => if clockwise then 2 else 0
    case 2 => if clockwise then 3 else 1
    case _ => if clockwise then 0 else 2
  }

  /** The arguments rotate90Degrees passes to setRotateConfig. */
  datatype RotateConfig = RotateConfig(rotation: int, compensate: real)

  /**
   * The switch of rotate90Degrees on the rotation it is leaving: the rotation
   * entered is one step round, and the compensation recorded is scaleValue on
   * entering 90 or 270 degrees and SCALE_MIN on entering 0 or 180.
   */
  function NextRotateConfig(leaving: int, clockwise: bool, scaleValue: real): (config: RotateConfig)
    requires 0 <= leaving < 4
    ensures config.rotation == (if clockwise then (leaving + 1) % 4 else (leaving + 3) % 4)
    ensures config.rotation % 2 == 1 ==> config.compensate == scaleValue
    ensures config.rotation % 2 == 0 ==> config.compensate == DraweeScaleMin
  {
    match leaving
    case 0 => RotateConfig(if clockwise then 1 else 3, scaleValue)
    case 1 => RotateConfig(if clockwise then 2 else 0, DraweeScaleMin)
    case 2 => RotateConfig(if clockwise then 3 else 1, scaleValue)
    case _ => RotateConfig(if clockwise then 0 else 2, DraweeScaleMin)
  }

  /** A clockwise step and a counter-clockwise step undo each other; four steps one way come back. */
  lemma RotationCycle(rotation: int, clockwise: bool)
    requires 0 <= rotation < 4
    ensures NextRotation(NextRotation(rotation, clockwise), !clockwise) == rotation
    ensures NextRotation(NextRotation(NextRotation(NextRotation(rotation, clockwise), clockwise), clockwise), clockwise) == rotation
  {
  }

  /**
   * Entering 90 or 270 degrees from 0 or 180 multiplies the scale by the
   * FIT_CENTER factor, and leaving again multiplies it by the inverse, so the
   * picture is back at the scale it had before the first turn.
   */
  lemma DraweeFactorsCancel(rotation: int, clockwise: bool, imageWidth: nat, imageHeight: nat, vw: real, vh: real)
    requires rotation == 0 || rotation == 2
    requires imageWidth > 0 && imageHeight > 0 && vw > 0.0 && vh > 0.0
    ensures DraweeScaleValue(rotation, imageWidth, imageHeight, vw, vh)
          * DraweeScaleValue(NextRotation(rotation, clockwise), imageWidth, imageHeight, vw, vh) == 1.0
  {
    var next := NextRotation(rotation, clockwise);
    assert next == 1 || next == 3;
    var f := FitCenterTurnFactor(imageWidth as real, imageHeight as real, vw, vh);
    assert DraweeScaleValue(rotation, imageWidth, imageHeight, vw, vh) == f;
    assert DraweeScaleValue(next, imageWidth, imageHeight, vw, vh) == 1.0 / f;
    Inverse(f);
  }

  /**
   * The rotation state agrees with the picture: at 0 or 180 degrees the
   * compensation is SCALE_MIN, at 90 or 270 degrees it is the FIT_CENTER factor.
   * The attacher starts in this state (DEGREE_0, compensation 1).
   */
  predicate DraweeConsistent(rotation: int, compensate: real, imageWidth: nat, imageHeight: nat, vw: real, vh: real)
    requires imageWidth > 0 && imageHeight > 0 && vw > 0.0 && vh > 0.0
  {
    && 0 <= rotation < 4
    && compensate == if rotation % 2 == 0 then DraweeScaleMin else FitCenterTurnFactor(imageWidth as real, imageHeight as real, vw, vh)
  }

  /**
   * A quarter turn from a consistent state leaves the picture at exactly the
   * compensation it records (so at the compensated minimum), and the new state
   * is consistent again.
   */
  lemma DraweeTurnConsistent(rotation: int, compensate: real, clockwise: bool,
                             imageWidth: nat, imageHeight: nat, vw: real, vh: real)
    requires imageWidth > 0 && imageHeight > 0 && vw > 0.0 && vh > 0.0
    requires DraweeConsistent(rotation, compensate, imageWidth, imageHeight, vw, vh)
    ensures var v := DraweeScaleValue(rotation, imageWidth, imageHeight, vw, vh);
            var c := NextRotateConfig(rotation, clockwise, v).compensate;
            && Compensation(compensate, v) == c
            && DraweeConsistent(NextRotation(rotation, clockwise), c, imageWidth, imageHeight, vw, vh)
  {
    var f := FitCenterTurnFactor(imageWidth as real, imageHeight as real, vw, vh);
    var v := DraweeScaleValue(rotation, imageWidth, imageHeight, vw, vh);
    assert v == if rotation == 1 || rotation == 3 then 1.0 / f else f;
    ConsistentStep(rotation, compensate, clockwise, f, v);
  }

  /** DraweeTurnConsistent for any positive FIT_CENTER factor f. */
  lemma ConsistentStep(rotation: int, compensate: real, clockwise: bool, f: real, v: real)
    requires 0 <= rotation < 4 && f > 0.0
    requires compensate == if rotation % 2 == 0 then DraweeScaleMin else f
    requires v == if rotation == 1 || rotation == 3 then 1.0 / f else f
    ensures v > 0.0
    ensures var c := NextRotateConfig(rotation, clockwise, v).compensate;
            && Compensation(compensate, v) == c
            && c == if NextRotation(rotation, clockwise) % 2 == 0 then DraweeScaleMin else f
  {
    NextRotationParity(rotation, clockwise);
    Inverse(f);
  }

  /** Each step moves between the even and the odd rotations. */
  lemma NextRotationParity(rotation: int, clockwise: bool)
    requires 0 <= rotation < 4
    ensures NextRotation(rotation, clockwise) % 2 != rotation % 2
  {
  }
}
