# PhotoView and zoomabledrawee attachers, modelled in Dafny

This project models the zoom, pan and rotation logic of two Android zoom
libraries:

- PhotoView's `PhotoViewAttacher`, with its static `ScaleConfig`;
- zoomabledrawee's `Attacher` for Fresco's `DraweeView`, with its own static
  `ScaleConfig`.

An attacher keeps a supplementary matrix on top of the base matrix that fits
the picture into its view. Gestures change that matrix: drag, pinch,
double tap, fling and quarter-turn rotation. After each change a bounds check
(`checkMatrixBounds`) pulls the picture back into place. Scale levels live in
`SparseArray` tables. A small state machine decides when the parent view may
take over a drag at the picture's edge.

Modules:

- `Geometry`:
  - the supplementary matrix `Supp`: a positive uniform scale, a number of
    quarter turns and a translation;
  - its operations, each proved equal to the Android matrix product on a
    general 2 × 3 affine matrix;
  - `mapRect`;
  - the bounds correction and its idempotence.
- `LevelTable`: the `SparseArray` level tables as sequences.
  - The validation loops find the first failing entry.
  - Writes are not atomic and the table is never cleared.
  - `getLevelByScale` is a scan.
- `PhotoViewScaleConfig`, `DraweeScaleConfig`: the two static tables, as
  classes whose constructor plays the static initialiser.
- `Gestures`: decisions for the single tap, the double tap, the pinch gates and
  the snap-back.
- `EdgeDrag`: the shared edge-drag arbiter and its latch, over single drags and
  over runs of drags.
- `RotationMath`:
  - display sizes and the quarter-turn step factors, with the proof that a
    turned picture still fits;
  - rotation angles and compensation scales;
  - the drawee attacher's rotation cycle.
- `Animation`: the per-frame arithmetic of the zoom, rotate and fling runnables.
- `PhotoViewAttacher`, `DraweeAttacher`: the two attachers as classes whose
  methods update the matrix, the compensation, the angle and the parent flags
  in place.

Floats are modelled as Dafny `real`. The interpolator's progress `t`, the
scroller's positions and the gesture detectors' outputs are method parameters.

## Model

| member | source | states |
|---|---|---|
| Geometry.GetScale | photoview/src/main/java/com/github/chrisbanes/photoview/PhotoViewAttacher.java:476-479 | the scale of a supplementary matrix is positive |
| Geometry.GetScaleIsMatrixScale | photoview/src/main/java/com/github/chrisbanes/photoview/PhotoViewAttacher.java:476-479 | getScale's sqrt(MSCALE_X² + MSKEW_Y²) of the full matrix is the uniform scale of the model, under every quarter turn |
| Geometry.PostTranslate | photoview/src/main/java/com/github/chrisbanes/photoview/PhotoViewAttacher.java:118-130 | postTranslate keeps the matrix well formed and keeps its scale and quarter turn |
| Geometry.PostTranslateIsProduct | photoview/src/main/java/com/github/chrisbanes/photoview/PhotoViewAttacher.java:118-130 | the model's postTranslate is the matrix product translation × matrix |
| Geometry.PostScale | photoview/src/main/java/com/github/chrisbanes/photoview/PhotoViewAttacher.java:140-150 | postScale by f multiplies the scale by f and keeps the quarter turn |
| Geometry.PostScaleIsProduct | photoview/src/main/java/com/github/chrisbanes/photoview/PhotoViewAttacher.java:140-150 | the model's postScale about a focus is the matrix product scale-about-focus × matrix |
| Geometry.SetScale | photoview/src/main/java/com/github/chrisbanes/photoview/PhotoViewAttacher.java:659-677 | setScale(s, s, px, py) leaves scale s and no rotation |
| Geometry.SetScaleIsScaleAbout | photoview/src/main/java/com/github/chrisbanes/photoview/PhotoViewAttacher.java:659-677 | the model's setScale is exactly the scale-about-focus matrix |
| Geometry.PostRotate | photoview/src/main/java/com/github/chrisbanes/photoview/PhotoViewAttacher.java:440-452 | postRotate by quarter turns keeps the scale and adds the turns modulo 4 |
| Geometry.PostRotateIsProduct | photoview/src/main/java/com/github/chrisbanes/photoview/PhotoViewAttacher.java:440-452 | the model's postRotate is the matrix product rotation × matrix |
| Geometry.MapRect | photoview/src/main/java/com/github/chrisbanes/photoview/PhotoViewAttacher.java:808-817 | mapRect yields a sorted rectangle whose sides are the source sides times the scale, swapped under an odd quarter turn |
| Geometry.MapRectIsBoundingBox | photoview/src/main/java/com/github/chrisbanes/photoview/PhotoViewAttacher.java:808-817 | mapRect equals the bounding box of the four corners mapped by the full affine matrix |
| Geometry.MapRectAfterTranslate | photoview/src/main/java/com/github/chrisbanes/photoview/PhotoViewAttacher.java:808-817 | the displayed rectangle after postTranslate(dx, dy) is the old one offset by (dx, dy) |
| Geometry.AxisCorrection | photoview/src/main/java/com/github/chrisbanes/photoview/PhotoViewAttacher.java:877-923 | per axis: content no larger than the view is aligned leading, trailing or centred; larger content is moved to cover the view, by zero when it already does, else pulling back the edge that lies inside |
| Geometry.Correction | photoview/src/main/java/com/github/chrisbanes/photoview/PhotoViewAttacher.java:877-923 | the corrected rectangle is placed on both axes: aligned leading, trailing or centred where it fits the view, covering the view where it is larger; a rectangle already placed is not moved |
| Geometry.AxisCorrectionIdempotent | photoview/src/main/java/com/github/chrisbanes/photoview/PhotoViewAttacher.java:877-923 | correcting an already corrected span moves it by zero |
| Geometry.CorrectionIdempotent | photoview/src/main/java/com/github/chrisbanes/photoview/PhotoViewAttacher.java:877-923 | a second checkMatrixBounds after the first produces a zero translation |
| Geometry.CorrectedCovers | photoview/src/main/java/com/github/chrisbanes/photoview/PhotoViewAttacher.java:877-923 | after the correction every axis on which the content is larger than the view covers the whole view |
| Geometry.Round | photoview/src/main/java/com/github/chrisbanes/photoview/PhotoViewAttacher.java:994-1005 | Math.round: the result lies within one half of its argument |
| Gestures.PhotoTap | photoview/src/main/java/com/github/chrisbanes/photoview/PhotoViewAttacher.java:189-217 | a tap inside the displayed rectangle is reported as fractions in [0, 1) that map back to the tap point; none outside it |
| Gestures.PhotoViewSingleTap | photoview/src/main/java/com/github/chrisbanes/photoview/PhotoViewAttacher.java:189-217 | the tap is handled exactly when it falls inside the displayed rectangle; the outside-photo listener fires exactly when a rectangle exists and the tap misses it |
| Gestures.DraweeSingleTap | zoomabledrawee/src/main/java/test/zoomabledrawee/Attacher.java:97-131 | a disabled matrix consumes the tap; otherwise the tap is handled exactly when it falls in the displayed rectangle, reported as in-rectangle fractions; there is no outside-photo tap |
| Gestures.PhotoViewDoubleTapToggles | photoview/src/main/java/com/github/chrisbanes/photoview/PhotoViewAttacher.java:219-240 | the double tap targets the compensated minimum exactly when the scale lies in (min, max], otherwise the maximum, and the next double tap targets the other bound |
| Gestures.DraweeDoubleTapToggles | zoomabledrawee/src/main/java/test/zoomabledrawee/Attacher.java:133-155 | the double tap goes to the target (mDoubleTapScale or, while that is -1, the compensated maximum) exactly when min ≤ scale < target, otherwise to min, and the next double tap goes the other way |
| Gestures.PhotoViewScaleGate | photoview/src/main/java/com/github/chrisbanes/photoview/PhotoViewAttacher.java:140-150 | below the compensated maximum every pinch step applies; at or above it exactly the steps that shrink the scale |
| Gestures.DraweeScaleGate | zoomabledrawee/src/main/java/test/zoomabledrawee/Attacher.java:573-584 | strictly between the bounds every pinch step applies; at or above the maximum (above the minimum) exactly the steps that shrink the scale; at or below the minimum (below the maximum) exactly the steps that grow it; at a scale that is both the maximum and the minimum, as with the default one-level table, no step applies |
| Gestures.GateAllowsOvershoot | photoview/src/main/java/com/github/chrisbanes/photoview/PhotoViewAttacher.java:140-150 | the gate looks at the scale before the step, so a step from 3.5 by 2 passes a maximum of 4 |
| Gestures.SnapBackTarget | photoview/src/main/java/com/github/chrisbanes/photoview/PhotoViewAttacher.java:521-541 | on ACTION_UP no zoom is started within the bounds; otherwise the zoom ends at the allowed scale nearest to the current one |
| Gestures.InterpolateBetween | photoview/src/main/java/com/github/chrisbanes/photoview/PhotoViewAttacher.java:955-960 | for progress in [0, 1] the animated value stays between the start and end values |
| Gestures.Interpolate | photoview/src/main/java/com/github/chrisbanes/photoview/PhotoViewAttacher.java:955-960 | the animated value is the start value at progress 0 and the end value at progress 1 |
| Gestures.HalfTowardZero | photoview/src/main/java/com/github/chrisbanes/photoview/PhotoViewAttacher.java:652-657 | getRight() / 2 is Java's int division rounding towards zero |
| Gestures.PhotoViewDoubleTapTarget | photoview/src/main/java/com/github/chrisbanes/photoview/PhotoViewAttacher.java:229-237 | the double tap always zooms to one of the two compensated bounds |
| Gestures.DraweeDoubleTapTarget | zoomabledrawee/src/main/java/test/zoomabledrawee/Attacher.java:138-149 | the double tap always zooms either to the compensated minimum or to the double-tap target |
| LevelTable.Put | photoview/src/main/java/com/github/chrisbanes/photoview/PhotoViewAttacher.java:752-758 | SparseArray.put on contiguous keys: the key holds the value, every other key keeps its value, a new key extends the table |
| LevelTable.Overlay | photoview/src/main/java/com/github/chrisbanes/photoview/PhotoViewAttacher.java:596-603 | writing entries from an offset replaces exactly the written keys and never shortens the table |
| LevelTable.OverlayPut | photoview/src/main/java/com/github/chrisbanes/photoview/PhotoViewAttacher.java:596-603 | writing one more entry after a prefix is the same as writing the longer prefix |
| LevelTable.EarlierRejected | photoview/src/main/java/com/github/chrisbanes/photoview/PhotoViewAttacher.java:597-601 | the inner loop finds the first earlier entry that rejects entry i, or reports that none does |
| LevelTable.FirstFailure | photoview/src/main/java/com/github/chrisbanes/photoview/PhotoViewAttacher.java:596-603 | the validation reports the first entry rejected by an earlier one or out of range, with every entry before it accepted, or reports none when all are accepted |
| LevelTable.NoFailureIffValid | photoview/src/main/java/com/github/chrisbanes/photoview/PhotoViewAttacher.java:592-618 | validation passes exactly when the entries are ordered (strictly or not) and, when ranges are checked, all in range |
| LevelTable.OrderedMeaning | photoview/src/main/java/com/github/chrisbanes/photoview/PhotoViewAttacher.java:597-601 | the pairwise rejection test means strictly increasing for photoview and non-decreasing for the drawee table |
| LevelTable.LevelFrom | photoview/src/main/java/com/github/chrisbanes/photoview/PhotoViewAttacher.java:584-590 | the scan from index i returns the last level not above the scale, stopping before the first level above it |
| LevelTable.LevelOf | photoview/src/main/java/com/github/chrisbanes/photoview/PhotoViewAttacher.java:584-590 | getLevelByScale returns -1 .. size-1, every level up to it is at most the scale and the next one is above it |
| LevelTable.LevelOfMonotone | photoview/src/main/java/com/github/chrisbanes/photoview/PhotoViewAttacher.java:584-590 | on an ordered table: -1 exactly below level 0, size-1 exactly at or above the last level, otherwise the greatest level not above the scale |
| EdgeDrag.KeepsParentOutWhenIneligible | photoview/src/main/java/com/github/chrisbanes/photoview/PhotoViewAttacher.java:284-318 | when the parent may not intercept on edges, a scale is running or the touch neither scaled nor dragged, the parent is told to keep out and the latch is kept |
| EdgeDrag.EligibleDecision | photoview/src/main/java/com/github/chrisbanes/photoview/PhotoViewAttacher.java:284-318 | under PARENT_INTERCEPT the touch stream is released exactly when the drag runs against a reached edge, and never claimed; without a rectangle or under another policy nothing is requested |
| EdgeDrag.LifecycleDecision | photoview/src/main/java/com/github/chrisbanes/photoview/PhotoViewAttacher.java:299-311 | under the in-touch-lifecycle policy the latch is set once the content can follow, the stream is claimed exactly on that first drag and released only while the latch is clear |
| EdgeDrag.Arbitrate | photoview/src/main/java/com/github/chrisbanes/photoview/PhotoViewAttacher.java:284-318 | a drag never clears the latch, and sets it only under the in-touch-lifecycle policy together with a claim of the touch stream |
| EdgeDrag.LatchedNeverReleases | photoview/src/main/java/com/github/chrisbanes/photoview/PhotoViewAttacher.java:299-311 | with the latch set, no drag releases the touch stream |
| EdgeDrag.ParentInterceptIgnoresLatch | photoview/src/main/java/com/github/chrisbanes/photoview/PhotoViewAttacher.java:284-298 | under PARENT_INTERCEPT the latch does not affect the request |
| EdgeDrag.DragRun | photoview/src/main/java/com/github/chrisbanes/photoview/PhotoViewAttacher.java:284-318 | a run of drags makes one request per drag, and a latch set before the run is still set after it |
| EdgeDrag.DragRunSplit | photoview/src/main/java/com/github/chrisbanes/photoview/PhotoViewAttacher.java:284-318 | running two sequences of drags one after the other is running their concatenation |
| EdgeDrag.LatchedRunNeverReleases | photoview/src/main/java/com/github/chrisbanes/photoview/PhotoViewAttacher.java:299-311 | from a set latch, no drag of the rest of the touch lifecycle releases the stream and the latch stays set |
| EdgeDrag.NoReleaseAfterClaim | photoview/src/main/java/com/github/chrisbanes/photoview/PhotoViewAttacher.java:299-311 | after any prefix of drags that set the latch, none of the remaining drags releases the touch stream |
| RotationMath.FitCenterSize | photoview/src/main/java/com/github/chrisbanes/photoview/PhotoViewAttacher.java:354-363 | the FIT_CENTER display size keeps the aspect ratio, fits the view and spans its width or its height |
| RotationMath.DisplaySize | photoview/src/main/java/com/github/chrisbanes/photoview/PhotoViewAttacher.java:337-369 | a display size exists exactly for CENTER_INSIDE and FIT_CENTER, and it fits the view |
| RotationMath.TurnedFitCenterFits | photoview/src/main/java/com/github/chrisbanes/photoview/PhotoViewAttacher.java:407-421 | after a quarter turn, the FIT_CENTER content scaled by the step factor fits the view |
| RotationMath.TurnedFits | photoview/src/main/java/com/github/chrisbanes/photoview/PhotoViewAttacher.java:407-418 | for any content that fits and spans one side, the turned content scaled by the step factor fits the view |
| RotationMath.FitCenterTurnFactor | photoview/src/main/java/com/github/chrisbanes/photoview/PhotoViewAttacher.java:407-418 | the FIT_CENTER step factor is positive |
| RotationMath.TurnedCenterInsideFits | photoview/src/main/java/com/github/chrisbanes/photoview/PhotoViewAttacher.java:399-406 | under CENTER_INSIDE the step factor is in (0, 1] and the turned content fits the view |
| RotationMath.RotateScaleFactor | photoview/src/main/java/com/github/chrisbanes/photoview/PhotoViewAttacher.java:397-426 | the step factor is positive, and exactly 1 unless the angle changes by 90 degrees |
| RotationMath.DirectQuarterTurnNotRefit | photoview/src/main/java/com/github/chrisbanes/photoview/PhotoViewAttacher.java:397 | the exact-90 test gives a direct 0 to 270 turn factor 1 while 0 to 90 gives 0.5, for a 100 x 200 picture in a 100 x 200 viewport; at 0.5 the turned picture fits and touches the viewport, at 1 it does not fit |
| RotationMath.FitCenterFactorsCancel | photoview/src/main/java/com/github/chrisbanes/photoview/PhotoViewAttacher.java:419-421 | under FIT_CENTER, turning 90 degrees away from 0 or 180 and back multiplies the scale by 1 in total |
| RotationMath.FitCenterQuarterFactor | photoview/src/main/java/com/github/chrisbanes/photoview/PhotoViewAttacher.java:397-421 | under FIT_CENTER the step factor of a 90-degree change is the turn factor, inverted when leaving 90 or 270 degrees |
| RotationMath.CenterInsideFactorsDoNotCancel | photoview/src/main/java/com/github/chrisbanes/photoview/PhotoViewAttacher.java:399-406 | under CENTER_INSIDE, a 200 × 100 picture in a 200 × 100 view is halved on both the turn and the turn back |
| RotationMath.RotateFactorAsWrittenOvershoots | photoview/src/main/java/com/github/chrisbanes/photoview/PhotoViewAttacher.java:428-431 | as written, clockwise from 90 to 0 degrees the angle is +90, which does not reach 0 degrees |
| RotationMath.RotateFactorAsWritten | photoview/src/main/java/com/github/chrisbanes/photoview/PhotoViewAttacher.java:428-438 | as written, the clockwise angle is never negative, every angle between two of the four angles is a whole number of quarter turns in (-360, 360), and the counter-clockwise one reaches the target |
| RotationMath.RotateFactor | photoview/src/main/java/com/github/chrisbanes/photoview/PhotoViewAttacher.java:428-438 | the corrected angle reaches the target modulo 360, lies in (0, 360) clockwise and in (-360, 0) counter-clockwise, and is a whole number of quarter turns |
| RotationMath.RotateFactorAgreesElsewhere | photoview/src/main/java/com/github/chrisbanes/photoview/PhotoViewAttacher.java:428-438 | the written and corrected angles differ exactly on a clockwise turn to a smaller angle other than by 180 degrees |
| RotationMath.CounterClockwiseQuarterTurns | photoview/src/main/java/com/github/chrisbanes/photoview/PhotoViewAttacher.java:432-438 | counter-clockwise the written angle is -90, -180 or -270 |
| RotationMath.CompensationAsWrittenDrifts | photoview/src/main/java/com/github/chrisbanes/photoview/PhotoViewAttacher.java:453 | as written, for every FIT_CENTER picture whose step factor f is not 1, turning 0 → 90 → 0 degrees from scale 1 leaves the picture at scale 1 but stores compensation 1/f; the corrected compensation is 1 |
| RotationMath.CompensationAsWritten | photoview/src/main/java/com/github/chrisbanes/photoview/PhotoViewAttacher.java:453 | as written, the stored compensation differs from the scale the picture is left at whenever the old compensation is not 1 |
| RotationMath.Compensation | photoview/src/main/java/com/github/chrisbanes/photoview/PhotoViewAttacher.java:444-453 | the corrected compensation (the scale the picture is left at) is positive |
| RotationMath.TurnedSupp | photoview/src/main/java/com/github/chrisbanes/photoview/PhotoViewAttacher.java:444-449 | reset to the compensation, step and quarter turn: the scale becomes the new compensation and the turn adds to the quarter |
| RotationMath.CompensationRoundTrip | photoview/src/main/java/com/github/chrisbanes/photoview/PhotoViewAttacher.java:397-453 | with the corrected compensation, a FIT_CENTER turn from 0 to 90 degrees and back restores the compensation |
| RotationMath.DraweeDisplaySizeAsWrittenOverflows | zoomabledrawee/src/main/java/test/zoomabledrawee/Attacher.java:285-287 | as written, a 300 × 200 image in a 100 × 100 view is reported 150 wide |
| RotationMath.DraweeDisplaySizeAsWrittenCollapses | zoomabledrawee/src/main/java/test/zoomabledrawee/Attacher.java:285-287 | as written, a 400 × 100 image in a 100 × 100 view is reported 0 high |
| RotationMath.DraweeDisplaySizeAsWritten | zoomabledrawee/src/main/java/test/zoomabledrawee/Attacher.java:285-291 | as written, the reported size still spans the view's width or its height |
| RotationMath.DraweeDisplaySize | zoomabledrawee/src/main/java/test/zoomabledrawee/Attacher.java:276-294 | the corrected display size keeps the image's aspect ratio, fits the view and spans its width or its height |
| RotationMath.DraweeScaleValue | zoomabledrawee/src/main/java/test/zoomabledrawee/Attacher.java:311-330 | scaleValue is positive |
| RotationMath.DraweeScaleValueAsWritten | zoomabledrawee/src/main/java/test/zoomabledrawee/Attacher.java:308-330 | as written, a display height of 0 (from the integer division) makes displaySpec infinite, so scaleValue is the inverse view aspect, inverted again for 90 and 270 degrees; the value stays positive |
| RotationMath.DisplayTurnFactor | zoomabledrawee/src/main/java/test/zoomabledrawee/Attacher.java:312-328 | the FIT_CENTER factor from a display size, positive, and the inverse view aspect when the display height is 0 |
| RotationMath.DraweeScaleValueAsWrittenOverflows | zoomabledrawee/src/main/java/test/zoomabledrawee/Attacher.java:285-330 | a 300 × 200 image in a 100 × 200 view: the integer size is 100 × 0, scaleValue is 2 as written against 1.5 in floats, and at 2 the turned picture no longer fits the view while at 1.5 it does |
| RotationMath.NextRotation | zoomabledrawee/src/main/java/test/zoomabledrawee/Attacher.java:346-361 | a clockwise step goes DEGREE_0 → 90 → 180 → 270 → 0, a counter-clockwise one the reverse way |
| RotationMath.NextRotateConfig | zoomabledrawee/src/main/java/test/zoomabledrawee/Attacher.java:346-361 | leaving a rotation, the one entered is one step round clockwise or counter-clockwise; entering 90 or 270 degrees records scaleValue, entering 0 or 180 records SCALE_MIN |
| RotationMath.RotationCycle | zoomabledrawee/src/main/java/test/zoomabledrawee/Attacher.java:346-361 | a step and the opposite step cancel, and four steps the same way return to the start |
| RotationMath.DraweeFactorsCancel | zoomabledrawee/src/main/java/test/zoomabledrawee/Attacher.java:311-330 | the scaleValue from 0 or 180 degrees and the one on the way back multiply to 1 |
| RotationMath.DraweeTurnConsistent | zoomabledrawee/src/main/java/test/zoomabledrawee/Attacher.java:338-361 | from a consistent state, a quarter turn leaves the picture at exactly the compensation it stores, and the new state is consistent again |
| Animation.ZoomStep | photoview/src/main/java/com/github/chrisbanes/photoview/PhotoViewAttacher.java:955-965 | each frame's factor brings the scale to the interpolated value, and is positive for positive scales and t in [0, 1] |
| Animation.InterpolatePositive | photoview/src/main/java/com/github/chrisbanes/photoview/PhotoViewAttacher.java:955-965 | between two positive scales the interpolated scale is positive |
| Animation.RotateRunnable.constructor | photoview/src/main/java/com/github/chrisbanes/photoview/PhotoViewAttacher.java:1045-1052 | the runnable starts at the current scale, ends at resetFactor × stepFactor × current scale, turns about the view's centre, and has turned nothing yet |
| Animation.RotateRunnable.Tick | photoview/src/main/java/com/github/chrisbanes/photoview/PhotoViewAttacher.java:1055-1061 | a frame brings the rotation done so far to t × rotation and its factor brings the scale to the interpolated value |
| Animation.RotateRunnable.Run | photoview/src/main/java/com/github/chrisbanes/photoview/PhotoViewAttacher.java:1055-1073 | over any run of frames the steps add up to the last t × rotation, so a run ending at t = 1 turns by exactly the requested angle |
| PhotoViewAttacher.AnimatedRotationMeetsTurn | photoview/src/main/java/com/github/chrisbanes/photoview/PhotoViewAttacher.java:1045-1057 | the RotateRunnable rotateTo posts (endScale = scaleResetFactor * scaleFactor * startScale, scaleResetFactor = compensation / scale) starts its frames at the current scale and ends them, at t = 1, at the scale of the matrix the immediate turn produces |
| Animation.FlingBounds | photoview/src/main/java/com/github/chrisbanes/photoview/PhotoViewAttacher.java:988-1008 | the start is the content's left (top) offset rounded to the nearest integer; an axis wider than the view scrolls over [0, max] with max ≥ 0, any other axis is pinned at its start |
| Animation.FlingStarts | photoview/src/main/java/com/github/chrisbanes/photoview/PhotoViewAttacher.java:1012-1015 | with the start in range, the scroller starts exactly when some axis still has room towards its far end |
| Animation.FlingStartsInRange | photoview/src/main/java/com/github/chrisbanes/photoview/PhotoViewAttacher.java:988-1016 | after the bounds check, the fling's start lies within its scroll range on both axes |
| Animation.NoFlingFromFarCorner | photoview/src/main/java/com/github/chrisbanes/photoview/PhotoViewAttacher.java:1012-1015 | content scrolled to its bottom-right end has a non-empty range, but no fling is started |
| Animation.FlingRunnable.constructor | photoview/src/main/java/com/github/chrisbanes/photoview/PhotoViewAttacher.java:978-982 | a new runnable's last position is (0, 0) |
| Animation.FlingRunnable.Start | photoview/src/main/java/com/github/chrisbanes/photoview/PhotoViewAttacher.java:1009-1010 | fling records the start of the range as the last position |
| Animation.FlingRunnable.Step | photoview/src/main/java/com/github/chrisbanes/photoview/PhotoViewAttacher.java:1019-1033 | a frame translates by the last position minus the new one and records the new position |
| Animation.FlingRunnable.Follow | photoview/src/main/java/com/github/chrisbanes/photoview/PhotoViewAttacher.java:1019-1033 | over any run of frames the translations add up to the start position minus the final one |
| PhotoViewScaleConfig.ScaleConfig.constructor | photoview/src/main/java/com/github/chrisbanes/photoview/ScaleConfig.java:14-17 | the default table is {0: 1.0, 1: 4.0} |
| PhotoViewScaleConfig.ScaleConfig.SetScaleLevels | photoview/src/main/java/com/github/chrisbanes/photoview/ScaleConfig.java:23-35 | fewer than two entries throw and change nothing; otherwise the outcome is the validation's and the table holds the accepted prefix written over the old one |
| PhotoViewScaleConfig.ScaleConfig.SetScaleLevel | photoview/src/main/java/com/github/chrisbanes/photoview/ScaleConfig.java:37-39 | the static setter puts the value without a range check |
| PhotoViewScaleConfig.ThrowsIffNotIncreasing | photoview/src/main/java/com/github/chrisbanes/photoview/ScaleConfig.java:27-32 | with two or more entries the call throws exactly when the entries are not strictly increasing |
| PhotoViewScaleConfig.OutOfRangeAccepted | photoview/src/main/java/com/github/chrisbanes/photoview/ScaleConfig.java:9-10 | entries outside [0.1, 10] are accepted |
| PhotoViewScaleConfig.FailureKeepsPrefix | photoview/src/main/java/com/github/chrisbanes/photoview/ScaleConfig.java:27-34 | on failure at entry n, entries 0 .. n-1 are already stored and every later key keeps its old value |
| PhotoViewScaleConfig.SuccessOverwritesPrefixOnly | photoview/src/main/java/com/github/chrisbanes/photoview/ScaleConfig.java:33 | after a successful call key i holds entry i, and a shorter call leaves the old last key in place |
| PhotoViewScaleConfig.StaleMaximum | photoview/src/main/java/com/github/chrisbanes/photoview/ScaleConfig.java:38 | after setting four levels and then two, the table still ends with the old maximum 8 |
| DraweeScaleConfig.ScaleConfig.constructor | zoomabledrawee/src/main/java/test/zoomabledrawee/ScaleConfig.java:10-12 | the table starts as {0: SCALE_MIN} |
| DraweeScaleConfig.ScaleConfig.MinScale | zoomabledrawee/src/main/java/test/zoomabledrawee/ScaleConfig.java:18-20 | getMinScale is always SCALE_MIN = 1.0 |
| DraweeScaleConfig.ScaleConfig.MaxScale | zoomabledrawee/src/main/java/test/zoomabledrawee/ScaleConfig.java:22-24 | getMaxScale is a table entry, the largest one when the table is ordered |
| DraweeScaleConfig.ScaleConfig.ScaleAtLevel | zoomabledrawee/src/main/java/test/zoomabledrawee/ScaleConfig.java:26-28 | a level within the table gives its entry; any other gives none (SparseArray.get's null) |
| DraweeScaleConfig.ScaleConfig.GetLevelByScale | zoomabledrawee/src/main/java/test/zoomabledrawee/ScaleConfig.java:30-36 | the scan returns the level of the scale in the table |
| DraweeScaleConfig.ScaleConfig.SetScaleLevels | zoomabledrawee/src/main/java/test/zoomabledrawee/ScaleConfig.java:38-47 | the outcome is the validation's, the accepted prefix is written from key 1 and key 0 stays SCALE_MIN |
| DraweeScaleConfig.ThrowsIffDecreasing | zoomabledrawee/src/main/java/test/zoomabledrawee/ScaleConfig.java:40-43 | the call throws exactly when the entries are not non-decreasing |
| DraweeScaleConfig.EqualLevelsAccepted | zoomabledrawee/src/main/java/test/zoomabledrawee/ScaleConfig.java:41 | equal neighbours are accepted |
| DraweeScaleConfig.EmptyCallChangesNothing | zoomabledrawee/src/main/java/test/zoomabledrawee/ScaleConfig.java:38-47 | an empty call passes and leaves the table unchanged |
| DraweeScaleConfig.SuccessStoresFromLevelOne | zoomabledrawee/src/main/java/test/zoomabledrawee/ScaleConfig.java:45 | after a successful call, level 0 is SCALE_MIN and level i + 1 holds entry i |
| DraweeScaleConfig.FailureKeepsPrefix | zoomabledrawee/src/main/java/test/zoomabledrawee/ScaleConfig.java:39-46 | on failure at entry n, entries 0 .. n-1 are stored at keys 1 .. n, and key 0 and every key past n keep their old values |
| DraweeScaleConfig.BelowMinimumAccepted | zoomabledrawee/src/main/java/test/zoomabledrawee/ScaleConfig.java:38-47 | an entry below SCALE_MIN is accepted, leaving a table that is no longer ordered |
| PhotoViewAttacher.Attacher.constructor | photoview/src/main/java/com/github/chrisbanes/photoview/PhotoViewAttacher.java:152-159 | a new attacher has the identity supplementary matrix, compensation 1, angle 0, both parent flags clear, and the validated level table PhotoView installs |
| PhotoViewAttacher.Attacher.CompensatedMinScale | photoview/src/main/java/com/github/chrisbanes/photoview/PhotoViewAttacher.java:464-466 | the compensated minimum is at least SCALE_VALUE_MIN times the compensation |
| PhotoViewAttacher.Attacher.CompensatedMaxScale | photoview/src/main/java/com/github/chrisbanes/photoview/PhotoViewAttacher.java:468-470 | the compensated maximum is at most SCALE_VALUE_MAX times the compensation |
| PhotoViewAttacher.Attacher.CompensatedScaleAtLevel | photoview/src/main/java/com/github/chrisbanes/photoview/PhotoViewAttacher.java:472-474 | a level within the table gives a value between the compensated range bounds; any other gives none |
| PhotoViewAttacher.Attacher.GetLevelByScale | photoview/src/main/java/com/github/chrisbanes/photoview/PhotoViewAttacher.java:584-590 | the scan returns the level of the scale in the instance table |
| PhotoViewAttacher.Attacher.SetScaleLevels | photoview/src/main/java/com/github/chrisbanes/photoview/PhotoViewAttacher.java:592-618 | fewer than two entries throw and change nothing; otherwise the outcome is the validation's (order and range) and the table holds the accepted prefix written over the old one |
| PhotoViewAttacher.Attacher.SetScaleLevel | photoview/src/main/java/com/github/chrisbanes/photoview/PhotoViewAttacher.java:752-758 | a value outside [0.1, 10] throws and changes nothing; any other is put at the key |
| PhotoViewAttacher.Attacher.CheckMatrixBounds | photoview/src/main/java/com/github/chrisbanes/photoview/PhotoViewAttacher.java:877-923 | without a drawable it reports false and changes nothing; otherwise it applies the scale type's correction of the displayed rectangle, after which the matrix is settled; either way the new matrix is Clamped of the old |
| PhotoViewAttacher.Attacher.Clamped | photoview/src/main/java/com/github/chrisbanes/photoview/PhotoViewAttacher.java:877-923 | the matrix after the bounds check keeps its scale and quarter turn; without a drawable it is unchanged, otherwise its displayed rectangle needs no further correction |
| PhotoViewAttacher.Attacher.GetDisplayRect | photoview/src/main/java/com/github/chrisbanes/photoview/PhotoViewAttacher.java:267-270 | the rectangle returned is the displayed one after the bounds check, the new matrix is Clamped of the old (so a settled matrix is unchanged); scale and angle are unchanged, and every axis larger than the view covers it |
| PhotoViewAttacher.Attacher.HandleEdgeDrag | photoview/src/main/java/com/github/chrisbanes/photoview/PhotoViewAttacher.java:284-318 | the request made and the new latch are the edge-drag arbiter's decision |
| PhotoViewAttacher.Attacher.OnDrag | photoview/src/main/java/com/github/chrisbanes/photoview/PhotoViewAttacher.java:118-130 | while scaling nothing changes; otherwise the matrix is translated by the drag then corrected, keeping the scale, and the parent request is the arbiter's |
| PhotoViewAttacher.Attacher.OnScale | photoview/src/main/java/com/github/chrisbanes/photoview/PhotoViewAttacher.java:140-150 | the factor is applied exactly when the one-sided gate allows it: the matrix becomes the old one scaled by the factor about the focus, then bounds-checked, so the scale is multiplied by the factor; otherwise nothing changes |
| PhotoViewAttacher.Attacher.SetScale | photoview/src/main/java/com/github/chrisbanes/photoview/PhotoViewAttacher.java:659-677 | a scale outside the compensated bounds throws and changes nothing; animate posts a zoom from the current scale about the focus; otherwise the matrix becomes the plain scale about the focus, bounds-checked |
| PhotoViewAttacher.Attacher.SetScaleCentred | photoview/src/main/java/com/github/chrisbanes/photoview/PhotoViewAttacher.java:652-657 | as setScale, with the focus at the integer half of getRight() and getBottom() |
| PhotoViewAttacher.Attacher.OnDoubleTap | photoview/src/main/java/com/github/chrisbanes/photoview/PhotoViewAttacher.java:219-240 | a coordinate of -1 (the value left when reading the event fails) starts nothing; otherwise an animated zoom to the toggle target is posted, and setScale throws exactly when the compensated bounds are inverted |
| PhotoViewAttacher.Attacher.OnSingleTapConfirmed | photoview/src/main/java/com/github/chrisbanes/photoview/PhotoViewAttacher.java:189-217 | the tap result is the single-tap decision on the displayed rectangle, and the matrix is Clamped of the old one by the getDisplayRect bounds check |
| PhotoViewAttacher.Attacher.OnActionDown | photoview/src/main/java/com/github/chrisbanes/photoview/PhotoViewAttacher.java:507-520 | with zoom on and a drawable, the latch is cleared under the in-touch-lifecycle policy and kept under any other, and an existing parent is told to keep out; otherwise nothing happens |
| PhotoViewAttacher.Attacher.OnActionUp | photoview/src/main/java/com/github/chrisbanes/photoview/PhotoViewAttacher.java:521-541 | a zoom back is posted exactly when zoom is on, a drawable exists and the scale is outside the bounds; it targets the nearer bound from the displayed rectangle's centre, and the matrix is then Clamped of the old one; otherwise nothing changes |
| PhotoViewAttacher.Attacher.ZoomFromDisplayRect | photoview/src/main/java/com/github/chrisbanes/photoview/PhotoViewAttacher.java:526-536 | the snap-back zoom: the matrix becomes Clamped of the old one by getDisplayRect, and the zoom runs from the current scale to the target about the corrected rectangle's centre |
| PhotoViewAttacher.Attacher.TrackDetector | photoview/src/main/java/com/github/chrisbanes/photoview/PhotoViewAttacher.java:543-550 | with zoom on and a drawable, the block flag is set exactly when the touch neither scaled nor dragged |
| PhotoViewAttacher.Attacher.ZoomTick | photoview/src/main/java/com/github/chrisbanes/photoview/PhotoViewAttacher.java:955-965 | an applied frame scales the old matrix about the zoom's focus by the frame's step and bounds-checks it, which sets the scale to the interpolated value; a refused one changes nothing |
| PhotoViewAttacher.Attacher.OnFling | photoview/src/main/java/com/github/chrisbanes/photoview/PhotoViewAttacher.java:132-138 | the matrix becomes Clamped of the old one; with a drawable, the scroll range is the fling bounds of the corrected rectangle, its start lies in range and becomes the runnable's position; without one the runnable stays at 0, 0; the scroller starts exactly when the guard passes |
| PhotoViewAttacher.Attacher.FlingTick | photoview/src/main/java/com/github/chrisbanes/photoview/PhotoViewAttacher.java:1019-1033 | a frame translates by the scroller step, then corrects, keeping the scale; the runnable records the new position |
| PhotoViewAttacher.Attacher.StepFactor | photoview/src/main/java/com/github/chrisbanes/photoview/PhotoViewAttacher.java:397-426 | the step factor of an accepted rotation is positive |
| PhotoViewAttacher.Attacher.RotateTo | photoview/src/main/java/com/github/chrisbanes/photoview/PhotoViewAttacher.java:371-454 | the same angle, an unsupported scale type, a zoomed-in picture or a missing drawable change nothing; otherwise the angle and the corrected compensation are stored and either the matrix becomes Clamped of the old one reset to the compensation, scaled by the step factor and turned by the corrected angle (scale equal to the new compensation), or a rotation is posted |
| PhotoViewAttacher.Attacher.Rotate | photoview/src/main/java/com/github/chrisbanes/photoview/PhotoViewAttacher.java:385-453 | past the refusals: the angle is stored, the compensation becomes the old one times the step factor, and the matrix becomes Clamped of the turned matrix (reset, step factor, corrected angle), or a RotateRunnable is posted and the matrix is kept |
| PhotoViewAttacher.Attacher.Turn | photoview/src/main/java/com/github/chrisbanes/photoview/PhotoViewAttacher.java:444-451 | the immediate matrix update: the new matrix is Clamped of the old one reset to the compensation, scaled by the step factor and turned, so its scale is the new compensation and it is settled |
| PhotoViewAttacher.ThrowsIffInvalid | photoview/src/main/java/com/github/chrisbanes/photoview/PhotoViewAttacher.java:592-618 | setScaleLevels throws exactly when the entries are not strictly increasing or one is out of range |
| PhotoViewAttacher.FailedCallLeavesBoundsInverted | photoview/src/main/java/com/github/chrisbanes/photoview/PhotoViewAttacher.java:596-603 | a failed call with [5, 1] over the table [1, 4] leaves [5, 4]: the minimum level now exceeds the maximum |
| DraweeAttacher.Attacher.constructor | zoomabledrawee/src/main/java/test/zoomabledrawee/Attacher.java:75-163 | a new attacher has the identity matrix, compensation 1, angle DEGREE_0, unknown image size, mDoubleTapScale -1 and both parent flags clear |
| DraweeAttacher.Attacher.CompensatedMinScale | zoomabledrawee/src/main/java/test/zoomabledrawee/Attacher.java:173-175 | the compensated minimum is the compensation (the minimum level is SCALE_MIN = 1) |
| DraweeAttacher.Attacher.CompensatedMaxScale | zoomabledrawee/src/main/java/test/zoomabledrawee/Attacher.java:177-179 | on an ordered table the compensated maximum is at least the compensated minimum |
| DraweeAttacher.Attacher.CompensatedScaleAtLevel | zoomabledrawee/src/main/java/test/zoomabledrawee/Attacher.java:181-183 | a level within the table gives its entry times the compensation; any other gives none |
| DraweeAttacher.Attacher.ScaleValue | zoomabledrawee/src/main/java/test/zoomabledrawee/Attacher.java:311-330 | scaleValue in the current state is positive |
| DraweeAttacher.Attacher.CheckMatrixBounds | zoomabledrawee/src/main/java/test/zoomabledrawee/Attacher.java:472-501 | without the view or the image size it reports false and changes nothing; otherwise it applies the centring correction of the displayed rectangle, after which the matrix is settled; either way the new matrix is Clamped of the old |
| DraweeAttacher.Attacher.Clamped | zoomabledrawee/src/main/java/test/zoomabledrawee/Attacher.java:472-501 | the matrix after the bounds check keeps its scale and quarter turn; without the view or the image size it is unchanged, otherwise its displayed rectangle needs no further centring or covering |
| DraweeAttacher.Attacher.GetDisplayRect | zoomabledrawee/src/main/java/test/zoomabledrawee/Attacher.java:437-440 | the rectangle returned is the displayed one after the bounds check, and the new matrix is Clamped of the old; scale and angle are unchanged, and every axis larger than the view covers it |
| DraweeAttacher.Attacher.Update | zoomabledrawee/src/main/java/test/zoomabledrawee/Attacher.java:392-396 | the image size is recorded; while it is unknown the matrix is kept; once known, the matrix becomes the bounds-checked old one, which keeps it as it is without the view |
| DraweeAttacher.Attacher.SetRotateConfig | zoomabledrawee/src/main/java/test/zoomabledrawee/Attacher.java:199-213 | the rotation is recorded; the compensation is replaced except for DEGREE_X, which keeps it |
| DraweeAttacher.Attacher.Rotate90Degrees | zoomabledrawee/src/main/java/test/zoomabledrawee/Attacher.java:296-366 | the early returns and animate change nothing; otherwise the matrix becomes Clamped of the old one reset to the compensation, scaled by scaleValue and turned a quarter, the rotation steps round the cycle, the compensation becomes scaleValue on entering 90 or 270 degrees and SCALE_MIN on entering 0 or 180, and a consistent state stays consistent with the scale at the compensated minimum |
| DraweeAttacher.Attacher.Turn | zoomabledrawee/src/main/java/test/zoomabledrawee/Attacher.java:308-365 | the immediate quarter turn, with the same promise as rotate90Degrees past its early returns, the new matrix included |
| DraweeAttacher.Attacher.TurnMatrix | zoomabledrawee/src/main/java/test/zoomabledrawee/Attacher.java:337-365 | the matrix half of the turn: the new matrix is Clamped of the old one reset to the compensation, scaled by scaleValue and turned, at scale compensation times scaleValue and settled |
| DraweeAttacher.Attacher.ClearScaleEffect | zoomabledrawee/src/main/java/test/zoomabledrawee/Attacher.java:503-528 | from 90 or 270 degrees one turn back ends at DEGREE_0 with compensation SCALE_MIN and the turned-back, clamped matrix unless the turn is refused; from 180 a refused turn changes nothing, otherwise the first turn lands at DEGREE_90 and the second, refused exactly when rotation needs the minimum scale and the old compensation exceeds SCALE_MIN, carries it on to DEGREE_0 and SCALE_MIN, each with its clamped turned matrix; from a consistent state at 90, 180 or 270 the result is DEGREE_0, consistent, at the compensated minimum; DEGREE_0 keeps angle and compensation and resets the matrix to MinimumReset of the old one, DEGREE_X to MinimumReset of the clamped identity (quarter 0) |
| DraweeAttacher.Attacher.TurnBackQuarter | zoomabledrawee/src/main/java/test/zoomabledrawee/Attacher.java:517-526 | from 90 (counter-clockwise) or 270 (clockwise) degrees: a refused turn changes nothing; otherwise DEGREE_0, SCALE_MIN and the turned-back clamped matrix, and a consistent state stays consistent at the compensated minimum |
| DraweeAttacher.Attacher.TurnBackHalf | zoomabledrawee/src/main/java/test/zoomabledrawee/Attacher.java:520-523 | from 180 degrees: a refused turn changes nothing; otherwise DEGREE_90, compensation scaleValue and the clamped half-way matrix when the second turn is refused (rotation only at the minimum scale and old compensation above SCALE_MIN), else DEGREE_0, SCALE_MIN and the clamped matrix turned back twice; a consistent state ends consistent at DEGREE_0 and the compensated minimum |
| DraweeAttacher.Attacher.FinishTurnBack | zoomabledrawee/src/main/java/test/zoomabledrawee/Attacher.java:522 | the second turn back from DEGREE_90, with the scale at c times the compensation: when rotation is allowed at any scale or c is at most SCALE_MIN it reaches DEGREE_0, SCALE_MIN and the clamped turned matrix and keeps a consistent state consistent; otherwise nothing changes |
| DraweeAttacher.Attacher.SecondTurnGate | zoomabledrawee/src/main/java/test/zoomabledrawee/Attacher.java:298-303 | at DEGREE_90 with view, image size and drawable known and the scale at c times the compensation, rotate90Degrees refuses exactly when rotation needs the minimum scale and c exceeds SCALE_MIN |
| DraweeAttacher.Attacher.ResetScale | zoomabledrawee/src/main/java/test/zoomabledrawee/Attacher.java:511-514 | the matrix becomes MinimumReset of the old one |
| DraweeAttacher.Attacher.MinimumReset | zoomabledrawee/src/main/java/test/zoomabledrawee/Attacher.java:507-509 | a valid matrix whose scale is the compensated minimum whenever the matrix is enabled, the view present and min <= max, and whose quarter is the old one or 0; the plain scale about the view centre, clamped, when the scale differed, the old matrix otherwise |
| DraweeAttacher.Attacher.SetScale | zoomabledrawee/src/main/java/test/zoomabledrawee/Attacher.java:238-254 | a disabled matrix or a missing view returns; a scale outside the compensated bounds is ignored silently; animate posts a zoom about the focus; otherwise the matrix becomes the plain scale about the focus, bounds-checked |
| DraweeAttacher.Attacher.SetScaleCentred | zoomabledrawee/src/main/java/test/zoomabledrawee/Attacher.java:229-236 | as setScale, with the focus at the integer half of getRight() and getBottom() |
| DraweeAttacher.Attacher.OnScale | zoomabledrawee/src/main/java/test/zoomabledrawee/Attacher.java:573-584 | the factor is applied exactly when the two-sided gate allows it: the matrix becomes the old one scaled by the factor about the focus, then bounds-checked, so the scale is multiplied by the factor; otherwise nothing changes |
| DraweeAttacher.Attacher.CheckMinScale | zoomabledrawee/src/main/java/test/zoomabledrawee/Attacher.java:558-571 | a zoom back to the compensated minimum, from the displayed rectangle's centre, is posted exactly when the view and image size are known and the scale is below the minimum, and the matrix is then Clamped of the old one; otherwise nothing changes |
| DraweeAttacher.Attacher.ParentTakeOverOnEdge | zoomabledrawee/src/main/java/test/zoomabledrawee/Attacher.java:650-695 | the request made and the new latch are the edge-drag arbiter's decision |
| DraweeAttacher.Attacher.OnDrag | zoomabledrawee/src/main/java/test/zoomabledrawee/Attacher.java:590-596 | while scaling nothing changes; otherwise the matrix becomes Clamped of the old one translated by the drag, keeping the scale, and the parent request is the arbiter's |
| DraweeAttacher.Attacher.OnDoubleTap | zoomabledrawee/src/main/java/test/zoomabledrawee/Attacher.java:133-155 | the tap is consumed exactly when the matrix is enabled; when the event's coordinates cannot be read nothing is posted; otherwise, with the view present, an animated zoom to the toggle target is posted unless that target lies outside the bounds |
| DraweeAttacher.Attacher.OnSingleTapConfirmed | zoomabledrawee/src/main/java/test/zoomabledrawee/Attacher.java:97-131 | no view: not handled; a disabled matrix consumes the tap; otherwise the result is the single-tap decision on the displayed rectangle and the matrix is Clamped of the old one |
| DraweeAttacher.Attacher.OnActionDown | zoomabledrawee/src/main/java/test/zoomabledrawee/Attacher.java:615-625 | with the matrix enabled, the latch is cleared under TAKE_OVER_UNTIL_NEXT_DOWN and kept under any other, and an existing parent is told to keep out; otherwise nothing happens |
| DraweeAttacher.Attacher.TrackDetector | zoomabledrawee/src/main/java/test/zoomabledrawee/Attacher.java:632-641 | with the matrix enabled, the block flag is set exactly when the touch neither scaled nor dragged |
| DraweeAttacher.Attacher.ZoomTick | zoomabledrawee/src/main/java/test/zoomabledrawee/Attacher.java:711-727 | with the view present, an applied frame scales the old matrix about the zoom's focus by the frame's step and bounds-checks it, which sets the scale to the interpolated value; a refused one changes nothing |
| DraweeAttacher.Attacher.OnFling | zoomabledrawee/src/main/java/test/zoomabledrawee/Attacher.java:598-608 | without the view nothing changes; otherwise the matrix becomes Clamped of the old one; with the image size, the scroll range is the fling bounds of the corrected rectangle and its start becomes the runnable's position; without it the runnable stays at 0, 0; the scroller starts exactly when the guard passes |
| DraweeAttacher.Attacher.FlingTick | zoomabledrawee/src/main/java/test/zoomabledrawee/Attacher.java:782-798 | a frame translates by the scroller step without any correction; the runnable records the new position |
| DraweeAttacher.FlingLeavesContentUnsettled | zoomabledrawee/src/main/java/test/zoomabledrawee/Attacher.java:782-798 | a fling frame can leave fitting content off centre, since no bounds check follows it |

## Left out

- Listener callbacks, `invalidate`, `setImageMatrix` and the `WeakReference` to the view are side effects with no logic. The drawee view is an `Option` that is fixed for the attacher's lifetime.
- Gesture recognition is platform code. `GestureDetector`, the scale/drag detector and `MotionEvent` appear only as parameters: drag deltas, pinch factors, tap points, and the detector's scaling/dragging flags.
- The interpolators, the clocks and frame posting are external. The progress `t` is a parameter, and so are the scroller's positions. `OverScroller` physics and `cancelFling` are not modelled.
- `onTouch`'s boolean return value is not modelled. Only its effects on the matrix, the parent and the flags are.
- PhotoView's base matrix (`setRectToRect` for the FIT_* scale types), `update`, `resetMatrix` and `onLayoutChange` are not modelled. The drawable's bounds under the base matrix are an input of `Drawable`.
- The drawee `updateBaseMatrix`/`resetMatrix` is modelled as the bounds check that `Update` performs. That is equivalent because the drawee base rotation stays 0.
- Arbitrary-angle rotation needs sine and cosine, so it is not modelled. This covers `setBaseRotation`, `setRotationTo`/`setRotationBy` with arbitrary degrees, and the matrix effect of each `RotateRunnable` frame. Only the runnable's scale and angle arithmetic is modelled. `DraweeAttacher.Attacher.ClearScaleEffect` treats `setRotationTo(mBaseRotation)` as a reset to the identity, because the base rotation is 0.
- Float rounding, NaN and infinity are not modelled. Every float is an exact `real`. `Math.round` is modelled exactly as floor(x + 1/2).
- The `ArrayIndexOutOfBoundsException` around `getX`/`getY` in PhotoView's `onDoubleTap` is represented by the coordinate -1 the source falls back to. In the drawee `onDoubleTap` the try covers the whole body, so the exception is a parameter, `readable`, of `DraweeAttacher.Attacher.OnDoubleTap`: when it is false nothing is scaled and the tap is still handled.
- `PhotoViewScaleConfig.ScaleConfig.SetScaleLevels` and `LevelTable` model a level table as a sequence with keys 0 to n - 1. `PhotoView.initialize` accepts any caller's `SparseArray`; one with a gap in its keys makes the validation loop unbox a null and throw a null dereference after earlier entries are already put. Tables with gaps cannot be represented, so that failure is not modelled.
- The `(int)` casts of the fling velocities are not modelled, since the velocities only feed the scroller.
- `checkMatrixAndInvalidate` and `checkAndDisplayMatrix` are covered by `CheckMatrixBounds`. They add a view check and a redraw.
- `PhotoViewAttacher.Attacher.constructor`: it requires a table that passes validation, the one `PhotoView.initialize` installs straight after construction. The state between the two calls is not modelled: the table is empty there, and `getMinScale` would fail on a null dereference.
- `PhotoViewAttacher.Attacher.OnScale` and `DraweeAttacher.Attacher.OnScale` require a positive factor. The detector reports a ratio of finger spans.
- `DraweeAttacher.Attacher.Update` requires an image size that is positive or the unknown marker (-1, -1). A Fresco image info never reports anything else.
- `DraweeAttacher.Attacher.SetRotateConfig` requires a positive compensation except for DEGREE_X, where the value is ignored. Every caller in the library passes a positive scale.
- `DraweeAttacher.Attacher.Turn` runs the bounds check before `setRotateConfig`, where the source does it after. The check reads neither the rotation nor the compensation, so the result is the same.
- `PhotoViewAttacher.Attacher.SetScaleCentred` and `DraweeAttacher.Attacher.SetScaleCentred` also stand for the one-argument `setScale(scale)`, which calls them with animate false.
- The settings of both attachers (zoom enabled, scale type, edge policies, the drawee `mEnableDraweeMatrix`, `mAllowRotateInAnyScale`) are fixed for the life of an attacher object. Setters such as `setEnableDraweeMatrix`, which PhotoDraweeView toggles while an image loads, are not modelled; a sequence of calls that spans such a toggle is modelled as two attachers.
- `EdgeDrag.DragRun` holds `mBlockParentIntercept` fixed for the whole run. `onTouch` recomputes it after each event, so a run spanning such an update is modelled as two runs joined by `EdgeDrag.DragRunSplit`.
- The photoview attacher's rotation uses the corrected angle and compensation. The two defects are listed under Findings.
- The drawee rotation uses the corrected display size. The defect is listed under Findings.
- `RotationMath.RotateScaleFactor`: the exact-90 test is modelled as written, with no corrected variant. A direct turn between 0 and 270 degrees is a quarter turn but keeps factor 1, so the picture is not refit (`RotationMath.DirectQuarterTurnNotRefit` shows one case). The source's comment asks for the factor only when the angles differ by 90 degrees, so the model keeps that behaviour rather than guessing at a correction.
- `DraweeAttacher.DraweeFrame.imageBounds`: the hierarchy's actual image bounds are a fixed input of the frame. They do not depend on the image size that `Update` records, so the model does not tie the displayed rectangle to that size.

## Findings

| source | as written | input that shows it | evidently intended | confidence | as-written member | corrected member |
|---|---|---|---|---|---|---|
| photoview/src/main/java/com/github/chrisbanes/photoview/PhotoViewAttacher.java:428-431 | clockwise, `rotateFactor = Math.abs(mCurrentDegree - degree)` | `rotateTo(0, true, false)` at 90 degrees turns +90 degrees to 180 while the attacher records 0 | the positive angle that reaches the target going clockwise: `(degree - current)` modulo 360 | not executed | RotationMath.RotateFactorAsWrittenOvershoots | RotationMath.RotateFactor |
| photoview/src/main/java/com/github/chrisbanes/photoview/PhotoViewAttacher.java:453 | `setRotateConfig(degree, scaleFactor)` stores the step factor alone as the compensation, after the scale was reset to the old compensation and multiplied by that factor | any FIT_CENTER picture whose quarter-turn step factor f is not 1: `rotateTo(90)` then `rotateTo(0)` from scale 1 leaves the picture at scale 1 but stores compensation 1/f, so the compensated bounds no longer match the picture | store the scale the picture is left at, the old compensation times the step factor, as the drawee attacher does | not executed | RotationMath.CompensationAsWrittenDrifts | RotationMath.CompensationRoundTrip |
| zoomabledrawee/src/main/java/test/zoomabledrawee/Attacher.java:285-287 | the image-info sizes are `int`, so `mImageInfoWidth / mImageInfoHeight` and `mImageInfoHeight / mImageInfoWidth` divide as integers | a 300 × 200 image in a 100 × 100 view is reported 150 wide, wider than the view; a 400 × 100 image is reported 0 high; a 300 × 200 image in a 100 × 200 view is reported 100 × 0, so rotate90Degrees scales by 2 instead of 1.5 and the turned picture overflows the view | divide in floats, as the other branch does with `* 1.0f` | not executed | RotationMath.DraweeScaleValueAsWrittenOverflows | RotationMath.DraweeDisplaySize |
