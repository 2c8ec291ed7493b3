/*
 * The edge-drag arbiter shared by both attachers (PhotoViewAttacher.handleEdgeDrag
 * and the drawee Attacher.parentTakeOverOnEdge): after a drag it decides whether
 * to ask the parent view to intercept the touch stream, and under the
 * in-touch-lifecycle policy it latches the first "keep the gesture" decision
 * until the next ACTION_DOWN.
 */
module EdgeDrag {
  import opened Wrappers
  import opened Geometry

  /** PARENT_INTERCEPT (TAKE_OVER_ON_EDGE in the drawee attacher). */
  const ParentIntercept: int := 0
  /** PARENT_INTERCEPT_IN_TOUCH_LIFECYCLE (TAKE_OVER_UNTIL_NEXT_DOWN); the default of both attachers. */
  const InTouchLifecycle: int := 1

  /** A call parent.requestDisallowInterceptTouchEvent(disallow), or no call. */
  datatype Request = NoRequest | Request(disallow: bool)

  /** The request a drag makes and the latch mBlockParentTouchEventInLifeCycle after it. */
  datatype Decision = Decision(request: Request, latch: bool)

  /**
   * The drag moves towards an edge that already lies inside the viewport: the
   * content cannot follow, so under PARENT_INTERCEPT the parent may take over.
   * A drag counts only when it exceeds one pixel.
   */
  predicate EdgeReached(rect: Rect, viewWidth: int, viewHeight: int, dx: real, dy: real) {
    || (rect.right < viewWidth as real && dx < -1.0)
    || (rect.bottom < viewHeight as real && dy < -1.0)
    || (rect.left > 0.0 && dx > 1.0)
    || (rect.top > 0.0 && dy > 1.0)
  }

  /** The drag moves towards an edge that still lies outside the viewport: the content can follow. */
  predicate ContentCanFollow(rect: Rect, viewWidth: int, viewHeight: int, dx: real, dy: real) {
    || (rect.right > viewWidth as real && dx < -1.0)
    || (rect.bottom > viewHeight as real && dy < -1.0)
    || (rect.left < 0.0 && dx > 1.0)
    || (rect.top < 0.0 && dy > 1.0)
  }

  /**
   * The arbiter once the parent is known to exist. When the parent may not
   * intercept on edges, a scale gesture is running, or the last touch neither
   * scaled nor dragged, the parent is told to keep out. Otherwise, with the
   * displayed rectangle at hand, PARENT_INTERCEPT releases the touch stream on
   * a drag against a reached edge, and PARENT_INTERCEPT_IN_TOUCH_LIFECYCLE
   * claims the stream once (setting the latch) while the content can follow,
   * and releases it on other drags only while the latch is clear.
   */
  function Arbitrate(allowOnEdge: bool, scaling: bool, blockParentIntercept: bool,
                     rect: Option<Rect>, viewWidth: int, viewHeight: int,
                     dx: real, dy: real, policy: int, latch: bool): (d: Decision)
    ensures latch ==> d.latch
    ensures d.latch && !latch ==> policy == InTouchLifecycle && d.request == Request(true)
  {
    if allowOnEdge && !scaling && !blockParentIntercept then
      match rect
      case None => Decision(NoRequest, latch)
      case Some(r) =>
        if policy == ParentIntercept then
          Decision(if EdgeReached(r, viewWidth, viewHeight, dx, dy) then Request(false) else NoRequest, latch)
        else if policy == InTouchLifecycle then
          if ContentCanFollow(r, viewWidth, viewHeight, dx, dy) then
            if !latch then Decision(Request(true), true) else Decision(NoRequest, latch)
          else if !latch then Decision(Request(false), latch)
          else Decision(NoRequest, latch)
        else Decision(NoRequest, latch)
    else Decision(Request(true), latch)
  }

  /** The parent is told to keep out whenever edge interception is not allowed at this moment. */
  lemma KeepsParentOutWhenIneligible(allowOnEdge: bool, scaling: bool, blockParentIntercept: bool,
                                     rect: Option<Rect>, viewWidth: int, viewHeight: int,
                                     dx: real, dy: real, policy: int, latch: bool)
    requires !allowOnEdge || scaling || blockParentIntercept
    ensures Arbitrate(allowOnEdge, scaling, blockParentIntercept, rect, viewWidth, viewHeight, dx, dy, policy, latch)
            == Decision(Request(true), latch)
  {
  }

  /**
   * When interception is allowed: without a displayed rectangle, or under an
   * unknown policy, nothing is requested; under PARENT_INTERCEPT the stream is
   * released exactly on a drag against a reached edge.
   */
  lemma EligibleDecision(scaling: bool, rect: Option<Rect>, viewWidth: int, viewHeight: int,
                         dx: real, dy: real, policy: int, latch: bool)
    requires !scaling
    ensures var d := Arbitrate(true, scaling, false, rect, viewWidth, viewHeight, dx, dy, policy, latch);
            && (rect.None? || (policy != ParentIntercept && policy != InTouchLifecycle) ==> d == Decision(NoRequest, latch))
            && (rect.Some? && policy == ParentIntercept ==>
                  d.latch == latch && (d.request == Request(false) <==> EdgeReached(rect.value, viewWidth, viewHeight, dx, dy))
                  && d.request != Request(true))
  {
  }

  /**
   * Under PARENT_INTERCEPT_IN_TOUCH_LIFECYCLE, with interception allowed: the
   * child claims the stream exactly on the first drag the content can follow
   * (which sets the latch), and the stream is released exactly on drags the
   * content cannot follow while the latch is clear.
   */
  lemma LifecycleDecision(scaling: bool, rect: Rect, viewWidth: int, viewHeight: int,
                          dx: real, dy: real, latch: bool)
    requires !scaling
    ensures var d := Arbitrate(true, scaling, false, Some(rect), viewWidth, viewHeight, dx, dy, InTouchLifecycle, latch);
            var follow := ContentCanFollow(rect, viewWidth, viewHeight, dx, dy);
            && d.latch == (latch || follow)
            && (d.request == Request(true) <==> !latch && follow)
            && (d.request == Request(false) <==> !latch && !follow)
  {
  }

  /** Under PARENT_INTERCEPT_IN_TOUCH_LIFECYCLE a set latch rules out releasing the touch stream. */
  lemma LatchedNeverReleases(allowOnEdge: bool, scaling: bool, blockParentIntercept: bool,
                             rect: Option<Rect>, viewWidth: int, viewHeight: int,
                             dx: real, dy: real, latch: bool)
    requires latch
    ensures Arbitrate(allowOnEdge, scaling, blockParentIntercept, rect, viewWidth, viewHeight, dx, dy, InTouchLifecycle, latch).request
            != Request(false)
  {
  }

  /** Under PARENT_INTERCEPT the latch is irrelevant: the decision does not depend on it. */
  lemma ParentInterceptIgnoresLatch(allowOnEdge: bool, scaling: bool, blockParentIntercept: bool,
                                    rect: Option<Rect>, viewWidth: int, viewHeight: int,
                                    dx: real, dy: real)
    ensures Arbitrate(allowOnEdge, scaling, blockParentIntercept, rect, viewWidth, viewHeight, dx, dy, ParentIntercept, true).request
            == Arbitrate(allowOnEdge, scaling, blockParentIntercept, rect, viewWidth, viewHeight, dx, dy, ParentIntercept, false).request
  {
  }

  // ---------------------------------------------------------------------------
  // A run of drags within one touch lifecycle
  // ---------------------------------------------------------------------------

  /** One drag: its offsets, the displayed rectangle, and whether a scale gesture is running. */
  datatype Drag = Drag(dx: real, dy: real, rect: Option<Rect>, scaling: bool)

  datatype Run = Run(requests: seq<Request>, latch: bool)

  /**
   * The requests made by a run of drags and the latch after them: one request
   * per drag, and a latch that, once set, stays set. The run holds
   * mBlockParentIntercept fixed, as between two touch events without a scale
   * or drag detector update; onTouch recomputes it per event, which a run
   * spanning such updates is split at (DragRunSplit).
   */
  function DragRun(allowOnEdge: bool, blockParentIntercept: bool, viewWidth: int, viewHeight: int,
                   policy: int, drags: seq<Drag>, latch: bool): (r: Run)
    ensures |r.requests| == |drags|
    ensures latch ==> r.latch
    decreases |drags|
  {
    if |drags| == 0 then Run([], latch)
    else
      var g := drags[0];
      var d := Arbitrate(allowOnEdge, g.scaling, blockParentIntercept, g.rect, viewWidth, viewHeight, g.dx, g.dy, policy, latch);
      var rest := DragRun(allowOnEdge, blockParentIntercept, viewWidth, viewHeight, policy, drags[1..], d.latch);
      Run([d.request] + rest.requests, rest.latch)
  }

  /** A run splits at any point: the second part starts from the latch the first part leaves. */
  lemma {:induction false} DragRunSplit(allowOnEdge: bool, blockParentIntercept: bool, viewWidth: int, viewHeight: int,
                                        policy: int, a: seq<Drag>, b: seq<Drag>, latch: bool)
    ensures var ra := DragRun(allowOnEdge, blockParentIntercept, viewWidth, viewHeight, policy, a, latch);
            var rb := DragRun(allowOnEdge, blockParentIntercept, viewWidth, viewHeight, policy, b, ra.latch);
            DragRun(allowOnEdge, blockParentIntercept, viewWidth, viewHeight, policy, a + b, latch) == Run(ra.requests + rb.requests, rb.latch)
    decreases |a|
  {
    if |a| == 0 {
      assert a + b == b;
      var rb := DragRun(allowOnEdge, blockParentIntercept, viewWidth, viewHeight, policy, b, latch);
      assert [] + rb.requests == rb.requests;
    } else {
      var g := a[0];
      var d := Arbitrate(allowOnEdge, g.scaling, blockParentIntercept, g.rect, viewWidth, viewHeight, g.dx, g.dy, policy, latch);
      assert (a + b)[0] == g && (a + b)[1..] == a[1..] + b;
      var rest := DragRun(allowOnEdge, blockParentIntercept, viewWidth, viewHeight, policy, a[1..] + b, d.latch);
      assert DragRun(allowOnEdge, blockParentIntercept, viewWidth, viewHeight, policy, a + b, latch)
          == Run([d.request] + rest.requests, rest.latch);
      DragRunSplit(allowOnEdge, blockParentIntercept, viewWidth, viewHeight, policy, a[1..], b, d.latch);
      var ra' := DragRun(allowOnEdge, blockParentIntercept, viewWidth, viewHeight, policy, a[1..], d.latch);
      var rb := DragRun(allowOnEdge, blockParentIntercept, viewWidth, viewHeight, policy, b, ra'.latch);
      assert DragRun(allowOnEdge, blockParentIntercept, viewWidth, viewHeight, policy, a, latch)
          == Run([d.request] + ra'.requests, ra'.latch);
      AppendAssociates([d.request], ra'.requests, rb.requests);
      assert rest == Run(ra'.requests + rb.requests, rb.latch);
    }
  }

  lemma AppendAssociates(x: seq<Request>, y: seq<Request>, z: seq<Request>)
    ensures x + (y + z) == (x + y) + z
  {
  }

  /**
   * Under PARENT_INTERCEPT_IN_TOUCH_LIFECYCLE, once the latch is set no later
   * drag of the same touch lifecycle releases the touch stream, and the latch
   * stays set.
   */
  lemma {:induction false} LatchedRunNeverReleases(allowOnEdge: bool, blockParentIntercept: bool, viewWidth: int, viewHeight: int,
                                                   drags: seq<Drag>, latch: bool)
    requires latch
    ensures var r := DragRun(allowOnEdge, blockParentIntercept, viewWidth, viewHeight, InTouchLifecycle, drags, latch);
            r.latch && Request(false) !in r.requests
    decreases |drags|
  {
    if |drags| > 0 {
      var g := drags[0];
      LatchedNeverReleases(allowOnEdge, g.scaling, blockParentIntercept, g.rect, viewWidth, viewHeight, g.dx, g.dy, latch);
      LatchedRunNeverReleases(allowOnEdge, blockParentIntercept, viewWidth, viewHeight, drags[1..], latch);
    }
  }

  /**
   * Within a touch lifecycle: after any prefix of drags that set the latch, the
   * remaining drags never release the touch stream.
   */
  lemma NoReleaseAfterClaim(allowOnEdge: bool, blockParentIntercept: bool, viewWidth: int, viewHeight: int,
                            a: seq<Drag>, b: seq<Drag>, latch: bool)
    requires DragRun(allowOnEdge, blockParentIntercept, viewWidth, viewHeight, InTouchLifecycle, a, latch).latch
    ensures var all := DragRun(allowOnEdge, blockParentIntercept, viewWidth, viewHeight, InTouchLifecycle, a + b, latch);
            forall i :: |a| <= i < |all.requests| ==> all.requests[i] != Request(false)
  {
    var ra := DragRun(allowOnEdge, blockParentIntercept, viewWidth, viewHeight, InTouchLifecycle, a, latch);
    DragRunSplit(allowOnEdge, blockParentIntercept, viewWidth, viewHeight, InTouchLifecycle, a, b, latch);
    LatchedRunNeverReleases(allowOnEdge, blockParentIntercept, viewWidth, viewHeight, b, ra.latch);
    var rb := DragRun(allowOnEdge, blockParentIntercept, viewWidth, viewHeight, InTouchLifecycle, b, ra.latch);
    forall i | |a| <= i < |a| + |b|
      ensures (ra.requests + rb.requests)[i] != Request(false)
    {
      assert (ra.requests + rb.requests)[i] == rb.requests[i - |a|];
      assert rb.requests[i - |a|] in rb.requests;
    }
  }
}
