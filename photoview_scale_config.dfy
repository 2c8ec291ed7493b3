/*
 * photoview's ScaleConfig: the default scale-level table that PhotoView hands
 * to its attacher. The static table and its static initialiser are one object
 * and its constructor.
 */
module PhotoViewScaleConfig {
  import opened Wrappers
  import opened LevelTable

  /** SCALE_VALUE_MIN and SCALE_VALUE_MAX; here they are only documentation (see SetScaleLevel). */
  const ScaleValueMin: real := 0.1
  const ScaleValueMax: real := 10.0

  /** The validation setScaleLevels performs: strict order, no range check. */
  function Validation(s: seq<real>): Option<LevelError>
  {
    FirstFailure(true, false, ScaleValueMin, ScaleValueMax, s, 0)
  }

  class ScaleConfig {
    /** sScaleLevels, by key. */
    var levels: seq<real>

    /** The static initialiser: key 0 holds 1.0 and key 1 holds 4.0. */
    constructor()
      ensures levels == [1.0, 4.0]
    {
      levels := [1.0, 4.0];
    }

    /**
     * setScaleLevels(float...): fewer than two entries throw before anything is
     * written; otherwise each entry is checked against every earlier one and put
     * at its own key, so a failure leaves the entries before it stored and the
     * table is never cleared.
     */
    method SetScaleLevels(s: seq<real>) returns (o: Outcome)
      modifies this
      ensures |s| < 2 ==> o == Thrown(TooFewLevels) && levels == old(levels)
      ensures |s| >= 2 ==> o == OutcomeOf(Validation(s)) && levels == Overlay(old(levels), 0, Written(Validation(s), s))
    {
      if |s| < 2 {
        return Thrown(TooFewLevels);
      }
      var i := 0;
      while i < |s|
        invariant 0 <= i <= |s|
        invariant levels == Overlay(old(levels), 0, s[..i])
        invariant Validation(s) == FirstFailure(true, false, ScaleValueMin, ScaleValueMax, s, i)
      {
        var j := 0;
        while j < i
          invariant 0 <= j <= i
          invariant EarlierRejected(true, s, i, 0) == EarlierRejected(true, s, i, j)
        {
          if s[i] <= s[j] {
            assert Validation(s) == Some(Misordered(i, j));
            return Thrown(Misordered(i, j));
          }
          j := j + 1;
        }
        OverlayNext(old(levels), 0, s, i);
        SetScaleLevel(i, s[i]);
        i := i + 1;
      }
      assert s[..i] == s;
      return Ok;
    }

    /** setScaleLevel: a plain put; the [0.1, 10] range is an annotation that nothing enforces. */
    method SetScaleLevel(key: nat, v: real)
      requires key <= |levels|
      modifies this
      ensures levels == Put(old(levels), key, v)
    {
      levels := Put(levels, key, v);
    }
  }

  /** setScaleLevels throws exactly when the entries are too few or not strictly increasing. */
  lemma ThrowsIffNotIncreasing(s: seq<real>)
    requires |s| >= 2
    ensures Validation(s) == None <==> StrictlyIncreasing(s)
  {
    NoFailureIffValid(true, false, ScaleValueMin, ScaleValueMax, s);
    OrderedMeaning(s);
  }

  /** Values outside [SCALE_VALUE_MIN, SCALE_VALUE_MAX] pass: the static setter checks no range. */
  lemma OutOfRangeAccepted()
    ensures Validation([0.05, 20.0]) == None
  {
    assert EarlierRejected(true, [0.05, 20.0], 1, 0) == None;
  }

  /**
   * A failing call is not undone: the entries before the failing one are stored,
   * every other key keeps its value.
   */
  lemma FailureKeepsPrefix(t: seq<real>, s: seq<real>)
    requires Validation(s).Some?
    ensures var n := Validation(s).value.level;
            var u := Overlay(t, 0, Written(Validation(s), s));
            && |u| == (if n <= |t| then |t| else n)
            && u[..n] == s[..n]
            && forall k :: n <= k < |t| ==> u[k] == t[k]
  {
    var n := Validation(s).value.level;
    var u := Overlay(t, 0, Written(Validation(s), s));
    assert Written(Validation(s), s) == s[..n];
    assert u[..n] == s[..n];
  }

  /**
   * A successful call stores every entry at its key, and a shorter table than
   * the one in place leaves the old higher keys, so the last key, which
   * getMaxScale reads, still holds the old maximum.
   */
  lemma SuccessOverwritesPrefixOnly(t: seq<real>, s: seq<real>)
    requires Validation(s) == None
    ensures var u := Overlay(t, 0, Written(Validation(s), s));
            && (forall k :: 0 <= k < |s| ==> u[k] == s[k])
            && (|s| < |t| ==> |u| == |t| && u[|u| - 1] == t[|t| - 1])
  {
  }

  /** The concrete case: {1, 2, 4, 8} followed by {1, 2} still has 8 at its last key. */
  lemma StaleMaximum()
    ensures Overlay(Overlay([1.0, 4.0], 0, [1.0, 2.0, 4.0, 8.0]), 0, [1.0, 2.0]) == [1.0, 2.0, 4.0, 8.0]
  {
    assert Overlay([1.0, 4.0], 0, [1.0, 2.0, 4.0, 8.0]) == [1.0, 2.0, 4.0, 8.0];
  }
}
