/*
 * zoomabledrawee's ScaleConfig: the static scale-level table the drawee
 * attacher reads. Key 0 is fixed at SCALE_MIN by the static initialiser and
 * setScaleLevels writes the levels it is given from key 1 on.
 */
module DraweeScaleConfig {
  import opened Wrappers
  import opened LevelTable

  /** SCALE_MIN */
  const ScaleMin: real := 1.0

  /** The validation setScaleLevels performs: later entries must not be smaller; no length or range check. */
  function Validation(s: seq<real>): Option<LevelError>
  {
    FirstFailure(false, false, 0.0, 0.0, s, 0)
  }

  class ScaleConfig {
    /** sScaleLevels, by key. */
    var levels: seq<real>

    /** Key 0 always holds SCALE_MIN. */
    predicate Valid()
      reads this
    {
      |levels| >= 1 && levels[0] == ScaleMin
    }

    /** The static initialiser: key 0 holds SCALE_MIN. */
    constructor()
      ensures Valid() && levels == [ScaleMin]
    {
      levels := [ScaleMin];
    }

    /** getMinScale(): key 0, which no writer touches. */
    function MinScale(): (r: real)
      requires Valid()
      reads this
      ensures r == ScaleMin
    {
      levels[0]
    }

    /** getMaxScale(): the last key; on an ordered table no level exceeds it. */
    function MaxScale(): (r: real)
      requires Valid()
      reads this
      ensures r in levels
      ensures NonDecreasing(levels) ==> forall k :: 0 <= k < |levels| ==> levels[k] <= r
    {
      levels[|levels| - 1]
    }

    /** getScaleAtLevel(level): SparseArray.get yields null for a missing key, and unboxing it throws. */
    function ScaleAtLevel(level: int): (r: Option<real>)
      reads this
      ensures r.Some? <==> 0 <= level < |levels|
      ensures r.Some? ==> r.value == levels[level]
    {
      if 0 <= level < |levels| then Some(levels[level]) else None
    }

    /** getLevelByScale(scale): the scan over the keys with its early return. */
    method GetLevelByScale(scale: real) returns (level: int)
      ensures level == LevelOf(levels, scale)
    {
      var i := 0;
      while i < |levels|
        invariant 0 <= i <= |levels|
        invariant LevelOf(levels, scale) == LevelFrom(levels, scale, i)
      {
        if scale >= levels[i] {
          i := i + 1;
          continue;
        }
        return i - 1;
      }
      return |levels| - 1;
    }

    /**
     * setScaleLevels(float...): entry i is checked against every earlier entry
     * and put at key i + 1; a failure leaves the entries before it stored.
     * Key 0 is never written, so the minimum stays SCALE_MIN.
     */
    method SetScaleLevels(s: seq<real>) returns (o: Outcome)
      requires Valid()
      modifies this
      ensures Valid()
      ensures o == OutcomeOf(Validation(s))
      ensures levels == Overlay(old(levels), 1, Written(Validation(s), s))
    {
      var i := 0;
      while i < |s|
        invariant 0 <= i <= |s|
        invariant levels == Overlay(old(levels), 1, s[..i])
        invariant Validation(s) == FirstFailure(false, false, 0.0, 0.0, s, i)
      {
        var j := 0;
        while j < i
          invariant 0 <= j <= i
          invariant EarlierRejected(false, s, i, 0) == EarlierRejected(false, s, i, j)
        {
          if s[i] < s[j] {
            assert Validation(s) == Some(Misordered(i, j));
            return Thrown(Misordered(i, j));
          }
          j := j + 1;
        }
        OverlayNext(old(levels), 1, s, i);
        levels := Put(levels, 1 + i, s[i]);
        i := i + 1;
      }
      assert s[..i] == s;
      return Ok;
    }
  }

  /** setScaleLevels throws exactly when some entry is smaller than an earlier one; equal entries pass. */
  lemma ThrowsIffDecreasing(s: seq<real>)
    ensures Validation(s) == None <==> NonDecreasing(s)
  {
    NoFailureIffValid(false, false, 0.0, 0.0, s);
    OrderedMeaning(s);
  }

  lemma EqualLevelsAccepted()
    ensures Validation([2.0, 2.0]) == None
  {
    assert EarlierRejected(false, [2.0, 2.0], 1, 0) == None;
  }

  /** With no entries nothing is checked and nothing is written. */
  lemma EmptyCallChangesNothing(t: seq<real>)
    requires |t| >= 1
    ensures Validation([]) == None
    ensures Overlay(t, 1, Written(Validation([]), [])) == t
  {
    OverlayNothing(t, 1);
  }

  /** After a successful call, level i + 1 holds entry i, and level 0 still holds SCALE_MIN. */
  lemma SuccessStoresFromLevelOne(t: seq<real>, s: seq<real>)
    requires |t| >= 1 && t[0] == ScaleMin && Validation(s) == None
    ensures var u := Overlay(t, 1, Written(Validation(s), s));
            u[0] == ScaleMin && forall i :: 0 <= i < |s| ==> u[i + 1] == s[i]
  {
  }

  /**
   * A failing call is not undone: levels 1..n hold the entries before the
   * failing entry n, and every other key keeps its value.
   */
  lemma FailureKeepsPrefix(t: seq<real>, s: seq<real>)
    requires |t| >= 1 && Validation(s).Some?
    ensures var n := Validation(s).value.level;
            var u := Overlay(t, 1, Written(Validation(s), s));
            && (forall i :: 0 <= i < n ==> u[i + 1] == s[i])
            && (forall k :: k == 0 || n + 1 <= k < |t| ==> u[k] == t[k])
  {
    assert Written(Validation(s), s) == s[..Validation(s).value.level];
  }

  /**
   * The entries are never compared with level 0, so a level below SCALE_MIN is
   * accepted and the table stops being ordered.
   */
  lemma BelowMinimumAccepted()
    ensures Validation([0.5]) == None
    ensures Overlay([ScaleMin], 1, [0.5]) == [ScaleMin, 0.5]
    ensures !NonDecreasing(Overlay([ScaleMin], 1, [0.5]))
  {
    var u := Overlay([ScaleMin], 1, [0.5]);
    assert u == [ScaleMin, 0.5];
    assert u[0] > u[1];
  }
}
