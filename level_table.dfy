/*
 * Scale-level tables. Each table is an android.util.SparseArray<Float> whose
 * keys, as every writer in the library fills them, are always 0..size-1, so a
 * table is the sequence of its values by key. This module holds the
 * specification the table writers and readers are proved against.
 */
module LevelTable {
  import opened Wrappers

  /** Why a setScaleLevels call threw IllegalArgumentException. */
  datatype LevelError =
    | TooFewLevels                          // "At least two levels are required"
    | Misordered(level: nat, earlier: nat)  // entry `level` is not acceptable after entry `earlier`
    | OutOfRange(level: nat)                // entry `level` lies outside [SCALE_VALUE_MIN, SCALE_VALUE_MAX]

  datatype Outcome = Ok | Thrown(error: LevelError)

  // ---------------------------------------------------------------------------
  // Writing
  // ---------------------------------------------------------------------------

  /** SparseArray.put(key, v) on a table whose keys are 0..|t|-1: overwrite, or append at key |t|. */
  function Put(t: seq<real>, key: nat, v: real): (r: seq<real>)
    requires key <= |t|
    ensures |r| == if key == |t| then |t| + 1 else |t|
    ensures r[key] == v
    ensures forall i :: 0 <= i < |t| && i != key ==> r[i] == t[i]
  {
    if key == |t| then t + [v] else t[key := v]
  }

  /**
   * The table t after p[0], p[1], ... have been put at keys offset, offset+1, ...
   * Nothing is removed: keys of t beyond the written range keep their values.
   */
  function Overlay(t: seq<real>, offset: nat, p: seq<real>): (r: seq<real>)
    requires offset <= |t|
    ensures |r| == if offset + |p| <= |t| then |t| else offset + |p|
    ensures forall i :: 0 <= i < |r| ==> r[i] == if offset <= i < offset + |p| then p[i - offset] else t[i]
  {
    if offset + |p| <= |t| then t[..offset] + p + t[offset + |p|..] else t[..offset] + p
  }

  lemma OverlayNothing(t: seq<real>, offset: nat)
    requires offset <= |t|
    ensures Overlay(t, offset, []) == t
  {
  }

  /** One more put after an overlay extends the overlay by that value. */
  lemma OverlayPut(t: seq<real>, offset: nat, p: seq<real>, v: real)
    requires offset <= |t|
    ensures offset + |p| <= |Overlay(t, offset, p)|
    ensures Put(Overlay(t, offset, p), offset + |p|, v) == Overlay(t, offset, p + [v])
  {
    var a := Put(Overlay(t, offset, p), offset + |p|, v);
    var b := Overlay(t, offset, p + [v]);
    assert |a| == |b|;
    forall i | 0 <= i < |a| ensures a[i] == b[i] {
      if i == offset + |p| {
      } else if offset <= i < offset + |p| {
        assert (p + [v])[i - offset] == p[i - offset];
      }
    }
  }

  /** Putting entry i of s after entries 0 .. i-1 have been put extends the overlay to entries 0 .. i. */
  lemma OverlayNext(t: seq<real>, offset: nat, s: seq<real>, i: nat)
    requires offset <= |t| && i < |s|
    ensures offset + i <= |Overlay(t, offset, s[..i])|
    ensures Put(Overlay(t, offset, s[..i]), offset + i, s[i]) == Overlay(t, offset, s[..i + 1])
  {
    OverlayPut(t, offset, s[..i], s[i]);
    assert s[..i] + [s[i]] == s[..i + 1];
  }

  // ---------------------------------------------------------------------------
  // Validation
  // ---------------------------------------------------------------------------

  /**
   * The test of the inner validation loop: the later entry is refused after the
   * earlier one. The photoview tables refuse anything not strictly greater
   * (strict); the drawee table refuses only a strictly smaller entry.
   */
  predicate Rejects(strict: bool, later: real, earlier: real) {
    if strict then later <= earlier else later < earlier
  }

  /** No entry is refused after any earlier entry. */
  predicate Ordered(strict: bool, s: seq<real>) {
    forall j, i :: 0 <= j < i < |s| ==> !Rejects(strict, s[i], s[j])
  }

  predicate StrictlyIncreasing(t: seq<real>) {
    forall j, i :: 0 <= j < i < |t| ==> t[j] < t[i]
  }

  predicate NonDecreasing(t: seq<real>) {
    forall j, i :: 0 <= j < i < |t| ==> t[j] <= t[i]
  }

  lemma OrderedMeaning(s: seq<real>)
    ensures Ordered(true, s) <==> StrictlyIncreasing(s)
    ensures Ordered(false, s) <==> NonDecreasing(s)
  {
  }

  /** The range check of PhotoViewAttacher.setScaleLevel. */
  predicate InRange(v: real, lo: real, hi: real) {
    !(v < lo || v > hi)
  }

  /**
   * The inner loop for entry i, from j on: the first earlier index in j..i-1
   * whose entry refuses s[i], if any.
   */
  function EarlierRejected(strict: bool, s: seq<real>, i: nat, j: nat): (r: Option<nat>)
    requires j <= i < |s|
    ensures r.None? ==> forall k :: j <= k < i ==> !Rejects(strict, s[i], s[k])
    ensures r.Some? ==> j <= r.value < i && Rejects(strict, s[i], s[r.value])
                        && forall k :: j <= k < r.value ==> !Rejects(strict, s[i], s[k])
    decreases i - j
  {
    if j == i then None
    else if Rejects(strict, s[i], s[j]) then Some(j)
    else EarlierRejected(strict, s, i, j + 1)
  }

  /** No entry before n refuses s[n]. */
  predicate NoEarlierRejects(strict: bool, s: seq<real>, n: nat)
    requires n < |s|
  {
    forall k :: 0 <= k < n ==> !Rejects(strict, s[n], s[k])
  }

  /** Entry n passes both checks the loops make on it. */
  predicate Accepted(strict: bool, checkRange: bool, lo: real, hi: real, s: seq<real>, n: nat)
    requires n < |s|
  {
    NoEarlierRejects(strict, s, n) && (checkRange ==> InRange(s[n], lo, hi))
  }

  /**
   * The outer validation loop from entry i on: the error the first failing entry
   * throws. checkRange adds the range check PhotoViewAttacher.setScaleLevel makes
   * after the inner loop for each entry.
   */
  function FirstFailure(strict: bool, checkRange: bool, lo: real, hi: real, s: seq<real>, i: nat): (r: Option<LevelError>)
    requires i <= |s|
    ensures r.None? ==> forall n :: i <= n < |s| ==> Accepted(strict, checkRange, lo, hi, s, n)
    ensures r.Some? ==> r.value.Misordered? || (checkRange && r.value.OutOfRange?)
    ensures r.Some? ==> i <= r.value.level < |s|
    ensures r.Some? && r.value.Misordered? ==>
      var e := r.value;
      e.earlier < e.level && Rejects(strict, s[e.level], s[e.earlier])
      && forall k :: 0 <= k < e.earlier ==> !Rejects(strict, s[e.level], s[k])
    ensures r.Some? && r.value.OutOfRange? ==>
      NoEarlierRejects(strict, s, r.value.level) && !InRange(s[r.value.level], lo, hi)
    ensures r.Some? ==> forall n :: i <= n < r.value.level ==> Accepted(strict, checkRange, lo, hi, s, n)
    decreases |s| - i
  {
    if i == |s| then None
    else match EarlierRejected(strict, s, i, 0)
      case Some(j) => Some(Misordered(i, j))
      case None =>
        if checkRange && !InRange(s[i], lo, hi) then Some(OutOfRange(i))
        else FirstFailure(strict, checkRange, lo, hi, s, i + 1)
  }

  /** A call passes validation exactly when the entries are ordered and, where checked, in range. */
  lemma {:induction false} NoFailureIffValid(strict: bool, checkRange: bool, lo: real, hi: real, s: seq<real>)
    ensures FirstFailure(strict, checkRange, lo, hi, s, 0).None? <==>
            Ordered(strict, s) && (checkRange ==> forall n :: 0 <= n < |s| ==> InRange(s[n], lo, hi))
  {
    var r := FirstFailure(strict, checkRange, lo, hi, s, 0);
    if r.Some? {
      var e := r.value;
      if e.Misordered? {
        assert Rejects(strict, s[e.level], s[e.earlier]);
      } else {
        assert !InRange(s[e.level], lo, hi);
      }
    } else {
      forall j, i | 0 <= j < i < |s| ensures !Rejects(strict, s[i], s[j]) {
        assert Accepted(strict, checkRange, lo, hi, s, i);
      }
      forall n | 0 <= n < |s| && checkRange ensures InRange(s[n], lo, hi) {
        assert Accepted(strict, checkRange, lo, hi, s, n);
      }
    }
  }

  /** The entries a setScaleLevels call stores before it returns or throws. */
  function Written(r: Option<LevelError>, s: seq<real>): seq<real>
    requires r.Some? ==> !r.value.TooFewLevels? && r.value.level < |s|
  {
    match r
    case None => s
    case Some(_) => s[..r.value.level]
  }

  /** What the call returns: normally, or by throwing the first failure. */
  function OutcomeOf(r: Option<LevelError>): Outcome {
    match r
    case None => Ok
    case Some(e) => Thrown(e)
  }

  // ---------------------------------------------------------------------------
  // Reading
  // ---------------------------------------------------------------------------

  /**
   * The scan of getLevelByScale from key i on: it steps over every entry the
   * scale reaches and answers the key before the first entry it does not reach,
   * or the last key when it reaches them all.
   */
  function LevelFrom(t: seq<real>, scale: real, i: nat): (r: int)
    requires i <= |t|
    ensures i - 1 <= r < |t|
    ensures forall k :: i <= k <= r ==> t[k] <= scale
    ensures r < |t| - 1 ==> scale < t[r + 1]
    decreases |t| - i
  {
    if i == |t| then |t| - 1
    else if scale >= t[i] then LevelFrom(t, scale, i + 1)
    else i - 1
  }

  /** getLevelByScale(scale) on table t. */
  function LevelOf(t: seq<real>, scale: real): (r: int)
    ensures -1 <= r < |t|
    ensures forall k :: 0 <= k <= r ==> t[k] <= scale
    ensures r < |t| - 1 ==> scale < t[r + 1]
  {
    LevelFrom(t, scale, 0)
  }

  /**
   * On a non-decreasing table the level is -1 below the first entry, the last
   * key at or above the last entry, and otherwise the greatest key whose entry
   * the scale reaches.
   */
  lemma LevelOfMonotone(t: seq<real>, scale: real)
    requires |t| > 0 && NonDecreasing(t)
    ensures scale < t[0] <==> LevelOf(t, scale) == -1
    ensures scale >= t[|t| - 1] <==> LevelOf(t, scale) == |t| - 1
    ensures LevelOf(t, scale) >= 0 ==> t[LevelOf(t, scale)] <= scale
    ensures forall k :: LevelOf(t, scale) < k < |t| ==> scale < t[k]
  {
    var r := LevelOf(t, scale);
    if r < |t| - 1 {
      assert scale < t[r + 1];
      forall k | r < k < |t| ensures scale < t[k] {
        assert t[r + 1] <= t[k];
      }
    }
  }
}
