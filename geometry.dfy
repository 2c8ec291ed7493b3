/*
 * Plane geometry shared by both attachers: android.graphics.RectF, the part of
 * android.graphics.Matrix that the attachers use on the supplementary matrix,
 * the bounds correction of checkMatrixBounds and Math.round.
 */
module Geometry {

  /** android.graphics.RectF: left, top, right, bottom in view pixels (y grows downwards). */
  datatype Rect = Rect(left: real, top: real, right: real, bottom: real) {
    predicate Sorted() { left <= right && top <= bottom }
    function Width(): real { right - left }
    function Height(): real { bottom - top }
    function CenterX(): real { (left + right) / 2.0 }
    function CenterY(): real { (top + bottom) / 2.0 }

    /** RectF.offset */
    function Offset(dx: real, dy: real): Rect {
      Rect(left + dx, top + dy, right + dx, bottom + dy)
    }

    /** RectF.contains(x, y): the rectangle is non-empty and the point lies in [left, right) x [top, bottom). */
    predicate Contains(x: real, y: real) {
      left < right && top < bottom && left <= x < right && top <= y < bottom
    }
  }

  // ---------------------------------------------------------------------------
  // General 2x3 affine matrices, laid out as android.graphics.Matrix keeps them:
  //   x' = scaleX * x + skewX * y + transX
  //   y' = skewY  * x + scaleY * y + transY
  // ---------------------------------------------------------------------------

  datatype Affine = Affine(scaleX: real, skewX: real, transX: real,
                           skewY: real, scaleY: real, transY: real)

  /** The matrix product a * b: apply b first, then a. Matrix.postXxx(op) turns m into Concat(op, m). */
  function Concat(a: Affine, b: Affine): Affine {
    Affine(Mul(a.scaleX, b.scaleX) + Mul(a.skewX, b.skewY),
           Mul(a.scaleX, b.skewX) + Mul(a.skewX, b.scaleY),
           Mul(a.scaleX, b.transX) + Mul(a.skewX, b.transY) + a.transX,
           Mul(a.skewY, b.scaleX) + Mul(a.scaleY, b.skewY),
           Mul(a.skewY, b.skewX) + Mul(a.scaleY, b.scaleY),
           Mul(a.skewY, b.transX) + Mul(a.scaleY, b.transY) + a.transY)
  }

  /** Real multiplication under a name, so that equal factors give equal products without arithmetic. */
  function Mul(a: real, b: real): real { a * b }

  function Translation(dx: real, dy: real): Affine {
    Affine(1.0, 0.0, dx, 0.0, 1.0, dy)
  }

  /** Uniform scaling by f about the pivot (px, py), as Matrix.setScale(f, f, px, py) builds it. */
  function ScaleAbout(f: real, px: real, py: real): Affine {
    Affine(f, 0.0, px - f * px, 0.0, f, py - f * py)
  }

  /** Cosine and sine of q quarter turns (q in 0..3). */
  function QuarterCos(q: int): real requires 0 <= q < 4 {
    if q == 0 then 1.0 else if q == 2 then -1.0 else 0.0
  }

  function QuarterSin(q: int): real requires 0 <= q < 4 {
    if q == 1 then 1.0 else if q == 3 then -1.0 else 0.0
  }

  /** Matrix.setRotate(90 * q): with y pointing down, a positive angle turns clockwise on screen. */
  function QuarterRotation(q: int): Affine requires 0 <= q < 4 {
    Affine(QuarterCos(q), -QuarterSin(q), 0.0, QuarterSin(q), QuarterCos(q), 0.0)
  }

  function MapX(m: Affine, x: real, y: real): real { Mul(m.scaleX, x) + Mul(m.skewX, y) + m.transX }
  function MapY(m: Affine, x: real, y: real): real { Mul(m.skewY, x) + Mul(m.scaleY, y) + m.transY }

  function Min4(a: real, b: real, c: real, d: real): real {
    var ab := if a <= b then a else b;
    var cd := if c <= d then c else d;
    if ab <= cd then ab else cd
  }

  function Max4(a: real, b: real, c: real, d: real): real {
    var ab := if a >= b then a else b;
    var cd := if c >= d then c else d;
    if ab >= cd then ab else cd
  }

  /** Matrix.mapRect: the bounding box of the images of the four corners. */
  function BoundingBox(m: Affine, r: Rect): Rect {
    Rect(Min4(MapX(m, r.left, r.top), MapX(m, r.right, r.top), MapX(m, r.left, r.bottom), MapX(m, r.right, r.bottom)),
         Min4(MapY(m, r.left, r.top), MapY(m, r.right, r.top), MapY(m, r.left, r.bottom), MapY(m, r.right, r.bottom)),
         Max4(MapX(m, r.left, r.top), MapX(m, r.right, r.top), MapX(m, r.left, r.bottom), MapX(m, r.right, r.bottom)),
         Max4(MapY(m, r.left, r.top), MapY(m, r.right, r.top), MapY(m, r.left, r.bottom), MapY(m, r.right, r.bottom)))
  }

  // ---------------------------------------------------------------------------
  // The supplementary matrix. Every operation the attachers apply to it (other
  // than rotation by an arbitrary angle) keeps it of the form
  //   p |-> scale * R(quarter) p + (tx, ty)
  // so it is kept in that form; ToAffine gives the matrix it stands for.
  // ---------------------------------------------------------------------------

  datatype Supp = Supp(scale: real, quarter: int, tx: real, ty: real) {
    predicate Valid() { scale > 0.0 && 0 <= quarter < 4 }
  }

  const Identity: Supp := Supp(1.0, 0, 0.0, 0.0)

  /** The matrix a Supp stands for: scale times the rotation by quarter quarter turns, then the translation. */
  function ToAffine(m: Supp): Affine requires m.Valid() {
    var s := m.scale;
    if m.quarter == 0 then Affine(s, 0.0, m.tx, 0.0, s, m.ty)
    else if m.quarter == 1 then Affine(0.0, -s, m.tx, s, 0.0, m.ty)
    else if m.quarter == 2 then Affine(-s, 0.0, m.tx, 0.0, -s, m.ty)
    else Affine(0.0, s, m.tx, -s, 0.0, m.ty)
  }

  /**
   * getScale(): sqrt(MSCALE_X^2 + MSKEW_Y^2) of the matrix. For a matrix of
   * this form that square root is exactly its scale.
   */
  function GetScale(m: Supp): (r: real)
    requires m.Valid()
    ensures r > 0.0
  {
    m.scale
  }

  /** The square of getScale() is MSCALE_X^2 + MSKEW_Y^2 of the matrix the Supp stands for. */
  lemma GetScaleIsMatrixScale(m: Supp)
    requires m.Valid()
    ensures GetScale(m) * GetScale(m) == ToAffine(m).scaleX * ToAffine(m).scaleX + ToAffine(m).skewY * ToAffine(m).skewY
  {
    var s := m.scale;
    if m.quarter == 0 || m.quarter == 2 {
      assert ToAffine(m).scaleX * ToAffine(m).scaleX == s * s;
    } else {
      assert ToAffine(m).skewY * ToAffine(m).skewY == s * s;
    }
  }

  /** Matrix.postTranslate(dx, dy) */
  function PostTranslate(m: Supp, dx: real, dy: real): (r: Supp)
    requires m.Valid()
    ensures r.Valid() && GetScale(r) == GetScale(m) && r.quarter == m.quarter
  {
    Supp(m.scale, m.quarter, m.tx + dx, m.ty + dy)
  }

  lemma PostTranslateIsProduct(m: Supp, dx: real, dy: real)
    requires m.Valid()
    ensures ToAffine(PostTranslate(m, dx, dy)) == Concat(Translation(dx, dy), ToAffine(m))
  {
  }

  /** Matrix.postScale(f, f, px, py); the gesture detectors and animations only produce positive factors. */
  function PostScale(m: Supp, f: real, px: real, py: real): (r: Supp)
    requires m.Valid() && f > 0.0
    ensures r.Valid() && GetScale(r) == f * GetScale(m) && r.quarter == m.quarter
  {
    Supp(m.scale * f, m.quarter, f * (m.tx - px) + px, f * (m.ty - py) + py)
  }

  lemma PostScaleIsProduct(m: Supp, f: real, px: real, py: real)
    requires m.Valid() && f > 0.0
    ensures ToAffine(PostScale(m, f, px, py)) == Concat(ScaleAbout(f, px, py), ToAffine(m))
  {
    var a := ToAffine(m);
    ScaleAboutProduct(f, px, py, a);
    NegatedProduct(f, m.scale);
  }

  /** Scaling about a pivot after any matrix multiplies its linear part by f and moves its translation towards the pivot. */
  lemma ScaleAboutProduct(f: real, px: real, py: real, a: Affine)
    ensures Concat(ScaleAbout(f, px, py), a)
            == Affine(f * a.scaleX, f * a.skewX, f * (a.transX - px) + px, f * a.skewY, f * a.scaleY, f * (a.transY - py) + py)
  {
    Distribute(f, a.transX, px);
    Distribute(f, a.transY, py);
  }

  lemma Distribute(f: real, a: real, b: real)
    ensures f * (a - b) == f * a - f * b
  {
  }

  /** Matrix.setScale(s, s, px, py): the matrix is replaced, so any rotation is dropped. */
  function SetScale(s: real, px: real, py: real): (r: Supp)
    requires s > 0.0
    ensures r.Valid() && GetScale(r) == s && r.quarter == 0
  {
    Supp(s, 0, px - s * px, py - s * py)
  }

  lemma SetScaleIsScaleAbout(s: real, px: real, py: real)
    requires s > 0.0
    ensures ToAffine(SetScale(s, px, py)) == ScaleAbout(s, px, py)
  {
  }

  /** Matrix.postRotate(90 * turns) about the origin, for any whole number of quarter turns. */
  function PostRotate(m: Supp, turns: int): (r: Supp)
    requires m.Valid()
    ensures r.Valid() && GetScale(r) == GetScale(m) && r.quarter == (m.quarter + turns) % 4
  {
    var j := turns % 4;
    Supp(m.scale, (m.quarter + turns) % 4, TurnX(j, m.tx, m.ty), TurnY(j, m.tx, m.ty))
  }

  /** The point (x, y) turned by j quarter turns about the origin (j in 0..3). */
  function TurnX(j: int, x: real, y: real): real {
    if j == 0 then x else if j == 1 then -y else if j == 2 then -x else y
  }

  function TurnY(j: int, x: real, y: real): real {
    if j == 0 then y else if j == 1 then x else if j == 2 then -y else -x
  }

  lemma PostRotateIsProduct(m: Supp, turns: int)
    requires m.Valid()
    ensures ToAffine(PostRotate(m, turns)) == Concat(QuarterRotation(turns % 4), ToAffine(m))
  {
    var j := turns % 4;
    QuarterSum(m.quarter, turns);
    assert PostRotate(m, turns) == Supp(m.scale, (m.quarter + j) % 4, TurnX(j, m.tx, m.ty), TurnY(j, m.tx, m.ty));
    TurnProduct(j, ToAffine(m));
    TurnAfterTurn(m, j);
  }

  lemma QuarterSum(q: int, turns: int)
    ensures (q + turns) % 4 == (q + turns % 4) % 4
  {
    assert turns == 4 * (turns / 4) + turns % 4;
  }

  /** A quarter-turn rotation applied after b turns each column of b. */
  lemma TurnProduct(j: int, b: Affine)
    requires 0 <= j < 4
    ensures Concat(QuarterRotation(j), b)
            == Affine(TurnX(j, b.scaleX, b.skewY), TurnX(j, b.skewX, b.scaleY), TurnX(j, b.transX, b.transY),
                      TurnY(j, b.scaleX, b.skewY), TurnY(j, b.skewX, b.scaleY), TurnY(j, b.transX, b.transY))
  {
    if j == 0 {} else if j == 1 {} else if j == 2 {} else {}
  }

  /** Turning the columns of m's matrix gives the matrix of m with j more quarter turns. */
  lemma TurnAfterTurn(m: Supp, j: int)
    requires m.Valid() && 0 <= j < 4
    ensures var a := ToAffine(m);
            ToAffine(Supp(m.scale, (m.quarter + j) % 4, TurnX(j, m.tx, m.ty), TurnY(j, m.tx, m.ty)))
            == Affine(TurnX(j, a.scaleX, a.skewY), TurnX(j, a.skewX, a.scaleY), TurnX(j, a.transX, a.transY),
                      TurnY(j, a.scaleX, a.skewY), TurnY(j, a.skewX, a.scaleY), TurnY(j, a.transX, a.transY))
  {
    if m.quarter == 0 {
      if j == 0 {} else if j == 1 {} else if j == 2 {} else {}
    } else if m.quarter == 1 {
      if j == 0 {} else if j == 1 {} else if j == 2 {} else {}
    } else if m.quarter == 2 {
      if j == 0 {} else if j == 1 {} else if j == 2 {} else {}
    } else {
      if j == 0 {} else if j == 1 {} else if j == 2 {} else {}
    }
  }

  /** The rectangle r turned by q quarter turns about the origin. */
  function TurnedRect(q: int, r: Rect): Rect requires 0 <= q < 4 {
    if q == 0 then r
    else if q == 1 then Rect(-r.bottom, r.left, -r.top, r.right)
    else if q == 2 then Rect(-r.right, -r.bottom, -r.left, -r.top)
    else Rect(r.top, -r.right, r.bottom, -r.left)
  }

  /** A rectangle already turned, scaled by the matrix's scale and moved by its translation. */
  function Place(m: Supp, t: Rect): Rect {
    Scaled(m.scale, t).Offset(m.tx, m.ty)
  }

  /** Every coordinate of t multiplied by s. */
  function Scaled(s: real, t: Rect): Rect {
    Rect(Mul(s, t.left), Mul(s, t.top), Mul(s, t.right), Mul(s, t.bottom))
  }

  /**
   * Matrix.mapRect(r) for the supplementary matrix, in closed form: the
   * rectangle turned by the quarter turns, scaled and translated. Its sides
   * are the scaled sides of r, swapped after an odd number of quarter turns;
   * MapRectIsBoundingBox shows it is the bounding box of the four mapped corners.
   */
  function MapRect(m: Supp, r: Rect): (out: Rect)
    requires m.Valid() && r.Sorted()
    ensures out.Sorted()
    ensures out.Width() == m.scale * (if m.quarter % 2 == 0 then r.Width() else r.Height())
    ensures out.Height() == m.scale * (if m.quarter % 2 == 0 then r.Height() else r.Width())
  {
    MapRectSides(m, r);
    Place(m, TurnedRect(m.quarter, r))
  }

  lemma MapRectSides(m: Supp, r: Rect)
    requires m.Valid() && r.Sorted()
    ensures var out := Place(m, TurnedRect(m.quarter, r));
            && out.Width() == m.scale * (if m.quarter % 2 == 0 then r.Width() else r.Height())
            && out.Height() == m.scale * (if m.quarter % 2 == 0 then r.Height() else r.Width())
            && out.Sorted()
  {
    var t := TurnedRect(m.quarter, r);
    TurnedRectSides(m.quarter, r);
    ScaledSpan(m.scale, t.left, t.right);
    ScaledSpan(m.scale, t.top, t.bottom);
  }

  /** Turning a rectangle keeps it sorted and swaps its width and height after an odd number of quarter turns. */
  lemma TurnedRectSides(q: int, r: Rect)
    requires 0 <= q < 4 && r.Sorted()
    ensures var t := TurnedRect(q, r);
            && t.Sorted()
            && t.Width() == (if q % 2 == 0 then r.Width() else r.Height())
            && t.Height() == (if q % 2 == 0 then r.Height() else r.Width())
  {
  }

  /** Scaling by a positive factor keeps the order of two values and scales their distance. */
  lemma ScaledSpan(s: real, lo: real, hi: real)
    requires s > 0.0 && lo <= hi
    ensures Mul(s, lo) <= Mul(s, hi) && Mul(s, hi) - Mul(s, lo) == s * (hi - lo)
  {
  }

  /** The closed form agrees with Matrix.mapRect applied to the matrix the Supp stands for. */
  lemma MapRectIsBoundingBox(m: Supp, r: Rect)
    requires m.Valid() && r.Sorted()
    ensures MapRect(m, r) == BoundingBox(ToAffine(m), r)
  {
    var p := Place(m, TurnedRect(m.quarter, r));
    MapRectSides(m, r);
    var a := ToAffine(m);
    if m.quarter == 0 {
      CornersUnturned(m, r);
      MapCorners(a, r, p.left, p.right, p.left, p.right, p.top, p.top, p.bottom, p.bottom);
      Alternating(p.left, p.right);
      Paired(p.top, p.bottom);
    } else if m.quarter == 1 {
      CornersQuarter(m, r);
      MapCorners(a, r, p.right, p.right, p.left, p.left, p.top, p.bottom, p.top, p.bottom);
      Paired(p.left, p.right);
      Alternating(p.top, p.bottom);
    } else if m.quarter == 2 {
      CornersHalf(m, r);
      MapCorners(a, r, p.right, p.left, p.right, p.left, p.bottom, p.bottom, p.top, p.top);
      Alternating(p.left, p.right);
      Paired(p.top, p.bottom);
    } else {
      CornersThreeQuarters(m, r);
      MapCorners(a, r, p.left, p.left, p.right, p.right, p.bottom, p.top, p.bottom, p.top);
      Paired(p.left, p.right);
      Alternating(p.top, p.bottom);
    }
  }

  /**
   * Where the matrix sends the four corners of r (top-left, top-right,
   * bottom-left, bottom-right), as sides of the placed rectangle, for each
   * number of quarter turns.
   */
  lemma CornersUnturned(m: Supp, r: Rect)
    requires m.Valid() && m.quarter == 0
    ensures var a, p := ToAffine(m), Place(m, TurnedRect(m.quarter, r));
            && MapX(a, r.left, r.top) == p.left && MapX(a, r.right, r.top) == p.right
            && MapX(a, r.left, r.bottom) == p.left && MapX(a, r.right, r.bottom) == p.right
            && MapY(a, r.left, r.top) == p.top && MapY(a, r.right, r.top) == p.top
            && MapY(a, r.left, r.bottom) == p.bottom && MapY(a, r.right, r.bottom) == p.bottom
  {
    var s := m.scale;
    var t := TurnedRect(m.quarter, r);
    assert Place(m, t) == Rect(Mul(s, r.left) + m.tx, Mul(s, r.top) + m.ty, Mul(s, r.right) + m.tx, Mul(s, r.bottom) + m.ty);
    assert ToAffine(m) == Affine(s, 0.0, m.tx, 0.0, s, m.ty);
    CornerUnturned(s, m.tx, m.ty, r.left, r.top);
    CornerUnturned(s, m.tx, m.ty, r.right, r.top);
    CornerUnturned(s, m.tx, m.ty, r.left, r.bottom);
    CornerUnturned(s, m.tx, m.ty, r.right, r.bottom);
  }

  lemma CornersQuarter(m: Supp, r: Rect)
    requires m.Valid() && m.quarter == 1
    ensures var a, p := ToAffine(m), Place(m, TurnedRect(m.quarter, r));
            && MapX(a, r.left, r.top) == p.right && MapX(a, r.right, r.top) == p.right
            && MapX(a, r.left, r.bottom) == p.left && MapX(a, r.right, r.bottom) == p.left
            && MapY(a, r.left, r.top) == p.top && MapY(a, r.right, r.top) == p.bottom
            && MapY(a, r.left, r.bottom) == p.top && MapY(a, r.right, r.bottom) == p.bottom
  {
    var s := m.scale;
    var t := TurnedRect(m.quarter, r);
    assert Place(m, t) == Rect(Mul(s, t.left) + m.tx, Mul(s, r.left) + m.ty, Mul(s, t.right) + m.tx, Mul(s, r.right) + m.ty);
    assert ToAffine(m) == Affine(0.0, -s, m.tx, s, 0.0, m.ty);
    CornerQuarter(s, m.tx, m.ty, r.left, r.top, t.right);
    CornerQuarter(s, m.tx, m.ty, r.right, r.top, t.right);
    CornerQuarter(s, m.tx, m.ty, r.left, r.bottom, t.left);
    CornerQuarter(s, m.tx, m.ty, r.right, r.bottom, t.left);
  }

  lemma CornersHalf(m: Supp, r: Rect)
    requires m.Valid() && m.quarter == 2
    ensures var a, p := ToAffine(m), Place(m, TurnedRect(m.quarter, r));
            && MapX(a, r.left, r.top) == p.right && MapX(a, r.right, r.top) == p.left
            && MapX(a, r.left, r.bottom) == p.right && MapX(a, r.right, r.bottom) == p.left
            && MapY(a, r.left, r.top) == p.bottom && MapY(a, r.right, r.top) == p.bottom
            && MapY(a, r.left, r.bottom) == p.top && MapY(a, r.right, r.bottom) == p.top
  {
    var s := m.scale;
    var t := TurnedRect(m.quarter, r);
    assert Place(m, t) == Rect(Mul(s, t.left) + m.tx, Mul(s, t.top) + m.ty, Mul(s, t.right) + m.tx, Mul(s, t.bottom) + m.ty);
    assert ToAffine(m) == Affine(-s, 0.0, m.tx, 0.0, -s, m.ty);
    CornerHalf(s, m.tx, m.ty, r.left, r.top, t.right, t.bottom);
    CornerHalf(s, m.tx, m.ty, r.right, r.top, t.left, t.bottom);
    CornerHalf(s, m.tx, m.ty, r.left, r.bottom, t.right, t.top);
    CornerHalf(s, m.tx, m.ty, r.right, r.bottom, t.left, t.top);
  }

  lemma CornersThreeQuarters(m: Supp, r: Rect)
    requires m.Valid() && m.quarter == 3
    ensures var a, p := ToAffine(m), Place(m, TurnedRect(m.quarter, r));
            && MapX(a, r.left, r.top) == p.left && MapX(a, r.right, r.top) == p.left
            && MapX(a, r.left, r.bottom) == p.right && MapX(a, r.right, r.bottom) == p.right
            && MapY(a, r.left, r.top) == p.bottom && MapY(a, r.right, r.top) == p.top
            && MapY(a, r.left, r.bottom) == p.bottom && MapY(a, r.right, r.bottom) == p.top
  {
    var s := m.scale;
    var t := TurnedRect(m.quarter, r);
    assert Place(m, t) == Rect(Mul(s, r.top) + m.tx, Mul(s, t.top) + m.ty, Mul(s, r.bottom) + m.tx, Mul(s, t.bottom) + m.ty);
    assert ToAffine(m) == Affine(0.0, s, m.tx, -s, 0.0, m.ty);
    CornerThreeQuarters(s, m.tx, m.ty, r.left, r.top, t.bottom);
    CornerThreeQuarters(s, m.tx, m.ty, r.right, r.top, t.top);
    CornerThreeQuarters(s, m.tx, m.ty, r.left, r.bottom, t.bottom);
    CornerThreeQuarters(s, m.tx, m.ty, r.right, r.bottom, t.top);
  }


  /** Names the images of the four corners of r (top-left, top-right, bottom-left, bottom-right). */
  lemma MapCorners(a: Affine, r: Rect, x1: real, x2: real, x3: real, x4: real, y1: real, y2: real, y3: real, y4: real)
    requires MapX(a, r.left, r.top) == x1 && MapX(a, r.right, r.top) == x2
    requires MapX(a, r.left, r.bottom) == x3 && MapX(a, r.right, r.bottom) == x4
    requires MapY(a, r.left, r.top) == y1 && MapY(a, r.right, r.top) == y2
    requires MapY(a, r.left, r.bottom) == y3 && MapY(a, r.right, r.bottom) == y4
    ensures BoundingBox(a, r) == Rect(Min4(x1, x2, x3, x4), Min4(y1, y2, y3, y4), Max4(x1, x2, x3, x4), Max4(y1, y2, y3, y4))
  {
  }

  /** Bounds of four values that alternate between lo and hi (in either order). */
  lemma Alternating(lo: real, hi: real)
    requires lo <= hi
    ensures Min4(lo, hi, lo, hi) == lo && Max4(lo, hi, lo, hi) == hi
    ensures Min4(hi, lo, hi, lo) == lo && Max4(hi, lo, hi, lo) == hi
  {
  }

  /** Bounds of four values that come in two equal pairs (in either order). */
  lemma Paired(lo: real, hi: real)
    requires lo <= hi
    ensures Min4(lo, lo, hi, hi) == lo && Max4(lo, lo, hi, hi) == hi
    ensures Min4(hi, hi, lo, lo) == lo && Max4(hi, hi, lo, lo) == hi
  {
  }

  /**
   * Where each quarter-turn form of the matrix sends the point (x, y), in the
   * form Place computes; nx and ny stand for -x and -y.
   */
  lemma CornerUnturned(s: real, tx: real, ty: real, x: real, y: real)
    ensures MapX(Affine(s, 0.0, tx, 0.0, s, ty), x, y) == Mul(s, x) + tx
    ensures MapY(Affine(s, 0.0, tx, 0.0, s, ty), x, y) == Mul(s, y) + ty
  {
  }

  lemma CornerQuarter(s: real, tx: real, ty: real, x: real, y: real, ny: real)
    requires ny == -y
    ensures MapX(Affine(0.0, -s, tx, s, 0.0, ty), x, y) == Mul(s, ny) + tx
    ensures MapY(Affine(0.0, -s, tx, s, 0.0, ty), x, y) == Mul(s, x) + ty
  {
    NegatedProduct(s, y);
  }

  lemma CornerHalf(s: real, tx: real, ty: real, x: real, y: real, nx: real, ny: real)
    requires nx == -x && ny == -y
    ensures MapX(Affine(-s, 0.0, tx, 0.0, -s, ty), x, y) == Mul(s, nx) + tx
    ensures MapY(Affine(-s, 0.0, tx, 0.0, -s, ty), x, y) == Mul(s, ny) + ty
  {
    NegatedProduct(s, x);
    NegatedProduct(s, y);
  }

  lemma CornerThreeQuarters(s: real, tx: real, ty: real, x: real, y: real, nx: real)
    requires nx == -x
    ensures MapX(Affine(0.0, s, tx, -s, 0.0, ty), x, y) == Mul(s, y) + tx
    ensures MapY(Affine(0.0, s, tx, -s, 0.0, ty), x, y) == Mul(s, nx) + ty
  {
    NegatedProduct(s, x);
  }

  lemma NegatedProduct(s: real, x: real)
    ensures s * -x == -(Mul(s, x)) && (-s) * x == -(Mul(s, x))
  {
  }

  /** Translating the matrix translates its displayed rectangle by the same amount. */
  lemma MapRectAfterTranslate(m: Supp, r: Rect, dx: real, dy: real)
    requires m.Valid() && r.Sorted()
    ensures MapRect(PostTranslate(m, dx, dy), r) == MapRect(m, r).Offset(dx, dy)
  {
    var t := TurnedRect(m.quarter, r);
    PlaceTranslated(m, t, dx, dy);
  }

  lemma PlaceTranslated(m: Supp, t: Rect, dx: real, dy: real)
    ensures Place(Supp(m.scale, m.quarter, m.tx + dx, m.ty + dy), t) == Place(m, t).Offset(dx, dy)
  {
  }

  // ---------------------------------------------------------------------------
  // Bounds correction (checkMatrixBounds)
  // ---------------------------------------------------------------------------

  /** Where content no larger than the viewport is placed on one axis. */
  datatype Align = Leading | Trailing | Centred

  /** ImageView.ScaleType. */
  datatype ScaleType = Matrix | FitXY | FitStart | FitCenter | FitEnd | Center | CenterCrop | CenterInside

  /** The placement checkMatrixBounds uses for content that fits: FIT_START leads, FIT_END trails, the rest centre. */
  function AlignFor(scaleType: ScaleType): Align {
    match scaleType
    case FitStart => Leading
    case FitEnd => Trailing
    case _ => Centred
  }

  /**
   * The translation checkMatrixBounds applies on one axis to content spanning
   * [lo, hi] in a viewport [0, view]. Content that fits is aligned; content
   * that does not fit is pulled back just enough to cover the viewport.
   */
  function AxisCorrection(lo: real, hi: real, view: int, align: Align): (d: real)
    requires lo <= hi
    ensures hi - lo <= view as real ==>
      match align
      case Leading => lo + d == 0.0
      case Trailing => hi + d == view as real
      case Centred => lo + d == view as real - (hi + d)
    ensures hi - lo > view as real ==> lo + d <= 0.0 && view as real <= hi + d
    ensures hi - lo > view as real && lo <= 0.0 && view as real <= hi ==> d == 0.0
    ensures hi - lo > view as real && lo > 0.0 ==> lo + d == 0.0
    ensures hi - lo > view as real && hi < view as real ==> hi + d == view as real
  {
    var size := hi - lo;
    if size <= view as real then
      match align
      case Leading => -lo
      case Trailing => view as real - size - lo
      case Centred => (view as real - size) / 2.0 - lo
    else if lo > 0.0 then -lo
    else if hi < view as real then view as real - hi
    else 0.0
  }

  datatype Delta = Delta(dx: real, dy: real)

  /**
   * Where checkMatrixBounds wants content spanning [lo, hi] on an axis of the
   * viewport [0, view]: aligned when it fits, covering the viewport when not.
   */
  predicate AxisPlaced(lo: real, hi: real, view: int, align: Align) {
    if hi - lo <= view as real then
      match align
      case Leading => lo == 0.0
      case Trailing => hi == view as real
      case Centred => lo == view as real - hi
    else lo <= 0.0 && view as real <= hi
  }

  /** The displayed rectangle is where checkMatrixBounds wants it on both axes. */
  predicate Placed(rect: Rect, viewWidth: int, viewHeight: int, align: Align) {
    AxisPlaced(rect.left, rect.right, viewWidth, align) && AxisPlaced(rect.top, rect.bottom, viewHeight, align)
  }

  /**
   * The corrective translation of checkMatrixBounds for the displayed
   * rectangle: it moves the rectangle to where it is placed, and does not
   * move a rectangle that is placed already.
   */
  function Correction(rect: Rect, viewWidth: int, viewHeight: int, align: Align): (d: Delta)
    requires rect.Sorted()
    ensures Placed(rect.Offset(d.dx, d.dy), viewWidth, viewHeight, align)
    ensures Placed(rect, viewWidth, viewHeight, align) ==> d == Delta(0.0, 0.0)
  {
    Delta(AxisCorrection(rect.left, rect.right, viewWidth, align),
          AxisCorrection(rect.top, rect.bottom, viewHeight, align))
  }

  /** Correcting an axis that has already been corrected changes nothing. */
  lemma AxisCorrectionIdempotent(lo: real, hi: real, view: int, align: Align)
    requires lo <= hi
    ensures AxisCorrection(lo + AxisCorrection(lo, hi, view, align), hi + AxisCorrection(lo, hi, view, align), view, align) == 0.0
  {
    var d := AxisCorrection(lo, hi, view, align);
    var lo', hi' := lo + d, hi + d;
    assert hi' - lo' == hi - lo;
  }

  /** The bounds clamp is idempotent: applied to its own result it asks for no translation. */
  lemma CorrectionIdempotent(rect: Rect, viewWidth: int, viewHeight: int, align: Align)
    requires rect.Sorted()
    ensures var d := Correction(rect, viewWidth, viewHeight, align);
            Correction(rect.Offset(d.dx, d.dy), viewWidth, viewHeight, align) == Delta(0.0, 0.0)
  {
    AxisCorrectionIdempotent(rect.left, rect.right, viewWidth, align);
    AxisCorrectionIdempotent(rect.top, rect.bottom, viewHeight, align);
  }

  /** After the correction, content larger than the viewport on an axis covers it on that axis. */
  lemma CorrectedCovers(rect: Rect, viewWidth: int, viewHeight: int, align: Align)
    requires rect.Sorted()
    ensures var d := Correction(rect, viewWidth, viewHeight, align);
            var r := rect.Offset(d.dx, d.dy);
            && (rect.Width() > viewWidth as real ==> r.left <= 0.0 && viewWidth as real <= r.right)
            && (rect.Height() > viewHeight as real ==> r.top <= 0.0 && viewHeight as real <= r.bottom)
  {
  }

  // ---------------------------------------------------------------------------
  // Numbers
  // ---------------------------------------------------------------------------

  /** java.lang.Math.round: the integer nearest to x, halves rounded up. */
  function Round(x: real): (n: int)
    ensures x - 0.5 < n as real <= x + 0.5
  {
    (x + 0.5).Floor
  }

  lemma RoundMonotonic(x: real, y: real)
    requires x <= y
    ensures Round(x) <= Round(y)
  {
  }
}
