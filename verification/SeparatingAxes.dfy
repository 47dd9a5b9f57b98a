/** `Rect2::intersects_transformed`: does a rectangle meet the image of another under an affine map? */
module SeparatingAxes {
  import opened Products

  datatype Vec2 = Vec2(x: real, y: real)

  datatype Rect = Rect(position: Vec2, size: Vec2)

  /** An affine map of the plane: the images of the unit vectors, as vectors, and that of the origin. */
  datatype Map = Map(x: Vec2, y: Vec2, origin: Vec2)

  function Scaled(u: real, x: real): real {
    u * x
  }

  function Dot(a: Vec2, b: Vec2): real {
    Scaled(a.x, b.x) + Scaled(a.y, b.y)
  }

  function Image(t: Map, p: Vec2): Vec2 {
    Vec2(Scaled(t.x.x, p.x) + Scaled(t.y.x, p.y) + t.origin.x, Scaled(t.x.y, p.x) + Scaled(t.y.y, p.y) + t.origin.y)
  }

  predicate InRect(r: Rect, p: Vec2) {
    r.position.x <= p.x <= r.position.x + r.size.x && r.position.y <= p.y <= r.position.y + r.size.y
  }

  predicate Inside(r: Rect, p: Vec2) {
    r.position.x < p.x < r.position.x + r.size.x && r.position.y < p.y < r.position.y + r.size.y
  }

  /** No side is negative. */
  predicate IsProper(r: Rect) {
    0.0 <= r.size.x && 0.0 <= r.size.y
  }

  /** The corners of a rectangle, in the order of the source. */
  function Corner(r: Rect, i: nat): (c: Vec2)
    requires i < 4
    ensures IsProper(r) ==> InRect(r, c)
  {
    Vec2(if i == 0 || i == 2 then r.position.x else r.position.x + r.size.x,
         if i < 2 then r.position.y else r.position.y + r.size.y)
  }

  // ---------- A linear form on a rectangle ----------

  /** The form `u * x + v * y + k`. */
  datatype Form = Form(u: real, v: real, k: real)

  function At(f: Form, p: Vec2): real {
    Scaled(f.u, p.x) + Scaled(f.v, p.y) + f.k
  }

  lemma OrderedScale(u: real, low: real, high: real, x: real)
    requires low <= x <= high
    ensures Scaled(u, low) <= Scaled(u, x) <= Scaled(u, high) || Scaled(u, high) <= Scaled(u, x) <= Scaled(u, low)
  {
    if 0.0 <= u {
      NonNegative(u, x - low);
      NonNegative(u, high - x);
    } else {
      NonNegative(-u, x - low);
      NonNegative(-u, high - x);
    }
  }

  /** On a rectangle a linear form takes its least and its greatest value at a corner. */
  lemma BetweenCorners(f: Form, r: Rect, p: Vec2)
    requires InRect(r, p)
    ensures exists i :: 0 <= i < 4 && At(f, Corner(r, i)) <= At(f, p)
    ensures exists i :: 0 <= i < 4 && At(f, p) <= At(f, Corner(r, i))
  {
    OrderedScale(f.u, r.position.x, r.position.x + r.size.x, p.x);
    OrderedScale(f.v, r.position.y, r.position.y + r.size.y, p.y);
    hide Scaled;
    assert Corner(r, 0) == r.position;
    assert Corner(r, 1) == Vec2(r.position.x + r.size.x, r.position.y);
    assert Corner(r, 2) == Vec2(r.position.x, r.position.y + r.size.y);
    assert Corner(r, 3) == Vec2(r.position.x + r.size.x, r.position.y + r.size.y);
  }

  /** Nowhere on the rectangle is the form above `bound`. */
  ghost predicate StaysBelow(f: Form, r: Rect, bound: real) {
    forall p :: InRect(r, p) ==> At(f, p) <= bound
  }

  ghost predicate StaysAbove(f: Form, r: Rect, bound: real) {
    forall p :: InRect(r, p) ==> bound <= At(f, p)
  }

  /** Everywhere on the one rectangle the one form is below the other form, anywhere on the other rectangle. */
  ghost predicate Apart(f: Form, r: Rect, g: Form, s: Rect) {
    forall p, q :: InRect(r, p) && InRect(s, q) ==> At(f, p) < At(g, q)
  }

  lemma BelowAtCorners(f: Form, r: Rect, bound: real)
    ensures (forall i :: 0 <= i < 4 ==> At(f, Corner(r, i)) <= bound) ==> StaysBelow(f, r, bound)
    ensures IsProper(r) && StaysBelow(f, r, bound) ==> forall i :: 0 <= i < 4 ==> At(f, Corner(r, i)) <= bound
  {
    hide At, Corner, InRect;
    forall p | InRect(r, p) && forall i :: 0 <= i < 4 ==> At(f, Corner(r, i)) <= bound
      ensures At(f, p) <= bound
    {
      BetweenCorners(f, r, p);
    }
  }

  lemma AboveAtCorners(f: Form, r: Rect, bound: real)
    ensures (forall i :: 0 <= i < 4 ==> bound <= At(f, Corner(r, i))) ==> StaysAbove(f, r, bound)
    ensures IsProper(r) && StaysAbove(f, r, bound) ==> forall i :: 0 <= i < 4 ==> bound <= At(f, Corner(r, i))
  {
    hide At, Corner, InRect;
    forall p | InRect(r, p) && forall i :: 0 <= i < 4 ==> bound <= At(f, Corner(r, i))
      ensures bound <= At(f, p)
    {
      BetweenCorners(f, r, p);
    }
  }

  /** The least and the greatest value of a form at the corners. */
  ghost predicate IsSpread(f: Form, r: Rect, max: real, min: real) {
    && (forall i :: 0 <= i < 4 ==> min <= At(f, Corner(r, i)) <= max)
    && (exists i :: 0 <= i < 4 && At(f, Corner(r, i)) == max)
    && (exists i :: 0 <= i < 4 && At(f, Corner(r, i)) == min)
  }

  lemma SpreadBounds(f: Form, r: Rect, max: real, min: real, p: Vec2)
    requires IsSpread(f, r, max, min) && InRect(r, p)
    ensures min <= At(f, p) <= max
  {
    BetweenCorners(f, r, p);
    hide At, Corner, InRect;
  }

  lemma ApartAtCorners(f: Form, r: Rect, maxa: real, mina: real, g: Form, s: Rect, maxb: real, minb: real)
    requires IsSpread(f, r, maxa, mina) && IsSpread(g, s, maxb, minb)
    ensures maxa < minb ==> Apart(f, r, g, s)
    ensures IsProper(r) && IsProper(s) && Apart(f, r, g, s) ==> maxa < minb
  {
    hide At, Corner, InRect;
    forall p, q | InRect(r, p) && InRect(s, q)
      ensures mina <= At(f, p) <= maxa && minb <= At(g, q) <= maxb
    {
      SpreadBounds(f, r, maxa, mina, p);
      SpreadBounds(g, s, maxb, minb, q);
    }
  }

  // ---------- The test ----------

  /** The coordinates of the image of a point, as forms in the point. */
  function ImageX(t: Map): Form {
    Form(t.x.x, t.y.x, t.origin.x)
  }

  function ImageY(t: Map): Form {
    Form(t.x.y, t.y.y, t.origin.y)
  }

  /** The component of a point, or of its image, along `a`. */
  function Component(a: Vec2): Form {
    Form(a.x, a.y, 0.0)
  }

  function ImageComponent(a: Vec2, t: Map): Form {
    Form(Dot(a, t.x), Dot(a, t.y), Dot(a, t.origin))
  }

  lemma ImageComponentIs(a: Vec2, t: Map, p: Vec2)
    ensures At(ImageComponent(a, t), p) == Dot(a, Image(t, p))
  {
    DotOfImage(a.x, a.y, t.x.x, t.x.y, t.y.x, t.y.y, t.origin.x, t.origin.y, p.x, p.y);
  }

  lemma DotOfImage(a: real, b: real, xx: real, xy: real, yx: real, yy: real, ox: real, oy: real, x: real, y: real)
    ensures (a * xx + b * xy) * x + (a * yx + b * yy) * y + (a * ox + b * oy)
         == a * (xx * x + yx * y + ox) + b * (xy * x + yy * y + oy)
  {
  }

  /** The rectangles lie apart along the direction `a`. */
  ghost predicate ApartAlong(a: Vec2, r: Rect, t: Map, s: Rect) {
    Apart(ImageComponent(a, t), s, Component(a), r) || Apart(Component(a), r, ImageComponent(a, t), s)
  }

  /** The image of `s` lies beyond one of the sides of `r`. */
  ghost predicate BeyondSide(r: Rect, t: Map, s: Rect) {
    || StaysBelow(ImageY(t), s, r.position.y) || StaysAbove(ImageY(t), s, r.position.y + r.size.y)
    || StaysBelow(ImageX(t), s, r.position.x) || StaysAbove(ImageX(t), s, r.position.x + r.size.x)
  }

  /**
   One of the sides of `r`, or one of the two directions that the map gives to the sides of `s`, separates `r`
   from the image of `s`.
   */
  ghost predicate Separated(r: Rect, t: Map, s: Rect) {
    BeyondSide(r, t, s) || ApartAlong(t.x, r, t, s) || ApartAlong(t.y, r, t, s)
  }

  /** What separates two rectangles leaves no point of the one, mapped, in the interior of the other. */
  lemma SeparatedIsDisjoint(r: Rect, t: Map, s: Rect, p: Vec2)
    requires Separated(r, t, s) && InRect(s, p)
    ensures !Inside(r, Image(t, p))
  {
    var q := Image(t, p);
    ImageComponentIs(t.x, t, p);
    ImageComponentIs(t.y, t, p);
    assert At(ImageX(t), p) == q.x && At(ImageY(t), p) == q.y;
    assert At(Component(t.x), q) == Dot(t.x, q) && At(Component(t.y), q) == Dot(t.y, q);
    hide At, Dot, Image, Scaled, ImageX, ImageY, Component, ImageComponent;
  }

  /** The running extrema of the components of four points along `a`. */
  method Spread(a: Vec2, points: array<Vec2>) returns (max: real, min: real)
    requires points.Length == 4
    ensures forall i :: 0 <= i < 4 ==> min <= Dot(a, points[i]) <= max
    ensures (exists i :: 0 <= i < 4 && Dot(a, points[i]) == max) && (exists i :: 0 <= i < 4 && Dot(a, points[i]) == min)
  {
    hide Dot;
    max := Dot(a, points[0]);
    min := max;
    var dp := Dot(a, points[1]);
    max, min := if dp > max then dp else max, if dp < min then dp else min;
    dp := Dot(a, points[2]);
    max, min := if dp > max then dp else max, if dp < min then dp else min;
    dp := Dot(a, points[3]);
    max, min := if dp > max then dp else max, if dp < min then dp else min;
  }

  ghost predicate HoldsImages(points: array<Vec2>, t: Map, s: Rect)
    reads points
  {
    points.Length == 4 && forall i :: 0 <= i < 4 ==> points[i] == Image(t, Corner(s, i))
  }

  ghost predicate HoldsCorners(points: array<Vec2>, r: Rect)
    reads points
  {
    points.Length == 4 && forall i :: 0 <= i < 4 ==> points[i] == Corner(r, i)
  }

  lemma CornersOfImage(t: Map, s: Rect)
    ensures forall i :: 0 <= i < 4 ==>
      var p := Corner(s, i); At(ImageX(t), p) == Image(t, p).x && At(ImageY(t), p) == Image(t, p).y
  {
    hide Corner, Scaled;
  }

  /** The bounds of a form, by its values at the four corners. */
  lemma BoundedAtCorners(f: Form, s: Rect, low: real, high: real, a: real, b: real, c: real, d: real)
    requires At(f, Corner(s, 0)) == a && At(f, Corner(s, 1)) == b
    requires At(f, Corner(s, 2)) == c && At(f, Corner(s, 3)) == d
    ensures !(a > low || b > low || c > low || d > low) ==> StaysBelow(f, s, low)
    ensures !(a < high || b < high || c < high || d < high) ==> StaysAbove(f, s, high)
    ensures IsProper(s) && StaysBelow(f, s, low) ==> !(a > low || b > low || c > low || d > low)
    ensures IsProper(s) && StaysAbove(f, s, high) ==> !(a < high || b < high || c < high || d < high)
  {
    hide At, Corner, StaysBelow, StaysAbove;
    BelowAtCorners(f, s, low);
    AboveAtCorners(f, s, high);
  }

  /** The four tests against the sides of the base rectangle. */
  method ClearOfSides(r: Rect, t: Map, s: Rect, points: array<Vec2>) returns (clear: bool)
    requires HoldsImages(points, t, s)
    ensures clear ==> BeyondSide(r, t, s)
    ensures IsProper(s) && BeyondSide(r, t, s) ==> clear
  {
    ghost var a, b, c, d := points[0], points[1], points[2], points[3];
    assert a == Image(t, Corner(s, 0)) && b == Image(t, Corner(s, 1)) && c == Image(t, Corner(s, 2))
        && d == Image(t, Corner(s, 3));
    hide At, Corner, Image, ImageX, ImageY, StaysBelow, StaysAbove, InRect, Scaled;
    CornersOfImage(t, s);
    BoundedAtCorners(ImageY(t), s, r.position.y, r.position.y + r.size.y, a.y, b.y, c.y, d.y);
    BoundedAtCorners(ImageX(t), s, r.position.x, r.position.x + r.size.x, a.x, b.x, c.x, d.x);
    if !(points[0].y > r.position.y || points[1].y > r.position.y
         || points[2].y > r.position.y || points[3].y > r.position.y) {
      return true;
    }
    var limit := r.position.y + r.size.y;
    if !(points[0].y < limit || points[1].y < limit || points[2].y < limit || points[3].y < limit) {
      return true;
    }
    if !(points[0].x > r.position.x || points[1].x > r.position.x
         || points[2].x > r.position.x || points[3].x > r.position.x) {
      return true;
    }
    limit := r.position.x + r.size.x;
    if !(points[0].x < limit || points[1].x < limit || points[2].x < limit || points[3].x < limit) {
      return true;
    }
    return false;
  }

  method ClearAlong(a: Vec2, r: Rect, t: Map, s: Rect, corners: array<Vec2>, points: array<Vec2>) returns (clear: bool)
    requires HoldsCorners(corners, r) && HoldsImages(points, t, s)
    ensures clear ==> ApartAlong(a, r, t, s)
    ensures IsProper(r) && IsProper(s) && ApartAlong(a, r, t, s) ==> clear
  {
    var f, g := Component(a), ImageComponent(a, t);
    forall i | 0 <= i < 4
      ensures At(f, Corner(r, i)) == Dot(a, corners[i]) && At(g, Corner(s, i)) == Dot(a, points[i])
    {
      ImageComponentIs(a, t, Corner(s, i));
    }
    hide At, Corner, Image, Dot, ImageComponent, Component, Apart;
    var maxa, mina := Spread(a, corners);
    var maxb, minb := Spread(a, points);
    assert IsSpread(f, r, maxa, mina) && IsSpread(g, s, maxb, minb);
    ApartAtCorners(f, r, maxa, mina, g, s, maxb, minb);
    ApartAtCorners(g, s, maxb, minb, f, r, maxa, mina);
    clear := mina > maxb || minb > maxa;
  }

  /**
   `intersects_transformed`. The answer is exact about the six tests, for rectangles with no negative
   side; and whatever the rectangles, it is false only when the image leaves the interior free.
   */
  method IntersectsTransformed(r: Rect, t: Map, s: Rect) returns (answer: bool)
    ensures IsProper(r) && IsProper(s) ==> (answer <==> !Separated(r, t, s))
    ensures !answer ==> forall p :: InRect(s, p) ==> !Inside(r, Image(t, p))
  {
    var points := new Vec2[4](i requires 0 <= i < 4 => Image(t, Corner(s, i)));
    var corners := new Vec2[4](i requires 0 <= i < 4 => Corner(r, i));
    forall p | Separated(r, t, s) && InRect(s, p)
      ensures !Inside(r, Image(t, p))
    {
      SeparatedIsDisjoint(r, t, s, p);
    }
    hide Image, Corner, Inside, InRect, BeyondSide, ApartAlong;
    var clear := ClearOfSides(r, t, s, points);
    if clear {
      return false;
    }
    clear := ClearAlong(t.x, r, t, s, corners, points);
    if clear {
      return false;
    }
    clear := ClearAlong(t.y, r, t, s, corners, points);
    answer := !clear;
  }

  lemma NotBeyond(f: Form, r: Rect, bound: real, p: Vec2)
    requires InRect(r, p)
    ensures At(f, p) > bound ==> !StaysBelow(f, r, bound)
    ensures At(f, p) < bound ==> !StaysAbove(f, r, bound)
  {
  }

  lemma NotApart(f: Form, r: Rect, g: Form, s: Rect, p: Vec2, q: Vec2)
    requires InRect(r, p) && InRect(s, q) && At(f, p) >= At(g, q)
    ensures !Apart(f, r, g, s)
  {
  }

  /** A map that skews. */
  const SKEW := Map(Vec2(1.0, 0.0), Vec2(1.0, 1.0), Vec2(1.0, -5.0))

  const SQUARE := Rect(Vec2(0.0, 0.0), Vec2(4.0, 4.0))
  const TALL := Rect(Vec2(0.0, 0.0), Vec2(4.0, 8.0))

  lemma SkewIsNotBelow()
    ensures !StaysBelow(ImageY(SKEW), TALL, 0.0) && !StaysBelow(ImageX(SKEW), TALL, 0.0)
  {
    NotBeyond(ImageY(SKEW), TALL, 0.0, Vec2(0.0, 8.0));
    NotBeyond(ImageX(SKEW), TALL, 0.0, Vec2(0.0, 8.0));
  }

  lemma SkewIsNotAbove()
    ensures !StaysAbove(ImageY(SKEW), TALL, 4.0) && !StaysAbove(ImageX(SKEW), TALL, 4.0)
  {
    NotBeyond(ImageY(SKEW), TALL, 4.0, Vec2(0.0, 0.0));
    NotBeyond(ImageX(SKEW), TALL, 4.0, Vec2(0.0, 0.0));
  }

  lemma AtCorners(f: Form)
    ensures At(f, Vec2(0.0, 0.0)) == f.k && At(f, Vec2(0.0, 4.0)) == f.v * 4.0 + f.k
    ensures At(f, Vec2(4.0, 4.0)) == f.u * 4.0 + f.v * 4.0 + f.k
  {
  }

  lemma SkewComponents()
    ensures ImageComponent(SKEW.x, SKEW) == Form(1.0, 1.0, 1.0)
    ensures ImageComponent(SKEW.y, SKEW) == Form(1.0, 2.0, -4.0)
  {
  }

  lemma SkewOverlapsAlongX()
    ensures !ApartAlong(SKEW.x, SQUARE, SKEW, TALL)
  {
    SkewComponents();
    hide ImageComponent;
    var f, g, o, far := Form(1.0, 0.0, 0.0), Form(1.0, 1.0, 1.0), Vec2(0.0, 0.0), Vec2(4.0, 4.0);
    AtCorners(f);
    AtCorners(g);
    hide Apart, At;
    NotApart(f, SQUARE, g, TALL, far, o);
    NotApart(g, TALL, f, SQUARE, o, o);
  }

  lemma SkewOverlapsAlongY()
    ensures !ApartAlong(SKEW.y, SQUARE, SKEW, TALL)
  {
    SkewComponents();
    hide ImageComponent;
    var f, g, o, far, low := Form(1.0, 1.0, 0.0), Form(1.0, 2.0, -4.0), Vec2(0.0, 0.0), Vec2(4.0, 4.0), Vec2(0.0, 4.0);
    AtCorners(f);
    AtCorners(g);
    hide Apart, At;
    NotApart(f, SQUARE, g, TALL, far, o);
    NotApart(g, TALL, f, SQUARE, low, o);
  }

  lemma SkewLeavesGap(p: Vec2)
    requires InRect(TALL, p)
    ensures !InRect(SQUARE, Image(SKEW, p))
  {
    assert Image(SKEW, p) == Vec2(p.x + p.y + 1.0, p.y - 5.0);
  }

  /** For a map that skews, the test may see no gap although there is one: the slanted sides have other normals. */
  lemma SkewedGapIsMissed()
    ensures exists r, t, s ::
      IsProper(r) && IsProper(s) && !Separated(r, t, s) && forall p :: InRect(s, p) ==> !InRect(r, Image(t, p))
  {
    SkewIsNotBelow();
    SkewIsNotAbove();
    SkewOverlapsAlongX();
    SkewOverlapsAlongY();
    hide StaysBelow, StaysAbove, ApartAlong, InRect, Image, ImageX, ImageY;
    forall p | InRect(TALL, p)
      ensures !InRect(SQUARE, Image(SKEW, p))
    {
      SkewLeavesGap(p);
    }
    assert IsProper(SQUARE) && IsProper(TALL) && !Separated(SQUARE, SKEW, TALL);
  }
}
