/**
 When the two sides of the mapped rectangle stay at right angles, `intersects_transformed` misses no gap:
 if it answers true, the base rectangle and the image have a point in common.
 */
module SeparatingAxisTheorem {
  import opened Products
  import opened SeparatingAxes

  /**
   The map keeps right angles and collapses nothing: a rotation, a reflection, a scaling along the axes, or
   several of these.
   */
  predicate KeepsRightAngles(t: Map) {
    Dot(t.x, t.y) == 0.0 && t.x != Vec2(0.0, 0.0) && t.y != Vec2(0.0, 0.0)
  }

  // ---------- The corner of a quadrant ----------

  /** A point of the parallelogram with the sides `e` and `g`. */
  function Point(o: Vec2, e: Vec2, g: Vec2, i: real, j: real): Vec2 {
    Vec2(o.x + Scaled(e.x, i) + Scaled(g.x, j), o.y + Scaled(e.y, i) + Scaled(g.y, j))
  }

  datatype Range = Range(low: real, high: real)

  predicate In(r: Range, x: real) {
    r.low <= x <= r.high
  }

  /** The end of the range where the multiples of `u` are least. */
  function Lowest(u: real, r: Range): real {
    if u < 0.0 then r.high else r.low
  }

  lemma LowestIs(u: real, r: Range, x: real)
    requires In(r, x)
    ensures Scaled(u, Lowest(u, r)) <= Scaled(u, x)
  {
    if u < 0.0 {
      NonNegative(-u, r.high - x);
    } else {
      NonNegative(u, x - r.low);
    }
  }

  /** The point is to the left of the corner, or below it, or both; a quadrant is all points that are both. */
  predicate InQuadrant(c: Vec2, p: Vec2) {
    p.x <= c.x && p.y <= c.y
  }

  ghost predicate AvoidsQuadrant(o: Vec2, e: Vec2, g: Vec2, a: Range, b: Range, c: Vec2) {
    forall i, j :: In(a, i) && In(b, j) ==> !InQuadrant(c, Point(o, e, g, i, j))
  }

  /** Some points are left of the corner, and some below it. */
  ghost predicate Overlaps(o: Vec2, e: Vec2, g: Vec2, a: Range, b: Range, c: Vec2) {
    && (exists i, j :: In(a, i) && In(b, j) && Point(o, e, g, i, j).x < c.x)
    && (exists i, j :: In(a, i) && In(b, j) && Point(o, e, g, i, j).y < c.y)
  }

  predicate Opposite(v: Vec2) {
    (v.x < 0.0 < v.y) || (v.y < 0.0 < v.x)
  }

  predicate SameSign(v: Vec2) {
    (v.x < 0.0 && v.y < 0.0) || (0.0 < v.x && 0.0 < v.y)
  }

  /** The leftmost point and the lowest point are ends of ranges. */
  lemma Extremes(o: Vec2, e: Vec2, g: Vec2, a: Range, b: Range, c: Vec2)
    requires Overlaps(o, e, g, a, b, c)
    ensures a.low <= a.high && b.low <= b.high
    ensures Point(o, e, g, Lowest(e.x, a), Lowest(g.x, b)).x < c.x
    ensures Point(o, e, g, Lowest(e.y, a), Lowest(g.y, b)).y < c.y
  {
    var i, j :| In(a, i) && In(b, j) && Point(o, e, g, i, j).x < c.x;
    var k, l :| In(a, k) && In(b, l) && Point(o, e, g, k, l).y < c.y;
    LowestIs(e.x, a, i);
    LowestIs(g.x, b, j);
    LowestIs(e.y, a, k);
    LowestIs(g.y, b, l);
    hide Scaled, Lowest;
  }

  /** A number between two others is a mixture of them. */
  lemma Reach(p: real, q: real, m: real) returns (k: real)
    requires p <= m <= q && p < q
    ensures 0.0 <= k <= 1.0 && p + k * (q - p) == m
  {
    k := (m - p) / (q - p);
    assert k * (q - p) == m - p;
    if k < 0.0 {
      Positive(-k, q - p);
    }
    if k > 1.0 {
      Positive(k - 1.0, q - p);
    }
  }

  /** For a side that does not go up to the left or down to the right, one end is both the leftmost and the lowest. */
  lemma JointLowest(v: Vec2, r: Range, i: real)
    requires !Opposite(v) && In(r, i)
    ensures Scaled(v.x, Lowest(v.x + v.y, r)) <= Scaled(v.x, i) && Scaled(v.y, Lowest(v.x + v.y, r)) <= Scaled(v.y, i)
  {
    var low := Lowest(v.x + v.y, r);
    LowestIs(v.x, r, i);
    LowestIs(v.y, r, i);
    ZeroScale(v.x, low);
    ZeroScale(v.x, i);
    ZeroScale(v.y, low);
    ZeroScale(v.y, i);
    hide Scaled;
  }

  lemma ZeroScale(u: real, x: real)
    ensures u == 0.0 ==> Scaled(u, x) == 0.0
  {
  }

  lemma JointCorner(o: Vec2, e: Vec2, g: Vec2, a: Range, b: Range, c: Vec2) returns (i: real, j: real)
    requires Overlaps(o, e, g, a, b, c) && !Opposite(e) && !Opposite(g)
    ensures In(a, i) && In(b, j) && InQuadrant(c, Point(o, e, g, i, j))
  {
    Extremes(o, e, g, a, b, c);
    i, j := Lowest(e.x + e.y, a), Lowest(g.x + g.y, b);
    JointLowest(e, a, Lowest(e.x, a));
    JointLowest(e, a, Lowest(e.y, a));
    JointLowest(g, b, Lowest(g.x, b));
    JointLowest(g, b, Lowest(g.y, b));
    assert In(a, i) && In(b, j);
    hide Scaled, Lowest, Opposite, Overlaps;
  }

  /** A parallelogram that reaches left of a corner and below it, but not both at once, has a side that falls. */
  lemma SomeSideFalls(o: Vec2, e: Vec2, g: Vec2, a: Range, b: Range, c: Vec2)
    requires Overlaps(o, e, g, a, b, c) && AvoidsQuadrant(o, e, g, a, b, c)
    ensures Opposite(e) || Opposite(g)
  {
    hide Opposite, Overlaps;
    if !Opposite(e) && !Opposite(g) {
      var i, j := JointCorner(o, e, g, a, b, c);
    }
  }

  lemma SignOfProduct(x: real, y: real, z: real)
    requires z == x * y && 0.0 < x
    ensures (0.0 < z <==> 0.0 < y) && (z < 0.0 <==> y < 0.0)
  {
    if 0.0 < y {
      assert 0.0 < x * y;
    } else if y < 0.0 {
      assert x * (-y) > 0.0;
    }
  }

  /** What is perpendicular to a falling side rises. */
  lemma PerpendicularRises(e: Vec2, g: Vec2)
    requires Opposite(e) && Dot(e, g) == 0.0 && g != Vec2(0.0, 0.0)
    ensures SameSign(g)
  {
    var p, q := e.x * g.x, e.y * g.y;
    assert p + q == 0.0;
    if e.x < 0.0 {
      SignOfProduct(-e.x, g.x, -p);
      SignOfProduct(e.y, g.y, q);
    } else {
      SignOfProduct(e.x, g.x, p);
      SignOfProduct(-e.y, g.y, -q);
    }
  }

  lemma ScaledMixture(u: real, i: real, l: real, k: real)
    ensures Scaled(u, i + k * (l - i)) == Scaled(u, i) + k * (Scaled(u, l) - Scaled(u, i))
  {
  }

  lemma Between(i: real, l: real, k: real, r: Range)
    requires In(r, i) && In(r, l) && 0.0 <= k <= 1.0
    ensures In(r, i + k * (l - i))
  {
    if i <= l {
      NonNegative(k, l - i);
      NonNegative(1.0 - k, l - i);
    } else {
      NonNegative(k, i - l);
      NonNegative(1.0 - k, i - l);
    }
  }

  lemma OnEdge(o: Vec2, e: Vec2, g: Vec2, a: Range, l: real, r: real, j: real, x: real) returns (i: real)
    requires In(a, l) && In(a, r) && Point(o, e, g, l, j).x < x < Point(o, e, g, r, j).x
    ensures In(a, i) && Point(o, e, g, i, j).x == x
  {
    hide Scaled;
    var k := Reach(Scaled(e.x, l), Scaled(e.x, r), x - o.x - Scaled(g.x, j));
    i := l + k * (r - l);
    Between(l, r, k, a);
    ScaledMixture(e.x, l, r, k);
  }

  /** The ends of the falling side that faces the corner: one is left of it and the other below. */
  lemma EdgeEnds(o: Vec2, e: Vec2, g: Vec2, a: Range, b: Range, c: Vec2)
    requires Overlaps(o, e, g, a, b, c) && AvoidsQuadrant(o, e, g, a, b, c) && Opposite(e) && SameSign(g)
    ensures var j, l, r := Lowest(g.x, b), Lowest(e.x, a), Lowest(e.y, a);
      In(a, l) && In(a, r) && In(b, j) && Point(o, e, g, l, j).x < c.x < Point(o, e, g, r, j).x
  {
    Extremes(o, e, g, a, b, c);
    var j, r := Lowest(g.x, b), Lowest(e.y, a);
    assert In(a, r) && In(b, j) && j == Lowest(g.y, b);
    hide Scaled, Lowest, Opposite, SameSign;
    assert !InQuadrant(c, Point(o, e, g, r, j));
  }

  /** The falling side that faces the corner passes above it. */
  lemma EdgeAbove(o: Vec2, e: Vec2, g: Vec2, a: Range, b: Range, c: Vec2) returns (i: real)
    requires Overlaps(o, e, g, a, b, c) && AvoidsQuadrant(o, e, g, a, b, c) && Opposite(e) && SameSign(g)
    ensures In(a, i) && In(b, Lowest(g.x, b))
    ensures var p := Point(o, e, g, i, Lowest(g.x, b)); p.x == c.x && p.y > c.y
  {
    hide Scaled, Lowest, Opposite, SameSign, Overlaps, Point;
    EdgeEnds(o, e, g, a, b, c);
    i := OnEdge(o, e, g, a, Lowest(e.x, a), Lowest(e.y, a), Lowest(g.x, b), c.x);
    assert !InQuadrant(c, Point(o, e, g, i, Lowest(g.x, b)));
  }

  // ---------- The gap beyond the edge ----------

  lemma DotOfPoint(o: Vec2, e: Vec2, g: Vec2, i: real, j: real)
    requires Dot(e, g) == 0.0
    ensures Dot(g, Point(o, e, g, i, j)) == Dot(g, o) + Scaled(Dot(g, g), j)
  {
    DotOfPointScalars(o.x, o.y, e.x, e.y, g.x, g.y, i, j, e.x * g.x + e.y * g.y);
  }

  lemma DotOfPointScalars(x: real, y: real, a: real, b: real, c: real, d: real, i: real, j: real, z: real)
    requires z == 0.0 && z == a * c + b * d
    ensures c * (x + a * i + c * j) + d * (y + b * i + d * j) == (c * x + d * y) + (c * c + d * d) * j
  {
    assert c * (x + a * i + c * j) + d * (y + b * i + d * j)
        == (c * x + d * y) + (c * c + d * d) * j + (a * c + b * d) * i;
    assert z * i == 0.0;
  }

  lemma DotOfItself(g: Vec2)
    requires SameSign(g)
    ensures Dot(g, g) > 0.0
  {
    SquareIsPositive(g.x, Scaled(g.x, g.x));
    SquareIsPositive(g.y, Scaled(g.y, g.y));
    hide Scaled;
  }

  lemma SquareIsPositive(x: real, z: real)
    requires x != 0.0 && z == x * x
    ensures z > 0.0
  {
    if x > 0.0 {
      SignOfProduct(x, x, z);
    } else {
      SignOfProduct(-x, -x, z);
    }
  }

  lemma DotOrders(g: Vec2, q: Vec2, p: Vec2)
    requires SameSign(g) && q.x <= p.x && q.y < p.y
    ensures if 0.0 < g.x then Dot(g, q) < Dot(g, p) else Dot(g, p) < Dot(g, q)
  {
    if 0.0 < g.x {
      NonNegative(g.x, p.x - q.x);
      Positive(g.y, p.y - q.y);
    } else {
      NonNegative(-g.x, p.x - q.x);
      Positive(-g.y, p.y - q.y);
    }
  }

  /** Along the rising side, the whole parallelogram lies beyond the quadrant. */
  lemma BeyondEdge(o: Vec2, e: Vec2, g: Vec2, a: Range, b: Range, c: Vec2, i: real, j: real, q: Vec2)
    requires Overlaps(o, e, g, a, b, c) && AvoidsQuadrant(o, e, g, a, b, c)
    requires Dot(e, g) == 0.0 && Opposite(e) && SameSign(g) && In(b, j) && InQuadrant(c, q)
    ensures var p := Point(o, e, g, i, j);
      if 0.0 < g.x then Dot(g, q) < Dot(g, p) else Dot(g, p) < Dot(g, q)
  {
    var i0 := EdgeAbove(o, e, g, a, b, c);
    var j0 := Lowest(g.x, b);
    DotOfPoint(o, e, g, i, j);
    DotOfPoint(o, e, g, i0, j0);
    DotOfItself(g);
    hide Overlaps, AvoidsQuadrant, Opposite;
    DotOrders(g, q, Point(o, e, g, i0, j0));
    hide Dot, Point;
    OrderedScale2(Dot(g, g), if 0.0 < g.x then j0 else j, if 0.0 < g.x then j else j0);
  }

  lemma OrderedScale2(u: real, x: real, y: real)
    requires 0.0 < u && x <= y
    ensures Scaled(u, x) <= Scaled(u, y)
  {
    NonNegative(u, y - x);
  }

  // ---------- The rectangle and its image ----------

  function XRange(s: Rect): Range {
    Range(s.position.x, s.position.x + s.size.x)
  }

  function YRange(s: Rect): Range {
    Range(s.position.y, s.position.y + s.size.y)
  }

  /** The corner of a rectangle with the greatest coordinates. */
  function Top(r: Rect): Vec2 {
    Vec2(r.position.x + r.size.x, r.position.y + r.size.y)
  }

  ghost predicate LeavesQuadrant(r: Rect, t: Map, s: Rect) {
    forall p :: InRect(s, p) ==> !InQuadrant(Top(r), Image(t, p))
  }

  lemma AsPoints(r: Rect, t: Map, s: Rect)
    requires LeavesQuadrant(r, t, s) && !BeyondSide(r, t, s)
    ensures Overlaps(t.origin, t.x, t.y, XRange(s), YRange(s), Top(r))
    ensures Overlaps(t.origin, t.y, t.x, YRange(s), XRange(s), Top(r))
    ensures AvoidsQuadrant(t.origin, t.x, t.y, XRange(s), YRange(s), Top(r))
    ensures AvoidsQuadrant(t.origin, t.y, t.x, YRange(s), XRange(s), Top(r))
  {
    hide Scaled;
    forall i, j | In(XRange(s), i) && In(YRange(s), j)
      ensures !InQuadrant(Top(r), Point(t.origin, t.x, t.y, i, j))
    {
      assert InRect(s, Vec2(i, j)) && Image(t, Vec2(i, j)) == Point(t.origin, t.x, t.y, i, j);
    }
    forall i, j | In(YRange(s), i) && In(XRange(s), j)
      ensures !InQuadrant(Top(r), Point(t.origin, t.y, t.x, i, j))
    {
      assert InRect(s, Vec2(j, i)) && Image(t, Vec2(j, i)) == Point(t.origin, t.y, t.x, i, j);
    }
    var p :| InRect(s, p) && !(r.position.x + r.size.x <= At(ImageX(t), p));
    var q :| InRect(s, q) && !(r.position.y + r.size.y <= At(ImageY(t), q));
    assert In(XRange(s), p.x) && In(YRange(s), p.y) && In(XRange(s), q.x) && In(YRange(s), q.y);
    assert Point(t.origin, t.x, t.y, p.x, p.y).x < Top(r).x && Point(t.origin, t.x, t.y, q.x, q.y).y < Top(r).y;
    assert Point(t.origin, t.y, t.x, p.y, p.x).x < Top(r).x && Point(t.origin, t.y, t.x, q.y, q.x).y < Top(r).y;
  }

  /** Points in order along a direction, with every mapped point on one side. */
  lemma ApartBy(a: Vec2, r: Rect, t: Map, s: Rect, below: bool)
    requires forall p, q :: InRect(s, p) && InRect(r, q) ==>
      if below then Dot(a, q) < Dot(a, Image(t, p)) else Dot(a, Image(t, p)) < Dot(a, q)
    ensures ApartAlong(a, r, t, s)
  {
    forall p
      ensures At(ImageComponent(a, t), p) == Dot(a, Image(t, p)) && At(Component(a), p) == Dot(a, p)
    {
      ImageComponentIs(a, t, p);
    }
    hide At, Dot, Image, Component, ImageComponent, InRect, Scaled;
  }

  /**
   A mapped rectangle at right angles that leaves the quadrant free, and not by being beyond a side, lies apart
   along one of its own sides.
   */
  lemma QuadrantGap(r: Rect, t: Map, s: Rect)
    requires KeepsRightAngles(t) && LeavesQuadrant(r, t, s) && !BeyondSide(r, t, s)
    ensures ApartAlong(t.x, r, t, s) || ApartAlong(t.y, r, t, s)
  {
    AsPoints(r, t, s);
    SomeSideFalls(t.origin, t.x, t.y, XRange(s), YRange(s), Top(r));
    hide BeyondSide, LeavesQuadrant, Overlaps, AvoidsQuadrant, Opposite, SameSign, ApartAlong;
    if Opposite(t.x) {
      PerpendicularRises(t.x, t.y);
      forall p, q | InRect(s, p) && InRect(r, q)
        ensures if 0.0 < t.y.x then Dot(t.y, q) < Dot(t.y, Image(t, p)) else Dot(t.y, Image(t, p)) < Dot(t.y, q)
      {
        BeyondEdge(t.origin, t.x, t.y, XRange(s), YRange(s), Top(r), p.x, p.y, q);
        ImageIsPoint(t, p);
      }
      hide Dot, Image, InRect;
      ApartBy(t.y, r, t, s, 0.0 < t.y.x);
    } else {
      DotCommutes(t.x, t.y);
      PerpendicularRises(t.y, t.x);
      forall p, q | InRect(s, p) && InRect(r, q)
        ensures if 0.0 < t.x.x then Dot(t.x, q) < Dot(t.x, Image(t, p)) else Dot(t.x, Image(t, p)) < Dot(t.x, q)
      {
        BeyondEdge(t.origin, t.y, t.x, YRange(s), XRange(s), Top(r), p.y, p.x, q);
        ImageIsPoint(t, p);
      }
      hide Dot, Image, InRect;
      ApartBy(t.x, r, t, s, 0.0 < t.x.x);
    }
  }

  lemma ImageIsPoint(t: Map, p: Vec2)
    ensures Image(t, p) == Point(t.origin, t.x, t.y, p.x, p.y) == Point(t.origin, t.y, t.x, p.y, p.x)
  {
    hide Scaled;
  }

  lemma DotCommutes(a: Vec2, b: Vec2)
    ensures Dot(a, b) == Dot(b, a)
  {
  }

  // ---------- The image is convex ----------

  function Blend(a: real, b: real, k: real): real {
    a + k * (b - a)
  }

  lemma BlendIsBetween(a: real, b: real, k: real)
    requires 0.0 <= k <= 1.0
    ensures (a <= Blend(a, b, k) <= b) || (b <= Blend(a, b, k) <= a)
  {
    if a <= b {
      Between(a, b, k, Range(a, b));
    } else {
      Between(a, b, k, Range(b, a));
    }
  }

  lemma ScaledBlend(u: real, i: real, l: real, k: real)
    ensures Scaled(u, Blend(i, l, k)) == Blend(Scaled(u, i), Scaled(u, l), k)
  {
    ScaledMixture(u, i, l, k);
    hide Scaled;
  }

  lemma BlendOfSum(a: real, b: real, c: real, d: real, o: real, k: real)
    ensures Blend(a, b, k) + Blend(c, d, k) + o == Blend(a + c + o, b + d + o, k)
  {
  }

  lemma BlendOfForm(u: real, v: real, o: real, p: Vec2, q: Vec2, k: real)
    ensures Scaled(u, Blend(p.x, q.x, k)) + Scaled(v, Blend(p.y, q.y, k)) + o
         == Blend(Scaled(u, p.x) + Scaled(v, p.y) + o, Scaled(u, q.x) + Scaled(v, q.y) + o, k)
  {
    ScaledBlend(u, p.x, q.x, k);
    ScaledBlend(v, p.y, q.y, k);
    BlendOfSum(Scaled(u, p.x), Scaled(u, q.x), Scaled(v, p.y), Scaled(v, q.y), o, k);
    hide Scaled, Blend;
  }

  lemma Mix(t: Map, s: Rect, p: Vec2, q: Vec2, k: real) returns (z: Vec2)
    requires InRect(s, p) && InRect(s, q) && 0.0 <= k <= 1.0
    ensures InRect(s, z)
    ensures Image(t, z) == Vec2(Blend(Image(t, p).x, Image(t, q).x, k), Blend(Image(t, p).y, Image(t, q).y, k))
  {
    z := Vec2(Blend(p.x, q.x, k), Blend(p.y, q.y, k));
    BlendIsBetween(p.x, q.x, k);
    BlendIsBetween(p.y, q.y, k);
    BlendOfForm(t.x.x, t.y.x, t.origin.x, p, q, k);
    BlendOfForm(t.x.y, t.y.y, t.origin.y, p, q, k);
    hide Blend, Scaled;
  }

  predicate Amid(a: real, x: real, b: real) {
    (a <= x <= b) || (b <= x <= a)
  }

  /** Between a point below a line and one above it there is one on the line. */
  lemma CrossY(t: Map, s: Rect, p: Vec2, q: Vec2, m: real) returns (z: Vec2)
    requires InRect(s, p) && InRect(s, q) && Image(t, p).y <= m < Image(t, q).y
    ensures InRect(s, z) && Image(t, z).y == m && Amid(Image(t, p).x, Image(t, z).x, Image(t, q).x)
  {
    hide Image, InRect, Scaled;
    var k := Reach(Image(t, p).y, Image(t, q).y, m);
    z := Mix(t, s, p, q, k);
    BlendIsBetween(Image(t, p).x, Image(t, q).x, k);
  }

  lemma CrossX(t: Map, s: Rect, p: Vec2, q: Vec2, m: real) returns (z: Vec2)
    requires InRect(s, p) && InRect(s, q) && Image(t, p).x <= m < Image(t, q).x
    ensures InRect(s, z) && Image(t, z).x == m && Amid(Image(t, p).y, Image(t, z).y, Image(t, q).y)
  {
    hide Image, InRect, Scaled;
    var k := Reach(Image(t, p).x, Image(t, q).x, m);
    z := Mix(t, s, p, q, k);
    BlendIsBetween(Image(t, p).y, Image(t, q).y, k);
  }

  /** The image and the rectangle have a point in common. */
  ghost predicate Touches(r: Rect, t: Map, s: Rect) {
    exists p :: InRect(s, p) && InRect(r, Image(t, p))
  }

  lemma TouchesAt(r: Rect, t: Map, s: Rect, w: Vec2)
    requires InRect(s, w) && InRect(r, Image(t, w))
    ensures Touches(r, t, s)
  {
  }

  predicate InColumn(r: Rect, q: Vec2) {
    r.position.x <= q.x <= r.position.x + r.size.x
  }

  /** The image has a point in the column of the rectangle. */
  lemma ColumnPoint(r: Rect, t: Map, s: Rect) returns (q: Vec2)
    requires IsProper(r) && !BeyondSide(r, t, s)
    ensures InRect(s, q) && InColumn(r, Image(t, q))
  {
    var p :| InRect(s, p) && !(r.position.x + r.size.x <= At(ImageX(t), p));
    var p' :| InRect(s, p') && !(At(ImageX(t), p') <= r.position.x);
    assert Image(t, p).x < r.position.x + r.size.x && r.position.x < Image(t, p').x;
    hide Scaled, InRect, BeyondSide, Image, At;
    if r.position.x <= Image(t, p).x {
      q := p;
    } else {
      q := CrossX(t, s, p, p', r.position.x);
    }
  }

  /** No point in the column is below the top once one is above it, unless the image touches the rectangle. */
  lemma ColumnIsAbove(r: Rect, t: Map, s: Rect, q: Vec2, z: Vec2)
    requires IsProper(r) && !Touches(r, t, s) && InRect(s, q) && InRect(s, z)
    requires InColumn(r, Image(t, q)) && InColumn(r, Image(t, z)) && Image(t, q).y > Top(r).y
    ensures Image(t, z).y > Top(r).y
  {
    hide Image, Scaled, Touches;
    if Image(t, z).y <= Top(r).y {
      var w := CrossY(t, s, z, q, Top(r).y);
      TouchesAt(r, t, s, w);
    }
  }

  /** With one point of the image above the column and one below its top to the right, nothing is in the quadrant. */
  lemma LeavesIt(r: Rect, t: Map, s: Rect, q: Vec2, p: Vec2)
    requires IsProper(r) && !Touches(r, t, s) && InRect(s, q) && InRect(s, p)
    requires InColumn(r, Image(t, q)) && Image(t, q).y > Top(r).y
    requires Image(t, p).x > Top(r).x && Image(t, p).y <= Top(r).y
    ensures LeavesQuadrant(r, t, s)
  {
    forall z | InRect(s, z)
      ensures !InQuadrant(Top(r), Image(t, z))
    {
      hide Image, Scaled, Touches;
      if InQuadrant(Top(r), Image(t, z)) {
        if r.position.x <= Image(t, z).x {
          ColumnIsAbove(r, t, s, q, z);
        } else {
          var w := CrossX(t, s, z, p, r.position.x);
          ColumnIsAbove(r, t, s, q, w);
        }
      }
    }
  }

  // ---------- Mirrors ----------

  lemma ScaledNegated(u: real, x: real)
    ensures Scaled(-u, x) == -Scaled(u, x)
  {
  }

  lemma MirroredBounds(s: Rect, f: Form, g: Form, bound: real)
    requires forall p :: At(f, p) == -At(g, p)
    ensures StaysBelow(f, s, -bound) <==> StaysAbove(g, s, bound)
    ensures StaysAbove(f, s, -bound) <==> StaysBelow(g, s, bound)
  {
    hide At, InRect;
  }

  lemma SameBounds(s: Rect, f: Form, g: Form)
    requires forall p :: At(f, p) == At(g, p)
    ensures forall bound :: StaysBelow(f, s, bound) <==> StaysBelow(g, s, bound)
    ensures forall bound :: StaysAbove(f, s, bound) <==> StaysAbove(g, s, bound)
  {
    hide At, InRect;
  }

  /** The plane with left and right exchanged. */
  function MirrorX(p: Vec2): Vec2 {
    Vec2(-p.x, p.y)
  }

  function MirrorRectX(r: Rect): Rect {
    Rect(Vec2(-(r.position.x + r.size.x), r.position.y), r.size)
  }

  function MirrorMapX(t: Map): Map {
    Map(MirrorX(t.x), MirrorX(t.y), MirrorX(t.origin))
  }

  lemma MirroredPointsX(r: Rect, t: Map, p: Vec2)
    ensures Image(MirrorMapX(t), p) == MirrorX(Image(t, p))
    ensures InRect(MirrorRectX(r), MirrorX(p)) <==> InRect(r, p)
    ensures MirrorX(MirrorX(p)) == p
  {
    ScaledNegated(t.x.x, p.x);
    ScaledNegated(t.y.x, p.y);
    hide Scaled;
  }

  lemma MirroredDotsX(a: Vec2, b: Vec2)
    ensures Dot(MirrorX(a), MirrorX(b)) == Dot(a, b)
  {
  }

  lemma MirroredSidesX(r: Rect, t: Map, s: Rect)
    ensures BeyondSide(MirrorRectX(r), MirrorMapX(t), s) <==> BeyondSide(r, t, s)
  {
    forall p
      ensures At(ImageX(MirrorMapX(t)), p) == -At(ImageX(t), p) && At(ImageY(MirrorMapX(t)), p) == At(ImageY(t), p)
    {
      MirroredPointsX(r, t, p);
      hide Scaled;
    }
    hide At, InRect, Scaled, ImageX, ImageY;
    MirroredBounds(s, ImageX(MirrorMapX(t)), ImageX(t), r.position.x);
    MirroredBounds(s, ImageX(MirrorMapX(t)), ImageX(t), r.position.x + r.size.x);
    SameBounds(s, ImageY(MirrorMapX(t)), ImageY(t));
    hide StaysBelow, StaysAbove;
  }

  lemma MirroredTouchX(r: Rect, t: Map, s: Rect)
    ensures Touches(MirrorRectX(r), MirrorMapX(t), s) ==> Touches(r, t, s)
  {
    hide Image, InRect, MirrorX, MirrorRectX, MirrorMapX;
    if p :| InRect(s, p) && InRect(MirrorRectX(r), Image(MirrorMapX(t), p)) {
      MirroredPointsX(r, t, p);
      MirroredPointsX(r, t, Image(t, p));
    }
  }

  lemma MirroredApartX(a: Vec2, r: Rect, t: Map, s: Rect)
    requires ApartAlong(MirrorX(a), MirrorRectX(r), MirrorMapX(t), s)
    ensures ApartAlong(a, r, t, s)
  {
    MirroredDotsX(a, t.x);
    MirroredDotsX(a, t.y);
    MirroredDotsX(a, t.origin);
    assert ImageComponent(MirrorX(a), MirrorMapX(t)) == ImageComponent(a, t);
    forall q
      ensures At(Component(MirrorX(a)), MirrorX(q)) == At(Component(a), q)
      ensures InRect(r, q) ==> InRect(MirrorRectX(r), MirrorX(q))
    {
      MirroredDotsX(a, q);
      MirroredPointsX(r, t, q);
      hide Scaled;
    }
    hide At, InRect, Scaled, Component, ImageComponent, MirrorX, MirrorRectX, MirrorMapX;
  }

  /** The plane with top and bottom exchanged. */
  function MirrorY(p: Vec2): Vec2 {
    Vec2(p.x, -p.y)
  }

  function MirrorRectY(r: Rect): Rect {
    Rect(Vec2(r.position.x, -(r.position.y + r.size.y)), r.size)
  }

  function MirrorMapY(t: Map): Map {
    Map(MirrorY(t.x), MirrorY(t.y), MirrorY(t.origin))
  }

  lemma MirroredPointsY(r: Rect, t: Map, p: Vec2)
    ensures Image(MirrorMapY(t), p) == MirrorY(Image(t, p))
    ensures InRect(MirrorRectY(r), MirrorY(p)) <==> InRect(r, p)
    ensures MirrorY(MirrorY(p)) == p
  {
    ScaledNegated(t.x.y, p.x);
    ScaledNegated(t.y.y, p.y);
    hide Scaled;
  }

  lemma MirroredDotsY(a: Vec2, b: Vec2)
    ensures Dot(MirrorY(a), MirrorY(b)) == Dot(a, b)
  {
  }

  lemma MirroredSidesY(r: Rect, t: Map, s: Rect)
    ensures BeyondSide(MirrorRectY(r), MirrorMapY(t), s) <==> BeyondSide(r, t, s)
  {
    forall p
      ensures At(ImageY(MirrorMapY(t)), p) == -At(ImageY(t), p) && At(ImageX(MirrorMapY(t)), p) == At(ImageX(t), p)
    {
      MirroredPointsY(r, t, p);
      hide Scaled;
    }
    hide At, InRect, Scaled, ImageX, ImageY;
    MirroredBounds(s, ImageY(MirrorMapY(t)), ImageY(t), r.position.y);
    MirroredBounds(s, ImageY(MirrorMapY(t)), ImageY(t), r.position.y + r.size.y);
    SameBounds(s, ImageX(MirrorMapY(t)), ImageX(t));
    hide StaysBelow, StaysAbove;
  }

  lemma MirroredTouchY(r: Rect, t: Map, s: Rect)
    ensures Touches(MirrorRectY(r), MirrorMapY(t), s) ==> Touches(r, t, s)
  {
    hide Image, InRect, MirrorY, MirrorRectY, MirrorMapY;
    if p :| InRect(s, p) && InRect(MirrorRectY(r), Image(MirrorMapY(t), p)) {
      MirroredPointsY(r, t, p);
      MirroredPointsY(r, t, Image(t, p));
    }
  }

  lemma MirroredApartY(a: Vec2, r: Rect, t: Map, s: Rect)
    requires ApartAlong(MirrorY(a), MirrorRectY(r), MirrorMapY(t), s)
    ensures ApartAlong(a, r, t, s)
  {
    MirroredDotsY(a, t.x);
    MirroredDotsY(a, t.y);
    MirroredDotsY(a, t.origin);
    assert ImageComponent(MirrorY(a), MirrorMapY(t)) == ImageComponent(a, t);
    forall q
      ensures At(Component(MirrorY(a)), MirrorY(q)) == At(Component(a), q)
      ensures InRect(r, q) ==> InRect(MirrorRectY(r), MirrorY(q))
    {
      MirroredDotsY(a, q);
      MirroredPointsY(r, t, q);
      hide Scaled;
    }
    hide At, InRect, Scaled, Component, ImageComponent, MirrorY, MirrorRectY, MirrorMapY;
  }

  // ---------- The theorem ----------

  /** The image is seen above the column. */
  lemma ApartAbove(r: Rect, t: Map, s: Rect, q: Vec2)
    requires KeepsRightAngles(t) && IsProper(r) && !BeyondSide(r, t, s) && !Touches(r, t, s)
    requires InRect(s, q) && InColumn(r, Image(t, q)) && Image(t, q).y > Top(r).y
    ensures ApartAlong(t.x, r, t, s) || ApartAlong(t.y, r, t, s)
  {
    var p := LowPoint(r, t, s);
    hide BeyondSide, Touches, ApartAlong, Image, InRect, Scaled, Dot;
    if InColumn(r, Image(t, p)) {
      ColumnIsAbove(r, t, s, q, p);
    } else if Image(t, p).x > Top(r).x {
      LeavesIt(r, t, s, q, p);
      QuadrantGap(r, t, s);
    } else {
      ApartAboveLeft(r, t, s, q, p);
    }
  }

  lemma LowPoint(r: Rect, t: Map, s: Rect) returns (p: Vec2)
    requires !BeyondSide(r, t, s)
    ensures InRect(s, p) && Image(t, p).y < Top(r).y
  {
    p :| InRect(s, p) && !(r.position.y + r.size.y <= At(ImageY(t), p));
  }

  lemma ApartAboveLeft(r: Rect, t: Map, s: Rect, q: Vec2, p: Vec2)
    requires KeepsRightAngles(t) && IsProper(r) && !BeyondSide(r, t, s) && !Touches(r, t, s)
    requires InRect(s, q) && InColumn(r, Image(t, q)) && Image(t, q).y > Top(r).y
    requires InRect(s, p) && Image(t, p).y <= Top(r).y && Image(t, p).x < r.position.x
    ensures ApartAlong(t.x, r, t, s) || ApartAlong(t.y, r, t, s)
  {
    var r', t' := MirrorRectX(r), MirrorMapX(t);
    MirroredSidesX(r, t, s);
    MirroredTouchX(r, t, s);
    MirroredPointsX(r, t, q);
    MirroredPointsX(r, t, p);
    MirroredDotsX(t.x, t.y);
    hide BeyondSide, Touches, ApartAlong, Image, InRect, Scaled, Dot;
    LeavesIt(r', t', s, q, p);
    QuadrantGap(r', t', s);
    if ApartAlong(t'.x, r', t', s) {
      MirroredApartX(t.x, r, t, s);
    } else {
      MirroredApartX(t.y, r, t, s);
    }
  }

  lemma ApartBelow(r: Rect, t: Map, s: Rect, q: Vec2)
    requires KeepsRightAngles(t) && IsProper(r) && !BeyondSide(r, t, s) && !Touches(r, t, s)
    requires InRect(s, q) && InColumn(r, Image(t, q)) && Image(t, q).y < r.position.y
    ensures ApartAlong(t.x, r, t, s) || ApartAlong(t.y, r, t, s)
  {
    var r', t' := MirrorRectY(r), MirrorMapY(t);
    MirroredSidesY(r, t, s);
    MirroredTouchY(r, t, s);
    MirroredPointsY(r, t, q);
    MirroredDotsY(t.x, t.y);
    hide BeyondSide, Touches, ApartAlong, Image, InRect, Scaled, Dot;
    ApartAbove(r', t', s, q);
    if ApartAlong(t'.x, r', t', s) {
      MirroredApartY(t.x, r, t, s);
    } else {
      MirroredApartY(t.y, r, t, s);
    }
  }

  /** For a map that keeps right angles, what no side and no direction separates has a point in common. */
  lemma NothingIsMissed(r: Rect, t: Map, s: Rect)
    requires KeepsRightAngles(t) && IsProper(r) && !Separated(r, t, s)
    ensures exists p :: InRect(s, p) && InRect(r, Image(t, p))
  {
    hide BeyondSide, ApartAlong, Image, Scaled, Dot, KeepsRightAngles;
    if !Touches(r, t, s) {
      var q := ColumnPoint(r, t, s);
      if Image(t, q).y > Top(r).y {
        ApartAbove(r, t, s, q);
      } else if Image(t, q).y < r.position.y {
        ApartBelow(r, t, s, q);
      } else {
        TouchesAt(r, t, s, q);
      }
    }
  }
}
