/** Exactly which maps `intersects_transformed` answers for without missing a gap. */
module MissedGaps {
  import opened Products
  import opened SeparatingAxes
  import opened SeparatingAxisTheorem

  /** Whatever the two rectangles, what no side and no direction separates has a point in common. */
  ghost predicate MissesNothing(t: Map) {
    forall r, s :: IsProper(r) && IsProper(s) && !Separated(r, t, s) ==> Touches(r, t, s)
  }

  /** The map keeps right angles, or takes every rectangle to an upright segment, a level one or a point. */
  predicate IsSquareOrFlat(t: Map) {
    KeepsRightAngles(t) || (t.x.x == 0.0 && t.y.x == 0.0) || (t.x.y == 0.0 && t.y.y == 0.0)
  }

  // ---------- Flat images ----------

  lemma UprightImage(t: Map, p: Vec2)
    ensures t.x.x == 0.0 && t.y.x == 0.0 ==> Image(t, p).x == t.origin.x
    ensures t.x.y == 0.0 && t.y.y == 0.0 ==> Image(t, p).y == t.origin.y
  {
    ZeroScale(t.x.x, p.x);
    ZeroScale(t.y.x, p.y);
    ZeroScale(t.x.y, p.x);
    ZeroScale(t.y.y, p.y);
    hide Scaled;
  }

  /** The points that a rectangle not beyond any side must have. */
  lemma PointsWithin(r: Rect, t: Map, s: Rect) returns (low: Vec2, high: Vec2, left: Vec2, right: Vec2)
    requires !BeyondSide(r, t, s)
    ensures InRect(s, low) && InRect(s, high) && InRect(s, left) && InRect(s, right)
    ensures Image(t, low).y < Top(r).y && r.position.y < Image(t, high).y
    ensures Image(t, left).x < Top(r).x && r.position.x < Image(t, right).x
  {
    low :| InRect(s, low) && !(r.position.y + r.size.y <= At(ImageY(t), low));
    high :| InRect(s, high) && !(At(ImageY(t), high) <= r.position.y);
    left :| InRect(s, left) && !(r.position.x + r.size.x <= At(ImageX(t), left));
    right :| InRect(s, right) && !(At(ImageX(t), right) <= r.position.x);
    hide Scaled;
  }

  lemma UprightTouches(r: Rect, t: Map, s: Rect)
    requires t.x.x == 0.0 && t.y.x == 0.0 && IsProper(r) && !BeyondSide(r, t, s)
    ensures Touches(r, t, s)
  {
    var low, high, left, right := PointsWithin(r, t, s);
    UprightImage(t, low);
    UprightImage(t, left);
    UprightImage(t, right);
    hide Image, InRect, BeyondSide, Touches;
    var z := low;
    if Image(t, low).y < r.position.y {
      z := CrossY(t, s, low, high, r.position.y);
      UprightImage(t, z);
    }
    PointTouches(r, t, s, z);
  }

  lemma LevelTouches(r: Rect, t: Map, s: Rect)
    requires t.x.y == 0.0 && t.y.y == 0.0 && IsProper(r) && !BeyondSide(r, t, s)
    ensures Touches(r, t, s)
  {
    var low, high, left, right := PointsWithin(r, t, s);
    UprightImage(t, left);
    UprightImage(t, low);
    UprightImage(t, high);
    hide Image, InRect, BeyondSide, Touches;
    var z := left;
    if Image(t, left).x < r.position.x {
      z := CrossX(t, s, left, right, r.position.x);
      UprightImage(t, z);
    }
    PointTouches(r, t, s, z);
  }

  lemma PointTouches(r: Rect, t: Map, s: Rect, z: Vec2)
    requires InRect(s, z)
    requires r.position.x <= Image(t, z).x <= Top(r).x && r.position.y <= Image(t, z).y <= Top(r).y
    ensures Touches(r, t, s)
  {
    hide Image;
  }

  // ---------- A point beside a slanted edge ----------

  const UNIT := Rect(Vec2(0.0, 0.0), Vec2(1.0, 1.0))

  /** A rectangle without extent. */
  function Dot0(c: Vec2): Rect {
    Rect(c, Vec2(0.0, 0.0))
  }

  predicate StrictlyAmid(a: real, x: real, b: real) {
    (a < x < b) || (b < x < a)
  }

  lemma NotBeyondAny(c: Vec2, t: Map, p: Vec2, q: Vec2)
    requires InRect(UNIT, p) && InRect(UNIT, q)
    requires StrictlyAmid(Image(t, p).x, c.x, Image(t, q).x) && StrictlyAmid(Image(t, p).y, c.y, Image(t, q).y)
    ensures !BeyondSide(Dot0(c), t, UNIT)
  {
    assert forall z :: At(ImageX(t), z) == Image(t, z).x && At(ImageY(t), z) == Image(t, z).y;
    hide At, Image, ImageX, ImageY, Scaled, InRect, StaysBelow, StaysAbove;
    NotBeyond(ImageX(t), UNIT, c.x, p);
    NotBeyond(ImageX(t), UNIT, c.x, q);
    NotBeyond(ImageY(t), UNIT, c.y, p);
    NotBeyond(ImageY(t), UNIT, c.y, q);
  }

  lemma NotApartAlong(a: Vec2, c: Vec2, t: Map, p: Vec2, q: Vec2)
    requires InRect(UNIT, p) && InRect(UNIT, q)
    requires Amid(Dot(a, Image(t, p)), Dot(a, c), Dot(a, Image(t, q)))
    ensures !ApartAlong(a, Dot0(c), t, UNIT)
  {
    ImageComponentIs(a, t, p);
    ImageComponentIs(a, t, q);
    assert At(Component(a), c) == Dot(a, c) && InRect(Dot0(c), c);
    hide At, Image, Dot, Component, ImageComponent, Scaled, InRect, Apart;
    var f, g, r := Component(a), ImageComponent(a, t), Dot0(c);
    var rising := Dot(a, Image(t, p)) <= Dot(a, c) <= Dot(a, Image(t, q));
    var low, high := if rising then p else q, if rising then q else p;
    NotApart(f, r, g, UNIT, c, low);
    NotApart(g, UNIT, f, r, high, c);
  }

  lemma Small(u: real, w: real) returns (k: real)
    requires 0.0 <= u && 0.0 < w
    ensures 0.0 < k && k * u < w
  {
    k := w / (u + 1.0);
    assert k * (u + 1.0) == w;
    if k <= 0.0 {
      NonNegative(-k, u + 1.0);
    }
  }

  function Abs(x: real): real {
    if x < 0.0 then -x else x
  }

  lemma SmallerYet(k: real, l: real, u: real, w: real)
    requires 0.0 < k <= l && 0.0 <= u && l * u < w
    ensures k * u < w
  {
    NonNegative(l - k, u);
    assert (l - k) * u == l * u - k * u;
  }

  lemma AbsScaled(k: real, u: real)
    requires 0.0 < k
    ensures Abs(Scaled(k, u)) == k * Abs(u)
  {
    if u < 0.0 {
      NonNegative(k, -u);
    } else {
      NonNegative(k, u);
    }
  }

  /** A factor so small that each quantity, multiplied by it, stays below its limit. */
  lemma ShortStep(u: seq<real>, w: seq<real>) returns (k: real)
    requires |u| == |w| && forall i :: 0 <= i < |w| ==> 0.0 < w[i]
    ensures 0.0 < k && forall i :: 0 <= i < |u| ==> Abs(Scaled(k, u[i])) < w[i]
    decreases |u|
  {
    hide Scaled, Abs;
    if u == [] {
      k := 1.0;
    } else {
      var n := |u| - 1;
      var l := ShortStep(u[..n], w[..n]);
      AbsIsNot(u[n]);
      var m := Small(Abs(u[n]), w[n]);
      k := if l <= m then l else m;
      SmallerYet(k, m, Abs(u[n]), w[n]);
      AbsScaled(k, u[n]);
      forall i | 0 <= i < n
        ensures Abs(Scaled(k, u[i])) < w[i]
      {
        AbsIsNot(u[i]);
        AbsScaled(k, u[i]);
        AbsScaled(l, u[i]);
        assert u[..n][i] == u[i] && w[..n][i] == w[i];
        SmallerYet(k, l, Abs(u[i]), w[i]);
      }
    }
  }

  lemma AbsIsNot(x: real)
    ensures 0.0 <= Abs(x)
  {
  }

  /** The middle of the edge from `o` along `e`, moved by `k` times `v`. */
  function Beside(o: Vec2, e: Vec2, v: Vec2, k: real): Vec2 {
    Vec2(o.x + e.x / 2.0 + Scaled(k, v.x), o.y + e.y / 2.0 + Scaled(k, v.y))
  }

  function Plus(o: Vec2, e: Vec2): Vec2 {
    Vec2(o.x + e.x, o.y + e.y)
  }

  lemma DotAlong(a: Vec2, o: Vec2, e: Vec2, v: Vec2, k: real)
    ensures Dot(a, Beside(o, e, v, k)) == Dot(a, o) + Dot(a, e) / 2.0 + Scaled(k, Dot(a, v))
    ensures Dot(a, Plus(o, e)) == Dot(a, o) + Dot(a, e)
  {
    DotAlongScalars(a.x, a.y, o.x, o.y, e.x, e.y, v.x, v.y, k);
  }

  lemma DotAlongScalars(a: real, b: real, x: real, y: real, ex: real, ey: real, vx: real, vy: real, k: real)
    ensures a * (x + ex / 2.0 + k * vx) + b * (y + ey / 2.0 + k * vy)
         == a * x + b * y + (a * ex + b * ey) / 2.0 + k * (a * vx + b * vy)
    ensures a * (x + ex) + b * (y + ey) == a * x + b * y + (a * ex + b * ey)
  {
  }

  /**
   `e` and `g` are the two columns of the map, in either order, and `p` the corner of the unit square that `e`
   leads to.
   */
  predicate AreEdges(t: Map, e: Vec2, g: Vec2, p: Vec2) {
    (e == t.x && g == t.y && p == Vec2(1.0, 0.0)) || (e == t.y && g == t.x && p == Vec2(0.0, 1.0))
  }

  lemma EdgeImage(t: Map, e: Vec2, g: Vec2, p: Vec2)
    requires AreEdges(t, e, g, p)
    ensures Image(t, UNIT.position) == t.origin && Image(t, p) == Plus(t.origin, e)
    ensures InRect(UNIT, p) && InRect(UNIT, UNIT.position)
  {
  }

  /** The step is short beside half the edge, in its coordinates and in its components along both columns. */
  ghost predicate IsShort(e: Vec2, g: Vec2, v: Vec2, k: real) {
    && 0.0 < k
    && Abs(Scaled(k, v.x)) < Abs(e.x) / 2.0 && Abs(Scaled(k, v.y)) < Abs(e.y) / 2.0
    && Abs(Scaled(k, Dot(e, v))) <= Abs(Dot(e, e)) / 2.0 && Abs(Scaled(k, Dot(g, v))) <= Abs(Dot(g, e)) / 2.0
  }

  lemma HalfWay(o: real, e: real, d: real)
    ensures Abs(d) < Abs(e) / 2.0 ==> StrictlyAmid(o, o + e / 2.0 + d, o + e)
    ensures Abs(d) <= Abs(e) / 2.0 ==> Amid(o, o + e / 2.0 + d, o + e)
  {
  }

  /** None of the six tests tells the point beside the edge from the image. */
  lemma BesideIsNotSeparated(t: Map, e: Vec2, g: Vec2, p: Vec2, v: Vec2, k: real)
    requires AreEdges(t, e, g, p) && IsShort(e, g, v, k)
    ensures !Separated(Dot0(Beside(t.origin, e, v, k)), t, UNIT)
  {
    var o := t.origin;
    var c := Beside(o, e, v, k);
    EdgeImage(t, e, g, p);
    hide Image, Scaled, Dot, InRect, Abs, StrictlyAmid, Amid, BeyondSide, ApartAlong;
    HalfWay(o.x, e.x, Scaled(k, v.x));
    HalfWay(o.y, e.y, Scaled(k, v.y));
    NotBeyondAny(c, t, UNIT.position, p);
    DotAlong(e, o, e, v, k);
    HalfWay(Dot(e, o), Dot(e, e), Scaled(k, Dot(e, v)));
    NotApartAlong(e, c, t, UNIT.position, p);
    DotAlong(g, o, e, v, k);
    HalfWay(Dot(g, o), Dot(g, e), Scaled(k, Dot(g, v)));
    NotApartAlong(g, c, t, UNIT.position, p);
  }

  function Cross(a: Vec2, b: Vec2): real {
    Scaled(a.x, b.y) - Scaled(a.y, b.x)
  }

  /** How far a point beside the edge would lie along the other column. */
  lemma AcrossEdge(o: Vec2, e: Vec2, g: Vec2, v: Vec2, k: real, i: real, j: real)
    requires Point(o, e, g, i, j) == Beside(o, e, v, k)
    ensures Scaled(j, Cross(e, g)) == Scaled(k, Cross(e, v))
  {
    AcrossScalars(e.x, e.y, g.x, g.y, v.x, v.y, k, i, j);
  }

  lemma AcrossScalars(ex: real, ey: real, gx: real, gy: real, vx: real, vy: real, k: real, i: real, j: real)
    requires ex * i + gx * j == ex / 2.0 + k * vx && ey * i + gy * j == ey / 2.0 + k * vy
    ensures j * (ex * gy - ey * gx) == k * (ex * vy - ey * vx)
  {
    assert ey * (ex * i + gx * j) == ey * (ex / 2.0 + k * vx);
    assert ex * (ey * i + gy * j) == ex * (ey / 2.0 + k * vy);
  }

  /** The step leaves the image: no multiple of the other column between none and once makes up for it. */
  ghost predicate LeavesImage(e: Vec2, g: Vec2, v: Vec2, k: real) {
    forall j :: 0.0 <= j <= 1.0 ==> Scaled(j, Cross(e, g)) != Scaled(k, Cross(e, v))
  }

  lemma BesideIsNotTouched(t: Map, e: Vec2, g: Vec2, p: Vec2, v: Vec2, k: real)
    requires AreEdges(t, e, g, p) && LeavesImage(e, g, v, k)
    ensures !Touches(Dot0(Beside(t.origin, e, v, k)), t, UNIT)
  {
    var c := Beside(t.origin, e, v, k);
    forall q | InRect(UNIT, q)
      ensures !InRect(Dot0(c), Image(t, q))
    {
      ImageIsPoint(t, q);
      if Image(t, q) == c {
        var straight := e == t.x && g == t.y;
        AcrossEdge(t.origin, e, g, v, k, if straight then q.x else q.y, if straight then q.y else q.x);
      }
    }
    hide Image, Scaled, Cross;
  }

  // ---------- Which way to step ----------

  predicate IsSlanted(e: Vec2) {
    e.x != 0.0 && e.y != 0.0
  }

  lemma SquarePositive(e: Vec2)
    requires IsSlanted(e)
    ensures Dot(e, e) > 0.0
  {
    SquareIsPositive(e.x, Scaled(e.x, e.x));
    SquareIsPositive(e.y, Scaled(e.y, e.y));
    hide Scaled;
  }

  lemma ShortEnough(e: Vec2, g: Vec2, v: Vec2) returns (k: real)
    requires IsSlanted(e) && (Dot(g, e) == 0.0 ==> Dot(g, v) == 0.0)
    ensures IsShort(e, g, v, k)
  {
    SquarePositive(e);
    hide Scaled, Dot;
    var limit := if Dot(g, e) == 0.0 then 1.0 else Abs(Dot(g, e)) / 2.0;
    k := ShortStep([v.x, v.y, Dot(e, v), Dot(g, v)], [Abs(e.x) / 2.0, Abs(e.y) / 2.0, Abs(Dot(e, e)) / 2.0, limit]);
    TakesFour(k, v.x, v.y, Dot(e, v), Dot(g, v), Abs(e.x) / 2.0, Abs(e.y) / 2.0, Abs(Dot(e, e)) / 2.0, limit);
    if Dot(g, e) == 0.0 {
      ScaledZero(k);
    }
  }

  lemma ScaledZero(k: real)
    ensures Scaled(k, 0.0) == 0.0
  {
  }

  lemma TakesFour(k: real, a: real, b: real, c: real, d: real, w: real, x: real, y: real, z: real)
    requires forall i :: 0 <= i < 4 ==> Abs(Scaled(k, [a, b, c, d][i])) < [w, x, y, z][i]
    ensures Abs(Scaled(k, a)) < w && Abs(Scaled(k, b)) < x && Abs(Scaled(k, c)) < y && Abs(Scaled(k, d)) < z
  {
    hide Scaled, Abs;
    assert [a, b, c, d][0] == a && [a, b, c, d][1] == b && [a, b, c, d][2] == c && [a, b, c, d][3] == d;
    assert [w, x, y, z][0] == w && [w, x, y, z][1] == x && [w, x, y, z][2] == y && [w, x, y, z][3] == z;
  }

  /** Away from the image, against the other column. */
  lemma StepAgainst(e: Vec2, g: Vec2) returns (v: Vec2, k: real)
    requires IsSlanted(e) && Dot(g, e) != 0.0 && Cross(e, g) != 0.0
    ensures IsShort(e, g, v, k) && LeavesImage(e, g, v, k)
  {
    v := Vec2(-g.x, -g.y);
    CrossNegated(e, g);
    hide Dot, Cross, IsSlanted;
    k := ShortEnough(e, g, v);
    forall j | 0.0 <= j <= 1.0
      ensures Scaled(j, Cross(e, g)) != Scaled(k, -Cross(e, g))
    {
      NotOpposed(j, k, Cross(e, g));
    }
  }

  lemma CrossNegated(e: Vec2, g: Vec2)
    ensures Cross(e, Vec2(-g.x, -g.y)) == -Cross(e, g)
  {
  }

  lemma NotOpposed(j: real, k: real, d: real)
    requires 0.0 <= j && 0.0 < k && d != 0.0
    ensures Scaled(j, d) != Scaled(k, -d)
  {
    if d > 0.0 {
      Positive(j + k, d);
    } else {
      Positive(j + k, -d);
    }
  }

  /** Across the line that the image lies on. */
  lemma StepAcross(e: Vec2, g: Vec2) returns (v: Vec2, k: real)
    requires IsSlanted(e) && Cross(e, g) == 0.0
    ensures IsShort(e, g, v, k) && LeavesImage(e, g, v, k)
  {
    v := Vec2(-e.y, e.x);
    CrossOfNormal(e, g);
    SquarePositive(e);
    hide Dot, Cross, IsSlanted;
    k := ShortEnough(e, g, v);
    forall j | 0.0 <= j <= 1.0
      ensures Scaled(j, 0.0) != Scaled(k, Dot(e, e))
    {
      ScaledZero(j);
      Positive(k, Dot(e, e));
    }
  }

  lemma CrossOfNormal(e: Vec2, g: Vec2)
    ensures var v := Vec2(-e.y, e.x); Cross(e, v) == Dot(e, e) && Dot(g, v) == Cross(e, g)
  {
  }

  /** A slanted edge of the image has a point beside it that no test sees. */
  lemma SlantedEdgeMisses(t: Map, e: Vec2, g: Vec2, p: Vec2)
    requires AreEdges(t, e, g, p) && IsSlanted(e) && (Cross(e, g) != 0.0 ==> Dot(g, e) != 0.0)
    ensures !MissesNothing(t)
  {
    hide AreEdges, IsSlanted, Cross, Dot, IsShort, LeavesImage, Beside, Separated, Touches;
    var v, k;
    if Cross(e, g) == 0.0 {
      v, k := StepAcross(e, g);
    } else {
      v, k := StepAgainst(e, g);
    }
    BesideIsNotSeparated(t, e, g, p, v, k);
    BesideIsNotTouched(t, e, g, p, v, k);
    assert IsProper(Dot0(Beside(t.origin, e, v, k))) && IsProper(UNIT);
  }

  lemma CrossOfZero(e: Vec2, g: Vec2)
    ensures g == Vec2(0.0, 0.0) ==> Cross(e, g) == 0.0 && Cross(g, e) == 0.0
    ensures Cross(g, e) == -Cross(e, g)
  {
  }

  lemma AxisColumns(a: Vec2, b: Vec2)
    requires !IsSlanted(a) && !IsSlanted(b)
    requires !(a.x == 0.0 && b.x == 0.0) && !(a.y == 0.0 && b.y == 0.0)
    ensures Dot(a, b) == 0.0 && a != Vec2(0.0, 0.0) && b != Vec2(0.0, 0.0)
  {
    ZeroScale(a.x, b.x);
    ZeroScale(a.y, b.y);
    ZeroScale(b.x, a.x);
    ZeroScale(b.y, a.y);
    ScaledZero(a.x);
    ScaledZero(a.y);
    hide Scaled;
  }

  /**
   The test misses no gap exactly for maps that keep right angles and for those whose images are all
   upright or all level. For any other map there are two rectangles without a common point that it takes
   for intersecting.
   */
  lemma MissesNothingExactly(t: Map)
    ensures MissesNothing(t) <==> IsSquareOrFlat(t)
  {
    if IsSquareOrFlat(t) {
      forall r, s | IsProper(r) && IsProper(s) && !Separated(r, t, s)
        ensures Touches(r, t, s)
      {
        FlatOrSquareTouches(r, t, s);
      }
    } else {
      CrossOfZero(t.x, t.y);
      CrossOfZero(t.y, t.x);
      DotCommutes(t.x, t.y);
      hide Cross, Dot, MissesNothing;
      if IsSlanted(t.x) {
        SlantedEdgeMisses(t, t.x, t.y, Vec2(1.0, 0.0));
      } else if IsSlanted(t.y) {
        SlantedEdgeMisses(t, t.y, t.x, Vec2(0.0, 1.0));
      } else {
        AxisColumns(t.x, t.y);
      }
    }
  }

  lemma FlatOrSquareTouches(r: Rect, t: Map, s: Rect)
    requires IsSquareOrFlat(t) && IsProper(r) && !Separated(r, t, s)
    ensures Touches(r, t, s)
  {
    hide KeepsRightAngles, BeyondSide, ApartAlong, Touches, InRect, Image;
    if KeepsRightAngles(t) {
      NothingIsMissed(r, t, s);
      var p :| InRect(s, p) && InRect(r, Image(t, p));
      TouchesAt(r, t, s, p);
    } else if t.x.x == 0.0 && t.y.x == 0.0 {
      UprightTouches(r, t, s);
    } else {
      LevelTouches(r, t, s);
    }
  }
}
