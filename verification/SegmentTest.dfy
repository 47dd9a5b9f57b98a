/**
 Where a segment first meets an axis-parallel box: the slab tests of `Rect2` and `AABB`, which differ only
 in their dimension.
 */
module SegmentTest {
  import opened Products

  /** A vector of any dimension. */
  type Vector = seq<real>

  /** A box, given by a corner and by its extent along each axis, which may be negative: then no point is in the box. */
  datatype Box = Box(position: Vector, size: Vector)

  predicate HasDimension(b: Box, n: nat) {
    |b.position| == |b.size| == n
  }

  function Begin(b: Box, i: nat): real
    requires i < |b.position|
  {
    b.position[i]
  }

  function End(b: Box, i: nat): real
    requires i < |b.position| && i < |b.size|
  {
    b.position[i] + b.size[i]
  }

  /**
   The coordinate that a segment from `a` to `c` has reached at time `t`, if it starts at time 0 and ends at
   time 1.
   */
  function Along(a: real, c: real, t: real): real {
    a + Part(c - a, t)
  }

  function Part(d: real, t: real): real {
    d * t
  }

  function PointAt(a: Vector, c: Vector, t: real): (p: Vector)
    requires |a| == |c|
    ensures |p| == |a|
  {
    seq(|a|, i requires 0 <= i < |a| => Along(a[i], c[i], t))
  }

  predicate InSlab(low: real, high: real, x: real) {
    low <= x <= high
  }

  predicate InBox(b: Box, p: Vector)
    requires HasDimension(b, |p|)
  {
    forall i :: 0 <= i < |p| ==> InSlab(Begin(b, i), End(b, i), p[i])
  }

  /** At time `t` the segment is in the box. */
  predicate Hits(b: Box, a: Vector, c: Vector, t: real)
    requires |a| == |c| && HasDimension(b, |a|)
  {
    0.0 <= t <= 1.0 && InBox(b, PointAt(a, c, t))
  }

  ghost predicate IsFirst(b: Box, a: Vector, c: Vector, t: real)
    requires |a| == |c| && HasDimension(b, |a|)
  {
    Hits(b, a, c, t) && forall u: real :: Hits(b, a, c, u) ==> t <= u
  }

  // ---------- One axis ----------

  /** The segment lies beside the slab. */
  predicate Misses(low: real, high: real, a: real, c: real) {
    if a < c then a > high || c < low else c > high || a < low
  }

  /** The time at which the segment enters the slab, and 0 when it starts in it. */
  function Enter(low: real, high: real, a: real, c: real): real {
    if a < c then (if a < low then (low - a) / (c - a) else 0.0)
    else if a > high && a != c then (high - a) / (c - a) else 0.0
  }

  /** The time at which the segment leaves the slab, and 1 when it ends in it. */
  function Leave(low: real, high: real, a: real, c: real): real {
    if a < c then (if c > high then (high - a) / (c - a) else 1.0)
    else if c < low && a != c then (low - a) / (c - a) else 1.0
  }

  lemma PartOf(d: real, t: real)
    requires 0.0 <= d && 0.0 <= t <= 1.0
    ensures 0.0 <= Part(d, t) <= d
  {
    NonNegative(d, t);
    NonNegative(d, 1.0 - t);
    assert d * (1.0 - t) == d - d * t;
  }

  lemma PartGrows(d: real, x: real, t: real)
    requires d > 0.0
    ensures x <= Part(d, t) <==> x / d <= t
    ensures Part(d, t) <= x <==> t <= x / d
    ensures Part(d, x / d) == x
  {
    var q := x / d;
    assert d * q == x;
    if t < q {
      Positive(d, q - t);
      assert d * (q - t) == x - d * t;
    } else if q < t {
      Positive(d, t - q);
      assert d * (t - q) == d * t - x;
    }
  }

  lemma PartNegated(d: real, t: real)
    ensures Part(-d, t) == -Part(d, t)
  {
  }

  lemma QuotientNegated(x: real, d: real)
    requires d != 0.0
    ensures (-x) / (-d) == x / d
  {
    var q := x / d;
    assert q * d == x;
    assert q * (-d) == -x;
  }

  lemma Reaches(a: real, c: real, x: real, t: real)
    requires a < c
    ensures x <= Along(a, c, t) <==> (x - a) / (c - a) <= t
    ensures Along(a, c, t) <= x <==> t <= (x - a) / (c - a)
    ensures Along(a, c, (x - a) / (c - a)) == x
  {
    PartGrows(c - a, x - a, t);
    hide Part;
  }

  lemma Falls(a: real, c: real, x: real, t: real)
    requires a > c
    ensures Along(a, c, t) <= x <==> (x - a) / (c - a) <= t
    ensures x <= Along(a, c, t) <==> t <= (x - a) / (c - a)
    ensures Along(a, c, (x - a) / (c - a)) == x
  {
    var d, e := a - c, a - x;
    PartGrows(d, e, t);
    QuotientNegated(e, d);
    PartNegated(d, t);
    PartNegated(d, e / d);
    hide Part;
    assert c - a == -d && x - a == -e;
  }

  lemma Between(a: real, c: real, t: real)
    requires 0.0 <= t <= 1.0
    ensures a <= c ==> a <= Along(a, c, t) <= c
    ensures c <= a ==> c <= Along(a, c, t) <= a
  {
    PartNegated(a - c, t);
    if a <= c {
      PartOf(c - a, t);
    }
    if c <= a {
      PartOf(a - c, t);
    }
    hide Part;
    assert c - a == -(a - c);
  }

  /** While it lasts, the segment is in the slab exactly from the time it enters to the time it leaves. */
  lemma InSlabWhen(low: real, high: real, a: real, c: real, t: real)
    requires 0.0 <= t <= 1.0
    ensures InSlab(low, high, Along(a, c, t))
      <==> !Misses(low, high, a, c) && Enter(low, high, a, c) <= t <= Leave(low, high, a, c)
  {
    Between(a, c, t);
    if a < c {
      Reaches(a, c, low, t);
      Reaches(a, c, high, t);
    } else if a > c {
      Falls(a, c, low, t);
      Falls(a, c, high, t);
    }
    hide Along;
  }

  /** A segment that enters the slab late does so through the face it comes upon first, and was outside before. */
  lemma EntersThroughFace(low: real, high: real, a: real, c: real, u: real)
    requires !Misses(low, high, a, c) && 0.0 < Enter(low, high, a, c)
    ensures a != c
    ensures Along(a, c, Enter(low, high, a, c)) == if a < c then low else high
    ensures u < Enter(low, high, a, c) ==> if a < c then Along(a, c, u) < low else Along(a, c, u) > high
  {
    if a < c {
      Reaches(a, c, low, u);
    } else if a > c {
      Falls(a, c, high, u);
    }
    hide Along;
  }

  // ---------- All axes ----------

  function EnterAt(b: Box, a: Vector, c: Vector, i: nat): real
    requires |a| == |c| && HasDimension(b, |a|) && i < |a|
  {
    Enter(Begin(b, i), End(b, i), a[i], c[i])
  }

  function LeaveAt(b: Box, a: Vector, c: Vector, i: nat): real
    requires |a| == |c| && HasDimension(b, |a|) && i < |a|
  {
    Leave(Begin(b, i), End(b, i), a[i], c[i])
  }

  predicate MissesAt(b: Box, a: Vector, c: Vector, i: nat)
    requires |a| == |c| && HasDimension(b, |a|) && i < |a|
  {
    Misses(Begin(b, i), End(b, i), a[i], c[i])
  }

  predicate InSlabAt(b: Box, a: Vector, c: Vector, i: nat, t: real)
    requires |a| == |c| && HasDimension(b, |a|) && i < |a|
  {
    InSlab(Begin(b, i), End(b, i), Along(a[i], c[i], t))
  }

  /** At time `t` the segment is in the first `n` slabs. */
  predicate InSlabs(b: Box, a: Vector, c: Vector, n: nat, t: real)
    requires |a| == |c| && HasDimension(b, |a|) && n <= |a|
  {
    forall i :: 0 <= i < n ==> InSlabAt(b, a, c, i, t)
  }

  lemma HitsInSlabs(b: Box, a: Vector, c: Vector, t: real)
    requires |a| == |c| && HasDimension(b, |a|)
    ensures Hits(b, a, c, t) <==> 0.0 <= t <= 1.0 && InSlabs(b, a, c, |a|, t)
  {
    var p := PointAt(a, c, t);
    assert forall i :: 0 <= i < |a| ==> p[i] == Along(a[i], c[i], t);
    hide Along;
    if InSlabs(b, a, c, |a|, t) {
      forall i | 0 <= i < |p|
        ensures InSlab(Begin(b, i), End(b, i), p[i])
      {
        assert InSlabAt(b, a, c, i, t);
      }
    }
    if InBox(b, p) {
      forall i | 0 <= i < |a|
        ensures InSlabAt(b, a, c, i, t)
      {
        assert InSlab(Begin(b, i), End(b, i), p[i]);
      }
    }
  }

  /** The times from `min` to `max`, which are times of the segment, are those at which it is in the first `n` slabs. */
  ghost predicate IsSpan(b: Box, a: Vector, c: Vector, n: nat, min: real, max: real)
    requires |a| == |c| && HasDimension(b, |a|) && n <= |a|
  {
    && 0.0 <= min <= max <= 1.0
    && forall t: real :: 0.0 <= t <= 1.0 ==> (InSlabs(b, a, c, n, t) <==> min <= t <= max)
  }

  function Max(x: real, y: real): real {
    if y > x then y else x
  }

  function Min(x: real, y: real): real {
    if y < x then y else x
  }

  lemma NextSlab(b: Box, a: Vector, c: Vector, n: nat, min: real, max: real)
    requires |a| == |c| && HasDimension(b, |a|) && n < |a| && IsSpan(b, a, c, n, min, max)
    ensures var min', max' := Max(min, EnterAt(b, a, c, n)), Min(max, LeaveAt(b, a, c, n));
      if !MissesAt(b, a, c, n) && min' <= max' then IsSpan(b, a, c, n + 1, min', max')
      else forall t: real :: !Hits(b, a, c, t)
  {
    var min', max' := Max(min, EnterAt(b, a, c, n)), Min(max, LeaveAt(b, a, c, n));
    var m := n + 1;
    forall t: real | 0.0 <= t <= 1.0
      ensures InSlabs(b, a, c, m, t) <==> !MissesAt(b, a, c, n) && min' <= t <= max'
    {
      InSlabWhen(Begin(b, n), End(b, n), a[n], c[n], t);
      hide Misses, Enter, Leave, Along, InSlab;
      assert InSlabs(b, a, c, m, t) <==> InSlabs(b, a, c, n, t) && InSlabAt(b, a, c, n, t);
    }
    hide Hits, EnterAt, LeaveAt, MissesAt, InSlabAt;
    forall t: real
      ensures Hits(b, a, c, t) ==> 0.0 <= t <= 1.0 && InSlabs(b, a, c, m, t)
    {
      HitsInSlabs(b, a, c, t);
    }
  }

  function AxisVector(n: nat, axis: nat, sign: real): (v: Vector)
    ensures |v| == n
  {
    seq(n, i requires 0 <= i < n => if i == axis then sign else 0.0)
  }

  /**
   The axis and the sign of the face that the segment enters through at time `t`: those of the first
   axis when it enters through several faces at once, and no sign when it starts in the box.
   */
  predicate IsFace(b: Box, a: Vector, c: Vector, t: real, axis: nat, sign: real)
    requires |a| == |c| && HasDimension(b, |a|)
  {
    if t == 0.0 then sign == 0.0
    else
      && axis < |a| && !MissesAt(b, a, c, axis) && EnterAt(b, a, c, axis) == t
      && sign == (if a[axis] < c[axis] then -1.0 else 1.0)
      && forall j :: 0 <= j < axis ==> EnterAt(b, a, c, j) < t
  }

  ghost predicate IsNormal(b: Box, a: Vector, c: Vector, t: real, normal: Vector)
    requires |a| == |c| && HasDimension(b, |a|)
  {
    exists axis, sign :: IsFace(b, a, c, t, axis, sign) && normal == AxisVector(|a|, axis, sign)
  }

  /** `intersects_segment`, for a box of either dimension. */
  method IntersectsSegment(b: Box, a: Vector, c: Vector)
    returns (hit: bool, min: real, position: Vector, normal: Vector)
    requires |a| == |c| && HasDimension(b, |a|)
    ensures hit <==> exists t: real :: Hits(b, a, c, t)
    ensures hit ==> IsFirst(b, a, c, min) && position == PointAt(a, c, min) && IsNormal(b, a, c, min, normal)
  {
    hit, position, normal := false, [], [];
    min := 0.0;
    var max, axis, sign := 1.0, 0, 0.0;
    hide Along, IsFirst;
    for i := 0 to |a|
      invariant IsSpan(b, a, c, i, min, max)
      invariant !hit && IsFace(b, a, c, min, axis, sign) && forall j :: 0 <= j < i ==> EnterAt(b, a, c, j) <= min
    {
      NextSlab(b, a, c, i, min, max);
      hide IsSpan, Hits;
      var segFrom, segTo := a[i], c[i];
      var boxBegin := b.position[i];
      var boxEnd := boxBegin + b.size[i];
      var cmin, cmax, csign: real;
      if segFrom < segTo {
        if segFrom > boxEnd || segTo < boxBegin {
          return;
        }
        var length := segTo - segFrom;
        cmin := if segFrom < boxBegin then (boxBegin - segFrom) / length else 0.0;
        cmax := if segTo > boxEnd then (boxEnd - segFrom) / length else 1.0;
        csign := -1.0;
      } else {
        if segTo > boxEnd || segFrom < boxBegin {
          return;
        }
        var length := segTo - segFrom;
        cmin := if segFrom > boxEnd then (boxEnd - segFrom) / length else 0.0;
        cmax := if segTo < boxBegin then (boxBegin - segFrom) / length else 1.0;
        csign := 1.0;
      }
      assert cmin == EnterAt(b, a, c, i) && cmax == LeaveAt(b, a, c, i) && !MissesAt(b, a, c, i);
      hide EnterAt, LeaveAt, MissesAt;
      if cmin > min {
        min, axis, sign := cmin, i, csign;
      }
      if cmax < max {
        max := cmax;
      }
      if max < min {
        return;
      }
    }
    SpanStart(b, a, c, min, max);
    hit := true;
    normal := AxisVector(|a|, axis, sign);
    position := seq(|a|, i requires 0 <= i < |a| => Along(a[i], c[i], min));
  }

  lemma SpanStart(b: Box, a: Vector, c: Vector, min: real, max: real)
    requires |a| == |c| && HasDimension(b, |a|) && IsSpan(b, a, c, |a|, min, max)
    ensures Hits(b, a, c, min) && IsFirst(b, a, c, min)
  {
    hide Hits;
    forall t: real
      ensures Hits(b, a, c, t) <==> 0.0 <= t <= 1.0 && InSlabs(b, a, c, |a|, t)
    {
      HitsInSlabs(b, a, c, t);
    }
  }

  // ---------- What the answers mean ----------

  /**
   The reported normal is opposite to the way the segment goes through the face it enters by: at time
   `t` it is on that face, and before it is outside the box. It is zero when the segment starts inside.
   */
  lemma NormalFacesSegment(b: Box, a: Vector, c: Vector, t: real, axis: nat, sign: real, u: real)
    requires |a| == |c| && HasDimension(b, |a|) && IsFirst(b, a, c, t) && IsFace(b, a, c, t, axis, sign)
    ensures t == 0.0 ==> AxisVector(|a|, axis, sign) == seq(|a|, _ => 0.0)
    ensures t > 0.0 ==>
      && axis < |a| && sign * (c[axis] - a[axis]) < 0.0
      && PointAt(a, c, t)[axis] == (if sign < 0.0 then Begin(b, axis) else End(b, axis))
      && (u < t ==> !InSlab(Begin(b, axis), End(b, axis), PointAt(a, c, u)[axis]))
  {
    if t > 0.0 {
      EntersThroughFace(Begin(b, axis), End(b, axis), a[axis], c[axis], u);
      hide Along, Enter, Misses;
    }
  }

  /** A box with a negative extent contains no point, so no segment hits it. */
  lemma NegativeIsEmpty(b: Box, a: Vector, c: Vector, i: nat, t: real)
    requires |a| == |c| && HasDimension(b, |a|) && i < |a| && b.size[i] < 0.0
    ensures !Hits(b, a, c, t)
  {
    assert !InSlab(Begin(b, i), End(b, i), PointAt(a, c, t)[i]);
  }

  /** Within a slab of the third axis, the test in space agrees with the test in the plane. */
  lemma PlaneAgreesWithSpace(b: Box, a: Vector, c: Vector, low: real, depth: real, x: real, y: real, t: real)
    requires |a| == |c| && HasDimension(b, |a|) && InSlab(low, low + depth, x) && InSlab(low, low + depth, y)
    ensures Hits(Box(b.position + [low], b.size + [depth]), a + [x], c + [y], t) <==> Hits(b, a, c, t)
  {
    var b', a', c', n := Box(b.position + [low], b.size + [depth]), a + [x], c + [y], |a|;
    if 0.0 <= t <= 1.0 {
      Between(x, y, t);
    }
    HitsInSlabs(b, a, c, t);
    HitsInSlabs(b', a', c', t);
    hide Hits;
    forall i | 0 <= i < n
      ensures InSlabAt(b', a', c', i, t) <==> InSlabAt(b, a, c, i, t)
    {
    }
  }
}
