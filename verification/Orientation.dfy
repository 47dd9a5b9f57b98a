/** From rotation matrices back to quaternions: `get_quaternion`, and why it undoes `set_quaternion`. */
module Orientation {
  import opened Rotation

  /** A square root that is exact wherever it is defined; it need not be defined below zero. */
  ghost predicate IsSqrt(sqrt: real --> real) {
    forall x: real :: 0.0 <= x ==> sqrt.requires(x) && 0.0 <= sqrt(x) && sqrt(x) * sqrt(x) == x
  }

  function Trace(m: Mat3): real {
    m.m00 + m.m11 + m.m22
  }

  /** The index of the diagonal entry that the source takes for the largest. */
  function Pivot(m: Mat3): nat {
    if m.m00 < m.m11 then (if m.m11 < m.m22 then 2 else 1) else (if m.m00 < m.m22 then 2 else 0)
  }

  /** What `get_quaternion` takes the square root of. */
  function Radicand(m: Mat3): real {
    if Trace(m) > 0.0 then Trace(m) + 1.0
    else match Pivot(m)
      case 0 => m.m00 - m.m11 - m.m22 + 1.0
      case 1 => m.m11 - m.m22 - m.m00 + 1.0
      case _ => m.m22 - m.m00 - m.m11 + 1.0
  }

  /** Whatever the matrix, the square root is defined, and not zero: every branch is safe. */
  lemma RadicandIsPositive(m: Mat3)
    ensures Radicand(m) >= 1.0
  {
  }

  lemma RootIsPositive(m: Mat3, sqrt: real --> real)
    requires IsSqrt(sqrt)
    ensures sqrt.requires(Radicand(m)) && sqrt(Radicand(m)) > 0.0
    ensures sqrt(Radicand(m)) * sqrt(Radicand(m)) == Radicand(m)
  {
    RadicandIsPositive(m);
    hide Radicand;
    assert 0.0 <= Radicand(m);
  }

  function Over(e: real, s: real): real
    requires s != 0.0
  {
    e * (0.5 / s)
  }

  /** What `get_quaternion` makes of the entries and the square root `s`. */
  function ReadWith(m: Mat3, s: real): Quat
    requires s != 0.0
  {
    if Trace(m) > 0.0 then
      Quat(Over(m.m21 - m.m12, s), Over(m.m02 - m.m20, s), Over(m.m10 - m.m01, s), s * 0.5)
    else match Pivot(m)
      case 0 => Quat(s * 0.5, Over(m.m10 + m.m01, s), Over(m.m20 + m.m02, s), Over(m.m21 - m.m12, s))
      case 1 => Quat(Over(m.m01 + m.m10, s), s * 0.5, Over(m.m21 + m.m12, s), Over(m.m02 - m.m20, s))
      case _ => Quat(Over(m.m02 + m.m20, s), Over(m.m12 + m.m21, s), s * 0.5, Over(m.m10 - m.m01, s))
  }

  /** The quaternion that `get_quaternion` returns. */
  function QuaternionOf(m: Mat3, sqrt: real --> real): Quat
    requires IsSqrt(sqrt)
  {
    RootIsPositive(m, sqrt);
    ReadWith(m, sqrt(Radicand(m)))
  }

  // ---------- Matrix to quaternion, after quaternion to matrix ----------

  function Signed(positive: bool, a: real): real {
    if positive then a else -a
  }

  /** The positive root of the square of `2 * a` is `2 * a`, up to its sign. */
  lemma RootOfSquare(s: real, a: real) returns (positive: bool)
    requires s * s == 2.0 * Twice(a, a)
    ensures s * 0.5 == Signed(positive, a)
  {
    assert (s - 2.0 * a) * (s + 2.0 * a) == 0.0;
    positive := s == 2.0 * a;
  }

  lemma RootSign(m: Mat3, sqrt: real --> real, a: real) returns (positive: bool)
    requires IsSqrt(sqrt) && Radicand(m) == 2.0 * Twice(a, a)
    ensures sqrt.requires(Radicand(m)) && sqrt(Radicand(m)) > 0.0
    ensures sqrt(Radicand(m)) * 0.5 == Signed(positive, a)
  {
    RootIsPositive(m, sqrt);
    hide Radicand, IsSqrt, Twice;
    positive := RootOfSquare(sqrt(Radicand(m)), a);
  }

  lemma Quotient(s: real, a: real, b: real, positive: bool, e: real)
    requires s > 0.0 && s * 0.5 == Signed(positive, a) && e == 2.0 * Twice(a, b)
    ensures Over(e, s) == Signed(positive, b)
  {
    var t := 0.5 / s;
    assert s * t == 0.5;
    assert e == 2.0 * s * Signed(positive, b);
    assert e * t == 2.0 * Signed(positive, b) * (s * t);
  }

  lemma UnitTwice(q: Quat)
    requires LengthSquared(q) == 1.0
    ensures Twice(q.x, q.x) + Twice(q.y, q.y) + Twice(q.z, q.z) + Twice(q.w, q.w) == 2.0
  {
  }

  /** Sums and differences of the entries of the matrix of a unit quaternion. */
  lemma UnitEntries(q: Quat)
    requires LengthSquared(q) == 1.0
    ensures var Quat(x, y, z, w), m := q, RotationOf(q);
      && Trace(m) + 1.0 == 2.0 * Twice(w, w)
      && m.m00 - m.m11 - m.m22 + 1.0 == 2.0 * Twice(x, x)
      && m.m11 - m.m22 - m.m00 + 1.0 == 2.0 * Twice(y, y)
      && m.m22 - m.m00 - m.m11 + 1.0 == 2.0 * Twice(z, z)
      && m.m21 - m.m12 == 2.0 * Twice(w, x) && m.m02 - m.m20 == 2.0 * Twice(w, y) && m.m10 - m.m01 == 2.0 * Twice(w, z)
      && m.m10 + m.m01 == 2.0 * Twice(x, y) && m.m20 + m.m02 == 2.0 * Twice(x, z) && m.m21 + m.m12 == 2.0 * Twice(y, z)
      && Twice(x, w) == Twice(w, x) && Twice(y, w) == Twice(w, y) && Twice(z, w) == Twice(w, z)
      && Twice(y, x) == Twice(x, y) && Twice(z, x) == Twice(x, z) && Twice(z, y) == Twice(y, z)
  {
    UnitForm(q);
    UnitTwice(q);
    Commutes(q.x, q.w);
    Commutes(q.y, q.w);
    Commutes(q.z, q.w);
    Commutes(q.y, q.x);
    Commutes(q.z, q.x);
    Commutes(q.z, q.y);
    hide Twice, LengthSquared, RotationOf;
  }

  /** The quaternion read from the matrix of a unit quaternion is that quaternion or its negative, in every branch. */
  lemma ReadsBack(q: Quat, sqrt: real --> real)
    requires LengthSquared(q) == 1.0 && IsSqrt(sqrt)
    ensures QuaternionOf(RotationOf(q), sqrt) in {q, Negated(q)}
  {
    var m := RotationOf(q);
    UnitEntries(q);
    hide RotationOf, LengthSquared, Twice, Over, IsSqrt;
    var s := sqrt(Radicand(m));
    if Trace(m) > 0.0 {
      var positive := RootSign(m, sqrt, q.w);
      Quotient(s, q.w, q.x, positive, m.m21 - m.m12);
      Quotient(s, q.w, q.y, positive, m.m02 - m.m20);
      Quotient(s, q.w, q.z, positive, m.m10 - m.m01);
    } else if Pivot(m) == 0 {
      var positive := RootSign(m, sqrt, q.x);
      Quotient(s, q.x, q.y, positive, m.m10 + m.m01);
      Quotient(s, q.x, q.z, positive, m.m20 + m.m02);
      Quotient(s, q.x, q.w, positive, m.m21 - m.m12);
    } else if Pivot(m) == 1 {
      var positive := RootSign(m, sqrt, q.y);
      Quotient(s, q.y, q.x, positive, m.m01 + m.m10);
      Quotient(s, q.y, q.z, positive, m.m21 + m.m12);
      Quotient(s, q.y, q.w, positive, m.m02 - m.m20);
    } else {
      var positive := RootSign(m, sqrt, q.z);
      Quotient(s, q.z, q.x, positive, m.m02 + m.m20);
      Quotient(s, q.z, q.y, positive, m.m12 + m.m21);
      Quotient(s, q.z, q.w, positive, m.m10 - m.m01);
    }
  }

  // ---------- Quaternion to matrix, after matrix to quaternion ----------

  /** The rows (a, b, c), (d, e, f) and (g, h, i) and their columns have length one. */
  predicate UnitRows(m: Mat3) {
    && Dot(m.m00, m.m01, m.m02, m.m00, m.m01, m.m02) == 1.0 && Dot(m.m00, m.m10, m.m20, m.m00, m.m10, m.m20) == 1.0
    && Dot(m.m10, m.m11, m.m12, m.m10, m.m11, m.m12) == 1.0 && Dot(m.m01, m.m11, m.m21, m.m01, m.m11, m.m21) == 1.0
    && Dot(m.m20, m.m21, m.m22, m.m20, m.m21, m.m22) == 1.0 && Dot(m.m02, m.m12, m.m22, m.m02, m.m12, m.m22) == 1.0
  }

  predicate OrthogonalRows(m: Mat3) {
    && Dot(m.m00, m.m01, m.m02, m.m10, m.m11, m.m12) == 0.0 && Dot(m.m00, m.m10, m.m20, m.m01, m.m11, m.m21) == 0.0
    && Dot(m.m00, m.m01, m.m02, m.m20, m.m21, m.m22) == 0.0 && Dot(m.m00, m.m10, m.m20, m.m02, m.m12, m.m22) == 0.0
    && Dot(m.m10, m.m11, m.m12, m.m20, m.m21, m.m22) == 0.0 && Dot(m.m01, m.m11, m.m21, m.m02, m.m12, m.m22) == 0.0
  }

  /** Every entry is its own cofactor. */
  predicate OwnCofactors(m: Mat3) {
    && Crosses(1.0, m.m11, m.m22, m.m12, m.m21, m.m00) && Crosses(1.0, m.m12, m.m20, m.m10, m.m22, m.m01)
    && Crosses(1.0, m.m10, m.m21, m.m11, m.m20, m.m02) && Crosses(1.0, m.m21, m.m02, m.m22, m.m01, m.m10)
    && Crosses(1.0, m.m22, m.m00, m.m20, m.m02, m.m11) && Crosses(1.0, m.m20, m.m01, m.m21, m.m00, m.m12)
    && Crosses(1.0, m.m01, m.m12, m.m02, m.m11, m.m20) && Crosses(1.0, m.m02, m.m10, m.m00, m.m12, m.m21)
    && Crosses(1.0, m.m00, m.m11, m.m01, m.m10, m.m22)
  }

  predicate IsRigid(m: Mat3) {
    UnitRows(m) && OrthogonalRows(m) && OwnCofactors(m)
  }

  /** Four times the square of each coordinate of the quaternion of a rotation. */
  function KW(m: Mat3): real {
    m.m00 + m.m11 + m.m22 + 1.0
  }

  function KX(m: Mat3): real {
    m.m00 - m.m11 - m.m22 + 1.0
  }

  function KY(m: Mat3): real {
    m.m11 - m.m22 - m.m00 + 1.0
  }

  function KZ(m: Mat3): real {
    m.m22 - m.m00 - m.m11 + 1.0
  }

  predicate Minor(e: real, f: real, k: real, g: real) {
    e * f == k * g
  }

  lemma SquareWX(m: Mat3)
    requires UnitRows(m) && Crosses(1.0, m.m11, m.m22, m.m12, m.m21, m.m00)
    ensures Minor(m.m21 - m.m12, m.m21 - m.m12, KW(m), KX(m))
  {
  }

  lemma SquareXY(m: Mat3)
    requires UnitRows(m) && Crosses(1.0, m.m00, m.m11, m.m01, m.m10, m.m22)
    ensures Minor(m.m10 + m.m01, m.m10 + m.m01, KX(m), KY(m))
  {
  }

  lemma MixedWXY(m: Mat3)
    requires Crosses(1.0, m.m21, m.m02, m.m22, m.m01, m.m10) && Crosses(1.0, m.m12, m.m20, m.m10, m.m22, m.m01)
    requires Dot(m.m00, m.m10, m.m20, m.m01, m.m11, m.m21) == 0.0
        && Dot(m.m00, m.m01, m.m02, m.m10, m.m11, m.m12) == 0.0
    ensures Minor(m.m21 - m.m12, m.m02 - m.m20, KW(m), m.m10 + m.m01)
  {
  }

  lemma MixedXWZ(m: Mat3)
    requires Crosses(1.0, m.m21, m.m02, m.m22, m.m01, m.m10) && Crosses(1.0, m.m12, m.m20, m.m10, m.m22, m.m01)
    requires Dot(m.m00, m.m10, m.m20, m.m01, m.m11, m.m21) == 0.0
        && Dot(m.m00, m.m01, m.m02, m.m10, m.m11, m.m12) == 0.0
    ensures Minor(m.m21 - m.m12, m.m20 + m.m02, KX(m), m.m10 - m.m01)
  {
  }

  lemma MixedXWY(m: Mat3)
    requires Crosses(1.0, m.m10, m.m21, m.m11, m.m20, m.m02) && Crosses(1.0, m.m01, m.m12, m.m02, m.m11, m.m20)
    requires Dot(m.m00, m.m01, m.m02, m.m20, m.m21, m.m22) == 0.0
        && Dot(m.m00, m.m10, m.m20, m.m02, m.m12, m.m22) == 0.0
    ensures Minor(m.m21 - m.m12, m.m10 + m.m01, KX(m), m.m02 - m.m20)
  {
  }

  lemma MixedXYZ(m: Mat3)
    requires Crosses(1.0, m.m20, m.m01, m.m21, m.m00, m.m12) && Crosses(1.0, m.m02, m.m10, m.m00, m.m12, m.m21)
    requires Dot(m.m10, m.m11, m.m12, m.m20, m.m21, m.m22) == 0.0
        && Dot(m.m01, m.m11, m.m21, m.m02, m.m12, m.m22) == 0.0
    ensures Minor(m.m10 + m.m01, m.m20 + m.m02, KX(m), m.m21 + m.m12)
  {
  }

  /** The same rotation, with the axes x, y, z renamed to z, x, y. */
  function TurnedMatrix(m: Mat3): Mat3 {
    Mat3(m.m11, m.m12, m.m10, m.m21, m.m22, m.m20, m.m01, m.m02, m.m00)
  }

  lemma TurnedRows(m: Mat3)
    requires UnitRows(m) && OrthogonalRows(m)
    ensures UnitRows(TurnedMatrix(m)) && OrthogonalRows(TurnedMatrix(m))
  {
  }

  lemma TurnedCofactors(m: Mat3)
    requires OwnCofactors(m)
    ensures OwnCofactors(TurnedMatrix(m))
  {
  }

  /** For a rotation, the table of four times the products of the coordinates has rank one: the rows of x. */
  lemma MinorsX(m: Mat3)
    requires IsRigid(m)
    ensures Minor(m.m21 - m.m12, m.m21 - m.m12, KX(m), KW(m))
    ensures Minor(m.m10 + m.m01, m.m10 + m.m01, KX(m), KY(m))
    ensures Minor(m.m20 + m.m02, m.m20 + m.m02, KX(m), KZ(m))
    ensures Minor(m.m21 - m.m12, m.m10 + m.m01, KX(m), m.m02 - m.m20)
    ensures Minor(m.m21 - m.m12, m.m20 + m.m02, KX(m), m.m10 - m.m01)
    ensures Minor(m.m10 + m.m01, m.m20 + m.m02, KX(m), m.m21 + m.m12)
  {
    hide Crosses, Dot, Minor;
    SquareWX(m);
    MinorSwap(m.m21 - m.m12, m.m21 - m.m12, KW(m), KX(m));
    SquareXY(m);
    SquareXZ(m);
    MixedXWY(m);
    MixedXWZ(m);
    MixedXYZ(m);
  }

  lemma MinorSwap(e: real, f: real, k: real, g: real)
    ensures Minor(e, f, k, g) == Minor(e, f, g, k)
  {
  }

  lemma SquareXZ(m: Mat3)
    requires UnitRows(m) && Crosses(1.0, m.m22, m.m00, m.m20, m.m02, m.m11)
    ensures Minor(m.m20 + m.m02, m.m20 + m.m02, KX(m), KZ(m))
  {
  }

  lemma MinorsW(m: Mat3)
    requires IsRigid(m)
    ensures Minor(m.m21 - m.m12, m.m21 - m.m12, KW(m), KX(m))
    ensures Minor(m.m21 - m.m12, m.m02 - m.m20, KW(m), m.m10 + m.m01)
  {
    hide Crosses, Dot, Minor;
    SquareWX(m);
    MixedWXY(m);
  }

  lemma TurnedRigid(m: Mat3)
    requires IsRigid(m)
    ensures IsRigid(TurnedMatrix(m))
  {
    TurnedRows(m);
    TurnedCofactors(m);
    hide UnitRows, OrthogonalRows, OwnCofactors, TurnedMatrix;
  }

  lemma FirstTimes(s: real, e: real)
    requires s > 0.0
    ensures 2.0 * Twice(s * 0.5, Over(e, s)) == e
  {
    var t := 0.5 / s;
    assert s * t == 0.5;
    assert 2.0 * (2.0 * ((s * 0.5) * (e * t))) == 2.0 * (s * t) * e;
  }

  lemma FirstSquared(s: real, k: real)
    requires s * s == k
    ensures 2.0 * Twice(s * 0.5, s * 0.5) == k
  {
  }

  lemma OthersTimes(s: real, k: real, e: real, f: real, g: real)
    requires s > 0.0 && s * s == k && Minor(e, f, k, g)
    ensures 2.0 * Twice(Over(e, s), Over(f, s)) == g
  {
    var t := 0.5 / s;
    assert s * t == 0.5;
    assert (s * t) * (s * t) == 0.25;
    assert 2.0 * (2.0 * ((e * t) * (f * t))) == 4.0 * (e * f) * (t * t);
    assert 4.0 * (e * f) * (t * t) == 4.0 * (k * g) * (t * t);
    assert 4.0 * (k * g) * (t * t) == 4.0 * g * ((s * t) * (s * t));
  }

  /** A quaternion whose coordinates multiply to the right sums and differences of entries has matrix `m`. */
  lemma MatrixFromProducts(q: Quat, m: Mat3)
    requires 2.0 * Twice(q.w, q.w) == KW(m) && 2.0 * Twice(q.x, q.x) == KX(m)
    requires 2.0 * Twice(q.y, q.y) == KY(m) && 2.0 * Twice(q.z, q.z) == KZ(m)
    requires 2.0 * Twice(q.w, q.x) == m.m21 - m.m12 && 2.0 * Twice(q.w, q.y) == m.m02 - m.m20
    requires 2.0 * Twice(q.w, q.z) == m.m10 - m.m01 && 2.0 * Twice(q.x, q.y) == m.m10 + m.m01
    requires 2.0 * Twice(q.x, q.z) == m.m20 + m.m02 && 2.0 * Twice(q.y, q.z) == m.m21 + m.m12
    ensures LengthSquared(q) == 1.0 && RotationOf(q) == m
  {
    LengthByTwice(q);
    hide Twice, LengthSquared, RotationOf;
    UnitForm(q);
  }

  lemma LengthByTwice(q: Quat)
    ensures 2.0 * LengthSquared(q) == Twice(q.x, q.x) + Twice(q.y, q.y) + Twice(q.z, q.z) + Twice(q.w, q.w)
  {
  }

  lemma RestoreByTrace(m: Mat3, s: real, q: Quat)
    requires IsRigid(m) && s > 0.0 && s * s == KW(m)
    requires q == Quat(Over(m.m21 - m.m12, s), Over(m.m02 - m.m20, s), Over(m.m10 - m.m01, s), s * 0.5)
    ensures LengthSquared(q) == 1.0 && RotationOf(q) == m
  {
    var k, a, b, c := KW(m), m.m21 - m.m12, m.m02 - m.m20, m.m10 - m.m01;
    var t := TurnedMatrix(m);
    MinorsW(m);
    TurnedRigid(m);
    MinorsW(t);
    TurnedRigid(t);
    MinorsW(TurnedMatrix(t));
    hide IsRigid, Over, Twice, Minor, LengthSquared, RotationOf;
    FirstSquared(s, k);
    FirstTimes(s, a);
    FirstTimes(s, b);
    FirstTimes(s, c);
    OthersTimes(s, k, a, a, KX(m));
    OthersTimes(s, k, b, b, KY(m));
    OthersTimes(s, k, c, c, KZ(m));
    OthersTimes(s, k, a, b, m.m10 + m.m01);
    OthersTimes(s, k, b, c, m.m21 + m.m12);
    OthersTimes(s, k, c, a, m.m20 + m.m02);
    Commutes(Over(c, s), Over(a, s));
    Commutes(q.w, q.x);
    Commutes(q.w, q.y);
    Commutes(q.w, q.z);
    MatrixFromProducts(q, m);
  }

  lemma RestoreByX(m: Mat3, s: real, q: Quat)
    requires IsRigid(m) && s > 0.0 && s * s == KX(m)
    requires q == Quat(s * 0.5, Over(m.m10 + m.m01, s), Over(m.m20 + m.m02, s), Over(m.m21 - m.m12, s))
    ensures LengthSquared(q) == 1.0 && RotationOf(q) == m
  {
    var k, a, b, c := KX(m), m.m10 + m.m01, m.m20 + m.m02, m.m21 - m.m12;
    MinorsX(m);
    hide IsRigid, Over, Twice, Minor, LengthSquared, RotationOf;
    FirstSquared(s, k);
    FirstTimes(s, a);
    FirstTimes(s, b);
    FirstTimes(s, c);
    OthersTimes(s, k, a, a, KY(m));
    OthersTimes(s, k, b, b, KZ(m));
    OthersTimes(s, k, c, c, KW(m));
    OthersTimes(s, k, a, b, m.m21 + m.m12);
    OthersTimes(s, k, c, a, m.m02 - m.m20);
    OthersTimes(s, k, c, b, m.m10 - m.m01);
    Commutes(q.w, q.x);
    MatrixFromProducts(q, m);
  }

  lemma Unturn(q: Quat, m: Mat3)
    requires LengthSquared(Turned(q)) == 1.0 && RotationOf(Turned(q)) == TurnedMatrix(m)
    ensures LengthSquared(q) == 1.0 && RotationOf(q) == m
  {
    LengthOfTurned(q);
    Commutes(q.x, q.y);
    Commutes(q.x, q.z);
    hide Twice, LengthSquared, RotationOf;
    UnitForm(q);
    UnitForm(Turned(q));
  }

  lemma LengthOfTurned(q: Quat)
    ensures LengthSquared(Turned(q)) == LengthSquared(q)
  {
  }

  lemma ImageTwice(a: Mat3, b: Mat3, v: Vec3)
    ensures Image(Times(a, b), v) == Image(a, Image(b, v))
  {
    DotTwice(a.m00, a.m01, a.m02, b, v);
    DotTwice(a.m10, a.m11, a.m12, b, v);
    DotTwice(a.m20, a.m21, a.m22, b, v);
    hide Dot;
  }

  lemma DotTwice(a: real, b: real, c: real, m: Mat3, v: Vec3)
    ensures Dot(Dot(a, b, c, m.m00, m.m10, m.m20), Dot(a, b, c, m.m01, m.m11, m.m21),
                Dot(a, b, c, m.m02, m.m12, m.m22), v.x, v.y, v.z)
         == Dot(a, b, c, Dot(m.m00, m.m01, m.m02, v.x, v.y, v.z), Dot(m.m10, m.m11, m.m12, v.x, v.y, v.z),
                Dot(m.m20, m.m21, m.m22, v.x, v.y, v.z))
  {
  }

  lemma ImageBack(m: Mat3, c: Vec3, e: Vec3)
    requires Times(Transposed(m), m) == IDENTITY && Image(m, c) == e
    ensures c == Image(Transposed(m), e)
  {
    hide Times, Transposed;
    ImageTwice(Transposed(m), m, c);
  }

  function Cof(e: real, f: real, g: real, h: real): real {
    e * f - g * h
  }

  /** Each row is the cross product of the next two. */
  function Cofactors(m: Mat3): Mat3 {
    Mat3(
      Cof(m.m11, m.m22, m.m12, m.m21), Cof(m.m12, m.m20, m.m10, m.m22), Cof(m.m10, m.m21, m.m11, m.m20),
      Cof(m.m21, m.m02, m.m22, m.m01), Cof(m.m22, m.m00, m.m20, m.m02), Cof(m.m20, m.m01, m.m21, m.m00),
      Cof(m.m01, m.m12, m.m02, m.m11), Cof(m.m02, m.m10, m.m00, m.m12), Cof(m.m00, m.m11, m.m01, m.m10))
  }

  /** The triple product of three rows. */
  function Triple(a: real, b: real, c: real, d: real, e: real, f: real, g: real, h: real, i: real): real {
    Dot(a, b, c, Cof(e, i, f, h), Cof(f, g, d, i), Cof(d, h, e, g))
  }

  lemma TripleRepeats(a: real, b: real, c: real, d: real, e: real, f: real)
    ensures Triple(a, b, c, a, b, c, d, e, f) == 0.0 && Triple(a, b, c, d, e, f, a, b, c) == 0.0
  {
  }

  lemma TripleIsDet(m: Mat3)
    ensures Triple(m.m00, m.m01, m.m02, m.m10, m.m11, m.m12, m.m20, m.m21, m.m22) == Det(m)
  {
  }

  lemma TripleTurns(a: real, b: real, c: real, d: real, e: real, f: real, g: real, h: real, i: real)
    ensures Triple(d, e, f, g, h, i, a, b, c) == Triple(a, b, c, d, e, f, g, h, i)
  {
  }

  lemma CofactorImages(m: Mat3)
    ensures var c := Cofactors(m);
      && Image(m, Vec3(c.m00, c.m01, c.m02)) == Vec3(Det(m), 0.0, 0.0)
      && Image(m, Vec3(c.m10, c.m11, c.m12)) == Vec3(0.0, Det(m), 0.0)
      && Image(m, Vec3(c.m20, c.m21, c.m22)) == Vec3(0.0, 0.0, Det(m))
  {
    TripleIsDet(m);
    TripleTurns(m.m00, m.m01, m.m02, m.m10, m.m11, m.m12, m.m20, m.m21, m.m22);
    TripleTurns(m.m10, m.m11, m.m12, m.m20, m.m21, m.m22, m.m00, m.m01, m.m02);
    TripleRepeats(m.m00, m.m01, m.m02, m.m10, m.m11, m.m12);
    TripleRepeats(m.m00, m.m01, m.m02, m.m20, m.m21, m.m22);
    TripleRepeats(m.m10, m.m11, m.m12, m.m00, m.m01, m.m02);
    TripleRepeats(m.m10, m.m11, m.m12, m.m20, m.m21, m.m22);
    TripleRepeats(m.m20, m.m21, m.m22, m.m00, m.m01, m.m02);
    TripleRepeats(m.m20, m.m21, m.m22, m.m10, m.m11, m.m12);
    hide Det, Dot, Cof;
  }

  lemma CofactorsOfRotation(m: Mat3)
    requires IsRotation(m)
    ensures Cofactors(m) == m
  {
    var c := Cofactors(m);
    hide Dot, Det, Times, Cofactors, Image;
    CofactorImages(m);
    ImageBack(m, Vec3(c.m00, c.m01, c.m02), Vec3(1.0, 0.0, 0.0));
    ImageBack(m, Vec3(c.m10, c.m11, c.m12), Vec3(0.0, 1.0, 0.0));
    ImageBack(m, Vec3(c.m20, c.m21, c.m22), Vec3(0.0, 0.0, 1.0));
    ColumnsOf(Transposed(m));
  }

  lemma CofCrosses(e: real, f: real, g: real, h: real)
    ensures Crosses(1.0, e, f, g, h, Cof(e, f, g, h))
  {
  }

  lemma CofactorsAreEntries(m: Mat3)
    requires Cofactors(m) == m
    ensures OwnCofactors(m)
  {
    hide Crosses, Cof;
    CofCrosses(m.m11, m.m22, m.m12, m.m21);
    CofCrosses(m.m12, m.m20, m.m10, m.m22);
    CofCrosses(m.m10, m.m21, m.m11, m.m20);
    CofCrosses(m.m21, m.m02, m.m22, m.m01);
    CofCrosses(m.m22, m.m00, m.m20, m.m02);
    CofCrosses(m.m20, m.m01, m.m21, m.m00);
    CofCrosses(m.m01, m.m12, m.m02, m.m11);
    CofCrosses(m.m02, m.m10, m.m00, m.m12);
    CofCrosses(m.m00, m.m11, m.m01, m.m10);
  }

  lemma RotationIsRigid(m: Mat3)
    requires IsRotation(m)
    ensures IsRigid(m)
  {
    CofactorsOfRotation(m);
    CofactorsAreEntries(m);
    hide Dot, Det, OwnCofactors, Cofactors;
  }

  lemma ReadWithWritesBack(m: Mat3, s: real)
    requires IsRigid(m) && s > 0.0 && s * s == Radicand(m)
    ensures LengthSquared(ReadWith(m, s)) == 1.0 && RotationOf(ReadWith(m, s)) == m
  {
    var q, t := ReadWith(m, s), TurnedMatrix(m);
    hide IsRotation, IsRigid, Over, Twice, LengthSquared, RotationOf;
    TurnedRigid(m);
    TurnedRigid(t);
    if Trace(m) > 0.0 {
      RestoreByTrace(m, s, q);
    } else if Pivot(m) == 0 {
      RestoreByX(m, s, q);
    } else if Pivot(m) == 1 {
      RestoreByX(t, s, Turned(q));
      Unturn(q, m);
    } else {
      RestoreByX(TurnedMatrix(t), s, Turned(Turned(q)));
      Unturn(Turned(q), t);
      Unturn(q, m);
    }
  }

  /** On every rotation matrix, `set_quaternion` after `get_quaternion` gives the matrix back. */
  lemma WritesBack(m: Mat3, sqrt: real --> real)
    requires IsRotation(m) && IsSqrt(sqrt)
    ensures LengthSquared(QuaternionOf(m, sqrt)) == 1.0
    ensures RotationOf(QuaternionOf(m, sqrt)) == m
  {
    hide *;
    RotationIsRigid(m);
    RootIsPositive(m, sqrt);
    QuaternionIs(m, sqrt);
    ReadWithWritesBack(m, sqrt(Radicand(m)));
  }

  lemma QuaternionIs(m: Mat3, sqrt: real --> real)
    requires IsSqrt(sqrt)
    ensures sqrt.requires(Radicand(m)) && sqrt(Radicand(m)) > 0.0
    ensures QuaternionOf(m, sqrt) == ReadWith(m, sqrt(Radicand(m)))
  {
    RootIsPositive(m, sqrt);
    hide ReadWith, Radicand, IsSqrt;
  }

  // ---------- Consequences ----------

  lemma UnitOf(n: real, q: Quat) returns (u: Quat)
    requires n > 0.0 && n * n == LengthSquared(q)
    ensures LengthSquared(q) != 0.0 && LengthSquared(u) == 1.0
    ensures Scaled(n, u) == q && RotationOf(u) == RotationOf(q)
  {
    var k := 1.0 / n;
    NonzeroProduct(n, n, LengthSquared(q));
    u := Scaled(k, q);
    RotationOfScaled(k, q);
    LengthOfScaled(k, q);
    hide LengthSquared, RotationOf;
    InverseFactor(n, k, LengthSquared(q));
    ScaledBack(n, k, q);
  }

  lemma LengthOfScaled(k: real, q: Quat)
    ensures LengthSquared(Scaled(k, q)) == (k * k) * LengthSquared(q)
  {
  }

  lemma InverseFactor(n: real, k: real, d: real)
    requires n * k == 1.0 && n * n == d
    ensures (k * k) * d == 1.0
  {
    assert (k * k) * d == (n * k) * (n * k);
  }

  lemma ScaledBack(n: real, k: real, q: Quat)
    requires n * k == 1.0
    ensures Scaled(n, Scaled(k, q)) == q
  {
    assert n * (k * q.x) == (n * k) * q.x;
    assert n * (k * q.y) == (n * k) * q.y;
    assert n * (k * q.z) == (n * k) * q.z;
    assert n * (k * q.w) == (n * k) * q.w;
  }

  lemma ScaledNegated(n: real, u: Quat)
    ensures Scaled(n, Negated(u)) == Negated(Scaled(n, u))
  {
  }

  /**
   A quaternion of any length `n` but zero is read back as the unit quaternion of the same direction, up to its
   sign.
   */
  lemma ReadsBackDirection(n: real, q: Quat, sqrt: real --> real)
    requires n > 0.0 && n * n == LengthSquared(q) && IsSqrt(sqrt)
    ensures LengthSquared(q) != 0.0
    ensures Scaled(n, QuaternionOf(RotationOf(q), sqrt)) in {q, Negated(q)}
  {
    var u := UnitOf(n, q);
    hide *;
    ReadsBack(u, sqrt);
    ScaledNegated(n, u);
  }

  lemma NegatedIsScaled(q: Quat)
    ensures Negated(q) == Scaled(-1.0, q) && Negated(Negated(q)) == q
  {
  }

  /** Two unit quaternions have the same matrix exactly when they are equal or opposite. */
  lemma SameRotation(p: Quat, q: Quat, sqrt: real --> real)
    requires LengthSquared(p) == 1.0 && LengthSquared(q) == 1.0 && IsSqrt(sqrt)
    ensures RotationOf(p) == RotationOf(q) <==> p in {q, Negated(q)}
  {
    hide *;
    ReadsBack(p, sqrt);
    ReadsBack(q, sqrt);
    NegatedIsScaled(p);
    NegatedIsScaled(q);
    RotationOfScaled(-1.0, q);
  }
}
