/** Quaternions and bases as the source keeps them: objects whose fields its methods update. */
module RotationObjects {
  import opened Rotation
  import opened Orientation

  class Quaternion {
    var x: real
    var y: real
    var z: real
    var w: real

    ghost function Value(): Quat
      reads this
    {
      Quat(x, y, z, w)
    }

    constructor (x: real, y: real, z: real, w: real)
      ensures Value() == Quat(x, y, z, w)
    {
      this.x, this.y, this.z, this.w := x, y, z, w;
    }

    /** `q` may be this very quaternion. */
    method MultiplyBy(q: Quaternion)
      modifies this
      ensures Value() == Product(old(Value()), old(q.Value()))
    {
      hide ProductX, ProductW;
      var xx := ProductX(x, y, z, w, q.x, q.y, q.z, q.w);
      var yy := ProductX(y, z, x, w, q.y, q.z, q.x, q.w);
      var zz := ProductX(z, x, y, w, q.z, q.x, q.y, q.w);
      w := ProductW(x, y, z, w, q.x, q.y, q.z, q.w);
      x := xx;
      y := yy;
      z := zz;
    }

    method Times(q: Quaternion) returns (r: Quaternion)
      ensures fresh(r) && r.Value() == Product(Value(), q.Value())
    {
      r := new Quaternion(x, y, z, w);
      r.MultiplyBy(q);
    }

    method Inverse() returns (r: Quaternion)
      ensures fresh(r) && r.Value() == Conjugate(Value())
      ensures LengthSquared(Value()) == 1.0 ==>
        Product(Value(), r.Value()) == Quat(0.0, 0.0, 0.0, 1.0) == Product(r.Value(), Value())
    {
      r := new Quaternion(-x, -y, -z, w);
      TimesItsConjugate(Value());
    }

    method SquaredLength() returns (d: real)
      ensures d == LengthSquared(Value())
    {
      d := x * x + y * y + z * z + w * w;
    }
  }

  class Basis {
    const rows: array2<real>

    ghost predicate Valid() {
      rows.Length0 == 3 && rows.Length1 == 3
    }

    ghost function Value(): Mat3
      requires Valid()
      reads rows
    {
      Mat3(rows[0, 0], rows[0, 1], rows[0, 2], rows[1, 0], rows[1, 1], rows[1, 2], rows[2, 0], rows[2, 1], rows[2, 2])
    }

    constructor ()
      ensures Valid() && fresh(rows) && Value() == IDENTITY
    {
      rows := new real[3, 3]((i, j) => if i == j then 1.0 else 0.0);
    }

    method Set(m: Mat3)
      requires Valid()
      modifies rows
      ensures Value() == m
    {
      rows[0, 0], rows[0, 1], rows[0, 2] := m.m00, m.m01, m.m02;
      rows[1, 0], rows[1, 1], rows[1, 2] := m.m10, m.m11, m.m12;
      rows[2, 0], rows[2, 1], rows[2, 2] := m.m20, m.m21, m.m22;
    }

    method SetQuaternion(q: Quaternion)
      requires Valid() && LengthSquared(q.Value()) != 0.0
      modifies rows
      ensures Value() == RotationOf(q.Value())
    {
      hide LengthSquared, Term;
      var d := q.SquaredLength();
      var s := 2.0 / d;
      var wx, wy, wz := Term(q.w, q.x, s), Term(q.w, q.y, s), Term(q.w, q.z, s);
      var xx, xy, xz := Term(q.x, q.x, s), Term(q.x, q.y, s), Term(q.x, q.z, s);
      var yy, yz, zz := Term(q.y, q.y, s), Term(q.y, q.z, s), Term(q.z, q.z, s);
      Set(Mat3(
        1.0 - (yy + zz), xy - wz, xz + wy,
        xy + wz, 1.0 - (xx + zz), yz - wx,
        xz - wy, yz + wx, 1.0 - (xx + yy)));
    }

    ghost predicate Holds(temp: array<real>, q: Quat)
      reads temp
    {
      temp.Length == 4 && q == Quat(temp[0], temp[1], temp[2], temp[3])
    }

    method ReadByTrace(trace: real, sqrt: real --> real, temp: array<real>)
      requires Valid() && trace == Trace(Value()) && trace > 0.0 && temp.Length == 4 && IsSqrt(sqrt)
      modifies temp
      ensures Holds(temp, QuaternionOf(Value(), sqrt))
    {
      hide Over, IsSqrt;
      QuaternionIs(Value(), sqrt);
      var s := sqrt(trace + 1.0);
      temp[3] := s * 0.5;
      temp[0] := Over(rows[2, 1] - rows[1, 2], s);
      temp[1] := Over(rows[0, 2] - rows[2, 0], s);
      temp[2] := Over(rows[1, 0] - rows[0, 1], s);
    }

    method ReadByPivot(i: nat, sqrt: real --> real, temp: array<real>)
      requires Valid() && Trace(Value()) <= 0.0 && i == Pivot(Value()) && temp.Length == 4 && IsSqrt(sqrt)
      modifies temp
      ensures Holds(temp, QuaternionOf(Value(), sqrt))
    {
      hide Over, IsSqrt;
      QuaternionIs(Value(), sqrt);
      var j, k := (i + 1) % 3, (i + 2) % 3;
      assert (i, j, k) in {(0, 1, 2), (1, 2, 0), (2, 0, 1)};
      var s := sqrt(rows[i, i] - rows[j, j] - rows[k, k] + 1.0);
      hide Pivot;
      temp[i] := s * 0.5;
      temp[3] := Over(rows[k, j] - rows[j, k], s);
      temp[j] := Over(rows[j, i] + rows[i, j], s);
      temp[k] := Over(rows[k, i] + rows[i, k], s);
    }

    method GetQuaternion(sqrt: real --> real) returns (q: Quaternion)
      requires Valid() && IsSqrt(sqrt)
      ensures fresh(q) && q.Value() == QuaternionOf(Value(), sqrt)
    {
      hide QuaternionOf, IsSqrt;
      var trace := rows[0, 0] + rows[1, 1] + rows[2, 2];
      var temp := new real[4](_ => 0.0);
      if trace > 0.0 {
        ReadByTrace(trace, sqrt, temp);
      } else {
        var i := if rows[0, 0] < rows[1, 1] then (if rows[1, 1] < rows[2, 2] then 2 else 1)
                 else (if rows[0, 0] < rows[2, 2] then 2 else 0);
        ReadByPivot(i, sqrt, temp);
      }
      q := new Quaternion(temp[0], temp[1], temp[2], temp[3]);
    }
  }
}
