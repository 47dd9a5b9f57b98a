/**
 `Projection` as the engine stores it: four columns updated in place. `Invert` works on four row
 buffers of eight entries whose references are swapped when a pivot is chosen; entries of the left
 halves that elimination would make zero are never rewritten.
 */
module Projection {
  import opened Wrappers
  import opened Matrix4
  import opened Elimination
  import opened GaussJordan

  // ---------- Row buffers ----------

  function Right(row: seq<real>): Vec4
    requires |row| == 8
  {
    Vec4(row[4], row[5], row[6], row[7])
  }

  /** `row` holds the right half of `s`, and its left half from column `from` on. */
  ghost predicate Holds(row: seq<real>, s: Strand, from: nat) {
    && |row| == 8
    && Right(row) == s.e
    && (from <= 0 ==> row[0] == s.w.x)
    && (from <= 1 ==> row[1] == s.w.y)
    && (from <= 2 ==> row[2] == s.w.z)
    && row[3] == s.w.w
  }

  /** After `stage` columns have been eliminated, row `i` is current from column `min(i, stage)` on. */
  ghost predicate Rows(stage: nat, r0: seq<real>, r1: seq<real>, r2: seq<real>, r3: seq<real>, t: Tableau) {
    && Holds(r0, t.a, 0)
    && Holds(r1, t.b, if stage < 1 then stage else 1)
    && Holds(r2, t.c, if stage < 2 then stage else 2)
    && Holds(r3, t.d, if stage < 3 then stage else 3)
  }

  /** `row` with `m` times `pivot` taken from columns `from` up to `upto`. */
  ghost predicate Partly(before: seq<real>, m: real, pivot: seq<real>, from: nat, upto: nat, row: seq<real>) {
    && |before| == 8 && |pivot| == 8 && |row| == 8
    && forall k :: 0 <= k < 8 ==> row[k] == if from <= k < upto then before[k] - m * pivot[k] else before[k]
  }

  lemma PartlyStep(before: seq<real>, m: real, pivot: seq<real>, from: nat, k: nat, row: seq<real>, after: seq<real>)
    requires from <= k < 8 && Partly(before, m, pivot, from, k, row)
    requires after == row[k := row[k] - m * pivot[k]]
    ensures Partly(before, m, pivot, from, k + 1, after)
  {
  }

  /**
   The steps that clear the entry at column `from - 1` in the rows below the pivot. The source
   writes the columns out one by one; entries of the right half are skipped for a zero pivot entry.
   */
  method TakeFromRow(r: array<real>, m: real, pivot: array<real>, from: nat)
    requires r.Length == 8 && pivot.Length == 8 && r != pivot && from < 8
    modifies r
    ensures Partly(old(r[..]), m, pivot[..], from, 8, r[..])
  {
    for k := from to 8
      invariant Partly(old(r[..]), m, pivot[..], from, k, r[..])
    {
      ghost var row := r[..];
      var s := pivot[k];
      if k < 4 || s != 0.0 {
        r[k] := r[k] - m * s;
      } else {
        assert m * s == m * 0.0 == 0.0;
      }
      assert r[k] == row[k] - m * pivot[..][k];
      assert r[..] == row[k := r[k]];
      PartlyStep(old(r[..]), m, pivot[..], from, k, row, r[..]);
    }
  }

  lemma HoldsMinus(before: seq<real>, m: real, pivot: seq<real>, from: nat, after: seq<real>, p: Strand, q: Strand)
    requires Partly(before, m, pivot, from, 8, after) && 1 <= from <= 3
    requires Holds(pivot, p, from - 1) && Holds(before, q, from - 1)
    ensures Holds(after, Minus(q, m, p), from)
  {
  }

  /** Lending to a row's certificate does not change what its buffer holds. */
  lemma HoldsLend(row: seq<real>, p: Strand, k: real, q: Strand, from: nat)
    requires Holds(row, p, from)
    ensures Holds(row, Lend(p, k, q), from)
  {
  }

  lemma RowsClearX(r0: seq<real>, r1: seq<real>, r2: seq<real>, r3: seq<real>, t: Tableau,
                   s1: seq<real>, s2: seq<real>, s3: seq<real>)
    requires Rows(0, r0, r1, r2, r3, t) && t.a.w.x != 0.0
    requires Partly(r1, r1[0] / r0[0], r0, 1, 8, s1)
    requires Partly(r2, r2[0] / r0[0], r0, 1, 8, s2)
    requires Partly(r3, r3[0] / r0[0], r0, 1, 8, s3)
    ensures Rows(1, r0, s1, s2, s3, ClearX(t))
  {
    hide Partly, Holds, Minus, Lend;
    var m1, m2, m3 := t.b.w.x / t.a.w.x, t.c.w.x / t.a.w.x, t.d.w.x / t.a.w.x;
    assert r1[0] == t.b.w.x && r2[0] == t.c.w.x && r3[0] == t.d.w.x && r0[0] == t.a.w.x by {
      FirstEntries(r0, r1, r2, r3, t);
    }
    var a1 := Lend(t.a, m1, t.b);
    var a2 := Lend(a1, m2, t.c);
    HoldsLend(r0, t.a, m1, t.b, 0);
    HoldsLend(r0, a1, m2, t.c, 0);
    HoldsLend(r0, a2, m3, t.d, 0);
    HoldsMinus(r1, m1, r0, 1, s1, t.a, t.b);
    HoldsMinus(r2, m2, r0, 1, s2, a1, t.c);
    HoldsMinus(r3, m3, r0, 1, s3, a2, t.d);
  }

  lemma FirstEntries(r0: seq<real>, r1: seq<real>, r2: seq<real>, r3: seq<real>, t: Tableau)
    requires Rows(0, r0, r1, r2, r3, t)
    ensures |r0| == |r1| == |r2| == |r3| == 8
    ensures r1[0] == t.b.w.x && r2[0] == t.c.w.x && r3[0] == t.d.w.x && r0[0] == t.a.w.x
  {
  }

  lemma RowsClearY(r0: seq<real>, r1: seq<real>, r2: seq<real>, r3: seq<real>, t: Tableau, s2: seq<real>, s3: seq<real>)
    requires Rows(1, r0, r1, r2, r3, t) && t.b.w.y != 0.0
    requires Partly(r2, r2[1] / r1[1], r1, 2, 8, s2)
    requires Partly(r3, r3[1] / r1[1], r1, 2, 8, s3)
    ensures Rows(2, r0, r1, s2, s3, ClearY(t))
  {
    hide Partly, Minus, Lend, Right;
    var m2, m3 := t.c.w.y / t.b.w.y, t.d.w.y / t.b.w.y;
    assert r1[1] == t.b.w.y && r2[1] == t.c.w.y && r3[1] == t.d.w.y;
    hide Holds;
    var b1 := Lend(t.b, m2, t.c);
    HoldsLend(r1, t.b, m2, t.c, 1);
    HoldsLend(r1, b1, m3, t.d, 1);
    HoldsMinus(r2, m2, r1, 2, s2, t.b, t.c);
    HoldsMinus(r3, m3, r1, 2, s3, b1, t.d);
  }

  lemma RowsClearZ(r0: seq<real>, r1: seq<real>, r2: seq<real>, r3: seq<real>, t: Tableau, s3: seq<real>)
    requires Rows(2, r0, r1, r2, r3, t) && t.c.w.z != 0.0
    requires Partly(r3, r3[2] / r2[2], r2, 3, 8, s3)
    ensures Rows(3, r0, r1, r2, s3, ClearZ(t))
  {
    hide Partly, Minus, Lend, Right;
    assert r2[2] == t.c.w.z && r3[2] == t.d.w.z;
    hide Holds;
    HoldsLend(r2, t.c, t.d.w.z / t.c.w.z, t.d, 2);
    HoldsMinus(r3, t.d.w.z / t.c.w.z, r2, 3, s3, t.c, t.d);
  }

  // ---------- Back substitution ----------

  /** The right halves after back substitution, in the order the source computes them. */
  function BackRight(t: Tableau): Mat
    requires IsTriangular(t)
  {
    var d := Scale(1.0 / t.d.w.w, t.d.e);
    var c := Scale(1.0 / t.c.w.z, AddScaled(t.c.e, -t.c.w.w, d));
    var b := AddScaled(t.b.e, -t.b.w.w, d);
    var a := AddScaled(t.a.e, -t.a.w.w, d);
    var b := Scale(1.0 / t.b.w.y, AddScaled(b, -t.b.w.z, c));
    var a := AddScaled(a, -t.a.w.z, c);
    var a := Scale(1.0 / t.a.w.x, AddScaled(a, -t.a.w.y, b));
    Mat(a, b, c, d)
  }

  lemma BackWRight(t: Tableau)
    requires IsTriangular(t)
    ensures var u, d := BackW(t), Scale(1.0 / t.d.w.w, t.d.e);
      && u.d.e == d
      && u.c.e == AddScaled(t.c.e, -t.c.w.w, d)
      && u.b.e == AddScaled(t.b.e, -t.b.w.w, d)
      && u.a.e == AddScaled(t.a.e, -t.a.w.w, d)
  {
    hide AddScaled, Scale;
  }

  lemma BackZRight(t: Tableau)
    requires t.c.w.z != 0.0
    ensures var u, c := BackZ(t), Scale(1.0 / t.c.w.z, t.c.e);
      && u.d.e == t.d.e && u.c.e == c
      && u.b.e == AddScaled(t.b.e, -t.b.w.z, c)
      && u.a.e == AddScaled(t.a.e, -t.a.w.z, c)
  {
    hide AddScaled, Scale;
  }

  lemma BackRightIs(t: Tableau)
    requires IsTriangular(t)
    ensures RightHalf(BackSubstitute(t)) == BackRight(t)
  {
    BackStays(t);
    BackWRight(t);
    var t1 := BackW(t);
    BackZRight(t1);
    var t2 := BackZ(t1);
    hide AddScaled, Scale, BackW, BackZ;
    assert BackY(t2).b.e == Scale(1.0 / t2.b.w.y, t2.b.e);
    assert BackY(t2).a.e == AddScaled(t2.a.e, -t2.a.w.y, BackY(t2).b.e);
  }

  method ScaleRight(r: array<real>, s: real)
    requires r.Length == 8
    modifies r
    ensures r[..4] == old(r[..4]) && Right(r[..]) == Scale(s, old(Right(r[..])))
  {
    r[4] := r[4] * s;
    r[5] := r[5] * s;
    r[6] := r[6] * s;
    r[7] := r[7] * s;
  }

  method TakeRight(r: array<real>, p: array<real>, m: real)
    requires r.Length == 8 && p.Length == 8 && r != p
    modifies r
    ensures r[..4] == old(r[..4]) && Right(r[..]) == AddScaled(old(Right(r[..])), -m, Right(p[..]))
  {
    r[4] := r[4] - p[4] * m;
    r[5] := r[5] - p[5] * m;
    r[6] := r[6] - p[6] * m;
    r[7] := r[7] - p[7] * m;
  }

  method TakeAndScaleRight(r: array<real>, p: array<real>, m: real, s: real)
    requires r.Length == 8 && p.Length == 8 && r != p
    modifies r
    ensures r[..4] == old(r[..4]) && Right(r[..]) == Scale(s, AddScaled(old(Right(r[..])), -m, Right(p[..])))
  {
    hide Scale, AddScaled;
    TakenAndScaled(s, r[4], r[5], r[6], r[7], m, p[4], p[5], p[6], p[7]);
    r[4] := s * (r[4] - p[4] * m);
    r[5] := s * (r[5] - p[5] * m);
    r[6] := s * (r[6] - p[6] * m);
    r[7] := s * (r[7] - p[7] * m);
  }

  lemma TakenAndScaled(s: real, r4: real, r5: real, r6: real, r7: real, m: real, p4: real, p5: real, p6: real, p7: real)
    ensures Scale(s, AddScaled(Vec4(r4, r5, r6, r7), -m, Vec4(p4, p5, p6, p7)))
         == Vec4(s * (r4 - p4 * m), s * (r5 - p5 * m), s * (r6 - p6 * m), s * (r7 - p7 * m))
  {
  }

  method BackSubstituteRows(r0: array<real>, r1: array<real>, r2: array<real>, r3: array<real>, ghost t: Tableau)
    requires AreBuffers(r0, r1, r2, r3)
    requires Rows(3, r0[..], r1[..], r2[..], r3[..], t) && IsTriangular(t)
    modifies r0, r1, r2, r3
    ensures Mat(Right(r0[..]), Right(r1[..]), Right(r2[..]), Right(r3[..])) == BackRight(t)
  {
    // row 3
    ScaleRight(r3, 1.0 / r3[3]);
    TakeAndScaleRight(r2, r3, r2[3], 1.0 / r2[2]);
    TakeRight(r1, r3, r1[3]);
    TakeRight(r0, r3, r0[3]);
    // row 2
    TakeAndScaleRight(r1, r2, r1[2], 1.0 / r1[1]);
    TakeRight(r0, r2, r0[2]);
    // row 1
    TakeAndScaleRight(r0, r1, r0[1], 1.0 / r0[0]);
  }

  // ---------- Pivots ----------

  predicate AreBuffers(r0: array<real>, r1: array<real>, r2: array<real>, r3: array<real>) {
    && r0.Length == 8 && r1.Length == 8 && r2.Length == 8 && r3.Length == 8
    && r0 != r1 && r0 != r2 && r0 != r3 && r1 != r2 && r1 != r3 && r2 != r3
  }

  method ChoosePivotX(r0: array<real>, r1: array<real>, r2: array<real>, r3: array<real>, ghost t: Tableau)
    returns (p0: array<real>, p1: array<real>, p2: array<real>, p3: array<real>)
    requires AreBuffers(r0, r1, r2, r3) && Rows(0, r0[..], r1[..], r2[..], r3[..], t)
    ensures AreBuffers(p0, p1, p2, p3) && {p0, p1, p2, p3} == {r0, r1, r2, r3}
    ensures Rows(0, p0[..], p1[..], p2[..], p3[..], PivotX(t))
  {
    hide Right;
    p0, p1, p2, p3 := r0, r1, r2, r3;
    if Abs(p3[0]) > Abs(p2[0]) {
      p3, p2 := p2, p3;
    }
    if Abs(p2[0]) > Abs(p1[0]) {
      p2, p1 := p1, p2;
    }
    if Abs(p1[0]) > Abs(p0[0]) {
      p1, p0 := p0, p1;
    }
  }

  method ChoosePivotY(r0: array<real>, r1: array<real>, r2: array<real>, r3: array<real>, ghost t: Tableau)
    returns (p1: array<real>, p2: array<real>, p3: array<real>)
    requires AreBuffers(r0, r1, r2, r3) && Rows(1, r0[..], r1[..], r2[..], r3[..], t)
    ensures AreBuffers(r0, p1, p2, p3) && {p1, p2, p3} == {r1, r2, r3}
    ensures Rows(1, r0[..], p1[..], p2[..], p3[..], PivotY(t))
  {
    hide Right;
    p1, p2, p3 := r1, r2, r3;
    if Abs(p3[1]) > Abs(p2[1]) {
      p3, p2 := p2, p3;
    }
    if Abs(p2[1]) > Abs(p1[1]) {
      p2, p1 := p1, p2;
    }
  }

  method ChoosePivotZ(r0: array<real>, r1: array<real>, r2: array<real>, r3: array<real>, ghost t: Tableau)
    returns (p2: array<real>, p3: array<real>)
    requires AreBuffers(r0, r1, r2, r3) && Rows(2, r0[..], r1[..], r2[..], r3[..], t)
    ensures AreBuffers(r0, r1, p2, p3) && {p2, p3} == {r2, r3}
    ensures Rows(2, r0[..], r1[..], p2[..], p3[..], PivotZ(t))
  {
    hide Right;
    p2, p3 := r2, r3;
    if Abs(p3[2]) > Abs(p2[2]) {
      p3, p2 := p2, p3;
    }
  }

  lemma RowEntries(stage: nat, r0: seq<real>, r1: seq<real>, r2: seq<real>, r3: seq<real>, t: Tableau)
    requires Rows(stage, r0, r1, r2, r3, t)
    ensures |r0| == |r1| == |r2| == |r3| == 8
    ensures r0[0] == t.a.w.x
    ensures stage >= 1 ==> r1[1] == t.b.w.y
    ensures stage >= 2 ==> r2[2] == t.c.w.z
    ensures stage >= 3 ==> r3[3] == t.d.w.w
  {
  }

  /** The forward stage: the four row buffers, in pivot order, or a failed check. */
  method Eliminate(a0: array<real>, a1: array<real>, a2: array<real>, a3: array<real>, ghost m: Mat)
    returns (completed: bool, r0: array<real>, r1: array<real>, r2: array<real>, r3: array<real>)
    requires AreBuffers(a0, a1, a2, a3) && Rows(0, a0[..], a1[..], a2[..], a3[..], Start(m))
    modifies a0, a1, a2, a3
    ensures AreBuffers(r0, r1, r2, r3) && {r0, r1, r2, r3} == {a0, a1, a2, a3}
    ensures completed <==> Forward(m).Some?
    ensures completed ==> Rows(3, r0[..], r1[..], r2[..], r3[..], Forward(m).value)
  {
    hide Rows, Partly, PivotX, PivotY, PivotZ, ClearX, ClearY, ClearZ;
    r0, r1, r2, r3 := ChoosePivotX(a0, a1, a2, a3, Start(m));
    ghost var t := PivotX(Start(m));
    RowEntries(0, r0[..], r1[..], r2[..], r3[..], t);
    if r0[0] == 0.0 {
      return false, r0, r1, r2, r3;
    }
    EliminateX(r0, r1, r2, r3, t);
    t := ClearX(t);
    r1, r2, r3 := ChoosePivotY(r0, r1, r2, r3, t);
    t := PivotY(t);
    RowEntries(1, r0[..], r1[..], r2[..], r3[..], t);
    if r1[1] == 0.0 {
      return false, r0, r1, r2, r3;
    }
    EliminateY(r0, r1, r2, r3, t);
    t := ClearY(t);
    r2, r3 := ChoosePivotZ(r0, r1, r2, r3, t);
    t := PivotZ(t);
    RowEntries(2, r0[..], r1[..], r2[..], r3[..], t);
    if r2[2] == 0.0 {
      return false, r0, r1, r2, r3;
    }
    EliminateZ(r0, r1, r2, r3, t);
    t := ClearZ(t);
    RowEntries(3, r0[..], r1[..], r2[..], r3[..], t);
    completed := r3[3] != 0.0;
  }

  method EliminateX(r0: array<real>, r1: array<real>, r2: array<real>, r3: array<real>, ghost t: Tableau)
    requires AreBuffers(r0, r1, r2, r3) && Rows(0, r0[..], r1[..], r2[..], r3[..], t) && t.a.w.x != 0.0
    modifies r1, r2, r3
    ensures Rows(1, r0[..], r1[..], r2[..], r3[..], ClearX(t))
  {
    hide Partly, ClearX, Holds;
    RowEntries(0, r0[..], r1[..], r2[..], r3[..], t);
    var m1, m2, m3 := r1[0] / r0[0], r2[0] / r0[0], r3[0] / r0[0];
    TakeFromRow(r1, m1, r0, 1);
    TakeFromRow(r2, m2, r0, 1);
    TakeFromRow(r3, m3, r0, 1);
    RowsClearX(r0[..], old(r1[..]), old(r2[..]), old(r3[..]), t, r1[..], r2[..], r3[..]);
  }

  method EliminateY(r0: array<real>, r1: array<real>, r2: array<real>, r3: array<real>, ghost t: Tableau)
    requires AreBuffers(r0, r1, r2, r3) && Rows(1, r0[..], r1[..], r2[..], r3[..], t) && t.b.w.y != 0.0
    modifies r2, r3
    ensures Rows(2, r0[..], r1[..], r2[..], r3[..], ClearY(t))
  {
    hide Partly, ClearY, Holds;
    RowEntries(1, r0[..], r1[..], r2[..], r3[..], t);
    var m2, m3 := r2[1] / r1[1], r3[1] / r1[1];
    TakeFromRow(r2, m2, r1, 2);
    TakeFromRow(r3, m3, r1, 2);
    RowsClearY(r0[..], r1[..], old(r2[..]), old(r3[..]), t, r2[..], r3[..]);
  }

  method EliminateZ(r0: array<real>, r1: array<real>, r2: array<real>, r3: array<real>, ghost t: Tableau)
    requires AreBuffers(r0, r1, r2, r3) && Rows(2, r0[..], r1[..], r2[..], r3[..], t) && t.c.w.z != 0.0
    modifies r3
    ensures Rows(3, r0[..], r1[..], r2[..], r3[..], ClearZ(t))
  {
    hide Partly, ClearZ, Holds;
    RowEntries(2, r0[..], r1[..], r2[..], r3[..], t);
    TakeFromRow(r3, r3[2] / r2[2], r2, 3);
    RowsClearZ(r0[..], r1[..], r2[..], old(r3[..]), t, r3[..]);
  }

  // ---------- The class ----------

  function Unit(i: nat): Vec4
    requires i < 4
  {
    if i == 0 then E0 else if i == 1 then E1 else if i == 2 then E2 else E3
  }

  class Projection {
    const columns: array2<real>  // columns[c, r]: row r of column c

    ghost predicate Valid() {
      columns.Length0 == 4 && columns.Length1 == 4
    }

    ghost function Row(i: nat): Vec4
      requires Valid() && i < 4
      reads columns
    {
      Vec4(columns[0, i], columns[1, i], columns[2, i], columns[3, i])
    }

    ghost function Matrix(): Mat
      requires Valid()
      reads columns
    {
      Mat(Row(0), Row(1), Row(2), Row(3))
    }

    constructor ()
      ensures Valid() && fresh(columns) && Matrix() == IDENTITY
    {
      columns := new real[4, 4]((c, r) => if c == r then 1.0 else 0.0);
    }

    /** Row `i` of the matrix beside row `i` of the identity. */
    method LoadRow(i: nat) returns (row: array<real>)
      requires Valid() && i < 4
      ensures fresh(row) && row.Length == 8
      ensures row[0] == Row(i).x && row[1] == Row(i).y && row[2] == Row(i).z && row[3] == Row(i).w
      ensures Right(row[..]) == Unit(i)
    {
      row := new real[8];
      row[0], row[1], row[2], row[3] := columns[0, i], columns[1, i], columns[2, i], columns[3, i];
      row[4], row[5], row[6], row[7] := 0.0, 0.0, 0.0, 0.0;
      row[4 + i] := 1.0;
    }

    method StoreRow(i: nat, row: array<real>)
      requires Valid() && i < 4 && row.Length == 8
      modifies columns
      ensures Row(i) == Right(row[..])
      ensures forall j: nat :: j < 4 && j != i ==> Row(j) == old(Row(j))
    {
      columns[0, i] := row[4];
      columns[1, i] := row[5];
      columns[2, i] := row[6];
      columns[3, i] := row[7];
    }

    /** Replaces the matrix by its inverse, or reports failure and leaves it alone. */
    method Invert() returns (completed: bool)
      requires Valid()
      modifies columns
      ensures Inverse(old(Matrix())) == if completed then Some(Matrix()) else None
      ensures !completed ==> Matrix() == old(Matrix())
    {
      hide *;
      ghost var m := Matrix();
      var r0, r1, r2, r3 := LoadRows();
      completed, r0, r1, r2, r3 := Eliminate(r0, r1, r2, r3, m);
      InverseStages(m);
      if completed {
        ghost var t := Forward(m).value;
        BackSubstituteRows(r0, r1, r2, r3, t);
        BackRightIs(t);
        StoreRows(r0, r1, r2, r3);
      }
    }

    method LoadRows() returns (r0: array<real>, r1: array<real>, r2: array<real>, r3: array<real>)
      requires Valid()
      ensures fresh(r0) && fresh(r1) && fresh(r2) && fresh(r3) && AreBuffers(r0, r1, r2, r3)
      ensures Rows(0, r0[..], r1[..], r2[..], r3[..], Start(Matrix()))
    {
      r0 := LoadRow(0);
      r1 := LoadRow(1);
      r2 := LoadRow(2);
      r3 := LoadRow(3);
    }

    method StoreRows(r0: array<real>, r1: array<real>, r2: array<real>, r3: array<real>)
      requires Valid() && AreBuffers(r0, r1, r2, r3)
      modifies columns
      ensures Matrix() == Mat(Right(r0[..]), Right(r1[..]), Right(r2[..]), Right(r3[..]))
    {
      StoreRow(0, r0);
      StoreRow(1, r1);
      StoreRow(2, r2);
      StoreRow(3, r3);
    }

    /** `inverse`: a copy, inverted. */
    method InverseOf() returns (r: Projection)
      requires Valid()
      ensures r.Valid() && fresh(r) && fresh(r.columns)
      ensures r.Matrix() == var i := Inverse(Matrix()); if i.Some? then i.value else Matrix()
    {
      r := Copy();
      var completed := r.Invert();
    }

    method Copy() returns (r: Projection)
      requires Valid()
      ensures r.Valid() && fresh(r) && fresh(r.columns) && r.Matrix() == Matrix()
    {
      r := new Projection();
      for c := 0 to 4
        invariant forall k, i :: 0 <= k < c && 0 <= i < 4 ==> r.columns[k, i] == columns[k, i]
      {
        for i := 0 to 4
          invariant forall k, j :: 0 <= k < c && 0 <= j < 4 ==> r.columns[k, j] == columns[k, j]
          invariant forall j :: 0 <= j < i ==> r.columns[c, j] == columns[c, j]
        {
          r.columns[c, i] := columns[c, i];
        }
      }
    }

    /** `operator*`: the triple loop over columns of the right factor. */
    method Times(p: Projection) returns (r: Projection)
      requires Valid() && p.Valid()
      ensures r.Valid() && fresh(r) && fresh(r.columns)
      ensures r.Matrix() == Mul(Matrix(), p.Matrix())
    {
      hide Entry, Mul;
      r := new Projection();
      for j := 0 to 4
        invariant forall c, i :: 0 <= c < j && 0 <= i < 4 ==> r.columns[c, i] == Entry(p, c, i)
      {
        FillColumn(p, j, r);
      }
      EntriesOfProduct(p, r);
    }

    method FillColumn(p: Projection, j: nat, r: Projection)
      requires Valid() && p.Valid() && r.Valid() && j < 4
      requires r.columns != columns && r.columns != p.columns
      modifies r.columns
      ensures forall i :: 0 <= i < 4 ==> r.columns[j, i] == Entry(p, j, i)
      ensures forall c, i :: 0 <= c < 4 && c != j && 0 <= i < 4 ==> r.columns[c, i] == old(r.columns[c, i])
    {
      hide Entry;
      for i := 0 to 4
        invariant forall i' :: 0 <= i' < i ==> r.columns[j, i'] == Entry(p, j, i')
        invariant forall c, i :: 0 <= c < 4 && c != j && 0 <= i < 4 ==> r.columns[c, i] == old(r.columns[c, i])
      {
        r.columns[j, i] := ProductEntry(p, j, i);
      }
    }

    lemma EntriesOfProduct(p: Projection, r: Projection)
      requires Valid() && p.Valid() && r.Valid()
      requires forall c, i :: 0 <= c < 4 && 0 <= i < 4 ==> r.columns[c, i] == Entry(p, c, i)
      ensures r.Matrix() == Mul(Matrix(), p.Matrix())
    {
      hide RowTimes, Dot;
      RowOfProduct(p, r, 0);
      RowOfProduct(p, r, 1);
      RowOfProduct(p, r, 2);
      RowOfProduct(p, r, 3);
    }

    lemma RowOfProduct(p: Projection, r: Projection, i: nat)
      requires Valid() && p.Valid() && r.Valid() && i < 4
      requires forall c, i :: 0 <= c < 4 && 0 <= i < 4 ==> r.columns[c, i] == Entry(p, c, i)
      ensures r.Row(i) == RowTimes(Row(i), p.Matrix())
    {
      hide RowTimes, Dot;
      RowTimesColumns(Row(i), p.Matrix());
      assert r.columns[0, i] == Entry(p, 0, i) && r.columns[1, i] == Entry(p, 1, i);
      assert r.columns[2, i] == Entry(p, 2, i) && r.columns[3, i] == Entry(p, 3, i);
    }

    method ProductEntry(p: Projection, j: nat, i: nat) returns (ab: real)
      requires Valid() && p.Valid() && j < 4 && i < 4
      ensures ab == Entry(p, j, i)
    {
      ab := 0.0;
      for k := 0 to 4
        invariant ab == PartialEntry(p, j, i, k)
      {
        ab := ab + columns[k, i] * p.columns[j, k];
      }
      assert PartialEntry(p, j, i, 2) == columns[0, i] * p.columns[j, 0] + columns[1, i] * p.columns[j, 1];
    }

    /** `determinant`, written out as the source does. */
    method Determinant() returns (d: real)
      requires Valid()
      ensures d == DetOf(Matrix())
    {
      d := columns[0, 3] * columns[1, 2] * columns[2, 1] * columns[3, 0]
           - columns[0, 2] * columns[1, 3] * columns[2, 1] * columns[3, 0]
           - columns[0, 3] * columns[1, 1] * columns[2, 2] * columns[3, 0]
           + columns[0, 1] * columns[1, 3] * columns[2, 2] * columns[3, 0]
           + columns[0, 2] * columns[1, 1] * columns[2, 3] * columns[3, 0]
           - columns[0, 1] * columns[1, 2] * columns[2, 3] * columns[3, 0]
           - columns[0, 3] * columns[1, 2] * columns[2, 0] * columns[3, 1]
           + columns[0, 2] * columns[1, 3] * columns[2, 0] * columns[3, 1]
           + columns[0, 3] * columns[1, 0] * columns[2, 2] * columns[3, 1]
           - columns[0, 0] * columns[1, 3] * columns[2, 2] * columns[3, 1]
           - columns[0, 2] * columns[1, 0] * columns[2, 3] * columns[3, 1]
           + columns[0, 0] * columns[1, 2] * columns[2, 3] * columns[3, 1]
           + columns[0, 3] * columns[1, 1] * columns[2, 0] * columns[3, 2]
           - columns[0, 1] * columns[1, 3] * columns[2, 0] * columns[3, 2]
           - columns[0, 3] * columns[1, 0] * columns[2, 1] * columns[3, 2]
           + columns[0, 0] * columns[1, 3] * columns[2, 1] * columns[3, 2]
           + columns[0, 1] * columns[1, 0] * columns[2, 3] * columns[3, 2]
           - columns[0, 0] * columns[1, 1] * columns[2, 3] * columns[3, 2]
           - columns[0, 2] * columns[1, 1] * columns[2, 0] * columns[3, 3]
           + columns[0, 1] * columns[1, 2] * columns[2, 0] * columns[3, 3]
           + columns[0, 2] * columns[1, 0] * columns[2, 1] * columns[3, 3]
           - columns[0, 0] * columns[1, 2] * columns[2, 1] * columns[3, 3]
           - columns[0, 1] * columns[1, 0] * columns[2, 2] * columns[3, 3]
           + columns[0, 0] * columns[1, 1] * columns[2, 2] * columns[3, 3];
      hide DetOf;
      Leibniz(Row(0), Row(1), Row(2), Row(3));
      assert Matrix() == Mat(Row(0), Row(1), Row(2), Row(3));
    }

    ghost function PartialEntry(p: Projection, j: nat, i: nat, k: nat): real
      requires Valid() && p.Valid() && j < 4 && i < 4 && k <= 4
      reads columns, p.columns
    {
      if k == 0 then 0.0 else PartialEntry(p, j, i, k - 1) + columns[k - 1, i] * p.columns[j, k - 1]
    }

    /** Column `j`, row `i` of the product. */
    ghost function Entry(p: Projection, j: nat, i: nat): real
      requires Valid() && p.Valid() && j < 4 && i < 4
      reads columns, p.columns
    {
      Dot(Row(i), Vec4(p.columns[j, 0], p.columns[j, 1], p.columns[j, 2], p.columns[j, 3]))
    }
  }

  /** The 24 products of the determinant; `a` to `d` are rows, so column `c` of row `r` is an entry of the `r`th. */
  lemma Leibniz(a: Vec4, b: Vec4, c: Vec4, d: Vec4)
    ensures DetOf(Mat(a, b, c, d))
         == d.x * c.y * b.z * a.w - c.x * d.y * b.z * a.w
          - d.x * b.y * c.z * a.w + b.x * d.y * c.z * a.w
          + c.x * b.y * d.z * a.w - b.x * c.y * d.z * a.w
          - d.x * c.y * a.z * b.w + c.x * d.y * a.z * b.w
          + d.x * a.y * c.z * b.w - a.x * d.y * c.z * b.w
          - c.x * a.y * d.z * b.w + a.x * c.y * d.z * b.w
          + d.x * b.y * a.z * c.w - b.x * d.y * a.z * c.w
          - d.x * a.y * b.z * c.w + a.x * d.y * b.z * c.w
          + b.x * a.y * d.z * c.w - a.x * b.y * d.z * c.w
          - c.x * b.y * a.z * d.w + b.x * c.y * a.z * d.w
          + c.x * a.y * b.z * d.w - a.x * c.y * b.z * d.w
          - b.x * a.y * c.z * d.w + a.x * b.y * c.z * d.w
  {
  }

  lemma InverseStages(m: Mat)
    ensures Forward(m).Some? ==> IsTriangular(Forward(m).value)
    ensures Inverse(m) == if Forward(m).None? then None
                          else Some(RightHalf(BackSubstitute(Forward(m).value)))
  {
    hide Forward, IsTriangular, BackSubstitute;
    ForwardDecides(m);
  }
}
