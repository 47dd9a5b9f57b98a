/**
 Gauss-Jordan elimination with partial pivoting, step for step as `Projection::invert` performs
 it: the pivot choices, the four checks, and the order of the row operations.
 */
module GaussJordan {
  import opened Wrappers
  import opened Matrix4
  import opened Elimination

  // ---------- Operations on the four rows ----------

  function Get(t: Tableau, i: nat): Strand
    requires i < 4
  {
    if i == 0 then t.a else if i == 1 then t.b else if i == 2 then t.c else t.d
  }

  function Put(t: Tableau, i: nat, s: Strand): Tableau
    requires i < 4
  {
    if i == 0 then t.(a := s) else if i == 1 then t.(b := s) else if i == 2 then t.(c := s) else t.(d := s)
  }

  /** Row `j` minus `k` times row `i`. */
  function Take(t: Tableau, i: nat, j: nat, k: real): Tableau
    requires i < 4 && j < 4 && i != j
  {
    Put(Put(t, i, Lend(Get(t, i), k, Get(t, j))), j, Minus(Get(t, j), k, Get(t, i)))
  }

  function Stretch(t: Tableau, i: nat, k: real): Tableau
    requires i < 4 && k != 0.0
  {
    Put(t, i, Rescale(Get(t, i), k))
  }

  function SwapDC(t: Tableau): Tableau { Tableau(t.a, t.b, t.d, t.c) }
  function SwapCB(t: Tableau): Tableau { Tableau(t.a, t.c, t.b, t.d) }
  function SwapBA(t: Tableau): Tableau { Tableau(t.b, t.a, t.c, t.d) }

  ghost predicate IsSound(m: Mat, t: Tableau) {
    Sound(m, t.a, t.b, t.c, t.d)
  }

  lemma SoundTake(m: Mat, t: Tableau, i: nat, j: nat, k: real)
    requires IsSound(m, t) && i < 4 && j < 4 && i != j
    ensures IsSound(m, Take(t, i, j, k))
  {
    hide Sound, Lend, Minus;
    SoundOrders(m, t.a, t.b, t.c, t.d);
    var p, q := Get(t, i), Get(t, j);
    var first := if i != 0 && j != 0 then 0 else if i != 1 && j != 1 then 1 else 2;
    var last := if i != 3 && j != 3 then 3 else if i != 2 && j != 2 then 2 else 1;
    SoundMinus(m, p, q, Get(t, first), Get(t, last), k);
    SoundOrders(m, Lend(p, k, q), Minus(q, k, p), Get(t, first), Get(t, last));
  }

  lemma SoundStretch(m: Mat, t: Tableau, i: nat, k: real)
    requires IsSound(m, t) && i < 4 && k != 0.0
    ensures IsSound(m, Stretch(t, i, k))
  {
    hide Sound, Rescale;
    SoundOrders(m, t.a, t.b, t.c, t.d);
    var first := if i != 0 then 0 else 1;
    var last := if i != 3 then 3 else 2;
    var mid := 6 - i - first - last;
    SoundRescale(m, Get(t, i), Get(t, first), Get(t, mid), Get(t, last), k);
    SoundOrders(m, Rescale(Get(t, i), k), Get(t, first), Get(t, mid), Get(t, last));
  }

  lemma SoundSwaps(m: Mat, t: Tableau)
    requires IsSound(m, t)
    ensures IsSound(m, SwapDC(t)) && IsSound(m, SwapCB(t)) && IsSound(m, SwapBA(t))
  {
    hide Sound;
    SoundOrders(m, t.a, t.b, t.c, t.d);
  }

  function DetRows(t: Tableau): real {
    Det(t.a.w, t.b.w, t.c.w, t.d.w)
  }

  lemma DetTake(t: Tableau, i: nat, j: nat, k: real)
    requires i < j < 4
    ensures DetRows(Take(t, i, j, k)) == DetRows(t)
  {
    hide Det, AddScaled;
    var (a, b, c, d) := (t.a.w, t.b.w, t.c.w, t.d.w);
    var q' := AddScaled(Get(t, j).w, -k, Get(t, i).w);
    DetOrders(a, b, c, d);
    if j == 1 {
      DetCombine(a, b, c, d, -k);
    } else if j == 2 {
      DetOrders(a, b, q', d);
      DetCombine(a, c, b, d, -k);
      DetCombine(b, c, a, d, -k);
    } else {
      DetOrders(a, b, c, q');
      DetCombine(a, d, b, c, -k);
      DetCombine(b, d, a, c, -k);
      DetCombine(c, d, a, b, -k);
    }
  }

  lemma DetOfSwaps(t: Tableau)
    ensures DetRows(SwapDC(t)) == DetRows(SwapCB(t)) == DetRows(SwapBA(t)) == -DetRows(t)
  {
    hide Det;
    DetSwaps(t.a.w, t.b.w, t.c.w, t.d.w);
  }

  // ---------- The algorithm ----------

  function Start(m: Mat): Tableau {
    Tableau(Strand(m.r0, E0, E0), Strand(m.r1, E1, E1), Strand(m.r2, E2, E2), Strand(m.r3, E3, E3))
  }

  function PivotX(t: Tableau): Tableau {
    var t := if Abs(t.d.w.x) > Abs(t.c.w.x) then SwapDC(t) else t;
    var t := if Abs(t.c.w.x) > Abs(t.b.w.x) then SwapCB(t) else t;
    if Abs(t.b.w.x) > Abs(t.a.w.x) then SwapBA(t) else t
  }

  function ClearX(t: Tableau): Tableau
    requires t.a.w.x != 0.0
  {
    var m1, m2, m3 := t.b.w.x / t.a.w.x, t.c.w.x / t.a.w.x, t.d.w.x / t.a.w.x;
    Take(Take(Take(t, 0, 1, m1), 0, 2, m2), 0, 3, m3)
  }

  function PivotY(t: Tableau): Tableau {
    var t := if Abs(t.d.w.y) > Abs(t.c.w.y) then SwapDC(t) else t;
    if Abs(t.c.w.y) > Abs(t.b.w.y) then SwapCB(t) else t
  }

  function ClearY(t: Tableau): Tableau
    requires t.b.w.y != 0.0
  {
    var m2, m3 := t.c.w.y / t.b.w.y, t.d.w.y / t.b.w.y;
    Take(Take(t, 1, 2, m2), 1, 3, m3)
  }

  function PivotZ(t: Tableau): Tableau {
    if Abs(t.d.w.z) > Abs(t.c.w.z) then SwapDC(t) else t
  }

  function ClearZ(t: Tableau): Tableau
    requires t.c.w.z != 0.0
  {
    Take(t, 2, 3, t.d.w.z / t.c.w.z)
  }

  /** Rows below the diagonal are zero and the diagonal is not. */
  predicate IsTriangular(t: Tableau) {
    && t.b.w.x == 0.0 && t.c.w.x == 0.0 && t.d.w.x == 0.0
    && t.c.w.y == 0.0 && t.d.w.y == 0.0 && t.d.w.z == 0.0
    && t.a.w.x != 0.0 && t.b.w.y != 0.0 && t.c.w.z != 0.0 && t.d.w.w != 0.0
  }

  /** Back substitution of row 3: the last column becomes a unit column. */
  function BackW(t: Tableau): Tableau
    requires IsTriangular(t)
  {
    var t := Stretch(t, 3, 1.0 / t.d.w.w);
    Take(Take(Take(t, 3, 2, t.c.w.w), 3, 1, t.b.w.w), 3, 0, t.a.w.w)
  }

  function BackZ(t: Tableau): Tableau
    requires t.c.w.z != 0.0
  {
    var t := Stretch(t, 2, 1.0 / t.c.w.z);
    Take(Take(t, 2, 1, t.b.w.z), 2, 0, t.a.w.z)
  }

  function BackY(t: Tableau): Tableau
    requires t.b.w.y != 0.0
  {
    var t := Stretch(t, 1, 1.0 / t.b.w.y);
    Take(t, 1, 0, t.a.w.y)
  }

  function BackX(t: Tableau): Tableau
    requires t.a.w.x != 0.0
  {
    Stretch(t, 0, 1.0 / t.a.w.x)
  }

  /** The triangular tableau, unless one of the four checks fails. */
  function Forward(m: Mat): (r: Option<Tableau>) {
    var t1 := PivotX(Start(m));
    if t1.a.w.x == 0.0 then None else
    var t2 := PivotY(ClearX(t1));
    if t2.b.w.y == 0.0 then None else
    var t3 := PivotZ(ClearY(t2));
    if t3.c.w.z == 0.0 then None else
    var t4 := ClearZ(t3);
    if t4.d.w.w == 0.0 then None else Some(t4)
  }

  // ---------- What each stage keeps ----------

  /** Sound, and with the same answer as the input to whether the determinant is zero. */
  ghost predicate Faithful(m: Mat, t: Tableau) {
    IsSound(m, t) && (DetRows(t) == 0.0 <==> DetOf(m) == 0.0)
  }

  lemma FaithfulStart(m: Mat)
    ensures Faithful(m, Start(m))
  {
    hide DetRows, DetOf, IsSound;
    SoundStart(m);
    DetOfStart(m);
  }

  lemma SoundStart(m: Mat)
    ensures IsSound(m, Start(m))
  {
    hide RowTimes, Resolves;
    UnitsResolve(m);
    UnitsSelect(m);
  }

  lemma UnitsResolve(m: Mat)
    ensures var t := Start(m); Resolves(t.a, t.b, t.c, t.d)
  {
    ScaledUnits();
    hide Scale;
  }

  lemma ScaledUnits()
    ensures Scale(1.0, E0) == E0 && Scale(1.0, E1) == E1 && Scale(1.0, E2) == E2 && Scale(1.0, E3) == E3
    ensures Scale(0.0, E0) == Scale(0.0, E1) == Scale(0.0, E2) == Scale(0.0, E3) == ZERO
  {
  }

  lemma UnitsSelect(m: Mat)
    ensures RowTimes(E0, m) == m.r0 && RowTimes(E1, m) == m.r1 && RowTimes(E2, m) == m.r2 && RowTimes(E3, m) == m.r3
  {
  }

  lemma DetOfStart(m: Mat)
    ensures DetRows(Start(m)) == DetOf(m)
  {
  }

  lemma FaithfulSwaps(m: Mat, t: Tableau)
    requires Faithful(m, t)
    ensures Faithful(m, SwapDC(t)) && Faithful(m, SwapCB(t)) && Faithful(m, SwapBA(t))
  {
    hide DetRows, IsSound;
    SoundSwaps(m, t);
    DetOfSwaps(t);
  }

  lemma FaithfulTake(m: Mat, t: Tableau, i: nat, j: nat, k: real)
    requires Faithful(m, t) && i < j < 4
    ensures Faithful(m, Take(t, i, j, k))
  {
    hide DetRows, IsSound, Take;
    SoundTake(m, t, i, j, k);
    DetTake(t, i, j, k);
  }

  lemma Cancels(x: real, p: real)
    requires p != 0.0
    ensures x + (-(x / p)) * p == 0.0
    ensures 1.0 / p * p == 1.0
  {
  }

  lemma PivotXKeeps(m: Mat, t: Tableau)
    requires Faithful(m, t)
    ensures var t' := PivotX(t);
      Faithful(m, t') && (t'.a.w.x == 0.0 ==> t'.b.w.x == 0.0 && t'.c.w.x == 0.0 && t'.d.w.x == 0.0)
  {
    hide Faithful;
    FaithfulSwaps(m, t);
    var t1 := if Abs(t.d.w.x) > Abs(t.c.w.x) then SwapDC(t) else t;
    FaithfulSwaps(m, t1);
    var t2 := if Abs(t1.c.w.x) > Abs(t1.b.w.x) then SwapCB(t1) else t1;
    FaithfulSwaps(m, t2);
  }

  lemma ClearXKeeps(m: Mat, t: Tableau)
    requires Faithful(m, t) && t.a.w.x != 0.0
    ensures var t' := ClearX(t);
      && Faithful(m, t') && t'.a.w == t.a.w
      && t'.b.w.x == 0.0 && t'.c.w.x == 0.0 && t'.d.w.x == 0.0
  {
    hide Faithful;
    var p := t.a.w.x;
    var m1, m2, m3 := t.b.w.x / p, t.c.w.x / p, t.d.w.x / p;
    Cancels(t.b.w.x, p);
    Cancels(t.c.w.x, p);
    Cancels(t.d.w.x, p);
    FaithfulTake(m, t, 0, 1, m1);
    FaithfulTake(m, Take(t, 0, 1, m1), 0, 2, m2);
    FaithfulTake(m, Take(Take(t, 0, 1, m1), 0, 2, m2), 0, 3, m3);
  }

  lemma PivotYKeeps(m: Mat, t: Tableau)
    requires Faithful(m, t) && t.b.w.x == 0.0 && t.c.w.x == 0.0 && t.d.w.x == 0.0
    ensures var t' := PivotY(t);
      && Faithful(m, t') && t'.a == t.a
      && t'.b.w.x == 0.0 && t'.c.w.x == 0.0 && t'.d.w.x == 0.0
      && (t'.b.w.y == 0.0 ==> t'.c.w.y == 0.0 && t'.d.w.y == 0.0)
  {
    hide Faithful;
    FaithfulSwaps(m, t);
    var t1 := if Abs(t.d.w.y) > Abs(t.c.w.y) then SwapDC(t) else t;
    FaithfulSwaps(m, t1);
  }

  lemma ClearYKeeps(m: Mat, t: Tableau)
    requires Faithful(m, t) && t.b.w.y != 0.0
    requires t.b.w.x == 0.0 && t.c.w.x == 0.0 && t.d.w.x == 0.0
    ensures var t' := ClearY(t);
      && Faithful(m, t') && t'.a.w == t.a.w && t'.b.w == t.b.w
      && t'.c.w.x == 0.0 && t'.d.w.x == 0.0 && t'.c.w.y == 0.0 && t'.d.w.y == 0.0
  {
    hide Faithful;
    var p := t.b.w.y;
    var m2, m3 := t.c.w.y / p, t.d.w.y / p;
    Cancels(t.c.w.y, p);
    Cancels(t.d.w.y, p);
    FaithfulTake(m, t, 1, 2, m2);
    FaithfulTake(m, Take(t, 1, 2, m2), 1, 3, m3);
  }

  lemma PivotZKeeps(m: Mat, t: Tableau)
    requires Faithful(m, t) && t.c.w.x == 0.0 && t.d.w.x == 0.0 && t.c.w.y == 0.0 && t.d.w.y == 0.0
    ensures var t' := PivotZ(t);
      && Faithful(m, t') && t'.a == t.a && t'.b == t.b
      && t'.c.w.x == 0.0 && t'.d.w.x == 0.0 && t'.c.w.y == 0.0 && t'.d.w.y == 0.0
      && (t'.c.w.z == 0.0 ==> t'.d.w.z == 0.0)
  {
    hide Faithful;
    FaithfulSwaps(m, t);
  }

  lemma ClearZKeeps(m: Mat, t: Tableau)
    requires Faithful(m, t) && t.c.w.z != 0.0
    requires t.c.w.x == 0.0 && t.d.w.x == 0.0 && t.c.w.y == 0.0 && t.d.w.y == 0.0
    ensures var t' := ClearZ(t);
      && Faithful(m, t') && t'.a.w == t.a.w && t'.b.w == t.b.w && t'.c.w == t.c.w
      && t'.d.w.x == 0.0 && t'.d.w.y == 0.0 && t'.d.w.z == 0.0
  {
    hide Faithful;
    Cancels(t.d.w.z, t.c.w.z);
    FaithfulTake(m, t, 2, 3, t.d.w.z / t.c.w.z);
  }

  // ---------- The four checks ----------

  /** The input sends some nonzero vector to zero. */
  ghost predicate HasKernel(m: Mat) {
    exists v :: v != ZERO && TimesColumn(m, v) == ZERO
  }

  lemma KernelFound(m: Mat, t: Tableau, v: Vec4)
    requires Faithful(m, t) && v != ZERO
    requires Dot(t.a.w, v) == 0.0 && Dot(t.b.w, v) == 0.0 && Dot(t.c.w, v) == 0.0 && Dot(t.d.w, v) == 0.0
    ensures HasKernel(m)
  {
    hide Dot, TimesColumn, Sound;
    KernelOfSound(m, t.a, t.b, t.c, t.d, v);
  }

  lemma CheckX(m: Mat, t: Tableau)
    requires Faithful(m, t) && t.a.w.x == 0.0 && t.b.w.x == 0.0 && t.c.w.x == 0.0 && t.d.w.x == 0.0
    ensures HasKernel(m) && DetRows(t) == 0.0
  {
    DetWithoutX(t.a.w, t.b.w, t.c.w, t.d.w);
    hide Faithful, HasKernel, Det;
    KernelFound(m, t, E0);
  }

  lemma DetWithoutX(a: Vec4, b: Vec4, c: Vec4, d: Vec4)
    requires a.x == 0.0 && b.x == 0.0 && c.x == 0.0 && d.x == 0.0
    ensures Det(a, b, c, d) == 0.0
  {
  }

  lemma DetWithoutY(a: Vec4, b: Vec4, c: Vec4, d: Vec4)
    requires b.x == 0.0 && c.x == 0.0 && d.x == 0.0 && b.y == 0.0 && c.y == 0.0 && d.y == 0.0
    ensures Det(a, b, c, d) == 0.0
  {
  }

  lemma DetWithoutZ(a: Vec4, b: Vec4, c: Vec4, d: Vec4)
    requires b.x == 0.0 && c.x == 0.0 && d.x == 0.0 && c.y == 0.0 && d.y == 0.0 && c.z == 0.0 && d.z == 0.0
    ensures Det(a, b, c, d) == 0.0
  {
  }

  lemma Solves(p: real, v: real, rest: real)
    requires p != 0.0 && v == -(rest / p)
    ensures p * v + rest == 0.0
  {
    assert p * (rest / p) == rest;
  }

  /** The vector with the given last entries that a row with a nonzero first entry does not see. */
  function WithX(a: Vec4, y: real, z: real, w: real): (v: Vec4)
    requires a.x != 0.0
    ensures Dot(a, v) == 0.0 && v.y == y && v.z == z && v.w == w
  {
    var rest := a.y * y + a.z * z + a.w * w;
    Solves(a.x, -(rest / a.x), rest);
    Vec4(-(rest / a.x), y, z, w)
  }

  function WithY(a: Vec4, b: Vec4, z: real, w: real): (v: Vec4)
    requires a.x != 0.0 && b.x == 0.0 && b.y != 0.0
    ensures Dot(a, v) == 0.0 && Dot(b, v) == 0.0 && v.z == z && v.w == w
  {
    var rest := b.z * z + b.w * w;
    Solves(b.y, -(rest / b.y), rest);
    WithX(a, -(rest / b.y), z, w)
  }

  function WithZ(a: Vec4, b: Vec4, c: Vec4, w: real): (v: Vec4)
    requires a.x != 0.0 && b.x == 0.0 && b.y != 0.0 && c.x == 0.0 && c.y == 0.0 && c.z != 0.0
    ensures Dot(a, v) == 0.0 && Dot(b, v) == 0.0 && Dot(c, v) == 0.0 && v.w == w
  {
    var rest := c.w * w;
    Solves(c.z, -(rest / c.z), rest);
    WithY(a, b, -(rest / c.z), w)
  }

  lemma CheckY(m: Mat, t: Tableau)
    requires Faithful(m, t) && t.a.w.x != 0.0 && t.b.w.x == 0.0 && t.c.w.x == 0.0 && t.d.w.x == 0.0
    requires t.b.w.y == 0.0 && t.c.w.y == 0.0 && t.d.w.y == 0.0
    ensures HasKernel(m) && DetRows(t) == 0.0
  {
    DetWithoutY(t.a.w, t.b.w, t.c.w, t.d.w);
    hide Faithful, HasKernel, Det, WithX, WithY, WithZ;
    var v := WithX(t.a.w, 1.0, 0.0, 0.0);
    KernelFound(m, t, v);
  }

  lemma CheckZ(m: Mat, t: Tableau)
    requires Faithful(m, t) && t.a.w.x != 0.0 && t.b.w.x == 0.0 && t.c.w.x == 0.0 && t.d.w.x == 0.0
    requires t.b.w.y != 0.0 && t.c.w.y == 0.0 && t.d.w.y == 0.0 && t.c.w.z == 0.0 && t.d.w.z == 0.0
    ensures HasKernel(m) && DetRows(t) == 0.0
  {
    DetWithoutZ(t.a.w, t.b.w, t.c.w, t.d.w);
    hide Faithful, HasKernel, Det, WithX, WithY, WithZ;
    var v := WithY(t.a.w, t.b.w, 1.0, 0.0);
    KernelFound(m, t, v);
  }

  lemma CheckW(m: Mat, t: Tableau)
    requires Faithful(m, t) && t.a.w.x != 0.0 && t.b.w.x == 0.0 && t.c.w.x == 0.0 && t.d.w == ZERO
    requires t.b.w.y != 0.0 && t.c.w.y == 0.0 && t.c.w.z != 0.0
    ensures HasKernel(m) && DetRows(t) == 0.0
  {
    DetTriangular(t.a.w, t.b.w, t.c.w, t.d.w);
    hide Faithful, HasKernel, Det, WithX, WithY, WithZ;
    var v := WithZ(t.a.w, t.b.w, t.c.w, 1.0);
    assert Dot(t.d.w, v) == 0.0;
    KernelFound(m, t, v);
  }

  /** Forward elimination completes exactly when the determinant is not zero. */
  lemma ForwardDecides(m: Mat)
    ensures var r := Forward(m);
      && (r.Some? ==> Faithful(m, r.value) && IsTriangular(r.value))
      && (r.None? ==> HasKernel(m))
      && (r.Some? <==> DetOf(m) != 0.0)
  {
    hide HasKernel, DetRows, PivotX, PivotY, PivotZ, ClearX, ClearY, ClearZ, IsSound, DetOf;
    FaithfulStart(m);
    PivotXKeeps(m, Start(m));
    var t1 := PivotX(Start(m));
    if t1.a.w.x == 0.0 {
      CheckX(m, t1);
    } else {
      ClearXKeeps(m, t1);
      PivotYKeeps(m, ClearX(t1));
      var t2 := PivotY(ClearX(t1));
      if t2.b.w.y == 0.0 {
        CheckY(m, t2);
      } else {
        ClearYKeeps(m, t2);
        PivotZKeeps(m, ClearY(t2));
        var t3 := PivotZ(ClearY(t2));
        if t3.c.w.z == 0.0 {
          CheckZ(m, t3);
        } else {
          ClearZKeeps(m, t3);
          var t4 := ClearZ(t3);
          if t4.d.w.w == 0.0 {
            CheckW(m, t4);
          } else {
            DetOfTriangular(t4);
          }
        }
      }
    }
  }

  lemma DetOfTriangular(t: Tableau)
    requires IsTriangular(t)
    ensures DetRows(t) != 0.0
  {
    DetTriangular(t.a.w, t.b.w, t.c.w, t.d.w);
    hide Det;
    assert t.c.w.z * t.d.w.w != 0.0;
    assert t.b.w.y * (t.c.w.z * t.d.w.w) != 0.0;
  }

  // ---------- Back substitution ----------

  lemma Halves(m: Mat, t: Tableau, i: nat, k: real)
    requires IsSound(m, t) && i < 4 && k != 0.0
    ensures 1.0 / k * k == 1.0
    ensures IsSound(m, Stretch(t, i, 1.0 / k))
  {
    hide Sound, Stretch;
    SoundStretch(m, t, i, 1.0 / k);
  }

  lemma BackWKeeps(m: Mat, t: Tableau)
    requires IsSound(m, t) && IsTriangular(t)
    ensures var u := BackW(t);
      && IsSound(m, u) && u.d.w == E3
      && u.c.w == Vec4(0.0, 0.0, t.c.w.z, 0.0)
      && u.b.w == Vec4(0.0, t.b.w.y, t.b.w.z, 0.0)
      && u.a.w == Vec4(t.a.w.x, t.a.w.y, t.a.w.z, 0.0)
  {
    hide Sound;
    Halves(m, t, 3, t.d.w.w);
    var t1 := Stretch(t, 3, 1.0 / t.d.w.w);
    assert t1.d.w == E3;
    SoundTake(m, t1, 3, 2, t1.c.w.w);
    var t2 := Take(t1, 3, 2, t1.c.w.w);
    SoundTake(m, t2, 3, 1, t2.b.w.w);
    var t3 := Take(t2, 3, 1, t2.b.w.w);
    SoundTake(m, t3, 3, 0, t3.a.w.w);
  }

  lemma BackZKeeps(m: Mat, t: Tableau)
    requires IsSound(m, t) && t.c.w.x == 0.0 && t.c.w.y == 0.0 && t.c.w.z != 0.0 && t.c.w.w == 0.0
    ensures var u := BackZ(t);
      && IsSound(m, u) && u.d.w == t.d.w && u.c.w == E2
      && u.b.w == t.b.w.(z := 0.0) && u.a.w == t.a.w.(z := 0.0)
  {
    hide Sound;
    Halves(m, t, 2, t.c.w.z);
    var t1 := Stretch(t, 2, 1.0 / t.c.w.z);
    assert t1.c.w == E2;
    SoundTake(m, t1, 2, 1, t1.b.w.z);
    var t2 := Take(t1, 2, 1, t1.b.w.z);
    SoundTake(m, t2, 2, 0, t2.a.w.z);
  }

  lemma BackYKeeps(m: Mat, t: Tableau)
    requires IsSound(m, t) && t.b.w.x == 0.0 && t.b.w.y != 0.0 && t.b.w.z == 0.0 && t.b.w.w == 0.0
    ensures var u := BackY(t);
      && IsSound(m, u) && u.d.w == t.d.w && u.c.w == t.c.w && u.b.w == E1
      && u.a.w == t.a.w.(y := 0.0)
  {
    hide Sound;
    Halves(m, t, 1, t.b.w.y);
    var t1 := Stretch(t, 1, 1.0 / t.b.w.y);
    assert t1.b.w == E1;
    SoundTake(m, t1, 1, 0, t1.a.w.y);
  }

  lemma BackXKeeps(m: Mat, t: Tableau)
    requires IsSound(m, t) && t.a.w.x != 0.0 && t.a.w.y == 0.0 && t.a.w.z == 0.0 && t.a.w.w == 0.0
    ensures var u := BackX(t);
      IsSound(m, u) && u.d.w == t.d.w && u.c.w == t.c.w && u.b.w == t.b.w && u.a.w == E0
  {
    hide Sound;
    Halves(m, t, 0, t.a.w.x);
  }

  lemma BackStays(t: Tableau)
    requires IsTriangular(t)
    ensures BackW(t).c.w.z == t.c.w.z
    ensures BackZ(BackW(t)).b.w.y == t.b.w.y
    ensures BackY(BackZ(BackW(t))).a.w.x == t.a.w.x
    ensures BackW(t).b.w.z == t.b.w.z && BackW(t).a.w.z == t.a.w.z
    ensures BackZ(BackW(t)).a.w.y == t.a.w.y
  {
    var t1 := Stretch(t, 3, 1.0 / t.d.w.w);
  }

  function BackSubstitute(t: Tableau): Tableau
    requires IsTriangular(t)
  {
    BackStays(t);
    BackX(BackY(BackZ(BackW(t))))
  }

  function RightHalf(t: Tableau): Mat {
    Mat(t.a.e, t.b.e, t.c.e, t.d.e)
  }

  /** What `invert` stores, or None where it gives up. */
  function Inverse(m: Mat): Option<Mat> {
    match Forward(m)
    case None => None
    case Some(t) => ForwardDecides(m); Some(RightHalf(BackSubstitute(t)))
  }

  // ---------- The inverse ----------

  predicate AreInverse(m: Mat, n: Mat) {
    Mul(m, n) == IDENTITY && Mul(n, m) == IDENTITY
  }

  lemma BackSubstituteSolves(m: Mat, t: Tableau)
    requires IsSound(m, t) && IsTriangular(t)
    ensures AreInverse(m, RightHalf(BackSubstitute(t)))
  {
    BackStays(t);
    BackWKeeps(m, t);
    BackZKeeps(m, BackW(t));
    BackYKeeps(m, BackZ(BackW(t)));
    BackXKeeps(m, BackY(BackZ(BackW(t))));
    var u := BackSubstitute(t);
    hide BackX, BackY, BackZ, BackW, Mul, Sound;
    SolvedIsInverse(m, u.a, u.b, u.c, u.d);
  }

  /** Elimination completes exactly when the determinant is nonzero, and then inverts on both sides. */
  lemma InverseIsCorrect(m: Mat)
    ensures Inverse(m).Some? <==> DetOf(m) != 0.0
    ensures Inverse(m).Some? ==> AreInverse(m, Inverse(m).value)
    ensures Inverse(m).None? ==> HasKernel(m)
  {
    hide DetOf, AreInverse, BackSubstitute, HasKernel, IsTriangular;
    ForwardDecides(m);
    if Forward(m).Some? {
      BackSubstituteSolves(m, Forward(m).value);
    }
  }

  lemma TimesColumnAssoc(n: Mat, m: Mat, v: Vec4)
    ensures TimesColumn(Mul(n, m), v) == TimesColumn(n, TimesColumn(m, v))
  {
    hide Dot, RowTimes;
    RowTimesDot(n.r0, m, v);
    RowTimesDot(n.r1, m, v);
    RowTimesDot(n.r2, m, v);
    RowTimesDot(n.r3, m, v);
  }

  lemma TimesColumnTrivial(n: Mat, v: Vec4)
    ensures TimesColumn(IDENTITY, v) == v && TimesColumn(n, ZERO) == ZERO
  {
  }

  lemma LeftInverseHasNoKernel(n: Mat, m: Mat)
    requires Mul(n, m) == IDENTITY
    ensures !HasKernel(m)
  {
    hide TimesColumn, Mul;
    forall v | TimesColumn(m, v) == ZERO
      ensures v == ZERO
    {
      TimesColumnAssoc(n, m, v);
      TimesColumnTrivial(n, v);
    }
  }

  /** A one-sided inverse is an inverse. */
  lemma OneSideIsEnough(m: Mat, n: Mat)
    requires Mul(m, n) == IDENTITY
    ensures Mul(n, m) == IDENTITY
  {
    hide Mul, HasKernel, Inverse;
    LeftInverseHasNoKernel(m, n);
    InverseIsCorrect(n);
    var k := Inverse(n).value;
    MulAssoc(m, n, k);
    MulIdentity(m);
    MulIdentity(k);
  }

  /** `invert` gives up exactly on the matrices that have no inverse on either side. */
  lemma GivesUpOnlyWhenSingular(m: Mat)
    ensures Inverse(m).Some? <==> exists n :: Mul(n, m) == IDENTITY
    ensures Inverse(m).Some? <==> exists n :: Mul(m, n) == IDENTITY
  {
    hide Mul, HasKernel, Inverse, DetOf;
    InverseIsCorrect(m);
    if n :| Mul(m, n) == IDENTITY {
      OneSideIsEnough(m, n);
    }
    if n :| Mul(n, m) == IDENTITY {
      LeftInverseHasNoKernel(n, m);
    }
  }

  /** The inverse is the only one, so the pivot choices do not show in the result. */
  lemma InverseIsUnique(m: Mat, n: Mat)
    requires Mul(n, m) == IDENTITY || Mul(m, n) == IDENTITY
    ensures Inverse(m) == Some(n)
  {
    hide Mul, HasKernel, Inverse, DetOf;
    GivesUpOnlyWhenSingular(m);
    InverseIsCorrect(m);
    var k := Inverse(m).value;
    if Mul(m, n) == IDENTITY {
      OneSideIsEnough(m, n);
    }
    MulAssoc(n, m, k);
    MulIdentity(n);
    MulIdentity(k);
  }
}
