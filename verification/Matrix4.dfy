/** Exact 4x4 matrices over the reals: what `Projection` and its row operations mean. */
module Matrix4 {
  datatype Vec4 = Vec4(x: real, y: real, z: real, w: real)

  /** A matrix by its rows. */
  datatype Mat = Mat(r0: Vec4, r1: Vec4, r2: Vec4, r3: Vec4)

  const E0 := Vec4(1.0, 0.0, 0.0, 0.0)
  const E1 := Vec4(0.0, 1.0, 0.0, 0.0)
  const E2 := Vec4(0.0, 0.0, 1.0, 0.0)
  const E3 := Vec4(0.0, 0.0, 0.0, 1.0)
  const ZERO := Vec4(0.0, 0.0, 0.0, 0.0)
  const IDENTITY := Mat(E0, E1, E2, E3)

  /** `u + k * v` */
  function AddScaled(u: Vec4, k: real, v: Vec4): Vec4 {
    Vec4(u.x + k * v.x, u.y + k * v.y, u.z + k * v.z, u.w + k * v.w)
  }

  function Scale(k: real, v: Vec4): Vec4 {
    Vec4(k * v.x, k * v.y, k * v.z, k * v.w)
  }

  function Dot(u: Vec4, v: Vec4): real {
    u.x * v.x + u.y * v.y + u.z * v.z + u.w * v.w
  }

  /** `v.x * a + v.y * b + v.z * c + v.w * d` */
  function Comb(v: Vec4, a: Vec4, b: Vec4, c: Vec4, d: Vec4): Vec4 {
    Vec4(v.x * a.x + v.y * b.x + v.z * c.x + v.w * d.x,
         v.x * a.y + v.y * b.y + v.z * c.y + v.w * d.y,
         v.x * a.z + v.y * b.z + v.z * c.z + v.w * d.z,
         v.x * a.w + v.y * b.w + v.z * c.w + v.w * d.w)
  }

  /** The row vector `v` times `m`. */
  function RowTimes(v: Vec4, m: Mat): Vec4 {
    Comb(v, m.r0, m.r1, m.r2, m.r3)
  }

  /** `m` times the column vector `v`. */
  function TimesColumn(m: Mat, v: Vec4): Vec4 {
    Vec4(Dot(m.r0, v), Dot(m.r1, v), Dot(m.r2, v), Dot(m.r3, v))
  }

  function Mul(a: Mat, b: Mat): Mat {
    Mat(RowTimes(a.r0, b), RowTimes(a.r1, b), RowTimes(a.r2, b), RowTimes(a.r3, b))
  }

  // ---------- Products ----------

  lemma DotLinear(u: Vec4, k: real, v: Vec4, n: Vec4)
    ensures Dot(AddScaled(u, k, v), n) == Dot(u, n) + k * Dot(v, n)
    ensures Dot(n, AddScaled(u, k, v)) == Dot(n, u) + k * Dot(n, v)
  {
  }

  lemma DotScale(k: real, v: Vec4, n: Vec4)
    ensures Dot(Scale(k, v), n) == k * Dot(v, n)
  {
  }

  /** One coordinate of the combination, at once and by steps. */
  function Weighed(v: Vec4, a: real, b: real, c: real, d: real): real {
    v.x * a + v.y * b + v.z * c + v.w * d
  }

  function Scaled(k: real, a: real): real {
    k * a
  }

  function Added(u: real, k: real, a: real): real {
    u + k * a
  }

  lemma CombParts(v: Vec4, a: Vec4, b: Vec4, c: Vec4, d: Vec4)
    ensures Comb(v, a, b, c, d) == Vec4(Weighed(v, a.x, b.x, c.x, d.x), Weighed(v, a.y, b.y, c.y, d.y),
                                        Weighed(v, a.z, b.z, c.z, d.z), Weighed(v, a.w, b.w, c.w, d.w))
  {
  }

  lemma AddedParts(u: Vec4, k: real, v: Vec4)
    ensures AddScaled(u, k, v) == Vec4(Added(u.x, k, v.x), Added(u.y, k, v.y), Added(u.z, k, v.z), Added(u.w, k, v.w))
  {
  }

  lemma ScaledParts(k: real, v: Vec4)
    ensures Scale(k, v) == Vec4(Scaled(k, v.x), Scaled(k, v.y), Scaled(k, v.z), Scaled(k, v.w))
  {
  }

  lemma SumOf(v: Vec4, a: real, b: real, c: real, d: real)
    ensures Added(Added(Added(Scaled(v.x, a), v.y, b), v.z, c), v.w, d) == Weighed(v, a, b, c, d)
  {
  }

  lemma CombIsSum(v: Vec4, a: Vec4, b: Vec4, c: Vec4, d: Vec4)
    ensures Comb(v, a, b, c, d) == AddScaled(AddScaled(AddScaled(Scale(v.x, a), v.y, b), v.z, c), v.w, d)
  {
    hide *;
    var s1 := Scale(v.x, a);
    var s2 := AddScaled(s1, v.y, b);
    var s3 := AddScaled(s2, v.z, c);
    ScaledParts(v.x, a);
    AddedParts(s1, v.y, b);
    AddedParts(s2, v.z, c);
    AddedParts(s3, v.w, d);
    CombParts(v, a, b, c, d);
    SumOf(v, a.x, b.x, c.x, d.x);
    SumOf(v, a.y, b.y, c.y, d.y);
    SumOf(v, a.z, b.z, c.z, d.z);
    SumOf(v, a.w, b.w, c.w, d.w);
  }

  lemma CombDot(v: Vec4, a: Vec4, b: Vec4, c: Vec4, d: Vec4, u: Vec4)
    ensures Dot(Comb(v, a, b, c, d), u) == v.x * Dot(a, u) + v.y * Dot(b, u) + v.z * Dot(c, u) + v.w * Dot(d, u)
  {
    var ab := AddScaled(Scale(v.x, a), v.y, b);
    var abc := AddScaled(ab, v.z, c);
    CombIsSum(v, a, b, c, d);
    hide *;
    DotScale(v.x, a, u);
    DotLinear(Scale(v.x, a), v.y, b, u);
    DotLinear(ab, v.z, c, u);
    DotLinear(abc, v.w, d, u);
  }

  lemma RowTimesDot(v: Vec4, m: Mat, u: Vec4)
    ensures Dot(RowTimes(v, m), u) == Dot(v, TimesColumn(m, u))
  {
    hide Comb;
    CombDot(v, m.r0, m.r1, m.r2, m.r3, u);
  }

  function Column0(m: Mat): Vec4 { Vec4(m.r0.x, m.r1.x, m.r2.x, m.r3.x) }
  function Column1(m: Mat): Vec4 { Vec4(m.r0.y, m.r1.y, m.r2.y, m.r3.y) }
  function Column2(m: Mat): Vec4 { Vec4(m.r0.z, m.r1.z, m.r2.z, m.r3.z) }
  function Column3(m: Mat): Vec4 { Vec4(m.r0.w, m.r1.w, m.r2.w, m.r3.w) }

  lemma RowTimesColumns(v: Vec4, m: Mat)
    ensures RowTimes(v, m) == Vec4(Dot(v, Column0(m)), Dot(v, Column1(m)), Dot(v, Column2(m)), Dot(v, Column3(m)))
  {
  }

  lemma CombTimes(v: Vec4, a: Vec4, b: Vec4, c: Vec4, d: Vec4, m: Mat)
    ensures RowTimes(Comb(v, a, b, c, d), m)
         == Comb(v, RowTimes(a, m), RowTimes(b, m), RowTimes(c, m), RowTimes(d, m))
  {
    var t := Comb(v, a, b, c, d);
    CombDot(v, a, b, c, d, Column0(m));
    CombDot(v, a, b, c, d, Column1(m));
    CombDot(v, a, b, c, d, Column2(m));
    CombDot(v, a, b, c, d, Column3(m));
    RowTimesColumns(t, m);
    RowTimesColumns(a, m);
    RowTimesColumns(b, m);
    RowTimesColumns(c, m);
    RowTimesColumns(d, m);
    hide RowTimes, Dot, Column0, Column1, Column2, Column3;
  }

  lemma MulAssoc(a: Mat, b: Mat, c: Mat)
    ensures Mul(Mul(a, b), c) == Mul(a, Mul(b, c))
  {
    CombTimes(a.r0, b.r0, b.r1, b.r2, b.r3, c);
    CombTimes(a.r1, b.r0, b.r1, b.r2, b.r3, c);
    CombTimes(a.r2, b.r0, b.r1, b.r2, b.r3, c);
    CombTimes(a.r3, b.r0, b.r1, b.r2, b.r3, c);
    hide Comb;
  }

  lemma MulIdentity(m: Mat)
    ensures Mul(IDENTITY, m) == m && Mul(m, IDENTITY) == m
  {
  }

  lemma AddScaledTimes(u: Vec4, k: real, v: Vec4, m: Mat)
    ensures RowTimes(AddScaled(u, k, v), m) == AddScaled(RowTimes(u, m), k, RowTimes(v, m))
  {
    DotLinear(u, k, v, Column0(m));
    DotLinear(u, k, v, Column1(m));
    DotLinear(u, k, v, Column2(m));
    DotLinear(u, k, v, Column3(m));
    RowTimesColumns(AddScaled(u, k, v), m);
    RowTimesColumns(u, m);
    RowTimesColumns(v, m);
    hide RowTimes, Dot, Column0, Column1, Column2, Column3;
    var t, a, b := RowTimes(AddScaled(u, k, v), m), RowTimes(u, m), RowTimes(v, m);
    assert t.x == a.x + k * b.x;
    assert t.y == a.y + k * b.y;
    assert t.z == a.z + k * b.z;
    assert t.w == a.w + k * b.w;
  }

  lemma ScaleTimes(k: real, v: Vec4, m: Mat)
    ensures RowTimes(Scale(k, v), m) == Scale(k, RowTimes(v, m))
  {
    DotScale(k, v, Column0(m));
    DotScale(k, v, Column1(m));
    DotScale(k, v, Column2(m));
    DotScale(k, v, Column3(m));
    RowTimesColumns(Scale(k, v), m);
    RowTimesColumns(v, m);
    hide RowTimes, Dot, Column0, Column1, Column2, Column3;
  }

  // ---------- Determinants ----------

  function Det2(c: real, c': real, d: real, d': real): real {
    c * d' - c' * d
  }

  function Expand(b: real, b': real, b'': real, p: real, q: real, r: real): real {
    b * p - b' * q + b'' * r
  }

  /** The 3x3 minors of three rows. */
  function Minors(b: Vec4, c: Vec4, d: Vec4): Vec4 {
    Vec4(Expand(b.y, b.z, b.w, Det2(c.z, c.w, d.z, d.w), Det2(c.y, c.w, d.y, d.w), Det2(c.y, c.z, d.y, d.z)),
         Expand(b.x, b.z, b.w, Det2(c.z, c.w, d.z, d.w), Det2(c.x, c.w, d.x, d.w), Det2(c.x, c.z, d.x, d.z)),
         Expand(b.x, b.y, b.w, Det2(c.y, c.w, d.y, d.w), Det2(c.x, c.w, d.x, d.w), Det2(c.x, c.y, d.x, d.y)),
         Expand(b.x, b.y, b.z, Det2(c.y, c.z, d.y, d.z), Det2(c.x, c.z, d.x, d.z), Det2(c.x, c.y, d.x, d.y)))
  }

  function Alternating(u: Vec4, v: Vec4): real {
    u.x * v.x - u.y * v.y + u.z * v.z - u.w * v.w
  }

  /** Laplace expansion along the first row. */
  function Det(a: Vec4, b: Vec4, c: Vec4, d: Vec4): real {
    Alternating(a, Minors(b, c, d))
  }

  function DetOf(m: Mat): real {
    Det(m.r0, m.r1, m.r2, m.r3)
  }

  lemma AlternatingLinear(u: Vec4, k: real, v: Vec4, n: Vec4)
    ensures Alternating(AddScaled(u, k, v), n) == Alternating(u, n) + k * Alternating(v, n)
    ensures Alternating(n, AddScaled(u, k, v)) == Alternating(n, u) + k * Alternating(n, v)
  {
  }

  lemma ExpandLinear(t: real, t': real, t'': real, b: real, b': real, b'': real, k: real, v: real, v': real, v'': real,
                     p: real, q: real, r: real, m: real, n: real)
    requires t == b + k * v && t' == b' + k * v' && t'' == b'' + k * v''
    requires m == Expand(b, b', b'', p, q, r) && n == Expand(v, v', v'', p, q, r)
    ensures Expand(t, t', t'', p, q, r) == m + k * n
  {
  }

  lemma MinorsLinear(b: Vec4, k: real, v: Vec4, c: Vec4, d: Vec4)
    ensures Minors(AddScaled(b, k, v), c, d) == AddScaled(Minors(b, c, d), k, Minors(v, c, d))
  {
    var t, m, n := AddScaled(b, k, v), Minors(b, c, d), Minors(v, c, d);
    hide Expand, Det2;
    ExpandLinear(t.y, t.z, t.w, b.y, b.z, b.w, k, v.y, v.z, v.w,
                 Det2(c.z, c.w, d.z, d.w), Det2(c.y, c.w, d.y, d.w), Det2(c.y, c.z, d.y, d.z), m.x, n.x);
    ExpandLinear(t.x, t.z, t.w, b.x, b.z, b.w, k, v.x, v.z, v.w,
                 Det2(c.z, c.w, d.z, d.w), Det2(c.x, c.w, d.x, d.w), Det2(c.x, c.z, d.x, d.z), m.y, n.y);
    ExpandLinear(t.x, t.y, t.w, b.x, b.y, b.w, k, v.x, v.y, v.w,
                 Det2(c.y, c.w, d.y, d.w), Det2(c.x, c.w, d.x, d.w), Det2(c.x, c.y, d.x, d.y), m.z, n.z);
    ExpandLinear(t.x, t.y, t.z, b.x, b.y, b.z, k, v.x, v.y, v.z,
                 Det2(c.y, c.z, d.y, d.z), Det2(c.x, c.z, d.x, d.z), Det2(c.x, c.y, d.x, d.y), m.w, n.w);
  }

  lemma ExpandSwap(b: real, b': real, b'': real, c: real, c': real, c'': real, d: real, d': real, d'': real)
    ensures Expand(c, c', c'', Det2(b', b'', d', d''), Det2(b, b'', d, d''), Det2(b, b', d, d'))
         == -Expand(b, b', b'', Det2(c', c'', d', d''), Det2(c, c'', d, d''), Det2(c, c', d, d'))
    ensures Expand(b, b', b'', Det2(d', d'', c', c''), Det2(d, d'', c, c''), Det2(d, d', c, c'))
         == -Expand(b, b', b'', Det2(c', c'', d', d''), Det2(c, c'', d, d''), Det2(c, c', d, d'))
  {
  }

  lemma MinorsSwap(b: Vec4, c: Vec4, d: Vec4)
    ensures Minors(c, b, d) == Scale(-1.0, Minors(b, c, d))
    ensures Minors(b, d, c) == Scale(-1.0, Minors(b, c, d))
  {
    ExpandSwap(b.y, b.z, b.w, c.y, c.z, c.w, d.y, d.z, d.w);
    ExpandSwap(b.x, b.z, b.w, c.x, c.z, c.w, d.x, d.z, d.w);
    ExpandSwap(b.x, b.y, b.w, c.x, c.y, c.w, d.x, d.y, d.w);
    ExpandSwap(b.x, b.y, b.z, c.x, c.y, c.z, d.x, d.y, d.z);
    hide Expand, Det2;
  }

  lemma DetRepeated(a: Vec4, c: Vec4, d: Vec4)
    ensures Det(a, a, c, d) == 0.0
  {
    hide Det2;
    RepeatedRow(a.x, a.y, a.z, a.w, Det2(c.z, c.w, d.z, d.w), Det2(c.y, c.w, d.y, d.w), Det2(c.y, c.z, d.y, d.z),
                Det2(c.x, c.w, d.x, d.w), Det2(c.x, c.z, d.x, d.z), Det2(c.x, c.y, d.x, d.y));
  }

  lemma RepeatedRow(x: real, y: real, z: real, w: real,
                    zw: real, yw: real, yz: real, xw: real, xz: real, xy: real)
    ensures x * Expand(y, z, w, zw, yw, yz) - y * Expand(x, z, w, zw, xw, xz)
            + z * Expand(x, y, w, yw, xw, xy) - w * Expand(x, y, z, yz, xz, xy) == 0.0
  {
  }

  lemma DetSwaps(a: Vec4, b: Vec4, c: Vec4, d: Vec4)
    ensures Det(b, a, c, d) == -Det(a, b, c, d)
    ensures Det(a, c, b, d) == -Det(a, b, c, d)
    ensures Det(a, b, d, c) == -Det(a, b, c, d)
  {
    hide *;
    DetSwap01(a, b, c, d);
    DetNegated(a, b, c, d, c, b, d);
    DetNegated(a, b, c, d, b, d, c);
  }

  lemma DetNegated(a: Vec4, b: Vec4, c: Vec4, d: Vec4, b': Vec4, c': Vec4, d': Vec4)
    requires (b', c', d') == (c, b, d) || (b', c', d') == (b, d, c)
    ensures Det(a, b', c', d') == -Det(a, b, c, d)
  {
    hide Minors, Scale, Alternating;
    MinorsSwap(b, c, d);
    AlternatingScale(a, -1.0, Minors(b, c, d));
  }

  lemma AlternatingScale(u: Vec4, k: real, v: Vec4)
    ensures Alternating(u, Scale(k, v)) == k * Alternating(u, v)
  {
  }

  lemma DetSwap01(a: Vec4, b: Vec4, c: Vec4, d: Vec4)
    ensures Det(b, a, c, d) == -Det(a, b, c, d)
  {
    var s := AddScaled(a, 1.0, b);
    DetRepeated(s, c, d);
    DetRepeated(a, c, d);
    DetRepeated(b, c, d);
    MinorsLinear(a, 1.0, b, c, d);
    AlternatingLinear(Minors(a, c, d), 1.0, Minors(b, c, d), s);
    AlternatingLinear(a, 1.0, b, Minors(a, c, d));
    AlternatingLinear(a, 1.0, b, Minors(b, c, d));
    hide Alternating, Minors, AddScaled;
  }

  /** Adding a multiple of the first row to the second keeps the determinant. */
  lemma DetCombine(a: Vec4, b: Vec4, c: Vec4, d: Vec4, k: real)
    ensures Det(a, AddScaled(b, k, a), c, d) == Det(a, b, c, d)
  {
    MinorsLinear(b, k, a, c, d);
    AlternatingLinear(Minors(b, c, d), k, Minors(a, c, d), a);
    DetRepeated(a, c, d);
    hide Alternating, Minors, AddScaled;
  }

  lemma DetOrders(a: Vec4, b: Vec4, c: Vec4, d: Vec4)
    ensures Det(a, b, c, d) == -Det(a, c, b, d) == Det(a, d, b, c)
    ensures Det(a, b, c, d) == Det(b, c, a, d) == -Det(b, d, a, c) == Det(c, d, a, b)
  {
    hide Det;
    DetSwaps(a, b, c, d);
    DetSwaps(a, b, d, c);
    DetSwaps(a, d, b, c);
    DetSwaps(b, a, c, d);
    DetSwaps(b, a, d, c);
    DetSwaps(a, c, b, d);
    DetSwaps(a, c, d, b);
    DetSwaps(c, a, d, b);
  }

  lemma DetTriangular(a: Vec4, b: Vec4, c: Vec4, d: Vec4)
    requires b.x == 0.0 && c.x == 0.0 && c.y == 0.0 && d.x == 0.0 && d.y == 0.0 && d.z == 0.0
    ensures Det(a, b, c, d) == a.x * (b.y * (c.z * d.w))
  {
  }
}
