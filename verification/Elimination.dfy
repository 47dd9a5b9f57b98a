/**
 Gauss-Jordan elimination with partial pivoting on exact 4x4 matrices, step for step as
 `Projection::invert` performs it, and why its result is the inverse.
 */
module Elimination {
  import opened Matrix4

  /**
   One working row: its left half `w`, its right half `e`, and the certificate column `f` that
   undoes the row operations. The left half is always `e` times the input, and the four
   certificate columns times the four right halves always add up to the identity.
   */
  datatype Strand = Strand(w: Vec4, e: Vec4, f: Vec4)

  datatype Tableau = Tableau(a: Strand, b: Strand, c: Strand, d: Strand)

  function Abs(r: real): real {
    if r < 0.0 then -r else r
  }

  // ---------- Row operations ----------

  /** Row `q` minus `k` times row `p`. */
  function Minus(q: Strand, k: real, p: Strand): Strand {
    q.(w := AddScaled(q.w, -k, p.w), e := AddScaled(q.e, -k, p.e))
  }

  /** What the certificate of `p` becomes when `k` times `p` is taken from `q`. */
  function Lend(p: Strand, k: real, q: Strand): Strand {
    p.(f := AddScaled(p.f, k, q.f))
  }

  function Rescale(q: Strand, k: real): Strand
    requires k != 0.0
  {
    Strand(Scale(k, q.w), Scale(k, q.e), Scale(1.0 / k, q.f))
  }

  function Sum4(p: Vec4, q: Vec4, r: Vec4, s: Vec4): Vec4 {
    Vec4(p.x + q.x + r.x + s.x, p.y + q.y + r.y + s.y, p.z + q.z + r.z + s.z, p.w + q.w + r.w + s.w)
  }

  ghost predicate Tied(m: Mat, s: Strand) {
    RowTimes(s.e, m) == s.w
  }

  ghost predicate Resolves(a: Strand, b: Strand, c: Strand, d: Strand) {
    && Sum4(Scale(a.f.x, a.e), Scale(b.f.x, b.e), Scale(c.f.x, c.e), Scale(d.f.x, d.e)) == E0
    && Sum4(Scale(a.f.y, a.e), Scale(b.f.y, b.e), Scale(c.f.y, c.e), Scale(d.f.y, d.e)) == E1
    && Sum4(Scale(a.f.z, a.e), Scale(b.f.z, b.e), Scale(c.f.z, c.e), Scale(d.f.z, d.e)) == E2
    && Sum4(Scale(a.f.w, a.e), Scale(b.f.w, b.e), Scale(c.f.w, c.e), Scale(d.f.w, d.e)) == E3
  }

  ghost predicate Sound(m: Mat, a: Strand, b: Strand, c: Strand, d: Strand) {
    Tied(m, a) && Tied(m, b) && Tied(m, c) && Tied(m, d) && Resolves(a, b, c, d)
  }

  lemma AddScaledIs(u: Vec4, k: real, v: Vec4)
    ensures var t := AddScaled(u, k, v);
      t.x == u.x + k * v.x && t.y == u.y + k * v.y && t.z == u.z + k * v.z && t.w == u.w + k * v.w
  {
  }

  /** One coordinate of the pair below. */
  function Pair(f: real, g: real, u: real, v: real): real {
    f * u + 1.0 * (g * v)
  }

  lemma OnePairKept(f: real, g: real, k: real, u: real, v: real)
    ensures Pair(f + k * g, g, u, v + (-k) * u) == Pair(f, g, u, v)
  {
  }

  lemma PairIs(f: real, g: real, u: Vec4, v: Vec4)
    ensures AddScaled(Scale(f, u), 1.0, Scale(g, v))
         == Vec4(Pair(f, g, u.x, v.x), Pair(f, g, u.y, v.y), Pair(f, g, u.z, v.z), Pair(f, g, u.w, v.w))
  {
  }

  lemma PairKept(f: real, g: real, k: real, u: Vec4, v: Vec4)
    ensures AddScaled(Scale(f + k * g, u), 1.0, Scale(g, AddScaled(v, -k, u)))
         == AddScaled(Scale(f, u), 1.0, Scale(g, v))
  {
    AddScaledIs(v, -k, u);
    PairIs(f + k * g, g, u, AddScaled(v, -k, u));
    PairIs(f, g, u, v);
    hide Pair, Scale, AddScaled;
    OnePairKept(f, g, k, u.x, v.x);
    OnePairKept(f, g, k, u.y, v.y);
    OnePairKept(f, g, k, u.z, v.z);
    OnePairKept(f, g, k, u.w, v.w);
  }

  lemma ProductKept(f': real, f: real, g: real, k: real, u: Vec4, v: Vec4, r: Vec4, s: Vec4)
    requires f' == f + k * g
    ensures Sum4(Scale(f', u), Scale(g, AddScaled(v, -k, u)), r, s)
         == Sum4(Scale(f, u), Scale(g, v), r, s)
  {
    hide Scale, AddScaled, Sum4;
    PairKept(f, g, k, u, v);
    SumOfPair(Scale(f', u), Scale(g, AddScaled(v, -k, u)), Scale(f, u), Scale(g, v), r, s);
  }

  lemma SumOfPair(p: Vec4, q: Vec4, p': Vec4, q': Vec4, r: Vec4, s: Vec4)
    requires AddScaled(p, 1.0, q) == AddScaled(p', 1.0, q')
    ensures Sum4(p, q, r, s) == Sum4(p', q', r, s)
  {
    AddScaledIs(p, 1.0, q);
    AddScaledIs(p', 1.0, q');
  }

  lemma LentCertificate(p: Strand, k: real, q: Strand)
    ensures var f' := Lend(p, k, q).f;
      && f'.x == p.f.x + k * q.f.x
      && f'.y == p.f.y + k * q.f.y
      && f'.z == p.f.z + k * q.f.z
      && f'.w == p.f.w + k * q.f.w
  {
  }

  lemma ResolvesMinus(p: Strand, q: Strand, r: Strand, s: Strand, k: real)
    requires Resolves(p, q, r, s)
    ensures Resolves(Lend(p, k, q), Minus(q, k, p), r, s)
  {
    hide Scale, Sum4, AddScaled;
    LentCertificate(p, k, q);
    var f' := Lend(p, k, q).f;
    ProductKept(f'.x, p.f.x, q.f.x, k, p.e, q.e, Scale(r.f.x, r.e), Scale(s.f.x, s.e));
    ProductKept(f'.y, p.f.y, q.f.y, k, p.e, q.e, Scale(r.f.y, r.e), Scale(s.f.y, s.e));
    ProductKept(f'.z, p.f.z, q.f.z, k, p.e, q.e, Scale(r.f.z, r.e), Scale(s.f.z, s.e));
    ProductKept(f'.w, p.f.w, q.f.w, k, p.e, q.e, Scale(r.f.w, r.e), Scale(s.f.w, s.e));
  }

  lemma SoundMinus(m: Mat, p: Strand, q: Strand, r: Strand, s: Strand, k: real)
    requires Sound(m, p, q, r, s)
    ensures Sound(m, Lend(p, k, q), Minus(q, k, p), r, s)
  {
    ResolvesMinus(p, q, r, s, k);
    AddScaledTimes(q.e, -k, p.e, m);
    hide Resolves, RowTimes;
  }

  lemma ScaleBack(k: real, f': real, f: real, v: Vec4)
    requires k != 0.0 && f' == 1.0 / k * f
    ensures Scale(f', Scale(k, v)) == Scale(f, v)
  {
    OneScaleBack(k, f, v.x);
    OneScaleBack(k, f, v.y);
    OneScaleBack(k, f, v.z);
    OneScaleBack(k, f, v.w);
  }

  lemma OneScaleBack(k: real, f: real, v: real)
    requires k != 0.0
    ensures (1.0 / k * f) * (k * v) == f * v
  {
    assert (1.0 / k * f) * (k * v) == (1.0 / k * k) * (f * v);
  }

  lemma RescaledCertificate(p: Strand, k: real)
    requires k != 0.0
    ensures var f' := Rescale(p, k).f;
      && f'.x == 1.0 / k * p.f.x
      && f'.y == 1.0 / k * p.f.y
      && f'.z == 1.0 / k * p.f.z
      && f'.w == 1.0 / k * p.f.w
  {
  }

  lemma ResolvesRescale(p: Strand, q: Strand, r: Strand, s: Strand, k: real)
    requires Resolves(p, q, r, s) && k != 0.0
    ensures Resolves(Rescale(p, k), q, r, s)
  {
    hide Scale, Sum4;
    RescaledCertificate(p, k);
    var f' := Rescale(p, k).f;
    ScaleBack(k, f'.x, p.f.x, p.e);
    ScaleBack(k, f'.y, p.f.y, p.e);
    ScaleBack(k, f'.z, p.f.z, p.e);
    ScaleBack(k, f'.w, p.f.w, p.e);
  }

  lemma SoundRescale(m: Mat, p: Strand, q: Strand, r: Strand, s: Strand, k: real)
    requires Sound(m, p, q, r, s) && k != 0.0
    ensures Sound(m, Rescale(p, k), q, r, s)
  {
    ResolvesRescale(p, q, r, s, k);
    ScaleTimes(k, p.e, m);
    hide Resolves, RowTimes;
  }

  /** The order of the rows does not matter. */
  lemma SoundOrders(m: Mat, a: Strand, b: Strand, c: Strand, d: Strand)
    requires Sound(m, a, b, c, d)
    ensures Sound(m, a, b, d, c) && Sound(m, a, c, b, d) && Sound(m, a, c, d, b) && Sound(m, a, d, b, c)
    ensures Sound(m, a, d, c, b) && Sound(m, b, a, c, d) && Sound(m, b, a, d, c) && Sound(m, b, c, a, d)
    ensures Sound(m, b, c, d, a) && Sound(m, b, d, a, c) && Sound(m, b, d, c, a) && Sound(m, c, a, b, d)
    ensures Sound(m, c, a, d, b) && Sound(m, c, b, a, d) && Sound(m, c, b, d, a) && Sound(m, c, d, a, b)
    ensures Sound(m, c, d, b, a) && Sound(m, d, a, b, c) && Sound(m, d, a, c, b) && Sound(m, d, b, a, c)
    ensures Sound(m, d, b, c, a) && Sound(m, d, c, a, b) && Sound(m, d, c, b, a)
  {
    hide Scale, Tied;
  }

  // ---------- What soundness gives ----------

  lemma WeighedDot(s: Strand, k: real, u: Vec4)
    requires Dot(s.e, u) == 0.0
    ensures Dot(Scale(k, s.e), u) == 0.0
  {
    DotScale(k, s.e, u);
  }

  lemma SumDot(p: Vec4, q: Vec4, r: Vec4, s: Vec4, u: Vec4)
    requires Dot(p, u) == 0.0 && Dot(q, u) == 0.0 && Dot(r, u) == 0.0 && Dot(s, u) == 0.0
    ensures Dot(Sum4(p, q, r, s), u) == 0.0
  {
    assert Sum4(p, q, r, s) == AddScaled(AddScaled(AddScaled(p, 1.0, q), 1.0, r), 1.0, s);
    hide Sum4, Dot, AddScaled;
    DotLinear(p, 1.0, q, u);
    DotLinear(AddScaled(p, 1.0, q), 1.0, r, u);
    DotLinear(AddScaled(AddScaled(p, 1.0, q), 1.0, r), 1.0, s, u);
  }

  /** A vector no working row sees is one the input sends to zero. */
  lemma KernelOfSound(m: Mat, a: Strand, b: Strand, c: Strand, d: Strand, v: Vec4)
    requires Sound(m, a, b, c, d)
    requires Dot(a.w, v) == 0.0 && Dot(b.w, v) == 0.0 && Dot(c.w, v) == 0.0 && Dot(d.w, v) == 0.0
    ensures TimesColumn(m, v) == ZERO
  {
    var u := TimesColumn(m, v);
    RowTimesDot(a.e, m, v);
    RowTimesDot(b.e, m, v);
    RowTimesDot(c.e, m, v);
    RowTimesDot(d.e, m, v);
    UnitsSeeNothing(a, b, c, d, u);
    assert u.x == Dot(E0, u) && u.y == Dot(E1, u) && u.z == Dot(E2, u) && u.w == Dot(E3, u);
  }

  lemma UnitsSeeNothing(a: Strand, b: Strand, c: Strand, d: Strand, u: Vec4)
    requires Resolves(a, b, c, d)
    requires Dot(a.e, u) == 0.0 && Dot(b.e, u) == 0.0 && Dot(c.e, u) == 0.0 && Dot(d.e, u) == 0.0
    ensures Dot(E0, u) == 0.0 && Dot(E1, u) == 0.0 && Dot(E2, u) == 0.0 && Dot(E3, u) == 0.0
  {
    hide Scale, Sum4, Dot;
    WeighedDot(a, a.f.x, u); WeighedDot(b, b.f.x, u); WeighedDot(c, c.f.x, u); WeighedDot(d, d.f.x, u);
    WeighedDot(a, a.f.y, u); WeighedDot(b, b.f.y, u); WeighedDot(c, c.f.y, u); WeighedDot(d, d.f.y, u);
    WeighedDot(a, a.f.z, u); WeighedDot(b, b.f.z, u); WeighedDot(c, c.f.z, u); WeighedDot(d, d.f.z, u);
    WeighedDot(a, a.f.w, u); WeighedDot(b, b.f.w, u); WeighedDot(c, c.f.w, u); WeighedDot(d, d.f.w, u);
    SumDot(Scale(a.f.x, a.e), Scale(b.f.x, b.e), Scale(c.f.x, c.e), Scale(d.f.x, d.e), u);
    SumDot(Scale(a.f.y, a.e), Scale(b.f.y, b.e), Scale(c.f.y, c.e), Scale(d.f.y, d.e), u);
    SumDot(Scale(a.f.z, a.e), Scale(b.f.z, b.e), Scale(c.f.z, c.e), Scale(d.f.z, d.e), u);
    SumDot(Scale(a.f.w, a.e), Scale(b.f.w, b.e), Scale(c.f.w, c.e), Scale(d.f.w, d.e), u);
  }

  predicate Solved(a: Strand, b: Strand, c: Strand, d: Strand) {
    a.w == E0 && b.w == E1 && c.w == E2 && d.w == E3
  }

  function Certificate(a: Strand, b: Strand, c: Strand, d: Strand): Mat {
    Mat(Vec4(a.f.x, b.f.x, c.f.x, d.f.x), Vec4(a.f.y, b.f.y, c.f.y, d.f.y),
        Vec4(a.f.z, b.f.z, c.f.z, d.f.z), Vec4(a.f.w, b.f.w, c.f.w, d.f.w))
  }

  lemma CombIsSum4(v: Vec4, a: Vec4, b: Vec4, c: Vec4, d: Vec4)
    ensures Comb(v, a, b, c, d) == Sum4(Scale(v.x, a), Scale(v.y, b), Scale(v.z, c), Scale(v.w, d))
  {
  }

  /** Once the left half is the identity, the right half is the inverse on both sides. */
  lemma SolvedIsInverse(m: Mat, a: Strand, b: Strand, c: Strand, d: Strand)
    requires Sound(m, a, b, c, d) && Solved(a, b, c, d)
    ensures var n := Mat(a.e, b.e, c.e, d.e); Mul(n, m) == IDENTITY && Mul(m, n) == IDENTITY
  {
    var n, f := Mat(a.e, b.e, c.e, d.e), Certificate(a, b, c, d);
    assert Mul(n, m) == IDENTITY;
    assert Mul(f, n) == IDENTITY by {
      CombIsSum4(f.r0, n.r0, n.r1, n.r2, n.r3);
      CombIsSum4(f.r1, n.r0, n.r1, n.r2, n.r3);
      CombIsSum4(f.r2, n.r0, n.r1, n.r2, n.r3);
      CombIsSum4(f.r3, n.r0, n.r1, n.r2, n.r3);
      hide Comb, Sum4, Scale;
    }
    LeftInverseIsRight(f, n, m);
  }

  lemma LeftInverseIsRight(f: Mat, n: Mat, m: Mat)
    requires Mul(f, n) == IDENTITY && Mul(n, m) == IDENTITY
    ensures Mul(m, n) == IDENTITY
  {
    hide Mul;
    MulAssoc(f, n, m);
    MulIdentity(m);
    MulIdentity(f);
    assert m == f;
  }
}
