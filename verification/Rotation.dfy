/** Rotations of space as quaternions and as matrices, over the reals. */
module Rotation {
  datatype Vec3 = Vec3(x: real, y: real, z: real)

  datatype Quat = Quat(x: real, y: real, z: real, w: real)

  /** Entry `mij` is in row `i` and column `j`. */
  datatype Mat3 = Mat3(
    m00: real, m01: real, m02: real,
    m10: real, m11: real, m12: real,
    m20: real, m21: real, m22: real)

  const IDENTITY := Mat3(1.0, 0.0, 0.0, 0.0, 1.0, 0.0, 0.0, 0.0, 1.0)

  function LengthSquared(q: Quat): real {
    q.x * q.x + q.y * q.y + q.z * q.z + q.w * q.w
  }

  /** The coordinate x of the product of the quaternions (a, b, c, d) and (e, f, g, h). */
  function ProductX(a: real, b: real, c: real, d: real, e: real, f: real, g: real, h: real): real {
    d * e + a * h + b * g - c * f
  }

  function ProductW(a: real, b: real, c: real, d: real, e: real, f: real, g: real, h: real): real {
    d * h - a * e - b * f - c * g
  }

  /** The product of quaternions: i^2 = j^2 = k^2 = ijk = -1. */
  function Product(p: Quat, q: Quat): Quat {
    Quat(ProductX(p.x, p.y, p.z, p.w, q.x, q.y, q.z, q.w),
         ProductX(p.y, p.z, p.x, p.w, q.y, q.z, q.x, q.w),
         ProductX(p.z, p.x, p.y, p.w, q.z, q.x, q.y, q.w),
         ProductW(p.x, p.y, p.z, p.w, q.x, q.y, q.z, q.w))
  }

  function Conjugate(q: Quat): Quat {
    Quat(-q.x, -q.y, -q.z, q.w)
  }

  function Negated(q: Quat): Quat {
    Quat(-q.x, -q.y, -q.z, -q.w)
  }

  function Scaled(k: real, q: Quat): Quat {
    Quat(k * q.x, k * q.y, k * q.z, k * q.w)
  }

  function Dot(a: real, b: real, c: real, x: real, y: real, z: real): real {
    a * x + b * y + c * z
  }

  function Times(a: Mat3, b: Mat3): Mat3 {
    Mat3(
      Dot(a.m00, a.m01, a.m02, b.m00, b.m10, b.m20),
      Dot(a.m00, a.m01, a.m02, b.m01, b.m11, b.m21),
      Dot(a.m00, a.m01, a.m02, b.m02, b.m12, b.m22),
      Dot(a.m10, a.m11, a.m12, b.m00, b.m10, b.m20),
      Dot(a.m10, a.m11, a.m12, b.m01, b.m11, b.m21),
      Dot(a.m10, a.m11, a.m12, b.m02, b.m12, b.m22),
      Dot(a.m20, a.m21, a.m22, b.m00, b.m10, b.m20),
      Dot(a.m20, a.m21, a.m22, b.m01, b.m11, b.m21),
      Dot(a.m20, a.m21, a.m22, b.m02, b.m12, b.m22))
  }

  function Transposed(m: Mat3): Mat3 {
    Mat3(m.m00, m.m10, m.m20, m.m01, m.m11, m.m21, m.m02, m.m12, m.m22)
  }

  function Det(m: Mat3): real {
    m.m00 * (m.m11 * m.m22 - m.m12 * m.m21)
    - m.m01 * (m.m10 * m.m22 - m.m12 * m.m20)
    + m.m02 * (m.m10 * m.m21 - m.m11 * m.m20)
  }

  function Image(m: Mat3, v: Vec3): Vec3 {
    Vec3(Dot(m.m00, m.m01, m.m02, v.x, v.y, v.z),
         Dot(m.m10, m.m11, m.m12, v.x, v.y, v.z),
         Dot(m.m20, m.m21, m.m22, v.x, v.y, v.z))
  }

  function Term(a: real, b: real, s: real): real {
    a * (b * s)
  }

  /** The matrix that `set_quaternion` stores. */
  function RotationOf(q: Quat): Mat3
    requires LengthSquared(q) != 0.0
  {
    var Quat(x, y, z, w) := q;
    var s := 2.0 / LengthSquared(q);
    Mat3(
      1.0 - (Term(y, y, s) + Term(z, z, s)), Term(x, y, s) - Term(w, z, s), Term(x, z, s) + Term(w, y, s),
      Term(x, y, s) + Term(w, z, s), 1.0 - (Term(x, x, s) + Term(z, z, s)), Term(y, z, s) - Term(w, x, s),
      Term(x, z, s) - Term(w, y, s), Term(y, z, s) + Term(w, x, s), 1.0 - (Term(x, x, s) + Term(y, y, s)))
  }

  // ---------- Without the division ----------

  function Twice(a: real, b: real): real {
    2.0 * (a * b)
  }

  /** The rotation matrix times the squared length: each entry is a quadratic form in the coordinates. */
  function Form(q: Quat): Mat3 {
    var Quat(x, y, z, w) := q;
    var d := LengthSquared(q);
    Mat3(
      d - Twice(y, y) - Twice(z, z), Twice(x, y) - Twice(w, z), Twice(x, z) + Twice(w, y),
      Twice(x, y) + Twice(w, z), d - Twice(x, x) - Twice(z, z), Twice(y, z) - Twice(w, x),
      Twice(x, z) - Twice(w, y), Twice(y, z) + Twice(w, x), d - Twice(x, x) - Twice(y, y))
  }

  predicate Scales(d: real, e: real, f: real) {
    d * e == f
  }

  lemma TermIs(a: real, b: real, d: real, s: real)
    requires s * d == 2.0
    ensures Scales(d, Term(a, b, s), Twice(a, b))
  {
    assert d * (a * (b * s)) == (s * d) * (a * b);
  }

  lemma Diagonal(d: real, t: real, u: real, p: real, r: real)
    requires Scales(d, t, p) && Scales(d, u, r)
    ensures Scales(d, 1.0 - (t + u), d - p - r)
  {
  }

  lemma OffDiagonal(d: real, t: real, u: real, p: real, r: real)
    requires Scales(d, t, p) && Scales(d, u, r)
    ensures Scales(d, t - u, p - r) && Scales(d, t + u, p + r)
  {
  }

  /** Matrix `f` is `d` times matrix `m`, entry by entry. */
  predicate IsScaled(d: real, m: Mat3, f: Mat3) {
    && Scales(d, m.m00, f.m00) && Scales(d, m.m01, f.m01) && Scales(d, m.m02, f.m02)
    && Scales(d, m.m10, f.m10) && Scales(d, m.m11, f.m11) && Scales(d, m.m12, f.m12)
    && Scales(d, m.m20, f.m20) && Scales(d, m.m21, f.m21) && Scales(d, m.m22, f.m22)
  }

  /** Each entry of the matrix times the squared length is a quadratic form in the coordinates. */
  lemma FormIs(q: Quat)
    requires LengthSquared(q) != 0.0
    ensures IsScaled(LengthSquared(q), RotationOf(q), Form(q))
  {
    hide LengthSquared, Term, Twice, Scales;
    var Quat(x, y, z, w) := q;
    var d := LengthSquared(q);
    var s := 2.0 / d;
    TermIs(x, x, d, s);
    TermIs(y, y, d, s);
    TermIs(z, z, d, s);
    TermIs(x, y, d, s);
    TermIs(x, z, d, s);
    TermIs(y, z, d, s);
    TermIs(w, x, d, s);
    TermIs(w, y, d, s);
    TermIs(w, z, d, s);
    Diagonal(d, Term(y, y, s), Term(z, z, s), Twice(y, y), Twice(z, z));
    Diagonal(d, Term(x, x, s), Term(z, z, s), Twice(x, x), Twice(z, z));
    Diagonal(d, Term(x, x, s), Term(y, y, s), Twice(x, x), Twice(y, y));
    OffDiagonal(d, Term(x, y, s), Term(w, z, s), Twice(x, y), Twice(w, z));
    OffDiagonal(d, Term(x, z, s), Term(w, y, s), Twice(x, z), Twice(w, y));
    OffDiagonal(d, Term(y, z, s), Term(w, x, s), Twice(y, z), Twice(w, x));
  }

  // ---------- The ring of quaternions ----------

  /** The rotation of the axes x to z to y to x: products and forms do not notice it. */
  function Turned(q: Quat): Quat {
    Quat(q.y, q.z, q.x, q.w)
  }

  lemma TurnedProductW(a: real, b: real, c: real, d: real, e: real, f: real, g: real, h: real)
    ensures ProductW(b, c, a, d, f, g, e, h) == ProductW(a, b, c, d, e, f, g, h)
  {
  }

  lemma TurnedProduct(p: Quat, q: Quat)
    ensures Product(Turned(p), Turned(q)) == Turned(Product(p, q))
  {
    hide ProductX, ProductW;
    TurnedProductW(p.x, p.y, p.z, p.w, q.x, q.y, q.z, q.w);
  }

  lemma AssociativeX(a: real, b: real, c: real, d: real, e: real, f: real, g: real, h: real,
                     x: real, y: real, z: real, w: real, u: Quat, v: Quat)
    requires u == Product(Quat(a, b, c, d), Quat(e, f, g, h)) && v == Product(Quat(e, f, g, h), Quat(x, y, z, w))
    ensures u.w * x + u.x * w + u.y * z - u.z * y == d * v.x + a * v.w + b * v.z - c * v.y
  {
    assert (d * h - a * e - b * f - c * g) * x + (d * e + a * h + b * g - c * f) * w
         + (d * f + b * h + c * e - a * g) * z - (d * g + c * h + a * f - b * e) * y
        == d * (h * x + e * w + f * z - g * y) + a * (h * w - e * x - f * y - g * z)
         + b * (h * z + g * w + e * y - f * x) - c * (h * y + f * w + g * x - e * z);
  }

  lemma AssociativeW(a: real, b: real, c: real, d: real, e: real, f: real, g: real, h: real,
                     x: real, y: real, z: real, w: real, u: Quat, v: Quat)
    requires u == Product(Quat(a, b, c, d), Quat(e, f, g, h)) && v == Product(Quat(e, f, g, h), Quat(x, y, z, w))
    ensures u.w * w - u.x * x - u.y * y - u.z * z == d * v.w - a * v.x - b * v.y - c * v.z
  {
    assert (d * h - a * e - b * f - c * g) * w - (d * e + a * h + b * g - c * f) * x
         - (d * f + b * h + c * e - a * g) * y - (d * g + c * h + a * f - b * e) * z
        == d * (h * w - e * x - f * y - g * z) - a * (h * x + e * w + f * z - g * y)
         - b * (h * y + f * w + g * x - e * z) - c * (h * z + g * w + e * y - f * x);
  }

  lemma AssociativeInX(p: Quat, q: Quat, r: Quat)
    ensures Product(Product(p, q), r).x == Product(p, Product(q, r)).x
  {
    AssociativeX(p.x, p.y, p.z, p.w, q.x, q.y, q.z, q.w, r.x, r.y, r.z, r.w, Product(p, q), Product(q, r));
  }

  lemma AssociativeInW(p: Quat, q: Quat, r: Quat)
    ensures Product(Product(p, q), r).w == Product(p, Product(q, r)).w
  {
    AssociativeW(p.x, p.y, p.z, p.w, q.x, q.y, q.z, q.w, r.x, r.y, r.z, r.w, Product(p, q), Product(q, r));
  }

  lemma TurnedTwice(p: Quat, q: Quat, r: Quat)
    ensures Product(Product(Turned(p), Turned(q)), Turned(r)) == Turned(Product(Product(p, q), r))
    ensures Product(Turned(p), Product(Turned(q), Turned(r))) == Turned(Product(p, Product(q, r)))
  {
    hide *;
    TurnedProduct(p, q);
    TurnedProduct(Product(p, q), r);
    TurnedProduct(q, r);
    TurnedProduct(p, Product(q, r));
  }

  lemma Associative(p: Quat, q: Quat, r: Quat)
    ensures Product(Product(p, q), r) == Product(p, Product(q, r))
  {
    hide Product;
    AssociativeInX(p, q, r);
    AssociativeInW(p, q, r);
    TurnedTwice(p, q, r);
    AssociativeInX(Turned(p), Turned(q), Turned(r));
    TurnedTwice(Turned(p), Turned(q), Turned(r));
    AssociativeInX(Turned(Turned(p)), Turned(Turned(q)), Turned(Turned(r)));
  }

  lemma ConjugateProductX(a: real, b: real, c: real, d: real, e: real, f: real, g: real, h: real)
    ensures ProductX(-e, -f, -g, h, -a, -b, -c, d) == -ProductX(a, b, c, d, e, f, g, h)
    ensures ProductW(-e, -f, -g, h, -a, -b, -c, d) == ProductW(a, b, c, d, e, f, g, h)
  {
  }

  lemma ConjugateOfProduct(p: Quat, q: Quat)
    ensures Conjugate(Product(p, q)) == Product(Conjugate(q), Conjugate(p))
  {
    hide ProductX, ProductW;
    ConjugateProductX(p.x, p.y, p.z, p.w, q.x, q.y, q.z, q.w);
    ConjugateProductX(p.y, p.z, p.x, p.w, q.y, q.z, q.x, q.w);
    ConjugateProductX(p.z, p.x, p.y, p.w, q.z, q.x, q.y, q.w);
  }

  // ---------- What a rotation does to a vector ----------

  function Pure(v: Vec3): Quat {
    Quat(v.x, v.y, v.z, 0.0)
  }

  /** The vector `v` turned by `q`, and stretched by its squared length. */
  function Sandwich(q: Quat, v: Vec3): Quat {
    Product(Product(q, Pure(v)), Conjugate(q))
  }

  lemma TimesPure(q: Quat, v: Vec3)
    ensures var Quat(x, y, z, w), Vec3(a, b, c), u := q, v, Product(q, Pure(v));
      u.x == w * a + y * c - z * b && u.y == w * b + z * a - x * c
      && u.z == w * c + x * b - y * a && u.w == -(x * a) - y * b - z * c
  {
  }

  lemma SandwichX(x: real, y: real, z: real, w: real, a: real, b: real, c: real, u: Quat, e: real, f: real, g: real)
    requires u.x == w * a + y * c - z * b && u.y == w * b + z * a - x * c
    requires u.z == w * c + x * b - y * a && u.w == -(x * a) - y * b - z * c
    requires e == x * x + y * y + z * z + w * w - 2.0 * (y * y) - 2.0 * (z * z)
    requires f == 2.0 * (x * y) - 2.0 * (w * z) && g == 2.0 * (x * z) + 2.0 * (w * y)
    ensures u.x * w - u.w * x - u.y * z + u.z * y == e * a + f * b + g * c
    ensures u.w * w + u.x * x + u.y * y + u.z * z == 0.0
  {
    assert (w * a + y * c - z * b) * w - (-(x * a) - y * b - z * c) * x - (w * b + z * a - x * c) * z
         + (w * c + x * b - y * a) * y
        == (x * x + y * y + z * z + w * w - 2.0 * (y * y) - 2.0 * (z * z)) * a + (2.0 * (x * y) - 2.0 * (w * z)) * b
          + (2.0 * (x * z) + 2.0 * (w * y)) * c;
    assert (-(x * a) - y * b - z * c) * w + (w * a + y * c - z * b) * x + (w * b + z * a - x * c) * y
         + (w * c + x * b - y * a) * z == 0.0;
  }

  lemma FormTop(q: Quat)
    ensures Form(q).m00 == LengthSquared(q) - 2.0 * (q.y * q.y) - 2.0 * (q.z * q.z)
  {
    hide LengthSquared;
  }

  lemma FormNextToTop(q: Quat)
    ensures Form(q).m01 == 2.0 * (q.x * q.y) - 2.0 * (q.w * q.z)
  {
    hide LengthSquared;
  }

  lemma FormRightOfTop(q: Quat)
    ensures Form(q).m02 == 2.0 * (q.x * q.z) + 2.0 * (q.w * q.y)
  {
    hide LengthSquared;
  }

  lemma SandwichInX(q: Quat, v: Vec3)
    ensures Sandwich(q, v).x == Image(Form(q), v).x && Sandwich(q, v).w == 0.0
  {
    var u, m := Product(q, Pure(v)), Form(q);
    TimesPure(q, v);
    FormTop(q);
    FormNextToTop(q);
    FormRightOfTop(q);
    LengthIs(q);
    hide Product, Form, Twice, Image, Pure, LengthSquared;
    SandwichX(q.x, q.y, q.z, q.w, v.x, v.y, v.z, u, m.m00, m.m01, m.m02);
    TimesConjugate(u, q);
    ImageX(m, v);
  }

  lemma LengthIs(q: Quat)
    ensures LengthSquared(q) == q.x * q.x + q.y * q.y + q.z * q.z + q.w * q.w
  {
  }

  lemma ImageX(m: Mat3, v: Vec3)
    ensures Image(m, v).x == m.m00 * v.x + m.m01 * v.y + m.m02 * v.z
  {
  }

  lemma TimesConjugate(u: Quat, q: Quat)
    ensures Product(u, Conjugate(q)).x == u.x * q.w - u.w * q.x - u.y * q.z + u.z * q.y
    ensures Product(u, Conjugate(q)).w == u.w * q.w + u.x * q.x + u.y * q.y + u.z * q.z
  {
  }

  lemma TurnedDot(a: real, b: real, c: real, x: real, y: real, z: real)
    ensures Dot(b, c, a, y, z, x) == Dot(a, b, c, x, y, z)
  {
  }

  lemma TurnedForm(q: Quat, v: Vec3)
    ensures var t := Image(Form(Turned(q)), Vec3(v.y, v.z, v.x));
      t == Vec3(Image(Form(q), v).y, Image(Form(q), v).z, Image(Form(q), v).x)
  {
    var m := Form(q);
    Commutes(q.x, q.y);
    Commutes(q.x, q.z);
    hide Twice, Dot;
    assert Form(Turned(q)) == Mat3(m.m11, m.m12, m.m10, m.m21, m.m22, m.m20, m.m01, m.m02, m.m00);
    TurnedDot(m.m00, m.m01, m.m02, v.x, v.y, v.z);
    TurnedDot(m.m10, m.m11, m.m12, v.x, v.y, v.z);
    TurnedDot(m.m20, m.m21, m.m22, v.x, v.y, v.z);
  }

  lemma Commutes(a: real, b: real)
    ensures Twice(a, b) == Twice(b, a)
  {
  }

  lemma TurnedSandwich(q: Quat, v: Vec3)
    ensures Sandwich(Turned(q), Vec3(v.y, v.z, v.x)) == Turned(Sandwich(q, v))
  {
    hide Product;
    TurnedProduct(q, Pure(v));
    TurnedProduct(Product(q, Pure(v)), Conjugate(q));
  }

  /**
   The quadratic form of `q` sends a vector where multiplying by `q` on the left and its conjugate on the right
   does.
   */
  lemma SandwichIs(q: Quat, v: Vec3)
    ensures Sandwich(q, v) == Pure(Image(Form(q), v))
  {
    hide Sandwich, Form, Image;
    SandwichInX(q, v);
    TurnedForm(q, v);
    TurnedSandwich(q, v);
    var t, u := Turned(q), Vec3(v.y, v.z, v.x);
    SandwichInX(t, u);
    TurnedForm(t, u);
    TurnedSandwich(t, u);
    SandwichInX(Turned(t), Vec3(u.y, u.z, u.x));
  }

  lemma SandwichOfProduct(p: Quat, q: Quat, v: Vec3)
    ensures Sandwich(Product(p, q), v) == Product(Product(p, Sandwich(q, v)), Conjugate(p))
  {
    hide Product, Conjugate, Pure;
    ConjugateOfProduct(p, q);
    var u, r := Pure(v), Conjugate(q);
    Associative(p, q, u);
    Associative(Product(p, Product(q, u)), r, Conjugate(p));
    Associative(p, Product(q, u), r);
  }

  lemma FormOfProductOn(p: Quat, q: Quat, v: Vec3)
    ensures Image(Form(Product(p, q)), v) == Image(Form(p), Image(Form(q), v))
  {
    SandwichIs(Product(p, q), v);
    SandwichIs(q, v);
    var u := Image(Form(q), v);
    SandwichOfProduct(p, q, v);
    SandwichIs(p, u);
    hide Product, Image, Form, Conjugate;
  }

  lemma ColumnsOf(m: Mat3)
    ensures Image(m, Vec3(1.0, 0.0, 0.0)) == Vec3(m.m00, m.m10, m.m20)
    ensures Image(m, Vec3(0.0, 1.0, 0.0)) == Vec3(m.m01, m.m11, m.m21)
    ensures Image(m, Vec3(0.0, 0.0, 1.0)) == Vec3(m.m02, m.m12, m.m22)
  {
  }

  lemma ColumnsOfTimes(a: Mat3, b: Mat3)
    ensures var c := Times(a, b);
      && Vec3(c.m00, c.m10, c.m20) == Image(a, Vec3(b.m00, b.m10, b.m20))
      && Vec3(c.m01, c.m11, c.m21) == Image(a, Vec3(b.m01, b.m11, b.m21))
      && Vec3(c.m02, c.m12, c.m22) == Image(a, Vec3(b.m02, b.m12, b.m22))
  {
    hide Dot;
  }

  lemma FormOfProduct(p: Quat, q: Quat)
    ensures Form(Product(p, q)) == Times(Form(p), Form(q))
  {
    hide *;
    FormOfProductOn(p, q, Vec3(1.0, 0.0, 0.0));
    FormOfProductOn(p, q, Vec3(0.0, 1.0, 0.0));
    FormOfProductOn(p, q, Vec3(0.0, 0.0, 1.0));
    ColumnsOf(Form(Product(p, q)));
    ColumnsOf(Form(q));
    ColumnsOfTimes(Form(p), Form(q));
  }

  lemma LengthOfProductScalars(a: real, b: real, c: real, d: real, e: real, f: real, g: real, h: real, u: Quat)
    requires u == Product(Quat(a, b, c, d), Quat(e, f, g, h))
    ensures u.x * u.x + u.y * u.y + u.z * u.z + u.w * u.w
         == (a * a + b * b + c * c + d * d) * (e * e + f * f + g * g + h * h)
  {
    assert (d * e + a * h + b * g - c * f) * (d * e + a * h + b * g - c * f)
         + (d * f + b * h + c * e - a * g) * (d * f + b * h + c * e - a * g)
         + (d * g + c * h + a * f - b * e) * (d * g + c * h + a * f - b * e)
         + (d * h - a * e - b * f - c * g) * (d * h - a * e - b * f - c * g)
        == (a * a + b * b + c * c + d * d) * (e * e + f * f + g * g + h * h);
  }

  /** Squared length is multiplicative. */
  lemma LengthOfProduct(p: Quat, q: Quat)
    ensures LengthSquared(Product(p, q)) == LengthSquared(p) * LengthSquared(q)
  {
    LengthOfProductScalars(p.x, p.y, p.z, p.w, q.x, q.y, q.z, q.w, Product(p, q));
    hide Product;
  }

  lemma EntryOfProduct(d: real, e: real, k: real, r: real, a: Vec3, b: Vec3, fa: Vec3, fb: Vec3, f: real)
    requires d != 0.0 && e != 0.0 && k == d * e && Scales(k, r, f)
    requires Scales(d, a.x, fa.x) && Scales(d, a.y, fa.y) && Scales(d, a.z, fa.z)
    requires Scales(e, b.x, fb.x) && Scales(e, b.y, fb.y) && Scales(e, b.z, fb.z)
    requires f == Dot(fa.x, fa.y, fa.z, fb.x, fb.y, fb.z)
    ensures r == Dot(a.x, a.y, a.z, b.x, b.y, b.z)
  {
    ProductsScale(d, e, a.x, b.x, fa.x, fb.x);
    ProductsScale(d, e, a.y, b.y, fa.y, fb.y);
    ProductsScale(d, e, a.z, b.z, fa.z, fb.z);
    NonzeroProduct(d, e, k);
    hide Scales;
    CancelScale(k, r, a.x * b.x, a.y * b.y, a.z * b.z, f, fa.x * fb.x, fa.y * fb.y, fa.z * fb.z);
  }

  lemma ProductsScale(d: real, e: real, a: real, b: real, fa: real, fb: real)
    requires Scales(d, a, fa) && Scales(e, b, fb)
    ensures Scales(d * e, a * b, fa * fb)
  {
    assert (d * a) * (e * b) == (d * e) * (a * b);
  }

  lemma CancelScale(k: real, r: real, a: real, b: real, c: real, f: real, fa: real, fb: real, fc: real)
    requires k != 0.0 && Scales(k, r, f) && Scales(k, a, fa) && Scales(k, b, fb) && Scales(k, c, fc)
    requires f == fa + fb + fc
    ensures r == a + b + c
  {
    assert k * (r - (a + b + c)) == 0.0;
  }

  /** Matrices that are multiples of others multiply as their multiples do. */
  lemma ScaledTimes(d: real, e: real, k: real, a: Mat3, b: Mat3, r: Mat3, fa: Mat3, fb: Mat3, f: Mat3)
    requires d != 0.0 && e != 0.0 && k == d * e
    requires IsScaled(d, a, fa) && IsScaled(e, b, fb) && IsScaled(k, r, f) && f == Times(fa, fb)
    ensures r == Times(a, b)
  {
    hide Scales, Dot;
    EntryOfProduct(d, e, k, r.m00, Vec3(a.m00, a.m01, a.m02), Vec3(b.m00, b.m10, b.m20),
      Vec3(fa.m00, fa.m01, fa.m02), Vec3(fb.m00, fb.m10, fb.m20), f.m00);
    EntryOfProduct(d, e, k, r.m01, Vec3(a.m00, a.m01, a.m02), Vec3(b.m01, b.m11, b.m21),
      Vec3(fa.m00, fa.m01, fa.m02), Vec3(fb.m01, fb.m11, fb.m21), f.m01);
    EntryOfProduct(d, e, k, r.m02, Vec3(a.m00, a.m01, a.m02), Vec3(b.m02, b.m12, b.m22),
      Vec3(fa.m00, fa.m01, fa.m02), Vec3(fb.m02, fb.m12, fb.m22), f.m02);
    EntryOfProduct(d, e, k, r.m10, Vec3(a.m10, a.m11, a.m12), Vec3(b.m00, b.m10, b.m20),
      Vec3(fa.m10, fa.m11, fa.m12), Vec3(fb.m00, fb.m10, fb.m20), f.m10);
    EntryOfProduct(d, e, k, r.m11, Vec3(a.m10, a.m11, a.m12), Vec3(b.m01, b.m11, b.m21),
      Vec3(fa.m10, fa.m11, fa.m12), Vec3(fb.m01, fb.m11, fb.m21), f.m11);
    EntryOfProduct(d, e, k, r.m12, Vec3(a.m10, a.m11, a.m12), Vec3(b.m02, b.m12, b.m22),
      Vec3(fa.m10, fa.m11, fa.m12), Vec3(fb.m02, fb.m12, fb.m22), f.m12);
    EntryOfProduct(d, e, k, r.m20, Vec3(a.m20, a.m21, a.m22), Vec3(b.m00, b.m10, b.m20),
      Vec3(fa.m20, fa.m21, fa.m22), Vec3(fb.m00, fb.m10, fb.m20), f.m20);
    EntryOfProduct(d, e, k, r.m21, Vec3(a.m20, a.m21, a.m22), Vec3(b.m01, b.m11, b.m21),
      Vec3(fa.m20, fa.m21, fa.m22), Vec3(fb.m01, fb.m11, fb.m21), f.m21);
    EntryOfProduct(d, e, k, r.m22, Vec3(a.m20, a.m21, a.m22), Vec3(b.m02, b.m12, b.m22),
      Vec3(fa.m20, fa.m21, fa.m22), Vec3(fb.m02, fb.m12, fb.m22), f.m22);
  }

  /** Multiplying quaternions multiplies the matrices they stand for. */
  lemma RotationOfProduct(p: Quat, q: Quat)
    requires LengthSquared(p) != 0.0 && LengthSquared(q) != 0.0
    ensures LengthSquared(Product(p, q)) != 0.0
    ensures RotationOf(Product(p, q)) == Times(RotationOf(p), RotationOf(q))
  {
    hide *;
    LengthOfProduct(p, q);
    NonzeroProduct(LengthSquared(p), LengthSquared(q), LengthSquared(Product(p, q)));
    FormIs(p);
    FormIs(q);
    FormIs(Product(p, q));
    FormOfProduct(p, q);
    ScaledTimes(LengthSquared(p), LengthSquared(q), LengthSquared(Product(p, q)), RotationOf(p), RotationOf(q),
      RotationOf(Product(p, q)), Form(p), Form(q), Form(Product(p, q)));
  }

  lemma NonzeroProduct(a: real, b: real, c: real)
    requires a != 0.0 && b != 0.0 && c == a * b
    ensures c != 0.0
  {
  }

  // ---------- Rotations are rigid ----------

  lemma TimesItsConjugate(q: Quat)
    ensures Product(q, Conjugate(q)) == Quat(0.0, 0.0, 0.0, LengthSquared(q))
    ensures Product(Conjugate(q), q) == Quat(0.0, 0.0, 0.0, LengthSquared(q))
    ensures LengthSquared(Conjugate(q)) == LengthSquared(q)
  {
  }

  lemma RotationOfConjugate(q: Quat)
    requires LengthSquared(q) != 0.0
    ensures LengthSquared(Conjugate(q)) == LengthSquared(q)
    ensures RotationOf(Conjugate(q)) == Transposed(RotationOf(q))
  {
    var s := 2.0 / LengthSquared(q);
    LengthOfConjugate(q);
    hide Term, LengthSquared;
    ConjugateTerm(q.x, q.x, s);
    ConjugateTerm(q.y, q.y, s);
    ConjugateTerm(q.z, q.z, s);
    ConjugateTerm(q.x, q.y, s);
    ConjugateTerm(q.x, q.z, s);
    ConjugateTerm(q.y, q.z, s);
    ConjugateTerm(q.w, q.x, s);
    ConjugateTerm(q.w, q.y, s);
    ConjugateTerm(q.w, q.z, s);
  }

  lemma LengthOfConjugate(q: Quat)
    ensures LengthSquared(Conjugate(q)) == LengthSquared(q)
  {
  }

  lemma ConjugateTerm(a: real, b: real, s: real)
    ensures Term(-a, -b, s) == Term(a, b, s)
    ensures Term(a, -b, s) == -Term(a, b, s)
  {
  }

  /** A real number, as a quaternion, turns nothing. */
  lemma RotationOfScalar(k: real)
    requires LengthSquared(Quat(0.0, 0.0, 0.0, k)) != 0.0
    ensures RotationOf(Quat(0.0, 0.0, 0.0, k)) == IDENTITY
  {
    var d := LengthSquared(Quat(0.0, 0.0, 0.0, k));
    TermOfZero(0.0, 0.0, 2.0 / d);
    TermOfZero(k, 0.0, 2.0 / d);
    hide Term, LengthSquared;
  }

  lemma TermOfZero(a: real, b: real, s: real)
    requires b == 0.0
    ensures Term(a, b, s) == 0.0
  {
    assert b * s == 0.0;
    assert a * (b * s) == a * 0.0;
  }

  /** The rotation matrix of a quaternion is orthonormal: its transpose, the matrix of the conjugate, is its inverse. */
  lemma RotationIsOrthonormal(q: Quat)
    requires LengthSquared(q) != 0.0
    ensures Times(RotationOf(q), Transposed(RotationOf(q))) == IDENTITY
    ensures Times(Transposed(RotationOf(q)), RotationOf(q)) == IDENTITY
  {
    hide *;
    TimesItsConjugate(q);
    RotationOfConjugate(q);
    RotationOfProduct(q, Conjugate(q));
    RotationOfProduct(Conjugate(q), q);
    RotationOfScalar(LengthSquared(q));
  }

  predicate Crosses(d: real, e: real, f: real, g: real, h: real, r: real) {
    e * f - g * h == d * r
  }

  /** The quadratic forms of the top row, as the cross product of those of the other two rows. */
  lemma CrossX(x: real, y: real, z: real, w: real, d: real, e: real, f: real, g: real, h: real, r: real)
    requires d == LengthSquared(Quat(x, y, z, w)) && r == d - Twice(y, y) - Twice(z, z)
    requires e == d - Twice(x, x) - Twice(z, z) && f == d - Twice(x, x) - Twice(y, y)
    requires g == Twice(y, z) - Twice(w, x) && h == Twice(y, z) + Twice(w, x)
    ensures Crosses(d, e, f, g, h, r)
  {
    assert (w * w + y * y - x * x - z * z) * (w * w + z * z - x * x - y * y)
         - (2.0 * (y * z) - 2.0 * (w * x)) * (2.0 * (y * z) + 2.0 * (w * x))
        == (x * x + y * y + z * z + w * w) * (w * w + x * x - y * y - z * z);
  }

  lemma CrossY(x: real, y: real, z: real, w: real, d: real, e: real, f: real, g: real, h: real, r: real)
    requires d == LengthSquared(Quat(x, y, z, w)) && r == Twice(x, y) - Twice(w, z)
    requires e == Twice(y, z) - Twice(w, x) && f == Twice(x, z) - Twice(w, y)
    requires g == Twice(x, y) + Twice(w, z) && h == d - Twice(x, x) - Twice(y, y)
    ensures Crosses(d, e, f, g, h, r)
  {
    assert (2.0 * (y * z) - 2.0 * (w * x)) * (2.0 * (x * z) - 2.0 * (w * y))
         - (2.0 * (x * y) + 2.0 * (w * z)) * (w * w + z * z - x * x - y * y)
        == (x * x + y * y + z * z + w * w) * (2.0 * (x * y) - 2.0 * (w * z));
  }

  lemma CrossZ(x: real, y: real, z: real, w: real, d: real, e: real, f: real, g: real, h: real, r: real)
    requires d == LengthSquared(Quat(x, y, z, w)) && r == Twice(x, z) + Twice(w, y)
    requires e == Twice(x, y) + Twice(w, z) && f == Twice(y, z) + Twice(w, x)
    requires g == d - Twice(x, x) - Twice(z, z) && h == Twice(x, z) - Twice(w, y)
    ensures Crosses(d, e, f, g, h, r)
  {
    assert (2.0 * (x * y) + 2.0 * (w * z)) * (2.0 * (y * z) + 2.0 * (w * x))
         - (w * w + y * y - x * x - z * z) * (2.0 * (x * z) - 2.0 * (w * y))
        == (x * x + y * y + z * z + w * w) * (2.0 * (x * z) + 2.0 * (w * y));
  }

  /** A matrix whose top row times `d` is the cross product of the other two. */
  predicate IsCross(d: real, m: Mat3) {
    && Crosses(d, m.m11, m.m22, m.m12, m.m21, m.m00)
    && Crosses(d, m.m12, m.m20, m.m10, m.m22, m.m01)
    && Crosses(d, m.m10, m.m21, m.m11, m.m20, m.m02)
  }

  lemma FormIsCross(q: Quat)
    ensures IsCross(LengthSquared(q), Form(q))
  {
    var d, m := LengthSquared(q), Form(q);
    hide LengthSquared, Crosses, Twice;
    CrossX(q.x, q.y, q.z, q.w, d, m.m11, m.m22, m.m12, m.m21, m.m00);
    CrossY(q.x, q.y, q.z, q.w, d, m.m12, m.m20, m.m10, m.m22, m.m01);
    CrossZ(q.x, q.y, q.z, q.w, d, m.m10, m.m21, m.m11, m.m20, m.m02);
  }

  lemma CancelCross(d: real, e: real, f: real, g: real, h: real, r: real, fe: real, ff: real, fg: real, fh: real,
                    fr: real)
    requires d != 0.0 && Crosses(d, fe, ff, fg, fh, fr)
    requires Scales(d, e, fe) && Scales(d, f, ff) && Scales(d, g, fg) && Scales(d, h, fh) && Scales(d, r, fr)
    ensures Crosses(1.0, e, f, g, h, r)
  {
    ProductsScale(d, d, e, f, fe, ff);
    ProductsScale(d, d, g, h, fg, fh);
    ScaleTwice(d, r, fr);
    hide Scales;
    NonzeroProduct(d, d, d * d);
    var k, a, b, fa, fb, fc := d * d, e * f, g * h, fe * ff, fg * fh, d * fr;
    CancelDifference(k, a, b, r, fa, fb, fc);
  }

  lemma ScaleTwice(d: real, r: real, fr: real)
    requires Scales(d, r, fr)
    ensures Scales(d * d, r, d * fr)
  {
    assert (d * d) * r == d * (d * r);
  }

  lemma CancelDifference(k: real, a: real, b: real, c: real, fa: real, fb: real, fc: real)
    requires k != 0.0 && Scales(k, a, fa) && Scales(k, b, fb) && Scales(k, c, fc) && fa - fb == fc
    ensures a - b == c
  {
    assert k * (a - b - c) == 0.0;
  }

  lemma RotationIsCross(q: Quat)
    requires LengthSquared(q) != 0.0
    ensures IsCross(1.0, RotationOf(q))
  {
    FormIs(q);
    FormIsCross(q);
    var d, m, f := LengthSquared(q), RotationOf(q), Form(q);
    hide Scales, Crosses, RotationOf, LengthSquared, Form;
    CancelCross(d, m.m11, m.m22, m.m12, m.m21, m.m00, f.m11, f.m22, f.m12, f.m21, f.m00);
    CancelCross(d, m.m12, m.m20, m.m10, m.m22, m.m01, f.m12, f.m20, f.m10, f.m22, f.m01);
    CancelCross(d, m.m10, m.m21, m.m11, m.m20, m.m02, f.m10, f.m21, f.m11, f.m20, f.m02);
  }

  /** Orthonormal, and not a reflection. */
  predicate IsRotation(m: Mat3) {
    Times(m, Transposed(m)) == IDENTITY && Times(Transposed(m), m) == IDENTITY && Det(m) == 1.0
  }

  lemma DetByTopRow(m: Mat3)
    requires IsCross(1.0, m) && Dot(m.m00, m.m01, m.m02, m.m00, m.m01, m.m02) == 1.0
    ensures Det(m) == 1.0
  {
    assert m.m00 * (m.m11 * m.m22 - m.m12 * m.m21) == m.m00 * m.m00;
    assert m.m01 * (m.m10 * m.m22 - m.m12 * m.m20) == m.m01 * -m.m01;
    assert m.m02 * (m.m10 * m.m21 - m.m11 * m.m20) == m.m02 * m.m02;
  }

  /** The matrix of every quaternion but zero is a rotation. */
  lemma RotationIsRotation(q: Quat)
    requires LengthSquared(q) != 0.0
    ensures IsRotation(RotationOf(q))
  {
    RotationIsOrthonormal(q);
    RotationIsCross(q);
    hide RotationOf, LengthSquared, IsCross, Dot, Det;
    DetByTopRow(RotationOf(q));
  }

  lemma UnitForm(q: Quat)
    requires LengthSquared(q) == 1.0
    ensures RotationOf(q) == Form(q)
  {
    FormIs(q);
    hide LengthSquared, RotationOf, Form;
    var m, f := RotationOf(q), Form(q);
    UnitScale(m.m00, f.m00);
    UnitScale(m.m01, f.m01);
    UnitScale(m.m02, f.m02);
    UnitScale(m.m10, f.m10);
    UnitScale(m.m11, f.m11);
    UnitScale(m.m12, f.m12);
    UnitScale(m.m20, f.m20);
    UnitScale(m.m21, f.m21);
    UnitScale(m.m22, f.m22);
    hide Scales;
  }

  lemma UnitScale(e: real, f: real)
    ensures Scales(1.0, e, f) <==> e == f
  {
  }

  /** A unit quaternion turns a vector by multiplying it from the left, and its conjugate from the right. */
  lemma TurnsByConjugation(q: Quat, v: Vec3)
    requires LengthSquared(q) == 1.0
    ensures Product(Product(q, Pure(v)), Conjugate(q)) == Pure(Image(RotationOf(q), v))
  {
    UnitForm(q);
    SandwichIs(q, v);
    hide Product, Form, RotationOf;
  }

  lemma TimesIdentity(m: Mat3)
    ensures Times(IDENTITY, m) == m
  {
  }

  lemma ScaledIsProduct(k: real, q: Quat)
    ensures Scaled(k, q) == Product(Quat(0.0, 0.0, 0.0, k), q)
  {
  }

  /** The matrix does not depend on the length of the quaternion. */
  lemma RotationOfScaled(k: real, q: Quat)
    requires k != 0.0 && LengthSquared(q) != 0.0
    ensures LengthSquared(Scaled(k, q)) != 0.0
    ensures RotationOf(Scaled(k, q)) == RotationOf(q)
  {
    hide *;
    LengthOfScalar(k);
    ScaledIsProduct(k, q);
    RotationOfProduct(Quat(0.0, 0.0, 0.0, k), q);
    RotationOfScalar(k);
    TimesIdentity(RotationOf(q));
  }

  lemma LengthOfScalar(k: real)
    requires k != 0.0
    ensures LengthSquared(Quat(0.0, 0.0, 0.0, k)) != 0.0
  {
    NonzeroProduct(k, k, LengthSquared(Quat(0.0, 0.0, 0.0, k)));
  }
}
