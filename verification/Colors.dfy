/** Colours by hue, saturation and value, over the reals: `set_hsv`, and what `get_h`, `get_s` and `get_v` read back. */
module Colors {
  datatype Rgb = Rgb(r: real, g: real, b: real)

  function Max(c: Rgb): real {
    var m := if c.r > c.g then c.r else c.g;
    if m > c.b then m else c.b
  }

  function Min(c: Rgb): real {
    var m := if c.r < c.g then c.r else c.g;
    if m < c.b then m else c.b
  }

  function Value(c: Rgb): real {
    Max(c)
  }

  function Saturation(c: Rgb): real {
    if Max(c) != 0.0 then (Max(c) - Min(c)) / Max(c) else 0.0
  }

  /** In which sixth of the circle the colour is, and how far in: the hue times six, less a whole turn or not. */
  function Sixth(c: Rgb): real
    requires Max(c) != Min(c)
  {
    var max, delta := Max(c), Max(c) - Min(c);
    if c.r == max then (c.g - c.b) / delta
    else if c.g == max then 2.0 + (c.b - c.r) / delta
    else 4.0 + (c.r - c.g) / delta
  }

  function Hue(c: Rgb): real {
    if Max(c) - Min(c) == 0.0 then 0.0
    else
      var h := Sixth(c) / 6.0;
      if h < 0.0 then h + 1.0 else h
  }

  /** The remainder of `x` by 6, as C computes it: with the sign of `x`. */
  function Fmod6(x: real): real {
    if x >= 0.0 then x - 6.0 * (x / 6.0).Floor as real else -(-x - 6.0 * (-x / 6.0).Floor as real)
  }

  function Low(v: real, s: real): real {
    v * (1.0 - s)
  }

  function Level(v: real, s: real, f: real): real {
    v * (1.0 - s * f)
  }

  /** The colour in sixth `i` of the circle, `f` of the way through it; any other `i` counts as 5. */
  function InSixth(i: int, f: real, s: real, v: real): Rgb {
    var p, q, t := Low(v, s), Level(v, s, f), Level(v, s, 1.0 - f);
    if i == 0 then Rgb(v, t, p)
    else if i == 1 then Rgb(q, v, p)
    else if i == 2 then Rgb(p, v, t)
    else if i == 3 then Rgb(p, q, v)
    else if i == 4 then Rgb(t, p, v)
    else Rgb(v, p, q)
  }

  /** The colour that `set_hsv` sets. */
  function Hsv(h: real, s: real, v: real): Rgb {
    if s == 0.0 then Rgb(v, v, v)
    else
      var x := Fmod6(6.0 * h);
      InSixth(x.Floor, x - x.Floor as real, s, v)
  }

  class Color {
    var r: real
    var g: real
    var b: real
    var a: real

    ghost function Rgba(): (Rgb, real)
      reads this
    {
      (Rgb(r, g, b), a)
    }

    constructor ()
      ensures Rgba() == (Rgb(0.0, 0.0, 0.0), 1.0)
    {
      r, g, b, a := 0.0, 0.0, 0.0, 1.0;
    }

    method SetHsv(h: real, s: real, v: real, alpha: real)
      modifies this
      ensures Rgba() == (Hsv(h, s, v), alpha)
    {
      a := alpha;
      if s == 0.0 {
        r, g, b := v, v, v;
        return;
      }
      hide Low, Level, Fmod6;
      var hue := h * 6.0;
      hue := Fmod6(hue);
      var i := hue.Floor;
      var f := hue - i as real;
      var p, q, t := Low(v, s), Level(v, s, f), Level(v, s, 1.0 - f);
      if i == 0 {
        r, g, b := v, t, p;
      } else if i == 1 {
        r, g, b := q, v, p;
      } else if i == 2 {
        r, g, b := p, v, t;
      } else if i == 3 {
        r, g, b := p, q, v;
      } else if i == 4 {
        r, g, b := t, p, v;
      } else {
        r, g, b := v, p, q;
      }
    }

    method GetH() returns (h: real)
      ensures h == Hue(Rgba().0)
    {
      var min := if r < g then r else g;
      min := if min < b then min else b;
      var max := if r > g then r else g;
      max := if max > b then max else b;
      var delta := max - min;
      if delta == 0.0 {
        return 0.0;
      }
      if r == max {
        h := (g - b) / delta;
      } else if g == max {
        h := 2.0 + (b - r) / delta;
      } else {
        h := 4.0 + (r - g) / delta;
      }
      h := h / 6.0;
      if h < 0.0 {
        h := h + 1.0;
      }
    }

    method GetS() returns (s: real)
      ensures s == Saturation(Rgba().0)
    {
      var min := if r < g then r else g;
      min := if min < b then min else b;
      var max := if r > g then r else g;
      max := if max > b then max else b;
      var delta := max - min;
      s := if max != 0.0 then delta / max else 0.0;
    }

    method GetV() returns (v: real)
      ensures v == Value(Rgba().0)
    {
      var max := if r > g then r else g;
      v := if max > b then max else b;
    }
  }

  // ---------- Reading back what was set ----------

  /** The levels in terms of the spread `d` of the colour and the part `e` of it. */
  lemma Expand(v: real, s: real, f: real)
    ensures v * (1.0 - s) == v - v * s
    ensures v * (1.0 - s * f) == v - (v * s) * f
    ensures v * (1.0 - s * (1.0 - f)) == v - v * s + (v * s) * f
  {
  }

  lemma Levels(v: real, s: real, f: real, d: real, e: real)
    requires d == v * s && e == d * f
    ensures Low(v, s) == v - d && Level(v, s, f) == v - e && Level(v, s, 1.0 - f) == v - d + e
  {
    Expand(v, s, f);
  }

  lemma QuotientIs(x: real, d: real, q: real)
    requires d > 0.0 && x == d * q
    ensures x / d == q
  {
    var r := x / d;
    assert r * d == x;
    assert (r - q) * d == 0.0;
  }

  lemma Quotients(d: real, e: real, f: real)
    requires d > 0.0 && e == d * f
    ensures e / d == f && d / d == 1.0 && (e - d) / d == f - 1.0 && (d - e) / d == 1.0 - f
  {
    QuotientIs(e, d, f);
    QuotientIs(d, d, 1.0);
    QuotientIs(e - d, d, f - 1.0);
    QuotientIs(d - e, d, 1.0 - f);
  }

  lemma Part(d: real, f: real, e: real)
    requires d > 0.0 && 0.0 <= f < 1.0 && e == d * f
    ensures 0.0 <= e < d && (f > 0.0 ==> e > 0.0) && (f == 0.0 ==> e == 0.0)
  {
    assert d * (1.0 - f) == d - e;
    PositiveProduct(d, 1.0 - f, d - e);
    if f > 0.0 {
      PositiveProduct(d, f, e);
    }
  }

  lemma PositiveProduct(x: real, y: real, z: real)
    requires x > 0.0 && y > 0.0 && z == x * y
    ensures z > 0.0
  {
  }

  /** The colour in the sixth `i`, in terms of its spread `d` and the part `e` of it: only sums are left. */
  function Mix(i: int, v: real, d: real, e: real): Rgb {
    if i == 0 then Rgb(v, v - d + e, v - d)
    else if i == 1 then Rgb(v - e, v, v - d)
    else if i == 2 then Rgb(v - d, v, v - d + e)
    else if i == 3 then Rgb(v - d, v - e, v)
    else if i == 4 then Rgb(v - d + e, v - d, v)
    else Rgb(v, v - d, v - e)
  }

  lemma InSixthIsMix(i: int, f: real, s: real, v: real, d: real, e: real)
    requires d == v * s && e == d * f
    ensures InSixth(i, f, s, v) == Mix(i, v, d, e)
  {
    Levels(v, s, f, d, e);
    hide Low, Level;
  }

  lemma MixReadsBack(i: int, v: real, d: real, e: real, f: real)
    requires 0 <= i <= 5 && 0.0 <= f < 1.0 && 0.0 <= e < d <= v && (f > 0.0 ==> e > 0.0) && (f == 0.0 ==> e == 0.0)
    requires e / d == f && d / d == 1.0 && (e - d) / d == f - 1.0 && (d - e) / d == 1.0 - f
    ensures var c := Mix(i, v, d, e);
      Max(c) == v && Min(c) == v - d && 6.0 * Hue(c) == i as real + f
  {
  }

  lemma Spreads(f: real, s: real, v: real) returns (d: real, e: real)
    requires 0.0 <= f < 1.0 && 0.0 < s <= 1.0 && 0.0 < v
    ensures d == v * s && e == d * f && d / v == s
    ensures 0.0 <= e < d <= v && (f > 0.0 ==> e > 0.0) && (f == 0.0 ==> e == 0.0)
    ensures e / d == f && d / d == 1.0 && (e - d) / d == f - 1.0 && (d - e) / d == 1.0 - f
  {
    d := v * s;
    e := d * f;
    Spread(v, s, d);
    Quotients(d, e, f);
    Part(d, f, e);
    QuotientIs(d, v, s);
  }

  /** Within each sixth, hue, saturation and value are read back as they were set. */
  lemma ReadsBackInSixth(i: int, f: real, s: real, v: real)
    requires 0 <= i <= 5 && 0.0 <= f < 1.0 && 0.0 < s <= 1.0 && 0.0 < v
    ensures var c := InSixth(i, f, s, v);
      6.0 * Hue(c) == i as real + f && Saturation(c) == s && Value(c) == v
  {
    hide InSixth, Mix, Hue, Max, Min;
    var d, e := Spreads(f, s, v);
    InSixthIsMix(i, f, s, v, d, e);
    MixReadsBack(i, v, d, e, f);
    SaturationIs(Mix(i, v, d, e), v, d);
  }

  lemma SaturationIs(c: Rgb, v: real, d: real)
    requires Max(c) == v && Min(c) == v - d && v > 0.0
    ensures Saturation(c) == d / v
  {
    hide Max, Min;
    assert Max(c) - Min(c) == d;
  }

  lemma Spread(v: real, s: real, d: real)
    requires 0.0 < s <= 1.0 && 0.0 < v && d == v * s
    ensures 0.0 < d <= v
  {
    assert v * (1.0 - s) >= 0.0;
  }

  // ---------- Every hue ----------

  /** The part of a hue beyond whole turns. */
  function Frac(h: real): real {
    h - h.Floor as real
  }

  lemma FloorIs(x: real, n: int)
    requires n as real <= x < n as real + 1.0
    ensures x.Floor == n
  {
  }

  /** From zero on, the C remainder of six turns is six times the fraction of the turn. */
  lemma FmodOfPositive(h: real)
    requires h >= 0.0
    ensures Fmod6(6.0 * h) == 6.0 * Frac(h)
  {
    assert 6.0 * h / 6.0 == h;
  }

  /** Below zero it falls short by a whole turn, unless it is zero. */
  lemma FmodOfNegative(h: real)
    requires h < 0.0
    ensures Fmod6(6.0 * h) == if Frac(h) == 0.0 then 0.0 else 6.0 * Frac(h) - 6.0
  {
    assert -(6.0 * h) / 6.0 == -h;
    var n := h.Floor;
    if Frac(h) == 0.0 {
      FloorIs(-h, -n);
    } else {
      FloorIs(-h, -n - 1);
    }
  }

  /** The hue that is read back for a hue below zero: it counts as the last sixth, whatever it is. */
  lemma {:induction false} NegativeHue(h: real, s: real, v: real)
    requires h < 0.0 && Frac(h) != 0.0 && 0.0 < s <= 1.0 && 0.0 < v
    ensures var x, c := 6.0 * Frac(h), Hsv(h, s, v);
      6.0 * Hue(c) == 5.0 + (x - x.Floor as real) && Saturation(c) == s && Value(c) == v
  {
    FmodOfNegative(h);
    var x := 6.0 * Frac(h);
    var i := x.Floor;
    FloorIs(x - 6.0, i - 6);
    hide Hue, InSixth, Fmod6, Saturation, Value;
    ReadsBackInSixth(5, x - i as real, s, v);
    OtherSixth(i - 6, x - i as real, s, v);
  }

  lemma OtherSixth(i: int, f: real, s: real, v: real)
    requires i < 0
    ensures InSixth(i, f, s, v) == InSixth(5, f, s, v)
  {
  }

  lemma PlainHue(h: real, s: real, v: real)
    requires (h >= 0.0 || Frac(h) == 0.0) && 0.0 < s <= 1.0 && 0.0 < v
    ensures var c := Hsv(h, s, v);
      Hue(c) == Frac(h) && Saturation(c) == s && Value(c) == v
  {
    if h >= 0.0 {
      FmodOfPositive(h);
    } else {
      FmodOfNegative(h);
    }
    var x := 6.0 * Frac(h);
    var i := x.Floor;
    hide Hue, InSixth, Fmod6, Saturation, Value;
    ReadsBackInSixth(i, x - i as real, s, v);
  }

  /** What was set is read back, for a hue from zero to one. */
  lemma RoundTrip(h: real, s: real, v: real)
    requires 0.0 <= h < 1.0 && 0.0 < s <= 1.0 && 0.0 < v
    ensures var c := Hsv(h, s, v);
      Hue(c) == h && Saturation(c) == s && Value(c) == v
  {
    FloorIs(h, 0);
    hide Hue, Hsv, Saturation, Value;
    PlainHue(h, s, v);
  }

  /**
   For any hue, saturation and value come back. The hue comes back, less its whole turns, if and only if it
   is not negative, or is a number of whole turns, or lies in the last sixth of its turn.
   */
  lemma AnyHue(h: real, s: real, v: real)
    requires 0.0 < s <= 1.0 && 0.0 < v
    ensures var c := Hsv(h, s, v);
      && Saturation(c) == s && Value(c) == v
      && (Hue(c) == Frac(h) <==> h >= 0.0 || Frac(h) == 0.0 || 6.0 * Frac(h) >= 5.0)
  {
    if h >= 0.0 || Frac(h) == 0.0 {
      PlainHue(h, s, v);
    } else {
      NegativeHue(h, s, v);
      hide Hue, Hsv, Saturation, Value;
      var x := 6.0 * Frac(h);
      if x >= 5.0 {
        FloorIs(x, 5);
      }
    }
  }

  /** A quarter turn back is read as eleven twelfths of a turn, not as three quarters. */
  lemma QuarterBack()
    ensures Hsv(-0.25, 1.0, 1.0) == Rgb(1.0, 0.0, 0.5)
    ensures Hue(Hsv(-0.25, 1.0, 1.0)) == 11.0 / 12.0 && Frac(-0.25) == 0.75
  {
    FloorIs(-0.25, -1);
    FmodOfNegative(-0.25);
    FloorIs(-1.5, -2);
  }

  // ---------- Setting what was read ----------

  /** Every colour that is not a grey lies in one of the six sixths. */
  lemma Unmix(c: Rgb) returns (i: int, e: real)
    requires Min(c) < Max(c)
    ensures 0 <= i <= 5 && 0.0 <= e < Max(c) - Min(c)
    ensures c == Mix(i, Max(c), Max(c) - Min(c), e)
  {
    var v, d := Max(c), Max(c) - Min(c);
    if c.r == v {
      if c.g < c.b {
        i, e := 5, d + c.g - c.b;
      } else if c.g < v {
        i, e := 0, c.g - c.b;
      } else {
        i, e := 1, 0.0;
      }
    } else if c.g == v {
      if c.b < c.r {
        i, e := 1, d + c.b - c.r;
      } else if c.b < v {
        i, e := 2, c.b - c.r;
      } else {
        i, e := 3, 0.0;
      }
    } else {
      if c.r < c.g {
        i, e := 3, d + c.r - c.g;
      } else {
        i, e := 4, c.r - c.g;
      }
    }
  }

  lemma PartOf(d: real, e: real) returns (f: real)
    requires 0.0 <= e < d
    ensures 0.0 <= f < 1.0 && e == d * f && (f > 0.0 ==> e > 0.0) && (f == 0.0 ==> e == 0.0)
    ensures e / d == f && d / d == 1.0 && (e - d) / d == f - 1.0 && (d - e) / d == 1.0 - f
  {
    f := e / d;
    assert d * f == e;
    Quotients(d, e, f);
  }

  lemma PartOfTurn(h: real, i: int, f: real)
    requires 0 <= i <= 5 && 0.0 <= f < 1.0 && 6.0 * h == i as real + f
    ensures h >= 0.0 && Fmod6(6.0 * h) == i as real + f && (i as real + f).Floor == i
  {
    FloorIs(h, 0);
    FmodOfPositive(h);
    FloorIs(i as real + f, i);
  }

  lemma ScaleBack(v: real, d: real)
    requires v > 0.0
    ensures d == v * (d / v)
  {
  }

  /** The case of a colour that is not a grey. */
  lemma SetsMixBack(c: Rgb, v: real, d: real, i: int, e: real)
    requires Max(c) == v && Min(c) == v - d && 0.0 < d <= v
    requires 0 <= i <= 5 && 0.0 <= e < d && c == Mix(i, v, d, e)
    ensures Hsv(Hue(c), Saturation(c), Value(c)) == c
  {
    hide *;
    var s := d / v;
    var f := PartOf(d, e);
    SaturationIs(c, v, d);
    ValueIs(c);
    MixReadsBack(i, v, d, e, f);
    PartOfTurn(Hue(c), i, f);
    NotGrey(d, v);
    HsvIs(Hue(c), s, v, i, f);
    ScaleBack(v, d);
    InSixthIsMix(i, f, s, v, d, e);
  }

  /** Setting what was read gives the colour again, whatever colour with no negative component it is. */
  lemma SetsBack(c: Rgb)
    requires 0.0 <= c.r && 0.0 <= c.g && 0.0 <= c.b
    ensures Hsv(Hue(c), Saturation(c), Value(c)) == c
  {
    if Min(c) < Max(c) {
      var i, e := Unmix(c);
      SetsMixBack(c, Max(c), Max(c) - Min(c), i, e);
      hide Hue, Saturation, Hsv, Mix;
    } else {
      assert c == Rgb(Max(c), Max(c), Max(c));
      GreyIsGrey(c);
      hide Hue;
    }
  }

  lemma ValueIs(c: Rgb)
    ensures Value(c) == Max(c)
  {
  }

  lemma HsvIs(h: real, s: real, v: real, i: int, f: real)
    requires s != 0.0 && Fmod6(6.0 * h) == i as real + f && (i as real + f).Floor == i
    ensures Hsv(h, s, v) == InSixth(i, f, s, v)
  {
    hide Fmod6, InSixth;
  }

  lemma NotGrey(d: real, v: real)
    requires 0.0 < d && 0.0 < v
    ensures d / v != 0.0
  {
    assert (d / v) * v == d;
  }

  lemma GreyIsGrey(c: Rgb)
    requires c == Rgb(Max(c), Max(c), Max(c))
    ensures Saturation(c) == 0.0
  {
  }

  /** Without saturation the hue is lost, and nothing else. */
  lemma Greys(h: real, v: real)
    ensures var c := Hsv(h, 0.0, v);
      Hue(c) == 0.0 && Saturation(c) == 0.0 && Value(c) == v
  {
    GreyIsGrey(Rgb(v, v, v));
  }
}
