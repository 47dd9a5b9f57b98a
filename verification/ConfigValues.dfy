/** How values are written into `project.godot` and read back from it. */
module ConfigValues {
  import opened Wrappers
  import opened ByteText
  import opened Unescaping

  datatype Value = Bool(b: bool) | Int(i: int) | Float(f: real) | Str(s: string)

  /**
   The standard library's number readers: Some when they accept the whole text. The only thing
   assumed of them, where it matters, is that no accepted text begins with a quote.
   */
  datatype Numerals = Numerals(stoll: string -> Option<int>, stod: string -> Option<real>)

  ghost predicate RejectsQuoted(num: Numerals) {
    forall v: string :: v != "" && v[0] == '"' ==> num.stoll(v).None? && num.stod(v).None?
  }

  /** The pairs a quoted value may contain. Unlike in JSON, `\r` is not one of them. */
  const INI_PAIRS: Table := map['"' := '"', '\\' := '\\', 'n' := '\n', 't' := '\t']

  predicate IsWrapped(v: string) {
    |v| >= 2 && v[0] == '"' && v[|v| - 1] == '"'
  }

  function Unwrap(v: string): string {
    if IsWrapped(v) then v[1..|v| - 1] else v
  }

  /** `parse_godot_value` */
  function ParseValue(num: Numerals, text: string): Value {
    var v := Trim(text);
    if v == "" then Str("")
    else if v == "true" then Bool(true)
    else if v == "false" then Bool(false)
    else if num.stoll(v).Some? then Int(num.stoll(v).value)
    else if num.stod(v).Some? then Float(num.stod(v).value)
    else if IsWrapped(v) then Str(Unescape(INI_PAIRS, v[1..|v| - 1]))
    else Str(v)
  }

  method ParseGodotValue(num: Numerals, text: string) returns (r: Value)
    ensures r == ParseValue(num, text)
  {
    var v := Trim(text);
    if v == "" { return Str(""); }
    if v == "true" { return Bool(true); }
    if v == "false" { return Bool(false); }
    if num.stoll(v).Some? { return Int(num.stoll(v).value); }
    if num.stod(v).Some? { return Float(num.stod(v).value); }
    if IsWrapped(v) {
      var unescaped := UnescapeLoop(INI_PAIRS, v[1..|v| - 1]);
      return Str(unescaped);
    }
    return Str(v);
  }

  /** A quoted value is read as what its escapes stand for. */
  lemma QuotedReads(num: Numerals, s: string)
    requires RejectsQuoted(num)
    ensures ParseValue(num, "\"" + s + "\"") == Str(Unescape(INI_PAIRS, s))
  {
    var v := "\"" + s + "\"";
    TrimOfTrimmed(v);
    assert v[1..|v| - 1] == s;
    hide Trim, Unescape;
  }

  /** A quoted value with nothing to escape is read back as it stands. */
  lemma QuotedReadsBack(num: Numerals, s: string)
    requires RejectsQuoted(num)
    requires forall i :: 0 <= i < |s| ==> s[i] != '\\'
    ensures ParseValue(num, "\"" + s + "\"") == Str(s)
  {
    hide ParseValue;
    QuotedReads(num, s);
    UnescapeRun(INI_PAIRS, s, "");
    UnescapeNothing(INI_PAIRS);
    assert s + "" == s;
  }

  // ---------- Quoting ----------

  const BARE: seq<string> := ["true", "false", "null", "Inf", "NaN", "self", "Resource"]

  predicate IsMark(c: char) {
    c == 'e' || c == 'E' || c == '+' || c == '-'
  }

  /** Digits and marks up to `dot`, then a dot, then digits only; or no dot at all. */
  ghost predicate NumericUpTo(body: string, n: nat, dot: nat) {
    && (forall i :: 0 <= i < n && i < dot && i < |body| ==> IsDigit(body[i]) || IsMark(body[i]))
    && (forall i :: dot < i < n && i < |body| ==> IsDigit(body[i]))
    && (dot < n && dot < |body| ==> body[dot] == '.')
  }

  ghost predicate HasDigit(body: string, n: nat) {
    exists i :: 0 <= i < n && i < |body| && IsDigit(body[i])
  }

  function Unsigned(v: string): string
    requires v != ""
  {
    if v[0] == '-' || v[0] == '+' then v[1..] else v
  }

  /** What the scan takes for a number: after an optional sign, at least one digit, and the shape above. */
  ghost predicate LooksNumeric(v: string) {
    && v != ""
    && HasDigit(Unsigned(v), |v|)
    && exists dot: nat :: NumericUpTo(Unsigned(v), |v|, dot)
  }

  ghost predicate MustQuote(v: string) {
    v != "" && !IsWrapped(v) && (v[0] == '"' || (v !in BARE && !LooksNumeric(v)))
  }

  method NeedsQuotes(v: string) returns (r: bool)
    ensures r == MustQuote(v)
  {
    if v == "" { return false; }
    if IsWrapped(v) { return false; }
    if v[0] == '"' { return true; }
    if v in BARE { return false; }
    var numeric := ScanNumber(Unsigned(v));
    HasDigitUpTo(Unsigned(v), |v|);
    NumericUpToLength(v);
    return !numeric;
  }

  lemma HasDigitUpTo(body: string, n: nat)
    requires |body| <= n
    ensures HasDigit(body, n) == HasDigit(body, |body|)
  {
  }

  lemma NumericUpToLength(v: string)
    requires v != ""
    ensures forall dot: nat :: NumericUpTo(Unsigned(v), |v|, dot) == NumericUpTo(Unsigned(v), |Unsigned(v)|, dot)
  {
  }

  method ScanNumber(body: string) returns (numeric: bool)
    ensures numeric == (HasDigit(body, |body|) && exists dot: nat :: NumericUpTo(body, |body|, dot))
  {
    var seenDot, anyDigit := false, false;
    ghost var dot: nat := |body|;
    var i := 0;
    while i < |body|
      invariant 0 <= i <= |body|
      invariant anyDigit == HasDigit(body, i)
      invariant if seenDot then dot < i && body[dot] == '.' else dot == |body|
      invariant NumericUpTo(body, i, dot)
    {
      var c := body[i];
      if IsDigit(c) {
        anyDigit := true;
        i := i + 1;
        continue;
      }
      if (c == '.' || IsMark(c)) && !seenDot {
        if c == '.' {
          seenDot := true;
          dot := i;
        }
        i := i + 1;
        continue;
      }
      NotNumericAt(body, i, dot);
      return false;
    }
    assert NumericUpTo(body, |body|, dot);
    return anyDigit;
  }

  /** A byte that is neither a digit nor allowed before the dot, or a second dot, rules a number out. */
  lemma NotNumericAt(body: string, i: nat, dot: nat)
    requires i < |body| && !IsDigit(body[i])
    requires (body[i] != '.' && !IsMark(body[i])) || (dot < i && body[dot] == '.')
    ensures forall d: nat :: !NumericUpTo(body, |body|, d)
  {
    forall d: nat
      ensures !NumericUpTo(body, |body|, d)
    {
      if d > i {
        assert IsMark(body[i]) ==> dot < d && !IsDigit(body[dot]) && !IsMark(body[dot]);
      } else if d == i {
        assert body[i] == '.' ==> !IsDigit(body[dot]) && !IsMark(body[dot]);
      }
    }
  }

  /** `format_value`: one layer of the caller's quotes is dropped, then quotes are put on where needed. */
  ghost function Format(existing: string, value: string): string {
    var inner := Unwrap(value);
    if (existing != "" && existing[0] == '"') || MustQuote(inner) then "\"" + inner + "\"" else inner
  }

  method FormatValue(existing: string, value: string) returns (r: string)
    ensures r == Format(existing, value)
  {
    var wasQuoted := existing != "" && existing[0] == '"';
    var inner := Unwrap(value);
    var needs := NeedsQuotes(inner);
    if wasQuoted || needs {
      return "\"" + inner + "\"";
    }
    return inner;
  }

  /** Formatting over a value already formatted changes nothing, unless two layers of quotes were given. */
  lemma FormatStable(existing: string, value: string)
    requires !IsWrapped(Unwrap(value))
    ensures Format(Format(existing, value), value) == Format(existing, value)
  {
    hide LooksNumeric;
  }

  /** With two layers, a value written afresh is not stable. */
  lemma FormatStableExactly(value: string)
    ensures Format(Format("", value), value) == Format("", value) <==> !IsWrapped(Unwrap(value))
  {
    hide LooksNumeric;
    var inner := Unwrap(value);
    if IsWrapped(inner) {
      assert Format("", value) == inner;
      assert |Format(inner, value)| == |inner| + 2;
    } else {
      FormatStable("", value);
    }
  }

  lemma FormatKeepsLines(existing: string, value: string)
    requires '\n' !in value
    ensures '\n' !in Format(existing, value)
  {
    hide MustQuote;
  }
}
