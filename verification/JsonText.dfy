/** JSON string literals as the editor API writes and reads them, and how the framer sees JSON text. */
module JsonText {
  import opened Wrappers
  import opened ByteText
  import opened TcpFraming
  import opened Unescaping

  // ---------- Writing and reading string literals ----------

  function HexDigit(n: nat): char
    requires n < 16
  {
    "0123456789abcdef"[n]
  }

  function EscapeChar(c: char): string {
    if c == '"' then "\\\""
    else if c == '\\' then "\\\\"
    else if c == '\n' then "\\n"
    else if c == '\r' then "\\r"
    else if c == '\t' then "\\t"
    else if c < ' ' then "\\u00" + [HexDigit(c as int / 16), HexDigit(c as int % 16)]
    else [c]
  }

  function Escape(s: string): string {
    if s == "" then "" else EscapeChar(s[0]) + Escape(s[1..])
  }

  lemma OfNothing()
    ensures Escape("") == ""
  {
  }

  lemma EscapeSuffix(s: string, i: nat)
    requires i < |s|
    ensures Escape(s[i..]) == EscapeChar(s[i]) + Escape(s[i + 1..])
  {
    assert s[i..][1..] == s[i + 1..];
  }

  method EscapeJson(input: string) returns (out: string)
    ensures out == Escape(input)
  {
    hide Escape;
    out := "";
    assert input[0..] == input;
    for i := 0 to |input|
      invariant Escape(input) == out + Escape(input[i..])
    {
      var c := input[i];
      var piece: string;
      if c == '"' {
        piece := "\\\"";
      } else if c == '\\' {
        piece := "\\\\";
      } else if c == '\n' {
        piece := "\\n";
      } else if c == '\r' {
        piece := "\\r";
      } else if c == '\t' {
        piece := "\\t";
      } else if c < ' ' {
        piece := "\\u00" + [HexDigit(c as int / 16), HexDigit(c as int % 16)];
      } else {
        piece := [c];
      }
      EscapeSuffix(input, i);
      out := out + piece;
    }
    OfNothing();
    assert input[|input|..] == "";
  }

  /** The pairs the reader understands; `\u` is not one of them. */
  const JSON_PAIRS: Table := map['"' := '"', '\\' := '\\', 'n' := '\n', 'r' := '\r', 't' := '\t']

  predicate HasShortEscape(c: char) {
    c >= ' ' || c == '\n' || c == '\r' || c == '\t'
  }

  /** What a reader gets back: other control bytes stay spelled out as `\u00XX`. */
  function Spelled(s: string): string {
    if s == "" then ""
    else (if HasShortEscape(s[0]) then [s[0]] else EscapeChar(s[0])) + Spelled(s[1..])
  }

  lemma UnescapeControl(c: char, t: string)
    requires !HasShortEscape(c)
    ensures Unescape(JSON_PAIRS, EscapeChar(c) + t) == EscapeChar(c) + Unescape(JSON_PAIRS, t)
  {
    var e := EscapeChar(c);
    assert (e + t)[0] == '\\' && (e + t)[1] == 'u' && (e + t)[1..] == e[1..] + t;
    hide EscapeChar;
    UnescapeRun(JSON_PAIRS, e[1..], t);
    assert ['\\'] + e[1..] == e;
  }

  lemma UnescapeOne(c: char, t: string)
    ensures Unescape(JSON_PAIRS, EscapeChar(c) + t)
         == (if HasShortEscape(c) then [c] else EscapeChar(c)) + Unescape(JSON_PAIRS, t)
  {
    hide Unescape;
    if !HasShortEscape(c) {
      UnescapeControl(c, t);
    } else if |EscapeChar(c)| == 2 {
      UnescapePair(JSON_PAIRS, EscapeChar(c)[1], t);
    } else {
      UnescapePlain(JSON_PAIRS, c, t);
    }
  }

  lemma {:induction false} UnescapeEscape(s: string)
    ensures Unescape(JSON_PAIRS, Escape(s)) == Spelled(s)
  {
    if s == "" {
    } else {
      UnescapeEscape(s[1..]);
      UnescapeOne(s[0], Escape(s[1..]));
    }
  }

  lemma {:induction false} SpelledIsSame(s: string)
    ensures |Spelled(s)| >= |s|
    ensures Spelled(s) == s <==> forall i :: 0 <= i < |s| ==> HasShortEscape(s[i])
  {
    if s == "" {
    } else {
      SpelledIsSame(s[1..]);
      if HasShortEscape(s[0]) {
        assert Spelled(s)[1..] == Spelled(s[1..]);
        assert s == [s[0]] + s[1..];
        assert forall i :: 0 <= i < |s[1..]| ==> s[1..][i] == s[i + 1];
      } else {
        assert |Spelled(s)| > |s|;
      }
    }
  }

  lemma EscapeFirst(c: char, s: string)
    ensures Escape([c] + s) == EscapeChar(c) + Escape(s)
  {
    assert ([c] + s)[1..] == s;
  }

  /** What each byte is written as: RFC 8259, section 7. */
  lemma EachByteWritten(c: char, s: string)
    ensures Escape("") == ""
    ensures Escape(['"'] + s) == "\\\"" + Escape(s)
    ensures Escape(['\\'] + s) == "\\\\" + Escape(s)
    ensures Escape(['\n'] + s) == "\\n" + Escape(s)
    ensures Escape(['\r'] + s) == "\\r" + Escape(s)
    ensures Escape(['\t'] + s) == "\\t" + Escape(s)
    ensures c >= ' ' && c != '"' && c != '\\' ==> Escape([c] + s) == [c] + Escape(s)
    ensures c < ' ' && c != '\n' && c != '\r' && c != '\t' ==>
      var (hi, lo) := (c as int / 16, c as int % 16);
      Escape([c] + s) == "\\u00" + [if hi == 0 then '0' else '1', "0123456789abcdef"[lo]] + Escape(s)
  {
    EscapeFirst(c, s);
    EscapeFirst('"', s);
    EscapeFirst('\\', s);
    EscapeFirst('\n', s);
    EscapeFirst('\r', s);
    EscapeFirst('\t', s);
    OfNothing();
    hide Escape;
  }

  /** What each pair is read as; any other backslash stands for itself, as does any other byte. */
  lemma EachPairRead(c: char, t: string)
    ensures Unescape(JSON_PAIRS, "") == "" && Unescape(JSON_PAIRS, "\\") == "\\"
    ensures c != '\\' ==> Unescape(JSON_PAIRS, [c] + t) == [c] + Unescape(JSON_PAIRS, t)
    ensures Unescape(JSON_PAIRS, ['\\', '"'] + t) == "\"" + Unescape(JSON_PAIRS, t)
    ensures Unescape(JSON_PAIRS, ['\\', '\\'] + t) == "\\" + Unescape(JSON_PAIRS, t)
    ensures Unescape(JSON_PAIRS, ['\\', 'n'] + t) == "\n" + Unescape(JSON_PAIRS, t)
    ensures Unescape(JSON_PAIRS, ['\\', 'r'] + t) == "\r" + Unescape(JSON_PAIRS, t)
    ensures Unescape(JSON_PAIRS, ['\\', 't'] + t) == "\t" + Unescape(JSON_PAIRS, t)
    ensures c != '"' && c != '\\' && c != 'n' && c != 'r' && c != 't' ==>
      Unescape(JSON_PAIRS, ['\\', c] + t) == ['\\', c] + Unescape(JSON_PAIRS, t)
  {
    UnescapeLone(JSON_PAIRS);
    UnescapeOther(JSON_PAIRS, c, t);
    hide Unescape;
    if c != '\\' {
      UnescapePlain(JSON_PAIRS, c, t);
    }
    UnescapePair(JSON_PAIRS, '"', t);
    UnescapePair(JSON_PAIRS, '\\', t);
    UnescapePair(JSON_PAIRS, 'n', t);
    UnescapePair(JSON_PAIRS, 'r', t);
    UnescapePair(JSON_PAIRS, 't', t);
  }

  /** `get_property_json` of a property whose value prints as `s`. */
  function Quote(s: string): string {
    "\"" + Escape(s) + "\""
  }

  /** What the string branch of `set_property_from_json` reads; None where another branch is taken. */
  function ReadString(json: string): Option<string> {
    var v := if SkipSpace(json) == |json| then json else Trim(json);
    if |v| >= 2 && v[0] == '"' && v[|v| - 1] == '"' then Some(Unescape(JSON_PAIRS, v[1..|v| - 1])) else None
  }

  method StringFromJson(json: string) returns (r: Option<string>)
    ensures r == ReadString(json)
  {
    var value := if SkipSpace(json) == |json| then json else Trim(json);
    if value == "null" || value == "true" || value == "false" {
      return None;
    }
    if |value| >= 2 && value[0] == '"' && value[|value| - 1] == '"' {
      var unescaped := UnescapeLoop(JSON_PAIRS, value[1..|value| - 1]);
      return Some(unescaped);
    }
    return None;
  }

  /** What is read back from a written string, and exactly which strings survive. */
  lemma StringRoundTrip(s: string)
    ensures ReadString(Quote(s)) == Some(Spelled(s))
    ensures ReadString(Quote(s)) == Some(s) <==> forall i :: 0 <= i < |s| ==> HasShortEscape(s[i])
  {
    var q := Quote(s);
    TrimOfTrimmed(q);
    assert SkipSpace(q) == 0;
    assert q[1..|q| - 1] == Escape(s);
    UnescapeEscape(s);
    SpelledIsSame(s);
  }

  // ---------- How the framer sees JSON text ----------

  /** The text between the quotes of a string literal: no bare quote, no dangling backslash. */
  predicate IsLiteralBody(raw: string) {
    raw == ""
    || (raw[0] == '\\' && |raw| >= 2 && IsLiteralBody(raw[2..]))
    || (raw[0] != '\\' && raw[0] != '"' && IsLiteralBody(raw[1..]))
  }

  lemma {:induction false} EscapedIsLiteralBody(s: string)
    ensures IsLiteralBody(Escape(s))
  {
    if s == "" {
    } else {
      EscapedIsLiteralBody(s[1..]);
      hide IsLiteralBody, EscapeChar;
      EscapedCharIsLiteral(s[0], Escape(s[1..]));
    }
  }

  lemma EscapedCharIsLiteral(c: char, t: string)
    requires IsLiteralBody(t)
    ensures IsLiteralBody(EscapeChar(c) + t)
  {
    var e := EscapeChar(c);
    if e[0] == '\\' {
      assert (e + t)[2..] == e[2..] + t;
      PlainThenLiteral(e[2..], t);
    } else {
      assert (e + t)[1..] == t;
    }
  }

  lemma {:induction false} PlainThenLiteral(plain: string, t: string)
    requires forall i :: 0 <= i < |plain| ==> plain[i] != '\\' && plain[i] != '"'
    requires IsLiteralBody(t)
    ensures IsLiteralBody(plain + t)
  {
    if plain == "" {
      assert plain + t == t;
    } else {
      PlainThenLiteral(plain[1..], t);
      assert (plain + t)[1..] == plain[1..] + t;
    }
  }

  /** Scanning `s` from `st` ends in `end`, and on the way the depth never falls below `low`. */
  ghost predicate Path(st: Scan, s: string, end: Scan, low: int) {
    && ScanAll(st, s) == end
    && forall k :: 0 <= k <= |s| ==> ScanAll(st, s[..k]).depth >= low
  }

  lemma PathConcat(st: Scan, s: string, mid: Scan, t: string, end: Scan, low: int)
    requires Path(st, s, mid, low) && Path(mid, t, end, low)
    ensures Path(st, s + t, end, low)
  {
    ScanAllConcat(st, s, t);
    forall k | 0 <= k <= |s + t|
      ensures ScanAll(st, (s + t)[..k]).depth >= low
    {
      if k <= |s| {
        assert (s + t)[..k] == s[..k];
      } else {
        assert (s + t)[..k] == s + t[..k - |s|];
        ScanAllConcat(st, s, t[..k - |s|]);
      }
    }
  }

  lemma PathOne(st: Scan, c: char, low: int)
    requires st.depth >= low && Step(st, c).depth >= low
    ensures Path(st, [c], Step(st, c), low)
  {
    hide Step;
    ScanStep(st, [c], 0);
    assert [c][..0] == "" && [c][..1] == [c];
    assert ScanAll(st, "") == st;
  }

  lemma {:induction false} LiteralBodyPath(st: Scan, raw: string)
    requires st.inString && !st.escaped && IsLiteralBody(raw)
    ensures Path(st, raw, st, st.depth)
  {
    if raw == "" {
      assert ScanAll(st, raw[..0]) == st;
    } else if raw[0] == '\\' && |raw| >= 2 && IsLiteralBody(raw[2..]) {
      var mid := Step(st, raw[0]);
      PathOne(st, raw[0], st.depth);
      PathOne(mid, raw[1], st.depth);
      LiteralBodyPath(st, raw[2..]);
      hide *;
      PathConcat(st, [raw[0]], mid, [raw[1]], st, st.depth);
      PathConcat(st, [raw[0]] + [raw[1]], st, raw[2..], st, st.depth);
      assert raw == [raw[0]] + [raw[1]] + raw[2..];
    } else {
      PathOne(st, raw[0], st.depth);
      LiteralBodyPath(st, raw[1..]);
      hide *;
      PathConcat(st, [raw[0]], st, raw[1..], st, st.depth);
      assert raw == [raw[0]] + raw[1..];
    }
  }

  /** A string literal leaves the framer where it was and closes no object. */
  lemma LiteralPath(st: Scan, raw: string)
    requires !st.inString && !st.escaped && IsLiteralBody(raw)
    ensures Path(st, "\"" + raw + "\"", st, st.depth)
  {
    var inside := st.(inString := true);
    PathOne(st, '"', st.depth);
    LiteralBodyPath(inside, raw);
    PathOne(inside, '"', st.depth);
    assert Step(st, '"') == inside && Step(inside, '"') == st;
    hide *;
    PathConcat(st, "\"", inside, raw, inside, st.depth);
    PathConcat(st, "\"" + raw, inside, "\"", st, st.depth);
  }

  /** So does the literal written for any byte string. */
  lemma QuotedPath(st: Scan, s: string)
    requires !st.inString && !st.escaped
    ensures Path(st, Quote(s), st, st.depth)
  {
    EscapedIsLiteralBody(s);
    LiteralPath(st, Escape(s));
  }

  /**
   JSON text as the framer reads it: nested braces, string literals, and anything else, such as
   brackets, commas, numbers and white space.
   */
  datatype Piece = Plain(c: char) | Literal(raw: string) | Braces(body: seq<Piece>)

  predicate IsLegal(p: Piece) {
    match p
    case Plain(c) => c != '{' && c != '}' && c != '"' && c != '\\'
    case Literal(raw) => IsLiteralBody(raw)
    case Braces(body) => forall q <- body :: IsLegal(q)
  }

  function Render(p: Piece): string {
    match p
    case Plain(c) => [c]
    case Literal(raw) => "\"" + raw + "\""
    case Braces(body) => "{" + RenderAll(body) + "}"
  }

  function RenderAll(ps: seq<Piece>): string {
    if ps == [] then "" else Render(ps[0]) + RenderAll(ps[1..])
  }

  lemma {:induction false} PiecePath(st: Scan, p: Piece)
    requires !st.inString && !st.escaped && IsLegal(p)
    ensures Path(st, Render(p), st, st.depth)
    decreases p
  {
    match p
    case Plain(c) => PathOne(st, c, st.depth);
    case Literal(raw) => LiteralPath(st, raw);
    case Braces(body) =>
      var inner := st.(depth := st.depth + 1);
      PathOne(st, '{', st.depth);
      PiecesPath(inner, body);
      PathOne(inner, '}', st.depth);
      assert Step(st, '{') == inner && Step(inner, '}') == st;
      assert Path(inner, RenderAll(body), inner, st.depth);
      hide Path, ScanAll, Step;
      PathConcat(st, "{", inner, RenderAll(body), inner, st.depth);
      PathConcat(st, "{" + RenderAll(body), inner, "}", st, st.depth);
  }

  lemma {:induction false} PiecesPath(st: Scan, ps: seq<Piece>)
    requires !st.inString && !st.escaped && forall q <- ps :: IsLegal(q)
    ensures Path(st, RenderAll(ps), st, st.depth)
    decreases ps
  {
    if ps == [] {
      assert ScanAll(st, ""[..0]) == st;
    } else {
      PiecePath(st, ps[0]);
      PiecesPath(st, ps[1..]);
      PathConcat(st, Render(ps[0]), st, RenderAll(ps[1..]), st, st.depth);
    }
  }

  /** Every JSON object text, whatever its strings contain, is exactly one message. */
  lemma ObjectIsMessage(body: seq<Piece>)
    requires forall q <- body :: IsLegal(q)
    ensures IsMessage(Render(Braces(body)))
  {
    var m, inner := Render(Braces(body)), Scan(1, false, false);
    PiecePath(START, Braces(body));
    PiecesPath(inner, body);
    forall k | 0 < k < |m|
      ensures ScanAll(START, m[..k]).depth > 0
    {
      assert m[..k] == "{" + RenderAll(body)[..k - 1];
      ScanAllConcat(START, "{", RenderAll(body)[..k - 1]);
      PathOne(START, '{', 0);
    }
  }
}
