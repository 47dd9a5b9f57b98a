/** What a setting reads as after it has been set, by the kind of value, in plain words. */
module ConfigKinds {
  import opened Wrappers
  import opened ByteText
  import opened Unescaping
  import opened ConfigValues
  import opened ConfigText
  import opened ConfigReader
  import opened ConfigDocument
  import opened ConfigRefinement
  import opened ConfigMeaning

  // ---------- What is written without quotes ----------

  predicate IsNumeralByte(c: char) {
    '0' <= c <= '9' || c == '.' || c == 'e' || c == 'E' || c == '+' || c == '-'
  }

  /** Digits, dots, exponents and signs, at least one digit, and only digits after a dot. */
  ghost predicate IsNumeralBody(body: string) {
    && (exists i :: 0 <= i < |body| && '0' <= body[i] <= '9')
    && (forall i :: 0 <= i < |body| ==> IsNumeralByte(body[i]))
    && (forall i, j :: 0 <= i < j < |body| && body[i] == '.' ==> '0' <= body[j] <= '9')
  }

  /** After an optional sign. */
  ghost predicate IsNumeral(v: string) {
    IsNumeralBody(if v != "" && (v[0] == '-' || v[0] == '+') then v[1..] else v)
  }

  /** The dot of a numeral, or its end. */
  lemma DotOf(body: string) returns (dot: nat)
    ensures dot <= |body| && (dot < |body| ==> body[dot] == '.') && forall i :: 0 <= i < dot ==> body[i] != '.'
  {
    dot := 0;
    while dot < |body| && body[dot] != '.'
      invariant dot <= |body| && forall i :: 0 <= i < dot ==> body[i] != '.'
    {
      dot := dot + 1;
    }
  }

  lemma NumeralHasShape(body: string, n: nat)
    requires IsNumeralBody(body) && |body| <= n
    ensures HasDigit(body, n) && exists dot: nat :: NumericUpTo(body, n, dot)
  {
    var dot := DotOf(body);
    assert forall i :: 0 <= i < dot ==> IsNumeralByte(body[i]);
    assert NumericUpTo(body, n, dot);
  }

  lemma ShapeIsNumeral(body: string, n: nat, dot: nat)
    requires HasDigit(body, n) && NumericUpTo(body, n, dot) && |body| <= n
    ensures IsNumeralBody(body)
  {
    forall i | 0 <= i < |body|
      ensures IsNumeralByte(body[i]) && (body[i] == '.' ==> i == dot)
    {
      assert i < dot || i == dot || i > dot;
    }
  }

  /** The scan for numbers takes exactly the numerals. */
  lemma NumeralsLookNumeric(v: string)
    requires v != ""
    ensures LooksNumeric(v) <==> IsNumeral(v)
  {
    var body := Unsigned(v);
    hide IsNumeralBody, HasDigit, NumericUpTo;
    if IsNumeral(v) {
      NumeralHasShape(body, |v|);
    }
    if LooksNumeric(v) {
      var dot: nat :| NumericUpTo(body, |v|, dot);
      ShapeIsNumeral(body, |v|, dot);
    }
  }

  predicate InQuotes(v: string) {
    |v| >= 2 && v[0] == '"' && v[|v| - 1] == '"'
  }

  predicate IsBareWord(v: string) {
    || v == "true" || v == "false" || v == "null" || v == "Inf" || v == "NaN" || v == "self" || v == "Resource"
  }

  /** Quotes are put on everything but these. */
  lemma QuotedExactly(v: string)
    ensures MustQuote(v) <==>
      v != "" && !InQuotes(v) && !IsBareWord(v) && (v[0] == '"' || !IsNumeral(v))
  {
    if v != "" {
      NumeralsLookNumeric(v);
    }
    BareWords(v);
    hide LooksNumeric, IsNumeral, BARE, IsBareWord;
  }

  lemma BareWords(v: string)
    ensures v in BARE <==> IsBareWord(v)
    ensures IsBareWord(v) ==> v != "" && v[0] != '"'
  {
    assert BARE[0] == "true" && BARE[1] == "false" && BARE[2] == "null" && BARE[3] == "Inf" && BARE[4] == "NaN";
    assert BARE[5] == "self" && BARE[6] == "Resource" && |BARE| == 7;
  }

  // ---------- What is read back ----------

  /** What an unquoted text other than `true` and `false` reads as: the first number reader that takes it decides. */
  function Bare(num: Numerals, v: string): Value {
    if num.stoll(v).Some? then Int(num.stoll(v).value)
    else if num.stod(v).Some? then Float(num.stod(v).value)
    else Str(v)
  }

  lemma BareReads(num: Numerals, v: string)
    requires IsBareWord(v) || IsNumeral(v)
    ensures ParseValue(num, v) == if v == "true" then Bool(true) else if v == "false" then Bool(false) else Bare(num, v)
  {
    BareTrims(v);
    hide Trim, Unescape;
  }

  lemma BareTrims(v: string)
    requires IsBareWord(v) || IsNumeral(v)
    ensures v != "" && Trim(v) == v && v[0] != '"'
  {
    if IsBareWord(v) {
      TrimOfTrimmed(v);
    } else {
      NumeralEnds(v);
      TrimOfTrimmed(v);
    }
    hide Trim;
  }

  lemma NumeralEnds(v: string)
    requires IsNumeral(v)
    ensures v != "" && !IsSpace(v[0]) && !IsSpace(v[|v| - 1]) && v[0] != '"'
  {
    var body := if v != "" && (v[0] == '-' || v[0] == '+') then v[1..] else v;
    assert body != "" && IsNumeralByte(body[0]) && IsNumeralByte(body[|body| - 1]);
    assert v[|v| - 1] == body[|body| - 1];
  }

  /** The value that a caller gives: a text, or that text in one pair of quotes. */
  predicate Gives(value: string, v: string) {
    (value == v && !InQuotes(v)) || value == "\"" + v + "\""
  }

  predicate StartsQuoted(existing: string) {
    existing != "" && existing[0] == '"'
  }

  lemma GivenIsUnwrapped(value: string, v: string)
    requires Gives(value, v)
    ensures Unwrap(value) == v
  {
    if value != v {
      assert value[1..|value| - 1] == v;
    }
  }

  lemma FormatIs(existing: string, value: string, v: string)
    requires Gives(value, v)
    ensures Format(existing, value) == if StartsQuoted(existing) || MustQuote(v) then "\"" + v + "\"" else v
  {
    GivenIsUnwrapped(value, v);
    hide MustQuote, Unwrap;
  }

  /** What is written: the text itself where it can stand without quotes, and where no quotes were before. */
  lemma WrittenExactly(existing: string, value: string, v: string)
    requires Gives(value, v)
    ensures Format(existing, value) ==
      if StartsQuoted(existing) || (v != "" && !InQuotes(v) && !IsBareWord(v) && (v[0] == '"' || !IsNumeral(v)))
      then "\"" + v + "\"" else v
  {
    hide Format, MustQuote, Gives, StartsQuoted, InQuotes, IsBareWord, IsNumeral;
    FormatIs(existing, value, v);
    QuotedExactly(v);
  }

  lemma IniPairs(c: char)
    ensures '"' in INI_PAIRS && INI_PAIRS['"'] == '"' && '\\' in INI_PAIRS && INI_PAIRS['\\'] == '\\'
    ensures 'n' in INI_PAIRS && INI_PAIRS['n'] == '\n' && 't' in INI_PAIRS && INI_PAIRS['t'] == '\t'
    ensures c != '"' && c != '\\' && c != 'n' && c != 't' ==> c !in INI_PAIRS
  {
  }

  /** Two bytes that a quoted value may contain, and what they stand for; any other byte stands for itself. */
  lemma PairsRead(c: char, t: string)
    ensures Unescape(INI_PAIRS, "") == ""
    ensures Unescape(INI_PAIRS, "\\") == "\\"
    ensures c != '\\' ==> Unescape(INI_PAIRS, [c] + t) == [c] + Unescape(INI_PAIRS, t)
    ensures Unescape(INI_PAIRS, ['\\', '"'] + t) == "\"" + Unescape(INI_PAIRS, t)
    ensures Unescape(INI_PAIRS, ['\\', '\\'] + t) == "\\" + Unescape(INI_PAIRS, t)
    ensures Unescape(INI_PAIRS, ['\\', 'n'] + t) == "\n" + Unescape(INI_PAIRS, t)
    ensures Unescape(INI_PAIRS, ['\\', 't'] + t) == "\t" + Unescape(INI_PAIRS, t)
    ensures c != '"' && c != '\\' && c != 'n' && c != 't' ==>
      Unescape(INI_PAIRS, ['\\', c] + t) == ['\\', c] + Unescape(INI_PAIRS, t)
  {
    IniPairs(c);
    hide *;
    UnescapeLone(INI_PAIRS);
    UnescapeOther(INI_PAIRS, c, t);
    if c != '\\' {
      UnescapePlain(INI_PAIRS, c, t);
    }
    UnescapePair(INI_PAIRS, '"', t);
    UnescapePair(INI_PAIRS, '\\', t);
    UnescapePair(INI_PAIRS, 'n', t);
    UnescapePair(INI_PAIRS, 't', t);
  }

  lemma QuotedPlain(v: string)
    requires '\\' !in v
    ensures Unescape(INI_PAIRS, v) == v
  {
    hide Unescape;
    UnescapeRun(INI_PAIRS, v, "");
    UnescapeNothing(INI_PAIRS);
    assert v + "" == v;
  }

  lemma WordsApart(v: string)
    requires IsBareWord(v)
    ensures v != "" && !IsNumeral(v) && v[0] != '"' && !InQuotes(v)
  {
    assert !IsNumeralByte(v[0]);
  }

  lemma NumeralsApart(v: string)
    requires IsNumeral(v)
    ensures v != "" && !IsBareWord(v) && !InQuotes(v) && v[0] != '"'
  {
    NumeralEnds(v);
    hide IsNumeral;
    if IsBareWord(v) {
      WordsApart(v);
    }
  }

  lemma WordReads(num: Numerals, value: string, existing: string, v: string)
    requires Gives(value, v) && !StartsQuoted(existing) && (IsBareWord(v) || IsNumeral(v))
    ensures ParseValue(num, Format(existing, value))
         == if v == "true" then Bool(true) else if v == "false" then Bool(false) else Bare(num, v)
  {
    hide *;
    FormatIs(existing, value, v);
    QuotedExactly(v);
    if IsNumeral(v) {
      NumeralEnds(v);
    }
    BareReads(num, v);
  }

  lemma TextReads(num: Numerals, value: string, existing: string, v: string)
    requires RejectsQuoted(num) && Gives(value, v) && !StartsQuoted(existing)
    requires !IsBareWord(v) && !IsNumeral(v)
    ensures var got := ParseValue(num, Format(existing, value));
      if v == "" then got == Str("")
      else if InQuotes(v) then got == Str(Unescape(INI_PAIRS, v[1..|v| - 1]))
      else got == Str(Unescape(INI_PAIRS, v)) && ('\\' !in v ==> got == Str(v))
  {
    FormatIs(existing, value, v);
    QuotedExactly(v);
    hide *;
    if v == "" {
      NothingReads(num);
    } else if InQuotes(v) {
      InQuotesReads(num, v);
    } else {
      QuotedTextReads(num, v);
    }
  }

  lemma InQuotesReads(num: Numerals, v: string)
    requires RejectsQuoted(num) && InQuotes(v)
    ensures |v| >= 2 && ParseValue(num, v) == Str(Unescape(INI_PAIRS, v[1..|v| - 1]))
  {
    assert v == "\"" + v[1..|v| - 1] + "\"";
    hide ParseValue, Unescape, RejectsQuoted;
    QuotedReads(num, v[1..|v| - 1]);
  }

  lemma QuotedTextReads(num: Numerals, v: string)
    requires RejectsQuoted(num)
    ensures var got := ParseValue(num, "\"" + v + "\"");
      got == Str(Unescape(INI_PAIRS, v)) && ('\\' !in v ==> got == Str(v))
  {
    hide *;
    QuotedReads(num, v);
    if '\\' !in v {
      QuotedPlain(v);
    }
  }

  /** What a text reads as once it has been written where there were no quotes before. */
  lemma KindsRead(num: Numerals, existing: string, value: string, v: string)
    requires RejectsQuoted(num) && Gives(value, v) && !StartsQuoted(existing)
    ensures var got := ParseValue(num, Format(existing, value));
      && (v == "true" ==> got == Bool(true))
      && (v == "false" ==> got == Bool(false))
      && (v == "null" || v == "Inf" || v == "NaN" || v == "self" || v == "Resource" || IsNumeral(v) ==>
            got == Bare(num, v))
      && (v == "" ==> got == Str(""))
      && (InQuotes(v) ==> got == Str(Unescape(INI_PAIRS, v[1..|v| - 1])))
      && (v != "" && !InQuotes(v) && !IsBareWord(v) && !IsNumeral(v) ==>
            got == Str(Unescape(INI_PAIRS, v)) && ('\\' !in v ==> got == Str(v)))
  {
    hide ParseValue, IsNumeral, Unescape, Format, Gives, RejectsQuoted, Bare, StartsQuoted;
    if IsBareWord(v) {
      WordsApart(v);
      WordReads(num, value, existing, v);
    } else if IsNumeral(v) {
      NumeralsApart(v);
      WordReads(num, value, existing, v);
    } else {
      TextReads(num, value, existing, v);
    }
  }

  lemma NothingReads(num: Numerals)
    ensures ParseValue(num, "") == Str("")
  {
  }

  /** Over a value in quotes, any text is written in quotes, and reads as text. */
  lemma QuotedKindRead(num: Numerals, existing: string, value: string, v: string)
    requires RejectsQuoted(num) && Gives(value, v) && StartsQuoted(existing)
    ensures var got := ParseValue(num, Format(existing, value));
      got == Str(Unescape(INI_PAIRS, v)) && ('\\' !in v ==> got == Str(v))
  {
    hide *;
    FormatIs(existing, value, v);
    QuotedTextReads(num, v);
  }

  lemma SetThenLookup(num: Numerals, doc: Document, name: string, key: string, value: string)
    requires IsEditable(doc, name, key) && '\n' !in value
    ensures SetText(Join(Lines(doc)), name, key, value).Some?
    ensures var after := Read(num, SetText(Join(Lines(doc)), name, key, value).value);
      && after.Some?
      && Lookup(after.value.root, name, key) == Some(ParseValue(num, Format(Existing(doc, name, key), value)))
  {
    hide Read, Lines, Join, IsEditable, SetText, ParseValue, Format, Existing, Lookup;
    SetThenRead(num, doc, name, key, value);
  }

  /**
   Setting a value where there was none, or none in quotes, and reading the file back: `true` and `false` come back
   as booleans; numerals and the other bare words, which are written without quotes, as what the number readers make
   of them; any other text as itself, with its escapes resolved.
   */
  lemma SetReadsByKind(num: Numerals, doc: Document, name: string, key: string, value: string, v: string)
    requires IsEditable(doc, name, key) && RejectsQuoted(num) && '\n' !in value && Gives(value, v)
    requires !StartsQuoted(Existing(doc, name, key))
    ensures SetText(Join(Lines(doc)), name, key, value).Some?
    ensures var after := Read(num, SetText(Join(Lines(doc)), name, key, value).value);
      && after.Some?
      && var got := Lookup(after.value.root, name, key);
      && (v == "true" ==> got == Some(Bool(true)))
      && (v == "false" ==> got == Some(Bool(false)))
      && (v == "null" || v == "Inf" || v == "NaN" || v == "self" || v == "Resource" || IsNumeral(v) ==>
            got == Some(Bare(num, v)))
      && (v == "" ==> got == Some(Str("")))
      && (InQuotes(v) ==> got == Some(Str(Unescape(INI_PAIRS, v[1..|v| - 1]))))
      && (v != "" && !InQuotes(v) && !IsBareWord(v) && !IsNumeral(v) ==>
            got == Some(Str(Unescape(INI_PAIRS, v))) && ('\\' !in v ==> got == Some(Str(v))))
  {
    hide *;
    SetThenLookup(num, doc, name, key, value);
    KindsRead(num, Existing(doc, name, key), value, v);
  }

  /** Over a value in quotes, whatever is set comes back as text. */
  lemma SetReadsAsText(num: Numerals, doc: Document, name: string, key: string, value: string, v: string)
    requires IsEditable(doc, name, key) && RejectsQuoted(num) && '\n' !in value && Gives(value, v)
    requires StartsQuoted(Existing(doc, name, key))
    ensures SetText(Join(Lines(doc)), name, key, value).Some?
    ensures var after := Read(num, SetText(Join(Lines(doc)), name, key, value).value);
      && after.Some?
      && var got := Lookup(after.value.root, name, key);
         got == Some(Str(Unescape(INI_PAIRS, v))) && ('\\' !in v ==> got == Some(Str(v)))
  {
    hide *;
    SetThenLookup(num, doc, name, key, value);
    QuotedKindRead(num, Existing(doc, name, key), value, v);
  }
}
