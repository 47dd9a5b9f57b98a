/** Exactly when a setting is read back as it was set: when the substring searches find its place. */
module ConfigFindable {
  import opened Wrappers
  import opened ByteText
  import opened Unescaping
  import opened ConfigValues
  import opened ConfigText
  import opened ConfigReader
  import opened ConfigDocument
  import opened ConfigSearch
  import opened ConfigRefinement
  import opened ConfigMeaning
  import ConfigIdempotence

  // ---------- A value no line of the file holds ----------

  function Zs(n: nat): (s: string)
    ensures |s| == n
  {
    seq(n, i => 'z')
  }

  lemma ZsAreQuoted(num: Numerals, n: nat)
    requires RejectsQuoted(num) && n > 0
    ensures forall existing :: Format(existing, Zs(n)) == "\"" + Zs(n) + "\""
    ensures ParseValue(num, "\"" + Zs(n) + "\"") == Str(Zs(n)) && '\n' !in Zs(n)
  {
    var v := Zs(n);
    assert forall i :: 0 <= i < |v| ==> v[i] == 'z';
    hide ParseValue, Zs;
    MustBeQuoted(v);
    QuotedReadsBack(num, v);
    hide MustQuote;
  }

  lemma MustBeQuoted(v: string)
    requires v != "" && forall i :: 0 <= i < |v| ==> v[i] == 'z'
    ensures MustQuote(v) && !IsWrapped(v)
  {
    NotBare(v);
    assert !HasDigit(v, |v|);
    hide NumericUpTo, HasDigit;
  }

  lemma NotBare(v: string)
    requires v != "" && v[0] == 'z'
    ensures v !in BARE
  {
    assert forall i :: 0 <= i < |BARE| ==> BARE[i][0] != 'z';
  }

  lemma {:induction false} UnescapeShortens(table: Table, s: string)
    ensures |Unescape(table, s)| <= |s|
    decreases |s|
  {
    if s == "" {
    } else {
      UnescapeShortens(table, s[BytesUsed(table, s)..]);
    }
  }

  /** A byte that takes no part in any pair is kept. */
  lemma {:induction false} UnescapeKeeps(table: Table, s: string, c: char)
    requires c in s && c != '\\' && c !in table
    ensures c in Unescape(table, s)
    decreases |s|
  {
    var n := BytesUsed(table, s);
    assert s == s[..n] + s[n..];
    if c in s[..n] {
      assert FirstUnescaped(table, s) == c;
    } else {
      UnescapeKeeps(table, s[n..], c);
    }
  }

  lemma ShortValue(num: Numerals, text: string, n: nat)
    requires |text| < n
    ensures ParseValue(num, text) != Str(Zs(n))
  {
    var v := Trim(text);
    if IsWrapped(v) {
      UnescapeShortens(INI_PAIRS, v[1..|v| - 1]);
    }
    hide Unescape;
  }

  lemma {:induction false} TrimRightKeeps(s: string, c: char)
    requires c in s && !IsSpace(c)
    ensures c in TrimRight(s)
  {
    if !IsSpace(s[|s| - 1]) {
    } else {
      assert s == s[..|s| - 1] + [s[|s| - 1]];
      TrimRightKeeps(s[..|s| - 1], c);
    }
  }

  lemma TrimKeeps(s: string, c: char)
    requires c in s && !IsSpace(c)
    ensures c in Trim(s)
  {
    hide TrimRight;
    assert s == s[..SkipSpace(s)] + s[SkipSpace(s)..];
    TrimRightKeeps(s[SkipSpace(s)..], c);
  }

  lemma ValueWithEquals(num: Numerals, text: string, n: nat)
    requires '=' in text && n > 0
    ensures ParseValue(num, text) != Str(Zs(n))
  {
    var v := Trim(text);
    TrimKeeps(text, '=');
    assert '=' !in Zs(n);
    if IsWrapped(v) {
      InsideQuotes(v, '=');
      UnescapeKeeps(INI_PAIRS, v[1..|v| - 1], '=');
    }
    hide Unescape, Trim, Zs;
  }

  lemma InsideQuotes(v: string, c: char)
    requires IsWrapped(v) && c in v && c != '"'
    ensures c in v[1..|v| - 1]
  {
    assert v == "\"" + v[1..|v| - 1] + "\"";
  }

  // ---------- Lines that do not set it ----------

  /** The setting is not read as `v`, as far as the reader has come. */
  ghost predicate Lacks(st: Option<Ini>, name: string, key: string, v: Value) {
    st.Some? ==> Lookup(st.value.root, name, key) != Some(v)
  }

  lemma AssignLacks(st: Ini, k: string, w: Value, name: string, key: string, v: Value)
    requires name != "" && Lacks(Some(st), name, key, v)
    requires st.section != name || k != key || w != v
    ensures Lacks(Assign(st, k, w), name, key, v)
  {
  }

  lemma EnterLacks(st: Ini, section: string, name: string, key: string, v: Value)
    requires name != "" && Lacks(Some(st), name, key, v)
    ensures Lacks(Some(Enter(st, section)), name, key, v)
  {
  }

  lemma ShortLine(num: Numerals, line: string, st: Ini, name: string, key: string, n: nat)
    requires |line| < n && name != "" && Lacks(Some(st), name, key, Str(Zs(n)))
    ensures Lacks(ReadLine(num, line, st), name, key, Str(Zs(n)))
  {
    hide TrimRight, SkipSpace, Find, ParseValue, Lacks, Assign, Enter, TrimBlanks;
    var t := Trim(line);
    if t == "" || t[0] == ';' || t[0] == '#' {
    } else if t[0] == '[' {
      var end := Find(t, "]", 0);
      if end.Some? {
        FindBounds(t, "]", 0);
        EnterLacks(st, t[1..end.value], name, key, Str(Zs(n)));
      }
    } else {
      var eq := Find(t, "=", 0);
      if eq.Some? {
        FindBounds(t, "=", 0);
        ShortValue(num, t[eq.value + 1..], n);
        AssignLacks(st, TrimBlanks(t[..eq.value]), ParseValue(num, t[eq.value + 1..]), name, key, Str(Zs(n)));
      }
    }
  }

  lemma {:induction false} ShortLines(num: Numerals, lines: seq<string>, st: Option<Ini>, name: string, key: string,
                                      n: nat)
    requires (forall i :: 0 <= i < |lines| ==> |lines[i]| < n) && name != ""
    requires Lacks(st, name, key, Str(Zs(n)))
    ensures Lacks(ReadLines(num, lines, st), name, key, Str(Zs(n)))
    decreases |lines|
  {
    hide ReadLine, Lookup;
    if st.None? || lines == [] {
    } else {
      ShortLine(num, lines[0], st.value, name, key, n);
      ShortLines(num, lines[1..], ReadLine(num, lines[0], st.value), name, key, n);
    }
  }

  lemma MixedTrims(x: string, p: string, w: string)
    requires !AllSpace(x) && w != "" && !IsSpace(w[|w| - 1])
    ensures SkipSpace(x) < |x| && Trim(x + p + w) == x[SkipSpace(x)..] + p + w
  {
    var k, line := SkipSpace(x), x + p + w;
    NotAllSpace(x);
    hide *;
    SkipMixed(x, p + w);
    MixedParts(x, p, w, k);
    TrimIs(line, k);
  }

  lemma MixedParts(x: string, p: string, w: string, k: nat)
    requires k < |x| && w != ""
    ensures var line := x + p + w;
      line == x + (p + w) && line[k..] == x[k..] + p + w && line[|line| - 1] == w[|w| - 1]
  {
  }

  lemma NotAllSpace(x: string)
    requires !AllSpace(x)
    ensures SkipSpace(x) < |x|
  {
  }

  lemma SkipMixed(x: string, z: string)
    requires SkipSpace(x) < |x|
    ensures SkipSpace(x + z) == SkipSpace(x)
  {
    hide SkipSpace, IsSpace;
    assert forall i :: 0 <= i < |x| ==> (x + z)[i] == x[i];
    SkipSpaceIs(x + z, SkipSpace(x));
  }

  lemma TrimIs(line: string, k: nat)
    requires SkipSpace(line) == k < |line| && !IsSpace(line[|line| - 1])
    ensures Trim(line) == line[k..]
  {
    hide SkipSpace;
    assert line[k..][|line| - k - 1] == line[|line| - 1];
  }

  lemma FirstEquals(y: string, rest: string) returns (e: nat)
    requires '=' in y
    ensures e < |y| && Find(y + rest, "=", 0) == Some(e)
  {
    hide Find;
    e := 0;
    while y[e] != '='
      invariant e < |y| && '=' in y[e..]
      invariant '=' !in y[..e]
      decreases |y| - e
    {
      assert y[e..] == [y[e]] + y[e + 1..];
      assert y[..e + 1] == y[..e] + [y[e]];
      e := e + 1;
    }
    FindByte(y[..e], '=', y[e + 1..] + rest);
    assert y[..e] + ['='] + (y[e + 1..] + rest) == y + rest;
  }

  /** After other text, `key=` is not a key of its own: that text, or part of it, is. */
  lemma MixedLine(num: Numerals, x: string, key: string, w: string, st: Ini, name: string, n: nat)
    requires !AllSpace(x) && IsKey(key) && w != "" && !IsSpace(w[|w| - 1]) && n > 0
    requires name != "" && Lacks(Some(st), name, key, Str(Zs(n)))
    ensures Lacks(ReadLine(num, x + KeyPrefix(key) + w, st), name, key, Str(Zs(n)))
  {
    hide *;
    MixedTrims(x, KeyPrefix(key), w);
    var eq := KeyOfMixed(num, x[SkipSpace(x)..], key, w, n);
    LineLacks(num, x + KeyPrefix(key) + w, eq, st, name, key, Str(Zs(n)));
  }

  lemma LineLacks(num: Numerals, line: string, eq: nat, st: Ini, name: string, key: string, v: Value)
    requires name != "" && Lacks(Some(st), name, key, v)
    requires var t := Trim(line);
      && Find(t, "=", 0) == Some(eq) && eq < |t|
      && (TrimBlanks(t[..eq]) != key || ParseValue(num, t[eq + 1..]) != v)
    ensures Lacks(ReadLine(num, line, st), name, key, v)
  {
    hide Trim, ParseValue, Lacks, Assign, Enter, TrimBlanks, Find;
    var t := Trim(line);
    if t[0] == '[' {
      var end := Find(t, "]", 0);
      if end.Some? {
        EnterLacks(st, t[1..end.value], name, key, v);
      }
    } else if t[0] != ';' && t[0] != '#' {
      AssignLacks(st, TrimBlanks(t[..eq]), ParseValue(num, t[eq + 1..]), name, key, v);
    }
  }

  lemma KeyOfMixed(num: Numerals, y: string, key: string, w: string, n: nat) returns (eq: nat)
    requires y != "" && IsKey(key) && n > 0
    ensures var t := y + KeyPrefix(key) + w;
      && Find(t, "=", 0) == Some(eq) && eq < |t|
      && (TrimBlanks(t[..eq]) != key || ParseValue(num, t[eq + 1..]) != Str(Zs(n)))
  {
    hide Find, ParseValue;
    var t := y + KeyPrefix(key) + w;
    if '=' in y {
      eq := FirstEquals(y, KeyPrefix(key) + w);
      assert y + (KeyPrefix(key) + w) == t;
      assert t[eq + 1..][|y| + |key| - eq - 1] == t[|y| + |key|] == '=';
      ValueWithEquals(num, t[eq + 1..], n);
    } else {
      eq := |y + key|;
      FindByte(y + key, '=', w);
      assert t == (y + key) + ['='] + w && t[..eq] == y + key;
      assert TrimBlanks(y + key) == y + key;
    }
  }

  /** In another section, the line sets that section's key. */
  lemma OtherSectionLine(num: Numerals, key: string, w: string, st: Ini, name: string, v: Value)
    requires IsKey(key) && name != "" && st.section != name && Lacks(Some(st), name, key, v)
    ensures Lacks(ReadLine(num, KeyPrefix(key) + w, st), name, key, v)
  {
    hide ReadLine, ParseValue, Lacks, Assign, IsKey;
    ReadSetting(num, key, w, st);
    AssignLacks(st, key, ParseValue(num, w), name, key, v);
  }

  // ---------- Which section lines are in ----------

  /** The reader takes the line for the header of section `name`. */
  ghost predicate Opens(line: string, name: string) {
    var t := Trim(line);
    t != "" && t[0] == '[' && var end := Find(t, "]", 0); end.Some? && 1 <= end.value <= |t| && t[1..end.value] == name
  }

  ghost predicate NoneOpensAs(lines: seq<string>, name: string) {
    forall i :: 0 <= i < |lines| ==> !Opens(lines[i], name)
  }

  lemma StaysOutside(num: Numerals, line: string, st: Ini, name: string)
    requires !Opens(line, name) && st.section != name
    ensures var r := ReadLine(num, line, st); r.Some? ==> r.value.section != name
  {
    hide Trim, ParseValue, Find, TrimBlanks;
  }

  lemma {:induction false} StayOutside(num: Numerals, lines: seq<string>, st: Option<Ini>, name: string)
    requires NoneOpensAs(lines, name) && (st.Some? ==> st.value.section != name)
    ensures var r := ReadLines(num, lines, st); r.Some? ==> r.value.section != name
    decreases |lines|
  {
    hide ReadLine, Opens;
    if st.None? || lines == [] {
    } else {
      StaysOutside(num, lines[0], st.value, name);
      StayOutside(num, lines[1..], ReadLine(num, lines[0], st.value), name);
    }
  }

  lemma ItemOpensNothing(item: Item, name: string)
    requires IsItem(item)
    ensures !Opens(ItemLine(item), name)
  {
    hide Find;
    match item {
      case Note(text) =>
      case Setting(key, value) =>
        KeyLineTrims(key, value);
        hide Trim;
        assert Trim(ItemLine(item))[0] == key[0];
    }
  }

  lemma HeaderOpens(section: string, name: string)
    requires IsName(section) && Opens(Header(section), name)
    ensures section == name
  {
    hide Find;
    var t := Header(section);
    TrimOfTrimmed(t);
    assert ']' !in "[" + section;
    FindByte("[" + section, ']', "");
    assert t == "[" + section + [']'] + "" && t[1..|section| + 1] == section;
    hide Trim, Header;
  }

  lemma {:induction false} ItemsOpenNothing(items: seq<Item>, name: string)
    requires forall i :: 0 <= i < |items| ==> IsItem(items[i])
    ensures NoneOpensAs(ItemLines(items), name)
    decreases |items|
  {
    hide IsItem, Opens, ItemLine;
    if items == [] {
    } else {
      ItemOpensNothing(items[0], name);
      ItemsOpenNothing(items[1..], name);
    }
  }

  lemma {:induction false} OthersOpenOthers(sections: seq<Section>, name: string)
    requires forall i :: 0 <= i < |sections| ==> IsName(sections[i].name) && AreItems(sections[i].items)
    requires forall i :: 0 <= i < |sections| ==> sections[i].name != name
    ensures NoneOpensAs(SectionLines(sections), name)
    decreases |sections|
  {
    hide IsItem, Opens, ItemLines, Header, IsName;
    if sections == [] {
    } else {
      if Opens(Header(sections[0].name), name) {
        HeaderOpens(sections[0].name, name);
      }
      ItemsOpenNothing(sections[0].items, name);
      OthersOpenOthers(sections[1..], name);
    }
  }

  /** Before its header, no line is in the section. */
  lemma OutsideBefore(doc: Document, name: string)
    requires IsCanonical(doc)
    ensures var i := SectionIndex(doc.sections, name);
      NoneOpensAs(ItemLines(doc.preamble) + SectionLines(doc.sections[..i]), name)
  {
    hide IsItem, Opens, ItemLines, SectionLines, IsName, SectionIndex;
    ItemsOpenNothing(doc.preamble, name);
    OthersOpenOthers(doc.sections[..SectionIndex(doc.sections, name)], name);
  }

  // ---------- Where in the lines an edit lands ----------

  /** Place `at` of the text is in line `k`, after `x`; or the text ends there. */
  ghost predicate At(lines: seq<string>, at: nat, k: nat, x: string) {
    && k <= |lines| && at <= |Join(lines)| && Join(lines)[..at] == Join(lines[..k]) + x
    && (k < |lines| ==> x <= lines[k] && Join(lines)[at..] == lines[k][|x|..] + "\n" + Join(lines[k + 1..]))
    && (k == |lines| ==> x == "" && Join(lines)[at..] == "")
  }

  lemma {:induction false} PositionIn(lines: seq<string>, at: nat) returns (k: nat, x: string)
    requires at <= |Join(lines)|
    ensures At(lines, at, k, x)
  {
    hide *;
    JoinNone();
    if lines == [] {
      k, x := 0, "";
      AtIs(lines, at, k, x);
    } else {
      var line, later := lines[0], lines[1..];
      JoinUnfold(lines);
      if at <= |line| {
        k, x := 0, line[..at];
        FirstLine(line, Join(later), at);
        assert lines[..0] == [];
        AtIs(lines, at, k, x);
      } else {
        k, x := PositionIn(later, at - |line| - 1);
        JoinOne(line);
        AtAfter([line], later, at - |line| - 1, k, x);
        assert [line] + later == lines;
        k := k + 1;
      }
    }
  }

  lemma FirstLine(line: string, later: string, at: nat)
    requires at <= |line|
    ensures var t := line + "\n" + later; t[..at] == "" + line[..at] && t[at..] == line[at..] + "\n" + later
  {
  }

  lemma AtBefore(b: seq<string>, c: seq<string>, at: nat, k: nat, x: string)
    requires At(b, at, k, x)
    ensures At(b + c, at, k, x)
  {
    hide *;
    AtIs(b, at, k, x);
    FrontOf(Join(b), Join(c), at);
    JoinConcat(b, c);
    FrontLines(b, c, k);
    if k < |b| {
      JoinConcat(b[k + 1..], c);
      Associate(b[k][|x|..], Join(b[k + 1..]), Join(c));
    } else if c == [] {
      JoinNone();
    } else {
      JoinUnfold(c);
      NoneBefore(c[0]);
    }
    AtIs(b + c, at, k, x);
  }

  lemma FrontLines(b: seq<string>, c: seq<string>, k: nat)
    requires k <= |b|
    ensures |b + c| == |b| + |c| && (b + c)[..k] == b[..k]
    ensures k < |b| ==> (b + c)[k] == b[k] && (b + c)[k + 1..] == b[k + 1..] + c
    ensures k == |b| && c != [] ==> (b + c)[k] == c[0] && (b + c)[k + 1..] == c[1..]
  {
  }

  lemma NoneBefore(line: string)
    ensures "" <= line && line[|""|..] == line
  {
  }

  lemma AtAfter(pre: seq<string>, b: seq<string>, at: nat, k: nat, x: string)
    requires At(b, at, k, x)
    ensures At(pre + b, |Join(pre)| + at, |pre| + k, x)
  {
    hide *;
    AtIs(b, at, k, x);
    BackOf(Join(pre), Join(b), at);
    JoinConcat(pre, b);
    JoinConcat(pre, b[..k]);
    Before(Join(pre), Join(b[..k]), x);
    ShiftedLines(pre, b, k);
    AtIs(pre + b, |Join(pre)| + at, |pre| + k, x);
  }

  lemma ShiftedLines(pre: seq<string>, b: seq<string>, k: nat)
    requires k <= |b|
    ensures |pre + b| == |pre| + |b| && (pre + b)[..|pre| + k] == pre + b[..k]
    ensures k < |b| ==> (pre + b)[|pre| + k] == b[k] && (pre + b)[|pre| + k + 1..] == b[k + 1..]
  {
  }

  lemma Before(a: string, b: string, x: string)
    ensures a + (b + x) == a + b + x
  {
  }

  lemma AtIs(lines: seq<string>, at: nat, k: nat, x: string)
    ensures At(lines, at, k, x) <==>
      && k <= |lines| && at <= |Join(lines)| && Join(lines)[..at] == Join(lines[..k]) + x
      && (k < |lines| ==> x <= lines[k] && Join(lines)[at..] == lines[k][|x|..] + "\n" + Join(lines[k + 1..]))
      && (k == |lines| ==> x == "" && Join(lines)[at..] == "")
  {
    hide Join;
  }

  lemma AtInside(b: seq<string>, at: nat, k: nat, x: string)
    requires At(b, at, k, x) && at < |Join(b)|
    ensures k < |b|
  {
    hide Join;
  }

  /** A place in the middle lines of a text. */
  lemma Position(pre: seq<string>, b: seq<string>, c: seq<string>, at: nat) returns (k: nat, x: string)
    requires |Join(pre)| <= at <= |Join(pre)| + |Join(b)|
    ensures |pre| <= k <= |pre| + |b| && At(pre + b + c, at, k, x)
    ensures at < |Join(pre)| + |Join(b)| ==> k < |pre| + |b|
  {
    hide *;
    var n := at - |Join(pre)|;
    var j, y := PositionIn(b, n);
    k, x := |pre| + j, y;
    AtAfter(pre, b, n, j, y);
    AtBefore(pre + b, c, at, k, y);
    if n < |Join(b)| {
      AtInside(b, n, j, y);
    }
    AtBounds(b, n, j, y);
  }

  lemma AtBounds(b: seq<string>, at: nat, k: nat, x: string)
    requires At(b, at, k, x)
    ensures k <= |b|
  {
    hide Join;
  }

  lemma FrontOf(b: string, c: string, at: nat)
    requires at <= |b|
    ensures (b + c)[..at] == b[..at] && (b + c)[at..] == b[at..] + c
  {
  }

  lemma BackOf(a: string, b: string, at: nat)
    requires at <= |b|
    ensures (a + b)[..|a| + at] == a + b[..at] && (a + b)[|a| + at..] == b[at..]
  {
  }

  lemma Associate(y: string, b: string, c: string)
    ensures y + "\n" + b + c == y + "\n" + (b + c)
  {
  }

  lemma LineEndHere(t: string, at: nat, l: string, later: string)
    requires at <= |t| && t[at..] == l + "\n" + later && '\n' !in l
    ensures LineEnd(t, at) == at + |l| < |t|
    ensures t[at..at + |l|] == l && t[at + |l|..] == "\n" + later
  {
    hide LineEnd;
    assert t[at..][..|l|] == l && t[at..][|l|..] == "\n" + later && t[at..][|l|] == '\n';
    LineEndIs(t, at, at + |l|);
  }

  /** Replacing a setting's text rewrites the rest of its line. */
  lemma ReplacedLines(lines: seq<string>, at: nat, k: nat, x: string, key: string, value: string, w: string)
    requires At(lines, at, k, x) && AreLines(lines) && IsKey(key) && OccursAt(Join(lines), KeyPrefix(key), at)
    requires forall existing :: Format(existing, value) == w
    ensures k < |lines| && KeyAfter(lines[k], key, x)
    ensures at + |KeyPrefix(key)| <= |Join(lines)|
    ensures ReplaceLine(Join(lines), at, key, value)
         == Join(lines[..k] + [x + KeyPrefix(key) + w] + lines[k + 1..])
  {
    hide *;
    var t, p := Join(lines), KeyPrefix(key);
    PrefixIsPlain(key);
    AtIs(lines, at, k, x);
    OccursBounds(t, p, at);
    assert k < |lines|;
    var l := lines[k][|x|..];
    LineIsPlain(lines, k, x);
    LineEndHere(t, at, l, Join(lines[k + 1..]));
    ConfigIdempotence.PrefixHere(t, at, p);
    KeyAfterIs(t, at, l, lines[k], key, x);
    ConfigIdempotence.ReplacedAs(t, at, key, value);
    ThreeParts(lines[..k], x + p + w, lines[k + 1..]);
    Regrouped(Join(lines[..k]), x, p, w, Join(lines[k + 1..]));
  }

  lemma OccursBounds(t: string, p: string, at: nat)
    requires OccursAt(t, p, at)
    ensures at + |p| <= |t| && t[at..at + |p|] == p
  {
  }

  lemma LineIsPlain(lines: seq<string>, k: nat, x: string)
    requires AreLines(lines) && k < |lines| && x <= lines[k]
    ensures '\n' !in x && '\n' !in lines[k][|x|..] && '\n' !in lines[k]
  {
    assert '\n' !in lines[k];
  }

  /** In the line, `key=` comes right after `x`. */
  ghost predicate KeyAfter(line: string, key: string, x: string) {
    x <= line && KeyPrefix(key) <= line[|x|..]
  }

  lemma KeyAfterIs(t: string, at: nat, l: string, line: string, key: string, x: string)
    requires x <= line && l == line[|x|..] && at + |l| <= |t| && t[at..at + |l|] == l
    requires at + |KeyPrefix(key)| <= at + |l| && t[at..at + |KeyPrefix(key)|] == KeyPrefix(key)
    ensures KeyAfter(line, key, x)
  {
    hide KeyPrefix;
    assert l[..|KeyPrefix(key)|] == t[at..at + |KeyPrefix(key)|];
  }

  lemma Regrouped(a: string, x: string, p: string, w: string, later: string)
    ensures a + x + p + w + ("\n" + later) == a + ((x + p + w) + "\n" + later)
    ensures a + x + p + w + "\n" + later == a + ((x + p + w) + "\n" + later)
  {
  }

  /** What follows a place in the text, as lines. */
  function LinesFromPlace(lines: seq<string>, k: nat, x: string): seq<string>
    requires k < |lines| ==> |x| <= |lines[k]|
  {
    if k < |lines| then [lines[k][|x|..]] + lines[k + 1..] else []
  }

  lemma JoinFromPlace(lines: seq<string>, at: nat, k: nat, x: string)
    requires At(lines, at, k, x)
    ensures at <= |Join(lines)| && (k < |lines| ==> |x| <= |lines[k]|)
    ensures Join(LinesFromPlace(lines, k, x)) == Join(lines)[at..]
  {
    if k < |lines| {
      JoinUnfold(LinesFromPlace(lines, k, x));
      assert LinesFromPlace(lines, k, x)[1..] == lines[k + 1..];
    } else {
      assert Join([]) == "";
    }
    hide Join;
  }

  /** Inserting a setting breaks a line in two, with the setting at the end of the first half. */
  lemma InsertedLines(lines: seq<string>, from: nat, at: nat, k: nat, x: string, key: string, value: string, w: string)
    requires from <= |Join(lines)| && At(lines, at, k, x)
    requires at == if from < |Join(lines)| && Join(lines)[from] == '\n' then from + 1 else from
    requires Format("", value) == w
    ensures k < |lines| ==> |x| <= |lines[k]|
    ensures InsertLine(Join(lines), from, key, value)
         == Join(lines[..k] + [x + KeyPrefix(key) + w] + LinesFromPlace(lines, k, x))
  {
    hide *;
    var t, p := Join(lines), KeyPrefix(key);
    AtIs(lines, at, k, x);
    JoinFromPlace(lines, at, k, x);
    ConfigIdempotence.InsertedAs(t, from, at, key, value);
    var rest := LinesFromPlace(lines, k, x);
    ThreeParts(lines[..k], x + p + w, rest);
    Regrouped(Join(lines[..k]), x, p, w, Join(rest));
  }

  // ---------- Lines of canonical files ----------

  /** Blanks come before no key. */
  ghost predicate NotIndented(line: string, key: string) {
    forall x :: KeyAfter(line, key, x) && AllSpace(x) ==> x == ""
  }

  ghost predicate NoneIndented(lines: seq<string>, key: string) {
    forall i :: 0 <= i < |lines| ==> NotIndented(lines[i], key)
  }

  lemma TrimsToKey(line: string, key: string, x: string)
    requires KeyAfter(line, key, x) && AllSpace(x) && IsKey(key)
    ensures Trim(line) != "" && Trim(line)[0] == key[0] && '=' in Trim(line)
    ensures x != "" ==> IsSpace(line[0])
  {
    var p, y := KeyPrefix(key), line[|x|..];
    assert line == x + y && line[|x|] == key[0];
    SkipSpaceIs(line, |x|);
    assert y[|key|] == '=';
    TrimKeeps(line, '=');
    hide SkipSpace;
    var t := Trim(line);
    assert t <= y;
  }

  lemma ItemWithKey(item: Item, key: string, x: string)
    requires IsItem(item) && IsKey(key) && KeyAfter(ItemLine(item), key, x) && AllSpace(x)
    ensures x == "" && item.Setting? && item.key == key
  {
    TrimsToKey(ItemLine(item), key, x);
    hide Trim, AllSpace;
    match item {
      case Note(text) =>
        assert false;
      case Setting(k, v) =>
        assert ItemLine(item)[0] == k[0];
        var line := ItemLine(item);
        assert x == "";
        assert line[|x|..] == line && KeyPrefix(key) <= line;
        SameKey(k, v, key);
    }
  }

  lemma SameKey(k: string, v: string, key: string)
    requires KeyPrefix(key) <= KeyPrefix(k) + v && '=' !in k && '=' !in key
    ensures k == key
  {
    hide Find;
    var line := KeyPrefix(k) + v;
    var rest := line[|key| + 1..];
    assert line == key + ['='] + rest == k + ['='] + v;
    FindByte(key, '=', rest);
    FindByte(k, '=', v);
  }

  lemma {:induction false} ItemsNotIndented(items: seq<Item>, key: string)
    requires (forall i :: 0 <= i < |items| ==> IsItem(items[i])) && IsKey(key)
    ensures NoneIndented(ItemLines(items), key)
    decreases |items|
  {
    hide IsItem, ItemLine, IsKey, KeyAfter, AllSpace;
    if items == [] {
    } else {
      forall x | KeyAfter(ItemLine(items[0]), key, x) && AllSpace(x)
        ensures x == ""
      {
        ItemWithKey(items[0], key, x);
      }
      ItemsNotIndented(items[1..], key);
    }
  }

  lemma HeaderNotIndented(name: string, key: string)
    requires IsKey(key)
    ensures NotIndented(Header(name), key)
  {
    hide KeyAfter, AllSpace, Header, IsKey;
    forall x
      ensures !(KeyAfter(Header(name), key, x) && AllSpace(x))
    {
      HeaderIsNoKey(name, key, x);
    }
  }

  lemma HeaderIsNoKey(name: string, key: string, x: string)
    requires IsKey(key)
    ensures !(KeyAfter(Header(name), key, x) && AllSpace(x))
  {
    HeaderTrims(name, key);
    hide KeyAfter, AllSpace, Header, IsKey, Trim;
    if KeyAfter(Header(name), key, x) && AllSpace(x) {
      TrimsToKey(Header(name), key, x);
    }
  }

  lemma HeaderTrims(name: string, key: string)
    requires IsKey(key)
    ensures Trim(Header(name))[0] != key[0]
  {
    TrimOfTrimmed(Header(name));
  }

  lemma {:induction false} SectionsNotIndented(sections: seq<Section>, key: string)
    requires forall i :: 0 <= i < |sections| ==> AreItems(sections[i].items)
    requires IsKey(key)
    ensures NoneIndented(SectionLines(sections), key)
    decreases |sections|
  {
    hide IsItem, IsKey, NotIndented, ItemLines, Header;
    if sections == [] {
    } else {
      HeaderNotIndented(sections[0].name, key);
      ItemsNotIndented(sections[0].items, key);
      SectionsNotIndented(sections[1..], key);
    }
  }

  lemma CanonicalNotIndented(doc: Document, key: string)
    requires IsCanonical(doc) && IsKey(key)
    ensures NoneIndented(Lines(doc), key)
  {
    hide IsItem, IsKey, NotIndented, ItemLines, SectionLines, IsName;
    ItemsNotIndented(doc.preamble, key);
    SectionsNotIndented(doc.sections, key);
  }

  lemma {:induction false} LineShorter(lines: seq<string>, i: nat)
    requires i < |lines|
    ensures |lines[i]| < |Join(lines)|
  {
    ThreeParts(lines[..i], lines[i], lines[i + 1..]);
    assert lines == lines[..i] + [lines[i]] + lines[i + 1..];
    hide Join;
  }

  // ---------- The edit of a file in which the searches are misled ----------

  /** Lines before, the text before the setting in its line, and lines after it. */
  datatype Edit = Edit(before: seq<string>, x: string, later: seq<string>)

  predicate AreShort(lines: seq<string>, n: nat) {
    forall i :: 0 <= i < |lines| ==> |lines[i]| <= n
  }

  /** The new text is the old one, in shorter lines, around a line that does not set the setting. */
  ghost predicate Misses(t: string, e: Edit, name: string) {
    && AreLines(e.before) && AreLines(e.later) && '\n' !in e.x
    && AreShort(e.before, |t|) && AreShort(e.later, |t|)
    && (AllSpace(e.x) ==> e.x == "" && NoneOpensAs(e.before, name))
  }

  function EditedLines(e: Edit, key: string, w: string): seq<string> {
    e.before + [e.x + KeyPrefix(key) + w] + e.later
  }

  lemma MissedBefore(num: Numerals, t: string, e: Edit, name: string, key: string, n: nat)
    requires Misses(t, e, name) && name != "" && |t| < n
    ensures var st := ReadLines(num, e.before, Some(EMPTY));
      Lacks(st, name, key, Str(Zs(n))) && (AllSpace(e.x) && st.Some? ==> st.value.section != name)
  {
    hide ReadLines, NoneOpensAs, AllSpace;
    assert Lacks(Some(EMPTY), name, key, Str(Zs(n)));
    ShortLines(num, e.before, Some(EMPTY), name, key, n);
    if AllSpace(e.x) {
      StayOutside(num, e.before, Some(EMPTY), name);
    }
  }

  lemma MissedLine(num: Numerals, t: string, e: Edit, st: Ini, name: string, key: string, n: nat)
    requires Misses(t, e, name) && name != "" && IsKey(key) && n > 0
    requires Lacks(Some(st), name, key, Str(Zs(n))) && (AllSpace(e.x) ==> st.section != name)
    ensures Lacks(ReadLine(num, e.x + KeyPrefix(key) + ("\"" + Zs(n) + "\""), st), name, key, Str(Zs(n)))
  {
    hide ReadLine, AllSpace, IsKey, Lacks, KeyPrefix, NoneOpensAs;
    var w := "\"" + Zs(n) + "\"";
    if AllSpace(e.x) {
      assert "" + KeyPrefix(key) + w == KeyPrefix(key) + w;
      OtherSectionLine(num, key, w, st, name, Str(Zs(n)));
    } else {
      MixedLine(num, e.x, key, w, st, name, n);
    }
  }

  lemma NoNewlineIn(x: string, p: string, n: nat)
    requires '\n' !in x && '\n' !in p
    ensures '\n' !in x + p + ("\"" + Zs(n) + "\"")
  {
  }

  /** A reader of the new text does not find the new value. */
  lemma MissedReads(num: Numerals, t: string, e: Edit, name: string, key: string, n: nat)
    requires Misses(t, e, name) && name != "" && IsKey(key) && |t| < n
    ensures Lacks(Read(num, Join(EditedLines(e, key, "\"" + Zs(n) + "\""))), name, key, Str(Zs(n)))
  {
    var line := e.x + KeyPrefix(key) + ("\"" + Zs(n) + "\"");
    PrefixIsPlain(key);
    NoNewlineIn(e.x, KeyPrefix(key), n);
    var lines := e.before + [line] + e.later;
    assert AreLines(lines);
    MissedBefore(num, t, e, name, key, n);
    hide ReadText, ReadLine, Join, AllSpace, IsKey, Lacks, NoneOpensAs, KeyPrefix;
    ReadTerminated(num, lines, Some(EMPTY));
    ReadLinesConcat(num, e.before + [line], e.later, Some(EMPTY));
    ReadLinesConcat(num, e.before, [line], Some(EMPTY));
    var st := ReadLines(num, e.before, Some(EMPTY));
    var st' := ReadLines(num, [line], st);
    assert Lacks(st', name, key, Str(Zs(n))) by {
      assert [line][1..] == [];
      if st.Some? {
        MissedLine(num, t, e, st.value, name, key, n);
      }
    }
    ShortLines(num, e.later, st', name, key, n);
  }

  lemma PartsShorter(lines: seq<string>, k: nat, x: string)
    requires k <= |lines| && (k < |lines| ==> |x| <= |lines[k]|)
    ensures AreShort(lines[..k], |Join(lines)|) && AreShort(LinesFromPlace(lines, k, x), |Join(lines)|)
    ensures k < |lines| ==> AreShort(lines[k + 1..], |Join(lines)|)
  {
    hide Join;
    forall i | 0 <= i < |lines|
      ensures |lines[i]| <= |Join(lines)|
    {
      LineShorter(lines, i);
    }
  }

  /** Replacing text that is not the setting's own, and that comes before its section or after other text. */
  lemma ReplaceMisses(lines: seq<string>, at: nat, k: nat, x: string, name: string, key: string, value: string,
                      w: string)
    returns (e: Edit)
    requires At(lines, at, k, x) && AreLines(lines) && IsKey(key) && OccursAt(Join(lines), KeyPrefix(key), at)
    requires forall existing :: Format(existing, value) == w
    requires k < |lines| && (AllSpace(x) ==> x == "" && NoneOpensAs(lines[..k], name))
    ensures at + |KeyPrefix(key)| <= |Join(lines)| && Misses(Join(lines), e, name)
    ensures ReplaceLine(Join(lines), at, key, value) == Join(EditedLines(e, key, w))
  {
    hide Join, AllSpace, OccursAt, Format, NoneOpensAs, KeyPrefix, ReplaceLine, IsKey, LinesFromPlace;
    ReplacedLines(lines, at, k, x, key, value, w);
    e := Edit(lines[..k], x, lines[k + 1..]);
    PartsShorter(lines, k, x);
    LineIsPlain(lines, k, x);
  }

  lemma InsertMisses(lines: seq<string>, from: nat, at: nat, k: nat, x: string, name: string, key: string,
                     value: string, w: string)
    returns (e: Edit)
    requires from <= |Join(lines)| && At(lines, at, k, x) && AreLines(lines)
    requires at == if from < |Join(lines)| && Join(lines)[from] == '\n' then from + 1 else from
    requires Format("", value) == w
    requires AllSpace(x) ==> x == "" && NoneOpensAs(lines[..k], name)
    ensures Misses(Join(lines), e, name)
    ensures InsertLine(Join(lines), from, key, value) == Join(EditedLines(e, key, w))
  {
    hide Join, AllSpace, Format, NoneOpensAs, KeyPrefix, InsertLine;
    InsertedLines(lines, from, at, k, x, key, value, w);
    e := Edit(lines[..k], x, LinesFromPlace(lines, k, x));
    PartsShorter(lines, k, x);
    if k < |lines| {
      LineIsPlain(lines, k, x);
    }
  }

  /** What some line contains occurs within the text of the lines. */
  lemma ContainedOccurs(lines: seq<string>, p: string, rest: string) returns (q: nat)
    requires !NoneContains(lines, p) && p != ""
    ensures OccursAt(Join(lines) + rest, p, q) && q + |p| < |Join(lines)|
  {
    hide *;
    var m := FirstContaining(lines, p);
    var off := ContainedAt(lines[m], p);
    assert lines == lines[..m] + [lines[m]] + lines[m + 1..];
    ThreeParts(lines[..m], lines[m], lines[m + 1..]);
    q := |Join(lines[..m])| + off;
    LineWithin(Join(lines[..m]), lines[m], Join(lines[m + 1..]), rest);
    OccursDeeper(Join(lines[..m]), lines[m], "\n" + Join(lines[m + 1..]) + rest, p, off);
  }

  lemma FirstContaining(lines: seq<string>, p: string) returns (m: nat)
    requires !NoneContains(lines, p)
    ensures m < |lines| && Contains(lines[m], p)
  {
    m :| 0 <= m < |lines| && Contains(lines[m], p);
  }

  lemma ContainedAt(line: string, p: string) returns (off: nat)
    requires Contains(line, p)
    ensures OccursAt(line, p, off) && off + |p| <= |line|
  {
    hide Find;
    off := Find(line, p, 0).value;
  }

  lemma LineWithin(before: string, line: string, later: string, rest: string)
    ensures before + (line + "\n" + later) + rest == before + (line + ("\n" + later + rest))
  {
  }

  lemma OccursDeeper(before: string, line: string, later: string, p: string, off: nat)
    requires OccursAt(line, p, off)
    ensures OccursAt(before + (line + later), p, |before| + off)
  {
    var t := before + (line + later);
    assert t[|before| + off..|before| + off + |p|] == line[off..off + |p|];
  }

  lemma SplitAt(doc: Document, i: nat)
    requires i <= |doc.sections|
    ensures Lines(doc) == ItemLines(doc.preamble) + SectionLines(doc.sections[..i]) + SectionLines(doc.sections[i..])
  {
    assert doc.sections == doc.sections[..i] + doc.sections[i..];
    SectionLinesConcat(doc.sections[..i], doc.sections[i..]);
    hide SectionLines, ItemLines;
  }

  lemma CanonicalOpens(doc: Document, i: nat)
    requires IsCanonical(doc) && i <= |doc.sections|
    ensures var rest := Join(SectionLines(doc.sections[i..])); rest == "" || rest[0] == '['
  {
    hide IsName, AreItems;
    SectionsOpen(doc.sections[i..]);
  }

  lemma FoundBy(t: string, p: string, from: nat, q: nat) returns (at: nat)
    requires from <= q && OccursAt(t, p, q)
    ensures Find(t, p, from) == Some(at) && from <= at <= q && OccursAt(t, p, at) && at + |p| <= |t|
  {
    hide Find;
    at := Find(t, p, from).value;
  }

  lemma FindOccurs(t: string, p: string, from: nat)
    ensures Find(t, p, from).Some? ==> OccursAt(t, p, Find(t, p, from).value)
  {
    hide Find;
  }

  lemma EndsBefore(a: seq<string>, rest: string, from: nat)
    requires from < |Join(a)| && (rest == "" || rest[0] == '[')
    ensures SectionEnd(Join(a) + rest, from) <= |Join(a)|
  {
    JoinEnds(a);
    hide Join;
    var t, n := Join(a) + rest, |Join(a)|;
    SectionEndBounds(t, from);
    if rest != "" {
      assert t[n - 1..n + 1] == "\n[";
      var end := FoundBy(t, "\n[", from, n - 1);
    }
  }

  lemma PositionBefore(a: seq<string>, c: seq<string>, at: nat) returns (k: nat, x: string)
    requires at <= |Join(a)|
    ensures k <= |a| && At(a + c, at, k, x)
  {
    hide *;
    JoinNone();
    k, x := Position([], a, c, at);
    assert [] + a + c == a + c;
  }

  lemma JoinNone()
    ensures Join([]) == ""
  {
  }

  lemma PlaceIsPlain(lines: seq<string>, k: nat, key: string, x: string)
    requires NoneIndented(lines, key) && k < |lines| && KeyAfter(lines[k], key, x)
    ensures AllSpace(x) ==> x == ""
  {
    assert NotIndented(lines[k], key);
  }

  lemma FirstOpensNothing(a: seq<string>, c: seq<string>, k: nat, name: string)
    requires NoneOpensAs(a, name) && k <= |a|
    ensures NoneOpensAs((a + c)[..k], name)
  {
    hide Opens;
    assert forall i :: 0 <= i < k ==> (a + c)[..k][i] == a[i];
  }

  /** An insertion comes at the beginning of a line, or after the header's last bracket. */
  lemma InsertedAfter(lines: seq<string>, name: string, sp: nat, at: nat, k: nat, x: string)
    requires At(lines, at, k, x) && AreLines(lines) && OccursAt(Join(lines), Header(name), sp)
    requires var t, from := Join(lines), sp + |Header(name)|;
      at == if from < |t| && t[from] == '\n' then from + 1 else from
    ensures AllSpace(x) ==> x == ""
  {
    hide Join;
    var t, h := Join(lines), Header(name);
    assert h[|h| - 1] == ']' && t[sp..sp + |h|] == h;
    assert t[sp + |h| - 1] == t[sp..sp + |h|][|h| - 1];
    if x != "" {
      LineIsPlain(lines, k, x);
      assert t[..at][at - 1] == x[|x| - 1];
    }
  }

  /** The header occurs before the section begins, or in a file without the section. */
  lemma HeaderMisleads(doc: Document, name: string, key: string, value: string, w: string) returns (e: Edit)
    requires IsCanonical(doc) && IsName(name) && IsKey(key) && (forall existing :: Format(existing, value) == w)
    requires var i := SectionIndex(doc.sections, name);
      !NoneContains(ItemLines(doc.preamble) + SectionLines(doc.sections[..i]), Header(name))
    ensures Misses(Join(Lines(doc)), e, name)
    ensures SetText(Join(Lines(doc)), name, key, value) == Some(Join(EditedLines(e, key, w)))
  {
    hide *;
    var i := SectionIndex(doc.sections, name);
    var a, c := ItemLines(doc.preamble) + SectionLines(doc.sections[..i]), SectionLines(doc.sections[i..]);
    SplitAt(doc, i);
    JoinConcat(a, c);
    HeaderIsLine(name);
    PrefixIsPlain(key);
    CanonicalLines(doc);
    CanonicalNotIndented(doc, key);
    OutsideBefore(doc, name);
    var h, p, t := Header(name), KeyPrefix(key), Join(Lines(doc));
    var q := ContainedOccurs(a, h, Join(c));
    var sp := FoundBy(t, h, 0, q);
    var from := sp + |h|;
    CanonicalOpens(doc, i);
    EndsBefore(a, Join(c), from);
    var found := Find(t, p, from);
    if found.Some? && found.value < SectionEnd(t, from) {
      SetReplaces(t, name, key, value, sp, found.value);
      var k, x := PositionBefore(a, c, found.value);
      FindOccurs(t, p, from);
      ReplacedLines(a + c, found.value, k, x, key, value, w);
      PlaceIsPlain(a + c, k, key, x);
      FirstOpensNothing(a, c, k, name);
      e := ReplaceMisses(a + c, found.value, k, x, name, key, value, w);
    } else {
      SetInserts(t, name, key, value, sp);
      var at := if from < |t| && t[from] == '\n' then from + 1 else from;
      var k, x := PositionBefore(a, c, at);
      InsertedAfter(a + c, name, sp, at, k, x);
      FirstOpensNothing(a, c, k, name);
      e := InsertMisses(a + c, from, at, k, x, name, key, value, w);
    }
  }

  lemma SectionEndInside(t: string, from: nat, b1: seq<string>, b2: seq<string>, rest: string)
    requires AreLines(b1 + b2) && NoneOpens(b1 + b2) && (rest == "" || rest[0] == '[')
    requires from <= |t| && t[from..] == "\n" + (Join(b1 + b2) + rest)
    ensures from + |Join(b1)| <= SectionEnd(t, from)
  {
    hide *;
    SectionEndIs(t, from, b1 + b2, rest);
    JoinConcat(b1, b2);
    assert |t[from..]| == 1 + |Join(b1 + b2)| + |rest|;
  }

  /** A search that starts on a newline finds nothing there. */
  lemma FoundLater(t: string, p: string, from: nat, q: nat) returns (at: nat)
    requires from < |t| && t[from] == '\n' && p != "" && '\n' !in p && from <= q && OccursAt(t, p, q)
    ensures Find(t, p, from) == Some(at) && from < at <= q && OccursAt(t, p, at)
  {
    SpansNewline(t, p, from, from);
    at := FoundBy(t, p, from, q);
  }

  /** The lines of the file around the section. */
  lemma SectionParts(doc: Document, i: nat, j: nat)
    requires i < |doc.sections| && j <= |doc.sections[i].items|
    ensures var a, h := ItemLines(doc.preamble) + SectionLines(doc.sections[..i]), Header(doc.sections[i].name);
      var items, later := doc.sections[i].items, SectionLines(doc.sections[i + 1..]);
      var b1, b2 := ItemLines(items[..j]), ItemLines(items[j..]);
      && ItemLines(items) == b1 + b2
      && Lines(doc) == (a + [h]) + b1 + (b2 + later)
      && Join(a + [h]) == Join(a) + h + "\n"
      && Join(Lines(doc)) == Join(a) + (h + ("\n" + (Join(b1 + b2) + Join(later))))
      && Join(Lines(doc)) == Join(a + [h]) + (Join(b1) + Join(b2 + later))
  {
    hide *;
    var a, h := ItemLines(doc.preamble) + SectionLines(doc.sections[..i]), Header(doc.sections[i].name);
    var items, later := doc.sections[i].items, SectionLines(doc.sections[i + 1..]);
    var b1, b2 := ItemLines(items[..j]), ItemLines(items[j..]);
    assert items == items[..j] + items[j..];
    ItemLinesConcat(items[..j], items[j..]);
    LinesAt(doc, i);
    assert a + [h] + (b1 + b2) + later == (a + [h]) + b1 + (b2 + later);
    JoinConcat(a, [h]);
    JoinOne(h);
    JoinedBefore(a, h, b1 + b2, later);
    assert Join(a) + (h + "\n") == Join(a) + h + "\n";
    JoinConcat(a + [h] + b1, b2 + later);
    JoinConcat(a + [h], b1);
    assert Join(a + [h]) + Join(b1) + Join(b2 + later) == Join(a + [h]) + (Join(b1) + Join(b2 + later));
  }

  /** `key=` occurs in a line of the section before the key's own. */
  lemma KeyMisleads(doc: Document, name: string, key: string, value: string, w: string) returns (e: Edit)
    requires IsCanonical(doc) && IsName(name) && IsKey(key) && (forall existing :: Format(existing, value) == w)
    requires var i := SectionIndex(doc.sections, name);
      && i < |doc.sections|
      && NoneContains(ItemLines(doc.preamble) + SectionLines(doc.sections[..i]), Header(name))
      && var items := doc.sections[i].items;
         !NoneContains(ItemLines(items[..KeyIndex(items, key)]), KeyPrefix(key))
    ensures Misses(Join(Lines(doc)), e, name)
    ensures SetText(Join(Lines(doc)), name, key, value) == Some(Join(EditedLines(e, key, w)))
  {
    hide *;
    var i := SectionIndex(doc.sections, name);
    var items := doc.sections[i].items;
    var j := KeyIndex(items, key);
    var a := ItemLines(doc.preamble) + SectionLines(doc.sections[..i]);
    var h, p, t := Header(name), KeyPrefix(key), Join(Lines(doc));
    var b1, b2, later := ItemLines(items[..j]), ItemLines(items[j..]), SectionLines(doc.sections[i + 1..]);
    SectionParts(doc, i, j);
    CanonicalSection(doc, i);
    HeaderIsLine(name);
    PrefixIsPlain(key);
    CanonicalLines(doc);
    SectionSearch(t, a, h, ItemLines(items), Join(later));
    var pre, c := a + [h], b2 + later;
    var from := |Join(a)| + |h|;
    SectionEndInside(t, from, b1, b2, Join(later));
    var q := ContainedOccurs(b1, p, Join(c));
    ShiftOccurs(Join(pre), Join(b1) + Join(c), p, q);
    var at := FoundLater(t, p, from, |Join(pre)| + q);
    SetReplaces(t, name, key, value, |Join(a)|, at);
    var k, x := Position(pre, b1, c, at);
    ReplacedLines(Lines(doc), at, k, x, key, value, w);
    OwnLineOnly(doc, i, j, k - |pre|, key, x);
    assert Lines(doc)[k] == b1[k - |pre|];
    e := ReplaceMisses(Lines(doc), at, k, x, name, key, value, w);
  }

  lemma ShiftOccurs(a: string, b: string, p: string, q: nat)
    requires OccursAt(b, p, q)
    ensures OccursAt(a + b, p, |a| + q)
  {
    assert (a + b)[|a| + q..|a| + q + |p|] == b[q..q + |p|];
  }

  lemma {:induction false} ItemLineAt(items: seq<Item>, m: nat)
    ensures |ItemLines(items)| == |items|
    ensures m < |items| ==> ItemLines(items)[m] == ItemLine(items[m])
    decreases |items|
  {
    hide ItemLine;
    if items == [] {
    } else if m == 0 {
      ItemLineAt(items[1..], 0);
    } else {
      ItemLineAt(items[1..], m - 1);
    }
  }

  /** No line before the key's own begins with it, not even after blanks. */
  lemma OwnLineOnly(doc: Document, i: nat, j: nat, m: nat, key: string, x: string)
    requires IsCanonical(doc) && IsKey(key) && i < |doc.sections| && j == KeyIndex(doc.sections[i].items, key)
    requires var b1 := ItemLines(doc.sections[i].items[..j]); m < |b1| && KeyAfter(b1[m], key, x)
    ensures !AllSpace(x)
  {
    var items := doc.sections[i].items;
    ItemLineAt(items[..j], m);
    assert items[..j][m] == items[m] && IsItem(items[m]);
    hide ItemLine, ItemLines, KeyAfter, AllSpace, IsKey, IsItem, IsName;
    if AllSpace(x) {
      ItemWithKey(items[m], key, x);
    }
  }

  // ---------- Exactly when a setting is read back ----------

  /** Setting `value` and reading the file back gives it as written, and changes no other setting. */
  ghost predicate ReadsAsSet(num: Numerals, doc: Document, name: string, key: string, value: string) {
    var before, written := Join(Lines(doc)), Format(Existing(doc, name, key), value);
    && SetText(before, name, key, value).Some?
    && var after := SetText(before, name, key, value).value;
    && Read(num, before).Some? && Read(num, after).Some?
    && OnlyChanges(Read(num, before).value.root, Read(num, after).value.root, name, key, ParseValue(num, written))
  }

  lemma EditMisses(doc: Document, name: string, key: string, value: string, w: string) returns (e: Edit)
    requires IsCanonical(doc) && IsName(name) && IsKey(key) && (forall existing :: Format(existing, value) == w)
    requires !IsFindable(doc, name, key)
    ensures Misses(Join(Lines(doc)), e, name)
    ensures SetText(Join(Lines(doc)), name, key, value) == Some(Join(EditedLines(e, key, w)))
  {
    hide ItemLines, SectionLines, Header, KeyPrefix, NoneContains, Misses, EditedLines, SetText, Join, Lines,
         IsCanonical, IsName, IsKey, Format, SectionIndex, KeyIndex;
    var before := ItemLines(doc.preamble) + SectionLines(doc.sections[..SectionIndex(doc.sections, name)]);
    if NoneContains(before, Header(name)) {
      e := KeyMisleads(doc, name, key, value, w);
    } else {
      e := HeaderMisleads(doc, name, key, value, w);
    }
  }

  /** Where the searches are misled, a value no line of the file holds is not read back. */
  lemma MisledIsSeen(num: Numerals, doc: Document, name: string, key: string) returns (value: string)
    requires IsCanonical(doc) && IsName(name) && IsKey(key) && RejectsQuoted(num) && !IsFindable(doc, name, key)
    ensures '\n' !in value && !ReadsAsSet(num, doc, name, key, value)
  {
    var t := Join(Lines(doc));
    var n := |t| + 1;
    value := Zs(n);
    assert name != "";
    hide *;
    ZsAreQuoted(num, n);
    var e := EditMisses(doc, name, key, value, "\"" + Zs(n) + "\"");
    MissedReads(num, t, e, name, key, n);
    LacksIs(Read(num, SetText(t, name, key, value).value), name, key, Str(value));
    if ReadsAsSet(num, doc, name, key, value) {
      SetIsRead(num, doc, name, key, value);
    }
  }

  lemma SetIsRead(num: Numerals, doc: Document, name: string, key: string, value: string)
    requires ReadsAsSet(num, doc, name, key, value)
    ensures var t, written := Join(Lines(doc)), Format(Existing(doc, name, key), value);
      && SetText(t, name, key, value).Some? && Read(num, SetText(t, name, key, value).value).Some?
      && Lookup(Read(num, SetText(t, name, key, value).value).value.root, name, key) == Some(ParseValue(num, written))
  {
    hide SetText, Read, Join, Lines, Format, ParseValue, Lookup, Existing;
  }

  lemma LacksIs(st: Option<Ini>, name: string, key: string, v: Value)
    ensures Lacks(st, name, key, v) <==> (st.Some? ==> Lookup(st.value.root, name, key) != Some(v))
  {
  }

  /**
   In a non-empty canonical file, every value is read back as it was set, with no other setting
   changed, exactly when the searches find the section and the key where the file has them.
   */
  lemma ReadsAsSetExactly(num: Numerals, doc: Document, name: string, key: string)
    requires IsCanonical(doc) && Lines(doc) != [] && !HasKey(doc.preamble, name)
    requires IsName(name) && IsKey(key) && RejectsQuoted(num)
    ensures IsFindable(doc, name, key) <==> forall value :: '\n' !in value ==> ReadsAsSet(num, doc, name, key, value)
  {
    hide IsCanonical, Lines, HasKey, IsName, IsKey, RejectsQuoted, IsFindable, ReadsAsSet;
    if IsFindable(doc, name, key) {
      forall value | '\n' !in value
        ensures ReadsAsSet(num, doc, name, key, value)
      {
        FindableReads(num, doc, name, key, value);
      }
    } else {
      var value := MisledIsSeen(num, doc, name, key);
    }
  }

  lemma FindableReads(num: Numerals, doc: Document, name: string, key: string, value: string)
    requires IsEditable(doc, name, key) && '\n' !in value
    ensures ReadsAsSet(num, doc, name, key, value)
  {
    hide SetText, Read, Join, Lines, Format, ParseValue, OnlyChanges, IsEditable, Existing;
    SetThenRead(num, doc, name, key, value);
  }
}
