/** Each kind of line of a settings file, byte by byte: how it is read, and how a new section is written. */
module ConfigLines {
  import opened Wrappers
  import opened ByteText
  import opened ConfigValues
  import opened ConfigText
  import opened ConfigReader
  import opened ConfigDocument

  lemma TrimsTo(spaces: string, c: char, rest: string)
    requires AllSpace(spaces) && !IsSpace(c)
    ensures Trim(spaces + ([c] + rest)) == [c] + TrimRight(rest)
  {
    var line := spaces + ([c] + rest);
    SkipSpaceConcat(spaces, [c] + rest);
    assert SkipSpace([c] + rest) == 0;
    assert line[|spaces|..] == [c] + rest;
    hide TrimRight, SkipSpace, IsSpace;
    TrimRightAfter([c], rest);
  }

  /** Blank lines and comments are passed over. */
  lemma CommentLine(num: Numerals, spaces: string, c: char, rest: string, st: Ini)
    requires AllSpace(spaces) && (c == ';' || c == '#')
    ensures ReadLine(num, spaces, st) == Some(st)
    ensures ReadLine(num, spaces + ([c] + rest), st) == Some(st)
  {
    TrimsTo(spaces, c, rest);
    AllSpaceSkips(spaces);
    hide Find, ParseValue, TrimRight, SkipSpace, TrimBlanks;
  }

  lemma {:induction false} BracketTrims(rest: string)
    requires ']' !in rest
    ensures ']' !in TrimRight(rest)
    decreases |rest|
  {
    if rest != "" && IsSpace(rest[|rest| - 1]) {
      BracketTrims(rest[..|rest| - 1]);
    }
  }

  lemma HeaderText(name: string, rest: string)
    ensures var t := ['['] + (name + "]" + rest);
      t == "[" + name + [']'] + rest && t[1..|name| + 1] == name && t[0] == '['
  {
  }

  lemma BracketEnds(name: string, rest: string)
    ensures TrimRight(name + "]" + rest) == name + "]" + TrimRight(rest)
  {
    hide TrimRight;
    TrimRightAfter(name + "]", rest);
  }

  /** A header opens its section, up to the first closing bracket. */
  lemma HeaderLine(num: Numerals, spaces: string, name: string, rest: string, st: Ini)
    requires AllSpace(spaces) && ']' !in name
    ensures ReadLine(num, spaces + (['['] + (name + "]" + rest)), st)
         == Some(Ini(name, if name in st.root then st.root else st.root[name := Entries(map[])]))
  {
    hide *;
    BracketIsNoSpace();
    TrimsTo(spaces, '[', name + "]" + rest);
    BracketEnds(name, rest);
    var later := TrimRight(rest);
    HeaderText(name, later);
    assert ']' !in "[" + name;
    FindByte("[" + name, ']', later);
    OpensSection(num, spaces + (['['] + (name + "]" + rest)), ['['] + (name + "]" + later), |name| + 1, st);
  }

  lemma BracketIsNoSpace()
    ensures !IsSpace('[')
  {
  }

  /** Without a closing bracket it is passed over. */
  lemma OpenHeaderLine(num: Numerals, spaces: string, name: string, st: Ini)
    requires AllSpace(spaces) && ']' !in name
    ensures ReadLine(num, spaces + (['['] + name), st) == Some(st)
  {
    hide *;
    BracketIsNoSpace();
    TrimsTo(spaces, '[', name);
    BracketTrims(name);
    assert ']' !in ['['] + TrimRight(name);
    FindNoByte(['['] + TrimRight(name), ']');
    OpensNothing(num, spaces + (['['] + name), ['['] + TrimRight(name), st);
  }

  lemma OpensSection(num: Numerals, line: string, t: string, end: nat, st: Ini)
    requires Trim(line) == t && t != "" && t[0] == '[' && Find(t, "]", 0) == Some(end) && 1 <= end <= |t|
    ensures ReadLine(num, line, st)
         == Some(Ini(t[1..end], if t[1..end] in st.root then st.root else st.root[t[1..end] := Entries(map[])]))
  {
    hide Find, ParseValue, Trim, TrimBlanks;
  }

  lemma OpensNothing(num: Numerals, line: string, t: string, st: Ini)
    requires Trim(line) == t && t != "" && t[0] == '[' && Find(t, "]", 0).None?
    ensures ReadLine(num, line, st) == Some(st)
  {
    hide Find, ParseValue, Trim, TrimBlanks;
  }

  predicate AreBlanks(gap: string) {
    forall i :: 0 <= i < |gap| ==> gap[i] == ' ' || gap[i] == '\t'
  }

  lemma {:induction false} BlanksTrim(key: string, gap: string)
    requires key != "" && key[|key| - 1] != ' ' && key[|key| - 1] != '\t' && AreBlanks(gap)
    ensures TrimBlanks(key + gap) == key
    decreases |gap|
  {
    if gap == "" {
      assert key + gap == key;
    } else {
      assert (key + gap)[..|key + gap| - 1] == key + gap[..|gap| - 1];
      BlanksTrim(key, gap[..|gap| - 1]);
    }
  }

  /** What begins like none of the above: an entry has a key, perhaps blanks, an equals sign, and a value. */
  predicate BeginsKey(key: string) {
    key != "" && !IsSpace(key[0]) && key[0] != ';' && key[0] != '#' && key[0] != '['
  }

  lemma EntryText(key: string, gap: string, value: string)
    ensures key + gap + "=" + value == key + gap + ['='] + value
    ensures key != "" ==> (key + gap + "=" + value)[0] == key[0]
    ensures key != "" ==> key + gap + "=" + value == [key[0]] + (key[1..] + gap + "=" + value)
  {
  }

  lemma EntryTrims(spaces: string, key: string, gap: string, value: string)
    requires AllSpace(spaces) && BeginsKey(key)
    ensures Trim(spaces + (key + gap + "=" + value)) == key + gap + "=" + TrimRight(value)
  {
    KeyBegins(key);
    hide *;
    var head := key[1..] + gap + "=";
    EntryText(key, gap, value);
    EntryText(key, gap, TrimRight(value));
    TrimsTo(spaces, key[0], head + value);
    EqualsEnds(key[1..] + gap);
    TrimRightAfter(head, value);
  }

  lemma KeyBegins(key: string)
    requires BeginsKey(key)
    ensures key != "" && !IsSpace(key[0]) && key[0] != ';' && key[0] != '#' && key[0] != '['
  {
  }

  lemma EqualsEnds(head: string)
    ensures var t := head + "="; !IsSpace(t[|t| - 1])
  {
  }

  lemma NoEquals(key: string, gap: string)
    requires '=' !in key && AreBlanks(gap)
    ensures '=' !in key + gap
  {
  }

  /** An entry sets its key in the section, or before any section as a key of its own, unless a key is in the way. */
  lemma EntryLine(num: Numerals, spaces: string, key: string, gap: string, value: string, st: Ini)
    requires AllSpace(spaces) && BeginsKey(key) && '=' !in key && AreBlanks(gap)
    requires key[|key| - 1] != ' ' && key[|key| - 1] != '\t'
    ensures var r, v := ReadLine(num, spaces + (key + gap + "=" + value), st), ParseValue(num, value);
      if st.section == "" then r == Some(Ini("", st.root[key := Leaf(v)]))
      else if st.section !in st.root then r == Some(Ini(st.section, st.root[st.section := Entries(map[key := v])]))
      else match st.root[st.section]
        case Leaf(_) => r == None
        case Entries(m) => r == Some(Ini(st.section, st.root[st.section := Entries(m[key := v])]))
  {
    hide *;
    KeyBegins(key);
    EntryTrims(spaces, key, gap, value);
    BlanksTrim(key, gap);
    ParseTrimmed(num, value);
    NoEquals(key, gap);
    var later := TrimRight(value);
    FindByte(key + gap, '=', later);
    EntryText(key, gap, later);
    AssignsKey(num, spaces + (key + gap + "=" + value), key + gap + "=" + later, |key + gap|, st);
    Assigned(st, key, ParseValue(num, value));
  }

  lemma AssignsKey(num: Numerals, line: string, t: string, eq: nat, st: Ini)
    requires Trim(line) == t && t != "" && t[0] != ';' && t[0] != '#' && t[0] != '['
    requires Find(t, "=", 0) == Some(eq) && eq < |t|
    ensures ReadLine(num, line, st) == Assign(st, TrimBlanks(t[..eq]), ParseValue(num, t[eq + 1..]))
  {
    hide Find, ParseValue, Trim, TrimBlanks, Assign;
  }

  lemma Assigned(st: Ini, key: string, v: Value)
    ensures var r := Assign(st, key, v);
      if st.section == "" then r == Some(Ini("", st.root[key := Leaf(v)]))
      else if st.section !in st.root then r == Some(Ini(st.section, st.root[st.section := Entries(map[key := v])]))
      else match st.root[st.section]
        case Leaf(_) => r == None
        case Entries(m) => r == Some(Ini(st.section, st.root[st.section := Entries(m[key := v])]))
  {
  }

  /** Any other line without an equals sign is passed over. */
  lemma OtherLine(num: Numerals, spaces: string, text: string, st: Ini)
    requires AllSpace(spaces) && BeginsKey(text) && '=' !in text
    ensures ReadLine(num, spaces + text, st) == Some(st)
  {
    hide Find, ParseValue, TrimBlanks;
    assert text == [text[0]] + text[1..];
    TrimsTo(spaces, text[0], text[1..]);
    EqualsTrims(text[1..]);
    var t := [text[0]] + TrimRight(text[1..]);
    hide TrimRight, Trim;
    FindNoByte(t, '=');
    PassesOver(num, spaces + text, t, st);
  }

  lemma PassesOver(num: Numerals, line: string, t: string, st: Ini)
    requires Trim(line) == t && t != "" && t[0] != '[' && Find(t, "=", 0).None?
    ensures ReadLine(num, line, st) == Some(st)
  {
    hide Find, ParseValue, Trim, TrimBlanks;
  }

  lemma {:induction false} EqualsTrims(rest: string)
    requires '=' !in rest
    ensures '=' !in TrimRight(rest)
    decreases |rest|
  {
    if rest != "" && IsSpace(rest[|rest| - 1]) {
      EqualsTrims(rest[..|rest| - 1]);
    }
  }

  // ---------- A new section ----------

  lemma SectionText(content: string, h: string, k: string, v: string)
    ensures content + ("\n" + ("[" + h + "]") + "\n" + (k + "=") + v + "\n")
         == content + ("\n[" + h + "]\n" + k + "=" + v + "\n")
  {
    hide *;
    assert "\n" + ("[" + h + "]") + "\n" == "\n[" + h + "]\n";
    assert "\n[" + h + "]\n" + (k + "=") == "\n[" + h + "]\n" + k + "=";
  }

  /** A setting whose section is nowhere in the text goes to its end, after an empty line and a header. */
  lemma SectionAppended(content: string, section: string, key: string, value: string)
    requires content != "" && Find(content, "[" + section + "]", 0).None?
    ensures var whole := if content[|content| - 1] == '\n' then content else content + "\n";
      SetText(content, section, key, value)
      == Some(whole + ("\n[" + section + "]\n" + key + "=" + Format("", value) + "\n"))
  {
    hide Find, Format;
    var whole := if content[|content| - 1] == '\n' then content else content + "\n";
    SectionText(whole, section, key, Format("", value));
  }
}
