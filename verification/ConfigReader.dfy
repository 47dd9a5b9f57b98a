/** `parse_ini_file`: the line reader that gives the text of a settings file its meaning. */
module ConfigReader {
  import opened Wrappers
  import opened ByteText
  import opened ConfigValues

  /** An entry of the result object: a key before any section, or a section. */
  datatype Node = Leaf(v: Value) | Entries(m: map<string, Value>)

  datatype Ini = Ini(section: string, root: map<string, Node>)

  const EMPTY := Ini("", map[])

  /** `find_last_not_of(" \t")`, which keeps a text that is blank throughout. */
  function TrimBlanks(s: string): string {
    if s == "" || (s[|s| - 1] != ' ' && s[|s| - 1] != '\t') then s
    else
      var t := TrimBlanks(s[..|s| - 1]);
      if t == "" then s else t
  }

  /** Stores a value under the current section; None when a key of that name is in the way. */
  function Assign(st: Ini, key: string, v: Value): Option<Ini> {
    if st.section == "" then Some(st.(root := st.root[key := Leaf(v)]))
    else if st.section !in st.root then Some(st.(root := st.root[st.section := Entries(map[key := v])]))
    else
      match st.root[st.section]
      case Leaf(_) => None
      case Entries(m) => Some(st.(root := st.root[st.section := Entries(m[key := v])]))
  }

  function Enter(st: Ini, section: string): Ini {
    Ini(section, if section in st.root then st.root else st.root[section := Entries(map[])])
  }

  /** One line of the file. None stands for the exception that ends the reading. */
  function ReadLine(num: Numerals, line: string, st: Ini): Option<Ini> {
    var t := Trim(line);
    if t == "" || t[0] == ';' || t[0] == '#' then Some(st)
    else if t[0] == '[' then
      match Find(t, "]", 0)
      case None => Some(st)
      case Some(end) => Some(Enter(st, t[1..end]))
    else
      match Find(t, "=", 0)
      case None => Some(st)
      case Some(eq) => Assign(st, TrimBlanks(t[..eq]), ParseValue(num, t[eq + 1..]))
  }

  function ReadText(num: Numerals, text: string, st: Option<Ini>): Option<Ini>
    decreases |text|
  {
    if st.None? || text == "" then st
    else
      match Find(text, "\n", 0)
      case None => ReadLine(num, text, st.value)
      case Some(n) => ReadText(num, text[n + 1..], ReadLine(num, text[..n], st.value))
  }

  method ParseIniFile(num: Numerals, content: string) returns (r: Option<Ini>)
    ensures r == ReadText(num, content, Some(EMPTY))
  {
    hide ReadLine, Find;
    r := Some(EMPTY);
    var rest := content;
    while rest != "" && r.Some?
      invariant ReadText(num, content, Some(EMPTY)) == ReadText(num, rest, r)
      decreases |rest|
    {
      var newline := Find(rest, "\n", 0);
      var line := if newline.None? then rest else rest[..newline.value];
      rest := if newline.None? then "" else rest[newline.value + 1..];
      r := ReadLine(num, line, r.value);
    }
  }

  // ---------- Line by line ----------

  function ReadLines(num: Numerals, lines: seq<string>, st: Option<Ini>): Option<Ini> {
    if st.None? || lines == [] then st
    else ReadLines(num, lines[1..], ReadLine(num, lines[0], st.value))
  }

  /** The text of newline-terminated lines. */
  function Join(lines: seq<string>): string {
    if lines == [] then "" else lines[0] + "\n" + Join(lines[1..])
  }

  predicate AreLines(lines: seq<string>) {
    forall i :: 0 <= i < |lines| ==> '\n' !in lines[i]
  }

  lemma {:induction false} JoinConcat(a: seq<string>, b: seq<string>)
    ensures Join(a + b) == Join(a) + Join(b)
  {
    if a == [] {
      assert a + b == b;
    } else {
      assert (a + b)[1..] == a[1..] + b;
      JoinConcat(a[1..], b);
    }
  }

  lemma {:induction false} ReadLinesConcat(num: Numerals, a: seq<string>, b: seq<string>, st: Option<Ini>)
    ensures ReadLines(num, a + b, st) == ReadLines(num, b, ReadLines(num, a, st))
  {
    hide ReadLine;
    if st.None? {
    } else if a == [] {
      assert a + b == b;
    } else {
      assert (a + b)[1..] == a[1..] + b;
      ReadLinesConcat(num, a[1..], b, ReadLine(num, a[0], st.value));
    }
  }

  /** Reading the text is reading its lines; an unterminated last line counts like any other. */
  lemma {:induction false} ReadJoin(num: Numerals, lines: seq<string>, last: string, st: Option<Ini>)
    requires AreLines(lines) && '\n' !in last
    ensures ReadText(num, Join(lines) + last, st) == ReadLines(num, lines + [last], st)
    decreases |lines|
  {
    hide ReadLine, Find;
    if st.Some? {
      if lines == [] {
        FindNoByte(last, '\n');
        assert Join(lines) + last == last && (lines + [last])[1..] == [];
        if last == "" {
          BlankLine(num, st.value);
        }
      } else {
        var rest := Join(lines[1..]) + last;
        assert Join(lines) + last == lines[0] + "\n" + rest;
        FindByte(lines[0], '\n', rest);
        assert (lines + [last])[1..] == lines[1..] + [last];
        ReadJoin(num, lines[1..], last, ReadLine(num, lines[0], st.value));
      }
    }
  }

  lemma BlankLine(num: Numerals, st: Ini)
    ensures ReadLine(num, "", st) == Some(st)
  {
  }

  lemma ReadTerminated(num: Numerals, lines: seq<string>, st: Option<Ini>)
    requires AreLines(lines)
    ensures ReadText(num, Join(lines), st) == ReadLines(num, lines, st)
  {
    hide ReadLine, ReadText;
    ReadJoin(num, lines, "", st);
    assert Join(lines) + "" == Join(lines);
    ReadLinesConcat(num, lines, [""], st);
    var r := ReadLines(num, lines, st);
    if r.Some? {
      BlankLine(num, r.value);
      assert [""][1..] == [];
    }
  }
}
