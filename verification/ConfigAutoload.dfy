/** Adding, listing and removing autoloads: when removal takes back an addition, and what it costs otherwise. */
module ConfigAutoload {
  import opened Wrappers
  import opened ByteText
  import opened Unescaping
  import opened ConfigValues
  import opened ConfigText
  import opened ConfigReader
  import opened ConfigDocument
  import opened ConfigSearch
  import opened ConfigRefinement
  import opened ConfigMeaning

  datatype Autoload = Autoload(path: string, singleton: bool)

  /** One entry of `get_autoloads`; `dump` prints values that are not strings. */
  function AutoloadOf(dump: Value -> string, v: Value): Autoload {
    var path := if v.Str? then v.s else dump(v);
    if path != "" && path[0] == '*' then Autoload(path[1..], true) else Autoload(path, false)
  }

  function Autoloads(dump: Value -> string, root: map<string, Node>): map<string, Autoload> {
    if AUTOLOAD in root && root[AUTOLOAD].Entries? then
      map name | name in root[AUTOLOAD].m :: AutoloadOf(dump, root[AUTOLOAD].m[name])
    else map[]
  }

  /**
   Whether `add_autoload` puts quotes around the path: as the entry it replaces had them, or as the path needs
   them.
   */
  ghost predicate IsWrittenInQuotes(doc: Document, name: string, path: string) {
    var existing := Existing(doc, AUTOLOAD, name);
    (existing != "" && existing[0] == '"') || MustQuote(path)
  }

  lemma PathWritten(num: Numerals, doc: Document, name: string, path: string)
    requires RejectsQuoted(num)
    ensures ParseValue(num, Format(Existing(doc, AUTOLOAD, name), "\"" + path + "\""))
         == if IsWrittenInQuotes(doc, name, path) then Str(Unescape(INI_PAIRS, path)) else ParseValue(num, path)
  {
    hide ParseValue, MustQuote, Existing;
    var value := "\"" + path + "\"";
    assert value[1..|value| - 1] == path;
    QuotedReads(num, path);
  }

  /**
   An added autoload is listed, less a leading star, with its path: in quotes, escapes taken for what
   they stand for; without quotes, as whatever the reader takes the bare path for.
   */
  lemma AddThenList(num: Numerals, dump: Value -> string, doc: Document, name: string, path: string)
    requires IsEditable(doc, AUTOLOAD, name) && RejectsQuoted(num) && '\n' !in path
    ensures AddText(Join(Lines(doc)), name, path).Some?
    ensures var after := Read(num, AddText(Join(Lines(doc)), name, path).value);
      && after.Some? && name in Autoloads(dump, after.value.root)
      && var listed := Autoloads(dump, after.value.root)[name];
      && listed == AutoloadOf(dump, if IsWrittenInQuotes(doc, name, path) then Str(Unescape(INI_PAIRS, path))
                                    else ParseValue(num, path))
      && (IsWrittenInQuotes(doc, name, path) && '\\' !in path ==> listed == AutoloadOf(dump, Str(path)))
  {
    hide *;
    AddThenLookup(num, doc, name, path);
    PathWritten(num, doc, name, path);
    if '\\' !in path {
      UnescapeRun(INI_PAIRS, path, "");
      UnescapeNothing(INI_PAIRS);
      assert path + "" == path;
    }
    var after := Read(num, AddText(Join(Lines(doc)), name, path).value).value.root;
    LookedUpIsListed(dump, after, name);
  }

  lemma StarIsDropped(dump: Value -> string, path: string)
    ensures AutoloadOf(dump, Str("*" + path)) == Autoload(path, true)
    ensures path == "" || path[0] != '*' ==> AutoloadOf(dump, Str(path)) == Autoload(path, false)
  {
    assert ("*" + path)[1..] == path;
  }

  /**
   An autoload added in quotes without escapes is listed as it was given: with a leading star as a singleton, under
   the path after the star, and without one under the whole path.
   */
  lemma AddThenListGiven(num: Numerals, dump: Value -> string, doc: Document, name: string, path: string)
    requires IsEditable(doc, AUTOLOAD, name) && RejectsQuoted(num) && '\n' !in path && '\\' !in path
    requires IsWrittenInQuotes(doc, name, path)
    ensures AddText(Join(Lines(doc)), name, path).Some?
    ensures var after := Read(num, AddText(Join(Lines(doc)), name, path).value);
      && after.Some? && name in Autoloads(dump, after.value.root)
      && Autoloads(dump, after.value.root)[name]
         == if path != "" && path[0] == '*' then Autoload(path[1..], true) else Autoload(path, false)
  {
    hide *;
    AddThenList(num, dump, doc, name, path);
    if path != "" && path[0] == '*' {
      assert path == "*" + path[1..];
      StarIsDropped(dump, path[1..]);
    } else {
      StarIsDropped(dump, path);
    }
  }

  lemma AddThenLookup(num: Numerals, doc: Document, name: string, path: string)
    requires IsEditable(doc, AUTOLOAD, name) && '\n' !in path
    ensures AddText(Join(Lines(doc)), name, path).Some?
    ensures var after := Read(num, AddText(Join(Lines(doc)), name, path).value);
      && after.Some?
      && Lookup(after.value.root, AUTOLOAD, name)
         == Some(ParseValue(num, Format(Existing(doc, AUTOLOAD, name), "\"" + path + "\"")))
  {
    var value := "\"" + path + "\"";
    assert '\n' !in value;
    hide Read, Lines, Join, IsEditable, SetText, ParseValue, Format, Existing, Lookup;
    SetThenRead(num, doc, AUTOLOAD, name, value);
  }

  lemma LookedUpIsListed(dump: Value -> string, root: map<string, Node>, name: string)
    requires Lookup(root, AUTOLOAD, name).Some?
    ensures name in Autoloads(dump, root)
    ensures Autoloads(dump, root)[name] == AutoloadOf(dump, Lookup(root, AUTOLOAD, name).value)
  {
    hide AutoloadOf;
  }

  // ---------- Erasing a line ----------

  /** The line goes, and the lines around it become one. */
  lemma Erased(before: string, x: string, line: string, after: string)
    requires '\n' !in line
    ensures EraseLine(before + x + "\n" + line + "\n" + after, |before| + |x| + 1) == before + x + after
  {
    hide LineEnd;
    var content, k := before + x + "\n" + line + "\n" + after, |before| + |x| + 1;
    assert content[k - 1] == '\n' && content[k + |line|] == '\n' && content[k..k + |line|] == line;
    LineEndIs(content, k, k + |line|);
    assert content[..k - 1] == before + x && content[k + |line| + 1..] == after;
  }

  /** Where `remove_autoload` finds the entry of a canonical file. */
  lemma RemoveFinds(content: string, a: seq<string>, b1: seq<string>, name: string, value: string, b2: seq<string>,
                    rest: string)
    requires AreLines(a) && NoneContains(a, Header(AUTOLOAD)) && IsKey(name)
    requires var b := b1 + [KeyPrefix(name) + value] + b2;
      && AreLines(b) && NoneOpens(b) && (rest == "" || rest[0] == '[') && NoneContains(b1, KeyPrefix(name))
      && content == Join(a) + (Header(AUTOLOAD) + ("\n" + (Join(b) + rest)))
    ensures var k := |Join(a)| + |Header(AUTOLOAD)| + 1 + |Join(b1)|;
      k <= |content| && RemoveText(content, name) == Some(EraseLine(content, k))
  {
    AutoloadIsName();
    hide *;
    var h, p := Header(AUTOLOAD), KeyPrefix(name);
    var b := b1 + [p + value] + b2;
    LinesAround(b1, p, value, b2);
    HeaderIsLine(AUTOLOAD);
    PrefixIsPlain(name);
    SectionSearch(content, a, h, b, rest);
    ThreeParts(b1, p + value, b2);
    Regroup(Join(a), h, Join(b1), p, value, Join(b2), rest);
    KeyFound(content, |Join(a)| + |h|, b1, p, value + ("\n" + (Join(b2) + rest)));
    KeyInside(Join(a), h, Join(b1), p, value, Join(b2), rest);
    RemoveErases(content, name, |Join(a)|, |Join(a)| + |h| + 1 + |Join(b1)|);
  }

  lemma AutoloadIsName()
    ensures IsName(AUTOLOAD)
  {
  }

  lemma RemoveErases(content: string, name: string, sp: nat, k: nat)
    requires Find(content, Header(AUTOLOAD), 0) == Some(sp)
    requires Find(content, KeyPrefix(name), sp + |Header(AUTOLOAD)|) == Some(k)
    requires k < SectionEnd(content, sp + |Header(AUTOLOAD)|)
    ensures k <= |content| && RemoveText(content, name) == Some(EraseLine(content, k))
  {
    hide Find, Header, KeyPrefix, SectionEnd, EraseLine, RemoveAfter;
    RemoveAfterErases(content, name, sp + |Header(AUTOLOAD)|, k);
  }

  lemma RemoveAfterErases(content: string, name: string, from: nat, k: nat)
    requires Find(content, KeyPrefix(name), from) == Some(k) && k < SectionEnd(content, from)
    ensures k <= |content| && RemoveAfter(content, name, from) == Some(EraseLine(content, k))
  {
    hide Find, KeyPrefix, SectionEnd, EraseLine;
  }

  /** The lines of the file up to an entry of a section, and those after it. */
  function LinesBefore(doc: Document, i: nat, j: nat): seq<string>
    requires i < |doc.sections| && j <= |doc.sections[i].items|
  {
    ItemLines(doc.preamble) + SectionLines(doc.sections[..i]) + [Header(doc.sections[i].name)]
    + ItemLines(doc.sections[i].items[..j])
  }

  function LinesFrom(doc: Document, i: nat, j: nat): seq<string>
    requires i < |doc.sections| && j <= |doc.sections[i].items|
  {
    ItemLines(doc.sections[i].items[j..]) + SectionLines(doc.sections[i + 1..])
  }

  lemma LinesSplit(doc: Document, i: nat, j: nat)
    requires i < |doc.sections| && j <= |doc.sections[i].items|
    ensures Lines(doc) == LinesBefore(doc, i, j) + LinesFrom(doc, i, j)
  {
    hide ItemLines, SectionLines, Header, Lines;
    var items := doc.sections[i].items;
    LinesAt(doc, i);
    assert items == items[..j] + items[j..];
    ItemLinesConcat(items[..j], items[j..]);
  }

  /** Everything but the last line, and the last line. */
  lemma LastLine(lines: seq<string>)
    requires lines != []
    ensures Join(lines) == Join(lines[..|lines| - 1]) + lines[|lines| - 1] + "\n"
  {
    hide *;
    assert lines == lines[..|lines| - 1] + [lines[|lines| - 1]];
    JoinConcat(lines[..|lines| - 1], [lines[|lines| - 1]]);
    JoinOne(lines[|lines| - 1]);
  }

  /** A canonical file with the entry `name` at place `j` of its autoload section, `i`. */
  ghost predicate HasAutoload(doc: Document, name: string, i: nat, j: nat) {
    && IsCanonical(doc) && IsKey(name) && IsFindable(doc, AUTOLOAD, name)
    && i == SectionIndex(doc.sections, AUTOLOAD) < |doc.sections|
    && j == KeyIndex(doc.sections[i].items, name) < |doc.sections[i].items|
  }

  /** What removal leaves of a canonical file: the line before the entry runs on into the line after it. */
  lemma RemovedText(doc: Document, name: string, i: nat, j: nat)
    requires HasAutoload(doc, name, i, j)
    ensures var before := LinesBefore(doc, i, j);
      RemoveText(Join(Lines(doc)), name)
      == Some(Join(before[..|before| - 1]) + before[|before| - 1] + Join(LinesFrom(doc, i, j + 1)))
  {
    hide *;
    EntryFacts(doc, name, i, j);
    var items, value := doc.sections[i].items, doc.sections[i].items[j].value;
    var a := ItemLines(doc.preamble) + SectionLines(doc.sections[..i]);
    var rest := Join(SectionLines(doc.sections[i + 1..]));
    var b1, b2 := ItemLines(items[..j]), ItemLines(items[j + 1..]);
    LinesAround1(doc, i, j);
    CanonicalSection(doc, i);
    ItemsAt(items, j);
    SettingLine(name, value);
    LinesOfUpdate(doc, i, items);
    assert doc.(sections := doc.sections[i := doc.sections[i].(items := items)]) == doc;
    RemoveFinds(Join(Lines(doc)), a, b1, name, value, b2, rest);
    JoinConcat(b2, SectionLines(doc.sections[i + 1..]));
    BeforeEntry(a, Header(AUTOLOAD), b1, LinesBefore(doc, i, j));
    var before := LinesBefore(doc, i, j);
    PrefixIsPlain(name);
    EntryErased(Join(Lines(doc)), Join(a), Header(AUTOLOAD), Join(b1), KeyPrefix(name), value, Join(b2), rest,
                Join(before[..|before| - 1]), before[|before| - 1], b1, b2);
  }

  lemma EntryFacts(doc: Document, name: string, i: nat, j: nat)
    requires HasAutoload(doc, name, i, j)
    ensures i < |doc.sections| && doc.sections[i].name == AUTOLOAD && IsCanonical(doc) && IsKey(name)
    ensures var items := doc.sections[i].items;
      && j < |items| && items[j] == Setting(name, items[j].value) && '\n' !in items[j].value
      && NoneContains(ItemLines(items[..j]), KeyPrefix(name))
    ensures NoneContains(ItemLines(doc.preamble) + SectionLines(doc.sections[..i]), Header(AUTOLOAD))
  {
    assert IsItem(doc.sections[i].items[j]);
    hide ItemLines, SectionLines, Header, KeyPrefix, NoneContains, IsKey, IsName;
  }

  lemma LinesAround1(doc: Document, i: nat, j: nat)
    requires i < |doc.sections| && j < |doc.sections[i].items|
    ensures LinesBefore(doc, i, j) == ItemLines(doc.preamble) + SectionLines(doc.sections[..i])
                                    + [Header(doc.sections[i].name)] + ItemLines(doc.sections[i].items[..j])
    ensures LinesFrom(doc, i, j + 1) == ItemLines(doc.sections[i].items[j + 1..]) + SectionLines(doc.sections[i + 1..])
  {
    hide ItemLines, SectionLines, Header;
  }

  lemma BeforeEntry(a: seq<string>, h: string, b1: seq<string>, before: seq<string>)
    requires before == a + [h] + b1
    ensures before != []
    ensures Join(before[..|before| - 1]) + before[|before| - 1] + "\n" == Join(a) + (h + ("\n" + (Join(b1) + "")))
  {
    hide *;
    JoinedBefore(a, h, b1, []);
    assert before + [] == before;
    JoinNothing();
    LastLine(before);
  }

  lemma JoinNothing()
    ensures Join([]) == ""
  {
  }

  lemma EntryErased(content: string, a: string, h: string, y1: string, p: string, value: string, y2: string,
                    rest: string, before: string, x: string, b1: seq<string>, b2: seq<string>)
    requires y1 == Join(b1) && y2 == Join(b2) && '\n' !in p && '\n' !in value
    requires content == a + (h + ("\n" + (Join(b1 + [p + value] + b2) + rest)))
    requires before + x + "\n" == a + (h + ("\n" + (y1 + "")))
    ensures |a| + |h| + 1 + |y1| <= |content|
    ensures EraseLine(content, |a| + |h| + 1 + |y1|) == before + x + (y2 + rest)
  {
    hide *;
    ThreeParts(b1, p + value, b2);
    Regroup(a, h, y1, p, value, y2, rest);
    assert a + h + "\n" + y1 == before + x + "\n" by { assert a + (h + ("\n" + (y1 + ""))) == a + h + "\n" + y1; }
    assert |before + x + "\n"| == |a| + |h| + 1 + |y1|;
    PlainConcat(p, value);
    Erased(before, x, p + value, y2 + rest);
    assert content == before + x + "\n" + (p + value) + "\n" + (y2 + rest);
  }

  lemma PlainConcat(p: string, value: string)
    requires '\n' !in p && '\n' !in value
    ensures '\n' !in p + value
  {
  }

  // ---------- Removing one entry and no other ----------

  /** The setting is gone; every other section and key reads as before. */
  ghost predicate OnlyRemoves(before: map<string, Node>, after: map<string, Node>, section: string, key: string) {
    forall s, k :: Lookup(after, s, k) == if s == section && k == key then None else Lookup(before, s, k)
  }

  lemma {:induction false} ItemKeys(num: Numerals, items: seq<Item>, m: map<string, Value>, key: string)
    requires forall i :: 0 <= i < |items| && items[i].Setting? ==> items[i].key != key
    ensures key in ItemValues(num, items, m) <==> key in m
    decreases |items|
  {
    hide ParseValue;
    if items == [] {
    } else {
      ItemKeys(num, items[1..], AfterItem(num, items[0], m), key);
    }
  }

  lemma ValuesWithout(num: Numerals, items: seq<Item>, j: nat)
    requires AreItems(items) && j < |items| && items[j].Setting?
    ensures ItemValues(num, items[..j] + items[j + 1..], map[]) == ItemValues(num, items, map[]) - {items[j].key}
  {
    hide ItemValues, IsItem, ParseValue;
    var name, v, later := items[j].key, ParseValue(num, items[j].value), items[j + 1..];
    var m := ItemValues(num, items[..j], map[]);
    assert items == items[..j] + ([items[j]] + later);
    ItemValuesConcat(num, items[..j], [items[j]] + later, map[]);
    ItemValuesConcat(num, [items[j]], later, m);
    ItemValuesConcat(num, items[..j], later, map[]);
    OneItem(num, items[j], m);
    OtherItems(num, later, m, name, v);
    ItemKeys(num, items[..j], map[], name);
    ItemKeys(num, later, m, name);
  }

  lemma ValuesWithoutBlank(num: Numerals, items: seq<Item>, j: nat)
    requires j < |items| && items[j].Note?
    ensures ItemValues(num, items[..j] + items[j + 1..], map[]) == ItemValues(num, items, map[])
  {
    hide ItemValues;
    var m, later := ItemValues(num, items[..j], map[]), items[j + 1..];
    assert items == items[..j] + ([items[j]] + later);
    ItemValuesConcat(num, items[..j], [items[j]] + later, map[]);
    ItemValuesConcat(num, [items[j]], later, m);
    ItemValuesConcat(num, items[..j], later, map[]);
    OneItem(num, items[j], m);
  }

  function WithItems(doc: Document, i: nat, items: seq<Item>): Document
    requires i < |doc.sections|
  {
    doc.(sections := doc.sections[i := doc.sections[i].(items := items)])
  }

  lemma WithItemsCanonical(doc: Document, i: nat, items: seq<Item>)
    requires IsCanonical(doc) && i < |doc.sections| && AreItems(items)
    ensures IsCanonical(WithItems(doc, i, items))
  {
    hide AreItems, IsName;
  }

  lemma NothingAfter(doc: Document, i: nat, j: nat)
    requires i < |doc.sections| && j == |doc.sections[i].items| && i + 1 == |doc.sections|
    ensures LinesFrom(doc, i, j) == []
  {
  }

  lemma FromIs(doc: Document, i: nat, j: nat)
    requires i < |doc.sections| && j <= |doc.sections[i].items|
    ensures LinesFrom(doc, i, j) == ItemLines(doc.sections[i].items[j..]) + SectionLines(doc.sections[i + 1..])
  {
    hide ItemLines, SectionLines;
  }

  lemma LinesApart(lines: seq<string>, last: string)
    requires AreLines(lines + [last])
    ensures AreLines(lines) && '\n' !in last
  {
    assert (lines + [last])[|lines|] == last;
    assert forall i :: 0 <= i < |lines| ==> lines[i] == (lines + [last])[i];
  }
}
