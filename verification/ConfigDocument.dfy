/**
 Settings files as documents: what canonical text means, and that editing the text by substring
 search is an update of the document.
 */
module ConfigDocument {
  import opened Wrappers
  import opened ByteText
  import opened ConfigValues
  import opened ConfigText
  import opened ConfigReader

  datatype Item = Note(text: string) | Setting(key: string, value: string)
  datatype Section = Section(name: string, items: seq<Item>)
  datatype Document = Document(preamble: seq<Item>, sections: seq<Section>)

  // ---------- Canonical documents ----------

  /** A line the reader passes over and no search for a header takes for one. */
  predicate IsNote(text: string) {
    '\n' !in text
    && var t := Trim(text); t == "" || t[0] == ';' || t[0] == '#' || (t[0] != '[' && '=' !in t)
  }

  predicate IsKey(key: string) {
    && key != "" && '\n' !in key && '=' !in key
    && !IsSpace(key[0]) && key[0] != '[' && key[0] != ';' && key[0] != '#'
    && !IsSpace(key[|key| - 1])
  }

  predicate IsName(name: string) {
    name != "" && '\n' !in name && ']' !in name
  }

  predicate IsItem(item: Item) {
    match item
    case Note(text) => IsNote(text)
    case Setting(key, value) => IsKey(key) && '\n' !in value
  }

  predicate AreItems(items: seq<Item>) {
    && (forall i :: 0 <= i < |items| ==> IsItem(items[i]))
    && forall i, j :: 0 <= i < j < |items| && items[i].Setting? && items[j].Setting? ==> items[i].key != items[j].key
  }

  /** Unique sections and keys, and no key before the first section that is also a section's name. */
  ghost predicate IsCanonical(doc: Document) {
    && AreItems(doc.preamble)
    && (forall i :: 0 <= i < |doc.sections| ==> IsName(doc.sections[i].name) && AreItems(doc.sections[i].items))
    && (forall i, j :: 0 <= i < j < |doc.sections| ==> doc.sections[i].name != doc.sections[j].name)
    && (forall i, j :: 0 <= i < |doc.preamble| && 0 <= j < |doc.sections| && doc.preamble[i].Setting? ==>
          doc.preamble[i].key != doc.sections[j].name)
  }

  function ItemLine(item: Item): string {
    match item
    case Note(text) => text
    case Setting(key, value) => KeyPrefix(key) + value
  }

  function ItemLines(items: seq<Item>): seq<string> {
    if items == [] then [] else [ItemLine(items[0])] + ItemLines(items[1..])
  }

  function SectionLines(sections: seq<Section>): seq<string> {
    if sections == [] then []
    else [Header(sections[0].name)] + ItemLines(sections[0].items) + SectionLines(sections[1..])
  }

  function Lines(doc: Document): seq<string> {
    ItemLines(doc.preamble) + SectionLines(doc.sections)
  }

  // ---------- What a document means ----------

  function ItemValues(num: Numerals, items: seq<Item>, m: map<string, Value>): map<string, Value> {
    if items == [] then m
    else ItemValues(num, items[1..], match items[0]
                                     case Note(_) => m
                                     case Setting(key, value) => m[key := ParseValue(num, value)])
  }

  function PreambleNodes(num: Numerals, items: seq<Item>, root: map<string, Node>): map<string, Node> {
    if items == [] then root
    else PreambleNodes(num, items[1..], match items[0]
                                        case Note(_) => root
                                        case Setting(key, value) => root[key := Leaf(ParseValue(num, value))])
  }

  function SectionNodes(num: Numerals, sections: seq<Section>, root: map<string, Node>): map<string, Node> {
    if sections == [] then root
    else SectionNodes(num, sections[1..], root[sections[0].name := Entries(ItemValues(num, sections[0].items, map[]))])
  }

  /** The result object of reading a canonical document. */
  function Meaning(num: Numerals, doc: Document): map<string, Node> {
    SectionNodes(num, doc.sections, PreambleNodes(num, doc.preamble, map[]))
  }

  // ---------- Reading ----------

  lemma TrimRightAfter(a: string, v: string)
    requires a != "" && !IsSpace(a[|a| - 1])
    ensures TrimRight(a + v) == a + TrimRight(v)
    decreases |v|
  {
    if v == "" {
      assert a + v == a;
    } else if IsSpace(v[|v| - 1]) {
      assert (a + v)[..|a + v| - 1] == a + v[..|v| - 1];
      TrimRightAfter(a, v[..|v| - 1]);
    }
  }

  lemma TrimAfterTrimRight(v: string)
    ensures Trim(TrimRight(v)) == Trim(v)
  {
    if v == "" || !IsSpace(v[|v| - 1]) {
    } else {
      var w := v[..|v| - 1];
      TrimAfterTrimRight(w);
      SkipSpaceShorter(v);
    }
  }

  lemma SkipSpaceShorter(v: string)
    requires v != "" && IsSpace(v[|v| - 1])
    ensures Trim(v[..|v| - 1]) == Trim(v)
  {
    var w := v[..|v| - 1];
    var k := SkipSpace(w);
    assert v == w + [v[|v| - 1]];
    if k == |w| {
      AllSpaceSkips(v);
      AllSpaceSkips(w);
    } else {
      SkipSpaceIs(v, k);
      assert v[k..][..|v[k..]| - 1] == w[k..];
    }
  }

  lemma SkipSpaceIs(v: string, k: nat)
    requires k < |v| && !IsSpace(v[k]) && forall i :: 0 <= i < k ==> IsSpace(v[i])
    ensures SkipSpace(v) == k
  {
    var r := SkipSpace(v);
    assert r < |v| ==> !IsSpace(v[r]);
  }

  lemma AllSpaceSkips(v: string)
    requires forall i :: 0 <= i < |v| ==> IsSpace(v[i])
    ensures SkipSpace(v) == |v|
  {
  }

  lemma ParseTrimmed(num: Numerals, v: string)
    ensures ParseValue(num, TrimRight(v)) == ParseValue(num, v)
  {
    hide Trim;
    TrimAfterTrimRight(v);
  }

  lemma KeyLine(key: string, value: string)
    requires IsKey(key)
    ensures var t := Trim(KeyPrefix(key) + value);
      && t == KeyPrefix(key) + TrimRight(value)
      && Find(t, "=", 0) == Some(|key|)
      && t[..|key|] == key && t[|key| + 1..] == TrimRight(value)
  {
    hide Find;
    hide Find, TrimRight, Trim;
    KeyLineTrims(key, value);
    assert '=' !in key;
    FindByte(key, '=', TrimRight(value));
  }

  lemma KeyLineTrims(key: string, value: string)
    requires IsKey(key)
    ensures Trim(KeyPrefix(key) + value) == KeyPrefix(key) + TrimRight(value)
  {
    var line, p := KeyPrefix(key) + value, KeyPrefix(key);
    assert line[0] == key[0] && SkipSpace(line) == 0 && line[0..] == line;
    hide TrimRight;
    TrimRightAfter(p, value);
  }

  lemma ReadSetting(num: Numerals, key: string, value: string, st: Ini)
    requires IsKey(key)
    ensures ReadLine(num, KeyPrefix(key) + value, st) == Assign(st, key, ParseValue(num, value))
  {
    KeyLine(key, value);
    ParseTrimmed(num, value);
    assert TrimBlanks(key) == key;
    assert (KeyPrefix(key) + TrimRight(value))[0] == key[0];
    hide Trim, Find, ParseValue, TrimRight, Assign, KeyPrefix;
  }

  lemma ReadNote(num: Numerals, text: string, st: Ini)
    requires IsNote(text)
    ensures ReadLine(num, text, st) == Some(st)
  {
    hide Trim, Find;
    var t := Trim(text);
    if t != "" && t[0] != ';' && t[0] != '#' && t[0] != '[' {
      FindNoByte(t, '=');
    }
  }

  lemma ReadHeader(num: Numerals, name: string, st: Ini)
    requires IsName(name)
    ensures ReadLine(num, Header(name), st) == Some(Enter(st, name))
  {
    hide Find;
    var t := Header(name);
    TrimOfTrimmed(t);
    assert ']' !in "[" + name;
    FindByte("[" + name, ']', "");
    assert t == "[" + name + [']'] + "" && t[1..|name| + 1] == name;
    hide Trim, Header, Enter;
  }

  lemma {:induction false} ReadSectionItems(num: Numerals, items: seq<Item>, st: Ini)
    requires (forall i :: 0 <= i < |items| ==> IsItem(items[i]))
    requires st.section != "" && st.section in st.root && st.root[st.section].Entries?
    ensures ReadLines(num, ItemLines(items), Some(st))
         == Some(st.(root := st.root[st.section := Entries(ItemValues(num, items, st.root[st.section].m))]))
    decreases |items|
  {
    hide ReadLine, ParseValue, IsNote, IsKey, KeyPrefix;
    var m := st.root[st.section].m;
    if items == [] {
      assert st.root[st.section := Entries(m)] == st.root;
    } else {
      assert ItemLines(items)[1..] == ItemLines(items[1..]);
      assert IsItem(items[0]);
      var m' := match items[0] case Note(_) => m case Setting(key, value) => m[key := ParseValue(num, value)];
      var st' := st.(root := st.root[st.section := Entries(m')]);
      match items[0] {
        case Note(text) =>
          ReadNote(num, text, st);
          assert st'.root == st.root;
        case Setting(key, value) =>
          ReadSetting(num, key, value, st);
      }
      ReadSectionItems(num, items[1..], st');
      assert st'.root[st.section := Entries(ItemValues(num, items[1..], m'))]
          == st.root[st.section := Entries(ItemValues(num, items[1..], m'))];
    }
  }

  lemma {:induction false} ReadPreamble(num: Numerals, items: seq<Item>, root: map<string, Node>)
    requires (forall i :: 0 <= i < |items| ==> IsItem(items[i]))
    ensures ReadLines(num, ItemLines(items), Some(Ini("", root))) == Some(Ini("", PreambleNodes(num, items, root)))
    decreases |items|
  {
    hide ReadLine, ParseValue, IsNote, IsKey, KeyPrefix;
    if items == [] {
    } else {
      assert ItemLines(items)[1..] == ItemLines(items[1..]);
      assert IsItem(items[0]);
      match items[0] {
        case Note(text) =>
          ReadNote(num, text, Ini("", root));
          ReadPreamble(num, items[1..], root);
        case Setting(key, value) =>
          ReadSetting(num, key, value, Ini("", root));
          ReadPreamble(num, items[1..], root[key := Leaf(ParseValue(num, value))]);
      }
    }
  }

  /** Sections whose names the reader has not met before. */
  ghost predicate AreFresh(sections: seq<Section>, root: map<string, Node>) {
    && (forall i :: 0 <= i < |sections| ==> IsName(sections[i].name) && AreItems(sections[i].items))
    && (forall i :: 0 <= i < |sections| ==> sections[i].name !in root)
    && forall i, j :: 0 <= i < j < |sections| ==> sections[i].name != sections[j].name
  }

  lemma {:induction false} ReadSections(num: Numerals, sections: seq<Section>, st: Ini)
    requires AreFresh(sections, st.root)
    ensures ReadLines(num, SectionLines(sections), Some(st)).Some?
    ensures ReadLines(num, SectionLines(sections), Some(st)).value.root == SectionNodes(num, sections, st.root)
    decreases |sections|
  {
    hide ReadLine, IsName, ParseValue, AreItems, ItemLines, ItemValues, Header;
    if sections == [] {
    } else {
      var name, items, later := sections[0].name, sections[0].items, sections[1..];
      var st1 := Enter(st, name);
      var st2 := st1.(root := st.root[name := Entries(ItemValues(num, items, map[]))]);
      assert SectionLines(sections) == [Header(name)] + (ItemLines(items) + SectionLines(later));
      assert ([Header(name)] + (ItemLines(items) + SectionLines(later)))[1..] == ItemLines(items) + SectionLines(later);
      ReadHeader(num, name, st);
      assert name != "" by { NameIsNotEmpty(name); }
      assert forall i :: 0 <= i < |items| ==> IsItem(items[i]) by { ItemsAreItems(items); }
      ReadSectionItems(num, items, st1);
      assert st1.root[name := Entries(ItemValues(num, items, map[]))] == st2.root;
      ReadLinesConcat(num, ItemLines(items), SectionLines(later), Some(st1));
      ReadSections(num, later, st2);
    }
  }

  lemma ItemsAreItems(items: seq<Item>)
    requires AreItems(items)
    ensures forall i :: 0 <= i < |items| ==> IsItem(items[i])
  {
  }

  lemma NameIsNotEmpty(name: string)
    ensures IsName(name) ==> name != ""
  {
  }

  ghost predicate HasKey(items: seq<Item>, key: string) {
    exists i :: 0 <= i < |items| && items[i].Setting? && items[i].key == key
  }

  lemma {:induction false} PreambleKeys(num: Numerals, items: seq<Item>, root: map<string, Node>, key: string)
    requires key in PreambleNodes(num, items, root)
    ensures key in root || HasKey(items, key)
    decreases |items|
  {
    if items == [] {
    } else {
      var root' := match items[0]
                   case Note(_) => root
                   case Setting(key, value) => root[key := Leaf(ParseValue(num, value))];
      PreambleKeys(num, items[1..], root', key);
      if HasKey(items[1..], key) {
        var i :| 0 <= i < |items[1..]| && items[1..][i].Setting? && items[1..][i].key == key;
        assert items[i + 1] == items[1..][i];
      }
    }
  }

  /** Reading the lines of a canonical document gives the document's meaning. */
  lemma ReadDocument(num: Numerals, doc: Document)
    requires IsCanonical(doc)
    ensures ReadLines(num, Lines(doc), Some(EMPTY)).Some?
    ensures ReadLines(num, Lines(doc), Some(EMPTY)).value.root == Meaning(num, doc)
  {
    hide IsItem, IsName;
    var root := PreambleNodes(num, doc.preamble, map[]);
    ReadPreamble(num, doc.preamble, map[]);
    forall i | 0 <= i < |doc.sections|
      ensures doc.sections[i].name !in root
    {
      if doc.sections[i].name in root {
        PreambleKeys(num, doc.preamble, map[], doc.sections[i].name);
      }
    }
    ReadLinesConcat(num, ItemLines(doc.preamble), SectionLines(doc.sections), Some(EMPTY));
    ReadSections(num, doc.sections, Ini("", root));
  }
}
