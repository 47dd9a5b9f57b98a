/** What an edit of a settings file changes for a reader: the one setting, and nothing else. */
module ConfigMeaning {
  import opened Wrappers
  import opened ByteText
  import opened ConfigValues
  import opened ConfigText
  import opened ConfigReader
  import opened ConfigDocument
  import opened ConfigSearch
  import opened ConfigRefinement
  import ConfigIdempotence

  /** What `get_project_setting` finds, before it is printed; sections are not settings. */
  function Lookup(root: map<string, Node>, section: string, key: string): Option<Value> {
    if section == "" then
      if key in root && root[key].Leaf? then Some(root[key].v) else None
    else if section in root && root[section].Entries? && key in root[section].m then Some(root[section].m[key])
    else None
  }

  function Put(root: map<string, Node>, section: string, key: string, v: Value): map<string, Node> {
    var m := if section in root && root[section].Entries? then root[section].m else map[];
    root[section := Entries(m[key := v])]
  }

  // ---------- Entries ----------

  function AfterItem(num: Numerals, item: Item, m: map<string, Value>): map<string, Value> {
    match item case Note(_) => m case Setting(key, value) => m[key := ParseValue(num, value)]
  }

  lemma {:induction false} ItemValuesConcat(num: Numerals, a: seq<Item>, b: seq<Item>, m: map<string, Value>)
    ensures ItemValues(num, a + b, m) == ItemValues(num, b, ItemValues(num, a, m))
    decreases |a|
  {
    hide ParseValue;
    if a == [] {
      assert a + b == b;
    } else {
      assert (a + b)[1..] == a[1..] + b;
      ItemValuesConcat(num, a[1..], b, AfterItem(num, a[0], m));
    }
  }

  lemma {:induction false} OtherItems(num: Numerals, items: seq<Item>, m: map<string, Value>, key: string, v: Value)
    requires forall i :: 0 <= i < |items| && items[i].Setting? ==> items[i].key != key
    ensures ItemValues(num, items, m[key := v]) == ItemValues(num, items, m)[key := v]
    decreases |items|
  {
    hide ParseValue;
    if items == [] {
    } else {
      OtherItems(num, items[1..], AfterItem(num, items[0], m), key, v);
      assert AfterItem(num, items[0], m[key := v]) == AfterItem(num, items[0], m)[key := v];
    }
  }

  lemma OneItem(num: Numerals, item: Item, m: map<string, Value>)
    ensures ItemValues(num, [item], m) == AfterItem(num, item, m)
  {
    hide ParseValue;
    assert [item][1..] == [];
  }

  lemma SetItemValues(num: Numerals, items: seq<Item>, key: string, written: string)
    requires AreItems(items)
    ensures ItemValues(num, SetItem(items, key, written), map[])
         == ItemValues(num, items, map[])[key := ParseValue(num, written)]
  {
    var j, v := KeyIndex(items, key), ParseValue(num, written);
    hide ParseValue, ItemValues, KeyIndex, IsItem;
    if j < |items| {
      var before, later := ItemValues(num, items[..j], map[]), items[j + 1..];
      var was := ParseValue(num, items[j].value);
      assert items == items[..j] + ([items[j]] + later);
      assert SetItem(items, key, written) == items[..j] + ([Setting(key, written)] + later);
      ItemValuesConcat(num, items[..j], [items[j]] + later, map[]);
      ItemValuesConcat(num, items[..j], [Setting(key, written)] + later, map[]);
      ItemValuesConcat(num, [items[j]], later, before);
      ItemValuesConcat(num, [Setting(key, written)], later, before);
      OneItem(num, items[j], before);
      OneItem(num, Setting(key, written), before);
      OtherItems(num, later, before, key, was);
      OtherItems(num, later, before, key, v);
    } else {
      ItemValuesConcat(num, [Setting(key, written)], items, map[]);
      OneItem(num, Setting(key, written), map[]);
      OtherItems(num, items, map[], key, v);
    }
  }

  // ---------- Sections ----------

  lemma {:induction false} SectionNodesConcat(num: Numerals, a: seq<Section>, b: seq<Section>, root: map<string, Node>)
    ensures SectionNodes(num, a + b, root) == SectionNodes(num, b, SectionNodes(num, a, root))
    decreases |a|
  {
    hide ItemValues;
    if a == [] {
      assert a + b == b;
    } else {
      assert (a + b)[1..] == a[1..] + b;
      SectionNodesConcat(num, a[1..], b, root[a[0].name := Entries(ItemValues(num, a[0].items, map[]))]);
    }
  }

  lemma {:induction false} OtherSections(num: Numerals, sections: seq<Section>, root: map<string, Node>,
                                         name: string, n: Node)
    requires forall i :: 0 <= i < |sections| ==> sections[i].name != name
    ensures SectionNodes(num, sections, root[name := n]) == SectionNodes(num, sections, root)[name := n]
    decreases |sections|
  {
    hide ItemValues;
    if sections == [] {
    } else {
      var s0 := sections[0];
      var e := Entries(ItemValues(num, s0.items, map[]));
      OtherSections(num, sections[1..], root[s0.name := e], name, n);
      assert root[name := n][s0.name := e] == root[s0.name := e][name := n];
    }
  }

  lemma SectionNodesAt(num: Numerals, sections: seq<Section>, i: nat, root: map<string, Node>)
    requires i < |sections|
    requires forall j, k :: 0 <= j < k < |sections| ==> sections[j].name != sections[k].name
    ensures SectionNodes(num, sections, root)
         == SectionNodes(num, sections[..i] + sections[i + 1..], root)
              [sections[i].name := Entries(ItemValues(num, sections[i].items, map[]))]
  {
    hide ItemValues, SectionNodes;
    var before, later := SectionNodes(num, sections[..i], root), sections[i + 1..];
    var name, e := sections[i].name, Entries(ItemValues(num, sections[i].items, map[]));
    assert sections == sections[..i] + ([sections[i]] + later);
    SectionNodesConcat(num, sections[..i], [sections[i]] + later, root);
    SectionNodesConcat(num, [sections[i]], later, before);
    SectionNodesConcat(num, sections[..i], later, root);
    OneSection(num, sections[i], before);
    OtherSections(num, later, before, name, e);
  }

  lemma OneSection(num: Numerals, section: Section, root: map<string, Node>)
    ensures SectionNodes(num, [section], root) == root[section.name := Entries(ItemValues(num, section.items, map[]))]
  {
    hide ItemValues;
    assert [section][1..] == [];
  }

  lemma AddBlankMeaning(num: Numerals, doc: Document)
    ensures Meaning(num, AddBlank(doc)) == Meaning(num, doc)
  {
    hide ItemValues, SectionNodes, PreambleNodes;
    if doc.sections == [] {
      PreambleBlank(num, doc.preamble, map[]);
    } else {
      var s, last := doc.sections, |doc.sections| - 1;
      var root := PreambleNodes(num, doc.preamble, map[]);
      AddBlankParts(doc);
      assert s == s[..last] + [s[last]] && AddBlank(doc).sections == s[..last] + [AddBlank(doc).sections[last]];
      SectionNodesConcat(num, s[..last], [s[last]], root);
      SectionNodesConcat(num, s[..last], [AddBlank(doc).sections[last]], root);
      OneSection(num, s[last], SectionNodes(num, s[..last], root));
      OneSection(num, AddBlank(doc).sections[last], SectionNodes(num, s[..last], root));
      ItemValuesConcat(num, s[last].items, [Note("")], map[]);
      OneItem(num, Note(""), ItemValues(num, s[last].items, map[]));
    }
  }

  lemma {:induction false} PreambleBlank(num: Numerals, items: seq<Item>, root: map<string, Node>)
    ensures PreambleNodes(num, items + [Note("")], root) == PreambleNodes(num, items, root)
    decreases |items|
  {
    hide ParseValue;
    if items == [] {
      assert (items + [Note("")])[1..] == [];
    } else {
      assert (items + [Note("")])[1..] == items[1..] + [Note("")];
      PreambleBlank(num, items[1..], match items[0]
                                     case Note(_) => root
                                     case Setting(key, value) => root[key := Leaf(ParseValue(num, value))]);
    }
  }

  lemma {:induction false} NewName(num: Numerals, sections: seq<Section>, root: map<string, Node>, name: string)
    requires forall i :: 0 <= i < |sections| ==> sections[i].name != name
    ensures name in SectionNodes(num, sections, root) <==> name in root
    decreases |sections|
  {
    hide ItemValues;
    if sections == [] {
    } else {
      NewName(num, sections[1..], root[sections[0].name := Entries(ItemValues(num, sections[0].items, map[]))], name);
    }
  }

  /** The update of the document is the update of what it means. */
  lemma SetMeaning(num: Numerals, doc: Document, name: string, key: string, written: string)
    requires IsCanonical(doc) && !HasKey(doc.preamble, name)
    ensures Meaning(num, SetDocument(doc, name, key, written))
        == Put(Meaning(num, doc), name, key, ParseValue(num, written))
  {
    var i, v, root := SectionIndex(doc.sections, name), ParseValue(num, written),
        PreambleNodes(num, doc.preamble, map[]);
    hide ItemValues, SectionNodes, PreambleNodes, SetItem, AddBlank, ParseValue, IsItem, IsName, HasKey;
    if i < |doc.sections| {
      var s, s' := doc.sections, SetDocument(doc, name, key, written).sections;
      assert s'[..i] + s'[i + 1..] == s[..i] + s[i + 1..];
      SectionNodesAt(num, s, i, root);
      SectionNodesAt(num, s', i, root);
      SetItemValues(num, s[i].items, key, written);
    } else {
      AddBlankMeaning(num, doc);
      var blank := AddBlank(doc);
      SectionNodesConcat(num, blank.sections, [Section(name, [Setting(key, written)])],
                         PreambleNodes(num, blank.preamble, map[]));
      OneSection(num, Section(name, [Setting(key, written)]), Meaning(num, blank));
      OneItem(num, Setting(key, written), map[]);
      NewName(num, doc.sections, root, name);
      if name in root {
        PreambleKeys(num, doc.preamble, map[], name);
      }
    }
  }

  // ---------- Canonical files stay canonical ----------

  lemma SetItemStays(items: seq<Item>, key: string, written: string)
    requires AreItems(items) && IsKey(key) && '\n' !in written
    ensures AreItems(SetItem(items, key, written))
  {
    hide IsNote, IsKey;
    var j, r := KeyIndex(items, key), SetItem(items, key, written);
    assert forall i :: 0 <= i < |r| ==> IsItem(r[i]) by {
      assert j == |items| ==> forall i :: 1 <= i < |r| ==> r[i] == items[i - 1];
    }
  }

  lemma AddBlankStays(doc: Document)
    requires IsCanonical(doc)
    ensures IsCanonical(AddBlank(doc)) && |AddBlank(doc).sections| == |doc.sections|
    ensures forall i :: 0 <= i < |doc.sections| ==> AddBlank(doc).sections[i].name == doc.sections[i].name
    ensures forall key :: HasKey(AddBlank(doc).preamble, key) ==> HasKey(doc.preamble, key)
  {
    hide IsKey, IsName;
    assert IsNote("");
    hide IsNote;
  }

  lemma SetStaysCanonical(doc: Document, name: string, key: string, written: string)
    requires IsCanonical(doc) && IsName(name) && IsKey(key) && '\n' !in written && !HasKey(doc.preamble, name)
    ensures IsCanonical(SetDocument(doc, name, key, written))
  {
    var i := SectionIndex(doc.sections, name);
    if i < |doc.sections| {
      SetItemStays(doc.sections[i].items, key, written);
      hide AreItems, IsName, SetItem;
    } else {
      AddBlankStays(doc);
      var blank := AddBlank(doc);
      assert AreItems([Setting(key, written)]);
      hide AreItems, IsName, AddBlank, IsKey;
      assert !HasKey(blank.preamble, name);
    }
  }

  // ---------- Reading after writing ----------

  function Read(num: Numerals, text: string): Option<Ini> {
    ReadText(num, text, Some(EMPTY))
  }

  lemma ReadCanonical(num: Numerals, doc: Document)
    requires IsCanonical(doc)
    ensures Read(num, Join(Lines(doc))).Some? && Read(num, Join(Lines(doc))).value.root == Meaning(num, doc)
  {
    hide ReadText, Lines, Join, IsCanonical, Meaning;
    CanonicalLines(doc);
    ReadTerminated(num, Lines(doc), Some(EMPTY));
    ReadDocument(num, doc);
  }

  /** The one setting reads as written; every other section and key reads as before. */
  ghost predicate OnlyChanges(before: map<string, Node>, after: map<string, Node>, section: string, key: string,
                              v: Value)
  {
    forall s, k :: Lookup(after, s, k) == if s == section && k == key then Some(v) else Lookup(before, s, k)
  }

  lemma PutOnlyChanges(root: map<string, Node>, section: string, key: string, v: Value)
    requires section != "" && (section in root ==> root[section].Entries?)
    ensures OnlyChanges(root, Put(root, section, key, v), section, key, v)
  {
  }

  lemma {:induction false} SectionsAreEntries(num: Numerals, sections: seq<Section>, root: map<string, Node>,
                                              name: string)
    requires name in root ==> root[name].Entries?
    ensures var r := SectionNodes(num, sections, root); name in r ==> r[name].Entries?
    decreases |sections|
  {
    hide ItemValues;
    if sections == [] {
    } else {
      SectionsAreEntries(num, sections[1..],
                         root[sections[0].name := Entries(ItemValues(num, sections[0].items, map[]))], name);
    }
  }

  /** A file the editor and the reader agree on: canonical, and findable where the setting goes. */
  ghost predicate IsEditable(doc: Document, name: string, key: string) {
    && IsCanonical(doc) && Lines(doc) != [] && !HasKey(doc.preamble, name)
    && IsName(name) && IsKey(key) && IsFindable(doc, name, key)
  }

  /**
   Setting a value and reading the file back gives the value as written, and changes no other
   setting, whether the section is appended, the line replaced, or a line inserted.
   */
  lemma SetThenRead(num: Numerals, doc: Document, name: string, key: string, value: string)
    requires IsEditable(doc, name, key) && '\n' !in value
    ensures var before, written := Join(Lines(doc)), Format(Existing(doc, name, key), value);
      && SetText(before, name, key, value).Some?
      && var after := SetText(before, name, key, value).value;
      && Read(num, before).Some? && Read(num, after).Some?
      && OnlyChanges(Read(num, before).value.root, Read(num, after).value.root, name, key, ParseValue(num, written))
  {
    var written := Format(Existing(doc, name, key), value);
    assert name != "";
    hide ReadText, Lines, Join, IsCanonical, IsName, IsKey, IsFindable, HasKey, SetText, Format, ParseValue,
         OnlyChanges, SetDocument, Put, Existing;
    FormatKeepsLines(Existing(doc, name, key), value);
    SetRefines(doc, name, key, value);
    SetStaysCanonical(doc, name, key, written);
    ReadCanonical(num, doc);
    ReadCanonical(num, SetDocument(doc, name, key, written));
    SetMeaning(num, doc, name, key, written);
    MeaningHasEntries(num, doc, name);
    PutOnlyChanges(Meaning(num, doc), name, key, ParseValue(num, written));
  }

  lemma MeaningHasEntries(num: Numerals, doc: Document, name: string)
    requires !HasKey(doc.preamble, name)
    ensures name in Meaning(num, doc) ==> Meaning(num, doc)[name].Entries?
  {
    hide ItemValues, SectionNodes, PreambleNodes, HasKey;
    var root := PreambleNodes(num, doc.preamble, map[]);
    assert name !in root by {
      if name in root {
        PreambleKeys(num, doc.preamble, map[], name);
      }
    }
    SectionsAreEntries(num, doc.sections, root, name);
  }

  // ---------- A last line without a newline ----------

  lemma FindWithNewline(t: string, p: string, from: nat)
    requires p != "" && '\n' !in p
    ensures Find(t + "\n", p, from) == Find(t, p, from)
  {
    hide Find;
    forall j: nat
      ensures OccursAt(t + "\n", p, j) == OccursAt(t, p, j)
    {
      if j + |p| <= |t| {
        assert (t + "\n")[j..j + |p|] == t[j..j + |p|];
      } else if j <= |t| {
        SpansNewline(t + "\n", p, j, |t|);
      }
    }
    var r := Find(t, p, from);
    if r.Some? {
      FindIs(t + "\n", p, from, r.value);
    } else {
      FindIsNone(t + "\n", p, from);
    }
  }

  lemma SectionEndWithNewline(t: string, from: nat)
    ensures SectionEnd(t + "\n", from) == if Find(t, "\n[", from).None? then |t| + 1 else SectionEnd(t, from)
  {
    hide Find;
    forall j: nat
      ensures OccursAt(t + "\n", "\n[", j) == OccursAt(t, "\n[", j)
    {
      if j + 2 <= |t| {
        assert (t + "\n")[j..j + 2] == t[j..j + 2];
      } else if j + 2 == |t| + 1 {
        assert (t + "\n")[j..j + 2][1] == '\n';
      }
    }
    var r := Find(t, "\n[", from);
    if r.Some? {
      FindIs(t + "\n", "\n[", from, r.value);
    } else {
      FindIsNone(t + "\n", "\n[", from);
    }
  }

  lemma LineEndWithNewline(t: string, i: nat)
    requires i <= |t|
    ensures LineEnd(t + "\n", i) == LineEnd(t, i)
  {
    hide LineEnd;
    var n := LineEnd(t, i);
    assert (t + "\n")[i..n] == t[i..n];
    LineEndIs(t + "\n", i, n);
  }

  lemma ReplaceWithNewline(t: string, at: nat, key: string, value: string)
    requires at <= |t| && at + |KeyPrefix(key)| <= LineEnd(t, at)
    ensures ReplaceLine(t + "\n", at, key, value) == ReplaceLine(t, at, key, value) + "\n"
  {
    hide LineEnd, KeyPrefix, Format;
    LineEndWithNewline(t, at);
    var p, start, end := KeyPrefix(key), at + |KeyPrefix(key)|, LineEnd(t, at);
    assert (t + "\n")[..at] == t[..at] && (t + "\n")[end..] == t[end..] + "\n";
    assert (t + "\n")[start..end] == t[start..end];
    var f := Format(t[start..end], value);
    assert t[..at] + p + f + (t[end..] + "\n") == (t[..at] + p + f + t[end..]) + "\n";
  }

  lemma InsertWithNewline(t: string, from: nat, key: string, value: string)
    requires from < |t|
    ensures InsertLine(t + "\n", from, key, value) == InsertLine(t, from, key, value) + "\n"
  {
    hide KeyPrefix, Format;
    var at := if t[from] == '\n' then from + 1 else from;
    assert (t + "\n")[..at] == t[..at] && (t + "\n")[at..] == t[at..] + "\n";
  }

  /** The edit does not care whether the last line ends in a newline, unless that line is the header. */
  lemma SetWithNewline(t: string, name: string, key: string, value: string)
    requires t != "" && t[|t| - 1] != '\n' && IsName(name) && IsKey(key)
    requires var at := Find(t, Header(name), 0); at.Some? ==> at.value + |Header(name)| < |t|
    ensures SetText(t, name, key, value).Some? && SetText(t + "\n", name, key, value).Some?
    ensures var r, r' := SetText(t, name, key, value).value, SetText(t + "\n", name, key, value).value;
      r' == r || r' == r + "\n"
  {
    hide *;
    HeaderIsLine(name);
    PrefixIsPlain(key);
    var h, p := Header(name), KeyPrefix(key);
    FindWithNewline(t, h, 0);
    match Find(t, h, 0) {
      case None =>
        AppendWithNewline(t, name, key, value);
      case Some(sp) =>
        var from := sp + |h|;
        FindWithNewline(t, p, from);
        SectionEndWithNewline(t, from);
        FindBounds(t, p, from);
        SectionEndBounds(t, from);
        var found := Find(t, p, from);
        if found.Some? && found.value < SectionEnd(t, from) {
          SetReplaces(t, name, key, value, sp, found.value);
          SetReplaces(t + "\n", name, key, value, sp, found.value);
          ConfigIdempotence.PrefixHere(t, found.value, p);
          ReplaceWithNewline(t, found.value, key, value);
        } else {
          SetInserts(t, name, key, value, sp);
          SetInserts(t + "\n", name, key, value, sp);
          InsertWithNewline(t, from, key, value);
        }
    }
  }

  lemma SectionEndBounds(t: string, from: nat)
    ensures SectionEnd(t, from) <= |t|
    ensures Find(t, "\n[", from).None? ==> SectionEnd(t, from) == |t|
  {
    hide Find;
  }

  lemma AppendWithNewline(t: string, name: string, key: string, value: string)
    requires t != "" && t[|t| - 1] != '\n'
    requires Find(t, Header(name), 0).None? && Find(t + "\n", Header(name), 0).None?
    ensures SetText(t, name, key, value) == SetText(t + "\n", name, key, value) != None
  {
    hide Find, Format, Header, KeyPrefix, ReplaceLine, InsertLine;
  }

  lemma ReadWithNewline(num: Numerals, lines: seq<string>, last: string)
    requires AreLines(lines) && '\n' !in last
    ensures Read(num, Join(lines) + last) == Read(num, Join(lines + [last]))
  {
    hide ReadText, ReadLines, Join;
    ReadJoin(num, lines, last, Some(EMPTY));
    ReadTerminated(num, lines + [last], Some(EMPTY));
  }

  // ---------- What happens when a key is not findable ----------

  lemma NotHereInText(t: string, p: string, j: nat, k: nat)
    requires k < |p| && j + k < |t| && t[j + k] != p[k]
    ensures !OccursAt(t, p, j)
  {
    if j + |p| <= |t| {
      assert t[j..j + |p|][k] == t[j + k];
    }
  }

  lemma OpensNowhere(t: string, from: nat)
    requires forall k :: from < k < |t| ==> t[k] != '['
    ensures SectionEnd(t, from) == |t|
  {
    hide Find;
    forall j: nat | from <= j
      ensures !OccursAt(t, "\n[", j)
    {
      if j + 1 < |t| {
        NotHereInText(t, "\n[", j, 1);
      }
    }
    FindIsNone(t, "\n[", from);
  }

  const CLOBBERED := "[s]\nxk=1\nk=2\n"

  lemma SearchesFind()
    ensures Find(CLOBBERED, "[s]", 0) == Some(0) && Find(CLOBBERED, "k=", 3) == Some(5)
  {
    var t := CLOBBERED;
    assert t[0..3] == "[s]" && t[5..7] == "k=";
    hide Find;
    FindIs(t, "[s]", 0, 0);
    NotHereInText(t, "k=", 3, 0);
    NotHereInText(t, "k=", 4, 0);
    FindIs(t, "k=", 3, 5);
  }

  lemma LineOfClobbered()
    ensures LineEnd(CLOBBERED, 5) == 8 && SectionEnd(CLOBBERED, 3) == |CLOBBERED| && CLOBBERED[7..8] == "1"
    ensures CLOBBERED[..5] + "k=" + "true" + CLOBBERED[8..] == "[s]\nxk=true\nk=2\n"
  {
    hide LineEnd, SectionEnd, Find;
    assert CLOBBERED[5..8] == "k=1";
    LineEndIs(CLOBBERED, 5, 8);
    OpensNowhere(CLOBBERED, 3);
  }

  lemma ShortNames()
    ensures Header("s") == "[s]" && KeyPrefix("k") == "k=" && Format("1", "true") == "true"
  {
    assert Unwrap("true") == "true" && "true" in BARE;
  }

  /** The search is for bare text: a key that ends another key before it in its section changes that one instead. */
  lemma SuffixIsClobbered()
    ensures SetText(CLOBBERED, "s", "k", "true") == Some("[s]\nxk=true\nk=2\n")
  {
    hide *;
    ShortNames();
    SearchesFind();
    LineOfClobbered();
    SetReplaces(CLOBBERED, "s", "k", "true", 0, 5);
    ReplacedLineIs(CLOBBERED, 5, "k", "true", "k=", 8);
  }

  lemma ReplacedLineIs(content: string, at: nat, key: string, value: string, p: string, end: nat)
    requires KeyPrefix(key) == p && at + |p| <= |content| && LineEnd(content, at) == end && at + |p| <= end <= |content|
    ensures ReplaceLine(content, at, key, value)
         == content[..at] + p + Format(content[at + |p|..end], value) + content[end..]
  {
    hide KeyPrefix, LineEnd, Format;
  }
}
