/** Exactly when `remove_autoload` takes back `add_autoload`. */
module ConfigUndo {
  import opened Wrappers
  import opened ByteText
  import opened ConfigValues
  import opened ConfigText
  import opened ConfigReader
  import opened ConfigDocument
  import opened ConfigSearch
  import opened ConfigRefinement
  import opened ConfigMeaning
  import opened ConfigAutoload

  /** Whatever runs on after a header is lost to the reader. */
  lemma ReadRunOn(num: Numerals, name: string, x: string, st: Ini)
    requires IsName(name)
    ensures ReadLine(num, Header(name) + x, st) == Some(Enter(st, name))
  {
    hide Find;
    var h := Header(name);
    var line := h + x;
    assert SkipSpace(line) == 0 && line[0..] == line && h[|h| - 1] == ']';
    TrimRightAfter(h, x);
    var t := h + TrimRight(x);
    assert ']' !in "[" + name;
    FindByte("[" + name, ']', TrimRight(x));
    assert t == "[" + name + [']'] + TrimRight(x) && t[1..|name| + 1] == name;
    hide Trim, TrimRight, Header, Enter;
  }

  /** The section takes over the entries of the next one, whose header is gone. */
  function Merge(doc: Document, i: nat): Document
    requires i + 1 < |doc.sections|
  {
    doc.(sections := doc.sections[..i] + [Section(doc.sections[i].name, doc.sections[i + 1].items)]
        + doc.sections[i + 2..])
  }

  /** What reading a file finds after the first entry of section `i` has been removed from it. */
  function Undo(doc: Document, i: nat): Document
    requires i < |doc.sections| && doc.sections[i].items != []
  {
    var items := doc.sections[i].items[1..];
    if items != [] then WithItems(doc, i, items[1..])
    else if i + 1 < |doc.sections| then Merge(doc, i)
    else WithItems(doc, i, [])
  }

  lemma MergeCanonical(doc: Document, i: nat)
    requires IsCanonical(doc) && i + 1 < |doc.sections|
    ensures IsCanonical(Merge(doc, i))
  {
    hide AreItems, IsName;
    var s, s' := doc.sections, Merge(doc, i).sections;
    assert forall k :: 0 <= k < |s'| ==>
      s'[k] == if k < i then s[k] else if k == i then Section(s[i].name, s[i + 1].items) else s[k + 1];
  }

  lemma UndoCanonical(doc: Document, i: nat)
    requires IsCanonical(doc) && i < |doc.sections| && doc.sections[i].items != []
    ensures IsCanonical(Undo(doc, i))
  {
    var all := doc.sections[i].items;
    assert AreItems(all);
    hide IsName;
    if |all| > 1 {
      assert AreItems(all[2..]);
      hide AreItems;
      assert all[1..][1..] == all[2..];
      WithItemsCanonical(doc, i, all[2..]);
    } else if i + 1 < |doc.sections| {
      MergeCanonical(doc, i);
    } else {
      assert AreItems([]);
      WithItemsCanonical(doc, i, []);
    }
  }

  /** The lines of the file after the header of section `i`, from its second line on. */
  lemma UndoLines(doc: Document, i: nat)
    requires i < |doc.sections| && doc.sections[i].items != []
    ensures var r := LinesFrom(doc, i, 1);
      Lines(Undo(doc, i)) == LinesBefore(doc, i, 0) + if r == [] then [] else r[1..]
  {
    var all, later := doc.sections[i].items, doc.sections[i + 1..];
    var items := all[1..];
    hide ItemLine, Header, Lines, LinesBefore;
    if items != [] {
      var d := WithItems(doc, i, items[1..]);
      SameBefore(doc, d, i);
      LinesSplit(d, i, 0);
      assert d.sections[i].items[0..] == items[1..] && d.sections[i + 1..] == later;
    } else if later != [] {
      var d := Merge(doc, i);
      SameBefore(doc, d, i);
      LinesSplit(d, i, 0);
      assert d.sections[i].items[0..] == later[0].items && d.sections[i + 1..] == later[1..];
    } else {
      var d := WithItems(doc, i, []);
      SameBefore(doc, d, i);
      LinesSplit(d, i, 0);
      assert d.sections[i + 1..] == [];
    }
  }

  lemma SameBefore(doc: Document, d: Document, i: nat)
    requires i < |doc.sections| && i < |d.sections| && d.preamble == doc.preamble
    requires d.sections[..i] == doc.sections[..i] && d.sections[i].name == doc.sections[i].name
    ensures LinesBefore(d, i, 0) == LinesBefore(doc, i, 0)
  {
    hide ItemLines, SectionLines, Header;
    assert d.sections[i].items[..0] == [] == doc.sections[i].items[..0];
  }

  /** The lines before the first entry end with the header. */
  lemma BeforeFirst(doc: Document, i: nat)
    requires i < |doc.sections|
    ensures var before, a := LinesBefore(doc, i, 0), ItemLines(doc.preamble) + SectionLines(doc.sections[..i]);
      before == a + [Header(doc.sections[i].name)]
  {
    assert ItemLines(doc.sections[i].items[..0]) == [];
    hide SectionLines, Header;
  }

  lemma ReadUndone(num: Numerals, doc: Document, name: string, i: nat)
    requires HasAutoload(doc, name, i, 0)
    ensures i < |doc.sections| && doc.sections[i].items != []
    ensures RemoveText(Join(Lines(doc)), name).Some?
    ensures var after := RemoveText(Join(Lines(doc)), name).value;
      Read(num, after).Some? && Read(num, after).value.root == Meaning(num, Undo(doc, i))
  {
    hide *;
    EntryFacts(doc, name, i, 0);
    RemovedText(doc, name, i, 0);
    ReadFused(num, doc, i);
    UndoLines(doc, i);
    UndoCanonical(doc, i);
    ReadDocument(num, Undo(doc, i));
  }

  /** The header with the line after the first entry run on to it reads as the header alone does. */
  lemma ReadFused(num: Numerals, doc: Document, i: nat)
    requires IsCanonical(doc) && i < |doc.sections| && doc.sections[i].items != [] && doc.sections[i].name == AUTOLOAD
    ensures var before, r := LinesBefore(doc, i, 0), LinesFrom(doc, i, 1);
      before != []
      && Read(num, Join(before[..|before| - 1]) + before[|before| - 1] + Join(r))
      == ReadLines(num, before + if r == [] then [] else r[1..], Some(EMPTY))
  {
    hide *;
    var before, r := LinesBefore(doc, i, 0), LinesFrom(doc, i, 1);
    var a := ItemLines(doc.preamble) + SectionLines(doc.sections[..i]);
    AutoloadIsName();
    BeforeFirst(doc, i);
    assert before[..|before| - 1] == a && before[|before| - 1] == Header(AUTOLOAD);
    CanonicalLines(doc);
    LinesSplit(doc, i, 1);
    LinesSplit(doc, i, 0);
    PartsAreLines(before, LinesFrom(doc, i, 0));
    PartsAreLines(LinesBefore(doc, i, 1), r);
    RunOnReads(num, AUTOLOAD, a, r);
  }

  lemma PartsAreLines(a: seq<string>, b: seq<string>)
    requires AreLines(a + b)
    ensures AreLines(a) && AreLines(b)
  {
    assert forall i :: 0 <= i < |a| ==> a[i] == (a + b)[i];
    assert forall i :: 0 <= i < |b| ==> b[i] == (a + b)[|a| + i];
  }

  lemma RunOnReads(num: Numerals, name: string, a: seq<string>, r: seq<string>)
    requires AreLines(a + [Header(name)]) && AreLines(r) && IsName(name)
    ensures Read(num, Join(a) + Header(name) + Join(r))
         == ReadLines(num, a + [Header(name)] + (if r == [] then [] else r[1..]), Some(EMPTY))
  {
    hide *;
    var h := Header(name);
    PartsAreLines(a, [h]);
    assert '\n' !in h by { HeaderIsLine(name); }
    if r == [] {
      JoinNothing();
      assert Join(a) + h + Join(r) == Join(a) + h && a + [h] + [] == a + [h];
      ReadIs(num, Join(a) + h);
      ReadJoin(num, a, h, Some(EMPTY));
    } else {
      var joined := a + ([h + r[0]] + r[1..]);
      RunOnText(a, h, r);
      RunOnAreLines(a, h, r);
      ReadIs(num, Join(joined));
      ReadTerminated(num, joined, Some(EMPTY));
      ReadLinesConcat(num, a, [h + r[0]] + r[1..], Some(EMPTY));
      ReadLinesConcat(num, a, [h] + r[1..], Some(EMPTY));
      assert a + [h] + r[1..] == a + ([h] + r[1..]);
      SameAfterHeader(num, name, r[0], r[1..], ReadLines(num, a, Some(EMPTY)));
    }
  }

  lemma ReadIs(num: Numerals, text: string)
    ensures Read(num, text) == ReadText(num, text, Some(EMPTY))
  {
  }

  lemma RunOnText(a: seq<string>, h: string, r: seq<string>)
    requires r != []
    ensures Join(a) + h + Join(r) == Join(a + ([h + r[0]] + r[1..]))
  {
    hide *;
    JoinUnfold(r);
    JoinConcat(a, [h + r[0]] + r[1..]);
    JoinConcat([h + r[0]], r[1..]);
    JoinOne(h + r[0]);
    assert Join(a) + h + (r[0] + "\n" + Join(r[1..])) == Join(a) + (h + r[0] + "\n" + Join(r[1..]));
  }

  lemma RunOnAreLines(a: seq<string>, h: string, r: seq<string>)
    requires r != [] && AreLines(a) && AreLines(r) && '\n' !in h
    ensures AreLines(a + ([h + r[0]] + r[1..]))
  {
  }

  lemma SameAfterHeader(num: Numerals, name: string, x: string, r: seq<string>, st: Option<Ini>)
    requires IsName(name)
    ensures ReadLines(num, [Header(name) + x] + r, st) == ReadLines(num, [Header(name)] + r, st)
  {
    hide ReadLine, Header, IsName;
    if st.Some? {
      ReadRunOn(num, name, x, st.value);
      ReadHeader(num, name, st.value);
      assert ([Header(name) + x] + r)[1..] == r && ([Header(name)] + r)[1..] == r;
    }
  }

  // ---------- Adding, then removing ----------

  /** Nothing of the file's runs on after the header: a note does, which the reader ignores, or nothing at all. */
  predicate Undoes(doc: Document, i: nat)
    requires i < |doc.sections|
  {
    var items := doc.sections[i].items;
    if items == [] then i + 1 == |doc.sections| else items[0].Note?
  }

  /** The file with a new autoload first in its section. */
  lemma AddedFirst(doc: Document, name: string, written: string)
    requires IsEditable(doc, AUTOLOAD, name) && '\n' !in written
    requires var i := SectionIndex(doc.sections, AUTOLOAD);
      i < |doc.sections| ==> KeyIndex(doc.sections[i].items, name) == |doc.sections[i].items|
    ensures HasAutoload(SetDocument(doc, AUTOLOAD, name, written), name, SectionIndex(doc.sections, AUTOLOAD), 0)
  {
    var i, d := SectionIndex(doc.sections, AUTOLOAD), SetDocument(doc, AUTOLOAD, name, written);
    SetStaysCanonical(doc, AUTOLOAD, name, written);
    assert IsKey(name);
    hide IsCanonical, IsKey, IsName, Header, KeyPrefix, Lines;
    if i < |doc.sections| {
      assert d.sections[..i] == doc.sections[..i] && d.sections[i].items[..0] == [];
      IndexOfSection(d.sections, i);
    } else {
      NewSectionFindable(doc, name, written);
    }
  }

  lemma IndexOfSection(sections: seq<Section>, i: nat)
    requires i < |sections| && sections[i].name == AUTOLOAD
    requires forall k :: 0 <= k < i ==> sections[k].name != AUTOLOAD
    ensures SectionIndex(sections, AUTOLOAD) == i
  {
  }

  lemma NewSectionFindable(doc: Document, name: string, written: string)
    requires IsEditable(doc, AUTOLOAD, name) && SectionIndex(doc.sections, AUTOLOAD) == |doc.sections|
    ensures var d := SetDocument(doc, AUTOLOAD, name, written);
      && SectionIndex(d.sections, AUTOLOAD) == |doc.sections| < |d.sections|
      && KeyIndex(d.sections[|doc.sections|].items, name) == 0
      && IsFindable(d, AUTOLOAD, name)
  {
    var n, d, blank := |doc.sections|, SetDocument(doc, AUTOLOAD, name, written), AddBlank(doc);
    AddBlankStays(doc);
    AddBlankLines(doc);
    assert doc.sections[..n] == doc.sections && NoneContains(Lines(doc), Header(AUTOLOAD));
    hide AddBlank, IsCanonical, ItemLines, SectionLines;
    assert d.sections[..n] == blank.sections && d.preamble == blank.preamble && d.sections[n].items[..0] == [];
    IndexOfSection(d.sections, n);
    assert ItemLines([]) == [] by { NoItemLines(); }
    assert !Contains("", Header(AUTOLOAD)) by { NothingContains(); }
    assert Lines(blank) == Lines(doc) + [""];
  }

  lemma NoItemLines()
    ensures ItemLines([]) == []
  {
  }

  lemma NothingContains()
    ensures !Contains("", Header(AUTOLOAD))
  {
  }

  lemma FirstItemMeaning(num: Numerals, items: seq<Item>)
    requires AreItems(items) && items != []
    ensures items[0].Note? ==> ItemValues(num, items[1..], map[]) == ItemValues(num, items, map[])
    ensures items[0].Setting? ==> ItemValues(num, items[1..], map[]) == ItemValues(num, items, map[]) - {items[0].key}
    ensures items[0].Setting? ==> items[0].key in ItemValues(num, items, map[])
  {
    hide IsItem;
    assert items[..0] + items[1..] == items[1..];
    if items[0].Note? {
      ValuesWithoutBlank(num, items, 0);
    } else {
      ValuesWithout(num, items, 0);
      assert items == [items[0]] + items[1..];
      ItemValuesConcat(num, [items[0]], items[1..], map[]);
      OneItem(num, items[0], map[]);
      OtherItems(num, items[1..], map[], items[0].key, ParseValue(num, items[0].value));
    }
  }

  /** Two canonical files that differ in one section's entries mean the same only if the entries do. */
  lemma WithItemsCompare(num: Numerals, doc: Document, i: nat, items: seq<Item>)
    requires IsCanonical(doc) && i < |doc.sections|
    ensures Meaning(num, WithItems(doc, i, items)) == Meaning(num, doc)
       <==> ItemValues(num, items, map[]) == ItemValues(num, doc.sections[i].items, map[])
  {
    hide ItemValues, SectionNodes, PreambleNodes, AreItems, IsName;
    var s, s' := doc.sections, WithItems(doc, i, items).sections;
    var root := PreambleNodes(num, doc.preamble, map[]);
    assert s'[..i] + s'[i + 1..] == s[..i] + s[i + 1..];
    SectionNodesAt(num, s, i, root);
    SectionNodesAt(num, s', i, root);
    assert Meaning(num, doc)[s[i].name].m == ItemValues(num, s[i].items, map[]);
    assert Meaning(num, WithItems(doc, i, items))[s[i].name].m == ItemValues(num, items, map[]);
  }

  /** Merging loses the next section. */
  lemma MergeLoses(num: Numerals, doc: Document, i: nat)
    requires IsCanonical(doc) && i + 1 < |doc.sections|
    ensures doc.sections[i + 1].name in Meaning(num, doc)
    ensures doc.sections[i + 1].name !in Meaning(num, Merge(doc, i))
  {
    hide ItemValues, SectionNodes, PreambleNodes, AreItems, IsName;
    var s, s', name := doc.sections, Merge(doc, i).sections, doc.sections[i + 1].name;
    var root := PreambleNodes(num, doc.preamble, map[]);
    SectionNodesAt(num, s, i + 1, root);
    forall k | 0 <= k < |s'|
      ensures s'[k].name != name
    {
      assert s'[k] == if k < i then s[k] else if k == i then Section(s[i].name, s[i + 1].items) else s[k + 1];
    }
    NewName(num, s', root, name);
    if name in root {
      PreambleKeys(num, doc.preamble, map[], name);
    }
  }

  /** What the reader finds after an addition to a present section and its removal. */
  lemma UndoMeans(num: Numerals, doc: Document, name: string, written: string)
    requires IsCanonical(doc) && SectionIndex(doc.sections, AUTOLOAD) < |doc.sections|
    requires KeyIndex(doc.sections[SectionIndex(doc.sections, AUTOLOAD)].items, name)
          == |doc.sections[SectionIndex(doc.sections, AUTOLOAD)].items|
    ensures var i, d := SectionIndex(doc.sections, AUTOLOAD), SetDocument(doc, AUTOLOAD, name, written);
      d.sections[i].items != []
      && (Meaning(num, Undo(d, i)) == Meaning(num, doc) <==> Undoes(doc, i))
  {
    var i, d := SectionIndex(doc.sections, AUTOLOAD), SetDocument(doc, AUTOLOAD, name, written);
    var items := doc.sections[i].items;
    assert AreItems(items);
    assert d.sections[i].items[1..] == items;
    hide Meaning, IsCanonical, ItemValues, AreItems, SectionIndex, KeyIndex;
    if items != [] {
      assert WithItems(d, i, items[1..]) == WithItems(doc, i, items[1..]);
      WithItemsCompare(num, doc, i, items[1..]);
      FirstItemMeaning(num, items);
    } else if i + 1 < |doc.sections| {
      assert Merge(d, i) == Merge(doc, i);
      MergeLoses(num, doc, i);
    } else {
      assert WithItems(d, i, []) == doc;
    }
  }

  /**
   In a canonical file with the section and without the name, removing what was just added leaves
   every reading as it was exactly when the line after the header is one the reader ignores, or
   there is none. Otherwise that line is lost.
   */
  lemma AddThenRemove(num: Numerals, doc: Document, name: string, path: string)
    requires IsEditable(doc, AUTOLOAD, name) && '\n' !in path
    requires SectionIndex(doc.sections, AUTOLOAD) < |doc.sections|
    requires KeyIndex(doc.sections[SectionIndex(doc.sections, AUTOLOAD)].items, name)
          == |doc.sections[SectionIndex(doc.sections, AUTOLOAD)].items|
    ensures var before := Join(Lines(doc));
      && AddText(before, name, path).Some? && RemoveText(AddText(before, name, path).value, name).Some?
      && var after := RemoveText(AddText(before, name, path).value, name).value;
      && Read(num, before).Some? && Read(num, after).Some?
      && (Read(num, after).value.root == Read(num, before).value.root
          <==> Undoes(doc, SectionIndex(doc.sections, AUTOLOAD)))
  {
    var value := "\"" + path + "\"";
    var written := Format("", value);
    assert '\n' !in value;
    EditableFacts(doc, name);
    hide *;
    FormatKeepsLines("", value);
    AbsentIsEmpty(doc, name);
    SetRefines(doc, AUTOLOAD, name, value);
    AddIsSet(Join(Lines(doc)), name, path);
    AddedFirst(doc, name, written);
    ReadUndone(num, SetDocument(doc, AUTOLOAD, name, written), name, SectionIndex(doc.sections, AUTOLOAD));
    ReadCanonical(num, doc);
    UndoMeans(num, doc, name, written);
  }

  lemma EditableFacts(doc: Document, name: string)
    requires IsEditable(doc, AUTOLOAD, name)
    ensures IsCanonical(doc) && Lines(doc) != [] && IsName(AUTOLOAD) && IsKey(name) && IsFindable(doc, AUTOLOAD, name)
    ensures !HasKey(doc.preamble, AUTOLOAD)
  {
  }

  lemma AddIsSet(content: string, name: string, path: string)
    ensures AddText(content, name, path) == SetText(content, AUTOLOAD, name, "\"" + path + "\"")
  {
    hide SetText;
  }

  lemma AbsentIsEmpty(doc: Document, name: string)
    requires var i := SectionIndex(doc.sections, AUTOLOAD);
      i < |doc.sections| ==> KeyIndex(doc.sections[i].items, name) == |doc.sections[i].items|
    ensures Existing(doc, AUTOLOAD, name) == ""
  {
  }

  /** Without the section, the pair leaves an empty section behind, which no reading shows. */
  lemma AddThenRemoveNewSection(num: Numerals, dump: Value -> string, doc: Document, name: string, path: string)
    requires IsEditable(doc, AUTOLOAD, name) && '\n' !in path
    requires SectionIndex(doc.sections, AUTOLOAD) == |doc.sections|
    ensures var before := Join(Lines(doc));
      && AddText(before, name, path).Some? && RemoveText(AddText(before, name, path).value, name).Some?
      && var after := RemoveText(AddText(before, name, path).value, name).value;
      && Read(num, before).Some? && Read(num, after).Some?
      && var (r, r') := (Read(num, before).value.root, Read(num, after).value.root);
      && (forall s, k :: Lookup(r', s, k) == Lookup(r, s, k))
      && Autoloads(dump, r') == Autoloads(dump, r) == map[]
  {
    var value := "\"" + path + "\"";
    var written := Format("", value);
    assert '\n' !in value;
    EditableFacts(doc, name);
    hide *;
    FormatKeepsLines("", value);
    AbsentIsEmpty(doc, name);
    SetRefines(doc, AUTOLOAD, name, value);
    AddIsSet(Join(Lines(doc)), name, path);
    AddedFirst(doc, name, written);
    var d := SetDocument(doc, AUTOLOAD, name, written);
    ReadUndone(num, d, name, |doc.sections|);
    ReadCanonical(num, doc);
    EmptySectionMeans(num, doc, name, written);
    EmptySectionInvisible(dump, Meaning(num, doc));
  }

  lemma EmptySectionMeans(num: Numerals, doc: Document, name: string, written: string)
    requires SectionIndex(doc.sections, AUTOLOAD) == |doc.sections| && !HasKey(doc.preamble, AUTOLOAD)
    ensures var d := SetDocument(doc, AUTOLOAD, name, written);
      && |doc.sections| < |d.sections| && d.sections[|doc.sections|].items != []
      && Meaning(num, Undo(d, |doc.sections|)) == Meaning(num, doc)[AUTOLOAD := Entries(map[])]
      && AUTOLOAD !in Meaning(num, doc)
  {
    var n, d, blank := |doc.sections|, SetDocument(doc, AUTOLOAD, name, written), AddBlank(doc);
    var root := PreambleNodes(num, doc.preamble, map[]);
    assert |blank.sections| == n;
    assert Undo(d, n) == blank.(sections := blank.sections + [Section(AUTOLOAD, [])]);
    hide SectionNodes, PreambleNodes, AddBlank, HasKey;
    AddBlankMeaning(num, doc);
    SectionNodesConcat(num, blank.sections, [Section(AUTOLOAD, [])], PreambleNodes(num, blank.preamble, map[]));
    OneSection(num, Section(AUTOLOAD, []), Meaning(num, blank));
    NewName(num, doc.sections, root, AUTOLOAD);
    if AUTOLOAD in root {
      PreambleKeys(num, doc.preamble, map[], AUTOLOAD);
    }
  }

  lemma EmptySectionInvisible(dump: Value -> string, root: map<string, Node>)
    requires AUTOLOAD !in root
    ensures var r := root[AUTOLOAD := Entries(map[])];
      (forall s, k :: Lookup(r, s, k) == Lookup(root, s, k)) && Autoloads(dump, r) == Autoloads(dump, root) == map[]
  {
  }

  // ---------- An entry that is lost ----------

  const ONE_AUTOLOAD := Document([], [Section(AUTOLOAD, [Setting("A", "1")])])

  lemma OneEntryLine()
    ensures ItemLines([Setting("A", "1")]) == ["A=1"] && Header(AUTOLOAD) == "[autoload]" && KeyPrefix("B") == "B="
  {
    assert "[" + AUTOLOAD == "[autoload" && "[autoload" + "]" == "[autoload]" && "A" + "=" == "A="
        && "A=" + "1" == "A=1";
    FirstItemLine("A", "1", []);
    assert [Setting("A", "1")] + [] == [Setting("A", "1")];
    NoItemLines();
    assert ["A=1"] + [] == ["A=1"];
    assert KeyPrefix("A") + "1" == "A=1";
    hide ItemLines;
  }

  lemma OneAutoloadText()
    ensures Lines(ONE_AUTOLOAD) == ["[autoload]", "A=1"] && Join(Lines(ONE_AUTOLOAD)) == "[autoload]\nA=1\n"
  {
    OneEntryLine();
    NoItemLines();
    hide ItemLines, Header;
    assert ONE_AUTOLOAD.sections[1..] == [];
    assert SectionLines(ONE_AUTOLOAD.sections) == ["[autoload]"] + ["A=1"] + [];
    var lines := ["[autoload]", "A=1"];
    assert Lines(ONE_AUTOLOAD) == lines && lines[1..] == ["A=1"];
    JoinUnfold(lines);
    JoinOne("A=1");
    hide Join;
    assert "[autoload]" + "\n" + ("A=1" + "\n") == "[autoload]\nA=1\n";
  }

  lemma NoKeyB()
    ensures NoneContains(["A=1"], "B=") && NoneContains([], "[autoload]")
  {
    hide Find;
    forall j: nat
      ensures !OccursAt("A=1", "B=", j)
    {
      if j + 2 <= 3 {
        assert "A=1"[j..j + 2][0] == "A=1"[j] != 'B';
      }
    }
    FindIsNone("A=1", "B=", 0);
  }

  lemma OneAutoloadEditable()
    ensures IsEditable(ONE_AUTOLOAD, AUTOLOAD, "B") && IsCanonical(ONE_AUTOLOAD)
    ensures SectionIndex(ONE_AUTOLOAD.sections, AUTOLOAD) == 0
    ensures KeyIndex(ONE_AUTOLOAD.sections[0].items, "B") == 1
  {
    var items := [Setting("A", "1")];
    OneAutoloadText();
    OneEntryLine();
    NoKeyB();
    NoItemLines();
    OneAutoloadCanonical();
    hide IsCanonical, NoneContains, Join, Lines, ItemLines, KeyPrefix, Header, IsKey, IsName;
    assert KeyIndex(items, "B") == 1 && items[..1] == items;
    assert SectionLines([]) == [] && ONE_AUTOLOAD.sections[..0] == [];
    assert ItemLines([]) + SectionLines([]) == [];
  }

  lemma OneAutoloadCanonical()
    ensures IsCanonical(ONE_AUTOLOAD) && IsName(AUTOLOAD) && IsKey("B")
  {
    AutoloadIsName();
    assert IsItem(Setting("A", "1"));
    hide IsItem, IsName;
  }

  /** With an entry right after the header, adding another and removing it again takes that entry too. */
  lemma EntryAfterHeaderIsLost(num: Numerals, path: string)
    requires '\n' !in path
    ensures var before := "[autoload]\nA=1\n";
      && AddText(before, "B", path).Some? && RemoveText(AddText(before, "B", path).value, "B").Some?
      && var after := RemoveText(AddText(before, "B", path).value, "B").value;
      && Read(num, before).Some? && Read(num, after).Some?
      && Lookup(Read(num, before).value.root, AUTOLOAD, "A") == Some(ParseValue(num, "1"))
      && Lookup(Read(num, after).value.root, AUTOLOAD, "A") == None
  {
    var doc, value := ONE_AUTOLOAD, "\"" + path + "\"";
    var written := Format("", value);
    var d := SetDocument(doc, AUTOLOAD, "B", written);
    assert '\n' !in value;
    OneAutoloadText();
    OneAutoloadEditable();
    OneAutoloadCanonical();
    UndoneOne(written);
    OneAutoloadMeans(num);
    hide *;
    FormatKeepsLines("", value);
    AbsentIsEmpty(doc, "B");
    SetRefines(doc, AUTOLOAD, "B", value);
    AddIsSet(Join(Lines(doc)), "B", path);
    AddedFirst(doc, "B", written);
    ReadUndone(num, d, "B", 0);
    ReadCanonical(num, doc);
  }

  lemma UndoneOne(written: string)
    ensures var d := SetDocument(ONE_AUTOLOAD, AUTOLOAD, "B", written);
      d.sections != [] && d.sections[0].items != [] && Undo(d, 0) == Document([], [Section(AUTOLOAD, [])])
  {
    OneAutoloadEditable();
    hide IsEditable, IsCanonical;
    var d, all := SetDocument(ONE_AUTOLOAD, AUTOLOAD, "B", written), [Setting("B", written)] + [Setting("A", "1")];
    assert d.sections == [Section(AUTOLOAD, all)];
    assert all[1..] == [Setting("A", "1")] && all[1..][1..] == [];
  }

  lemma OneAutoloadMeans(num: Numerals)
    ensures Lookup(Meaning(num, ONE_AUTOLOAD), AUTOLOAD, "A") == Some(ParseValue(num, "1"))
    ensures Lookup(Meaning(num, Document([], [Section(AUTOLOAD, [])])), AUTOLOAD, "A") == None
  {
    hide ParseValue, ItemValues;
    OneSection(num, Section(AUTOLOAD, [Setting("A", "1")]), map[]);
    OneItem(num, Setting("A", "1"), map[]);
    OneSection(num, Section(AUTOLOAD, []), map[]);
    assert ItemValues(num, [], map[]) == map[] by { NoItemValues(num); }
  }

  lemma NoItemValues(num: Numerals)
    ensures ItemValues(num, [], map[]) == map[]
  {
  }
}
