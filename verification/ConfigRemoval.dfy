/** Exactly when `remove_autoload` takes away its entry and nothing else. */
module ConfigRemoval {
  import opened Wrappers
  import opened ByteText
  import opened ConfigValues
  import opened ConfigText
  import opened ConfigReader
  import opened ConfigDocument
  import opened ConfigRefinement
  import opened ConfigMeaning
  import opened ConfigFindable
  import opened ConfigAutoload
  import opened ConfigUndo

  // ---------- Lines that read as items ----------

  function AfterLine(num: Numerals, item: Item, st: Ini): Option<Ini> {
    match item
    case Note(_) => Some(st)
    case Setting(key, value) => Assign(st, key, ParseValue(num, value))
  }

  /** In any section, the reader takes the line for the item. */
  ghost predicate ReadsAs(num: Numerals, line: string, item: Item) {
    forall st: Ini :: ReadLine(num, line, st) == AfterLine(num, item, st)
  }

  lemma ItemReadsAs(num: Numerals, item: Item)
    requires IsItem(item)
    ensures ReadsAs(num, ItemLine(item), item)
  {
    hide ReadLine, IsNote, IsKey, ParseValue, KeyPrefix;
    forall st: Ini
      ensures ReadLine(num, ItemLine(item), st) == AfterLine(num, item, st)
    {
      match item {
        case Note(text) => ReadNote(num, text, st);
        case Setting(key, value) => ReadSetting(num, key, value, st);
      }
    }
  }

  ghost predicate AllReadAs(num: Numerals, lines: seq<string>, items: seq<Item>) {
    |lines| == |items| && forall i :: 0 <= i < |lines| ==> ReadsAs(num, lines[i], items[i])
  }

  lemma {:induction false} ItemsReadAs(num: Numerals, items: seq<Item>)
    requires forall i :: 0 <= i < |items| ==> IsItem(items[i])
    ensures AllReadAs(num, ItemLines(items), items)
    decreases |items|
  {
    hide ReadsAs, IsItem, ItemLine;
    if items == [] {
    } else {
      ItemReadsAs(num, items[0]);
      ItemsReadAs(num, items[1..]);
      var lines := ItemLines(items);
      assert lines == [ItemLine(items[0])] + ItemLines(items[1..]);
      forall i | 0 <= i < |lines|
        ensures ReadsAs(num, lines[i], items[i])
      {
        if i > 0 {
          assert lines[i] == ItemLines(items[1..])[i - 1] && items[i] == items[1..][i - 1];
        }
      }
    }
  }

  lemma ReadAsConcat(num: Numerals, a: seq<string>, b: seq<string>, x: seq<Item>, y: seq<Item>)
    requires AllReadAs(num, a, x) && AllReadAs(num, b, y)
    ensures AllReadAs(num, a + b, x + y)
  {
    hide ReadsAs;
  }

  lemma {:induction false} ReadSectionLines(num: Numerals, lines: seq<string>, items: seq<Item>, st: Ini)
    requires AllReadAs(num, lines, items)
    requires st.section != "" && st.section in st.root && st.root[st.section].Entries?
    ensures ReadLines(num, lines, Some(st))
         == Some(st.(root := st.root[st.section := Entries(ItemValues(num, items, st.root[st.section].m))]))
    decreases |lines|
  {
    hide ReadLine, ParseValue;
    var m := st.root[st.section].m;
    if lines == [] {
      assert st.root[st.section := Entries(m)] == st.root;
    } else {
      var m' := AfterItem(num, items[0], m);
      var st' := st.(root := st.root[st.section := Entries(m')]);
      assert ReadsAs(num, lines[0], items[0]);
      assert ReadLine(num, lines[0], st) == Some(st') by {
        if items[0].Note? {
          assert st'.root == st.root;
        }
      }
      ReadSectionLines(num, lines[1..], items[1..], st');
      assert st'.root[st.section := Entries(ItemValues(num, items[1..], m'))]
          == st.root[st.section := Entries(ItemValues(num, items[1..], m'))];
    }
  }

  // ---------- Reading the file around the section ----------

  function BaseLines(doc: Document, i: nat): seq<string>
    requires i <= |doc.sections|
  {
    ItemLines(doc.preamble) + SectionLines(doc.sections[..i])
  }

  function BaseRoot(num: Numerals, doc: Document, i: nat): map<string, Node>
    requires i <= |doc.sections|
  {
    SectionNodes(num, doc.sections[..i], PreambleNodes(num, doc.preamble, map[]))
  }

  lemma ReadBase(num: Numerals, doc: Document, i: nat)
    requires IsCanonical(doc) && i <= |doc.sections|
    ensures ReadLines(num, BaseLines(doc, i), Some(EMPTY)).Some?
    ensures ReadLines(num, BaseLines(doc, i), Some(EMPTY)).value.root == BaseRoot(num, doc, i)
  {
    var d := doc.(sections := doc.sections[..i]);
    assert IsCanonical(d) by {
      hide AreItems, IsName;
    }
    hide IsCanonical, ReadLines, SectionNodes, PreambleNodes, ItemLines, SectionLines;
    ReadDocument(num, d);
  }

  /** A later section's name is new to the reader. */
  lemma NotInBase(num: Numerals, doc: Document, i: nat, m: nat)
    requires IsCanonical(doc) && i <= m < |doc.sections|
    ensures doc.sections[m].name !in BaseRoot(num, doc, i)
  {
    hide SectionNodes, PreambleNodes, AreItems, IsName;
    var root, name := PreambleNodes(num, doc.preamble, map[]), doc.sections[m].name;
    NewName(num, doc.sections[..i], root, name);
    if name in root {
      PreambleKeys(num, doc.preamble, map[], name);
    }
  }

  lemma LaterAreFresh(num: Numerals, doc: Document, i: nat, k: nat, n: Node)
    requires IsCanonical(doc) && i < k <= |doc.sections| && doc.sections[i].name == AUTOLOAD
    ensures AreFresh(doc.sections[k..], BaseRoot(num, doc, i)[AUTOLOAD := n])
  {
    hide BaseRoot, AreItems, IsName;
    forall m | k <= m < |doc.sections|
      ensures doc.sections[m].name !in BaseRoot(num, doc, i)[AUTOLOAD := n]
    {
      NotInBase(num, doc, i, m);
    }
    assert forall m :: 0 <= m < |doc.sections[k..]| ==> doc.sections[k..][m] == doc.sections[k + m];
  }

  /** The file with other lines in the section, and perhaps without the next one. */
  function AroundLines(doc: Document, i: nat, k: nat, lines: seq<string>): seq<string>
    requires i <= k <= |doc.sections|
  {
    BaseLines(doc, i) + ([Header(AUTOLOAD)] + (lines + SectionLines(doc.sections[k..])))
  }

  function AroundRoot(num: Numerals, doc: Document, i: nat, k: nat, items: seq<Item>): map<string, Node>
    requires i <= k <= |doc.sections|
  {
    SectionNodes(num, doc.sections[k..], BaseRoot(num, doc, i)[AUTOLOAD := Entries(ItemValues(num, items, map[]))])
  }

  lemma ReadFirst(num: Numerals, line: string, lines: seq<string>, st: Ini)
    ensures ReadLines(num, [line] + lines, Some(st)) == ReadLines(num, lines, ReadLine(num, line, st))
  {
    hide ReadLine;
    assert ([line] + lines)[1..] == lines;
  }

  lemma ReadEntered(num: Numerals, lines: seq<string>, items: seq<Item>, st: Ini)
    requires AllReadAs(num, lines, items) && AUTOLOAD !in st.root
    ensures ReadLines(num, [Header(AUTOLOAD)] + lines, Some(st))
         == Some(Ini(AUTOLOAD, st.root[AUTOLOAD := Entries(ItemValues(num, items, map[]))]))
  {
    AutoloadIsName();
    hide ReadLine, ReadLines, Header, ItemValues, AllReadAs;
    var st1 := Enter(st, AUTOLOAD);
    ReadHeader(num, AUTOLOAD, st);
    ReadFirst(num, Header(AUTOLOAD), lines, st);
    ReadSectionLines(num, lines, items, st1);
    assert st1.root[AUTOLOAD := Entries(ItemValues(num, items, map[]))]
        == st.root[AUTOLOAD := Entries(ItemValues(num, items, map[]))];
  }

  lemma ReadAround(num: Numerals, doc: Document, i: nat, k: nat, lines: seq<string>, items: seq<Item>)
    requires IsCanonical(doc) && i < k <= |doc.sections| && doc.sections[i].name == AUTOLOAD
    requires AllReadAs(num, lines, items)
    ensures ReadLines(num, AroundLines(doc, i, k, lines), Some(EMPTY)).Some?
    ensures ReadLines(num, AroundLines(doc, i, k, lines), Some(EMPTY)).value.root == AroundRoot(num, doc, i, k, items)
  {
    hide *;
    ReadBase(num, doc, i);
    NotInBase(num, doc, i, i);
    LaterAreFresh(num, doc, i, k, Entries(ItemValues(num, items, map[])));
    AroundIs(num, doc, i, k, lines, items);
    var st := ReadLines(num, BaseLines(doc, i), Some(EMPTY)).value;
    ReadLinesConcat(num, BaseLines(doc, i), [Header(AUTOLOAD)] + lines + SectionLines(doc.sections[k..]), Some(EMPTY));
    ReadFromBase(num, doc.sections[k..], lines, items, st);
  }

  lemma AroundIs(num: Numerals, doc: Document, i: nat, k: nat, lines: seq<string>, items: seq<Item>)
    requires i <= k <= |doc.sections|
    ensures AroundLines(doc, i, k, lines)
         == BaseLines(doc, i) + ([Header(AUTOLOAD)] + lines + SectionLines(doc.sections[k..]))
    ensures AroundRoot(num, doc, i, k, items)
         == SectionNodes(num, doc.sections[k..],
                         BaseRoot(num, doc, i)[AUTOLOAD := Entries(ItemValues(num, items, map[]))])
  {
    hide BaseLines, BaseRoot, Header, SectionLines, SectionNodes, ItemValues;
    var h, later := [Header(AUTOLOAD)], SectionLines(doc.sections[k..]);
    assert h + (lines + later) == h + lines + later;
  }

  lemma ReadFromBase(num: Numerals, sections: seq<Section>, lines: seq<string>, items: seq<Item>, st: Ini)
    requires AllReadAs(num, lines, items) && AUTOLOAD !in st.root
    requires AreFresh(sections, st.root[AUTOLOAD := Entries(ItemValues(num, items, map[]))])
    ensures var r := ReadLines(num, [Header(AUTOLOAD)] + lines + SectionLines(sections), Some(st));
      && r.Some?
      && r.value.root == SectionNodes(num, sections, st.root[AUTOLOAD := Entries(ItemValues(num, items, map[]))])
  {
    hide *;
    var root := st.root[AUTOLOAD := Entries(ItemValues(num, items, map[]))];
    ReadLinesConcat(num, [Header(AUTOLOAD)] + lines, SectionLines(sections), Some(st));
    ReadEntered(num, lines, items, st);
    ReadSections(num, sections, Ini(AUTOLOAD, root));
  }

  lemma MeaningAround(num: Numerals, doc: Document, i: nat)
    requires i < |doc.sections| && doc.sections[i].name == AUTOLOAD
    ensures Meaning(num, doc) == AroundRoot(num, doc, i, i + 1, doc.sections[i].items)
  {
    hide SectionNodes, PreambleNodes, ItemValues;
    var s, root := doc.sections, PreambleNodes(num, doc.preamble, map[]);
    assert s == s[..i] + ([s[i]] + s[i + 1..]);
    SectionNodesConcat(num, s[..i], [s[i]] + s[i + 1..], root);
    SectionNodesConcat(num, [s[i]], s[i + 1..], BaseRoot(num, doc, i));
    OneSection(num, s[i], BaseRoot(num, doc, i));
  }

  // ---------- Comparing what is read ----------

  function ValuesOf(num: Numerals, items: seq<Item>): map<string, Value> {
    ItemValues(num, items, map[])
  }

  /** Two entry lists, in one place of the file: one entry is gone exactly when it is from the list. */
  lemma RemovesInPlace(num: Numerals, doc: Document, i: nat, items: seq<Item>, items': seq<Item>, name: string)
    requires IsCanonical(doc) && i < |doc.sections| && doc.sections[i].name == AUTOLOAD
    ensures OnlyRemoves(AroundRoot(num, doc, i, i + 1, items), AroundRoot(num, doc, i, i + 1, items'), AUTOLOAD, name)
       <==> ValuesOf(num, items') == ValuesOf(num, items) - {name}
  {
    var root, later := BaseRoot(num, doc, i), doc.sections[i + 1..];
    LaterNames(doc, i, i + 1);
    hide BaseRoot, SectionNodes, ItemValues, IsCanonical;
    OtherSections(num, later, root, AUTOLOAD, Entries(ValuesOf(num, items)));
    OtherSections(num, later, root, AUTOLOAD, Entries(ValuesOf(num, items')));
    EntriesCompare(SectionNodes(num, later, root), ValuesOf(num, items), ValuesOf(num, items'), name);
  }

  function Found(m: map<string, Value>, key: string): Option<Value> {
    if key in m then Some(m[key]) else None
  }

  lemma SameMap(m: map<string, Value>, m': map<string, Value>)
    requires forall key :: Found(m, key) == Found(m', key)
    ensures m == m'
  {
    forall key
      ensures key in m <==> key in m'
      ensures key in m ==> m[key] == m'[key]
    {
      assert Found(m, key) == Found(m', key);
    }
  }

  lemma EntriesCompare(root: map<string, Node>, m: map<string, Value>, m': map<string, Value>, name: string)
    ensures OnlyRemoves(root[AUTOLOAD := Entries(m)], root[AUTOLOAD := Entries(m')], AUTOLOAD, name)
       <==> m' == m - {name}
  {
    var r, r' := root[AUTOLOAD := Entries(m)], root[AUTOLOAD := Entries(m')];
    SectionLookups(root, r, AUTOLOAD, m);
    SectionLookups(root, r', AUTOLOAD, m');
    hide Lookup;
    if OnlyRemoves(r, r', AUTOLOAD, name) {
      forall key
        ensures Found(m', key) == Found(m - {name}, key)
      {
        assert Lookup(r', AUTOLOAD, key) == if key == name then None else Lookup(r, AUTOLOAD, key);
      }
      SameMap(m', m - {name});
    }
    if m' == m - {name} {
      forall s, key
        ensures Lookup(r', s, key) == if s == AUTOLOAD && key == name then None else Lookup(r, s, key)
      {
        assert s == AUTOLOAD ==> Found(m', key) == if key == name then None else Found(m, key);
      }
    }
  }

  lemma SectionLookups(root: map<string, Node>, r: map<string, Node>, n: string, m: map<string, Value>)
    requires r == root[n := Entries(m)] && n != ""
    ensures forall s, key ::
      Lookup(r, s, key) == if s == n then Found(m, key) else if s == "" && key == n then None else Lookup(root, s, key)
  {
  }

  lemma NoLookups(root: map<string, Node>, n: string)
    requires n !in root && n != ""
    ensures Lookup(root, "", n) == None && forall key :: Lookup(root, n, key) == None
  {
  }

  /** When the next section is lost, it must have had no entries. */
  lemma LostCompare(root: map<string, Node>, before: map<string, Node>, after: map<string, Node>, n: string,
                    lost: map<string, Value>, name: string)
    requires n !in root && n !in after && n != "" && n != AUTOLOAD && before == root[n := Entries(lost)]
    ensures OnlyRemoves(before, after, AUTOLOAD, name) <==> lost == map[] && OnlyRemoves(root, after, AUTOLOAD, name)
  {
    SectionLookups(root, before, n, lost);
    NoLookups(root, n);
    NoLookups(after, n);
    hide Lookup;
    if OnlyRemoves(before, after, AUTOLOAD, name) {
      forall key
        ensures Found(lost, key) == Found(map[], key)
      {
        assert Lookup(after, n, key) == Lookup(before, n, key);
      }
      SameMap(lost, map[]);
    }
    if lost == map[] {
      assert forall key :: Found(lost, key) == None;
      forall s, key
        ensures Lookup(root, s, key) == Lookup(before, s, key)
      {
      }
    }
  }

  lemma LaterNames(doc: Document, i: nat, k: nat)
    requires IsCanonical(doc) && i < k <= |doc.sections|
    ensures doc.sections[i].name != ""
    ensures forall m :: 0 <= m < |doc.sections[k..]| ==> doc.sections[k..][m].name != doc.sections[i].name
  {
    assert IsName(doc.sections[i].name);
    hide IsName, AreItems;
    forall m | 0 <= m < |doc.sections[k..]|
      ensures doc.sections[k..][m].name != doc.sections[i].name
    {
      assert doc.sections[k..][m] == doc.sections[k + m];
    }
  }

  /** Likewise when the next section has been merged into this one. */
  lemma RemovesMerged(num: Numerals, doc: Document, i: nat, items: seq<Item>, items': seq<Item>, name: string)
    requires IsCanonical(doc) && i + 1 < |doc.sections| && doc.sections[i].name == AUTOLOAD
    ensures OnlyRemoves(AroundRoot(num, doc, i, i + 1, items), AroundRoot(num, doc, i, i + 2, items'), AUTOLOAD, name)
       <==> ValuesOf(num, doc.sections[i + 1].items) == map[] && ValuesOf(num, items') == ValuesOf(num, items) - {name}
  {
    var root, next, later := BaseRoot(num, doc, i), doc.sections[i + 1], doc.sections[i + 2..];
    var values, values' := Entries(ValuesOf(num, items)), Entries(ValuesOf(num, items'));
    NotInBase(num, doc, i, i + 1);
    LaterNames(doc, i, i + 1);
    LaterNames(doc, i, i + 2);
    LaterNames(doc, i + 1, i + 2);
    assert next == doc.sections[i + 1..][0];
    assert doc.sections[i + 1..] == [next] + later;
    hide BaseRoot, SectionNodes, ItemValues, IsCanonical;
    SectionNodesConcat(num, [next], later, root[AUTOLOAD := values]);
    OneSection(num, next, root[AUTOLOAD := values]);
    OtherSections(num, later, root[AUTOLOAD := values], next.name, Entries(ValuesOf(num, next.items)));
    OtherSections(num, later, root, AUTOLOAD, values);
    OtherSections(num, later, root, AUTOLOAD, values');
    NewName(num, later, root, next.name);
    var x := SectionNodes(num, later, root);
    var before := x[AUTOLOAD := values];
    LostCompare(before, before[next.name := Entries(ValuesOf(num, next.items))], x[AUTOLOAD := values'], next.name,
                ValuesOf(num, next.items), name);
    EntriesCompare(x, ValuesOf(num, items), ValuesOf(num, items'), name);
  }

  // ---------- Values of lists ----------

  lemma {:induction false} KeysOfValues(num: Numerals, items: seq<Item>, m: map<string, Value>, key: string)
    ensures key in ItemValues(num, items, m) <==> key in m || HasKey(items, key)
    decreases |items|
  {
    hide ParseValue;
    if items == [] {
    } else {
      KeysOfValues(num, items[1..], AfterItem(num, items[0], m), key);
      HasKeyUnfold(items, key);
      hide HasKey;
    }
  }

  lemma HasKeyUnfold(items: seq<Item>, key: string)
    requires items != []
    ensures HasKey(items, key) <==> (items[0].Setting? && items[0].key == key) || HasKey(items[1..], key)
  {
    if HasKey(items[1..], key) {
      var i :| 0 <= i < |items[1..]| && items[1..][i].Setting? && items[1..][i].key == key;
      assert items[i + 1] == items[1..][i];
    }
    if i :| 0 <= i < |items| && items[i].Setting? && items[i].key == key {
      assert i > 0 ==> items[1..][i - 1] == items[i];
    }
  }

  predicate HasSettings(items: seq<Item>) {
    exists i :: 0 <= i < |items| && items[i].Setting?
  }

  lemma SettingsShow(num: Numerals, items: seq<Item>)
    ensures ValuesOf(num, items) == map[] <==> !HasSettings(items)
  {
    hide ItemValues;
    if i :| 0 <= i < |items| && items[i].Setting? {
      KeysOfValues(num, items, map[], items[i].key);
      assert HasKey(items, items[i].key);
    } else {
      forall key
        ensures key !in ValuesOf(num, items)
      {
        KeysOfValues(num, items, map[], key);
      }
    }
  }

  /** What later items set counts; the rest is as before. */
  lemma {:induction false} ValuesMerge(num: Numerals, items: seq<Item>, m: map<string, Value>)
    ensures ItemValues(num, items, m) == m + ValuesOf(num, items)
    decreases |items|
  {
    hide ParseValue;
    if items == [] {
      assert m + map[] == m;
    } else {
      var x, later := items[0], items[1..];
      ValuesMerge(num, later, AfterItem(num, x, m));
      ValuesMerge(num, later, AfterItem(num, x, map[]));
      hide ItemValues;
      assert AfterItem(num, x, m) == m + AfterItem(num, x, map[]);
    }
  }

  // ---------- Two lines run together ----------

  predicate IsBlank(item: Item) {
    item.Note? && Trim(item.text) == ""
  }

  /** What the reader takes a line for when the text `n` runs on after it. */
  function FusedItem(p: Item, n: string): Item {
    match p
    case Setting(key, value) => Setting(key, value + n)
    case Note(text) =>
      var t := Trim(text + n);
      if t == "" || t[0] == ';' || t[0] == '#' then Note("")
      else
        match Find(t, "=", 0)
        case None => Note("")
        case Some(eq) => Setting(TrimBlanks(t[..eq]), t[eq + 1..])
  }

  lemma FusedReadsAs(num: Numerals, p: Item, n: string)
    requires IsItem(p)
    requires p.Note? ==> var t := Trim(p.text + n); t == "" || t[0] != '['
    ensures ReadsAs(num, ItemLine(p) + n, FusedItem(p, n))
  {
    hide Trim, Find, ParseValue, TrimBlanks, IsNote, IsKey;
    match p {
      case Note(text) =>
      case Setting(key, value) =>
        assert KeyPrefix(key) + value + n == KeyPrefix(key) + (value + n);
        hide ReadLine, KeyPrefix;
        forall st: Ini
          ensures ReadLine(num, ItemLine(p) + n, st) == AfterLine(num, FusedItem(p, n), st)
        {
          ReadSetting(num, key, value + n, st);
        }
    }
  }

  lemma TrimIsEmpty(x: string)
    ensures Trim(x) == "" <==> AllSpace(x)
  {
    if AllSpace(x) {
      AllSpaceSkips(x);
    } else {
      NotAllSpace(x);
      assert x[SkipSpace(x)] in x;
      TrimKeeps(x, x[SkipSpace(x)]);
    }
    hide TrimRight, SkipSpace;
  }

  /** After text, the line begins as the text does. */
  lemma FusedBegins(x: string, n: string)
    requires Trim(x) != ""
    ensures Trim(x + n) != "" && Trim(x + n)[0] == Trim(x)[0]
  {
    TrimIsEmpty(x);
    NotAllSpace(x);
    SkipMixed(x, n);
    var k := SkipSpace(x);
    BeginsAt(x, k);
    BeginsAt(x + n, k);
    assert (x + n)[k] == x[k];
    hide Trim, SkipSpace;
  }

  lemma BeginsAt(x: string, k: nat)
    requires SkipSpace(x) == k < |x|
    ensures Trim(x) != "" && Trim(x)[0] == x[k]
  {
    hide SkipSpace, TrimRight;
    assert x[k..][0] == x[k];
    TrimRightKeeps(x[k..], x[k]);
  }

  /** After blanks, the line is as without them. */
  lemma FusedToBlanks(x: string, n: string)
    requires Trim(x) == ""
    ensures Trim(x + n) == Trim(n)
  {
    TrimIsEmpty(x);
    SkipSpaceConcat(x, n);
    assert (x + n)[|x| + SkipSpace(n)..] == n[SkipSpace(n)..];
    hide SkipSpace, AllSpace, TrimRight;
  }

  /** An item after blanks still sets what it sets. */
  lemma BlankFuses(num: Numerals, p: Item, n: Item, m: map<string, Value>)
    requires IsBlank(p) && IsItem(n)
    ensures var t := Trim(p.text + ItemLine(n)); t == "" || t[0] != '['
    ensures AfterItem(num, FusedItem(p, ItemLine(n)), m) == AfterItem(num, n, m)
  {
    hide Trim, Find, ParseValue, TrimRight, KeyPrefix, IsNote, IsKey, FusedItem;
    FusedToBlanks(p.text, ItemLine(n));
    FusedIs(p, ItemLine(n), Trim(ItemLine(n)));
    match n {
      case Note(text) => NoteFuses(text);
      case Setting(key, value) => SettingFuses(num, key, value);
    }
  }

  lemma FusedIs(p: Item, n: string, t: string)
    requires p.Note? && Trim(p.text + n) == t
    ensures t == "" || t[0] == ';' || t[0] == '#' || Find(t, "=", 0).None? ==> FusedItem(p, n) == Note("")
    ensures t != "" && t[0] != ';' && t[0] != '#' && Find(t, "=", 0).Some? ==>
      var eq := Find(t, "=", 0).value; eq < |t| && FusedItem(p, n) == Setting(TrimBlanks(t[..eq]), t[eq + 1..])
  {
    hide Trim, Find, TrimBlanks;
    FindBounds(t, "=", 0);
  }

  lemma NoteFuses(text: string)
    requires IsNote(text)
    ensures var t := Trim(text); t == "" || t[0] == ';' || t[0] == '#' || (t[0] != '[' && Find(t, "=", 0).None?)
  {
    hide Trim, Find;
    if Trim(text) != "" && Trim(text)[0] != ';' && Trim(text)[0] != '#' {
      FindNoByte(Trim(text), '=');
    }
  }

  lemma SettingFuses(num: Numerals, key: string, value: string)
    requires IsKey(key)
    ensures var t := Trim(KeyPrefix(key) + value);
      && t != "" && t[0] != '[' && t[0] != ';' && t[0] != '#' && Find(t, "=", 0) == Some(|key|)
      && |key| < |t| && TrimBlanks(t[..|key|]) == key && ParseValue(num, t[|key| + 1..]) == ParseValue(num, value)
  {
    KeyLine(key, value);
    ParseTrimmed(num, value);
    assert TrimBlanks(key) == key;
    assert (KeyPrefix(key) + TrimRight(value))[0] == key[0];
    hide Trim, Find, ParseValue, TrimRight;
  }

  lemma TrimFrom(line: string, k: nat)
    requires SkipSpace(line) == k
    ensures Trim(line) == TrimRight(line[k..])
  {
  }

  lemma FusedKeyParts(x: string, k: nat, key: string, value: string)
    requires k < |x|
    ensures var p := KeyPrefix(key);
      (x + (p + value))[k..] == x[k..] + p + value && (x[k..] + p)[|x[k..] + p| - 1] == '='
  {
  }

  lemma FusedKeyTrims(x: string, key: string, value: string)
    requires !AllSpace(x)
    ensures SkipSpace(x) < |x|
    ensures Trim(x + (KeyPrefix(key) + value)) == x[SkipSpace(x)..] + KeyPrefix(key) + TrimRight(value)
  {
    hide *;
    var k, p := SkipSpace(x), KeyPrefix(key);
    NotAllSpace(x);
    SkipMixed(x, p + value);
    FusedKeyParts(x, k, key, value);
    TrimFrom(x + (p + value), k);
    EqualsIsNoSpace();
    TrimRightAfter(x[k..] + p, value);
  }

  lemma EqualsIsNoSpace()
    ensures !IsSpace('=')
  {
  }

  lemma FusedOf(p: Item, n: string, eq: nat)
    requires p.Note? && Find(Trim(p.text + n), "=", 0) == Some(eq) && eq < |Trim(p.text + n)|
    ensures FusedItem(p, n).Setting? ==> FusedItem(p, n).key == TrimBlanks(Trim(p.text + n)[..eq])
  {
    hide Trim, Find, TrimBlanks;
  }

  lemma LongerKey(y: string, key: string, value: string)
    requires y != "" && IsKey(key) && '=' !in y
    ensures var t := y + KeyPrefix(key) + value;
      Find(t, "=", 0) == Some(|y + key|) && |y + key| < |t| && TrimBlanks(t[..|y + key|]) != key
  {
    var t := y + KeyPrefix(key) + value;
    assert t == y + key + ['='] + value && t[..|y + key|] == y + key;
    assert TrimBlanks(y + key) == y + key;
    hide Find;
    FindByte(y + key, '=', value);
  }

  /** Text before a key becomes part of it. */
  lemma OtherKey(p: Item, key: string, value: string)
    requires p.Note? && IsNote(p.text) && !IsBlank(p) && IsKey(key)
    ensures var f := FusedItem(p, KeyPrefix(key) + value); f.Setting? ==> f.key != key
  {
    var x, n := p.text, KeyPrefix(key) + value;
    TrimIsEmpty(x);
    FusedBegins(x, n);
    if Trim(x)[0] != ';' && Trim(x)[0] != '#' {
      if '=' in x {
        TrimKeeps(x, '=');
      }
      hide Trim, TrimRight, Find, TrimBlanks, FusedItem, KeyPrefix, SkipSpace, AllSpace;
      var y := x[SkipSpace(x)..];
      FusedKeyTrims(x, key, value);
      LongerKey(y, key, TrimRight(value));
      FusedOf(p, n, |y + key|);
    }
  }

  // ---------- What a fused line costs ----------

  /** What the line before sets once other text runs on after it does no harm: it is the same, or is set so anyway. */
  ghost predicate FusedKeeps(num: Numerals, before: seq<Item>, p: Item, n: string, later: seq<Item>) {
    var f := FusedItem(p, n);
    match p
    case Setting(key, value) => ParseValue(num, value + n) == ParseValue(num, value)
    case Note(_) =>
      f.Note? || HasKey(later, f.key) || Found(ValuesOf(num, before), f.key) == Some(ParseValue(num, f.value))
  }

  lemma ThreeValues(num: Numerals, a: seq<Item>, x: Item, c: seq<Item>)
    ensures ValuesOf(num, a + [x] + c) == AfterItem(num, x, ValuesOf(num, a)) + ValuesOf(num, c)
  {
    hide ItemValues, ParseValue;
    ItemValuesConcat(num, a + [x], c, map[]);
    ItemValuesConcat(num, a, [x], map[]);
    OneItem(num, x, ValuesOf(num, a));
    ValuesMerge(num, c, AfterItem(num, x, ValuesOf(num, a)));
  }

  /** A changed value shows unless the key is set later. */
  lemma PutMerged(m: map<string, Value>, c: map<string, Value>, key: string, v: Value)
    ensures m[key := v] + c == m + c <==> key in c || Found(m, key) == Some(v)
  {
    if key !in c {
      assert (m[key := v] + c)[key] == v;
      assert Found(m + c, key) == Found(m, key);
      if Found(m, key) == Some(v) {
        assert m[key := v] == m;
      }
    } else {
      assert m[key := v] + c == m + c;
    }
  }

  lemma PutMergedTwice(m: map<string, Value>, c: map<string, Value>, key: string, v: Value, w: Value)
    requires key !in c
    ensures m[key := v] + c == m[key := w] + c <==> v == w
  {
    assert (m[key := v] + c)[key] == v && (m[key := w] + c)[key] == w;
  }

  /** The line run on to brings nothing of its own. */
  lemma FusedAlone(num: Numerals, b: seq<Item>, p: Item, n: string, c: seq<Item>)
    requires p.Setting? ==> !HasKey(c, p.key)
    ensures ValuesOf(num, b + [FusedItem(p, n)] + c) == ValuesOf(num, b + [p] + c) <==> FusedKeeps(num, b, p, n, c)
  {
    var f, m, later := FusedItem(p, n), ValuesOf(num, b), ValuesOf(num, c);
    hide ItemValues, ParseValue, HasKey, FusedItem;
    ThreeValues(num, b, f, c);
    ThreeValues(num, b, p, c);
    FusedSetting(p, n);
    if f.Setting? {
      KeysOfValues(num, c, map[], f.key);
      PutMerged(m, later, f.key, ParseValue(num, f.value));
      if p.Setting? {
        PutMergedTwice(m, later, p.key, ParseValue(num, f.value), ParseValue(num, p.value));
      }
    }
  }

  lemma FusedSetting(p: Item, n: string)
    ensures p.Setting? ==> FusedItem(p, n) == Setting(p.key, p.value + n)
  {
    hide Trim, Find, TrimBlanks;
  }

  /** The line run on to sets something of its own, which is lost unless the line before is blank. */
  lemma FusedWithSetting(num: Numerals, b: seq<Item>, p: Item, n: Item, c: seq<Item>)
    requires IsItem(p) && IsItem(n) && n.Setting? && !HasKey(b, n.key) && !HasKey(c, n.key)
    requires p.Setting? ==> p.key != n.key
    ensures ValuesOf(num, b + [FusedItem(p, ItemLine(n))] + c) == ValuesOf(num, b + [p, n] + c) <==> IsBlank(p)
  {
    var f, m := FusedItem(p, ItemLine(n)), ValuesOf(num, b);
    assert b + [p, n] + c == b + [p] + [n] + c;
    if p.Note? && !IsBlank(p) {
      OtherKey(p, n.key, n.value);
    }
    FusedSetting(p, ItemLine(n));
    hide ItemValues, ParseValue, HasKey, FusedItem, IsKey, IsNote, Trim;
    ThreeValues(num, b, f, c);
    ThreeValues(num, b + [p], n, c);
    ItemValuesConcat(num, b, [p], map[]);
    OneItem(num, p, m);
    KeysOfValues(num, b, map[], n.key);
    KeysOfValues(num, c, map[], n.key);
    if IsBlank(p) {
      BlankFuses(num, p, n, m);
    } else {
      assert n.key in ValuesOf(num, b + [p, n] + c);
      assert n.key !in ValuesOf(num, b + [f] + c);
    }
  }

  // ---------- What is read after a removal ----------

  /** The lines before an entry that is not the first of its section, and the last of them. */
  lemma LinesBeforeLater(doc: Document, i: nat, j: nat)
    requires i < |doc.sections| && 0 < j <= |doc.sections[i].items| && doc.sections[i].name == AUTOLOAD
    ensures var items := doc.sections[i].items;
      LinesBefore(doc, i, j)
      == BaseLines(doc, i) + ([Header(AUTOLOAD)] + ItemLines(items[..j - 1])) + [ItemLine(items[j - 1])]
  {
    hide ItemLines, SectionLines, Header, ItemLine;
    var items := doc.sections[i].items;
    assert items[..j] == items[..j - 1] + [items[j - 1]];
    ItemLinesConcat(items[..j - 1], [items[j - 1]]);
    OneItemLines(items[j - 1]);
  }

  lemma OneItemLines(item: Item)
    ensures ItemLines([item]) == [ItemLine(item)]
  {
    hide ItemLine;
    assert [item][1..] == [];
  }

  /** The line before the entry with the line after it run on to it, and the lines after that. */
  function FusedLines(line: string, from: seq<string>): seq<string> {
    if from == [] then [line] else [line + from[0]] + from[1..]
  }

  lemma ReadAfterRemoval(num: Numerals, doc: Document, name: string, i: nat, j: nat)
    requires HasAutoload(doc, name, i, j) && 0 < j
    ensures i < |doc.sections| && j < |doc.sections[i].items| && RemoveText(Join(Lines(doc)), name).Some?
    ensures var items := doc.sections[i].items;
      Read(num, RemoveText(Join(Lines(doc)), name).value)
      == ReadLines(num, BaseLines(doc, i) + ([Header(AUTOLOAD)] + ItemLines(items[..j - 1]))
                        + FusedLines(ItemLine(items[j - 1]), LinesFrom(doc, i, j + 1)), Some(EMPTY))
  {
    hide *;
    EntryFacts(doc, name, i, j);
    RemovedText(doc, name, i, j);
    LinesBeforeLater(doc, i, j);
    CanonicalLines(doc);
    LinesSplit(doc, i, j);
    LinesSplit(doc, i, j + 1);
    PartsAreLines(LinesBefore(doc, i, j), LinesFrom(doc, i, j));
    PartsAreLines(LinesBefore(doc, i, j + 1), LinesFrom(doc, i, j + 1));
    var items := doc.sections[i].items;
    ReadFusedText(num, BaseLines(doc, i) + ([Header(AUTOLOAD)] + ItemLines(items[..j - 1])), ItemLine(items[j - 1]),
                  LinesFrom(doc, i, j + 1));
  }

  lemma ReadFusedText(num: Numerals, a: seq<string>, line: string, from: seq<string>)
    requires AreLines(a + [line]) && AreLines(from)
    ensures var before := a + [line];
      Read(num, Join(before[..|before| - 1]) + before[|before| - 1] + Join(from))
      == ReadLines(num, a + FusedLines(line, from), Some(EMPTY))
  {
    hide *;
    LinesApart(a, line);
    assert (a + [line])[..|a|] == a;
    FusedLinesAre(line, from);
    if from == [] {
      JoinNothing();
      assert Join(a) + line + Join(from) == Join(a) + line;
      ReadIs(num, Join(a) + line);
      ReadJoin(num, a, line, Some(EMPTY));
    } else {
      RunOnText(a, line, from);
      RunOnAreLines(a, line, from);
      ReadIs(num, Join(a + ([line + from[0]] + from[1..])));
      ReadTerminated(num, a + ([line + from[0]] + from[1..]), Some(EMPTY));
    }
  }

  lemma FusedLinesAre(line: string, from: seq<string>)
    ensures FusedLines(line, from) == if from == [] then [line] else [line + from[0]] + from[1..]
  {
  }

  /** The entry was the last line of the file. */
  lemma AfterLast(num: Numerals, doc: Document, name: string, i: nat, j: nat)
    requires HasAutoload(doc, name, i, j) && 0 < j && i + 1 == |doc.sections| && j + 1 == |doc.sections[i].items|
    ensures RemoveText(Join(Lines(doc)), name).Some?
    ensures var r := Read(num, RemoveText(Join(Lines(doc)), name).value);
      r.Some? && r.value.root == AroundRoot(num, doc, i, i + 1, doc.sections[i].items[..j])
  {
    hide *;
    EntryFacts(doc, name, i, j);
    var items := doc.sections[i].items;
    ReadAfterRemoval(num, doc, name, i, j);
    NothingAfter(doc, i, j + 1);
    FusedLinesAre(ItemLine(items[j - 1]), []);
    LinesBeforeLater(doc, i, j);
    AroundAll(doc, i, j);
    CanonicalItems(doc, i);
    ItemsReadAs(num, items[..j]);
    ReadAround(num, doc, i, i + 1, ItemLines(items[..j]), items[..j]);
  }

  lemma AroundAll(doc: Document, i: nat, j: nat)
    requires i + 1 == |doc.sections| && j <= |doc.sections[i].items| && doc.sections[i].name == AUTOLOAD
    ensures AroundLines(doc, i, i + 1, ItemLines(doc.sections[i].items[..j])) == LinesBefore(doc, i, j)
  {
    assert SectionLines(doc.sections[i + 1..]) == [];
    hide ItemLines, Header;
  }

  lemma CanonicalItems(doc: Document, i: nat)
    requires IsCanonical(doc) && i < |doc.sections|
    ensures AreItems(doc.sections[i].items)
    ensures forall k :: 0 <= k < |doc.sections[i].items| ==> IsItem(doc.sections[i].items[k])
  {
    hide IsItem, IsName;
  }

  lemma FusedAroundItem(doc: Document, i: nat, j: nat)
    requires i < |doc.sections| && 0 < j && j + 1 < |doc.sections[i].items|
    ensures var items := doc.sections[i].items;
      var b, p, n, c := items[..j - 1], items[j - 1], items[j + 1], items[j + 2..];
      BaseLines(doc, i) + ([Header(AUTOLOAD)] + ItemLines(b)) + FusedLines(ItemLine(p), LinesFrom(doc, i, j + 1))
      == AroundLines(doc, i, i + 1, ItemLines(b) + [ItemLine(p) + ItemLine(n)] + ItemLines(c))
  {
    hide *;
    var items := doc.sections[i].items;
    var b, p, n, c := items[..j - 1], items[j - 1], ItemLine(items[j + 1]), items[j + 2..];
    var later, fused := SectionLines(doc.sections[i + 1..]), [ItemLine(p) + n];
    FirstLineOf(items[j + 1..]);
    assert items[j + 1..][1..] == c && items[j + 1..][0] == items[j + 1];
    FromIs(doc, i, j + 1);
    TwoParts(n, ItemLines(c), later);
    FusedFirst(ItemLine(p), n, ItemLines(c) + later);
    Regrouped6(BaseLines(doc, i), [Header(AUTOLOAD)], ItemLines(b), fused, ItemLines(c), later);
    AroundLinesAre(doc, i, i + 1, ItemLines(b) + fused + ItemLines(c));
  }

  lemma TwoParts(n: string, c: seq<string>, later: seq<string>)
    ensures [n] + c + later == [n] + (c + later)
  {
  }

  lemma FusedFirst(line: string, n: string, later: seq<string>)
    ensures FusedLines(line, [n] + later) == [line + n] + later
  {
    assert ([n] + later)[1..] == later;
  }

  lemma Regrouped6(base: seq<string>, h: seq<string>, b: seq<string>, f: seq<string>, c: seq<string>,
                   later: seq<string>)
    ensures base + (h + b) + (f + (c + later)) == base + (h + ((b + f + c) + later))
  {
    assert (h + b) + (f + (c + later)) == h + ((b + f + c) + later);
  }

  lemma AroundLinesAre(doc: Document, i: nat, k: nat, lines: seq<string>)
    requires i <= k <= |doc.sections|
    ensures AroundLines(doc, i, k, lines)
         == BaseLines(doc, i) + ([Header(AUTOLOAD)] + (lines + SectionLines(doc.sections[k..])))
  {
    hide BaseLines, Header, SectionLines;
  }

  lemma FirstLineOf(items: seq<Item>)
    requires items != []
    ensures ItemLines(items) == [ItemLine(items[0])] + ItemLines(items[1..])
  {
    hide ItemLine;
  }

  lemma FusedListReadsAs(num: Numerals, b: seq<Item>, p: Item, n: string, c: seq<Item>)
    requires (forall k :: 0 <= k < |b| ==> IsItem(b[k])) && (forall k :: 0 <= k < |c| ==> IsItem(c[k])) && IsItem(p)
    requires p.Note? ==> var t := Trim(p.text + n); t == "" || t[0] != '['
    ensures AllReadAs(num, ItemLines(b) + [ItemLine(p) + n] + ItemLines(c), b + [FusedItem(p, n)] + c)
  {
    hide ReadsAs, ItemLines, FusedItem, IsItem, Trim;
    ItemsReadAs(num, b);
    ItemsReadAs(num, c);
    FusedReadsAs(num, p, n);
    ReadAsConcat(num, ItemLines(b), [ItemLine(p) + n], b, [FusedItem(p, n)]);
    ReadAsConcat(num, ItemLines(b) + [ItemLine(p) + n], ItemLines(c), b + [FusedItem(p, n)], c);
  }

  /** No note begins like a header, whatever runs on after it. */
  lemma FusedIsNoHeader(p: Item, n: string)
    requires IsItem(p) && p.Note? && !IsBlank(p)
    ensures var t := Trim(p.text + n); t != "" && t[0] != '['
  {
    FusedBegins(p.text, n);
    hide Trim;
  }

  /** An item ran on after the line before the entry. */
  lemma AfterItems(num: Numerals, doc: Document, name: string, i: nat, j: nat)
    requires HasAutoload(doc, name, i, j) && 0 < j && i < |doc.sections| && j + 1 < |doc.sections[i].items|
    ensures RemoveText(Join(Lines(doc)), name).Some?
    ensures var r, items := Read(num, RemoveText(Join(Lines(doc)), name).value), doc.sections[i].items;
      r.Some? && r.value.root == AroundRoot(num, doc, i, i + 1,
        items[..j - 1] + [FusedItem(items[j - 1], ItemLine(items[j + 1]))] + items[j + 2..])
  {
    hide *;
    EntryFacts(doc, name, i, j);
    var items := doc.sections[i].items;
    var b, p, n, c := items[..j - 1], items[j - 1], ItemLine(items[j + 1]), items[j + 2..];
    ReadAfterRemoval(num, doc, name, i, j);
    FusedAroundItem(doc, i, j);
    CanonicalItems(doc, i);
    ItemNeverOpens(num, p, items[j + 1]);
    FusedListReadsAs(num, b, p, n, c);
    ReadAround(num, doc, i, i + 1, ItemLines(b) + [ItemLine(p) + n] + ItemLines(c), b + [FusedItem(p, n)] + c);
  }

  lemma ItemNeverOpens(num: Numerals, p: Item, n: Item)
    requires IsItem(p) && IsItem(n)
    ensures p.Note? ==> var t := Trim(p.text + ItemLine(n)); t == "" || t[0] != '['
  {
    hide Trim, FusedItem, IsItem;
    if p.Note? {
      if IsBlank(p) {
        BlankFuses(num, p, n, map[]);
      } else {
        FusedIsNoHeader(p, ItemLine(n));
      }
    }
  }

  /** After the last entry of a section comes the next section. */
  lemma HeaderFollows(doc: Document, i: nat, j: nat)
    requires i + 1 < |doc.sections| && j == |doc.sections[i].items|
    ensures var next, from := doc.sections[i + 1], LinesFrom(doc, i, j);
      && from == SectionLines(doc.sections[i + 1..])
      && from == [Header(next.name)] + (ItemLines(next.items) + SectionLines(doc.sections[i + 2..]))
  {
    hide *;
    var s1 := doc.sections[i + 1..];
    assert s1[1..] == doc.sections[i + 2..] && s1[0] == doc.sections[i + 1] && doc.sections[i].items[j..] == [];
    FirstSectionLines(s1);
    NoItemLines();
    FromIs(doc, i, j);
    assert [] + SectionLines(s1) == SectionLines(s1);
  }

  lemma FusedAroundHeader(doc: Document, i: nat, j: nat)
    requires i + 1 < |doc.sections| && 0 < j && j + 1 == |doc.sections[i].items|
    ensures var items, next := doc.sections[i].items, doc.sections[i + 1];
      var b, p, h := items[..j - 1], items[j - 1], Header(next.name);
      BaseLines(doc, i) + ([Header(AUTOLOAD)] + ItemLines(b)) + FusedLines(ItemLine(p), LinesFrom(doc, i, j + 1))
      == AroundLines(doc, i, i + 2, ItemLines(b) + [ItemLine(p) + h] + ItemLines(next.items))
  {
    hide *;
    var items, next := doc.sections[i].items, doc.sections[i + 1];
    var b, p, h, s2 := items[..j - 1], items[j - 1], Header(next.name), doc.sections[i + 2..];
    HeaderFollows(doc, i, j + 1);
    FusedFirst(ItemLine(p), h, ItemLines(next.items) + SectionLines(s2));
    Regrouped6(BaseLines(doc, i), [Header(AUTOLOAD)], ItemLines(b), [ItemLine(p) + h], ItemLines(next.items),
               SectionLines(s2));
    AroundLinesAre(doc, i, i + 2, ItemLines(b) + [ItemLine(p) + h] + ItemLines(next.items));
  }

  lemma Regrouped4(base: seq<string>, h: seq<string>, b: seq<string>, later: seq<string>)
    ensures base + (h + b) + later == base + (h + (b + later))
  {
    assert (h + b) + later == h + (b + later);
  }

  lemma FirstSectionLines(sections: seq<Section>)
    requires sections != []
    ensures SectionLines(sections)
         == [Header(sections[0].name)] + (ItemLines(sections[0].items) + SectionLines(sections[1..]))
  {
    hide ItemLines, Header;
  }

  /** The next header ran on after the line before the entry, and is lost. */
  lemma AfterHeader(num: Numerals, doc: Document, name: string, i: nat, j: nat)
    requires HasAutoload(doc, name, i, j) && 0 < j && i + 1 < |doc.sections| && j + 1 == |doc.sections[i].items|
    requires !IsBlank(doc.sections[i].items[j - 1])
    ensures RemoveText(Join(Lines(doc)), name).Some?
    ensures var r := Read(num, RemoveText(Join(Lines(doc)), name).value);
      var items, next := doc.sections[i].items, doc.sections[i + 1];
      r.Some? && r.value.root == AroundRoot(num, doc, i, i + 2,
        items[..j - 1] + [FusedItem(items[j - 1], Header(next.name))] + next.items)
  {
    hide *;
    EntryFacts(doc, name, i, j);
    var items, next := doc.sections[i].items, doc.sections[i + 1];
    var b, p, n := items[..j - 1], items[j - 1], Header(next.name);
    ReadAfterRemoval(num, doc, name, i, j);
    FusedAroundHeader(doc, i, j);
    CanonicalItems(doc, i);
    CanonicalItems(doc, i + 1);
    if p.Note? {
      FusedIsNoHeader(p, n);
    }
    FusedListReadsAs(num, b, p, n, next.items);
    ReadAround(num, doc, i, i + 2, ItemLines(b) + [ItemLine(p) + n] + ItemLines(next.items),
               b + [FusedItem(p, n)] + next.items);
  }

  lemma SameTrimReads(num: Numerals, line: string, line': string, st: Ini)
    requires Trim(line) == Trim(line')
    ensures ReadLine(num, line, st) == ReadLine(num, line', st)
  {
    hide Trim, Find, ParseValue, TrimBlanks;
  }

  lemma ReadAfterBlanks(num: Numerals, a: seq<string>, x: string, line: string, later: seq<string>)
    requires Trim(x) == ""
    ensures ReadLines(num, a + ([x + line] + later), Some(EMPTY)) == ReadLines(num, a + ([line] + later), Some(EMPTY))
  {
    hide *;
    ReadLinesConcat(num, a, [x + line] + later, Some(EMPTY));
    ReadLinesConcat(num, a, [line] + later, Some(EMPTY));
    var st := ReadLines(num, a, Some(EMPTY));
    if st.Some? {
      ReadFirst(num, x + line, later, st.value);
      ReadFirst(num, line, later, st.value);
      FusedToBlanks(x, line);
      SameTrimReads(num, x + line, line, st.value);
    } else {
      ReadNothing(num, [x + line] + later);
      ReadNothing(num, [line] + later);
    }
  }

  lemma ReadNothing(num: Numerals, lines: seq<string>)
    ensures ReadLines(num, lines, None) == None
  {
  }

  lemma BlankText(p: Item) returns (x: string)
    requires IsBlank(p)
    ensures Trim(x) == "" && ItemLine(p) == x
  {
    hide Trim;
    x := p.text;
  }

  /** After blanks, the next header is still one. */
  lemma AfterBlankHeader(num: Numerals, doc: Document, name: string, i: nat, j: nat)
    requires HasAutoload(doc, name, i, j) && 0 < j && i + 1 < |doc.sections| && j + 1 == |doc.sections[i].items|
    requires IsBlank(doc.sections[i].items[j - 1])
    ensures RemoveText(Join(Lines(doc)), name).Some?
    ensures var r := Read(num, RemoveText(Join(Lines(doc)), name).value);
      r.Some? && r.value.root == AroundRoot(num, doc, i, i + 1, doc.sections[i].items[..j - 1])
  {
    hide *;
    var b := doc.sections[i].items[..j - 1];
    EntryFacts(doc, name, i, j);
    ReadAfterRemoval(num, doc, name, i, j);
    ReadBlankHeader(num, doc, i, j);
    CanonicalItems(doc, i);
    ItemsReadAs(num, b);
    ReadAround(num, doc, i, i + 1, ItemLines(b), b);
  }

  lemma ReadBlankHeader(num: Numerals, doc: Document, i: nat, j: nat)
    requires 0 < j && i + 1 < |doc.sections| && j + 1 == |doc.sections[i].items|
    requires IsBlank(doc.sections[i].items[j - 1])
    ensures var items := doc.sections[i].items;
      ReadLines(num, BaseLines(doc, i) + ([Header(AUTOLOAD)] + ItemLines(items[..j - 1]))
                     + FusedLines(ItemLine(items[j - 1]), LinesFrom(doc, i, j + 1)), Some(EMPTY))
      == ReadLines(num, AroundLines(doc, i, i + 1, ItemLines(items[..j - 1])), Some(EMPTY))
  {
    hide *;
    var items, next := doc.sections[i].items, doc.sections[i + 1];
    var a := BaseLines(doc, i) + ([Header(AUTOLOAD)] + ItemLines(items[..j - 1]));
    var x := BlankText(items[j - 1]);
    var h, later := Header(next.name), ItemLines(next.items) + SectionLines(doc.sections[i + 2..]);
    HeaderFollows(doc, i, j + 1);
    FusedFirst(x, h, later);
    ReadAfterBlanks(num, a, x, h, later);
    AroundLinesAre(doc, i, i + 1, ItemLines(items[..j - 1]));
    Regrouped4(BaseLines(doc, i), [Header(AUTOLOAD)], ItemLines(items[..j - 1]), SectionLines(doc.sections[i + 1..]));
  }

  // ---------- Exactly when only the entry goes ----------

  /**
   What the line after the entry, run on to the line before it, must be for no other setting to change: the line
   before is blank; or the line after sets nothing, and spoils nothing in the line before. For this, the header
   of a section without settings counts as setting nothing.
   */
  ghost predicate TakesOnlyItself(num: Numerals, doc: Document, i: nat, j: nat)
    requires i < |doc.sections| && j < |doc.sections[i].items|
  {
    var items := doc.sections[i].items;
    if j + 1 < |items| then
      if j == 0 then items[1].Note?
      else
        || IsBlank(items[j - 1])
        || (items[j + 1].Note?
            && FusedKeeps(num, items[..j - 1], items[j - 1], ItemLine(items[j + 1]), items[j + 2..]))
    else if i + 1 < |doc.sections| then
      var next := doc.sections[i + 1];
      if j == 0 then !HasSettings(next.items)
      else
        || IsBlank(items[j - 1])
        || (!HasSettings(next.items) && FusedKeeps(num, items[..j - 1], items[j - 1], Header(next.name), []))
    else true
  }

  lemma BlankBesideNote(num: Numerals, b: seq<Item>, p: Item, n: Item, c: seq<Item>)
    requires IsBlank(p) && n.Note? && IsItem(n)
    ensures FusedKeeps(num, b, p, ItemLine(n), c)
  {
    hide Trim, Find, FusedItem, IsNote, ItemValues;
    FusedToBlanks(p.text, n.text);
    FusedIs(p, n.text, Trim(n.text));
    NoteFuses(n.text);
  }

  lemma NotAgain(items: seq<Item>, k: nat, from: nat, to: nat)
    requires AreItems(items) && k < |items| && items[k].Setting? && from <= to <= |items| && !(from <= k < to)
    ensures !HasKey(items[from..to], items[k].key)
  {
    hide IsItem;
    var part := items[from..to];
    forall m | 0 <= m < |part| && part[m].Setting?
      ensures part[m].key != items[k].key
    {
      assert part[m] == items[from + m];
    }
  }

  /** The entries without the removed one, and with the two beside it as one. */
  lemma ItemsCompare(num: Numerals, items: seq<Item>, j: nat)
    requires AreItems(items) && 0 < j && j + 1 < |items| && items[j].Setting?
    ensures var b, p, n, c := items[..j - 1], items[j - 1], items[j + 1], items[j + 2..];
      ValuesOf(num, b + [FusedItem(p, ItemLine(n))] + c) == ValuesOf(num, items) - {items[j].key}
      <==> IsBlank(p) || (n.Note? && FusedKeeps(num, b, p, ItemLine(n), c))
  {
    var b, p, n, c := items[..j - 1], items[j - 1], items[j + 1], items[j + 2..];
    ValuesWithout(num, items, j);
    assert IsItem(p) && IsItem(n);
    hide *;
    ValuesAre(num, items);
    ValuesAre(num, b + [p, n] + c);
    BesideEntry(items, j);
    if n.Setting? {
      NotAgain(items, j + 1, 0, j - 1);
      NotAgain(items, j + 1, j + 2, |items|);
      if p.Setting? {
        KeysDiffer(items, j - 1, j + 1);
      }
      FusedWithSetting(num, b, p, n, c);
    } else {
      if p.Setting? {
        NotAgain(items, j - 1, j + 2, |items|);
      }
      FusedWithNote(num, b, p, n, c);
    }
  }

  lemma BesideEntry(items: seq<Item>, j: nat)
    requires 0 < j && j + 1 < |items|
    ensures items[..j] + items[j + 1..] == items[..j - 1] + [items[j - 1], items[j + 1]] + items[j + 2..]
    ensures items[0..j - 1] == items[..j - 1] && items[j + 2..|items|] == items[j + 2..]
  {
  }

  lemma KeysDiffer(items: seq<Item>, j: nat, k: nat)
    requires AreItems(items) && j < k < |items| && items[j].Setting? && items[k].Setting?
    ensures items[j].key != items[k].key
  {
    hide IsItem;
  }

  lemma FusedWithNote(num: Numerals, b: seq<Item>, p: Item, n: Item, c: seq<Item>)
    requires n.Note? && IsItem(n) && (p.Setting? ==> !HasKey(c, p.key))
    ensures ValuesOf(num, b + [FusedItem(p, ItemLine(n))] + c) == ValuesOf(num, b + [p, n] + c)
       <==> IsBlank(p) || FusedKeeps(num, b, p, ItemLine(n), c)
  {
    hide *;
    var others := b + [p, n] + c;
    assert others[|b| + 1] == n && others[..|b| + 1] + others[|b| + 2..] == b + [p] + c;
    ValuesWithoutBlank(num, others, |b| + 1);
    ValuesAre(num, others);
    ValuesAre(num, b + [p] + c);
    FusedAlone(num, b, p, ItemLine(n), c);
    if IsBlank(p) {
      BlankBesideNote(num, b, p, n, c);
    }
  }

  lemma ValuesAre(num: Numerals, items: seq<Item>)
    ensures ValuesOf(num, items) == ItemValues(num, items, map[])
  {
    hide ItemValues;
  }

  /** The entries without the last one, before a header that is lost. */
  lemma EndCompare(num: Numerals, items: seq<Item>, j: nat, n: string, lost: seq<Item>)
    requires AreItems(items) && 0 < j && j + 1 == |items| && items[j].Setting? && !HasSettings(lost)
    ensures var b, p := items[..j - 1], items[j - 1];
      ValuesOf(num, b + [FusedItem(p, n)] + lost) == ValuesOf(num, items) - {items[j].key}
      <==> FusedKeeps(num, b, p, n, [])
  {
    var b, p := items[..j - 1], items[j - 1];
    ValuesWithout(num, items, j);
    SettingsShow(num, lost);
    SettingsShow(num, []);
    hide ItemValues, FusedItem, FusedKeeps, AreItems, HasSettings;
    assert items[..j] + items[j + 1..] == b + [p] + [];
    ThreeValues(num, b, FusedItem(p, n), lost);
    ThreeValues(num, b, FusedItem(p, n), []);
    FusedAlone(num, b, p, n, []);
  }

  lemma RemovesBesideItem(num: Numerals, doc: Document, name: string, i: nat, j: nat)
    requires HasAutoload(doc, name, i, j) && 0 < j && i < |doc.sections| && j + 1 < |doc.sections[i].items|
    ensures RemovesExactly(num, doc, name, i, j)
  {
    hide *;
    var items := doc.sections[i].items;
    EntryFacts(doc, name, i, j);
    AfterItems(num, doc, name, i, j);
    MeaningAround(num, doc, i);
    CanonicalItems(doc, i);
    var items' := items[..j - 1] + [FusedItem(items[j - 1], ItemLine(items[j + 1]))] + items[j + 2..];
    RemovesInPlace(num, doc, i, items, items', name);
    ItemsCompare(num, items, j);
    ReadCanonical(num, doc);
    TakesBesideItem(num, doc, i, j);
    RemovesExactlyIs(num, doc, name, i, j);
  }

  lemma TakesBesideItem(num: Numerals, doc: Document, i: nat, j: nat)
    requires i < |doc.sections| && 0 < j && j + 1 < |doc.sections[i].items|
    ensures var items := doc.sections[i].items;
      TakesOnlyItself(num, doc, i, j) <==>
      || IsBlank(items[j - 1])
      || (items[j + 1].Note? && FusedKeeps(num, items[..j - 1], items[j - 1], ItemLine(items[j + 1]), items[j + 2..]))
  {
    hide IsBlank, FusedKeeps, ItemLine;
  }

  /** Removal takes the entry and nothing else, exactly under the condition above. */
  ghost predicate RemovesExactly(num: Numerals, doc: Document, name: string, i: nat, j: nat)
    requires i < |doc.sections| && j < |doc.sections[i].items|
  {
    var before := Join(Lines(doc));
    && RemoveText(before, name).Some?
    && var after := RemoveText(before, name).value;
    && Read(num, before).Some? && Read(num, after).Some?
    && (OnlyRemoves(Read(num, before).value.root, Read(num, after).value.root, AUTOLOAD, name)
        <==> TakesOnlyItself(num, doc, i, j))
  }

  lemma RemovesExactlyIs(num: Numerals, doc: Document, name: string, i: nat, j: nat)
    requires i < |doc.sections| && j < |doc.sections[i].items|
    ensures var before := Join(Lines(doc));
      RemovesExactly(num, doc, name, i, j) <==>
      && RemoveText(before, name).Some?
      && var after := RemoveText(before, name).value;
      && Read(num, before).Some? && Read(num, after).Some?
      && (OnlyRemoves(Read(num, before).value.root, Read(num, after).value.root, AUTOLOAD, name)
          <==> TakesOnlyItself(num, doc, i, j))
  {
    hide Join, Lines, RemoveText, Read, OnlyRemoves, TakesOnlyItself;
  }

  lemma RemovesBeforeHeader(num: Numerals, doc: Document, name: string, i: nat, j: nat)
    requires HasAutoload(doc, name, i, j) && 0 < j && i + 1 < |doc.sections| && j + 1 == |doc.sections[i].items|
    ensures RemovesExactly(num, doc, name, i, j)
  {
    hide *;
    var items, next := doc.sections[i].items, doc.sections[i + 1];
    var b, p, h := items[..j - 1], items[j - 1], Header(next.name);
    EntryFacts(doc, name, i, j);
    MeaningAround(num, doc, i);
    CanonicalItems(doc, i);
    ReadCanonical(num, doc);
    TakesBeforeHeader(num, doc, i, j);
    RemovesExactlyIs(num, doc, name, i, j);
    if IsBlank(p) {
      AfterBlankHeader(num, doc, name, i, j);
      RemovesInPlace(num, doc, i, items, b, name);
      BlankThenLast(num, items, j);
    } else {
      AfterHeader(num, doc, name, i, j);
      RemovesMerged(num, doc, i, items, b + [FusedItem(p, h)] + next.items, name);
      SettingsShow(num, next.items);
      if !HasSettings(next.items) {
        EndCompare(num, items, j, h, next.items);
      }
    }
  }

  lemma TakesBeforeHeader(num: Numerals, doc: Document, i: nat, j: nat)
    requires 0 < j && i + 1 < |doc.sections| && j + 1 == |doc.sections[i].items|
    ensures var items, next := doc.sections[i].items, doc.sections[i + 1];
      TakesOnlyItself(num, doc, i, j) <==>
      || IsBlank(items[j - 1])
      || (!HasSettings(next.items) && FusedKeeps(num, items[..j - 1], items[j - 1], Header(next.name), []))
  {
    hide IsBlank, FusedKeeps, HasSettings, Header;
  }

  lemma BlankThenLast(num: Numerals, items: seq<Item>, j: nat)
    requires AreItems(items) && 0 < j && j + 1 == |items| && items[j].Setting? && IsBlank(items[j - 1])
    ensures ValuesOf(num, items[..j - 1]) == ValuesOf(num, items) - {items[j].key}
  {
    ValuesWithout(num, items, j);
    hide ItemValues, AreItems;
    var others := items[..j];
    assert items[..j] + items[j + 1..] == others && others[..j - 1] + others[j..] == items[..j - 1];
    ValuesWithoutBlank(num, others, j - 1);
  }

  lemma RemovesLast(num: Numerals, doc: Document, name: string, i: nat, j: nat)
    requires HasAutoload(doc, name, i, j) && 0 < j && i + 1 == |doc.sections| && j + 1 == |doc.sections[i].items|
    ensures RemovesExactly(num, doc, name, i, j)
  {
    var items := doc.sections[i].items;
    assert TakesOnlyItself(num, doc, i, j);
    hide *;
    EntryFacts(doc, name, i, j);
    AfterLast(num, doc, name, i, j);
    MeaningAround(num, doc, i);
    CanonicalItems(doc, i);
    ReadCanonical(num, doc);
    RemovesInPlace(num, doc, i, items, items[..j], name);
    ValuesWithout(num, items, j);
    assert items[..j] + items[j + 1..] == items[..j];
    ValuesAre(num, items);
    ValuesAre(num, items[..j]);
    RemovesExactlyIs(num, doc, name, i, j);
  }

  lemma SameAround(num: Numerals, doc: Document, d: Document, i: nat, k: nat, m: nat, items: seq<Item>)
    requires i <= k <= |doc.sections| && i <= m <= |d.sections| && d.preamble == doc.preamble
    requires d.sections[..i] == doc.sections[..i] && d.sections[m..] == doc.sections[k..]
    ensures AroundRoot(num, d, i, m, items) == AroundRoot(num, doc, i, k, items)
  {
    hide SectionNodes, PreambleNodes, ItemValues;
  }

  /** What is read once the first entry of the section is gone, and the line after it with it. */
  lemma UndoneAround(num: Numerals, doc: Document, i: nat)
    requires i < |doc.sections| && doc.sections[i].items != [] && doc.sections[i].name == AUTOLOAD
    ensures var items, after := doc.sections[i].items, Meaning(num, Undo(doc, i));
      if |items| > 1 then after == AroundRoot(num, doc, i, i + 1, items[2..])
      else if i + 1 < |doc.sections| then after == AroundRoot(num, doc, i, i + 2, doc.sections[i + 1].items)
      else after == AroundRoot(num, doc, i, i + 1, [])
  {
    var items, d := doc.sections[i].items, Undo(doc, i);
    hide AroundRoot, Meaning;
    MeaningAround(num, d, i);
    if |items| > 1 {
      assert items[1..][1..] == items[2..] && d.sections[i + 1..] == doc.sections[i + 1..];
      SameAround(num, doc, d, i, i + 1, i + 1, items[2..]);
    } else if i + 1 < |doc.sections| {
      assert d.sections[i + 1..] == doc.sections[i + 2..] && d.sections[..i] == doc.sections[..i];
      SameAround(num, doc, d, i, i + 2, i + 1, doc.sections[i + 1].items);
    } else {
      assert d.sections[i + 1..] == doc.sections[i + 1..];
      SameAround(num, doc, d, i, i + 1, i + 1, []);
    }
  }

  lemma FirstCompare(num: Numerals, items: seq<Item>)
    requires AreItems(items) && items != [] && items[0].Setting?
    ensures |items| > 1 ==>
      (ValuesOf(num, items[2..]) == ValuesOf(num, items) - {items[0].key} <==> items[1].Note?)
    ensures |items| == 1 ==> ValuesOf(num, items) - {items[0].key} == ValuesOf(num, []) == map[]
  {
    FirstItemMeaning(num, items);
    SettingsShow(num, []);
    if |items| > 1 {
      RestAreItems(items);
      FirstItemMeaning(num, items[1..]);
      assert items[1..][1..] == items[2..] && items[1..][0] == items[1];
    } else {
      assert items[1..] == [];
    }
    hide ItemValues, AreItems;
  }

  lemma RestAreItems(items: seq<Item>)
    requires AreItems(items) && items != []
    ensures AreItems(items[1..])
  {
    hide IsItem;
  }

  lemma RemovesFirst(num: Numerals, doc: Document, name: string, i: nat)
    requires HasAutoload(doc, name, i, 0)
    ensures i < |doc.sections| && doc.sections[i].items != [] && RemovesExactly(num, doc, name, i, 0)
  {
    hide *;
    EntryFacts(doc, name, i, 0);
    ReadUndone(num, doc, name, i);
    UndoneAround(num, doc, i);
    MeaningAround(num, doc, i);
    CanonicalItems(doc, i);
    ReadCanonical(num, doc);
    RemovesExactlyIs(num, doc, name, i, 0);
    TakesFirst(num, doc, i);
    var items := doc.sections[i].items;
    FirstCompare(num, items);
    if |items| > 1 {
      RemovesInPlace(num, doc, i, items, items[2..], name);
    } else if i + 1 < |doc.sections| {
      RemovesMerged(num, doc, i, items, doc.sections[i + 1].items, name);
      SettingsShow(num, doc.sections[i + 1].items);
    } else {
      RemovesInPlace(num, doc, i, items, [], name);
    }
  }

  lemma TakesFirst(num: Numerals, doc: Document, i: nat)
    requires i < |doc.sections| && doc.sections[i].items != []
    ensures TakesOnlyItself(num, doc, i, 0) <==>
      if |doc.sections[i].items| > 1 then doc.sections[i].items[1].Note?
      else i + 1 < |doc.sections| ==> !HasSettings(doc.sections[i + 1].items)
  {
    hide HasSettings;
  }

  /**
   In a canonical file in which the searches find the entry, removing it deletes that entry and no other setting
   exactly when the lines on either side of it can run together without harm.
   */
  lemma RemovesOnlyItself(num: Numerals, doc: Document, name: string, i: nat, j: nat)
    requires HasAutoload(doc, name, i, j)
    ensures i < |doc.sections| && j < |doc.sections[i].items|
    ensures var before := Join(Lines(doc));
      && RemoveText(before, name).Some?
      && var after := RemoveText(before, name).value;
      && Read(num, before).Some? && Read(num, after).Some?
      && (OnlyRemoves(Read(num, before).value.root, Read(num, after).value.root, AUTOLOAD, name)
          <==> TakesOnlyItself(num, doc, i, j))
  {
    hide *;
    EntryFacts(doc, name, i, j);
    if j == 0 {
      RemovesFirst(num, doc, name, i);
    } else if j + 1 < |doc.sections[i].items| {
      RemovesBesideItem(num, doc, name, i, j);
    } else if i + 1 < |doc.sections| {
      RemovesBeforeHeader(num, doc, name, i, j);
    } else {
      RemovesLast(num, doc, name, i, j);
    }
    RemovesExactlyIs(num, doc, name, i, j);
  }

  /** The entry has a blank line before or after it, or is the last line of the file. */
  predicate HasRoom(doc: Document, i: nat, j: nat)
    requires i < |doc.sections| && j < |doc.sections[i].items|
  {
    var items := doc.sections[i].items;
    || (j > 0 && items[j - 1] == Note(""))
    || (j + 1 < |items| && items[j + 1] == Note(""))
    || (j + 1 == |items| && i + 1 == |doc.sections|)
  }

  /** With room around the entry, removal deletes that entry and no other. */
  lemma RemoveThenRead(num: Numerals, doc: Document, name: string, i: nat, j: nat)
    requires HasAutoload(doc, name, i, j) && HasRoom(doc, i, j)
    ensures var before := Join(Lines(doc));
      && RemoveText(before, name).Some?
      && var after := RemoveText(before, name).value;
      && Read(num, before).Some? && Read(num, after).Some?
      && OnlyRemoves(Read(num, before).value.root, Read(num, after).value.root, AUTOLOAD, name)
  {
    EntryFacts(doc, name, i, j);
    CanonicalItems(doc, i);
    RoomIsEnough(num, doc, i, j);
    hide *;
    RemovesOnlyItself(num, doc, name, i, j);
  }

  lemma RoomIsEnough(num: Numerals, doc: Document, i: nat, j: nat)
    requires i < |doc.sections| && j < |doc.sections[i].items| && HasRoom(doc, i, j)
    requires forall k :: 0 <= k < |doc.sections[i].items| ==> IsItem(doc.sections[i].items[k])
    ensures TakesOnlyItself(num, doc, i, j)
  {
    var items := doc.sections[i].items;
    if j > 0 && j + 1 < |items| && items[j + 1] == Note("") {
      NothingSpoils(num, items[..j - 1], items[j - 1], items[j + 2..]);
    }
    assert Trim("") == "";
    hide FusedKeeps, HasSettings;
  }

  lemma NothingSpoils(num: Numerals, b: seq<Item>, p: Item, c: seq<Item>)
    requires IsItem(p)
    ensures FusedKeeps(num, b, p, "", c)
  {
    hide Trim, Find, FusedItem, IsNote, IsKey, ItemValues, ParseValue;
    match p {
      case Note(text) =>
        assert text + "" == text;
        FusedIs(p, "", Trim(text));
        NoteFuses(text);
      case Setting(key, value) =>
        assert value + "" == value;
    }
  }
}
