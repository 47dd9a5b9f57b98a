/** What `remove_autoload` does when the text of its header comes in a line before the section. */
module ConfigElsewhere {
  import opened Wrappers
  import opened ByteText
  import opened ConfigValues
  import opened ConfigText
  import opened ConfigReader
  import opened ConfigDocument
  import opened ConfigSearch
  import opened ConfigRefinement
  import opened ConfigMeaning
  import opened ConfigFindable
  import opened ConfigAutoload
  import opened ConfigUndo
  import opened ConfigRemoval

  // ---------- Where it removes ----------

  lemma RemoveIs(content: string, name: string, sp: nat)
    requires Find(content, Header(AUTOLOAD), 0) == Some(sp)
    ensures var from, f := sp + |Header(AUTOLOAD)|, Find(content, KeyPrefix(name), sp + |Header(AUTOLOAD)|);
      && (f.Some? ==> f.value < |content|)
      && RemoveText(content, name)
         == if f.None? || (Find(content, "\n[", from).Some? && f.value > SectionEnd(content, from)) then None
            else Some(EraseLine(content, f.value))
  {
    FindBounds(content, KeyPrefix(name), sp + |Header(AUTOLOAD)|);
    hide Find, Header, EraseLine;
  }

  predicate EndsLine(t: string) {
    t == "" || t[|t| - 1] == '\n'
  }

  /** What is erased lies before a place where a line begins, if the text to erase does. */
  lemma ErasedBefore(a: string, c: string, k: nat) returns (before: string)
    requires k < |a| && a[|a| - 1] == '\n'
    ensures EraseLine(a + c, k) == before + c && |before| < |a|
    ensures EndsLine(before) || LineEnd(a + c, k) == |a| - 1
  {
    hide LineEnd;
    var t := a + c;
    var end := LineEnd(t, k);
    NewlineAhead(a, c, k, end);
    var start := if k > 0 && t[k - 1] == '\n' then k - 1 else k;
    before := a[..start] + a[end + 1..];
    assert EraseLine(t, k) == t[..start] + t[end + 1..];
    hide *;
    ErasedParts(a, c, start, end + 1);
    if end + 1 < |a| {
      RestEndsLine(a, start, end + 1);
    }
  }

  lemma ErasedParts(a: string, c: string, start: nat, end: nat)
    requires start <= end <= |a|
    ensures (a + c)[..start] + (a + c)[end..] == a[..start] + a[end..] + c
  {
    assert (a + c)[end..] == a[end..] + c && (a + c)[..start] == a[..start];
  }

  lemma RestEndsLine(a: string, start: nat, end: nat)
    requires start <= end < |a| && a[|a| - 1] == '\n'
    ensures EndsLine(a[..start] + a[end..])
  {
  }

  lemma NewlineAhead(a: string, c: string, k: nat, end: nat)
    requires k < |a| && a[|a| - 1] == '\n' && k <= end <= |a + c| && '\n' !in (a + c)[k..end]
    ensures end < |a|
  {
    var t := a + c;
    assert forall i :: k <= i < end ==> t[i] == t[k..end][i - k] != '\n';
    assert t[|a| - 1] == '\n';
  }

  /** The search for the key ends in the section where the search for the header did. */
  lemma EarlierHit(t: string, p: string, from: nat, k: nat)
    requires Find(t, p, from) == Some(k) && p != "" && '\n' !in p
    requires Find(t, "\n[", from).Some? ==> k <= SectionEnd(t, from)
    ensures k < SectionEnd(t, from)
  {
    FindBounds(t, p, from);
    hide Find;
    assert t[k..k + |p|][0] == p[0] == t[k];
    if Find(t, "\n[", from).Some? {
      var n := SectionEnd(t, from);
      assert t[n..n + 2][0] == '\n' == t[n];
    }
  }

  lemma EndOfLine(t: string, p: string, k: nat, end: nat)
    requires k + |p| <= |t| && t[k..k + |p|] == p && '\n' !in p && k <= end < |t| && t[end] == '\n'
    ensures k + |p| <= end
  {
    assert forall i :: k <= i < k + |p| ==> t[i] == t[k..k + |p|][i - k] != '\n';
  }

  lemma BeginOfLine(t: string, n: nat, k: nat, end: nat)
    requires k <= end < |t| && '\n' !in t[k..end] && n <= end && (n == 0 || t[n - 1] == '\n')
    ensures n <= k
  {
    assert forall i :: k <= i < end ==> t[i] == t[k..end][i - k] != '\n';
  }

  /** Found on the last line, the key's text is in that line. */
  lemma LastHit(first: string, line: string, c: string, p: string, k: nat)
    requires EndsLine(first) && OccursAt(first + line + "\n" + c, p, k) && '\n' !in p
    requires k <= |first + line + "\n" + c| && LineEnd(first + line + "\n" + c, k) == |first| + |line|
    ensures Contains(line, p)
  {
    hide LineEnd, Find;
    var t, end := first + line + "\n" + c, |first| + |line|;
    assert first != "" ==> t[|first| - 1] == first[|first| - 1];
    EndOfLine(t, p, k, end);
    BeginOfLine(t, |first|, k, end);
    assert line[k - |first|..k - |first| + |p|] == t[k..k + |p|];
    assert OccursAt(line, p, k - |first|);
  }

  lemma LinesEnd(lines: seq<string>)
    ensures EndsLine(Join(lines))
  {
    JoinEnds(lines);
    hide Join;
  }

  /** What is left before the header is whole lines, unless the key's text was in the last of them. */
  lemma LeftBefore(lines: seq<string>, c: string, p: string, k: nat) returns (before: string)
    requires lines != [] && k < |Join(lines)| && OccursAt(Join(lines) + c, p, k) && '\n' !in p
    ensures EraseLine(Join(lines) + c, k) == before + c && |before| < |Join(lines)|
    ensures EndsLine(before) || Contains(lines[|lines| - 1], p)
  {
    hide *;
    var first, line := Join(lines[..|lines| - 1]), lines[|lines| - 1];
    LastLine(lines);
    LinesEnd(lines[..|lines| - 1]);
    EndsWithNewline(first, line, c);
    before := ErasedBefore(Join(lines), c, k);
    if !EndsLine(before) {
      LastHit(first, line, c, p, k);
    }
  }

  lemma EndsWithNewline(first: string, line: string, c: string)
    ensures var a := first + line + "\n"; a[|a| - 1] == '\n' && |a| == |first| + |line| + 1
  {
  }

  /** Nothing is erased from the section's header on. */
  lemma KeptFromHeader(doc: Document, name: string) returns (before: string)
    requires IsCanonical(doc) && IsKey(name)
    requires var i := SectionIndex(doc.sections, AUTOLOAD);
      !NoneContains(ItemLines(doc.preamble) + SectionLines(doc.sections[..i]), Header(AUTOLOAD))
    ensures var i, r := SectionIndex(doc.sections, AUTOLOAD), RemoveText(Join(Lines(doc)), name);
      r.Some? ==>
      && r == Some(before + Join(SectionLines(doc.sections[i..])))
      && var a := ItemLines(doc.preamble) + SectionLines(doc.sections[..i]);
         a != [] && |before| < |Join(a)| && (EndsLine(before) || Contains(a[|a| - 1], KeyPrefix(name)))
  {
    hide *;
    var i := SectionIndex(doc.sections, AUTOLOAD);
    var a, c := ItemLines(doc.preamble) + SectionLines(doc.sections[..i]), Join(SectionLines(doc.sections[i..]));
    var h, p, t := Header(AUTOLOAD), KeyPrefix(name), Join(Lines(doc));
    SplitAt(doc, i);
    JoinConcat(a, SectionLines(doc.sections[i..]));
    AutoloadIsName();
    HeaderIsLine(AUTOLOAD);
    PrefixIsPlain(name);
    CanonicalOpens(doc, i);
    var q := ContainedOccurs(a, h, c);
    var sp := FoundBy(t, h, 0, q);
    EndsBefore(a, c, sp + |h|);
    RemoveIs(t, name, sp);
    before := "";
    if RemoveText(t, name).Some? {
      var k := Find(t, p, sp + |h|).value;
      EarlierHit(t, p, sp + |h|, k);
      FindOccurs(t, p, sp + |h|);
      JoinNothing();
      before := LeftBefore(a, c, p, k);
    }
  }

  // ---------- What is still read ----------

  /** The entry is there, as far as the reader has come. */
  ghost predicate Holds(st: Option<Ini>, name: string, v: Value) {
    st.Some? ==> Lookup(st.value.root, AUTOLOAD, name) == Some(v)
  }

  lemma AssignHolds(st: Ini, key: string, w: Value, name: string, v: Value)
    requires Holds(Some(st), name, v) && st.section != "" && (st.section == AUTOLOAD ==> key != name)
    ensures Holds(Assign(st, key, w), name, v)
    ensures var r := Assign(st, key, w); r.Some? ==> r.value.section == st.section
  {
  }

  lemma AssignPuts(st: Ini, name: string, v: Value)
    requires st.section == AUTOLOAD
    ensures Holds(Assign(st, name, v), name, v)
    ensures var r := Assign(st, name, v); r.Some? ==> r.value.section == AUTOLOAD
  {
  }

  lemma EnterHolds(st: Ini, section: string, name: string, v: Value)
    requires Holds(Some(st), name, v)
    ensures Holds(Some(Enter(st, section)), name, v)
  {
  }

  ghost predicate SetsOther(item: Item, section: string, name: string) {
    item.Note? || section != AUTOLOAD || item.key != name
  }

  ghost predicate SetOthers(items: seq<Item>, section: string, name: string) {
    forall k :: 0 <= k < |items| ==> IsItem(items[k]) && SetsOther(items[k], section, name)
  }

  ghost predicate AreOthers(sections: seq<Section>) {
    forall k :: 0 <= k < |sections| ==>
      IsName(sections[k].name) && AreItems(sections[k].items) && sections[k].name != AUTOLOAD
  }

  lemma ItemHolds(num: Numerals, item: Item, st: Ini, name: string, v: Value)
    requires IsItem(item) && SetsOther(item, st.section, name) && st.section != "" && Holds(Some(st), name, v)
    ensures Holds(ReadLine(num, ItemLine(item), st), name, v)
    ensures var r := ReadLine(num, ItemLine(item), st); r.Some? ==> r.value.section == st.section
  {
    hide Holds, ReadLine, Assign, ParseValue, IsItem, ItemLine;
    ItemReadAs(num, item, st);
    if item.Setting? {
      AssignHolds(st, item.key, ParseValue(num, item.value), name, v);
    }
  }

  lemma ItemReadAs(num: Numerals, item: Item, st: Ini)
    requires IsItem(item)
    ensures ReadLine(num, ItemLine(item), st)
         == if item.Note? then Some(st) else Assign(st, item.key, ParseValue(num, item.value))
  {
    hide ReadLine, ParseValue, ItemLine, IsItem, Assign;
    ItemReadsAs(num, item);
    assert ReadsAs(num, ItemLine(item), item);
  }

  lemma {:induction false} ItemsHold(num: Numerals, items: seq<Item>, section: string, st: Option<Ini>, name: string,
                                     v: Value)
    requires SetOthers(items, section, name)
    requires section != "" && Holds(st, name, v) && (st.Some? ==> st.value.section == section)
    ensures Holds(ReadLines(num, ItemLines(items), st), name, v)
    ensures var r := ReadLines(num, ItemLines(items), st); r.Some? ==> r.value.section == section
    decreases |items|
  {
    hide Holds, ReadLine, IsItem, SetsOther, ItemLine;
    if st.None? || items == [] {
    } else {
      ItemHolds(num, items[0], st.value, name, v);
      ItemsHold(num, items[1..], section, ReadLine(num, ItemLine(items[0]), st.value), name, v);
      assert ItemLines(items)[1..] == ItemLines(items[1..]);
    }
  }

  lemma {:induction false} SectionsHold(num: Numerals, sections: seq<Section>, st: Option<Ini>, name: string, v: Value)
    requires AreOthers(sections) && Holds(st, name, v)
    ensures Holds(ReadLines(num, SectionLines(sections), st), name, v)
    decreases |sections|
  {
    hide Holds, ReadLine, IsName, AreItems, ItemLines, Header, ReadLines;
    if sections == [] {
      NoLinesRead(num, st);
    } else {
      var section, items, later := sections[0].name, sections[0].items, sections[1..];
      var st1 := HeaderHolds(num, section, st, name, v);
      var st2 := ReadLines(num, ItemLines(items), st1);
      NameIsNotEmpty(section);
      ItemsAreItems(items);
      ItemsHold(num, items, section, st1, name, v);
      SectionsHold(num, later, st2, name, v);
      ReadSectionFirst(num, section, items, later, st);
    }
  }

  lemma NoLinesRead(num: Numerals, st: Option<Ini>)
    ensures ReadLines(num, [], st) == st
  {
  }

  lemma HeaderHolds(num: Numerals, section: string, st: Option<Ini>, name: string, v: Value) returns (st1: Option<Ini>)
    requires IsName(section) && Holds(st, name, v)
    ensures st1 == ReadLines(num, [Header(section)], st) && Holds(st1, name, v)
    ensures st1.Some? ==> st1.value.section == section
  {
    hide Holds, ReadLine, IsName, Header;
    st1 := ReadLines(num, [Header(section)], st);
    if st.Some? {
      ReadHeader(num, section, st.value);
      EnterHolds(st.value, section, name, v);
      assert [Header(section)][1..] == [];
    }
  }

  lemma ReadSectionFirst(num: Numerals, section: string, items: seq<Item>, later: seq<Section>, st: Option<Ini>)
    ensures ReadLines(num, [Header(section)] + ItemLines(items) + SectionLines(later), st)
         == ReadLines(num, SectionLines(later), ReadLines(num, ItemLines(items), ReadLines(num, [Header(section)], st)))
  {
    hide *;
    ReadLinesConcat(num, [Header(section)] + ItemLines(items), SectionLines(later), st);
    ReadLinesConcat(num, [Header(section)], ItemLines(items), st);
  }

  lemma {:induction false} ItemsStay(num: Numerals, items: seq<Item>, st: Option<Ini>)
    requires forall k :: 0 <= k < |items| ==> IsItem(items[k])
    requires st.Some? ==> st.value.section == AUTOLOAD
    ensures var r := ReadLines(num, ItemLines(items), st); r.Some? ==> r.value.section == AUTOLOAD
    decreases |items|
  {
    hide ReadLine, IsItem, ItemLine, ParseValue;
    if st.None? || items == [] {
    } else {
      ItemReadAs(num, items[0], st.value);
      ItemsStay(num, items[1..], ReadLine(num, ItemLine(items[0]), st.value));
      assert ItemLines(items)[1..] == ItemLines(items[1..]);
    }
  }

  lemma AutoloadEntered(num: Numerals, st: Option<Ini>)
    ensures var r := ReadLines(num, [Header(AUTOLOAD)], st); r.Some? ==> r.value.section == AUTOLOAD
  {
    AutoloadIsName();
    hide ReadLine, Header;
    if st.Some? {
      ReadHeader(num, AUTOLOAD, st.value);
      assert [Header(AUTOLOAD)][1..] == [];
    }
  }

  lemma EntryPut(num: Numerals, item: Item, st: Option<Ini>)
    requires IsItem(item) && item.Setting? && (st.Some? ==> st.value.section == AUTOLOAD)
    ensures var r := ReadLines(num, ItemLines([item]), st);
      Holds(r, item.key, ParseValue(num, item.value)) && (r.Some? ==> r.value.section == AUTOLOAD)
  {
    hide ReadLine, ItemLine, ParseValue, Holds, Assign, IsItem;
    OneItemLines(item);
    if st.Some? {
      ItemReadAs(num, item, st.value);
      AssignPuts(st.value, item.key, ParseValue(num, item.value));
      assert [ItemLine(item)][1..] == [];
    } else {
      NoneHolds(item.key, ParseValue(num, item.value));
    }
  }

  lemma NoneHolds(name: string, v: Value)
    ensures Holds(None, name, v)
  {
  }

  lemma OthersAfter(items: seq<Item>, j: nat)
    requires AreItems(items) && j < |items| && items[j].Setting?
    ensures SetOthers(items[j + 1..], AUTOLOAD, items[j].key)
  {
    hide IsItem;
    var rest := items[j + 1..];
    forall k | 0 <= k < |rest|
      ensures IsItem(rest[k]) && SetsOther(rest[k], AUTOLOAD, items[j].key)
    {
      assert rest[k] == items[j + 1 + k];
    }
  }

  lemma AutoloadIsSomething()
    ensures AUTOLOAD != ""
  {
  }

  /** From any state, the section's own lines leave the entry set. */
  lemma EntryRead(num: Numerals, items: seq<Item>, j: nat, st: Option<Ini>)
    requires AreItems(items) && j < |items| && items[j].Setting? && (st.Some? ==> st.value.section == AUTOLOAD)
    ensures Holds(ReadLines(num, ItemLines(items), st), items[j].key, ParseValue(num, items[j].value))
  {
    hide *;
    var before, rest := items[..j], items[j + 1..];
    ItemsAreItems(items);
    OthersAfter(items, j);
    AutoloadIsSomething();
    assert items == before + ([items[j]] + rest);
    ItemLinesConcat(before, [items[j]] + rest);
    ItemLinesConcat([items[j]], rest);
    var st1 := ReadLines(num, ItemLines(before), st);
    var st2 := ReadLines(num, ItemLines([items[j]]), st1);
    ReadLinesConcat(num, ItemLines(before), ItemLines([items[j]] + rest), st);
    ReadLinesConcat(num, ItemLines([items[j]]), ItemLines(rest), st1);
    ItemsStay(num, before, st);
    EntryPut(num, items[j], st1);
    ItemsHold(num, rest, AUTOLOAD, st2, items[j].key, ParseValue(num, items[j].value));
  }

  lemma SectionsRead(num: Numerals, doc: Document, i: nat, j: nat, st: Option<Ini>)
    requires IsCanonical(doc) && i < |doc.sections| && doc.sections[i].name == AUTOLOAD
    requires j < |doc.sections[i].items| && doc.sections[i].items[j].Setting?
    ensures var item := doc.sections[i].items[j];
      Holds(ReadLines(num, SectionLines(doc.sections[i..]), st), item.key, ParseValue(num, item.value))
  {
    hide *;
    var items, later, s := doc.sections[i].items, doc.sections[i + 1..], doc.sections[i..];
    assert s[0] == doc.sections[i] && s[1..] == later;
    FirstSectionLines(s);
    var h := [Header(AUTOLOAD)];
    assert h + (ItemLines(items) + SectionLines(later)) == h + ItemLines(items) + SectionLines(later);
    ReadSectionFirst(num, AUTOLOAD, items, later, st);
    AutoloadEntered(num, st);
    CanonicalItems(doc, i);
    EntryRead(num, items, j, ReadLines(num, h, st));
    LaterSections(doc, i);
    SectionsHold(num, later, ReadLines(num, ItemLines(items), ReadLines(num, h, st)), items[j].key,
                 ParseValue(num, items[j].value));
  }

  lemma LaterSections(doc: Document, i: nat)
    requires IsCanonical(doc) && i < |doc.sections| && doc.sections[i].name == AUTOLOAD
    ensures AreOthers(doc.sections[i + 1..])
  {
    hide IsName, AreItems;
    var later := doc.sections[i + 1..];
    forall k | 0 <= k < |later|
      ensures IsName(later[k].name) && AreItems(later[k].items) && later[k].name != AUTOLOAD
    {
      assert later[k] == doc.sections[i + 1 + k];
    }
  }

  /** Text that ends with a newline is made of lines. */
  lemma {:induction false} AsLines(t: string) returns (lines: seq<string>)
    requires EndsLine(t)
    ensures AreLines(lines) && Join(lines) == t
    decreases |t|
  {
    hide LineEnd, Join;
    if t == "" {
      lines := [];
      JoinNothing();
    } else {
      var n := LineEnd(t, 0);
      assert forall i :: 0 <= i < n ==> t[i] == t[0..n][i] != '\n';
      var later := AsLines(t[n + 1..]);
      lines := [t[..n]] + later;
      assert t[..n] == t[0..n];
      JoinUnfold(lines);
      assert lines[1..] == later;
      assert t == t[..n] + "\n" + t[n + 1..];
    }
  }

  /** With a line end before the section's header, its entry is read as before, if the file is read at all. */
  lemma StillRead(num: Numerals, doc: Document, i: nat, j: nat, before: string)
    requires IsCanonical(doc) && i < |doc.sections| && doc.sections[i].name == AUTOLOAD
    requires j < |doc.sections[i].items| && doc.sections[i].items[j].Setting?
    requires EndsLine(before)
    ensures var item := doc.sections[i].items[j];
      Holds(Read(num, before + Join(SectionLines(doc.sections[i..]))), item.key, ParseValue(num, item.value))
  {
    hide *;
    var lines := AsLines(before);
    var c := SectionLines(doc.sections[i..]);
    CanonicalLines(doc);
    SplitAt(doc, i);
    PartsAreLines(ItemLines(doc.preamble) + SectionLines(doc.sections[..i]), c);
    AppendedLines(lines, c);
    JoinConcat(lines, c);
    ReadIs(num, before + Join(c));
    ReadTerminated(num, lines + c, Some(EMPTY));
    ReadLinesConcat(num, lines, c, Some(EMPTY));
    SectionsRead(num, doc, i, j, ReadLines(num, lines, Some(EMPTY)));
  }

  lemma AppendedLines(a: seq<string>, b: seq<string>)
    requires AreLines(a) && AreLines(b)
    ensures AreLines(a + b)
  {
  }

  /**
   With the header's text in a line before the section, removal takes only what comes before the section, and the
   entry itself stays: unless `name=` is in the very last line before the section, the file reads with it, if at all.
   */
  lemma ElsewhereIsRemoved(num: Numerals, doc: Document, name: string, j: nat) returns (before: string)
    requires IsCanonical(doc) && IsKey(name)
    requires var i := SectionIndex(doc.sections, AUTOLOAD);
      && i < |doc.sections|
      && !NoneContains(ItemLines(doc.preamble) + SectionLines(doc.sections[..i]), Header(AUTOLOAD))
      && j == KeyIndex(doc.sections[i].items, name) < |doc.sections[i].items|
    ensures var i, r := SectionIndex(doc.sections, AUTOLOAD), RemoveText(Join(Lines(doc)), name);
      r.Some? ==>
      && r == Some(before + Join(SectionLines(doc.sections[i..])))
      && var a := ItemLines(doc.preamble) + SectionLines(doc.sections[..i]);
      && a != [] && |before| < |Join(a)|
      && (!Contains(a[|a| - 1], KeyPrefix(name)) ==>
            && Holds(Read(num, r.value), name, ParseValue(num, doc.sections[i].items[j].value))
            && !(Read(num, r.value).Some?
                 && OnlyRemoves(Meaning(num, doc), Read(num, r.value).value.root, AUTOLOAD, name)))
  {
    hide *;
    before := KeptFromHeader(doc, name);
    var i, r := SectionIndex(doc.sections, AUTOLOAD), RemoveText(Join(Lines(doc)), name);
    if r.Some? && EndsLine(before) {
      StillRead(num, doc, i, j, before);
      HeldIsKept(Meaning(num, doc), Read(num, r.value), name, ParseValue(num, doc.sections[i].items[j].value));
    }
  }

  lemma HeldIsKept(root: map<string, Node>, after: Option<Ini>, name: string, v: Value)
    requires Holds(after, name, v)
    ensures !(after.Some? && OnlyRemoves(root, after.value.root, AUTOLOAD, name))
  {
    hide Lookup;
  }
}
