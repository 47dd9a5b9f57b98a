/** Editing canonical text by `set_project_setting` is updating the document it stands for. */
module ConfigRefinement {
  import opened Wrappers
  import opened ByteText
  import opened ConfigValues
  import opened ConfigText
  import opened ConfigReader
  import opened ConfigDocument
  import opened ConfigSearch

  // ---------- The update of a document ----------

  function KeyIndex(items: seq<Item>, key: string): (r: nat)
    ensures r <= |items|
    ensures r < |items| ==> items[r].Setting? && items[r].key == key
    ensures forall i :: 0 <= i < r ==> items[i].Note? || items[i].key != key
  {
    if items == [] || (items[0].Setting? && items[0].key == key) then 0
    else
      var r := KeyIndex(items[1..], key);
      assert forall i :: 1 <= i < 1 + r ==> items[i] == items[1..][i - 1];
      1 + r
  }

  function SectionIndex(sections: seq<Section>, name: string): (r: nat)
    ensures r <= |sections|
    ensures r < |sections| ==> sections[r].name == name
    ensures forall i :: 0 <= i < r ==> sections[i].name != name
  {
    if sections == [] || sections[0].name == name then 0
    else
      var r := SectionIndex(sections[1..], name);
      assert forall i :: 1 <= i < 1 + r ==> sections[i] == sections[1..][i - 1];
      1 + r
  }

  /** The entry is replaced where it stands, or comes first. */
  function SetItem(items: seq<Item>, key: string, written: string): seq<Item> {
    var i := KeyIndex(items, key);
    if i < |items| then items[i := Setting(key, written)] else [Setting(key, written)] + items
  }

  /** A blank line after everything there is. */
  function AddBlank(doc: Document): Document {
    if doc.sections == [] then doc.(preamble := doc.preamble + [Note("")])
    else
      var last := |doc.sections| - 1;
      doc.(sections := doc.sections[last := doc.sections[last].(items := doc.sections[last].items + [Note("")])])
  }

  function SetDocument(doc: Document, name: string, key: string, written: string): Document {
    var i := SectionIndex(doc.sections, name);
    if i < |doc.sections| then
      doc.(sections := doc.sections[i := Section(name, SetItem(doc.sections[i].items, key, written))])
    else
      var blank := AddBlank(doc);
      blank.(sections := blank.sections + [Section(name, [Setting(key, written)])])
  }

  /** The text after `=` that the new value replaces. */
  function Existing(doc: Document, name: string, key: string): string {
    var i := SectionIndex(doc.sections, name);
    if i == |doc.sections| then ""
    else
      var items := doc.sections[i].items;
      var j := KeyIndex(items, key);
      if j < |items| then items[j].value else ""
  }

  /**
   The searches find the section and the key where the document has them: no other line contains
   `[name]`, and in the section no line before the key's own contains `key=`.
   */
  ghost predicate IsFindable(doc: Document, name: string, key: string) {
    var i := SectionIndex(doc.sections, name);
    && NoneContains(ItemLines(doc.preamble) + SectionLines(doc.sections[..i]), Header(name))
    && (i < |doc.sections| ==>
          var items := doc.sections[i].items;
          NoneContains(ItemLines(items[..KeyIndex(items, key)]), KeyPrefix(key)))
  }

  // ---------- Lines of documents ----------

  lemma {:induction false} ItemLinesConcat(a: seq<Item>, b: seq<Item>)
    ensures ItemLines(a + b) == ItemLines(a) + ItemLines(b)
    decreases |a|
  {
    hide ItemLine;
    if a == [] {
      assert a + b == b;
    } else {
      assert (a + b)[1..] == a[1..] + b;
      ItemLinesConcat(a[1..], b);
    }
  }

  lemma {:induction false} SectionLinesConcat(a: seq<Section>, b: seq<Section>)
    ensures SectionLines(a + b) == SectionLines(a) + SectionLines(b)
    decreases |a|
  {
    hide ItemLines;
    if a == [] {
      assert a + b == b;
    } else {
      assert (a + b)[1..] == a[1..] + b;
      SectionLinesConcat(a[1..], b);
    }
  }

  lemma LinesAt(doc: Document, i: nat)
    requires i < |doc.sections|
    ensures Lines(doc) == ItemLines(doc.preamble) + SectionLines(doc.sections[..i])
                        + [Header(doc.sections[i].name)] + ItemLines(doc.sections[i].items)
                        + SectionLines(doc.sections[i + 1..])
  {
    hide ItemLines, Header;
    var s := doc.sections;
    assert s == s[..i] + s[i..];
    SectionLinesConcat(s[..i], s[i..]);
    assert s[i..][1..] == s[i + 1..];
  }

  lemma ItemsAt(items: seq<Item>, j: nat)
    requires j < |items|
    ensures ItemLines(items) == ItemLines(items[..j]) + [ItemLine(items[j])] + ItemLines(items[j + 1..])
  {
    hide ItemLine;
    assert items == items[..j] + items[j..];
    ItemLinesConcat(items[..j], items[j..]);
    assert items[j..][1..] == items[j + 1..];
  }

  lemma {:induction false} ItemLinesAreLines(items: seq<Item>)
    requires forall i :: 0 <= i < |items| ==> IsItem(items[i])
    ensures AreLines(ItemLines(items)) && NoneOpens(ItemLines(items))
    decreases |items|
  {
    if items == [] {
    } else {
      assert IsItem(items[0]);
      OneItemLine(items[0]);
      hide IsItem, ItemLine;
      ItemLinesAreLines(items[1..]);
    }
  }

  lemma OneItemLine(item: Item)
    requires IsItem(item)
    ensures var l := ItemLine(item); '\n' !in l && (l == "" || l[0] != '[')
  {
    if item.Note? && item.text != "" && item.text[0] == '[' {
      TrimKeepsBracket(item.text);
    }
  }

  lemma TrimKeepsBracket(text: string)
    requires text != "" && text[0] == '['
    ensures Trim(text) != "" && Trim(text)[0] == '['
  {
    assert SkipSpace(text) == 0;
    TrimRightAfter("[", text[1..]);
    assert text[0..] == "[" + text[1..];
  }

  lemma {:induction false} SectionLinesAreLines(sections: seq<Section>)
    requires forall i :: 0 <= i < |sections| ==> IsName(sections[i].name) && AreItems(sections[i].items)
    ensures AreLines(SectionLines(sections))
    decreases |sections|
  {
    if sections == [] {
    } else {
      hide IsItem;
      ItemLinesAreLines(sections[0].items);
      HeaderIsLine(sections[0].name);
      hide ItemLines, Header, AreItems, IsName;
      SectionLinesAreLines(sections[1..]);
    }
  }

  lemma HeaderIsLine(name: string)
    requires IsName(name)
    ensures '\n' !in Header(name) && Header(name) != "" && Header(name)[0] == '['
  {
  }

  lemma CanonicalLines(doc: Document)
    requires IsCanonical(doc)
    ensures AreLines(Lines(doc))
  {
    hide IsItem;
    ItemLinesAreLines(doc.preamble);
    SectionLinesAreLines(doc.sections);
    hide ItemLines, SectionLines;
  }

  // ---------- The three edits ----------

  lemma Slices(x: string, m: string, z: string)
    ensures var t := x + m + z; t[..|x|] == x && t[|x|..|x| + |m|] == m && t[|x| + |m|..] == z
  {
  }

  lemma ReplacedText(x: string, key: string, was: string, y: string, value: string)
    requires '\n' !in key && '\n' !in was
    ensures var content := x + (KeyPrefix(key) + was) + ("\n" + y);
      |x| + |KeyPrefix(key)| <= |content|
      && ReplaceLine(content, |x|, key, value) == x + KeyPrefix(key) + Format(was, value) + ("\n" + y)
  {
    assert '\n' !in KeyPrefix(key);
    var p := KeyPrefix(key);
    var content, end := x + (p + was) + ("\n" + y), |x| + |p| + |was|;
    Slices(x, p + was, "\n" + y);
    hide KeyPrefix, Format, LineEnd;
    assert content[end..][0] == content[end] == '\n';
    LineEndIs(content, |x|, end);
    assert content[|x| + |p|..end] == content[|x|..end][|p|..] == was;
  }

  lemma InsertedText(x: string, y: string, key: string, value: string)
    ensures InsertLine(x + ("\n" + y), |x|, key, value) == x + "\n" + (KeyPrefix(key) + Format("", value)) + "\n" + y
  {
    hide KeyPrefix, Format;
    var content := x + ("\n" + y);
    assert content[|x|] == '\n' && content[..|x| + 1] == x + "\n" && content[|x| + 1..] == y;
  }

  lemma JoinedBefore(a: seq<string>, h: string, b: seq<string>, c: seq<string>)
    ensures Join(a + [h] + b + c) == Join(a) + (h + ("\n" + (Join(b) + Join(c))))
  {
    JoinConcat(a + [h] + b, c);
    JoinConcat(a + [h], b);
    JoinConcat(a, [h]);
    JoinOne(h);
    hide Join;
  }

  lemma JoinOne(h: string)
    ensures Join([h]) == h + "\n"
  {
    assert [h][1..] == [];
  }

  lemma SectionsOpen(sections: seq<Section>)
    requires forall i :: 0 <= i < |sections| ==> IsName(sections[i].name)
    ensures var rest := Join(SectionLines(sections)); rest == "" || rest[0] == '['
  {
    if sections != [] {
      HeaderIsLine(sections[0].name);
      hide ItemLines, Header;
    }
  }

  lemma PrefixIsPlain(key: string)
    requires IsKey(key)
    ensures var p := KeyPrefix(key); p != "" && '\n' !in p && '\n' !in key
  {
  }

  /** Where the searches land in a file with the section. */
  lemma SectionSearch(content: string, a: seq<string>, h: string, b: seq<string>, rest: string)
    requires AreLines(a) && NoneContains(a, h) && h != "" && '\n' !in h
    requires AreLines(b) && NoneOpens(b) && (rest == "" || rest[0] == '[')
    requires content == Join(a) + (h + ("\n" + (Join(b) + rest)))
    ensures |Join(a)| + |h| <= |content|
    ensures Find(content, h, 0) == Some(|Join(a)|)
    ensures content[|Join(a)| + |h|..] == "\n" + (Join(b) + rest)
    ensures SectionEnd(content, |Join(a)| + |h|) == if rest == "" then |content| else |Join(a)| + |h| + |Join(b)|
  {
    hide *;
    SectionSearchIn(content, a, h, b, rest, Join(a), Join(b), "\n" + (Join(b) + rest));
  }

  lemma SectionSearchIn(content: string, a: seq<string>, h: string, b: seq<string>, rest: string, x: string,
                        y: string, tail: string)
    requires AreLines(a) && NoneContains(a, h) && h != "" && '\n' !in h
    requires AreLines(b) && NoneOpens(b) && (rest == "" || rest[0] == '[')
    requires x == Join(a) && y == Join(b) && tail == "\n" + (y + rest) && content == x + (h + tail)
    ensures |x| + |h| <= |content|
    ensures Find(content, h, 0) == Some(|x|)
    ensures content[|x| + |h|..] == tail
    ensures SectionEnd(content, |x| + |h|) == if rest == "" then |content| else |x| + |h| + |y|
  {
    hide *;
    FindAfterLines(a, h, tail);
    HeaderThen(x, h, tail);
    TailSection(content, |x| + |h|, b, rest, tail);
  }

  lemma TailSection(content: string, from: nat, b: seq<string>, rest: string, tail: string)
    requires AreLines(b) && NoneOpens(b) && (rest == "" || rest[0] == '[')
    requires from <= |content| && content[from..] == tail && tail == "\n" + (Join(b) + rest)
    ensures SectionEnd(content, from) == if rest == "" then |content| else from + |Join(b)|
  {
    hide *;
    SectionEndIs(content, from, b, rest);
  }

  lemma HeaderThen(x: string, h: string, tail: string)
    ensures x + (h + tail) == (x + h) + tail && (x + (h + tail))[|x| + |h|..] == tail
  {
  }

  lemma SetInSection(content: string, a: seq<string>, name: string, b: seq<string>, rest: string, key: string,
                     value: string)
    requires AreLines(a) && NoneContains(a, Header(name)) && IsName(name) && IsKey(key)
    requires AreLines(b) && NoneOpens(b) && (rest == "" || rest[0] == '[') && NoneContains(b, KeyPrefix(key))
    requires content == Join(a) + (Header(name) + ("\n" + (Join(b) + rest)))
    ensures SetText(content, name, key, value)
         == Some(Join(a) + (Header(name) + ("\n" + (Join([KeyPrefix(key) + Format("", value)] + b) + rest))))
  {
    hide *;
    var h, p := Header(name), KeyPrefix(key);
    HeaderIsLine(name);
    PrefixIsPlain(key);
    SectionSearch(content, a, h, b, rest);
    HeaderThen(Join(a), h, "\n" + (Join(b) + rest));
    var from := |Join(a)| + |h|;
    KeyNotFound(content, from, b, p, rest);
    SetInserts(content, name, key, value, |Join(a)|);
    InsertedText(Join(a) + h, Join(b) + rest, key, value);
    JoinConcat([p + Format("", value)], b);
    JoinOne(p + Format("", value));
    var w := p + Format("", value);
    assert Join(a) + h + "\n" + w + "\n" + (Join(b) + rest) == Join(a) + (h + ("\n" + ((w + "\n" + Join(b)) + rest)));
  }

  lemma ReplaceInSection(content: string, a: seq<string>, name: string, b1: seq<string>, was: string, b2: seq<string>,
                         rest: string, key: string, value: string)
    requires AreLines(a) && NoneContains(a, Header(name)) && IsName(name) && IsKey(key)
    requires var b := b1 + [KeyPrefix(key) + was] + b2;
      && AreLines(b) && NoneOpens(b) && (rest == "" || rest[0] == '[') && NoneContains(b1, KeyPrefix(key))
      && content == Join(a) + (Header(name) + ("\n" + (Join(b) + rest)))
    ensures SetText(content, name, key, value)
         == Some(Join(a) + (Header(name) + ("\n" + (Join(b1 + [KeyPrefix(key) + Format(was, value)] + b2) + rest))))
  {
    hide *;
    var h, p := Header(name), KeyPrefix(key);
    var b := b1 + [p + was] + b2;
    LinesAround(b1, p, was, b2);
    HeaderIsLine(name);
    PrefixIsPlain(key);
    SectionSearch(content, a, h, b, rest);
    ThreeParts(b1, p + was, b2);
    ThreeParts(b1, p + Format(was, value), b2);
    var x := Join(a) + h + "\n" + Join(b1);
    Regroup(Join(a), h, Join(b1), p, was, Join(b2), rest);
    KeyFound(content, |Join(a)| + |h|, b1, p, was + ("\n" + (Join(b2) + rest)));
    KeyInside(Join(a), h, Join(b1), p, was, Join(b2), rest);
    SetReplaces(content, name, key, value, |Join(a)|, |x|);
    ReplacedText(x, key, was, Join(b2) + rest, value);
    Reassociate(Join(a), h, Join(b1), p, Format(was, value), Join(b2), rest);
  }

  lemma Regroup(a: string, h: string, b1: string, p: string, was: string, b2: string, rest: string)
    ensures var content := a + (h + ("\n" + ((b1 + ((p + was) + "\n" + b2)) + rest)));
      && content == (a + h + "\n" + b1) + (p + was) + ("\n" + (b2 + rest))
      && content[|a| + |h|..] == "\n" + (b1 + (p + (was + ("\n" + (b2 + rest)))))
  {
    var tail := "\n" + ((b1 + ((p + was) + "\n" + b2)) + rest);
    assert (a + (h + tail))[|a| + |h|..] == tail;
    assert tail == "\n" + (b1 + (p + (was + ("\n" + (b2 + rest)))));
  }

  lemma KeyInside(a: string, h: string, b1: string, p: string, was: string, b2: string, rest: string)
    ensures |a| + |h| + 1 + |b1| == |a + h + "\n" + b1|
    ensures |a| + |h| + 1 + |b1| < |a + (h + ("\n" + ((b1 + ((p + was) + "\n" + b2)) + rest)))|
    ensures |b1| + 1 < |b1 + ((p + was) + "\n" + b2)| + 1
  {
  }

  lemma LinesAround(b1: seq<string>, p: string, was: string, b2: seq<string>)
    requires AreLines(b1 + [p + was] + b2)
    ensures AreLines(b1) && '\n' !in was
  {
    var b := b1 + [p + was] + b2;
    assert b[|b1|] == p + was;
    assert forall i :: 0 <= i < |b1| ==> b1[i] == b[i];
    WasIsPlain(p, was);
  }

  lemma WasIsPlain(p: string, was: string)
    requires '\n' !in p + was
    ensures '\n' !in was
  {
    assert forall i :: 0 <= i < |was| ==> was[i] == (p + was)[|p| + i];
  }

  lemma ThreeParts(b1: seq<string>, line: string, b2: seq<string>)
    ensures Join(b1 + [line] + b2) == Join(b1) + (line + "\n" + Join(b2))
  {
    JoinConcat(b1 + [line], b2);
    JoinConcat(b1, [line]);
    JoinOne(line);
    hide Join;
  }

  lemma Reassociate(a: string, h: string, b1: string, p: string, w: string, b2: string, rest: string)
    ensures (a + h + "\n" + b1) + p + w + ("\n" + (b2 + rest))
         == a + (h + ("\n" + ((b1 + ((p + w) + "\n" + b2)) + rest)))
  {
  }

  lemma AppendAfter(lines: seq<string>, name: string, key: string, value: string)
    requires lines != [] && AreLines(lines) && NoneContains(lines, Header(name)) && IsName(name) && IsKey(key)
    ensures SetText(Join(lines), name, key, value)
         == Some(Join(lines + ["", Header(name), KeyPrefix(key) + Format("", value)]))
  {
    hide *;
    var h, p, v := Header(name), KeyPrefix(key), Format("", value);
    HeaderIsLine(name);
    JoinEnds(lines);
    JoinUnfold(lines);
    HeaderAbsent(lines, h);
    SetAppends(Join(lines), name, key, value);
    JoinConcat(lines, ["", h, p + v]);
    JoinThree(h, p + v);
    assert "\n" + h + "\n" + p + v + "\n" == "\n" + (h + "\n" + (p + v + "\n"));
  }

  lemma SetAppends(content: string, name: string, key: string, value: string)
    requires content != "" && content[|content| - 1] == '\n' && Find(content, Header(name), 0).None?
    ensures SetText(content, name, key, value)
         == Some(content + ("\n" + Header(name) + "\n" + KeyPrefix(key) + Format("", value) + "\n"))
  {
    hide Find, Header, KeyPrefix, Format, InsertLine, ReplaceLine;
  }

  lemma JoinThree(h: string, w: string)
    ensures Join(["", h, w]) == "\n" + (h + "\n" + (w + "\n"))
  {
    JoinUnfold(["", h, w]);
    JoinUnfold([h, w]);
    JoinOne(w);
    hide Join;
    assert ["", h, w][1..] == [h, w] && [h, w][1..] == [w];
    assert "" + "\n" + (h + "\n" + (w + "\n")) == "\n" + (h + "\n" + (w + "\n"));
  }

  lemma HeaderAbsent(lines: seq<string>, h: string)
    requires AreLines(lines) && NoneContains(lines, h) && h != "" && '\n' !in h
    ensures Find(Join(lines), h, 0).None?
  {
    hide *;
    var t := Join(lines);
    assert t + "" == t;
    forall j: nat
      ensures !OccursAt(t, h, j)
    {
      if j < |t| {
        NotInLines(lines, h, "", j);
      } else {
        PastEnd(t, h, j);
      }
    }
    FindIsNone(t, h, 0);
  }

  lemma PastEnd(t: string, h: string, j: nat)
    requires h != "" && j >= |t|
    ensures !OccursAt(t, h, j)
  {
  }

  // ---------- The refinement ----------

  lemma CanonicalSection(doc: Document, i: nat)
    requires IsCanonical(doc) && i < |doc.sections|
    ensures var a := ItemLines(doc.preamble) + SectionLines(doc.sections[..i]);
      && AreLines(a)
      && IsName(doc.sections[i].name)
      && (forall j :: 0 <= j < |doc.sections[i].items| ==> IsItem(doc.sections[i].items[j]))
      && AreLines(ItemLines(doc.sections[i].items)) && NoneOpens(ItemLines(doc.sections[i].items))
      && var rest := Join(SectionLines(doc.sections[i + 1..])); rest == "" || rest[0] == '['
  {
    hide IsItem, IsName;
    ItemLinesAreLines(doc.preamble);
    SectionLinesAreLines(doc.sections[..i]);
    ItemLinesAreLines(doc.sections[i].items);
    SectionsOpen(doc.sections[i + 1..]);
    hide ItemLines, SectionLines, Join, NoneOpens;
  }

  lemma LinesOfUpdate(doc: Document, i: nat, items: seq<Item>)
    requires i < |doc.sections|
    ensures Join(Lines(doc.(sections := doc.sections[i := doc.sections[i].(items := items)])))
         == Join(ItemLines(doc.preamble) + SectionLines(doc.sections[..i]))
            + (Header(doc.sections[i].name)
                + ("\n" + (Join(ItemLines(items)) + Join(SectionLines(doc.sections[i + 1..])))))
  {
    hide ItemLines, SectionLines, Header, Join, Lines;
    var doc' := doc.(sections := doc.sections[i := doc.sections[i].(items := items)]);
    LinesAt(doc', i);
    assert doc'.sections[..i] == doc.sections[..i] && doc'.sections[i + 1..] == doc.sections[i + 1..];
    JoinedBefore(ItemLines(doc.preamble) + SectionLines(doc.sections[..i]), Header(doc.sections[i].name),
                 ItemLines(items), SectionLines(doc.sections[i + 1..]));
  }

  lemma SetInPresentSection(doc: Document, name: string, key: string, value: string)
    requires IsCanonical(doc) && IsName(name) && IsKey(key) && IsFindable(doc, name, key)
    requires SectionIndex(doc.sections, name) < |doc.sections|
    ensures SetText(Join(Lines(doc)), name, key, value)
         == Some(Join(Lines(SetDocument(doc, name, key, Format(Existing(doc, name, key), value)))))
  {
    var i := SectionIndex(doc.sections, name);
    var items := doc.sections[i].items;
    var j := KeyIndex(items, key);
    var a, rest := ItemLines(doc.preamble) + SectionLines(doc.sections[..i]), Join(SectionLines(doc.sections[i + 1..]));
    hide ItemLines, SectionLines, Header, Join, Lines, KeyIndex, SectionIndex, IsItem, IsName, IsKey, KeyPrefix, Format,
         NoneContains, AreLines, NoneOpens, SetText, IsCanonical;
    CanonicalSection(doc, i);
    LinesOfUpdate(doc, i, items);
    assert doc.(sections := doc.sections[i := doc.sections[i].(items := items)]) == doc;
    if j < |items| {
      SetPresentKey(doc, i, j, a, rest, name, key, value);
    } else {
      assert items[..j] == items;
      SetInSection(Join(Lines(doc)), a, name, ItemLines(items), rest, key, value);
      FirstItemLine(key, Format("", value), items);
      LinesOfUpdate(doc, i, [Setting(key, Format("", value))] + items);
    }
  }

  lemma FirstItemLine(key: string, written: string, items: seq<Item>)
    ensures ItemLines([Setting(key, written)] + items) == [KeyPrefix(key) + written] + ItemLines(items)
  {
    hide KeyPrefix;
    assert ([Setting(key, written)] + items)[1..] == items;
  }

  lemma SetPresentKey(doc: Document, i: nat, j: nat, a: seq<string>, rest: string, name: string, key: string,
                      value: string)
    requires i < |doc.sections| && j < |doc.sections[i].items|
    requires IsName(name) && IsKey(key) && doc.sections[i].name == name
    requires doc.sections[i].items[j].Setting? && doc.sections[i].items[j].key == key
    requires a == ItemLines(doc.preamble) + SectionLines(doc.sections[..i])
        && rest == Join(SectionLines(doc.sections[i + 1..]))
    requires AreLines(a) && NoneContains(a, Header(name)) && (rest == "" || rest[0] == '[')
    requires AreLines(ItemLines(doc.sections[i].items)) && NoneOpens(ItemLines(doc.sections[i].items))
    requires NoneContains(ItemLines(doc.sections[i].items[..j]), KeyPrefix(key))
    ensures var items := doc.sections[i].items;
      SetText(Join(Lines(doc)), name, key, value)
      == Some(Join(Lines(doc.(sections := doc.sections[i :=
            Section(name, items[j := Setting(key, Format(items[j].value, value))])]))))
  {
    hide *;
    var items := doc.sections[i].items;
    var was := items[j].value;
    var items' := items[j := Setting(key, Format(was, value))];
    LinesOfUpdate(doc, i, items);
    assert doc.(sections := doc.sections[i := doc.sections[i].(items := items)]) == doc;
    ItemsAt(items, j);
    ItemsAt(items', j);
    SettingLine(key, was);
    SettingLine(key, Format(was, value));
    assert items'[..j] == items[..j] && items'[j + 1..] == items[j + 1..] && items[j] == Setting(key, was);
    ReplaceInSection(Join(Lines(doc)), a, name, ItemLines(items[..j]), was, ItemLines(items[j + 1..]), rest, key,
        value);
    LinesOfUpdate(doc, i, items');
    assert doc.sections[i].(items := items') == Section(name, items');
  }

  lemma SettingLine(key: string, value: string)
    ensures ItemLine(Setting(key, value)) == KeyPrefix(key) + value
  {
  }

  lemma AddBlankLines(doc: Document)
    ensures Lines(AddBlank(doc)) == Lines(doc) + [""]
  {
    hide ItemLine, Header;
    assert ItemLines([Note("")]) == [""] by { BlankItemLine(); }
    if doc.sections == [] {
      ItemLinesConcat(doc.preamble, [Note("")]);
    } else {
      var last := |doc.sections| - 1;
      var d := AddBlank(doc);
      hide AddBlank;
      LinesAt(doc, last);
      assert d.preamble == doc.preamble && d.sections[..last] == doc.sections[..last] && |d.sections| == last + 1
        && d.sections[last] == Section(doc.sections[last].name, doc.sections[last].items + [Note("")])
        by { AddBlankParts(doc); }
      LinesAt(d, last);
      ItemLinesConcat(doc.sections[last].items, [Note("")]);
      assert SectionLines(doc.sections[last + 1..]) == [] == SectionLines(d.sections[last + 1..]);
    }
  }

  lemma AddBlankParts(doc: Document)
    requires doc.sections != []
    ensures var d, last := AddBlank(doc), |doc.sections| - 1;
      && d.preamble == doc.preamble && d.sections[..last] == doc.sections[..last] && |d.sections| == last + 1
      && d.sections[last] == Section(doc.sections[last].name, doc.sections[last].items + [Note("")])
  {
  }

  lemma BlankItemLine()
    ensures ItemLines([Note("")]) == [""]
  {
    assert [Note("")][1..] == [];
  }

  lemma NewSectionLines(doc: Document, name: string, key: string, written: string)
    ensures Lines(doc.(sections := doc.sections + [Section(name, [Setting(key, written)])]))
         == Lines(doc) + [Header(name), KeyPrefix(key) + written]
  {
    hide Header, KeyPrefix;
    var one := [Section(name, [Setting(key, written)])];
    SectionLinesConcat(doc.sections, one);
    FirstItemLine(key, written, []);
    assert [Setting(key, written)] + [] == [Setting(key, written)];
    assert one[1..] == [];
    assert SectionLines(one) == [Header(name), KeyPrefix(key) + written];
    hide ItemLines, SectionLines;
  }

  lemma SetInNewSection(doc: Document, name: string, key: string, value: string)
    requires IsCanonical(doc) && IsName(name) && IsKey(key) && IsFindable(doc, name, key) && Lines(doc) != []
    requires SectionIndex(doc.sections, name) == |doc.sections|
    ensures SetText(Join(Lines(doc)), name, key, value)
         == Some(Join(Lines(SetDocument(doc, name, key, Format(Existing(doc, name, key), value)))))
  {
    CanonicalLines(doc);
    assert doc.sections[..|doc.sections|] == doc.sections;
    assert NoneContains(Lines(doc), Header(name));
    hide ItemLines, SectionLines, Header, Join, Lines, IsName, IsKey, KeyPrefix, Format, NoneContains, AreLines,
         SetText, IsCanonical, AddBlank, IsFindable;
    AppendAfter(Lines(doc), name, key, value);
    AddBlankLines(doc);
    NewSectionLines(AddBlank(doc), name, key, Format("", value));
    assert Lines(doc) + [""] + [Header(name), KeyPrefix(key) + Format("", value)]
        == Lines(doc) + ["", Header(name), KeyPrefix(key) + Format("", value)];
  }

  /** On a non-empty canonical file, the text edit is the document update. */
  lemma SetRefines(doc: Document, name: string, key: string, value: string)
    requires IsCanonical(doc) && IsName(name) && IsKey(key) && IsFindable(doc, name, key) && Lines(doc) != []
    ensures SetText(Join(Lines(doc)), name, key, value)
         == Some(Join(Lines(SetDocument(doc, name, key, Format(Existing(doc, name, key), value)))))
  {
    hide *;
    if SectionIndex(doc.sections, name) < |doc.sections| {
      SetInPresentSection(doc, name, key, value);
    } else {
      SetInNewSection(doc, name, key, value);
    }
  }
}
