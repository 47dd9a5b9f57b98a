/** What `remove_autoload` does when its searches stop before the entry, and when that is right all the same. */
module ConfigMisled {
  import opened Wrappers
  import opened ByteText
  import opened ConfigValues
  import opened ConfigText
  import opened ConfigReader
  import opened ConfigDocument
  import opened ConfigSearch
  import opened ConfigRefinement
  import opened ConfigMeaning
  import opened ConfigFindable
  import opened ConfigAutoload
  import opened ConfigUndo
  import opened ConfigRemoval

  // ---------- The first line that holds the key's text ----------

  /** The first line that contains `p`, or the number of lines. */
  function HitIndex(lines: seq<string>, p: string): (m: nat)
    ensures m <= |lines| && NoneContains(lines[..m], p)
    ensures m < |lines| ==> Contains(lines[m], p)
  {
    if lines == [] || Contains(lines[0], p) then 0
    else
      var m := HitIndex(lines[1..], p);
      assert lines[..m + 1] == [lines[0]] + lines[1..][..m];
      m + 1
  }

  /** What comes before it in its line. */
  function HitPrefix(line: string, p: string): (x: string)
    requires Contains(line, p)
    ensures x <= line && x + p <= line
  {
    var at := Find(line, p, 0).value;
    assert line[..at] + line[at..at + |p|] == line[..at + |p|];
    line[..at]
  }

  /** Searching lines one of which holds the pattern. */
  lemma FindInLine(before: seq<string>, line: string, rest: string, p: string)
    requires AreLines(before) && NoneContains(before, p) && Contains(line, p) && p != "" && '\n' !in p
    ensures Find(Join(before) + (line + rest), p, 0) == Some(|Join(before)| + |HitPrefix(line, p)|)
  {
    hide *;
    var n, u := |Join(before)|, Join(before) + (line + rest);
    var off := HitOffset(line, p);
    forall j: nat | j < n + off
      ensures !OccursAt(u, p, j)
    {
      if j < n {
        NotInLines(before, p, line + rest, j);
      } else {
        BeforeHit(line, rest, p, off, j - n);
        SuffixOf(Join(before), line + rest);
        OccursInSuffix(u, p, n, j);
      }
    }
    OccursDeeper(Join(before), line, rest, p, off);
    FindIs(u, p, 0, n + off);
  }

  lemma SuffixOf(a: string, b: string)
    ensures (a + b)[|a|..] == b
  {
  }

  lemma HitOffset(line: string, p: string) returns (off: nat)
    requires Contains(line, p)
    ensures off == |HitPrefix(line, p)| && OccursAt(line, p, off) && off + |p| <= |line|
    ensures forall j: nat :: j < off ==> !OccursAt(line, p, j)
  {
    hide Find;
    off := Find(line, p, 0).value;
  }

  lemma BeforeHit(line: string, rest: string, p: string, off: nat, j: nat)
    requires off + |p| <= |line| && j < off && !OccursAt(line, p, j)
    ensures !OccursAt(line + rest, p, j)
  {
    assert (line + rest)[j..j + |p|] == line[j..j + |p|];
  }

  /** The search for the key, from the header of the section. */
  lemma HitFound(content: string, from: nat, before: seq<string>, line: string, p: string, rest: string, u: string)
    requires AreLines(before) && NoneContains(before, p) && Contains(line, p) && p != "" && '\n' !in p
    requires u == Join(before) + (line + rest) && from <= |content| && content[from..] == "\n" + u
    ensures Find(content, p, from) == Some(from + 1 + |Join(before)| + |HitPrefix(line, p)|)
  {
    hide *;
    FindInLine(before, line, rest, p);
    FirstIsPlain(p);
    FindInSuffix(content, p, from, from);
    FindAfterNewline(content[from..], u, p, |Join(before)| + |HitPrefix(line, p)|);
  }

  lemma FirstIsPlain(p: string)
    requires p != "" && '\n' !in p
    ensures p[0] != '\n'
  {
    assert p[0] in p;
  }

  /** The tail of the line goes, and its newline: what is left of it runs on. */
  lemma TailErased(before: string, x: string, tail: string, after: string)
    requires x != "" && '\n' !in x && '\n' !in tail
    ensures EraseLine(before + (x + tail) + "\n" + after, |before| + |x|) == before + x + after
  {
    hide LineEnd;
    var content, k := before + (x + tail) + "\n" + after, |before| + |x|;
    TailParts(before, x, tail, after);
    assert x[|x| - 1] in x;
    LineEndIs(content, k, k + |tail|);
  }

  lemma TailParts(before: string, x: string, tail: string, after: string)
    requires x != ""
    ensures var content, k := before + (x + tail) + "\n" + after, |before| + |x|;
      && k + |tail| < |content| && content[k - 1] == x[|x| - 1] && content[k + |tail|] == '\n'
      && content[k..k + |tail|] == tail && content[..k] == before + x && content[k + |tail| + 1..] == after
  {
  }

  // ---------- What the misled removal leaves ----------

  /** A canonical file whose header is found, with an entry `name` that has the text `name=` in a line before it. */
  ghost predicate IsMisled(doc: Document, name: string, i: nat, j: nat) {
    && IsCanonical(doc) && IsKey(name)
    && i == SectionIndex(doc.sections, AUTOLOAD) < |doc.sections|
    && NoneContains(ItemLines(doc.preamble) + SectionLines(doc.sections[..i]), Header(AUTOLOAD))
    && j == KeyIndex(doc.sections[i].items, name) < |doc.sections[i].items|
    && !NoneContains(ItemLines(doc.sections[i].items[..j]), KeyPrefix(name))
  }

  /** The line that the search stops in. */
  function HitLine(items: seq<Item>, name: string): (m: nat)
    ensures m <= |ItemLines(items)|
  {
    HitIndex(ItemLines(items), KeyPrefix(name))
  }

  /** What is left of it. */
  function HitRest(item: Item, name: string): (x: string)
    requires Contains(ItemLine(item), KeyPrefix(name))
  {
    HitPrefix(ItemLine(item), KeyPrefix(name))
  }

  lemma {:induction false} LinesOfFirst(items: seq<Item>, m: nat)
    requires m <= |items|
    ensures |ItemLines(items)| == |items| && ItemLines(items)[..m] == ItemLines(items[..m])
    ensures m < |items| ==> ItemLines(items)[m] == ItemLine(items[m])
  {
    hide *;
    assert items == items[..m] + items[m..];
    ItemLinesConcat(items[..m], items[m..]);
    ItemLineAt(items, m);
    ItemLineAt(items[..m], 0);
    FrontLines(ItemLines(items[..m]), ItemLines(items[m..]), m);
    assert ItemLines(items[..m])[..m] == ItemLines(items[..m]);
  }

  lemma MisledFacts(doc: Document, name: string, i: nat, j: nat)
    requires IsMisled(doc, name, i, j)
    ensures IsCanonical(doc) && IsKey(name) && i < |doc.sections| && doc.sections[i].name == AUTOLOAD
    ensures NoneContains(ItemLines(doc.preamble) + SectionLines(doc.sections[..i]), Header(AUTOLOAD))
    ensures var items := doc.sections[i].items;
      && j < |items| && items[j] == Setting(name, items[j].value) && j == KeyIndex(items, name)
      && !NoneContains(ItemLines(items[..j]), KeyPrefix(name))
  {
    hide IsCanonical, IsKey, ItemLines, SectionLines, Header, KeyPrefix, NoneContains;
  }

  /** It comes before the entry, and some text comes before the key's in it. */
  lemma HitFacts(doc: Document, name: string, i: nat, j: nat)
    requires IsMisled(doc, name, i, j)
    ensures i < |doc.sections| && j < |doc.sections[i].items|
    ensures var items := doc.sections[i].items;
      var m := HitLine(items[..j], name);
      && m < j && Contains(ItemLine(items[m]), KeyPrefix(name))
      && NoneContains(ItemLines(items[..m]), KeyPrefix(name))
      && KeyAfter(ItemLine(items[m]), name, HitRest(items[m], name))
      && !AllSpace(HitRest(items[m], name))
  {
    hide *;
    MisledFacts(doc, name, i, j);
    var items, p := doc.sections[i].items, KeyPrefix(name);
    var first := items[..j];
    LinesOfFirst(first, 0);
    HitLineIs(first, name);
    var m := HitIndex(ItemLines(first), p);
    SomeHit(ItemLines(first), p);
    LinesOfFirst(first, m);
    assert first[..m] == items[..m] && first[m] == items[m];
    HitRestIs(items[m], name);
    OwnLineOnly(doc, i, j, m, name, HitRest(items[m], name));
  }

  lemma HitLineIs(items: seq<Item>, name: string)
    ensures HitLine(items, name) == HitIndex(ItemLines(items), KeyPrefix(name))
  {
  }

  lemma SomeHit(lines: seq<string>, p: string)
    requires !NoneContains(lines, p)
    ensures HitIndex(lines, p) < |lines|
  {
    hide HitIndex, Contains;
    assert lines[..|lines|] == lines;
  }

  lemma HitRestIs(item: Item, name: string)
    requires Contains(ItemLine(item), KeyPrefix(name))
    ensures KeyAfter(ItemLine(item), name, HitRest(item, name))
    ensures HitRest(item, name) == HitPrefix(ItemLine(item), KeyPrefix(name))
  {
    hide HitPrefix, Contains, ItemLine, KeyPrefix;
    var line, x, p := ItemLine(item), HitRest(item, name), KeyPrefix(name);
    assert line[|x|..][..|p|] == line[|x|..|x| + |p|] == (x + p)[|x|..];
  }

  /** The text around a line of the section. */
  lemma AroundLine(doc: Document, i: nat, m: nat)
    requires i < |doc.sections| && m < |doc.sections[i].items| && doc.sections[i].name == AUTOLOAD
    ensures var items := doc.sections[i].items;
      var a, later := ItemLines(doc.preamble) + SectionLines(doc.sections[..i]), Join(LinesFrom(doc, i, m + 1));
      && Join(LinesBefore(doc, i, m)) == Join(a) + (Header(AUTOLOAD) + ("\n" + Join(ItemLines(items[..m]))))
      && Join(Lines(doc)) == Join(LinesBefore(doc, i, m)) + (ItemLine(items[m]) + ("\n" + later))
  {
    hide *;
    var items, h := doc.sections[i].items, Header(AUTOLOAD);
    var a, b := ItemLines(doc.preamble) + SectionLines(doc.sections[..i]), ItemLines(items[..m]);
    LinesSplit(doc, i, m);
    JoinConcat(LinesBefore(doc, i, m), LinesFrom(doc, i, m));
    FromHere(doc, i, m);
    JoinUnfold(LinesFrom(doc, i, m));
    LinesBeforeAre(doc, i, m);
    JoinedBefore(a, h, b, []);
    JoinNothing();
    assert a + [h] + b + [] == a + [h] + b && Join(b) + "" == Join(b);
    var line, later := ItemLine(items[m]), Join(LinesFrom(doc, i, m + 1));
    assert line + "\n" + later == line + ("\n" + later);
  }

  lemma LinesBeforeAre(doc: Document, i: nat, m: nat)
    requires i < |doc.sections| && m <= |doc.sections[i].items| && doc.sections[i].name == AUTOLOAD
    ensures LinesBefore(doc, i, m)
         == ItemLines(doc.preamble) + SectionLines(doc.sections[..i]) + [Header(AUTOLOAD)]
            + ItemLines(doc.sections[i].items[..m])
  {
    hide ItemLines, SectionLines, Header;
  }

  lemma FromHere(doc: Document, i: nat, m: nat)
    requires i < |doc.sections| && m < |doc.sections[i].items|
    ensures LinesFrom(doc, i, m) != []
    ensures LinesFrom(doc, i, m)[0] == ItemLine(doc.sections[i].items[m])
    ensures LinesFrom(doc, i, m)[1..] == LinesFrom(doc, i, m + 1)
  {
    var items := doc.sections[i].items;
    FirstLineOf(items[m..]);
    assert items[m..][1..] == items[m + 1..] && items[m..][0] == items[m];
    hide ItemLines, SectionLines, ItemLine;
    var later := SectionLines(doc.sections[i + 1..]);
    assert LinesFrom(doc, i, m) == [ItemLine(items[m])] + (ItemLines(items[m + 1..]) + later);
  }

  /** Where the search for the header stops, and what comes after it. */
  lemma HeaderAt(t: string, a: seq<string>, h: string, tail: string)
    requires AreLines(a) && NoneContains(a, h) && h != "" && '\n' !in h && t == Join(a) + (h + tail)
    ensures |Join(a)| + |h| <= |t| && Find(t, h, 0) == Some(|Join(a)|)
    ensures t[|Join(a)| + |h|..] == tail
  {
    hide *;
    FindAfterLines(a, h, tail);
    HeaderThen(Join(a), h, tail);
  }

  lemma RegroupHit(a: string, h: string, b: string, rest: string)
    ensures a + (h + ("\n" + b)) + rest == a + (h + ("\n" + (b + rest)))
  {
  }

  /** The section does not end before the line does. */
  lemma SectionHolds(doc: Document, i: nat, m: nat)
    requires IsCanonical(doc) && i < |doc.sections| && m < |doc.sections[i].items| && doc.sections[i].name == AUTOLOAD
    ensures var a := ItemLines(doc.preamble) + SectionLines(doc.sections[..i]);
      var b := ItemLines(doc.sections[i].items[..m]);
      var from := |Join(a)| + |Header(AUTOLOAD)|;
      from + |Join(b)| + |ItemLine(doc.sections[i].items[m])| + 1 <= SectionEnd(Join(Lines(doc)), from)
  {
    hide *;
    var items, h := doc.sections[i].items, Header(AUTOLOAD);
    var a := ItemLines(doc.preamble) + SectionLines(doc.sections[..i]);
    var b1, b2, rest := ItemLines(items[..m + 1]), ItemLines(items[m + 1..]), Join(SectionLines(doc.sections[i + 1..]));
    CanonicalSection(doc, i);
    SectionParts(doc, i, m + 1);
    HeaderThen(Join(a), h, "\n" + (Join(b1 + b2) + rest));
    SectionEndInside(Join(Lines(doc)), |Join(a)| + |h|, b1, b2, rest);
    assert items[..m + 1] == items[..m] + [items[m]];
    ItemLinesConcat(items[..m], [items[m]]);
    OneItemLines(items[m]);
    JoinConcat(ItemLines(items[..m]), [ItemLine(items[m])]);
    JoinOne(ItemLine(items[m]));
  }

  lemma LineSplits(line: string, x: string, p: string, before: string, later: string)
    requires x <= line && p <= line[|x|..] && p != "" && '\n' !in line
    ensures |x| < |line| && '\n' !in x && '\n' !in line[|x|..]
    ensures before + (line + ("\n" + later)) == before + (x + line[|x|..]) + "\n" + later
  {
    assert line == x + line[|x|..];
  }

  lemma SomeText(x: string)
    requires !AllSpace(x)
    ensures x != ""
  {
  }

  lemma KeyAfterMeans(line: string, key: string, x: string)
    requires KeyAfter(line, key, x)
    ensures x <= line && KeyPrefix(key) <= line[|x|..]
  {
    hide KeyPrefix;
  }

  /** The first line of the section that holds the key's text loses its tail and its newline. */
  lemma RemovedMisled(doc: Document, name: string, i: nat, j: nat)
    requires IsMisled(doc, name, i, j)
    ensures i < |doc.sections| && j < |doc.sections[i].items|
    ensures var items := doc.sections[i].items;
      var m := HitLine(items[..j], name);
      && m < j && Contains(ItemLine(items[m]), KeyPrefix(name))
      && RemoveText(Join(Lines(doc)), name)
         == Some(Join(LinesBefore(doc, i, m)) + HitRest(items[m], name) + Join(LinesFrom(doc, i, m + 1)))
  {
    hide *;
    MisledFacts(doc, name, i, j);
    HitFacts(doc, name, i, j);
    var items := doc.sections[i].items;
    var m := HitLine(items[..j], name);
    var x, line, p := HitRest(items[m], name), ItemLine(items[m]), KeyPrefix(name);
    HitRestIs(items[m], name);
    KeyAfterMeans(line, name, x);
    SomeText(x);
    PrefixIsPlain(name);
    SectionLinesPlain(doc, i, m);
    AroundLine(doc, i, m);
    SectionHolds(doc, i, m);
    AutoloadIsName();
    HeaderIsLine(AUTOLOAD);
    var a, t := ItemLines(doc.preamble) + SectionLines(doc.sections[..i]), Join(Lines(doc));
    var b, later, before := ItemLines(items[..m]), Join(LinesFrom(doc, i, m + 1)), Join(LinesBefore(doc, i, m));
    RegroupHit(Join(a), Header(AUTOLOAD), Join(b), line + ("\n" + later));
    var u := Join(b) + (line + ("\n" + later));
    HeaderAt(t, a, Header(AUTOLOAD), "\n" + u);
    HitFound(t, |Join(a)| + |Header(AUTOLOAD)|, b, line, p, "\n" + later, u);
    LineSplits(line, x, p, before, later);
    assert |before| == |Join(a)| + |Header(AUTOLOAD)| + 1 + |Join(b)|;
    RemoveErases(t, name, |Join(a)|, |before| + |x|);
    TailErased(before, x, line[|x|..], later);
  }

  lemma SectionLinesPlain(doc: Document, i: nat, m: nat)
    requires IsCanonical(doc) && i < |doc.sections| && m < |doc.sections[i].items|
    ensures AreLines(ItemLines(doc.preamble) + SectionLines(doc.sections[..i]))
    ensures AreLines(ItemLines(doc.sections[i].items[..m])) && '\n' !in ItemLine(doc.sections[i].items[m])
  {
    hide *;
    CanonicalSection(doc, i);
    CanonicalItems(doc, i);
    ItemLinesAreLines(doc.sections[i].items[..m]);
    OneItemLine(doc.sections[i].items[m]);
  }

  // ---------- What is read then ----------

  /** The line that the rest of the hit line and the next line make, as the reader takes it. */
  function JoinedItem(items: seq<Item>, name: string, m: nat): Item
    requires m + 1 < |items| && Contains(ItemLine(items[m]), KeyPrefix(name))
  {
    FusedItem(Note(HitRest(items[m], name)), ItemLine(items[m + 1]))
  }

  lemma TextReadsAs(num: Numerals, x: string, n: string)
    requires var t := Trim(x + n); t == "" || t[0] != '['
    ensures ReadsAs(num, x + n, FusedItem(Note(x), n))
  {
    hide Trim, Find, ParseValue, TrimBlanks;
  }

  lemma ItemBegins(num: Numerals, item: Item)
    requires IsItem(item)
    ensures var t := Trim(ItemLine(item)); t == "" || t[0] != '['
  {
    hide Trim, Find, ParseValue, KeyPrefix, IsNote, IsKey, TrimBlanks;
    match item {
      case Note(text) => NoteFuses(text);
      case Setting(key, value) => SettingFuses(num, key, value);
    }
  }

  /** What is left of a line begins as the line did. */
  lemma RestBegins(line: string, x: string)
    requires x <= line && !AllSpace(x)
    ensures Trim(x) != "" && Trim(line) != "" && Trim(line)[0] == Trim(x)[0]
  {
    hide Trim, AllSpace;
    TrimIsEmpty(x);
    FusedBegins(x, line[|x|..]);
    assert x + line[|x|..] == line;
  }

  lemma RestOpensNothing(num: Numerals, item: Item, x: string, n: string)
    requires IsItem(item) && x <= ItemLine(item) && !AllSpace(x)
    ensures var t := Trim(x + n); t != "" && t[0] != '['
  {
    hide Trim, AllSpace, ItemLine, IsItem;
    ItemBegins(num, item);
    RestBegins(ItemLine(item), x);
    FusedBegins(x, n);
  }

  lemma JoinedListReadsAs(num: Numerals, b: seq<Item>, x: string, n: string, c: seq<Item>)
    requires (forall k :: 0 <= k < |b| ==> IsItem(b[k])) && forall k :: 0 <= k < |c| ==> IsItem(c[k])
    requires var t := Trim(x + n); t != "" && t[0] != '['
    ensures AllReadAs(num, ItemLines(b) + [x + n] + ItemLines(c), b + [FusedItem(Note(x), n)] + c)
  {
    hide ReadsAs, ItemLines, FusedItem, IsItem, Trim;
    ItemsReadAs(num, b);
    ItemsReadAs(num, c);
    TextReadsAs(num, x, n);
    ReadAsConcat(num, ItemLines(b), [x + n], b, [FusedItem(Note(x), n)]);
    ReadAsConcat(num, ItemLines(b) + [x + n], ItemLines(c), b + [FusedItem(Note(x), n)], c);
  }

  lemma JoinedAround(doc: Document, i: nat, m: nat, x: string)
    requires i < |doc.sections| && m + 1 < |doc.sections[i].items| && doc.sections[i].name == AUTOLOAD
    ensures var items := doc.sections[i].items;
      var b, n, c := items[..m], ItemLine(items[m + 1]), items[m + 2..];
      LinesBefore(doc, i, m) + FusedLines(x, LinesFrom(doc, i, m + 1))
      == AroundLines(doc, i, i + 1, ItemLines(b) + [x + n] + ItemLines(c))
  {
    hide *;
    var items := doc.sections[i].items;
    var b, n, c := items[..m], ItemLine(items[m + 1]), items[m + 2..];
    var later := SectionLines(doc.sections[i + 1..]);
    LinesBeforeIs(doc, i, m);
    FirstLineOf(items[m + 1..]);
    assert items[m + 1..][1..] == c && items[m + 1..][0] == items[m + 1];
    FromIs(doc, i, m + 1);
    TwoParts(n, ItemLines(c), later);
    FusedFirst(x, n, ItemLines(c) + later);
    Regrouped6(BaseLines(doc, i), [Header(AUTOLOAD)], ItemLines(b), [x + n], ItemLines(c), later);
    AroundLinesAre(doc, i, i + 1, ItemLines(b) + [x + n] + ItemLines(c));
  }

  lemma LinesBeforeIs(doc: Document, i: nat, m: nat)
    requires i < |doc.sections| && m <= |doc.sections[i].items| && doc.sections[i].name == AUTOLOAD
    ensures LinesBefore(doc, i, m)
         == BaseLines(doc, i) + ([Header(AUTOLOAD)] + ItemLines(doc.sections[i].items[..m]))
  {
    hide ItemLines, SectionLines, Header;
  }

  lemma AddLine(lines: seq<string>, x: string)
    requires AreLines(lines) && '\n' !in x
    ensures AreLines(lines + [x])
    ensures (lines + [x])[..|lines + [x]| - 1] == lines && (lines + [x])[|lines + [x]| - 1] == x
  {
  }

  lemma HalfIsPlain(line: string, x: string)
    requires x <= line && '\n' !in line
    ensures '\n' !in x
  {
  }

  /** The rest of the hit line and the line after it are read as one; all else is read as before. */
  lemma AfterMisled(num: Numerals, doc: Document, name: string, i: nat, j: nat)
    requires IsMisled(doc, name, i, j)
    ensures i < |doc.sections| && j < |doc.sections[i].items| && RemoveText(Join(Lines(doc)), name).Some?
    ensures var r, items := Read(num, RemoveText(Join(Lines(doc)), name).value), doc.sections[i].items;
      var m := HitLine(items[..j], name);
      && m < j && Contains(ItemLine(items[m]), KeyPrefix(name))
      && r.Some?
      && r.value.root == AroundRoot(num, doc, i, i + 1, items[..m] + [JoinedItem(items, name, m)] + items[m + 2..])
  {
    hide *;
    MisledFacts(doc, name, i, j);
    HitFacts(doc, name, i, j);
    RemovedMisled(doc, name, i, j);
    var items := doc.sections[i].items;
    var m := HitLine(items[..j], name);
    var x, n := HitRest(items[m], name), ItemLine(items[m + 1]);
    var b, c := items[..m], items[m + 2..];
    KeyAfterMeans(ItemLine(items[m]), name, x);
    SectionLinesPlain(doc, i, m);
    HalfIsPlain(ItemLine(items[m]), x);
    CanonicalLines(doc);
    LinesSplit(doc, i, m);
    LinesSplit(doc, i, m + 1);
    PartsAreLines(LinesBefore(doc, i, m), LinesFrom(doc, i, m));
    PartsAreLines(LinesBefore(doc, i, m + 1), LinesFrom(doc, i, m + 1));
    AddLine(LinesBefore(doc, i, m), x);
    ReadFusedText(num, LinesBefore(doc, i, m), x, LinesFrom(doc, i, m + 1));
    JoinedAround(doc, i, m, x);
    CanonicalItems(doc, i);
    RestOpensNothing(num, items[m], x, n);
    JoinedListReadsAs(num, b, x, n, c);
    ReadAround(num, doc, i, i + 1, ItemLines(b) + [x + n] + ItemLines(c), b + [FusedItem(Note(x), n)] + c);
    JoinedItemIs(items, name, m);
  }

  lemma JoinedItemIs(items: seq<Item>, name: string, m: nat)
    requires m + 1 < |items| && Contains(ItemLine(items[m]), KeyPrefix(name))
    ensures JoinedItem(items, name, m) == FusedItem(Note(HitRest(items[m], name)), ItemLine(items[m + 1]))
  {
    hide FusedItem, HitRest, ItemLine, Contains, KeyPrefix;
  }

  // ---------- When that is right all the same ----------

  /** The line hit comes right before the entry, and what the two make is a note, or sets what the line set. */
  ghost predicate EntryJoins(num: Numerals, items: seq<Item>, name: string, j: nat)
    requires j < |items|
  {
    var m := HitLine(items[..j], name);
    && m + 1 == j && Contains(ItemLine(items[m]), KeyPrefix(name))
    && var f := JoinedItem(items, name, m);
       items[m].Note? || (f.Setting? && ParseValue(num, f.value) == ParseValue(num, items[m].value))
  }

  lemma EntryJoinsIs(num: Numerals, items: seq<Item>, name: string, j: nat, m: nat)
    requires j < |items| && m == HitLine(items[..j], name) < j && Contains(ItemLine(items[m]), KeyPrefix(name))
    ensures var f := JoinedItem(items, name, m);
      EntryJoins(num, items, name, j) <==>
      && m + 1 == j
      && (items[m].Note? || (f.Setting? && ParseValue(num, f.value) == ParseValue(num, items[m].value)))
  {
    hide JoinedItem, HitLine, Contains, ItemLine, KeyPrefix, ParseValue;
  }

  /** A note with `key=` in it is a comment. */
  lemma NoteStaysNote(item: Item, name: string, x: string, n: string)
    requires item.Note? && IsItem(item) && KeyAfter(ItemLine(item), name, x) && !AllSpace(x)
    ensures FusedItem(Note(x), n) == Note("")
  {
    hide *;
    var line := ItemLine(item);
    HoldsEquals(line, name, x);
    NoteIsComment(item);
    KeyAfterMeans(line, name, x);
    RestBegins(line, x);
    FusedBegins(x, n);
    FusedIs(Note(x), n, Trim(x + n));
  }

  lemma HoldsEquals(line: string, name: string, x: string)
    requires KeyAfter(line, name, x)
    ensures '=' in line
  {
    var p := KeyPrefix(name);
    assert line == x + line[|x|..] && line[|x|..][|name|] == '=';
  }

  lemma NoteIsComment(item: Item)
    requires item.Note? && IsItem(item) && '=' in ItemLine(item)
    ensures var t := Trim(ItemLine(item)); t != "" && (t[0] == ';' || t[0] == '#')
  {
    TrimKeeps(item.text, '=');
    hide Trim;
  }

  /** The rest of a setting's line makes a setting of the same key with the entry's line. */
  lemma RunsOnAsKey(key: string, v: string, name: string, value: string, x: string) returns (w: string)
    requires IsKey(key) && IsKey(name) && KeyAfter(KeyPrefix(key) + v, name, x)
    ensures x + (KeyPrefix(name) + value) == KeyPrefix(key) + w
  {
    var line, q := KeyPrefix(key) + v, KeyPrefix(name);
    var n := q + value;
    if |x| > |key| {
      w := x[|key| + 1..] + n;
      assert x == line[..|x|] && x[..|key| + 1] == KeyPrefix(key);
      assert x == KeyPrefix(key) + x[|key| + 1..];
    } else {
      w := value;
      FirstEqualsHere(key, v, name, x);
      assert x + (q + value) == x + name + "=" + value;
    }
  }

  lemma FirstEqualsHere(key: string, v: string, name: string, x: string)
    requires '=' !in key && '=' !in name && KeyAfter(KeyPrefix(key) + v, name, x) && |x| <= |key|
    ensures x + name == key
  {
    var line, e := KeyPrefix(key) + v, |x| + |name|;
    var y := line[|x|..];
    assert y[..|name| + 1] == KeyPrefix(name) && line[e] == y[|name|] == '=';
    assert y[..|name|] == KeyPrefix(name)[..|name|] == name;
    assert forall i :: 0 <= i < |key| ==> line[i] == key[i] != '=';
    assert forall i :: |x| <= i < e ==> line[i] == name[i - |x|] != '=';
    assert line[|key|] == '=' && |key| == e && line[..e] == key;
    assert line[..e] == x + y[..|name|];
  }

  lemma SettingStaysSetting(num: Numerals, item: Item, name: string, value: string, x: string)
    requires item.Setting? && IsItem(item) && IsKey(name) && KeyAfter(ItemLine(item), name, x)
    ensures var f := FusedItem(Note(x), KeyPrefix(name) + value); f.Setting? && f.key == item.key
  {
    hide *;
    SettingFacts(item);
    var n := KeyPrefix(name) + value;
    var w := RunsOnAsKey(item.key, item.value, name, value, x);
    SettingFuses(num, item.key, w);
    FusedIs(Note(x), n, Trim(KeyPrefix(item.key) + w));
  }

  lemma SettingFacts(item: Item)
    requires item.Setting? && IsItem(item)
    ensures IsKey(item.key) && ItemLine(item) == KeyPrefix(item.key) + item.value
  {
  }

  /** One item in place of another that sets the same key, or of a note. */
  lemma SwappedValues(num: Numerals, b: seq<Item>, p: Item, f: Item, c: seq<Item>)
    requires if p.Note? then f.Note? else f.Setting? && f.key == p.key && !HasKey(c, p.key)
    ensures ValuesOf(num, b + [f] + c) == ValuesOf(num, b + [p] + c)
       <==> p.Note? || (f.Setting? && ParseValue(num, f.value) == ParseValue(num, p.value))
  {
    var m, later := ValuesOf(num, b), ValuesOf(num, c);
    hide ItemValues, ParseValue, HasKey;
    ThreeValues(num, b, f, c);
    ThreeValues(num, b, p, c);
    if p.Setting? {
      KeysOfValues(num, c, map[], p.key);
      PutMergedTwice(m, later, p.key, ParseValue(num, f.value), ParseValue(num, p.value));
    }
  }

  lemma HasKeyLater(items: seq<Item>, f: Item, m: nat, j: nat)
    requires m + 1 < j < |items| && items[j].Setting?
    ensures HasKey(items[..m] + [f] + items[m + 2..], items[j].key)
  {
    var all := items[..m] + [f] + items[m + 2..];
    assert all[j - 1] == items[j];
  }

  lemma EntryStays(num: Numerals, items: seq<Item>, f: Item, m: nat, j: nat)
    requires m + 1 < j < |items| && items[j].Setting?
    ensures ValuesOf(num, items[..m] + [f] + items[m + 2..]) != ValuesOf(num, items) - {items[j].key}
  {
    hide ItemValues, HasKey;
    HasKeyLater(items, f, m, j);
    KeysOfValues(num, items[..m] + [f] + items[m + 2..], map[], items[j].key);
  }

  lemma EntryGone(num: Numerals, items: seq<Item>, m: nat, j: nat)
    requires AreItems(items) && m + 1 == j < |items| && items[j].Setting?
    ensures ValuesOf(num, items[..m] + [items[m]] + items[m + 2..]) == ValuesOf(num, items) - {items[j].key}
  {
    hide ItemValues, AreItems;
    ValuesWithout(num, items, j);
    assert items[..j] == items[..m] + [items[m]] && items[m + 2..] == items[j + 1..];
  }

  lemma MisledCompare(num: Numerals, items: seq<Item>, name: string, j: nat, m: nat)
    requires AreItems(items) && m < j < |items| && items[j].Setting? && items[j].key == name && IsKey(name)
    requires m == HitLine(items[..j], name) && Contains(ItemLine(items[m]), KeyPrefix(name))
    requires KeyAfter(ItemLine(items[m]), name, HitRest(items[m], name)) && !AllSpace(HitRest(items[m], name))
    ensures ValuesOf(num, items[..m] + [JoinedItem(items, name, m)] + items[m + 2..]) == ValuesOf(num, items) - {name}
       <==> EntryJoins(num, items, name, j)
  {
    hide *;
    var f, p := JoinedItem(items, name, m), items[m];
    JoinedItemIs(items, name, m);
    EntryJoinsIs(num, items, name, j, m);
    ItemAt(items, m);
    if m + 1 < j {
      EntryStays(num, items, f, m, j);
    } else {
      EntryGone(num, items, m, j);
      SettingLine(name, items[j].value);
      if p.Note? {
        NoteStaysNote(p, name, HitRest(p, name), ItemLine(items[j]));
      } else {
        SettingStaysSetting(num, p, name, items[j].value, HitRest(p, name));
        NotAgain(items, m, m + 2, |items|);
        assert items[m + 2..|items|] == items[m + 2..];
      }
      SwappedValues(num, items[..m], p, f, items[m + 2..]);
    }
  }

  lemma ItemAt(items: seq<Item>, m: nat)
    requires AreItems(items) && m < |items|
    ensures IsItem(items[m])
  {
    hide IsItem;
  }

  /** Misled, removal deletes the entry and no other setting exactly when the entry joins the line hit so. */
  lemma MisledRemoves(num: Numerals, doc: Document, name: string, i: nat, j: nat)
    requires IsMisled(doc, name, i, j)
    ensures i < |doc.sections| && j < |doc.sections[i].items|
    ensures var before := Join(Lines(doc));
      && RemoveText(before, name).Some?
      && var after := RemoveText(before, name).value;
      && Read(num, before).Some? && Read(num, after).Some?
      && (OnlyRemoves(Read(num, before).value.root, Read(num, after).value.root, AUTOLOAD, name)
          <==> EntryJoins(num, doc.sections[i].items, name, j))
  {
    hide *;
    MisledFacts(doc, name, i, j);
    HitFacts(doc, name, i, j);
    AfterMisled(num, doc, name, i, j);
    var items := doc.sections[i].items;
    var m := HitLine(items[..j], name);
    MeaningAround(num, doc, i);
    CanonicalItems(doc, i);
    ReadCanonical(num, doc);
    RemovesInPlace(num, doc, i, items, items[..m] + [JoinedItem(items, name, m)] + items[m + 2..], name);
    MisledCompare(num, items, name, j, m);
  }

  // ---------- Every file whose header is found ----------

  /** A canonical file with the entry `name` at place `j` of its autoload section, `i`, whose header is found. */
  ghost predicate HasEntry(doc: Document, name: string, i: nat, j: nat) {
    && IsCanonical(doc) && IsKey(name)
    && i == SectionIndex(doc.sections, AUTOLOAD) < |doc.sections|
    && NoneContains(ItemLines(doc.preamble) + SectionLines(doc.sections[..i]), Header(AUTOLOAD))
    && j == KeyIndex(doc.sections[i].items, name) < |doc.sections[i].items|
  }

  /** The lines on either side of what goes can run together without harm. */
  ghost predicate RunsTogether(num: Numerals, doc: Document, name: string, i: nat, j: nat)
    requires i < |doc.sections| && j < |doc.sections[i].items|
  {
    var items := doc.sections[i].items;
    if NoneContains(ItemLines(items[..j]), KeyPrefix(name)) then TakesOnlyItself(num, doc, i, j)
    else EntryJoins(num, items, name, j)
  }

  lemma FindableOrMisled(doc: Document, name: string, i: nat, j: nat)
    requires HasEntry(doc, name, i, j)
    ensures i < |doc.sections| && j < |doc.sections[i].items|
    ensures if NoneContains(ItemLines(doc.sections[i].items[..j]), KeyPrefix(name)) then HasAutoload(doc, name, i, j)
            else IsMisled(doc, name, i, j)
  {
    hide IsCanonical, IsKey, ItemLines, SectionLines, Header, KeyPrefix, NoneContains;
  }

  lemma RunsTogetherIs(num: Numerals, doc: Document, name: string, i: nat, j: nat)
    requires i < |doc.sections| && j < |doc.sections[i].items|
    ensures RunsTogether(num, doc, name, i, j) <==>
      var items := doc.sections[i].items;
      if NoneContains(ItemLines(items[..j]), KeyPrefix(name)) then TakesOnlyItself(num, doc, i, j)
      else EntryJoins(num, items, name, j)
  {
    hide NoneContains, ItemLines, KeyPrefix, TakesOnlyItself, EntryJoins;
  }

  /**
   In any canonical file whose autoload header is found, removing an entry deletes it and no other setting exactly
   when the lines run together without harm: those around the entry, or, with `name=` in an earlier line of the
   section, that line and the entry right after it.
   */
  lemma RemovesOnlyItselfExactly(num: Numerals, doc: Document, name: string, i: nat, j: nat)
    requires HasEntry(doc, name, i, j)
    ensures i < |doc.sections| && j < |doc.sections[i].items|
    ensures var before := Join(Lines(doc));
      && RemoveText(before, name).Some?
      && var after := RemoveText(before, name).value;
      && Read(num, before).Some? && Read(num, after).Some?
      && (OnlyRemoves(Read(num, before).value.root, Read(num, after).value.root, AUTOLOAD, name)
          <==> RunsTogether(num, doc, name, i, j))
  {
    hide *;
    FindableOrMisled(doc, name, i, j);
    RunsTogetherIs(num, doc, name, i, j);
    if NoneContains(ItemLines(doc.sections[i].items[..j]), KeyPrefix(name)) {
      RemovesOnlyItself(num, doc, name, i, j);
    } else {
      MisledRemoves(num, doc, name, i, j);
    }
  }

  // ---------- When nothing is removed ----------

  lemma RemovesNone(content: string, name: string, sp: nat)
    requires Find(content, Header(AUTOLOAD), 0) == Some(sp)
    requires var from, f := sp + |Header(AUTOLOAD)|, Find(content, KeyPrefix(name), sp + |Header(AUTOLOAD)|);
      f.None? || (SectionEnd(content, from) < |content| && f.value > SectionEnd(content, from))
    ensures RemoveText(content, name) == None
  {
    hide Find, Header, KeyPrefix, EraseLine;
  }

  lemma NoneHits(content: string, name: string, a: seq<string>, b: seq<string>, rest: string)
    requires AreLines(a) && NoneContains(a, Header(AUTOLOAD)) && IsKey(name)
    requires AreLines(b) && NoneOpens(b) && (rest == "" || rest[0] == '[') && NoneContains(b, KeyPrefix(name))
    requires content == Join(a) + (Header(AUTOLOAD) + ("\n" + (Join(b) + rest)))
    ensures RemoveText(content, name) == None
  {
    AutoloadIsName();
    hide *;
    var h, p := Header(AUTOLOAD), KeyPrefix(name);
    HeaderIsLine(AUTOLOAD);
    PrefixIsPlain(name);
    SectionSearch(content, a, h, b, rest);
    KeyNotFound(content, |Join(a)| + |h|, b, p, rest);
    assert rest != "" ==> |content| == |Join(a)| + |h| + 1 + |Join(b)| + |rest|;
    RemovesNone(content, name, |Join(a)|);
  }

  lemma SomeHits(content: string, name: string, a: seq<string>, b: seq<string>, rest: string)
    requires AreLines(a) && NoneContains(a, Header(AUTOLOAD)) && IsKey(name)
    requires AreLines(b) && NoneOpens(b) && (rest == "" || rest[0] == '[') && !NoneContains(b, KeyPrefix(name))
    requires content == Join(a) + (Header(AUTOLOAD) + ("\n" + (Join(b) + rest)))
    ensures RemoveText(content, name).Some?
  {
    AutoloadIsName();
    hide *;
    var h, p := Header(AUTOLOAD), KeyPrefix(name);
    var from := |Join(a)| + |h|;
    HeaderIsLine(AUTOLOAD);
    PrefixIsPlain(name);
    SectionSearch(content, a, h, b, rest);
    var q := ContainedOccurs(b, p, rest);
    AfterNewline(content, from, Join(b), rest, p, q);
    var k := FoundLater(content, p, from, from + 1 + q);
    RemoveErases(content, name, |Join(a)|, k);
  }

  lemma AfterNewline(content: string, from: nat, y: string, rest: string, p: string, q: nat)
    requires from <= |content| && content[from..] == "\n" + (y + rest) && OccursAt(y + rest, p, q)
    ensures from < |content| && content[from] == '\n' && |content| == from + 1 + |y| + |rest|
    ensures OccursAt(content, p, from + 1 + q)
  {
    assert content[from..][0] == '\n';
    ShiftOccurs("\n", y + rest, p, q);
    OccursInSuffix(content, p, from, from + 1 + q);
    hide OccursAt;
  }

  /** Where the header is found, removal reports failure exactly when no line of the section has `name=` in it. */
  lemma RemovesNothingExactly(doc: Document, name: string, i: nat)
    requires IsCanonical(doc) && IsKey(name) && i == SectionIndex(doc.sections, AUTOLOAD) < |doc.sections|
    requires NoneContains(ItemLines(doc.preamble) + SectionLines(doc.sections[..i]), Header(AUTOLOAD))
    ensures RemoveText(Join(Lines(doc)), name).None?
       <==> NoneContains(ItemLines(doc.sections[i].items), KeyPrefix(name))
  {
    hide *;
    var a, b := ItemLines(doc.preamble) + SectionLines(doc.sections[..i]), ItemLines(doc.sections[i].items);
    var rest := Join(SectionLines(doc.sections[i + 1..]));
    SectionParts(doc, i, 0);
    CanonicalSection(doc, i);
    if NoneContains(b, KeyPrefix(name)) {
      NoneHits(Join(Lines(doc)), name, a, b, rest);
    } else {
      SomeHits(Join(Lines(doc)), name, a, b, rest);
    }
  }

  // ---------- An entry that is lost to a shorter name ----------

  const MYFOO: seq<Item> := [Setting("MyFoo", "1"), Note(""), Setting("Foo", "2")]

  /** The file with nothing but the autoload section. */
  function OnlyAutoloads(items: seq<Item>): Document {
    Document([], [Section(AUTOLOAD, items)])
  }

  lemma OnlyAutoloadLines(items: seq<Item>)
    ensures Lines(OnlyAutoloads(items)) == ["[autoload]"] + ItemLines(items)
  {
    OneEntryLine();
    NoItemLines();
    hide ItemLines, Header;
    var sections := OnlyAutoloads(items).sections;
    assert sections[1..] == [];
    assert SectionLines(sections) == ["[autoload]"] + ItemLines(items) + [];
  }

  lemma FooLines()
    ensures ItemLine(Setting("Foo", "2")) == "Foo=2" && ItemLine(Setting("MyFoo", "1")) == "MyFoo=1"
    ensures KeyPrefix("Foo") == "Foo="
  {
    assert "Foo" + "=" == "Foo=" && "Foo=" + "2" == "Foo=2" && "MyFoo" + "=" == "MyFoo=" && "MyFoo=" + "1" == "MyFoo=1";
  }

  lemma TwoLines(x: string)
    requires IsNote(x)
    ensures ItemLines([Note(x), Setting("Foo", "2")]) == [x, "Foo=2"]
    ensures Join([x, "Foo=2"]) == x + "\nFoo=2\n"
  {
    FooLines();
    hide ItemLine;
    assert [Note(x), Setting("Foo", "2")][1..] == [Setting("Foo", "2")];
    OneItemLines(Setting("Foo", "2"));
    assert ItemLine(Note(x)) == x by { NoteLine(x); }
    assert [x] + ["Foo=2"] == [x, "Foo=2"];
    JoinUnfold([x, "Foo=2"]);
    assert [x, "Foo=2"][1..] == ["Foo=2"];
    JoinOne("Foo=2");
    hide Join, ItemLines;
    assert x + "\n" + ("Foo=2" + "\n") == x + "\nFoo=2\n";
  }

  lemma NoteLine(x: string)
    ensures ItemLine(Note(x)) == x
  {
  }

  lemma MyFooLines()
    ensures ItemLines(MYFOO) == ["MyFoo=1", "", "Foo=2"]
  {
    FooLines();
    TwoLines("");
    FirstLineOf(MYFOO);
    hide ItemLines, ItemLine;
    assert MYFOO[1..] == [Note(""), Setting("Foo", "2")];
    assert ["MyFoo=1"] + ["", "Foo=2"] == ["MyFoo=1", "", "Foo=2"];
  }

  lemma MyFooText()
    ensures Join(Lines(OnlyAutoloads(MYFOO))) == "[autoload]\nMyFoo=1\n\nFoo=2\n"
  {
    hide *;
    OnlyAutoloadLines(MYFOO);
    MyFooLines();
    FooIsCanonical();
    TwoLines("");
    JoinConcat(["[autoload]"], ["MyFoo=1", "", "Foo=2"]);
    JoinOne("[autoload]");
    JoinUnfold(["MyFoo=1", "", "Foo=2"]);
    assert ["MyFoo=1", "", "Foo=2"][1..] == ["", "Foo=2"];
    MyFooPieces();
  }

  const FOO: seq<Item> := [Note("My"), Setting("Foo", "2")]

  lemma FooItems()
    ensures MYFOO == [Setting("MyFoo", "1"), Note(""), Setting("Foo", "2")] && FOO == [Note("My"), Setting("Foo", "2")]
    ensures OnlyAutoloads(MYFOO).sections == [Section(AUTOLOAD, MYFOO)]
  {
  }

  lemma FooIsCanonical()
    ensures IsKey("Foo") && IsNote("") && IsNote("My")
    ensures IsCanonical(OnlyAutoloads(MYFOO)) && IsCanonical(OnlyAutoloads(FOO))
  {
    AutoloadIsName();
    NotesHere();
    hide IsNote, IsName;
    assert AreItems(MYFOO) && AreItems(FOO);
    hide AreItems;
  }

  lemma NotesHere()
    ensures IsNote("") && IsNote("My")
  {
    TrimOfTrimmed("My");
    hide Trim;
  }

  lemma MyFooPieces()
    ensures "[autoload]" + "\n" + ("MyFoo=1" + "\n" + ("" + "\nFoo=2\n")) == "[autoload]\nMyFoo=1\n\nFoo=2\n"
    ensures "[autoload]" + "\n" + ("My" + "\nFoo=2\n") == "[autoload]\nMy\nFoo=2\n"
    ensures "[autoload]\n" + "My" + "\nFoo=2\n" == "[autoload]\nMy\nFoo=2\n"
    ensures "[autoload]" + "\n" == "[autoload]\n" && "" + "\nFoo=2\n" == "\nFoo=2\n"
  {
  }

  lemma FooInMyFoo()
    ensures Find("MyFoo=1", "Foo=", 0) == Some(2)
  {
    var t := "MyFoo=1";
    hide Find, OccursAt;
    assert t[2..2 + |"Foo="|] == "Foo=";
    OccursIf(t, "Foo=", 2);
    NotHereInText(t, "Foo=", 0, 0);
    NotHereInText(t, "Foo=", 1, 0);
    FindIs(t, "Foo=", 0, 2);
  }

  lemma FooHit()
    ensures Contains(ItemLine(MYFOO[0]), KeyPrefix("Foo")) && HitRest(MYFOO[0], "Foo") == "My"
    ensures HitLine(MYFOO[..2], "Foo") == 0
    ensures !NoneContains(ItemLines(MYFOO[..2]), KeyPrefix("Foo"))
  {
    FooLines();
    FooInMyFoo();
    hide Find;
    assert "MyFoo=1"[..2] == "My";
    FirstLineOf(MYFOO[..2]);
    assert MYFOO[..2][0] == MYFOO[0];
    hide ItemLines;
  }

  lemma MyFooIsMisled()
    ensures IsMisled(OnlyAutoloads(MYFOO), "Foo", 0, 2) && HitLine(MYFOO[..2], "Foo") == 0
    ensures Contains(ItemLine(MYFOO[0]), KeyPrefix("Foo")) && HitRest(MYFOO[0], "Foo") == "My"
  {
    FooIsCanonical();
    FooHit();
    MyFooPlaces();
    NothingBefore(MYFOO);
    hide *;
    IsMisledIf(OnlyAutoloads(MYFOO), MYFOO, "Foo", 0, 2);
  }

  lemma MyFooPlaces()
    ensures OnlyAutoloads(MYFOO).sections == [Section(AUTOLOAD, MYFOO)]
    ensures SectionIndex(OnlyAutoloads(MYFOO).sections, AUTOLOAD) == 0 && KeyIndex(MYFOO, "Foo") == 2 && |MYFOO| == 3
  {
  }

  lemma NothingBefore(items: seq<Item>)
    ensures var doc := OnlyAutoloads(items);
      NoneContains(ItemLines(doc.preamble) + SectionLines(doc.sections[..0]), Header(AUTOLOAD))
  {
    var doc := OnlyAutoloads(items);
    NoItemLines();
    assert doc.sections[..0] == [] && SectionLines([]) == [];
    hide ItemLines, SectionLines, Contains;
    assert [] + SectionLines([]) == [];
  }

  lemma IsMisledIf(doc: Document, items: seq<Item>, name: string, i: nat, j: nat)
    requires IsCanonical(doc) && IsKey(name) && i == SectionIndex(doc.sections, AUTOLOAD) < |doc.sections|
    requires NoneContains(ItemLines(doc.preamble) + SectionLines(doc.sections[..i]), Header(AUTOLOAD))
    requires items == doc.sections[i].items && j == KeyIndex(items, name) < |items|
    requires !NoneContains(ItemLines(items[..j]), KeyPrefix(name))
    ensures IsMisled(doc, name, i, j)
  {
    hide IsCanonical, IsKey, SectionIndex, KeyIndex, NoneContains, ItemLines, SectionLines, Header, KeyPrefix;
  }

  lemma MyFooRemoved()
    ensures RemoveText("[autoload]\nMyFoo=1\n\nFoo=2\n", "Foo") == Some("[autoload]\nMy\nFoo=2\n")
    ensures Join(Lines(OnlyAutoloads(FOO))) == "[autoload]\nMy\nFoo=2\n"
  {
    hide *;
    var doc := OnlyAutoloads(MYFOO);
    MyFooText();
    MyFooIsMisled();
    RemovedMisled(doc, "Foo", 0, 2);
    FooItems();
    MyFooParts();
    FooIsCanonical();
    TwoLines("My");
    JoinConcat(["[autoload]"], ["My", "Foo=2"]);
    JoinOne("[autoload]");
    OnlyAutoloadLines(FOO);
    MyFooPieces();
  }

  lemma MyFooParts()
    ensures var doc := OnlyAutoloads(MYFOO);
      && doc.sections[0].items == MYFOO
      && Join(LinesBefore(doc, 0, 0)) == "[autoload]\n"
      && Join(LinesFrom(doc, 0, 1)) == "\nFoo=2\n"
  {
    var doc := OnlyAutoloads(MYFOO);
    hide *;
    FooItems();
    FooIsCanonical();
    TwoLines("");
    AutoloadAlone(MYFOO, 0);
    AutoloadAlone(MYFOO, 1);
    assert MYFOO[..0] == [] && MYFOO[1..] == [Note(""), Setting("Foo", "2")];
    assert ["[autoload]"] + [] == ["[autoload]"];
    NoItemLines();
    MyFooPieces();
    JoinOne("[autoload]");
  }

  lemma AutoloadAlone(items: seq<Item>, m: nat)
    requires m <= |items|
    ensures OnlyAutoloads(items).sections == [Section(AUTOLOAD, items)]
    ensures LinesBefore(OnlyAutoloads(items), 0, m) == ["[autoload]"] + ItemLines(items[..m])
    ensures LinesFrom(OnlyAutoloads(items), 0, m) == ItemLines(items[m..])
  {
    OneEntryLine();
    NoItemLines();
    hide ItemLines, Header;
    var sections := OnlyAutoloads(items).sections;
    assert sections[..0] == [] && sections[1..] == [] && SectionLines([]) == [];
  }

  lemma FooMeans(num: Numerals)
    ensures Lookup(Meaning(num, OnlyAutoloads(MYFOO)), AUTOLOAD, "MyFoo") == Some(ParseValue(num, "1"))
    ensures Lookup(Meaning(num, OnlyAutoloads(FOO)), AUTOLOAD, "MyFoo") == None
    ensures Lookup(Meaning(num, OnlyAutoloads(FOO)), AUTOLOAD, "Foo") == Some(ParseValue(num, "2"))
  {
    FooValues(num);
    OneSection(num, Section(AUTOLOAD, MYFOO), map[]);
    OneSection(num, Section(AUTOLOAD, FOO), map[]);
    hide ParseValue, ItemValues, SectionNodes;
  }

  lemma FooValues(num: Numerals)
    ensures var m := ItemValues(num, MYFOO, map[]); "MyFoo" in m && m["MyFoo"] == ParseValue(num, "1")
    ensures ItemValues(num, FOO, map[]) == map["Foo" := ParseValue(num, "2")]
  {
    hide ParseValue;
    var m := map["MyFoo" := ParseValue(num, "1")];
    assert MYFOO == [MYFOO[0]] + [Note(""), Setting("Foo", "2")];
    ItemValuesConcat(num, [MYFOO[0]], [Note(""), Setting("Foo", "2")], map[]);
    OneItem(num, MYFOO[0], map[]);
    LastValue(num, Note(""), m);
    LastValue(num, Note("My"), map[]);
    hide ItemValues;
  }

  lemma LastValue(num: Numerals, note: Item, m: map<string, Value>)
    requires note.Note?
    ensures ItemValues(num, [note, Setting("Foo", "2")], m) == m["Foo" := ParseValue(num, "2")]
  {
    hide ItemValues, ParseValue;
    assert [note, Setting("Foo", "2")] == [note] + [Setting("Foo", "2")];
    ItemValuesConcat(num, [note], [Setting("Foo", "2")], m);
    OneItem(num, note, m);
    OneItem(num, Setting("Foo", "2"), m);
  }

  /**
   With room around the entry, but its name at the end of an earlier one, that other entry is lost, and the one to
   be removed stays.
   */
  lemma LongerNameIsLost(num: Numerals)
    ensures var before, after := "[autoload]\nMyFoo=1\n\nFoo=2\n", "[autoload]\nMy\nFoo=2\n";
      && RemoveText(before, "Foo") == Some(after)
      && Read(num, before).Some? && Read(num, after).Some?
      && Lookup(Read(num, before).value.root, AUTOLOAD, "MyFoo") == Some(ParseValue(num, "1"))
      && Lookup(Read(num, after).value.root, AUTOLOAD, "MyFoo") == None
      && Lookup(Read(num, after).value.root, AUTOLOAD, "Foo") == Some(ParseValue(num, "2"))
      && before == Join(Lines(OnlyAutoloads(MYFOO))) && HasEntry(OnlyAutoloads(MYFOO), "Foo", 0, 2)
      && TakesOnlyItself(num, OnlyAutoloads(MYFOO), 0, 2) && !RunsTogether(num, OnlyAutoloads(MYFOO), "Foo", 0, 2)
  {
    hide *;
    MyFooText();
    MyFooRemoved();
    MyFooIsMisled();
    FooIsCanonical();
    FooMeans(num);
    ReadCanonical(num, OnlyAutoloads(MYFOO));
    ReadCanonical(num, OnlyAutoloads(FOO));
    MyFooConditions(num);
  }

  lemma MyFooConditions(num: Numerals)
    ensures HasEntry(OnlyAutoloads(MYFOO), "Foo", 0, 2)
    ensures TakesOnlyItself(num, OnlyAutoloads(MYFOO), 0, 2) && !RunsTogether(num, OnlyAutoloads(MYFOO), "Foo", 0, 2)
  {
    MyFooIsMisled();
    hide IsCanonical, IsKey, NoneContains, ItemLines, SectionLines, KeyPrefix, ItemLine, Contains, JoinedItem, HitLine;
    var doc := OnlyAutoloads(MYFOO);
    assert doc.sections[0].items == MYFOO && |MYFOO| == 3;
    assert TakesOnlyItself(num, doc, 0, 2);
  }
}
