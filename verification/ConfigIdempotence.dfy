/** Setting the same value twice changes no byte the second time, on any file text at all. */
module ConfigIdempotence {
  import opened Wrappers
  import opened ByteText
  import opened ConfigValues
  import opened ConfigText

  lemma AgreeOccurs(s: string, t: string, p: string, j: nat, n: nat)
    requires n <= |s| && n <= |t| && s[..n] == t[..n] && j + |p| <= n
    ensures OccursAt(s, p, j) == OccursAt(t, p, j)
  {
    assert s[j..j + |p|] == s[..n][j..j + |p|];
    assert t[j..j + |p|] == t[..n][j..j + |p|];
  }

  lemma AgreeFind(s: string, t: string, p: string, from: nat, i: nat, n: nat)
    requires n <= |s| && n <= |t| && s[..n] == t[..n] && i + |p| <= n
    requires Find(s, p, from) == Some(i)
    ensures Find(t, p, from) == Some(i)
  {
    hide Find, OccursAt;
    forall j: nat | from <= j <= i
      ensures OccursAt(s, p, j) == OccursAt(t, p, j)
    {
      AgreeOccurs(s, t, p, j, n);
    }
    FindIs(t, p, from, i);
  }

  /** The setting's line, written at `at`, with the rest of its line empty. */
  ghost predicate HasLine(content: string, at: nat, key: string, written: string) {
    && at + |KeyPrefix(key)| + |written| <= |content|
    && content[at..at + |KeyPrefix(key)| + |written|] == KeyPrefix(key) + written
    && (at + |KeyPrefix(key)| + |written| < |content| ==> content[at + |KeyPrefix(key)| + |written|] == '\n')
  }

  lemma LineEndOf(content: string, at: nat, key: string, written: string)
    requires HasLine(content, at, key, written) && '\n' !in key && '\n' !in written
    ensures LineEnd(content, at) == at + |KeyPrefix(key)| + |written|
  {
    hide LineEnd;
    LineEndIs(content, at, at + |KeyPrefix(key)| + |written|);
  }

  lemma Spliced(content: string, at: nat, p: string, w: string)
    requires at + |p| + |w| <= |content| && content[at..at + |p| + |w|] == p + w
    ensures content[at + |p|..at + |p| + |w|] == w
    ensures content[..at] + p + w + content[at + |p| + |w|..] == content
  {
    assert content[at + |p|..at + |p| + |w|] == content[at..at + |p| + |w|][|p|..];
    assert content[..at] + p + w == content[..at] + (p + w);
    assert content == content[..at] + content[at..at + |p| + |w|] + content[at + |p| + |w|..];
  }

  lemma ReplaceStable(content: string, at: nat, key: string, value: string, written: string)
    requires HasLine(content, at, key, written) && '\n' !in key && '\n' !in written
    requires Format(written, value) == written
    ensures ReplaceLine(content, at, key, value) == content
  {
    LineEndOf(content, at, key, written);
    Spliced(content, at, KeyPrefix(key), written);
    hide LineEnd, Format, KeyPrefix, HasLine;
  }

  /** A line that already holds the formatted value is found again and rewritten as it stands. */
  lemma StableLine(content: string, section: string, key: string, value: string, sp: nat, at: nat, written: string)
    requires content != "" && '\n' !in key && '\n' !in written
    requires Find(content, Header(section), 0) == Some(sp)
    requires Find(content, KeyPrefix(key), sp + |Header(section)|) == Some(at)
    requires at < SectionEnd(content, sp + |Header(section)|)
    requires HasLine(content, at, key, written)
    requires Format(written, value) == written
    ensures SetText(content, section, key, value) == Some(content)
  {
    hide *;
    SetReplaces(content, section, key, value, sp, at);
    ReplaceStable(content, at, key, value, written);
  }

  lemma NoHeaderBefore(content: string, from: nat, at: nat)
    requires from <= at < |content|
    requires forall j: nat :: from <= j <= at ==> !OccursAt(content, "\n[", j)
    ensures at < SectionEnd(content, from)
  {
    hide Find;
  }

  predicate IsSettable(section: string, key: string, value: string) {
    '\n' !in section && '\n' !in key && '\n' !in value && (key == "" || key[0] != '[') && !IsWrapped(Unwrap(value))
  }

  lemma SettableFacts(section: string, key: string, value: string)
    requires IsSettable(section, key, value)
    ensures '\n' !in section && '\n' !in key && '\n' !in value
    ensures '\n' !in Header(section) && Header(section) != "" && Header(section)[0] == '['
    ensures '\n' !in KeyPrefix(key) && KeyPrefix(key) != "" && KeyPrefix(key)[0] != '\n' && KeyPrefix(key)[0] != '['
  {
  }

  /** No header begins at a newline that the next byte rules out, or at a byte that is not a newline. */
  lemma NotAHeader(content: string, j: nat)
    requires j < |content| && (content[j] != '\n' || (j + 1 < |content| && content[j + 1] != '['))
    ensures !OccursAt(content, "\n[", j)
  {
    if j + 2 <= |content| {
      assert content[j..j + 2][0] == content[j] && content[j..j + 2][1] == content[j + 1];
    }
  }

  lemma NotAt(content: string, p: string, j: nat)
    requires p != "" && j < |content| && content[j] != p[0]
    ensures !OccursAt(content, p, j)
  {
    if j + |p| <= |content| {
      assert content[j..j + |p|][0] == content[j];
    }
  }

  lemma AfterReplacing(before: string, after: string, section: string, key: string, value: string, sp: nat, at: nat,
                       written: string)
    requires IsSettable(section, key, value) && '\n' !in written && Format(written, value) == written
    requires Find(before, Header(section), 0) == Some(sp)
    requires Find(before, KeyPrefix(key), sp + |Header(section)|) == Some(at)
    requires at < SectionEnd(before, sp + |Header(section)|)
    requires at + |KeyPrefix(key)| <= |after| && after[..at + |KeyPrefix(key)|] == before[..at + |KeyPrefix(key)|]
    requires HasLine(after, at, key, written)
    ensures SetText(after, section, key, value) == Some(after)
  {
    hide *;
    SettableFacts(section, key, value);
    var p, from := KeyPrefix(key), sp + |Header(section)|;
    OccursHere(before, p, at);
    AgreeFind(before, after, Header(section), 0, sp, at + |p|);
    AgreeFind(before, after, p, from, at, at + |p|);
    SectionEndIsFirst(before, from);
    NoHeaderUpTo(before, after, p, from, at);
    NoHeaderBefore(after, from, at);
    StableLine(after, section, key, value, sp, at, written);
  }

  lemma NoHeaderUpTo(before: string, after: string, p: string, from: nat, at: nat)
    requires p != "" && p[0] != '\n' && at + |p| <= |after| && at + |p| <= |before|
    requires after[..at + |p|] == before[..at + |p|] == before[..at] + p
    requires forall j: nat :: from <= j < at ==> !OccursAt(before, "\n[", j)
    ensures forall j: nat :: from <= j <= at ==> !OccursAt(after, "\n[", j)
  {
    hide *;
    assert after[at] == (before[..at] + p)[at] == p[0];
    forall j: nat | from <= j <= at
      ensures !OccursAt(after, "\n[", j)
    {
      if j == at {
        NotAHeader(after, j);
      } else {
        AgreeOccurs(before, after, "\n[", j, at + |p|);
      }
    }
  }

  lemma SectionEndIsFirst(content: string, from: nat)
    ensures forall j: nat :: from <= j < SectionEnd(content, from) ==> !OccursAt(content, "\n[", j)
  {
    hide Find, OccursAt;
  }

  /** The pieces of a splice, as the searches will see them. */
  lemma SplicedLine(pre: string, key: string, written: string, suf: string)
    requires suf == "" || suf[0] == '\n'
    ensures var after := pre + KeyPrefix(key) + written + suf;
      && HasLine(after, |pre|, key, written)
      && after[..|pre| + |KeyPrefix(key)|] == pre + KeyPrefix(key)
  {
    hide KeyPrefix;
    var p := KeyPrefix(key);
    var after := pre + p + written + suf;
    assert after == pre + (p + written) + suf;
    assert after[|pre|..|pre| + |p| + |written|] == p + written;
  }

  lemma ReplaceCase(content: string, section: string, key: string, value: string, sp: nat, at: nat)
    requires IsSettable(section, key, value)
    requires Find(content, Header(section), 0) == Some(sp)
    requires Find(content, KeyPrefix(key), sp + |Header(section)|) == Some(at)
    requires at < SectionEnd(content, sp + |Header(section)|)
    ensures var after := ReplaceLine(content, at, key, value); SetText(after, section, key, value) == Some(after)
  {
    hide *;
    SettableFacts(section, key, value);
    PrefixHere(content, at, KeyPrefix(key));
    var p, end := KeyPrefix(key), LineEnd(content, at);
    var existing := content[at + |p|..end];
    var written := Format(existing, value);
    FormatKeepsLines(existing, value);
    SettableStable(existing, section, key, value);
    SplicedLine(content[..at], key, written, content[end..]);
    OccursHere(content, p, at);
    ReplacedAs(content, at, key, value);
    AfterReplacing(content, ReplaceLine(content, at, key, value), section, key, value, sp, at, written);
  }

  lemma ReplacedAs(content: string, at: nat, key: string, value: string)
    requires at <= |content| && at + |KeyPrefix(key)| <= LineEnd(content, at)
    ensures var start, end := at + |KeyPrefix(key)|, LineEnd(content, at);
      ReplaceLine(content, at, key, value)
      == content[..at] + KeyPrefix(key) + Format(content[start..end], value) + content[end..]
  {
    hide KeyPrefix, Format, LineEnd;
  }

  lemma OccursHere(content: string, p: string, at: nat)
    requires OccursAt(content, p, at)
    ensures at + |p| <= |content| && content[..at] + p == content[..at + |p|]
  {
  }

  lemma SettableStable(existing: string, section: string, key: string, value: string)
    requires IsSettable(section, key, value)
    ensures '\n' !in key && '\n' !in value && '\n' !in section
    ensures Format(Format(existing, value), value) == Format(existing, value)
  {
    hide Format;
    FormatStable(existing, value);
  }

  /** A key that occurs at `at` ends before its line does. */
  lemma PrefixHere(content: string, at: nat, p: string)
    requires OccursAt(content, p, at) && '\n' !in p
    ensures at + |p| <= LineEnd(content, at)
  {
    hide LineEnd;
    forall j | at <= j < at + |p|
      ensures content[j] != '\n'
    {
      assert content[at..at + |p|][j - at] == content[j];
    }
  }

  lemma AfterInserting(pre: string, suf: string, section: string, key: string, value: string, sp: nat, written: string)
    requires IsSettable(section, key, value) && '\n' !in written && Format(written, value) == written
    requires Find(pre, Header(section), 0) == Some(sp)
    requires |pre| == sp + |Header(section)| || (|pre| == sp + |Header(section)| + 1 && pre[|pre| - 1] == '\n')
    requires suf != "" && suf[0] == '\n'
    ensures var after := pre + KeyPrefix(key) + written + suf; SetText(after, section, key, value) == Some(after)
  {
    hide *;
    SettableFacts(section, key, value);
    SplicedLine(pre, key, written, suf);
    var p, from := KeyPrefix(key), sp + |Header(section)|;
    var after := pre + p + written + suf;
    InsertedIsFound(pre, p, written + suf, from);
    assert pre + p + (written + suf) == after;
    assert pre[..|pre|] == pre == after[..|pre|];
    AgreeFind(pre, after, Header(section), 0, sp, |pre|);
    NoHeaderBefore(after, from, |pre|);
    StableLine(after, section, key, value, sp, |pre|, written);
  }

  lemma InsertedIsFound(pre: string, p: string, suf: string, from: nat)
    requires p != "" && p[0] != '\n' && p[0] != '['
    requires |pre| == from || (|pre| == from + 1 && pre[from] == '\n')
    ensures var after := pre + p + suf;
      && Find(after, p, from) == Some(|pre|)
      && forall j: nat :: from <= j <= |pre| ==> !OccursAt(after, "\n[", j)
  {
    hide Find;
    var after := pre + p + suf;
    assert after[|pre|..|pre| + |p|] == p && after[|pre|] == p[0];
    if from < |pre| {
      assert after[from] == '\n';
      NotAt(after, p, from);
      NotAHeader(after, from);
    }
    NotAHeader(after, |pre|);
    FindIs(after, p, from, |pre|);
  }

  lemma InsertCase(content: string, section: string, key: string, value: string, sp: nat)
    requires IsSettable(section, key, value)
    requires Find(content, Header(section), 0) == Some(sp)
    ensures sp + |Header(section)| <= |content|
    ensures var after := InsertLine(content, sp + |Header(section)|, key, value);
      SetText(after, section, key, value) == Some(after)
  {
    hide *;
    FindBounds(content, Header(section), 0);
    var from := sp + |Header(section)|;
    var at := if from < |content| && content[from] == '\n' then from + 1 else from;
    var written := Format("", value);
    SettableFacts(section, key, value);
    FormatKeepsLines("", value);
    SettableStable("", section, key, value);
    assert content[..at][..at] == content[..at];
    AgreeFind(content, content[..at], Header(section), 0, sp, at);
    AfterInserting(content[..at], "\n" + content[at..], section, key, value, sp, written);
    InsertedAs(content, from, at, key, value);
  }

  lemma InsertedAs(content: string, from: nat, at: nat, key: string, value: string)
    requires from <= |content| && at == if from < |content| && content[from] == '\n' then from + 1 else from
    ensures InsertLine(content, from, key, value)
         == content[..at] + KeyPrefix(key) + Format("", value) + ("\n" + content[at..])
  {
    hide KeyPrefix, Format;
  }

  lemma AppendCase(content: string, section: string, key: string, value: string)
    requires IsSettable(section, key, value) && content != ""
    requires Find(content, Header(section), 0) == None
    ensures var after := AppendSection(content, section, key, value);
      SetText(after, section, key, value) == Some(after)
  {
    hide *;
    SettableFacts(section, key, value);
    FormatKeepsLines("", value);
    SettableStable("", section, key, value);
    var c := if content[|content| - 1] != '\n' then content + "\n" else content;
    HeaderIsFirst(content, c, Header(section));
    AfterInserting(c + "\n" + Header(section) + "\n", "\n", section, key, value, |c| + 1, Format("", value));
    AppendedAs(content, c, section, key, value);
  }

  lemma AppendedAs(content: string, c: string, section: string, key: string, value: string)
    requires content != "" && c == if content[|content| - 1] != '\n' then content + "\n" else content
    ensures AppendSection(content, section, key, value)
         == c + "\n" + Header(section) + "\n" + KeyPrefix(key) + Format("", value) + "\n"
  {
    hide KeyPrefix, Format, Header;
    var h, p, w := Header(section), KeyPrefix(key), Format("", value);
    assert c + "\n" + h + "\n" + p + w + "\n" == c + ("\n" + h + "\n" + p + w + "\n");
  }

  lemma HeaderIsFirst(content: string, c: string, h: string)
    requires Find(content, h, 0) == None
    requires c == content + "\n" || (c == content && content != "" && content[|content| - 1] == '\n')
    requires h != "" && h[0] != '\n' && '\n' !in h
    ensures Find(c + "\n" + h + "\n", h, 0) == Some(|c| + 1)
  {
    hide *;
    var t := c + "\n" + h + "\n";
    var n := |content|;
    HeaderText(content, c, h);
    forall j: nat | j < |c| + 1
      ensures !OccursAt(t, h, j)
    {
      if j + |h| <= n {
        AgreeOccurs(content, t, h, j, n);
      } else if j <= n {
        CrossesNewline(t, h, j, n);
      } else {
        NotAt(t, h, j);
      }
    }
    OccursIf(t, h, |c| + 1);
    FindIs(t, h, 0, |c| + 1);
  }

  lemma HeaderText(content: string, c: string, h: string)
    requires c == content + "\n" || (c == content && content != "" && content[|content| - 1] == '\n')
    ensures var t, n := c + "\n" + h + "\n", |content|;
      && n <= |c| < |t| && t[..n] == content[..n] && t[n] == '\n' && t[|c|] == '\n'
      && |c| + 1 + |h| <= |t| && t[|c| + 1..|c| + 1 + |h|] == h
  {
  }

  lemma CrossesNewline(t: string, h: string, j: nat, n: nat)
    requires j <= n < j + |h| && n < |t| && t[n] == '\n' && '\n' !in h
    ensures !OccursAt(t, h, j)
  {
    if j + |h| <= |t| {
      assert t[j..j + |h|][n - j] == '\n';
    }
  }

  /** Whatever the file says, setting the same value again changes no byte. */
  lemma SetIsIdempotent(content: string, section: string, key: string, value: string)
    requires content != "" && IsSettable(section, key, value)
    ensures SetText(content, section, key, value).Some?
    ensures var once := SetText(content, section, key, value).value;
      SetText(once, section, key, value) == Some(once)
  {
    hide Find, IsSettable, Header, KeyPrefix, SectionEnd, AppendSection, ReplaceLine, InsertLine, SetAfter;
    match Find(content, Header(section), 0) {
      case None => AppendCase(content, section, key, value);
      case Some(sp) =>
        var from := sp + |Header(section)|;
        var found := Find(content, KeyPrefix(key), from);
        if found.Some? && found.value < SectionEnd(content, from) {
          SetReplaces(content, section, key, value, sp, found.value);
          ReplaceCase(content, section, key, value, sp, found.value);
        } else {
          SetInserts(content, section, key, value, sp);
          InsertCase(content, section, key, value, sp);
        }
    }
  }
}
