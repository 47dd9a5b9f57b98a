/** The backslash-reading loop the editor API and the settings reader share, by escape table. */
module Unescaping {
  /** The byte after a backslash, and what the pair stands for. Other pairs are left as they are. */
  type Table = map<char, char>

  function FirstUnescaped(table: Table, s: string): char
    requires s != ""
  {
    if s[0] == '\\' && |s| > 1 && s[1] in table then table[s[1]] else s[0]
  }

  function BytesUsed(table: Table, s: string): (n: nat)
    requires s != ""
    ensures 1 <= n <= |s|
  {
    if s[0] == '\\' && |s| > 1 && s[1] in table then 2 else 1
  }

  function Unescape(table: Table, s: string): string {
    if s == "" then "" else [FirstUnescaped(table, s)] + Unescape(table, s[BytesUsed(table, s)..])
  }

  lemma UnescapeSuffix(table: Table, s: string, i: nat)
    requires i < |s|
    ensures Unescape(table, s[i..])
            == [FirstUnescaped(table, s[i..])] + Unescape(table, s[i + BytesUsed(table, s[i..])..])
  {
    assert s[i..][BytesUsed(table, s[i..])..] == s[i + BytesUsed(table, s[i..])..];
  }

  lemma UnescapeNothing(table: Table)
    ensures Unescape(table, "") == ""
  {
  }

  method UnescapeLoop(table: Table, text: string) returns (unescaped: string)
    ensures unescaped == Unescape(table, text)
  {
    hide Unescape;
    unescaped := "";
    assert text[0..] == text;
    var i := 0;
    while i < |text|
      invariant 0 <= i <= |text|
      invariant Unescape(table, text) == unescaped + Unescape(table, text[i..])
    {
      UnescapeSuffix(table, text, i);
      if text[i] == '\\' && i + 1 < |text| && text[i + 1] in table {
        unescaped := unescaped + [table[text[i + 1]]];
        i := i + 1;
      } else {
        unescaped := unescaped + [text[i]];
      }
      i := i + 1;
    }
    assert text[i..] == "";
    UnescapeNothing(table);
  }

  lemma UnescapePlain(table: Table, c: char, t: string)
    requires c != '\\'
    ensures Unescape(table, [c] + t) == [c] + Unescape(table, t)
  {
    assert ([c] + t)[1..] == t;
  }

  lemma UnescapePair(table: Table, e: char, t: string)
    requires e in table
    ensures Unescape(table, ['\\', e] + t) == [table[e]] + Unescape(table, t)
  {
    assert (['\\', e] + t)[2..] == t;
  }

  lemma UnescapeLone(table: Table)
    ensures Unescape(table, "") == "" && Unescape(table, "\\") == "\\"
  {
    assert "\\"[1..] == "";
    assert Unescape(table, "") == "";
  }

  /** A backslash before any other byte is kept, and so is the byte. */
  lemma UnescapeOther(table: Table, c: char, t: string)
    ensures c !in table && c != '\\' ==> Unescape(table, ['\\', c] + t) == ['\\', c] + Unescape(table, t)
  {
    if c !in table && c != '\\' {
      assert (['\\', c] + t)[1..] == [c] + t;
      UnescapePlain(table, c, t);
    }
  }

  lemma {:induction false} UnescapeRun(table: Table, plain: string, t: string)
    requires forall i :: 0 <= i < |plain| ==> plain[i] != '\\'
    ensures Unescape(table, plain + t) == plain + Unescape(table, t)
  {
    hide *;
    if plain == "" {
      assert plain + t == t;
    } else {
      UnescapeRun(table, plain[1..], t);
      assert plain + t == [plain[0]] + (plain[1..] + t);
      UnescapePlain(table, plain[0], plain[1..] + t);
    }
  }
}
