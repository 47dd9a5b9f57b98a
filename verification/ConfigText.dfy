/**
 `set_project_setting` and `remove_autoload` as the source performs them: substring searches and
 splices on the raw text of the file.
 */
module ConfigText {
  import opened Wrappers
  import opened ByteText
  import opened ConfigValues

  const AUTOLOAD := "autoload"

  function Header(section: string): string {
    "[" + section + "]"
  }

  function KeyPrefix(key: string): string {
    key + "="
  }

  /** The position of the first newline from `i` on, or the end of the text. */
  function LineEnd(content: string, i: nat): (r: nat)
    requires i <= |content|
    ensures i <= r <= |content|
    ensures r == |content| || content[r] == '\n'
    ensures '\n' !in content[i..r]
  {
    match Find(content, "\n", i)
    case None => NoNewline(content, i, |content|); |content|
    case Some(n) => NoNewline(content, i, n); n
  }

  lemma NoNewline(content: string, i: nat, n: nat)
    requires i <= n <= |content|
    requires forall j: nat :: i <= j < n ==> !OccursAt(content, "\n", j)
    ensures '\n' !in content[i..n]
  {
    forall j: nat | i <= j < n
      ensures content[j] != '\n'
    {
      assert !OccursAt(content, "\n", j);
      assert content[j..j + 1] == [content[j]];
    }
  }

  lemma LineEndIs(content: string, i: nat, n: nat)
    requires i <= n <= |content| && '\n' !in content[i..n]
    requires n == |content| || content[n] == '\n'
    ensures LineEnd(content, i) == n
  {
    hide Find;
    forall j: nat | i <= j < n
      ensures !OccursAt(content, "\n", j)
    {
      assert content[i..n][j - i] == content[j..j + 1][0];
    }
    if n < |content| {
      assert content[n..n + 1] == "\n";
      FindIs(content, "\n", i, n);
    } else {
      FindIsNone(content, "\n", i);
    }
  }

  /** The end of the section whose header ends at `from`, as the search for "\n[" sees it. */
  function SectionEnd(content: string, from: nat): nat {
    match Find(content, "\n[", from)
    case None => |content|
    case Some(n) => n
  }

  /** The text after one call of `set_project_setting`; None when the file is missing or empty. */
  ghost function SetText(content: string, section: string, key: string, value: string): Option<string> {
    if content == "" then None else
    match Find(content, Header(section), 0)
    case None => Some(AppendSection(content, section, key, value))
    case Some(at) => Some(SetAfter(content, at + |Header(section)|, key, value))
  }

  /** The edit inside the section whose header ends at `from`. */
  ghost function SetAfter(content: string, from: nat, key: string, value: string): string
    requires from <= |content|
  {
    var found := Find(content, KeyPrefix(key), from);
    if found.Some? && found.value < SectionEnd(content, from) then ReplaceLine(content, found.value, key, value)
    else InsertLine(content, from, key, value)
  }

  ghost function AppendSection(content: string, section: string, key: string, value: string): string
    requires content != ""
  {
    (if content[|content| - 1] != '\n' then content + "\n" else content)
    + ("\n" + Header(section) + "\n" + KeyPrefix(key) + Format("", value) + "\n")
  }

  ghost function ReplaceLine(content: string, at: nat, key: string, value: string): string
    requires at + |KeyPrefix(key)| <= |content|
  {
    var start, end := at + |KeyPrefix(key)|, LineEnd(content, at);
    var existing := if start <= end then content[start..end] else content[start..];
    content[..at] + KeyPrefix(key) + Format(existing, value) + content[end..]
  }

  ghost function InsertLine(content: string, from: nat, key: string, value: string): string
    requires from <= |content|
  {
    var at := if from < |content| && content[from] == '\n' then from + 1 else from;
    content[..at] + KeyPrefix(key) + Format("", value) + "\n" + content[at..]
  }

  lemma SetsAfter(content: string, section: string, key: string, value: string, sp: nat)
    requires content != "" && Find(content, Header(section), 0) == Some(sp)
    ensures sp + |Header(section)| <= |content|
    ensures SetText(content, section, key, value) == Some(SetAfter(content, sp + |Header(section)|, key, value))
  {
    hide Find, Header, SetAfter, AppendSection;
  }

  lemma SetReplaces(content: string, section: string, key: string, value: string, sp: nat, at: nat)
    requires content != "" && Find(content, Header(section), 0) == Some(sp)
    requires Find(content, KeyPrefix(key), sp + |Header(section)|) == Some(at)
    requires at < SectionEnd(content, sp + |Header(section)|)
    ensures at + |KeyPrefix(key)| <= |content|
    ensures SetText(content, section, key, value) == Some(ReplaceLine(content, at, key, value))
  {
    hide Find, Header, SectionEnd, KeyPrefix, ReplaceLine, InsertLine, SetText;
    SetsAfter(content, section, key, value, sp);
  }

  lemma SetInserts(content: string, section: string, key: string, value: string, sp: nat)
    requires content != "" && Find(content, Header(section), 0) == Some(sp)
    requires var from := sp + |Header(section)|;
      Find(content, KeyPrefix(key), from).None?
      || Find(content, KeyPrefix(key), from).value >= SectionEnd(content, from)
    ensures sp + |Header(section)| <= |content|
    ensures SetText(content, section, key, value) == Some(InsertLine(content, sp + |Header(section)|, key, value))
  {
    hide Find, Header, SectionEnd, KeyPrefix, ReplaceLine, InsertLine, SetText;
    SetsAfter(content, section, key, value, sp);
  }

  /** The text after one call of `remove_autoload`; None when it reports that nothing was removed. */
  function RemoveText(content: string, name: string): Option<string> {
    match Find(content, Header(AUTOLOAD), 0)
    case None => None
    case Some(at) => RemoveAfter(content, name, at + |Header(AUTOLOAD)|)
  }

  function RemoveAfter(content: string, name: string, from: nat): Option<string> {
    match Find(content, KeyPrefix(name), from)
    case None => None
    case Some(k) =>
      if Find(content, "\n[", from).Some? && k > SectionEnd(content, from) then None
      else Some(EraseLine(content, k))
  }

  /** Without the line that `k` is in, from `k` on, and without the newline on either side of it. */
  function EraseLine(content: string, k: nat): string
    requires k <= |content|
  {
    var start := if k > 0 && content[k - 1] == '\n' then k - 1 else k;
    var end := LineEnd(content, k);
    content[..start] + content[if end < |content| then end + 1 else end..]
  }

  /** `project.godot`, edited in place. A write to the file always succeeds. */
  class ProjectFile {
    var content: string

    constructor (content: string)
      ensures this.content == content
    {
      this.content := content;
    }

    method SetProjectSetting(section: string, key: string, value: string) returns (ok: bool)
      modifies this
      ensures var r := SetText(old(content), section, key, value);
        ok == r.Some? && content == if ok then r.value else old(content)
    {
      hide Find, Header, AppendSection, SetAfter;
      if content == "" {
        return false;
      }
      var sectionPos := Find(content, Header(section), 0);
      if sectionPos.None? {
        AppendSetting(section, key, value);
        return true;
      }
      SetInSection(sectionPos.value + |Header(section)|, key, value);
      return true;
    }

    method SetInSection(from: nat, key: string, value: string)
      requires from <= |content|
      modifies this
      ensures content == SetAfter(old(content), from, key, value)
    {
      hide Find, SectionEnd, KeyPrefix, ReplaceLine, InsertLine;
      var keyPos := Find(content, KeyPrefix(key), from);
      if keyPos.Some? && keyPos.value < SectionEnd(content, from) {
        ReplaceSetting(keyPos.value, key, value);
      } else {
        InsertSetting(from, key, value);
      }
    }

    method AppendSetting(section: string, key: string, value: string)
      requires content != ""
      modifies this
      ensures content == AppendSection(old(content), section, key, value)
    {
      hide Format, Header, KeyPrefix;
      if content[|content| - 1] != '\n' {
        content := content + "\n";
      }
      var newValue := FormatValue("", value);
      content := content + ("\n" + Header(section) + "\n" + KeyPrefix(key) + newValue + "\n");
    }

    method ReplaceSetting(at: nat, key: string, value: string)
      requires at + |KeyPrefix(key)| <= |content|
      modifies this
      ensures content == ReplaceLine(old(content), at, key, value)
    {
      hide Find, LineEnd, Format, KeyPrefix;
      var start, end := at + |KeyPrefix(key)|, LineEnd(content, at);
      var existing := if start <= end then content[start..end] else content[start..];
      var newValue := FormatValue(existing, value);
      content := content[..at] + KeyPrefix(key) + newValue + content[end..];
    }

    method InsertSetting(from: nat, key: string, value: string)
      requires from <= |content|
      modifies this
      ensures content == InsertLine(old(content), from, key, value)
    {
      hide Find, Format, KeyPrefix;
      var at := if from < |content| && content[from] == '\n' then from + 1 else from;
      var newValue := FormatValue("", value);
      content := content[..at] + KeyPrefix(key) + newValue + "\n" + content[at..];
    }

    method AddAutoload(name: string, path: string) returns (ok: bool)
      modifies this
      ensures var r := AddText(old(content), name, path);
        ok == r.Some? && content == if ok then r.value else old(content)
    {
      ok := SetProjectSetting(AUTOLOAD, name, "\"" + path + "\"");
    }

    method RemoveAutoload(name: string) returns (ok: bool)
      modifies this
      ensures var r := RemoveText(old(content), name);
        ok == r.Some? && content == if ok then r.value else old(content)
    {
      hide Find, LineEnd, Header, KeyPrefix;
      var sectionPos := Find(content, Header(AUTOLOAD), 0);
      if sectionPos.None? {
        return false;
      }
      var from := sectionPos.value + |Header(AUTOLOAD)|;
      var keyPos := Find(content, KeyPrefix(name), from);
      if keyPos.None? {
        return false;
      }
      var nextSection := Find(content, "\n[", from);
      if nextSection.Some? && keyPos.value > nextSection.value {
        return false;
      }
      EraseSetting(keyPos.value);
      return true;
    }

    method EraseSetting(k: nat)
      requires k <= |content|
      modifies this
      ensures content == EraseLine(old(content), k)
    {
      hide LineEnd;
      var start := k;
      if start > 0 && content[start - 1] == '\n' {
        start := start - 1;
      }
      var end := LineEnd(content, k);
      if end < |content| {
        end := end + 1;
      }
      content := content[..start] + content[end..];
    }
  }

  ghost function AddText(content: string, name: string, path: string): Option<string> {
    SetText(content, AUTOLOAD, name, "\"" + path + "\"")
  }
}
