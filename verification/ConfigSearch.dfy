/** Where the substring searches of the settings editor land on text made of lines. */
module ConfigSearch {
  import opened Wrappers
  import opened ByteText
  import opened ConfigText
  import opened ConfigReader

  predicate Contains(line: string, p: string) {
    Find(line, p, 0).Some?
  }

  predicate NoneContains(lines: seq<string>, p: string) {
    forall i :: 0 <= i < |lines| ==> !Contains(lines[i], p)
  }

  /** A pattern without a newline that no line contains does not occur where the lines are. */
  lemma {:induction false} NotInLines(lines: seq<string>, p: string, rest: string, j: nat)
    requires AreLines(lines) && NoneContains(lines, p) && p != "" && '\n' !in p
    requires j < |Join(lines)|
    ensures !OccursAt(Join(lines) + rest, p, j)
    decreases |lines|
  {
    var line, later := lines[0], Join(lines[1..]) + rest;
    var t := line + "\n" + later;
    assert Join(lines) + rest == t;
    assert '\n' !in line && !Contains(line, p);
    hide *;
    if j + |p| <= |line| {
      NotInOneLine(line, p, "\n" + later, j);
      assert line + ("\n" + later) == t;
    } else if j <= |line| {
      assert t[|line|] == '\n';
      SpansNewline(t, p, j, |line|);
    } else {
      LinesAfter(lines, p);
      LineShift(line, lines[1..], rest, p, j);
      NotInLines(lines[1..], p, rest, j - |line| - 1);
    }
  }

  lemma NotInOneLine(line: string, p: string, rest: string, j: nat)
    requires !Contains(line, p) && j + |p| <= |line|
    ensures !OccursAt(line + rest, p, j)
  {
    hide Find;
    assert (line + rest)[j..j + |p|] == line[j..j + |p|];
    assert !OccursAt(line, p, j);
  }

  lemma SpansNewline(t: string, p: string, j: nat, n: nat)
    requires j <= n < j + |p| && n < |t| && t[n] == '\n' && '\n' !in p
    ensures !OccursAt(t, p, j)
  {
    if j + |p| <= |t| {
      assert t[j..j + |p|][n - j] == '\n';
    }
  }

  lemma LinesAfter(lines: seq<string>, p: string)
    requires lines != [] && AreLines(lines) && NoneContains(lines, p)
    ensures AreLines(lines[1..]) && NoneContains(lines[1..], p)
  {
  }

  lemma LineShift(line: string, lines: seq<string>, rest: string, p: string, j: nat)
    requires j > |line|
    ensures OccursAt(line + "\n" + (Join(lines) + rest), p, j) == OccursAt(Join(lines) + rest, p, j - |line| - 1)
  {
    hide Join;
    var t, u := line + "\n" + (Join(lines) + rest), Join(lines) + rest;
    assert t[|line| + 1..] == u;
    OccursInSuffix(t, p, |line| + 1, j);
  }

  /** The header is found where it stands when no line before it contains it. */
  lemma FindAfterLines(lines: seq<string>, p: string, rest: string)
    requires AreLines(lines) && NoneContains(lines, p) && p != "" && '\n' !in p
    ensures Find(Join(lines) + (p + rest), p, 0) == Some(|Join(lines)|)
  {
    hide *;
    var t := Join(lines) + (p + rest);
    forall j: nat | j < |Join(lines)|
      ensures !OccursAt(t, p, j)
    {
      NotInLines(lines, p, p + rest, j);
    }
    assert t[|Join(lines)|..|Join(lines)| + |p|] == p;
    OccursIf(t, p, |Join(lines)|);
    FindIs(t, p, 0, |Join(lines)|);
  }

  /** None of the lines begins like a header. */
  predicate NoneOpens(lines: seq<string>) {
    forall i :: 0 <= i < |lines| ==> lines[i] == "" || lines[i][0] != '['
  }

  lemma {:induction false} NoHeaderIn(lines: seq<string>, rest: string, j: nat)
    requires AreLines(lines) && NoneOpens(lines) && j < |Join(lines)|
    ensures !OccursAt("\n" + (Join(lines) + rest), "\n[", j)
    decreases |lines|
  {
    var line, later := lines[0], Join(lines[1..]) + rest;
    var t := "\n" + (line + "\n" + later);
    assert "\n" + (Join(lines) + rest) == t;
    assert '\n' !in line && (line == "" || line[0] != '[');
    hide *;
    if j == 0 {
      assert t[1] == if line == "" then '\n' else line[0];
      NotAHeaderHere(t, 0);
    } else if j <= |line| {
      assert t[j] == line[j - 1];
      NotAHeaderHere(t, j);
    } else {
      assert t[|line| + 1..] == "\n" + later;
      OccursInSuffix(t, "\n[", |line| + 1, j);
      OpensAfter(lines);
      JoinUnfold(lines);
      NoHeaderIn(lines[1..], rest, j - |line| - 1);
    }
  }

  lemma NotAHeaderHere(t: string, j: nat)
    requires j + 1 < |t| && (t[j] != '\n' || t[j + 1] != '[')
    ensures !OccursAt(t, "\n[", j)
  {
    if j + 2 <= |t| {
      assert t[j..j + 2] == [t[j], t[j + 1]];
    }
  }

  lemma OpensAfter(lines: seq<string>)
    requires lines != [] && AreLines(lines) && NoneOpens(lines)
    ensures AreLines(lines[1..]) && NoneOpens(lines[1..])
  {
  }

  lemma JoinUnfold(lines: seq<string>)
    requires lines != []
    ensures Join(lines) == lines[0] + "\n" + Join(lines[1..])
  {
  }

  lemma {:induction false} JoinEnds(lines: seq<string>)
    ensures Join(lines) == "" || Join(lines)[|Join(lines)| - 1] == '\n'
    decreases |lines|
  {
    if lines == [] {
    } else {
      JoinEnds(lines[1..]);
    }
  }

  /** The section ends where the next header begins, or with the file. */
  lemma SectionEndIs(content: string, from: nat, lines: seq<string>, rest: string)
    requires AreLines(lines) && NoneOpens(lines)
    requires from <= |content| && content[from..] == "\n" + (Join(lines) + rest)
    requires rest == "" || rest[0] == '['
    ensures SectionEnd(content, from) == if rest == "" then |content| else from + |Join(lines)|
  {
    JoinEnds(lines);
    hide Join, Find, OccursAt, AreLines, NoneOpens;
    var r, n := content[from..], |Join(lines)|;
    FindInSuffix(content, "\n[", from, from);
    forall j: nat | j < n
      ensures !OccursAt(r, "\n[", j)
    {
      NoHeaderIn(lines, rest, j);
    }
    assert r[n] == '\n';
    if rest == "" {
      assert |r| == n + 1;
      LastByteOpensNothing(r, n);
    } else {
      assert r[n..n + 2] == "\n[" by { assert r[n] == '\n' && r[n + 1] == '['; }
      OccursIf(r, "\n[", n);
      FindIs(r, "\n[", 0, n);
    }
  }

  lemma LastByteOpensNothing(r: string, n: nat)
    requires |r| == n + 1 && forall j: nat :: j < n ==> !OccursAt(r, "\n[", j)
    ensures Find(r, "\n[", 0) == None
  {
    hide Find;
    FindIsNone(r, "\n[", 0);
  }

  /** The key of the first line that begins with it is what the search finds. */
  lemma KeyFound(content: string, from: nat, before: seq<string>, p: string, rest: string)
    requires AreLines(before) && NoneContains(before, p) && p != "" && '\n' !in p
    requires from <= |content| && content[from..] == "\n" + (Join(before) + (p + rest))
    ensures Find(content, p, from) == Some(from + 1 + |Join(before)|)
  {
    hide *;
    var r, u := content[from..], Join(before) + (p + rest);
    FindInSuffix(content, p, from, from);
    FindAfterLines(before, p, rest);
    FindAfterNewline(r, u, p, |Join(before)|);
  }

  lemma FindAfterNewline(r: string, u: string, p: string, n: nat)
    requires r == "\n" + u && p != "" && p[0] != '\n' && Find(u, p, 0) == Some(n)
    ensures Find(r, p, 0) == Some(n + 1)
  {
    hide Find;
    assert r[1..] == u;
    FindInSuffix(r, p, 1, 1);
    SpansStart(r, p);
    FindIs(r, p, 0, n + 1);
  }

  lemma SpansStart(r: string, p: string)
    requires r != "" && p != "" && r[0] != p[0]
    ensures !OccursAt(r, p, 0)
  {
    if |p| <= |r| {
      assert r[0..|p|][0] == r[0];
    }
  }

  /** When no line of the section contains the key, the search runs past the section. */
  lemma KeyNotFound(content: string, from: nat, lines: seq<string>, p: string, rest: string)
    requires AreLines(lines) && NoneContains(lines, p) && p != "" && '\n' !in p
    requires from <= |content| && content[from..] == "\n" + (Join(lines) + rest)
    ensures var f := Find(content, p, from); f.None? || f.value >= from + 1 + |Join(lines)|
    ensures rest == "" ==> Find(content, p, from).None?
  {
    hide *;
    var r, u := content[from..], Join(lines) + rest;
    assert r[1..] == u && r[0] == '\n';
    FindInSuffix(content, p, from, from);
    var f := Find(r, p, 0);
    forall j: nat | j < 1 + |Join(lines)|
      ensures !OccursAt(r, p, j)
    {
      if j == 0 {
        SpansStart(r, p);
      } else {
        OccursInSuffix(r, p, 1, j);
        NotInLines(lines, p, rest, j - 1);
      }
    }
    FindBounds(r, p, 0);
  }
}
