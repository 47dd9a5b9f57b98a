/** Byte-string searching and trimming, as `std::string` provides it. A byte is a `char`. */
module ByteText {
  import opened Wrappers

  predicate OccursAt(s: string, p: string, i: nat) {
    i + |p| <= |s| && s[i..i + |p|] == p
  }

  lemma OccursIf(t: string, p: string, j: nat)
    requires j + |p| <= |t| && t[j..j + |p|] == p
    ensures OccursAt(t, p, j)
  {
  }

  /** `s.find(p, from)`: the least position from `from` on where `p` occurs. */
  function Find(s: string, p: string, from: nat): (r: Option<nat>)
    ensures r.Some? ==> from <= r.value && OccursAt(s, p, r.value)
    ensures r.Some? ==> forall j: nat :: from <= j < r.value ==> !OccursAt(s, p, j)
    ensures r.None? ==> forall j: nat :: from <= j ==> !OccursAt(s, p, j)
    decreases |s| - from
  {
    if from + |p| > |s| then None
    else if OccursAt(s, p, from) then Some(from)
    else Find(s, p, from + 1)
  }

  lemma FindIs(s: string, p: string, from: nat, i: nat)
    requires from <= i && OccursAt(s, p, i)
    requires forall j: nat :: from <= j < i ==> !OccursAt(s, p, j)
    ensures Find(s, p, from) == Some(i)
  {
    hide Find;
  }

  lemma FindIsNone(s: string, p: string, from: nat)
    requires forall j: nat :: from <= j ==> !OccursAt(s, p, j)
    ensures Find(s, p, from) == None
  {
    hide Find;
  }

  lemma FindBounds(s: string, p: string, from: nat)
    ensures Find(s, p, from).Some? ==> Find(s, p, from).value + |p| <= |s|
  {
    hide Find;
  }

  lemma NotHere(t: string, c: char, j: nat)
    requires j < |t| && t[j] != c
    ensures !OccursAt(t, [c], j)
  {
    assert t[j..j + 1] == [t[j]];
  }

  /** Searching for a single byte. */
  lemma FindByte(a: string, c: char, b: string)
    requires c !in a
    ensures Find(a + [c] + b, [c], 0) == Some(|a|)
    ensures (a + [c] + b)[..|a|] == a && (a + [c] + b)[|a| + 1..] == b
  {
    hide Find, OccursAt;
    var t := a + [c] + b;
    forall j: nat | j < |a|
      ensures !OccursAt(t, [c], j)
    {
      assert t[j] == a[j];
      NotHere(t, c, j);
    }
    assert OccursAt(t, [c], |a|) by { ByteHere(t, c, |a|); }
    FindIs(t, [c], 0, |a|);
  }

  lemma ByteHere(t: string, c: char, j: nat)
    requires j < |t| && t[j] == c
    ensures OccursAt(t, [c], j)
  {
    assert t[j..j + 1] == [t[j]];
  }

  lemma FindNoByte(t: string, c: char)
    requires c !in t
    ensures Find(t, [c], 0) == None
  {
    hide Find;
    forall j: nat
      ensures !OccursAt(t, [c], j)
    {
      if j < |t| {
        NotHere(t, c, j);
      }
    }
    FindIsNone(t, [c], 0);
  }

  lemma OccursInSuffix(s: string, p: string, start: nat, i: nat)
    requires start <= i && start <= |s|
    ensures OccursAt(s, p, i) <==> OccursAt(s[start..], p, i - start)
  {
    if i + |p| <= |s| {
      assert s[start..][i - start..i - start + |p|] == s[i..i + |p|];
    }
  }

  /** Searching a suffix finds the same place, counted from where the suffix begins. */
  lemma FindInSuffix(s: string, p: string, start: nat, from: nat)
    requires start <= from <= |s|
    ensures var r := Find(s[start..], p, from - start);
      Find(s, p, from) == if r.None? then None else Some(start + r.value)
  {
    hide *;
    var r, q := Find(s[start..], p, from - start), Find(s, p, from);
    if r.Some? {
      OccursInSuffix(s, p, start, start + r.value);
    }
    if q.Some? {
      OccursInSuffix(s, p, start, q.value);
    }
  }

  predicate StartsWith(s: string, p: string) {
    |p| <= |s| && s[..|p|] == p
  }

  predicate EndsWith(s: string, p: string) {
    |p| <= |s| && s[|s| - |p|..] == p
  }

  /** The set " \t\r\n" every trimming loop of the source uses. */
  predicate IsSpace(c: char) {
    c == ' ' || c == '\t' || c == '\r' || c == '\n'
  }

  predicate IsDigit(c: char) {
    '0' <= c <= '9'
  }

  predicate AllSpace(s: string) {
    forall i :: 0 <= i < |s| ==> IsSpace(s[i])
  }

  function SkipSpace(buf: string): (r: nat)
    ensures r <= |buf|
    ensures forall k :: 0 <= k < r ==> IsSpace(buf[k])
    ensures r < |buf| ==> !IsSpace(buf[r])
  {
    if buf == "" || !IsSpace(buf[0]) then 0
    else
      var n := SkipSpace(buf[1..]);
      assert forall k :: 1 <= k < 1 + n ==> buf[k] == buf[1..][k - 1];
      1 + n
  }

  lemma SkipSpaceConcat(spaces: string, buf: string)
    requires AllSpace(spaces)
    ensures SkipSpace(spaces + buf) == |spaces| + SkipSpace(buf)
  {
    if spaces == "" {
      assert spaces + buf == buf;
    } else {
      assert (spaces + buf)[1..] == spaces[1..] + buf;
      SkipSpaceConcat(spaces[1..], buf);
    }
  }

  function TrimRight(s: string): (r: string)
    ensures r <= s
    ensures r == "" || !IsSpace(r[|r| - 1])
  {
    if s == "" || !IsSpace(s[|s| - 1]) then s else TrimRight(s[..|s| - 1])
  }

  function Trim(s: string): string {
    TrimRight(s[SkipSpace(s)..])
  }

  lemma TrimOfTrimmed(s: string)
    requires s != "" && !IsSpace(s[0]) && !IsSpace(s[|s| - 1])
    ensures Trim(s) == s
  {
    assert SkipSpace(s) == 0 && s[0..] == s;
  }
}
