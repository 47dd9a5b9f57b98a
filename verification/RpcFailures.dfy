/** What the client makes of replies that are not whole: every error, and when exactly it is reported. */
module RpcFailures {
  import opened Wrappers
  import opened ByteText
  import opened RpcClient

  ghost predicate AreFull(pieces: seq<string>) {
    forall p :: p in pieces ==> p != ""
  }

  lemma NotYet(s: string, t: string)
    requires s <= t && Find(t, "\r\n\r\n", 0).None?
    ensures Find(s, END, 0).None?
  {
    hide Find;
    forall j: nat
      ensures !OccursAt(s, END, j)
    {
      if j + 4 <= |s| {
        assert s[j..j + 4] == t[j..j + 4];
        assert !OccursAt(t, END, j);
      }
    }
    FindIsNone(s, END, 0);
  }

  /** Receiving goes on until nothing comes any more, or fifty pieces have come. */
  lemma {:induction false} SearchesOn(pieces: seq<string>, k: nat)
    requires Find(Concat(pieces), "\r\n\r\n", 0).None? && k <= 50 && k <= |pieces|
    requires pieces != [] ==> |pieces[0]| >= 4
    ensures ReadHeaders(After(pieces, k), pieces[k..], k)
         == NotFound(if |pieces| < 50 then HeaderTimeout else NoTerminator)
    decreases 50 - k
  {
    hide After, Concat, Find, ReadHeaders;
    if k == 50 {
      HeadersEnd(After(pieces, k), pieces[k..]);
    } else if k == |pieces| {
      NothingComes(After(pieces, k), k);
      assert pieces[k..] == [];
    } else {
      AfterNext(pieces, k);
      AfterIsPrefix(pieces, 1, k + 1);
      AfterNext(pieces, 0);
      AfterAll(pieces);
      assert pieces[k..][0] == pieces[k] && pieces[k..][1..] == pieces[k + 1..];
      HeadersStep(After(pieces, k), pieces[k..], k);
      AfterIsPrefix(pieces, k + 1, k + 1);
      NotYet(After(pieces, k + 1), Concat(pieces));
      SearchesOn(pieces, k + 1);
    }
  }

  lemma NothingComes(buf: string, k: nat)
    requires k < 50
    ensures ReadHeaders(buf, [], k) == NotFound(HeaderTimeout)
  {
  }

  lemma ReplyFinishes(pieces: seq<string>, overflow: int)
    ensures ReadReply(pieces, overflow) == Finish(ReadHeaders(After(pieces, 0), pieces[0..], 0), overflow)
  {
    AfterAll(pieces);
    assert pieces[0..] == pieces;
    hide Finish, ReadHeaders, After;
  }

  lemma FirstTooShort(pieces: seq<string>, overflow: int)
    requires pieces == [] || |pieces[0]| < 4
    ensures ReadReply(pieces, overflow) == Failed(HeaderTimeout)
  {
    if pieces != [] {
      assert "" + pieces[0] == pieces[0];
    }
    hide ContentLength, ReadBody;
  }

  lemma FailedHeaders(e: Error, overflow: int)
    ensures Finish(NotFound(e), overflow) == Failed(e)
  {
  }

  /** Without a blank line in all that comes, the headers never end. */
  lemma NoBlankLine(pieces: seq<string>, overflow: int)
    requires Find(Concat(pieces), "\r\n\r\n", 0).None?
    ensures ReadReply(pieces, overflow)
         == Failed(if |pieces| >= 50 && |pieces[0]| >= 4 then NoTerminator else HeaderTimeout)
  {
    hide *;
    if pieces == [] || |pieces[0]| < 4 {
      FirstTooShort(pieces, overflow);
    } else {
      ReplyFinishes(pieces, overflow);
      SearchesOn(pieces, 0);
      FailedHeaders(if |pieces| < 50 then HeaderTimeout else NoTerminator, overflow);
    }
  }

  /** The headers have come whole, and in time. */
  ghost predicate HeadersCome(pieces: seq<string>, h: string) {
    && AreHeaders(h) && h + END <= Concat(pieces) && AreFull(pieces)
    && pieces != [] && |pieces[0]| >= 4 && |After(pieces, 50)| >= |h| + 4
  }

  lemma HeadersFound(h: string, pieces: seq<string>, overflow: int) returns (m: nat)
    requires HeadersCome(pieces, h)
    ensures m <= 50 && m <= |pieces| && |After(pieces, m)| >= |h| + 4 && After(pieces, m)[..|h|] == h
    ensures ReadReply(pieces, overflow) == Finish(Found(|h|, After(pieces, m), pieces[m..], m), overflow)
  {
    AfterAll(pieces);
    hide ReadHeaders, Finish, Concat, After, AreHeaders, Find;
    ReplyFinishes(pieces, overflow);
    m := HeaderPhase(h, pieces, 0);
    AfterIsPrefix(pieces, m, m);
    SamePrefix(h, After(pieces, m), Concat(pieces));
  }

  lemma SamePrefix(h: string, s: string, t: string)
    requires h + END <= t && s <= t && |h| <= |s|
    ensures s[..|h|] == h
  {
    assert s[..|h|] == t[..|h|] == (h + END)[..|h|];
  }

  /** Headers that announce no length, or none that a body could have. */
  lemma BadHeaders(h: string, pieces: seq<string>, overflow: int)
    requires HeadersCome(pieces, h)
    ensures Find(h, "Content-Length:", 0).None? && Find(h, "content-length:", 0).None? ==>
      ReadReply(pieces, overflow) == Failed(NoLength)
    ensures ContentLength(h, overflow).Some? && ContentLength(h, overflow).value <= 0 ==>
      ReadReply(pieces, overflow) == Failed(BadLength)
  {
    hide *;
    var m := HeadersFound(h, pieces, overflow);
    FinishRefuses(|h|, After(pieces, m), pieces[m..], m, overflow);
    if Find(h, "Content-Length:", 0).None? && Find(h, "content-length:", 0).None? {
      NoField(h, overflow);
    }
  }

  lemma FinishRefuses(at: nat, buf: string, left: seq<string>, safety: nat, overflow: int)
    requires at + 4 <= |buf|
    ensures var length, r := ContentLength(buf[..at], overflow), Finish(Found(at, buf, left, safety), overflow);
      && (length.None? ==> r == Failed(NoLength))
      && (length.Some? && length.value <= 0 ==> r == Failed(BadLength))
      && (length.Some? && length.value > 0 ==>
            var body := ReadBody(buf, left, safety, at + 4 + length.value);
            && (body.None? ==> r == Failed(BodyTimeout))
            && (body.Some? && |body.value| < at + 4 + length.value ==> r == Reply(body.value[at + 4..])))
  {
    hide ContentLength, ReadBody;
  }

  lemma NoField(h: string, overflow: int)
    requires Find(h, "Content-Length:", 0).None? && Find(h, "content-length:", 0).None?
    ensures ContentLength(h, overflow) == None
  {
    hide Find;
  }

  /** A body that does not come to its end: what there is once five hundred pieces have come, else a time-out. */
  lemma {:induction false} BodyEnds(pieces: seq<string>, k: nat, need: nat)
    requires k <= 500 && k <= |pieces| && need > |Concat(pieces)| && AreFull(pieces)
    ensures ReadBody(After(pieces, k), pieces[k..], k, need)
         == if |pieces| < 500 then None else Some(After(pieces, 500))
    decreases 500 - k
  {
    AfterIsPrefix(pieces, k, k);
    assert k < |pieces| ==> pieces[k..][0] == pieces[k] && pieces[k] in pieces;
    BodyStep(After(pieces, k), pieces[k..], k, need);
    hide After, Concat, ReadBody;
    if k == 500 || k == |pieces| {
    } else {
      AfterNext(pieces, k);
      assert pieces[k..][1..] == pieces[k + 1..] && pieces[k..][0] == pieces[k] && pieces[k] in pieces;
      BodyEnds(pieces, k + 1, need);
    }
  }

  lemma BodyStep(buf: string, left: seq<string>, safety: nat, need: nat)
    requires |buf| < need && safety <= 500 && (left != [] ==> left[0] != "")
    ensures ReadBody(buf, left, safety, need) ==
      if safety == 500 then Some(buf)
      else if left == [] then None
      else ReadBody(buf + left[0], left[1..], safety + 1, need)
  {
  }

  /**
   A connection that ends before the body does is reported as a time-out; but once five hundred pieces have come, the
   part of the body among them is returned as if it were whole.
   */
  lemma CutBody(h: string, length: nat, pieces: seq<string>, overflow: int)
    requires HeadersCome(pieces, h) && ContentLength(h, overflow) == Some(length) && |Concat(pieces)| < |h| + 4 + length
    ensures |pieces| < 500 ==> ReadReply(pieces, overflow) == Failed(BodyTimeout)
    ensures |pieces| >= 500 ==>
      && |h| + 4 <= |After(pieces, 500)|
      && ReadReply(pieces, overflow) == Reply(After(pieces, 500)[|h| + 4..])
  {
    hide *;
    var m := HeadersFound(h, pieces, overflow);
    PiecesAreFull(pieces, h);
    AfterIsPrefix(pieces, m, 500);
    AfterIsPrefix(pieces, m, m);
    BodyEnds(pieces, m, |h| + 4 + length);
    FinishRefuses(|h|, After(pieces, m), pieces[m..], m, overflow);
  }

  lemma PiecesAreFull(pieces: seq<string>, h: string)
    requires HeadersCome(pieces, h)
    ensures AreFull(pieces)
  {
    hide AreHeaders, Concat, After, AreFull;
  }

  // ---------- The frame, byte by byte ----------

  lemma TwoIsDecimal()
    ensures Decimal(0) == "0" && Decimal(2) == "2" && Decimal(10) == "10"
  {
    assert Decimal(10) == Decimal(1) + [DigitChar(0)];
  }

  lemma SmallTexts()
    ensures "Content-Length:" + " " + "0" == "Content-Length: 0"
    ensures "content-length:" + "\t" + "10" == "content-length:\t10"
  {
  }

  lemma FrameText()
    ensures FIELD + " " + "2" + END + "{}" == "Content-Length: 2\r\n\r\n{}"
  {
    assert FIELD + " " + "2" == "Content-Length: 2";
  }

  /** The frame of an empty object, and other lengths as they are found. */
  lemma SmallFrame(overflow: int)
    ensures Frame("{}") == "Content-Length: 2\r\n\r\n{}"
    ensures ContentLength("content-length:\t10", overflow) == Some(10)
    ensures ContentLength("Content-Length: 0", overflow) == Some(0)
  {
    TwoIsDecimal();
    FrameText();
    hide Decimal, ContentLength;
    OneField("Content-Length:", " ", 0, overflow);
    OneField("content-length:", "\t", 10, overflow);
    SmallTexts();
    hide *;
    FrameIs("{}");
  }

  lemma FrameIs(body: string)
    ensures Frame(body) == FIELD + " " + Decimal(|body|) + END + body
  {
  }

  lemma OneField(name: string, indent: string, n: nat, overflow: int)
    requires name == "Content-Length:" || name == "content-length:"
    requires (indent == " " || indent == "\t") && n <= 10
    ensures ContentLength(name + indent + Decimal(n), overflow) == Some(n)
  {
    hide Find, ContentLength, Decimal;
    var line := name + indent + Decimal(n);
    assert LengthLine(name, indent, n, "") == line + "" == line;
    assert [] + [line] + [] == [line];
    if name == "content-length:" {
      NoCapital(line);
    }
    ContentLengthIs([], name, indent, n, "", [], overflow);
    OnlyLine(line);
  }

  lemma NoCapital(line: string)
    requires 'C' !in line
    ensures Lacks(line, FIELD)
  {
    hide Find;
    forall j: nat
      ensures !OccursAt(line, FIELD, j)
    {
      if j + |FIELD| <= |line| {
        Mismatch(line, FIELD, j, 0);
      }
    }
    FindIsNone(line, FIELD, 0);
  }
}
