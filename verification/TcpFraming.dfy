/**
 The incremental JSON framer of the TCP server: a per-connection byte buffer from which
 depth-balanced `{...}` objects are cut as soon as their last byte has arrived.
 */
module TcpFraming {
  import opened Wrappers
  import opened ByteText

  // ---------- Scanning ----------

  datatype Scan = Scan(depth: int, inString: bool, escaped: bool)

  const START := Scan(0, false, false)

  function Step(st: Scan, c: char): Scan {
    if st.escaped then st.(escaped := false)
    else if c == '\\' then st.(escaped := true)
    else if c == '"' then st.(inString := !st.inString)
    else if st.inString then st
    else if c == '{' then st.(depth := st.depth + 1)
    else if c == '}' then st.(depth := st.depth - 1)
    else st
  }

  /** The state after scanning all of `s`. */
  function ScanAll(st: Scan, s: string): Scan {
    if s == "" then st else Step(ScanAll(st, s[..|s| - 1]), s[|s| - 1])
  }

  lemma {:induction false} ScanAllConcat(st: Scan, s: string, t: string)
    ensures ScanAll(st, s + t) == ScanAll(ScanAll(st, s), t)
    decreases |t|
  {
    if t == "" {
      assert s + t == s;
    } else {
      ScanAllConcat(st, s, t[..|t| - 1]);
      assert (s + t)[..|s + t| - 1] == s + t[..|t| - 1];
    }
  }

  /** A byte string that opens with `{` and first returns to depth 0 on its last byte. */
  ghost predicate IsMessage(m: string) {
    && StartsWith(m, "{")
    && ScanAll(START, m).depth == 0
    && forall k :: 0 < k < |m| ==> ScanAll(START, m[..k]).depth > 0
  }

  lemma NothingScanned(st: Scan)
    ensures ScanAll(st, "") == st
  {
  }

  lemma ScanStep(st: Scan, buf: string, i: nat)
    requires i < |buf|
    ensures ScanAll(st, buf[..i + 1]) == Step(ScanAll(st, buf[..i]), buf[i])
  {
    assert buf[..i + 1][..i] == buf[..i];
  }

  lemma NoShorterMessage(m: string, k: nat)
    requires IsMessage(m) && k < |m|
    ensures !IsMessage(m[..k])
  {
    assert k == 0 || ScanAll(START, m[..k]).depth > 0;
  }

  lemma ClosedHere(t: string, i: nat)
    requires i < |t| && t[0] == '{'
    requires ScanAll(START, t[..i + 1]).depth == 0
    requires forall k :: 0 < k <= i ==> ScanAll(START, t[..k]).depth > 0
    ensures IsMessage(t[..i + 1])
  {
    var m := t[..i + 1];
    forall k | 0 < k < |m|
      ensures ScanAll(START, m[..k]).depth > 0
    {
      assert m[..k] == t[..k];
    }
  }

  // ---------- Cutting one message ----------

  datatype Cut = Cut(msg: string, rest: string)

  /** The length of the message `t` begins with, if all of it has arrived. */
  ghost function MessageLength(t: string): (r: Option<nat>)
    ensures r.Some? ==> r.value <= |t| && IsMessage(t[..r.value])
    ensures r.None? ==> forall n: nat :: n <= |t| ==> !IsMessage(t[..n])
  {
    if n: nat :| n <= |t| && IsMessage(t[..n]) then
      var n: nat :| n <= |t| && IsMessage(t[..n]); Some(n)
    else None
  }

  lemma MessageLengthIs(t: string, n: nat)
    requires n <= |t| && IsMessage(t[..n])
    ensures MessageLength(t) == Some(n)
  {
    var found := MessageLength(t).value;
    var shorter, longer := if n < found then n else found, if n < found then found else n;
    assert t[..longer][..shorter] == t[..shorter];
    if shorter < longer {
      NoShorterMessage(t[..longer], shorter);
    }
  }

  lemma NothingClosed(t: string)
    requires forall k :: 0 < k <= |t| ==> ScanAll(START, t[..k]).depth > 0
    ensures MessageLength(t).None?
  {
    forall n: nat | n <= |t|
      ensures !IsMessage(t[..n])
    {
      assert n == 0 || ScanAll(START, t[..n]).depth > 0;
    }
  }

  /** What one call of `extract_next_message` returns and leaves behind, garbage included. */
  ghost function Extract(buf: string): (r: Cut)
    ensures r.msg != "" ==> IsMessage(r.msg) && |r.rest| < |buf|
  {
    var t := buf[SkipSpace(buf)..];
    if t == "" then Cut("", "")
    else if t[0] != '{' then
      match Find(t, "\n", 0)
      case None => Cut("", "")
      case Some(nl) => Cut("", t[nl + 1..])
    else
      match MessageLength(t)
      case None => Cut("", t)
      case Some(n) => Cut(t[..n], t[n..])
  }

  datatype Drained = Drained(msgs: seq<string>, rest: string)

  /** What the inner loop hands to the handler before it stops, and what it keeps. */
  ghost function Drain(buf: string): Drained
    decreases |buf|
  {
    var c := Extract(buf);
    if c.msg == "" then Drained([], c.rest)
    else
      var d := Drain(c.rest);
      Drained([c.msg] + d.msgs, d.rest)
  }

  /** The scan for the `}` that closes the object opened at `start`. */
  method ScanForEnd(buf: string, start: nat) returns (end: Option<nat>)
    requires start < |buf| && buf[start] == '{'
    ensures MessageLength(buf[start..]) == if end.None? then None else Some(end.value + 1 - start)
    ensures end.Some? ==> start <= end.value < |buf|
  {
    hide IsMessage, ScanAll, MessageLength;
    ghost var t := buf[start..];
    var depth, inString, escaped := 0, false, false;
    NothingScanned(START);
    end := None;
    var i := start;
    while i < |buf|
      invariant start <= i <= |buf|
      invariant end.None?
      invariant Scan(depth, inString, escaped) == ScanAll(START, t[..i - start])
      invariant forall k :: 0 < k <= i - start ==> ScanAll(START, t[..k]).depth > 0
    {
      var ch := buf[i];
      ScanStep(START, t, i - start);
      if escaped {
        escaped := false;
      } else if ch == '\\' {
        escaped := true;
      } else if ch == '"' {
        inString := !inString;
      } else if inString {
      } else if ch == '{' {
        depth := depth + 1;
      } else if ch == '}' {
        depth := depth - 1;
        if depth == 0 {
          ClosedHere(t, i - start);
          MessageLengthIs(t, i + 1 - start);
          end := Some(i);
          return;
        }
      }
      i := i + 1;
    }
    NothingClosed(t);
  }

  lemma DrainUnfold(buf: string)
    ensures var c := Extract(buf);
      Drain(buf) == if c.msg == "" then Drained([], c.rest)
                    else Drained([c.msg] + Drain(c.rest).msgs, Drain(c.rest).rest)
  {
    hide Extract;
  }

  // ---------- The connection ----------

  /** The reply may depend on every message this connection handled before. */
  type Handler = (seq<string>, string) -> string

  /** The non-empty responses, in order, to `msgs` arriving after `history`. */
  function Replies(handler: Handler, history: seq<string>, msgs: seq<string>): seq<string> {
    if msgs == [] then []
    else
      var last := |msgs| - 1;
      var response := handler(history + msgs[..last], msgs[last]);
      Replies(handler, history, msgs[..last]) + if response == "" then [] else [response]
  }

  /** Answering in two goes: the second with the first as its history. */
  lemma {:induction false} RepliesConcat(handler: Handler, history: seq<string>, a: seq<string>, b: seq<string>)
    ensures Replies(handler, history, a + b) == Replies(handler, history, a) + Replies(handler, history + a, b)
    decreases |b|
  {
    hide Replies;
    if b == [] {
      assert a + b == a;
      NoReplies(handler, history + a);
    } else {
      var init, msg := b[..|b| - 1], b[|b| - 1];
      RepliesConcat(handler, history, a, init);
      assert init + [msg] == b && a + b == a + init + [msg] && history + (a + init) == history + a + init;
      RepliesSnoc(handler, history, a + init, msg);
      RepliesSnoc(handler, history + a, init, msg);
    }
  }

  lemma NoReplies(handler: Handler, history: seq<string>)
    ensures Replies(handler, history, []) == []
  {
  }

  lemma RepliesSnoc(handler: Handler, history: seq<string>, msgs: seq<string>, msg: string)
    ensures Replies(handler, history, msgs + [msg])
            == Replies(handler, history, msgs)
               + (var response := handler(history + msgs, msg); if response == "" then [] else [response])
  {
    assert (msgs + [msg])[..|msgs|] == msgs;
  }

  class Connection {
    const handler: Option<Handler>
    var lineBuffer: string
    var handled: seq<string>
    var sent: seq<string>

    constructor (handler: Option<Handler>)
      ensures this.handler == handler && lineBuffer == "" && handled == [] && sent == []
    {
      this.handler := handler;
      lineBuffer, handled, sent := "", [], [];
    }

    /** Cuts the next message out of the buffer, or returns "" after discarding what cannot start one. */
    method ExtractNextMessage() returns (msg: string)
      modifies this`lineBuffer
      ensures Cut(msg, lineBuffer) == Extract(old(lineBuffer))
    {
      hide MessageLength, IsMessage, ScanAll;
      var buf := lineBuffer;
      var start := 0;
      while start < |buf| && IsSpace(buf[start])
        invariant 0 <= start <= |buf|
        invariant forall k :: 0 <= k < start ==> IsSpace(buf[k])
      {
        start := start + 1;
      }
      assert start == SkipSpace(buf);
      if start >= |buf| {
        lineBuffer := "";
        return "";
      }
      if buf[start] != '{' {
        var nl := Find(buf, "\n", start);
        FindInSuffix(buf, "\n", start, start);
        lineBuffer := if nl.None? then "" else buf[nl.value + 1..];
        return "";
      }
      var end := ScanForEnd(buf, start);
      if end.None? {
        msg, lineBuffer := "", buf[start..];
      } else {
        assert buf[start..][..end.value + 1 - start] == buf[start..end.value + 1];
        assert buf[start..][end.value + 1 - start..] == buf[end.value + 1..];
        msg, lineBuffer := buf[start..end.value + 1], buf[end.value + 1..];
      }
    }

    method Respond(msg: string)
      modifies this`handled, this`sent
      ensures handler.Some? ==> handled == old(handled) + [msg]
      ensures handler.Some? ==>
        var response := handler.value(old(handled), msg);
        sent == old(sent) + if response == "" then [] else [response]
      ensures handler.None? ==> handled == old(handled) && sent == old(sent)
    {
      if handler.Some? {
        var response := handler.value(handled, msg);
        if response != "" {
          sent := sent + [response];
        }
        handled := handled + [msg];
      }
    }

    /** One successful `recv` and the drain loop that follows it. */
    method Receive(chunk: string)
      modifies this
      ensures lineBuffer == Drain(old(lineBuffer) + chunk).rest
      ensures handler.Some? ==> handled == old(handled) + Drain(old(lineBuffer) + chunk).msgs
      ensures handler.Some? ==>
        sent == old(sent) + Replies(handler.value, old(handled), Drain(old(lineBuffer) + chunk).msgs)
      ensures handler.None? ==> handled == old(handled) && sent == old(sent)
    {
      lineBuffer := lineBuffer + chunk;
      DrainBuffer();
    }

    method DrainBuffer()
      modifies this
      ensures lineBuffer == Drain(old(lineBuffer)).rest
      ensures handler.Some? ==> handled == old(handled) + Drain(old(lineBuffer)).msgs
      ensures handler.Some? ==>
        sent == old(sent) + Replies(handler.value, old(handled), Drain(old(lineBuffer)).msgs)
      ensures handler.None? ==> handled == old(handled) && sent == old(sent)
    {
      hide Extract, Drain, IsMessage, Replies;
      ghost var whole := Drain(lineBuffer);
      ghost var taken: seq<string> := [];
      ghost var handled0, sent0 := handled, sent;
      if handler.Some? {
        NoReplies(handler.value, handled0);
      }
      while true
        invariant DrainsAs(lineBuffer, taken, whole)
        invariant handler.Some? ==> handled == handled0 + taken
        invariant handler.Some? ==> Answered(handler.value, handled0, taken, sent0, sent)
        invariant handler.None? ==> handled == handled0 && sent == sent0
        decreases |lineBuffer|
      {
        DrainOnce(lineBuffer, taken, whole);
        var msg := ExtractNextMessage();
        if msg == "" {
          break;
        }
        ghost var sentSoFar := sent;
        Respond(msg);
        if handler.Some? {
          AnsweredSnoc(handler.value, handled0, taken, msg, sent0, sentSoFar, sent);
        }
        taken := taken + [msg];
      }
    }

    /** The receive loop: an empty read closes the connection. */
    method ServeClient(net: seq<string>) returns (received: seq<string>)
      requires lineBuffer == "" && handled == [] && sent == []
      modifies this
      ensures received <= net && "" !in received && (received == net || net[|received|] == "")
      ensures handler.Some? ==> Drained(handled, lineBuffer) == Run(received)
      ensures handler.Some? ==> sent == Replies(handler.value, [], handled)
    {
      hide Drain;
      received := [];
      while |received| < |net| && net[|received|] != ""
        invariant received <= net && "" !in received
        invariant handler.Some? ==> Drained(handled, lineBuffer) == Run(received)
        invariant handler.Some? ==> sent == Replies(handler.value, [], handled)
        decreases |net| - |received|
      {
        var chunk := net[|received|];
        assert (received + [chunk])[..|received|] == received;
        if handler.Some? {
          ghost var msgs := Drain(lineBuffer + chunk).msgs;
          RepliesConcat(handler.value, [], handled, msgs);
          assert [] + handled == handled;
        }
        Receive(chunk);
        received := received + [chunk];
      }
    }
  }

  ghost predicate DrainsAs(buf: string, taken: seq<string>, whole: Drained) {
    whole == Drained(taken + Drain(buf).msgs, Drain(buf).rest)
  }

  lemma DrainOnce(buf: string, taken: seq<string>, whole: Drained)
    requires DrainsAs(buf, taken, whole)
    ensures var c := Extract(buf);
      if c.msg == "" then whole == Drained(taken, c.rest)
      else |c.rest| < |buf| && DrainsAs(c.rest, taken + [c.msg], whole)
  {
    hide Extract, Drain, IsMessage;
    var c := Extract(buf);
    DrainUnfold(buf);
    if c.msg == "" {
      assert taken + [] == taken;
    } else {
      assert taken + ([c.msg] + Drain(c.rest).msgs) == taken + [c.msg] + Drain(c.rest).msgs;
    }
  }

  ghost predicate Answered(handler: Handler, history: seq<string>, msgs: seq<string>,
                           before: seq<string>, after: seq<string>)
  {
    after == before + Replies(handler, history, msgs)
  }

  lemma AnsweredSnoc(handler: Handler, history: seq<string>, msgs: seq<string>, msg: string,
                     before: seq<string>, mid: seq<string>, after: seq<string>)
    requires Answered(handler, history, msgs, before, mid)
    requires after == mid + (var response := handler(history + msgs, msg); if response == "" then [] else [response])
    ensures Answered(handler, history, msgs + [msg], before, after)
  {
    RepliesSnoc(handler, history, msgs, msg);
  }

  // ---------- Streams ----------

  datatype Token = Space(c: char) | Message(m: string)

  /** Complete messages separated by white space. */
  ghost predicate IsStream(ts: seq<Token>) {
    forall t <- ts :: if t.Space? then IsSpace(t.c) else IsMessage(t.m)
  }

  function Bytes(t: Token): string {
    if t.Space? then [t.c] else t.m
  }

  function Flatten(ts: seq<Token>): string {
    if ts == [] then "" else Bytes(ts[0]) + Flatten(ts[1..])
  }

  /** The messages whose last byte is among the first `n` bytes of the stream. */
  function Completed(ts: seq<Token>, n: nat): seq<string> {
    if ts == [] || n < |Bytes(ts[0])| then []
    else (if ts[0].Message? then [ts[0].m] else []) + Completed(ts[1..], n - |Bytes(ts[0])|)
  }

  /** The first bytes of the one message that has begun but not ended within the first `n` bytes. */
  function Pending(ts: seq<Token>, n: nat): string {
    if ts == [] then ""
    else if n < |Bytes(ts[0])| then Bytes(ts[0])[..n]
    else Pending(ts[1..], n - |Bytes(ts[0])|)
  }

  lemma ExtractSkipsSpace(spaces: string, buf: string)
    requires AllSpace(spaces)
    ensures Extract(spaces + buf) == Extract(buf)
  {
    SkipSpaceConcat(spaces, buf);
    assert (spaces + buf)[SkipSpace(spaces + buf)..] == buf[SkipSpace(buf)..];
  }

  lemma DrainSkipsSpace(spaces: string, buf: string)
    requires AllSpace(spaces)
    ensures Drain(spaces + buf) == Drain(buf)
  {
    hide *;
    ExtractSkipsSpace(spaces, buf);
    DrainUnfold(spaces + buf);
    DrainUnfold(buf);
  }

  lemma ExtractTakesMessage(m: string, buf: string)
    requires IsMessage(m)
    ensures Extract(m + buf) == Cut(m, buf)
    ensures (m + buf)[SkipSpace(m + buf)..] == m + buf && m != "" && m[0] == '{'
  {
    assert (m + buf)[..|m|] == m && (m + buf)[|m|..] == buf;
    assert m[0] == '{' && SkipSpace(m + buf) == 0;
    assert (m + buf)[0..] == m + buf;
    MessageLengthIs(m + buf, |m|);
  }

  lemma DrainTakesMessage(m: string, buf: string)
    requires IsMessage(m)
    ensures Drain(m + buf) == Drained([m] + Drain(buf).msgs, Drain(buf).rest)
  {
    hide *;
    ExtractTakesMessage(m, buf);
    DrainUnfold(m + buf);
  }

  lemma PartialMessage(m: string, n: nat)
    requires IsMessage(m) && 0 < n < |m|
    ensures SkipSpace(m[..n]) == 0 && m[..n][0] == '{' && m[..n][0..] == m[..n]
    ensures Extract(m[..n]) == Cut("", m[..n])
  {
    var buf := m[..n];
    assert m[0] == '{' && SkipSpace(buf) == 0 && buf[0..] == buf;
    hide SkipSpace;
    forall k: nat | k <= n
      ensures !IsMessage(buf[..k])
    {
      assert buf[..k] == m[..k];
      NoShorterMessage(m, k);
    }
  }

  lemma NothingToSkip()
    ensures SkipSpace("") == 0 && Extract("") == Cut("", "") && Drain("") == Drained([], "")
  {
  }

  /** How the first `n` bytes of a stream begin, and what is left of them. */
  lemma StreamStep(ts: seq<Token>, n: nat)
    requires IsStream(ts) && n <= |Flatten(ts)|
    ensures n == 0 ==> Flatten(ts)[..n] == "" && Completed(ts, n) == [] && Pending(ts, n) == ""
    ensures ts == [] ==> Flatten(ts) == ""
    ensures n > 0 ==>
      var b, k := Bytes(ts[0]), |Bytes(ts[0])|;
      && b != "" && IsStream(ts[1..])
      && (if ts[0].Message? then b == ts[0].m && IsMessage(b) else b == [ts[0].c] && AllSpace(b))
      && if n < k then ts[0].Message? && Flatten(ts)[..n] == b[..n] && Completed(ts, n) == []
          && Pending(ts, n) == b[..n]
         else && n - k <= |Flatten(ts[1..])|
              && Flatten(ts)[..n] == b + Flatten(ts[1..])[..n - k]
              && Completed(ts, n) == (if ts[0].Message? then [b] else []) + Completed(ts[1..], n - k)
              && Pending(ts, n) == Pending(ts[1..], n - k)
  {
    hide IsMessage, ScanAll;
    if ts != [] {
      assert ts[0] in ts;
      var b := Bytes(ts[0]);
      assert ts[0].Message? ==> b != "" by { MessageIsNotEmpty(ts[0]); }
      if n < |b| {
        assert Flatten(ts)[..n] == b[..n];
      } else {
        assert Flatten(ts)[..n] == b + Flatten(ts[1..])[..n - |b|];
      }
    }
  }

  lemma MessageIsNotEmpty(t: Token)
    ensures t.Message? && IsMessage(t.m) ==> t.m != ""
  {
  }

  /** Draining any prefix of a stream from scratch. */
  lemma {:induction false} DrainPrefix(ts: seq<Token>, n: nat)
    requires IsStream(ts) && n <= |Flatten(ts)|
    ensures Drain(Flatten(ts)[..n]) == Drained(Completed(ts, n), Pending(ts, n))
    decreases |ts|
  {
    hide *;
    StreamStep(ts, n);
    if ts == [] || n == 0 {
      NothingToSkip();
    } else {
      var b := Bytes(ts[0]);
      if n < |b| {
        PartialMessage(b, n);
        DrainUnfold(b[..n]);
      } else {
        var later := Flatten(ts[1..])[..n - |b|];
        DrainPrefix(ts[1..], n - |b|);
        if ts[0].Message? {
          DrainTakesMessage(b, later);
        } else {
          DrainSkipsSpace(b, later);
        }
      }
    }
  }

  // ---------- Chunks ----------

  /** The drain of `buf` meets nothing but white space, messages and one message not yet closed. */
  ghost predicate Clean(buf: string)
    decreases |buf|
  {
    var t, c := buf[SkipSpace(buf)..], Extract(buf);
    && (t == "" || t[0] == '{')
    && (c.msg != "" ==> Clean(c.rest))
  }

  lemma CleanUnfold(buf: string)
    ensures var t, c := buf[SkipSpace(buf)..], Extract(buf);
      && (Clean(buf) <==> (t == "" || t[0] == '{') && (c.msg != "" ==> Clean(c.rest)))
      && ((t == "" || t[0] == '{') && c.msg == "" ==> c.rest == t)
  {
    hide SkipSpace, MessageLength, IsMessage, Find;
  }

  lemma {:induction false} PrefixIsClean(ts: seq<Token>, n: nat)
    requires IsStream(ts) && n <= |Flatten(ts)|
    ensures Clean(Flatten(ts)[..n])
    decreases |ts|
  {
    hide *;
    StreamStep(ts, n);
    CleanUnfold(Flatten(ts)[..n]);
    if ts == [] || n == 0 {
      NothingToSkip();
    } else {
      var b := Bytes(ts[0]);
      if n < |b| {
        PartialMessage(b, n);
      } else {
        var later := Flatten(ts[1..])[..n - |b|];
        PrefixIsClean(ts[1..], n - |b|);
        CleanUnfold(later);
        if ts[0].Message? {
          ExtractTakesMessage(b, later);
        } else {
          ExtractSkipsSpace(b, later);
          SkipSpaceConcat(b, later);
        }
      }
    }
  }

  lemma LeadingSpace(buf: string)
    ensures AllSpace(buf[..SkipSpace(buf)])
  {
  }

  lemma ExtractSome(buf: string)
    requires Extract(buf).msg != ""
    ensures var t, c := buf[SkipSpace(buf)..], Extract(buf);
      MessageLength(t).Some? && c == Cut(t[..MessageLength(t).value], t[MessageLength(t).value..])
  {
    hide MessageLength, IsMessage, Find, SkipSpace;
  }

  lemma ExtractFound(buf: string)
    requires Extract(buf).msg != ""
    ensures var k, c := SkipSpace(buf), Extract(buf);
      AllSpace(buf[..k]) && buf == buf[..k] + (c.msg + c.rest)
  {
    hide *;
    LeadingSpace(buf);
    ExtractSome(buf);
    var t := buf[SkipSpace(buf)..];
    assert t == t[..MessageLength(t).value] + t[MessageLength(t).value..];
    assert buf == buf[..SkipSpace(buf)] + t;
  }

  /** A message found in the buffer stays the first message when more bytes arrive. */
  lemma ExtractIsStable(buf: string, more: string)
    requires Extract(buf).msg != ""
    ensures Extract(buf + more) == Cut(Extract(buf).msg, Extract(buf).rest + more)
  {
    hide *;
    var k, c := SkipSpace(buf), Extract(buf);
    ExtractFound(buf);
    assert buf + more == buf[..k] + (c.msg + (c.rest + more));
    ExtractSkipsSpace(buf[..k], c.msg + (c.rest + more));
    ExtractTakesMessage(c.msg, c.rest + more);
  }

  /** Draining before `more` arrives makes no difference: the same messages come out and the same bytes are kept. */
  ghost predicate DrainsAlike(buf: string, more: string) {
    Drain(buf + more) == Drained(Drain(buf).msgs + Drain(Drain(buf).rest + more).msgs,
                                 Drain(Drain(buf).rest + more).rest)
  }

  /** Bytes may arrive before or after the drain that precedes them. */
  lemma {:induction false} DrainAppend(buf: string, more: string)
    requires Clean(buf)
    ensures DrainsAlike(buf, more)
    decreases |buf|
  {
    hide Clean, Drain, Extract, IsMessage, SkipSpace, AllSpace, IsSpace;
    DrainUnfold(buf);
    CleanUnfold(buf);
    DrainUnfold(buf + more);
    var c := Extract(buf);
    if c.msg != "" {
      ExtractIsStable(buf, more);
      DrainAppend(c.rest, more);
    } else {
      var k := SkipSpace(buf);
      LeadingSpace(buf);
      assert buf[..k] + (buf[k..] + more) == buf + more;
      DrainSkipsSpace(buf[..k], buf[k..] + more);
    }
  }

  /** An object that has begun can be finished: close the escape, the string and then each brace. */
  lemma {:induction false} CanBeClosed(t: string) returns (closer: string)
    requires t != "" && t[0] == '{'
    requires forall k :: 0 < k <= |t| ==> ScanAll(START, t[..k]).depth > 0
    ensures exists n: nat :: n <= |t + closer| && IsMessage((t + closer)[..n])
    decreases ScanAll(START, t).escaped, ScanAll(START, t).inString, ScanAll(START, t).depth
  {
    hide IsMessage, ScanAll;
    var st := ScanAll(START, t);
    assert t[..|t|] == t;
    var c := if st.escaped then ' ' else if st.inString then '"' else '}';
    var u := t + [c];
    assert u[..|t|] == t && u[..|u|] == u;
    ScanStep(START, u, |t|);
    forall k | 0 < k <= |t|
      ensures ScanAll(START, u[..k]).depth > 0
    {
      assert u[..k] == t[..k];
    }
    if ScanAll(START, u).depth == 0 {
      closer := [c];
      ClosedHere(u, |t|);
    } else {
      var later := CanBeClosed(u);
      closer := [c] + later;
      assert u + later == t + closer;
    }
  }

  /** Either a message has ended in `t`, or the depth has stayed positive. */
  lemma OpenOrClosed(t: string)
    requires t != "" && t[0] == '{' && MessageLength(t).None?
    ensures forall k :: 0 < k <= |t| ==> ScanAll(START, t[..k]).depth > 0
  {
    hide IsMessage, ScanAll;
    NothingScanned(START);
    var i := 0;
    while i < |t|
      invariant i <= |t|
      invariant ScanAll(START, t[..i]).depth >= 0
      invariant forall k :: 0 < k <= i ==> ScanAll(START, t[..k]).depth > 0
    {
      ScanStep(START, t, i);
      if i == 0 {
        assert ScanAll(START, t[..0]) == START;
      }
      if ScanAll(START, t[..i + 1]).depth == 0 {
        ClosedHere(t, i);
        assert false;
      }
      i := i + 1;
    }
  }

  lemma HasMessage(spaces: string, t: string, n: nat)
    requires AllSpace(spaces) && n <= |t| && IsMessage(t[..n])
    ensures Drain(spaces + t).msgs != []
  {
    hide *;
    assert t == t[..n] + t[n..];
    DrainTakesMessage(t[..n], t[n..]);
    DrainSkipsSpace(spaces, t);
  }

  /** Bytes after which a drain of `rest` finds a message. */
  lemma CanBeCompleted(rest: string) returns (more: string)
    requires rest[SkipSpace(rest)..] == "" || rest[SkipSpace(rest)] == '{'
    ensures Drain(rest + more).msgs != []
  {
    hide *;
    var spaces, t := rest[..SkipSpace(rest)], rest[SkipSpace(rest)..];
    LeadingSpace(rest);
    assert rest == spaces + t;
    if t == "" {
      more := "{}";
      TwoBytesClose();
      assert "{}"[..2] == "{}" && rest + "{}" == spaces + "{}";
      HasMessage(spaces, "{}", 2);
    } else {
      more := CloserOf(t);
      var n: nat :| n <= |t + more| && IsMessage((t + more)[..n]);
      assert rest + more == spaces + (t + more);
      HasMessage(spaces, t + more, n);
    }
  }

  lemma CloserOf(t: string) returns (more: string)
    requires t != "" && t[0] == '{'
    ensures exists n: nat :: n <= |t + more| && IsMessage((t + more)[..n])
  {
    hide IsMessage, ScanAll;
    if MessageLength(t).Some? {
      more := "";
      var n := MessageLength(t).value;
      assert (t + more)[..n] == t[..n];
    } else {
      OpenOrClosed(t);
      more := CanBeClosed(t);
    }
  }

  /** A buffer whose first byte that is no white space cannot begin a message. */
  ghost predicate BeginsWithGarbage(buf: string) {
    var k := SkipSpace(buf);
    k < |buf| && buf[k] != '{'
  }

  lemma GarbageIs(buf: string)
    ensures BeginsWithGarbage(buf) <==> SkipSpace(buf) < |buf| && buf[SkipSpace(buf)] != '{'
  {
    hide SkipSpace;
  }

  /** What is kept of `t` when it begins with garbage: what follows its first line feed. */
  function AfterGarbage(t: string): (rest: string)
    ensures t != "" ==> |rest| < |t|
  {
    var nl := Find(t, "\n", 0);
    if nl.None? then "" else t[nl.value + 1..]
  }

  lemma ExtractGarbage(buf: string)
    requires BeginsWithGarbage(buf)
    ensures Extract(buf) == Cut("", AfterGarbage(buf[SkipSpace(buf)..]))
    ensures |Extract(buf).rest| < |buf|
  {
    hide SkipSpace, Find;
  }

  lemma DrainGarbage(buf: string)
    requires BeginsWithGarbage(buf)
    ensures Drain(buf) == Drained([], Extract(buf).rest)
  {
    hide *;
    ExtractGarbage(buf);
    DrainUnfold(buf);
  }

  /** Garbage stays garbage when more bytes arrive. */
  lemma GarbageGrows(buf: string, more: string)
    requires BeginsWithGarbage(buf)
    ensures BeginsWithGarbage(buf + more)
    ensures Extract(buf + more) == Cut("", AfterGarbage(buf[SkipSpace(buf)..] + more))
  {
    hide *;
    var k := SkipSpace(buf);
    GarbageIs(buf);
    LeadingSpace(buf);
    var t := buf[k..];
    assert buf + more == buf[..k] + (t + more);
    SkipSpaceConcat(buf[..k], t + more);
    NoSpaceToSkip(t + more);
    GarbageIs(buf + more);
    assert (buf + more)[k..] == t + more;
    ExtractGarbage(buf + more);
  }

  lemma NoSpaceToSkip(t: string)
    requires t != "" && !IsSpace(t[0])
    ensures SkipSpace(t) == 0
  {
  }

  /** Bytes that arrive after the line feed stay behind it. */
  lemma AfterMore(t: string, more: string)
    requires Find(t, "\n", 0).Some?
    ensures AfterGarbage(t + more) == AfterGarbage(t) + more
  {
    hide Find;
    FindEarly(t, more, "\n");
    var i := Find(t, "\n", 0).value;
    assert (t + more)[i + 1..] == t[i + 1..] + more;
  }

  lemma AfterNothing(t: string, more: string)
    requires Find(t, "\n", 0).None? && '\n' !in more
    ensures AfterGarbage(t) == "" && AfterGarbage(t + more) == ""
  {
    hide Find, OccursAt;
    NoLineFeed(t);
    FindNoByte(t + more, '\n');
  }

  lemma NoLineFeed(t: string)
    requires Find(t, "\n", 0).None?
    ensures '\n' !in t
  {
    hide Find, OccursAt;
    if '\n' in t {
      var j :| 0 <= j < |t| && t[j] == '\n';
      ByteHere(t, '\n', j);
      assert false;
    }
  }

  lemma FindEarly(t: string, more: string, p: string)
    requires Find(t, p, 0).Some?
    ensures Find(t + more, p, 0) == Find(t, p, 0)
  {
    hide Find;
    var i := Find(t, p, 0).value;
    assert (t + more)[i..i + |p|] == t[i..i + |p|];
    forall j: nat | j < i
      ensures !OccursAt(t + more, p, j)
    {
      assert !OccursAt(t, p, j);
      assert (t + more)[j..j + |p|] == t[j..j + |p|];
    }
    FindIs(t + more, p, 0, i);
  }

  /** A drain that meets garbage can be told apart from one that comes later. */
  lemma {:induction false} GarbageShows(buf: string) returns (more: string)
    requires !Clean(buf)
    ensures !DrainsAlike(buf, more)
    decreases |buf|
  {
    hide *;
    CleanUnfold(buf);
    GarbageIs(buf);
    var c := Extract(buf);
    if c.msg != "" && !BeginsWithGarbage(buf) {
      more := GarbageShows(c.rest);
      ExtractIsStable(buf, more);
      DrainUnfold(buf);
      DrainUnfold(buf + more);
      AlikeIs(buf, more);
      AlikeIs(c.rest, more);
      SameAfterFirst(c.msg, Drain(c.rest + more).msgs, Drain(c.rest).msgs, Drain(Drain(c.rest).rest + more).msgs);
    } else {
      more := GarbageShowsAtOnce(buf);
    }
  }

  lemma SameAfterFirst(msg: string, whole: seq<string>, a: seq<string>, b: seq<string>)
    ensures [msg] + whole == [msg] + a + b <==> whole == a + b
  {
    assert [msg] + a + b == [msg] + (a + b);
    assert ([msg] + whole)[1..] == whole && ([msg] + (a + b))[1..] == a + b;
  }

  lemma AlikeIs(buf: string, more: string)
    ensures DrainsAlike(buf, more) <==>
      Drain(buf + more) == Drained(Drain(buf).msgs + Drain(Drain(buf).rest + more).msgs,
          Drain(Drain(buf).rest + more).rest)
  {
    hide Drain;
  }

  lemma GarbageShowsAtOnce(buf: string) returns (more: string)
    requires BeginsWithGarbage(buf)
    ensures !DrainsAlike(buf, more)
  {
    hide *;
    var t := buf[SkipSpace(buf)..];
    ExtractGarbage(buf);
    DrainGarbage(buf);
    if Find(t, "\n", 0).None? {
      more := "{}";
      AfterNothing(t, more);
      TwoBytesClose();
      assert "" + more == more == more + "";
      DrainTakesMessage(more, "");
    } else {
      more := KeptIsTold(AfterGarbage(t));
      AfterMore(t, more);
    }
    GarbageGrows(buf, more);
    DrainGarbage(buf + more);
    AlikeIs(buf, more);
  }

  /** No bytes are kept as they are by every drain: some can be completed, the others are garbage. */
  lemma KeptIsTold(rest: string) returns (more: string)
    ensures Drain(rest + more) != Drained([], rest + more)
  {
    hide *;
    GarbageIs(rest);
    if BeginsWithGarbage(rest) {
      more := "";
      assert rest + more == rest;
      ExtractGarbage(rest);
      DrainGarbage(rest);
    } else {
      more := CanBeCompleted(rest);
    }
  }

  /** Whatever arrives next, it may be drained together with what is there or later: on clean buffers and no others. */
  lemma CleanExactly(buf: string)
    ensures Clean(buf) <==> forall more :: DrainsAlike(buf, more)
  {
    hide *;
    if Clean(buf) {
      forall more
        ensures DrainsAlike(buf, more)
      {
        DrainAppend(buf, more);
      }
    } else {
      var more := GarbageShows(buf);
    }
  }

  /** What a connection has handled and holds after receiving `chunks`. */
  ghost function Run(chunks: seq<string>): Drained {
    if chunks == [] then Drained([], "")
    else
      var before := Run(chunks[..|chunks| - 1]);
      var d := Drain(before.rest + chunks[|chunks| - 1]);
      Drained(before.msgs + d.msgs, d.rest)
  }

  function Concat(chunks: seq<string>): string {
    if chunks == [] then "" else Concat(chunks[..|chunks| - 1]) + chunks[|chunks| - 1]
  }

  /**
   However the first bytes of a stream are cut into chunks, after the drain the handler has been
   called with exactly the messages that are complete, in order, and only the one partial message
   is kept. Every prefix of a run is a run, so this holds after each drain.
   */
  lemma ChunkingIsInvisible(ts: seq<Token>, chunks: seq<string>)
    requires IsStream(ts) && Concat(chunks) <= Flatten(ts)
    ensures Run(chunks) == Drained(Completed(ts, |Concat(chunks)|), Pending(ts, |Concat(chunks)|))
  {
    var n := |Concat(chunks)|;
    assert Concat(chunks) == Flatten(ts)[..n];
    ChunksDrainAsOne(ts, chunks);
    DrainPrefix(ts, n);
  }

  lemma {:induction false} ChunksDrainAsOne(ts: seq<Token>, chunks: seq<string>)
    requires IsStream(ts) && Concat(chunks) <= Flatten(ts)
    ensures Run(chunks) == Drain(Concat(chunks))
    decreases |chunks|
  {
    if chunks == [] {
      NothingToSkip();
    } else {
      var init, last := chunks[..|chunks| - 1], chunks[|chunks| - 1];
      assert Concat(init) == Flatten(ts)[..|Concat(init)|];
      PrefixIsClean(ts, |Concat(init)|);
      ChunksDrainAsOne(ts, init);
      DrainAppend(Concat(init), last);
    }
  }

  /** The guarantee is for streams only: what follows garbage depends on how it was cut. */
  lemma GarbageIsChunkSensitive()
    ensures Concat(["x{}"]) == Concat(["x", "{}"])
    ensures Run(["x{}"]).msgs == [] && Run(["x", "{}"]).msgs == ["{}"]
  {
    GarbageIsCleared("x{}");
    GarbageIsCleared("x");
    hide Drain, IsMessage;
    assert ["x{}"][..0] == [] && ["x", "{}"][..1] == ["x"] && ["x"][..0] == [];
    assert "" + "x" == "x" && "" + "x{}" == "x{}" && "" + "{}" == "{}" && "x" + "{}" == "x{}";
    assert Run(["x"]) == Drained([], "");
    TwoBytesClose();
    DrainTakesMessage("{}", "");
    NothingToSkip();
    assert "{}" + "" == "{}";
  }

  lemma GarbageIsCleared(buf: string)
    requires buf != "" && !IsSpace(buf[0]) && buf[0] != '{' && Find(buf, "\n", 0).None?
    ensures Drain(buf) == Drained([], "")
  {
    assert buf[0..] == buf;
  }

  /** Bytes that start no message go up to the end of their line, and the drain stops there; more of them, all. */
  lemma GarbageLineGoes(spaces: string, garbage: string, later: string)
    requires forall c :: c in spaces ==> c == ' ' || c == '\t' || c == '\r' || c == '\n'
    requires garbage != "" && garbage[0] != '{' && '\n' !in garbage
    requires garbage[0] != ' ' && garbage[0] != '\t' && garbage[0] != '\r'
    ensures Drain(spaces + (garbage + "\n" + later)) == Drained([], later)
    ensures Drain(spaces + garbage) == Drained([], "")
  {
    var line := garbage + "\n" + later;
    assert garbage[0] in garbage && garbage[0] != '\n';
    assert forall i :: 0 <= i < |spaces| ==> spaces[i] in spaces;
    assert AllSpace(spaces) && !IsSpace(garbage[0]);
    hide IsMessage, MessageLength, Drain, Extract, IsSpace, AllSpace;
    DrainSkipsSpace(spaces, line);
    DrainSkipsSpace(spaces, garbage);
    FindByte(garbage, '\n', later);
    assert line == garbage + ['\n'] + later;
    GarbageEnds(line, |garbage|);
    FindNoByte(garbage, '\n');
    GarbageIsCleared(garbage);
  }

  lemma GarbageEnds(buf: string, n: nat)
    requires buf != "" && !IsSpace(buf[0]) && buf[0] != '{' && Find(buf, "\n", 0) == Some(n) && n < |buf|
    ensures Drain(buf) == Drained([], buf[n + 1..])
  {
    assert buf[0..] == buf;
    hide IsMessage, MessageLength, Find;
  }

  /** A backslash and the byte after it change nothing, in a string or outside. */
  lemma BackslashHides(s: string, c: char)
    requires !ScanAll(START, s).escaped
    ensures ScanAll(START, s + ['\\'] + [c]) == ScanAll(START, s)
  {
    var t := s + ['\\'];
    assert t[..|t| - 1] == s && (t + [c])[..|t + [c]| - 1] == t;
    assert ScanAll(START, t) == Step(ScanAll(START, s), '\\');
  }

  lemma TwoBytesClose()
    ensures IsMessage("{}")
  {
    var m := "{}";
    assert m[..0] == "" && m[..2] == m;
    ScanStep(START, m, 0);
    ScanStep(START, m, 1);
    hide ScanAll;
    assert ScanAll(START, m[..1]) == Scan(1, false, false);
  }
}
