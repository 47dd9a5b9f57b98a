/**
 The Content-Length codec of the JSON-RPC client: Language Server Protocol 3.17, Base Protocol, "Header
 Part". A connection is the pieces that successive calls of `recv` return, and the number of bytes that
 successive calls of `send` accept; either list ends where the calls begin to fail.
 */
module RpcClient {
  import opened Wrappers
  import opened ByteText

  const CRLF := "\r\n"
  const END := "\r\n\r\n"
  const FIELD := "Content-Length:"
  const LOWER_FIELD := "content-length:"

  datatype Error = SendFailed | HeaderTimeout | NoTerminator | NoLength | BadLength | BodyTimeout

  /** What `call` returns: the bytes that it hands to the JSON parser, or an error. */
  datatype Outcome = Reply(body: string) | Failed(error: Error)

  // ---------- Numbers ----------

  function Digit(c: char): nat
    requires '0' <= c <= '9'
  {
    c as int - '0' as int
  }

  function DigitChar(d: nat): (c: char)
    requires d < 10
    ensures IsDigit(c) && Digit(c) == d
  {
    '0' + d as char
  }

  /** A number in decimal, as an output stream prints it. */
  function Decimal(n: nat): (s: string)
    ensures s != "" && forall c :: c in s ==> IsDigit(c)
  {
    if n < 10 then [DigitChar(n)] else Decimal(n / 10) + [DigitChar(n % 10)]
  }

  /** The value of the digits that `s` begins with, after those that gave `n`. */
  function Number(s: string, n: nat): nat {
    if s == "" || !IsDigit(s[0]) then n else Number(s[1..], 10 * n + Digit(s[0]))
  }

  /** What `isspace` accepts in the C locale. */
  predicate IsBlank(c: char) {
    c == ' ' || '\t' <= c <= '\r'
  }

  function SkipBlanks(s: string): string {
    if s == "" || !IsBlank(s[0]) then s else SkipBlanks(s[1..])
  }

  const INT_MIN := -0x8000_0000
  const INT_MAX := 0x7FFF_FFFF

  /** `atoi`; its behaviour is undefined outside the range of an int, where it gives `overflow`. */
  function Atoi(s: string, overflow: int): int {
    var t := SkipBlanks(s);
    var n: int := if t != "" && t[0] == '-' then 0 - Number(t[1..], 0)
             else if t != "" && t[0] == '+' then Number(t[1..], 0)
             else Number(t, 0);
    if INT_MIN <= n <= INT_MAX then n else overflow
  }

  // ---------- Reading a reply ----------

  /** Past the blanks that follow the field name. */
  function SkipIndent(s: string, i: nat): (r: nat)
    requires i <= |s|
    ensures i <= r <= |s|
    decreases |s| - i
  {
    if i < |s| && (s[i] == ' ' || s[i] == '\t') then SkipIndent(s, i + 1) else i
  }

  /** Where the value of the length field begins; the field is sought anywhere in the headers, in either spelling. */
  function FieldValueAt(headers: string): (r: Option<nat>)
    ensures r.Some? ==> r.value <= |headers|
  {
    var exact := Find(headers, FIELD, 0);
    var at := if exact.Some? then exact else Find(headers, LOWER_FIELD, 0);
    if at.None? then None else Some(at.value + |FIELD|)
  }

  /** From `from` to the end of the line. */
  function LineFrom(headers: string, from: nat): string
    requires from <= |headers|
  {
    var end := Find(headers, CRLF, from);
    if end.Some? then headers[from..end.value] else headers[from..]
  }

  function ContentLength(headers: string, overflow: int): Option<int> {
    match FieldValueAt(headers)
    case None => None
    case Some(at) => Some(Atoi(LineFrom(headers, SkipIndent(headers, at)), overflow))
  }

  datatype HeaderResult = Found(at: nat, buf: string, left: seq<string>, safety: nat) | NotFound(error: Error)

  /** The header loop, with `buf` received so far, `left` to come and `safety` receives behind it. */
  function ReadHeaders(buf: string, left: seq<string>, safety: nat): (r: HeaderResult)
    ensures r.Found? ==> r.at + 4 <= |r.buf| && r.safety <= 50
    decreases |left|
  {
    if safety >= 50 then NotFound(NoTerminator)
    else if left == [] || |buf + left[0]| < 4 then NotFound(HeaderTimeout)
    else
      var more := buf + left[0];
      var at := Find(more, END, 0);
      if at.Some? then Found(at.value, more, left[1..], safety + 1) else ReadHeaders(more, left[1..], safety + 1)
  }

  /** The body loop; it ends after 500 receives in all, whether or not everything has come. */
  function ReadBody(buf: string, left: seq<string>, safety: nat, need: nat): (r: Option<string>)
    ensures r.Some? ==> buf <= r.value
    decreases |left|
  {
    if |buf| >= need || safety >= 500 then Some(buf)
    else if left == [] || |buf + left[0]| < 1 then None
    else ReadBody(buf + left[0], left[1..], safety + 1, need)
  }

  function ReadReply(pieces: seq<string>, overflow: int): Outcome {
    Finish(ReadHeaders("", pieces, 0), overflow)
  }

  /** What follows the header loop. */
  function Finish(r: HeaderResult, overflow: int): Outcome
    requires r.Found? ==> r.at + 4 <= |r.buf|
  {
    match r
    case NotFound(e) => Failed(e)
    case Found(at, buf, left, safety) =>
      var length := ContentLength(buf[..at], overflow);
      if length.None? then Failed(NoLength)
      else if length.value <= 0 then Failed(BadLength)
      else
        var start := at + 4;
        match ReadBody(buf, left, safety, start + length.value)
        case None => Failed(BodyTimeout)
        case Some(all) =>
          Reply(if start + length.value <= |all| then all[start..start + length.value] else all[start..])
  }

  // ---------- Both ends of the connection ----------

  /** An open socket, as the two lists of what the system calls will do. */
  class Socket {
    var incoming: seq<string>
    var accepted: seq<nat>
    var wire: string

    /** Every piece is non-empty and fits the receive buffer. */
    ghost predicate Valid()
      reads this
    {
      forall p :: p in incoming ==> 1 <= |p| <= 4096
    }

    constructor (incoming: seq<string>, accepted: seq<nat>)
      requires forall p :: p in incoming ==> 1 <= |p| <= 4096
      ensures Valid() && this.incoming == incoming && this.accepted == accepted && wire == ""
    {
      this.incoming, this.accepted, wire := incoming, accepted, "";
    }

    /** `recv`: the next piece, or None for an error, a timeout or the end of the stream. */
    method Recv() returns (piece: Option<string>)
      requires Valid()
      modifies this`incoming
      ensures Valid()
      ensures if old(incoming) == [] then piece == None && incoming == []
              else piece == Some(old(incoming[0])) && incoming == old(incoming[1..])
    {
      if incoming == [] {
        return None;
      }
      piece := Some(incoming[0]);
      incoming := incoming[1..];
    }

    /** `send`: takes some bytes from the front of the data, none of them when it fails. */
    method Send(data: string) returns (n: nat)
      modifies this`accepted, this`wire
      ensures n <= |data| && wire == old(wire) + data[..n]
      ensures if old(accepted) == [] then n == 0 && accepted == []
              else && n == (if old(accepted[0]) < |data| then old(accepted[0]) else |data|)
                   && accepted == old(accepted[1..])
    {
      if accepted == [] {
        n := 0;
      } else {
        n := if accepted[0] < |data| then accepted[0] else |data|;
        accepted := accepted[1..];
      }
      wire := wire + data[..n];
    }

    /**
     `send_all`: it succeeds if and only if some first sends all take bytes and between them take everything; then
     every byte is on the wire, once and in order. On failure the bytes of all sends before the failing one are.
     */
    method SendAll(data: string) returns (ok: bool)
      modifies this`accepted, this`wire
      ensures ok <==> exists k :: 0 <= k <= |old(accepted)| && AllTake(old(accepted)[..k])
                                  && Total(old(accepted)[..k]) >= |data|
      ensures ok ==> wire == old(wire) + data
      ensures !ok ==> exists k ::
        && 0 <= k <= |old(accepted)| && AllTake(old(accepted)[..k])
        && (k == |old(accepted)| || old(accepted)[k] == 0)
        && Total(old(accepted)[..k]) < |data| && wire == old(wire) + data[..Total(old(accepted)[..k])]
    {
      var off := 0;
      ghost var all, k := accepted, 0;
      NoneTaken(all);
      hide AllTake, Total;
      while off < |data|
        invariant 0 <= k <= |all| && accepted == all[k..] && AllTake(all[..k])
        invariant off == (if Total(all[..k]) < |data| then Total(all[..k]) else |data|)
        invariant wire == old(wire) + data[..off]
        decreases |accepted|
      {
        var n := Send(data[off..]);
        TakesMore(data, off, n);
        if n == 0 {
          assert k == |all| || all[k] == 0;
          NoMoreTake(all, k, |data|);
          return false;
        }
        OneMoreTakes(all, k);
        k := k + 1;
        off := off + n;
      }
      assert data[..off] == data;
      return true;
    }
  }

  lemma TakesMore(data: string, off: nat, n: nat)
    requires off + n <= |data|
    ensures data[..off] + data[off..][..n] == data[..off + n]
  {
  }

  /** No send among these takes nothing, as one that fails does. */
  predicate AllTake(counts: seq<nat>) {
    forall n :: n in counts ==> n > 0
  }

  /** How many bytes these sends would take. */
  function Total(counts: seq<nat>): nat {
    if counts == [] then 0 else Total(counts[..|counts| - 1]) + counts[|counts| - 1]
  }

  lemma NoneTaken(counts: seq<nat>)
    ensures AllTake(counts[..0]) && Total(counts[..0]) == 0
  {
  }

  lemma OneMoreTakes(counts: seq<nat>, k: nat)
    requires k < |counts|
    ensures Total(counts[..k + 1]) == Total(counts[..k]) + counts[k]
    ensures AllTake(counts[..k + 1]) <==> AllTake(counts[..k]) && counts[k] > 0
  {
    var before, now := counts[..k], counts[..k + 1];
    assert now == before + [counts[k]] && now[..|now| - 1] == before;
    assert forall n :: n in now <==> n in before || n == counts[k];
    assert AllTake(now) ==> counts[k] in now && forall n :: n in before ==> n in now;
  }

  lemma {:induction false} TotalGrows(counts: seq<nat>, j: nat, k: nat)
    requires j <= k <= |counts|
    ensures Total(counts[..j]) <= Total(counts[..k])
    decreases k
  {
    if j < k {
      TotalGrows(counts, j, k - 1);
      OneMoreTakes(counts, k - 1);
    }
  }

  lemma TakingStops(counts: seq<nat>, j: nat, k: nat)
    requires j <= |counts| && AllTake(counts[..j]) && k <= |counts| && (k == |counts| || counts[k] == 0)
    ensures j <= k
  {
    forall i | 0 <= i < j
      ensures counts[i] > 0
    {
      assert counts[..j][i] in counts[..j];
    }
  }

  /** Past the first send that fails, and past the last one, no more is taken. */
  lemma NoMoreTake(counts: seq<nat>, k: nat, n: nat)
    requires k <= |counts| && (k == |counts| || counts[k] == 0) && Total(counts[..k]) < n
    ensures !exists j :: 0 <= j <= |counts| && AllTake(counts[..j]) && Total(counts[..j]) >= n
  {
    forall j | 0 <= j <= |counts| && AllTake(counts[..j])
      ensures Total(counts[..j]) < n
    {
      TakingStops(counts, j, k);
      TotalGrows(counts, j, k);
    }
  }

  /** Sends that all take bytes are enough as soon as they take as much as there is, however little each takes. */
  lemma SmallSendsSuffice(counts: seq<nat>, n: nat)
    requires AllTake(counts) && Total(counts) >= n
    ensures exists k :: 0 <= k <= |counts| && AllTake(counts[..k]) && Total(counts[..k]) >= n
  {
    assert counts[..|counts|] == counts;
  }

  /** The buffer of a call, and the socket that it receives from. */
  class Receiver {
    const socket: Socket
    var buf: string

    constructor (socket: Socket)
      ensures this.socket == socket && buf == ""
    {
      this.socket, buf := socket, "";
    }

    /** `recv_some`. */
    method RecvSome(need: nat) returns (ok: bool)
      requires socket.Valid()
      modifies this, socket`incoming
      ensures socket.Valid()
      ensures old(socket.incoming) == [] ==> !ok && buf == old(buf) && socket.incoming == []
      ensures old(socket.incoming) != [] ==>
        && buf == old(buf) + old(socket.incoming[0]) && socket.incoming == old(socket.incoming[1..])
        && ok == (|buf| >= need)
    {
      var piece := socket.Recv();
      if piece.None? {
        return false;
      }
      buf := buf + piece.value;
      return |buf| >= need;
    }

    /** The header loop; the safety counter goes on in the body loop. */
    method ReceiveHeaders() returns (r: HeaderResult)
      requires socket.Valid() && buf == ""
      modifies this, socket`incoming
      ensures socket.Valid()
      ensures r == ReadHeaders("", old(socket.incoming), 0)
      ensures r.Found? ==> buf == r.buf && socket.incoming == r.left
    {
      hide Find;
      var headerEnd: Option<nat>, safety := None, 0;
      while headerEnd.None? && safety < 50
        invariant socket.Valid() && safety <= 50
        invariant ReadHeaders("", old(socket.incoming), 0)
          == match headerEnd
             case None => ReadHeaders(buf, socket.incoming, safety)
             case Some(at) => Found(at, buf, socket.incoming, safety)
        decreases headerEnd.None?, 50 - safety
      {
        var ok := RecvSome(4);
        if !ok {
          return NotFound(HeaderTimeout);
        }
        safety := safety + 1;
        headerEnd := Find(buf, END, 0);
      }
      r := if headerEnd.None? then NotFound(NoTerminator) else Found(headerEnd.value, buf, socket.incoming, safety);
    }

    method ReceiveBody(need: nat, count: nat) returns (ok: bool)
      requires socket.Valid() && count <= 500
      modifies this, socket`incoming
      ensures var r := ReadBody(old(buf), old(socket.incoming), count, need);
        ok == r.Some? && (ok ==> buf == r.value)
    {
      var safety := count;
      while |buf| < need && safety < 500
        invariant socket.Valid() && safety <= 500
        invariant ReadBody(old(buf), old(socket.incoming), count, need) == ReadBody(buf, socket.incoming, safety, need)
        decreases 500 - safety
      {
        ok := RecvSome(1);
        if !ok {
          return;
        }
        safety := safety + 1;
      }
      ok := true;
    }

    /** The receiving half of `call`, up to the JSON parser. */
    method Receive(overflow: int) returns (outcome: Outcome)
      requires socket.Valid() && buf == ""
      modifies this, socket`incoming
      ensures outcome == ReadReply(old(socket.incoming), overflow)
    {
      hide ContentLength, ReadHeaders, ReadBody;
      var r := ReceiveHeaders();
      if r.NotFound? {
        return Failed(r.error);
      }
      var contentLength := ContentLength(buf[..r.at], overflow);
      if contentLength.None? {
        return Failed(NoLength);
      }
      if contentLength.value <= 0 {
        return Failed(BadLength);
      }
      var bodyStart := r.at + 4;
      var need := bodyStart + contentLength.value;
      var ok := ReceiveBody(need, r.safety);
      if !ok {
        return Failed(BodyTimeout);
      }
      outcome := Reply(if need <= |buf| then buf[bodyStart..need] else buf[bodyStart..]);
    }
  }

  // ---------- What is framed is what is read ----------

  function Concat(pieces: seq<string>): string {
    if pieces == [] then "" else pieces[0] + Concat(pieces[1..])
  }

  /** What has come after `k` receives, or after all of them when there are fewer. */
  function After(pieces: seq<string>, k: nat): string {
    Concat(pieces[..if k <= |pieces| then k else |pieces|])
  }

  lemma {:induction false} ConcatSplit(a: seq<string>, b: seq<string>)
    ensures Concat(a + b) == Concat(a) + Concat(b)
  {
    if a == [] {
      assert a + b == b;
    } else {
      assert (a + b)[1..] == a[1..] + b;
      ConcatSplit(a[1..], b);
    }
  }

  lemma AfterNext(pieces: seq<string>, k: nat)
    requires k < |pieces|
    ensures After(pieces, k + 1) == After(pieces, k) + pieces[k]
  {
    assert pieces[..k + 1] == pieces[..k] + [pieces[k]];
    ConcatSplit(pieces[..k], [pieces[k]]);
    assert Concat([pieces[k]]) == pieces[k];
  }

  lemma AfterAll(pieces: seq<string>)
    ensures After(pieces, |pieces|) == Concat(pieces) && After(pieces, 0) == ""
  {
    assert pieces[..|pieces|] == pieces;
  }

  lemma PrefixOfTake(pieces: seq<string>, j: nat, k: nat)
    requires j <= k <= |pieces|
    ensures Concat(pieces[..j]) <= Concat(pieces[..k])
  {
    hide Concat;
    ConcatSplit(pieces[..j], pieces[j..k]);
    assert pieces[..j] + pieces[j..k] == pieces[..k];
  }

  lemma AfterIsPrefix(pieces: seq<string>, j: nat, k: nat)
    requires j <= k
    ensures After(pieces, j) <= After(pieces, k) <= Concat(pieces)
  {
    hide Concat;
    var j', k' := if j <= |pieces| then j else |pieces|, if k <= |pieces| then k else |pieces|;
    PrefixOfTake(pieces, j', k');
    PrefixOfTake(pieces, k', |pieces|);
    assert pieces[..|pieces|] == pieces;
  }

  /** Headers `h` that are followed by the first blank line of what is sent. */
  predicate AreHeaders(h: string) {
    Find(h + END, END, 0) == Some(|h|)
  }

  lemma SameWindow(s: string, t: string, u: string, j: nat)
    requires s <= u && t <= u && j + 4 <= |s| && j + 4 <= |t|
    ensures OccursAt(s, END, j) <==> OccursAt(t, END, j)
  {
    assert s[j..j + 4] == u[j..j + 4] == t[j..j + 4];
  }

  lemma EndFound(h: string, stream: string, buf: string)
    requires AreHeaders(h) && h + END <= stream && buf <= stream
    ensures Find(buf, END, 0) == if |buf| < |h| + 4 then None else Some(|h|)
  {
    hide Find;
    forall j: nat | j < |h|
      ensures !OccursAt(buf, END, j)
    {
      if j + 4 <= |buf| {
        SameWindow(buf, h + END, stream, j);
      }
    }
    if |h| + 4 <= |buf| {
      SameWindow(buf, h + END, stream, |h|);
      FindIs(buf, END, 0, |h|);
    } else {
      FindIsNone(buf, END, 0);
    }
  }

  lemma HeadersEnd(buf: string, left: seq<string>)
    ensures ReadHeaders(buf, left, 50) == NotFound(NoTerminator)
  {
  }

  lemma HeadersStep(buf: string, left: seq<string>, safety: nat)
    requires safety < 50 && left != [] && |buf + left[0]| >= 4
    ensures var more := buf + left[0];
      var at := Find(more, END, 0);
      ReadHeaders(buf, left, safety)
      == if at.Some? then Found(at.value, more, left[1..], safety + 1) else ReadHeaders(more, left[1..], safety + 1)
  {
    hide Find;
  }

  /** The header loop stops with the receive that completes the headers, if that is among the first fifty. */
  lemma {:induction false} HeaderPhase(h: string, pieces: seq<string>, k: nat) returns (m: nat)
    requires AreHeaders(h) && h + END <= Concat(pieces) && k <= 50 && k <= |pieces|
    requires |After(pieces, k)| < |h| + 4 && (pieces != [] ==> |pieces[0]| >= 4)
    ensures k <= m <= 50 && m <= |pieces|
    ensures var r := ReadHeaders(After(pieces, k), pieces[k..], k);
      if |After(pieces, 50)| < |h| + 4 then r == NotFound(NoTerminator)
      else |After(pieces, m)| >= |h| + 4 && r == Found(|h|, After(pieces, m), pieces[m..], m)
    decreases 50 - k
  {
    hide After, Concat, Find, ReadHeaders, AreHeaders;
    m := k;
    AfterIsPrefix(pieces, k, 50);
    if k == 50 {
      HeadersEnd(After(pieces, k), pieces[k..]);
    } else {
      AfterAll(pieces);
      AfterNext(pieces, k);
      AfterIsPrefix(pieces, 1, k + 1);
      AfterIsPrefix(pieces, k + 1, 50);
      AfterNext(pieces, 0);
      assert k < |pieces| && pieces[k..][0] == pieces[k];
      HeadersStep(After(pieces, k), pieces[k..], k);
      EndFound(h, Concat(pieces), After(pieces, k + 1));
      assert pieces[k..][1..] == pieces[k + 1..];
      if |After(pieces, k + 1)| < |h| + 4 {
        m := HeaderPhase(h, pieces, k + 1);
      } else {
        m := k + 1;
      }
    }
  }

  /** The body loop stops when enough has come, or after five hundred receives with what has come by then. */
  lemma {:induction false} BodyPhase(pieces: seq<string>, k: nat, need: nat) returns (m: nat)
    requires k <= 500 && k <= |pieces| && need <= |Concat(pieces)| && forall p :: p in pieces ==> p != ""
    ensures k <= m <= |pieces| && m <= 500 && ReadBody(After(pieces, k), pieces[k..], k, need) == Some(After(pieces, m))
    ensures After(pieces, m) <= Concat(pieces)
    ensures |After(pieces, m)| >= need || After(pieces, m) == After(pieces, 500)
    decreases 500 - k
  {
    m := k;
    AfterIsPrefix(pieces, k, k);
    if |After(pieces, k)| >= need || k == 500 {
    } else {
      AfterAll(pieces);
      AfterNext(pieces, k);
      hide After, Concat;
      assert pieces[k..][1..] == pieces[k + 1..] && pieces[k] in pieces;
      m := BodyPhase(pieces, k + 1, need);
    }
  }

  /** How much of a body of `n` bytes is among the `all` bytes received, `start` of which come before it. */
  function Share(n: nat, all: nat, start: nat): (r: nat)
    ensures r <= n
  {
    if all < start then 0 else if all - start < n then all - start else n
  }

  /** The pieces bring the headers `h`, a blank line and the body that the headers announce, and perhaps more. */
  ghost predicate Carries(pieces: seq<string>, h: string, body: string, overflow: int) {
    && AreHeaders(h) && ContentLength(h, overflow) == Some(|body|) && body != ""
    && h + END + body <= Concat(pieces) && forall p :: p in pieces ==> p != ""
  }

  /**
   Whatever the fragmentation, and whatever follows the body, this is exactly what a call gives: an error
   when the first piece is shorter than four bytes or the headers take more than fifty receives, and else
   the part of the body that has come with five hundred receives.
   */
  lemma ReplyIs(h: string, body: string, pieces: seq<string>, overflow: int)
    requires Carries(pieces, h, body, overflow)
    ensures pieces != []
    ensures ReadReply(pieces, overflow) ==
      if |pieces[0]| < 4 then Failed(HeaderTimeout)
      else if |After(pieces, 50)| < |h| + 4 then Failed(NoTerminator)
      else Reply(body[..Share(|body|, |After(pieces, 500)|, |h| + 4)])
  {
    AfterAll(pieces);
    if |pieces[0]| < 4 {
      assert "" + pieces[0] == pieces[0];
    } else {
      assert pieces[0..] == pieces && h + END <= h + END + body;
      var m := HeaderPhase(h, pieces, 0);
      hide ReadHeaders, Finish, Carries, After, Concat;
      if |After(pieces, 50)| >= |h| + 4 {
        FinishIs(h, body, pieces, overflow, m);
      }
    }
  }

  lemma FinishIs(h: string, body: string, pieces: seq<string>, overflow: int, m: nat)
    requires Carries(pieces, h, body, overflow) && m <= 50 && m <= |pieces| && |After(pieces, m)| >= |h| + 4
    ensures Finish(Found(|h|, After(pieces, m), pieces[m..], m), overflow)
         == Reply(body[..Share(|body|, |After(pieces, 500)|, |h| + 4)])
  {
    hide ReadHeaders, ReadBody, ContentLength, AreHeaders, After, Concat, Share;
    assert h + END + body <= Concat(pieces) && ContentLength(h, overflow) == Some(|body|);
    var need := |h| + 4 + |body|;
    var n := BodyPhase(pieces, m, need);
    hide Carries;
    AfterIsPrefix(pieces, m, n);
    ShareOf(pieces, n, |body|, |h| + 4);
    BodyIs(h, body, Concat(pieces), After(pieces, m), After(pieces, n));
  }

  lemma ShareOf(pieces: seq<string>, n: nat, length: nat, start: nat)
    requires n <= 500 && (|After(pieces, n)| >= start + length || After(pieces, n) == After(pieces, 500))
    ensures Share(length, |After(pieces, n)|, start) == Share(length, |After(pieces, 500)|, start)
  {
    AfterIsPrefix(pieces, n, 500);
    hide After, Concat;
  }

  lemma BodyIs(h: string, body: string, stream: string, buf: string, all: string)
    requires h + END + body <= stream && buf <= all <= stream && |h| + 4 <= |buf|
    ensures buf[..|h|] == h
    ensures var start, need := |h| + 4, |h| + 4 + |body|;
      (if need <= |all| then all[start..need] else all[start..]) == body[..Share(|body|, |all|, |h| + 4)]
  {
    var frame := h + END + body;
    assert buf[..|h|] == stream[..|h|] == frame[..|h|] == h;
    if |frame| <= |all| {
      assert all[|h| + 4..|frame|] == stream[|h| + 4..|frame|] == frame[|h| + 4..] == body;
    } else {
      assert all[|h| + 4..] == stream[|h| + 4..|all|] == frame[|h| + 4..|all|] == body[..|all| - |h| - 4];
    }
  }

  /** The body comes back whole exactly when its end does not take too many receives. */
  lemma ReplyIsBody(h: string, body: string, pieces: seq<string>, overflow: int)
    requires Carries(pieces, h, body, overflow)
    ensures pieces != []
    ensures ReadReply(pieces, overflow) == Reply(body) <==>
      |pieces[0]| >= 4 && |After(pieces, 50)| >= |h| + 4 && |After(pieces, 500)| >= |h| + 4 + |body|
  {
    assert body != "";
    ReplyIs(h, body, pieces, overflow);
    hide ReadReply, After, Carries;
    assert body[..|body|] == body;
  }

  // ---------- Header lines ----------

  /** A header line: not empty, and without line breaks. */
  predicate IsLine(l: string) {
    l != "" && '\r' !in l && '\n' !in l
  }

  predicate AreLines(lines: seq<string>) {
    forall i :: 0 <= i < |lines| ==> IsLine(lines[i])
  }

  /** The lines, with a line break between each and the next. */
  function Headers(lines: seq<string>): string
    requires lines != []
  {
    if |lines| == 1 then lines[0] else lines[0] + CRLF + Headers(lines[1..])
  }

  lemma HeadersStart(lines: seq<string>)
    requires lines != [] && AreLines(lines)
    ensures Headers(lines) != "" && Headers(lines)[0] == lines[0][0] && lines[0][0] != '\r'
  {
  }

  lemma Mismatch(s: string, p: string, j: nat, k: nat)
    requires k < |p| && j + k < |s| && s[j + k] != p[k]
    ensures !OccursAt(s, p, j)
  {
    if j + |p| <= |s| {
      assert s[j..j + |p|][k] == s[j + k];
    }
  }

  lemma NoBreakBefore(l: string, rest: string, j: nat)
    requires IsLine(l) && rest != "" && rest[0] != '\r' && j < |l| + 2 + |rest|
    requires forall i: nat :: i < |rest| ==> !OccursAt(rest + END, END, i)
    ensures !OccursAt(l + CRLF + rest + END, END, j)
  {
    var s := l + CRLF + rest + END;
    if j < |l| {
      assert s[j] == l[j];
      Mismatch(s, END, j, 0);
    } else if j == |l| {
      assert s[j + 2] == rest[0];
      Mismatch(s, END, j, 2);
    } else if j == |l| + 1 {
      Mismatch(s, END, j, 0);
    } else {
      assert s[|l| + 2..] == rest + END;
      OccursInSuffix(s, END, |l| + 2, j);
    }
  }

  /** Header lines reach up to the first blank line. */
  lemma {:induction false} LinesAreHeaders(lines: seq<string>)
    requires lines != [] && AreLines(lines)
    ensures AreHeaders(Headers(lines))
  {
    hide Find, OccursAt;
    var l, h := lines[0], Headers(lines);
    if |lines| == 1 {
      forall j: nat | j < |h|
        ensures !OccursAt(h + END, END, j)
      {
        Mismatch(h + END, END, j, 0);
      }
    } else {
      var rest := Headers(lines[1..]);
      LinesAreHeaders(lines[1..]);
      HeadersStart(lines[1..]);
      forall j: nat | j < |h|
        ensures !OccursAt(h + END, END, j)
      {
        NoBreakBefore(l, rest, j);
      }
    }
    EndAfter(h);
    FindIs(h + END, END, 0, |h|);
  }

  lemma EndAfter(h: string)
    ensures OccursAt(h + END, END, |h|)
  {
  }

  // ---------- The length field ----------

  /** A text that a search finds on one line or not at all. */
  predicate IsName(p: string) {
    p != "" && '\r' !in p && '\n' !in p
  }

  predicate Lacks(l: string, p: string) {
    Find(l, p, 0).None?
  }

  lemma FindFrom(s: string, p: string, start: nat)
    requires forall j: nat :: j < start ==> !OccursAt(s, p, j)
    ensures Find(s, p, 0) == Find(s, p, start)
  {
    hide Find, OccursAt;
    if Find(s, p, start).Some? {
      FindIs(s, p, 0, Find(s, p, start).value);
    } else {
      FindIsNone(s, p, 0);
    }
  }

  /** Searching past a line that lacks the name. */
  lemma FindPastLine(l: string, rest: string, p: string)
    requires IsName(p) && Lacks(l, p)
    ensures var r := Find(rest, p, 0);
      Find(l + CRLF + rest, p, 0) == if r.None? then None else Some(|l| + 2 + r.value)
  {
    hide Find, OccursAt, IsName;
    var s, start := l + CRLF + rest, |l| + 2;
    forall j: nat | j < start
      ensures !OccursAt(s, p, j)
    {
      NotInLine(l, rest, p, j);
    }
    FindFrom(s, p, start);
    FindInSuffix(s, p, start, start);
    assert s[start..] == rest;
  }

  lemma NotInLine(l: string, rest: string, p: string, j: nat)
    requires IsName(p) && j < |l| + 2 && !OccursAt(l, p, j)
    ensures !OccursAt(l + CRLF + rest, p, j)
  {
    var s := l + CRLF + rest;
    if j + |p| <= |l| {
      assert s[j..j + |p|] == l[j..j + |p|];
    } else if j <= |l| {
      assert s[|l|] == '\r' != p[|l| - j];
      Mismatch(s, p, j, |l| - j);
    } else {
      assert s[j] == '\n' != p[0];
      Mismatch(s, p, j, 0);
    }
  }

  /** All the lines up to here, each with its line break. */
  function Before(lines: seq<string>): string {
    if lines == [] then "" else lines[0] + CRLF + Before(lines[1..])
  }

  /** What comes after a line when `lines` do. */
  function Rest(lines: seq<string>): string {
    if lines == [] then "" else CRLF + Headers(lines)
  }

  lemma {:induction false} HeadersSplit(before: seq<string>, l: string, after: seq<string>)
    ensures Headers(before + [l] + after) == Before(before) + l + Rest(after)
  {
    var all := before + [l] + after;
    if before == [] {
      assert all[1..] == after;
    } else {
      assert all[1..] == before[1..] + [l] + after;
      HeadersSplit(before[1..], l, after);
    }
  }

  /** The first occurrence is at the start of a line that begins with the name, when the lines before lack it. */
  lemma {:induction false} FindField(before: seq<string>, p: string, text: string)
    requires IsName(p) && (forall i :: 0 <= i < |before| ==> Lacks(before[i], p)) && StartsWith(text, p)
    ensures Find(Before(before) + text, p, 0) == Some(|Before(before)|)
  {
    hide Find;
    if before == [] {
      assert "" + text == text;
      FindIs(text, p, 0, 0);
    } else {
      var rest := Before(before[1..]) + text;
      FindField(before[1..], p, text);
      FindPastLine(before[0], rest, p);
      assert before[0] + CRLF + rest == Before(before) + text;
    }
  }

  lemma {:induction false} FindNoField(lines: seq<string>, p: string)
    requires lines != [] && IsName(p) && forall i :: 0 <= i < |lines| ==> Lacks(lines[i], p)
    ensures Find(Headers(lines), p, 0) == None
  {
    hide Find;
    if |lines| == 1 {
    } else {
      FindNoField(lines[1..], p);
      FindPastLine(lines[0], Headers(lines[1..]), p);
    }
  }

  predicate AllDigits(s: string) {
    forall c :: c in s ==> IsDigit(c)
  }

  /** Nothing that a number could go on with. */
  predicate EndsNumber(s: string) {
    s == "" || !IsDigit(s[0])
  }

  lemma {:induction false} NumberOfDigits(a: string, b: string, n: nat)
    requires AllDigits(a)
    ensures Number(a + b, n) == Number(b, Number(a, n))
  {
    if a == "" {
      assert a + b == b;
    } else {
      assert a[0] in a && (a + b)[1..] == a[1..] + b;
      NumberOfDigits(a[1..], b, 10 * n + Digit(a[0]));
    }
  }

  /** Reading back a number in decimal. */
  lemma {:induction false} NumberOfDecimal(n: nat, rest: string)
    requires EndsNumber(rest)
    ensures Number(Decimal(n) + rest, 0) == n
  {
    if n < 10 {
      assert (Decimal(n) + rest)[1..] == rest;
    } else {
      var c := DigitChar(n % 10);
      NumberOfDecimal(n / 10, "");
      assert Decimal(n / 10) + "" == Decimal(n / 10);
      NumberOfDigits(Decimal(n / 10), [c] + rest, 0);
      assert Decimal(n) + rest == Decimal(n / 10) + ([c] + rest) && ([c] + rest)[1..] == rest;
    }
  }

  lemma AtoiOfDecimal(n: nat, rest: string, overflow: int)
    requires EndsNumber(rest) && n <= INT_MAX
    ensures Atoi(Decimal(n) + rest, overflow) == n
  {
    NumberOfDecimal(n, rest);
    var s := Decimal(n) + rest;
    assert s[0] == Decimal(n)[0] && IsDigit(s[0]);
    assert SkipBlanks(s) == s;
    hide Decimal, Number;
  }

  predicate IsIndent(s: string) {
    forall i :: 0 <= i < |s| ==> s[i] == ' ' || s[i] == '\t'
  }

  lemma {:induction false} SkipIndentIs(pre: string, indent: string, rest: string)
    requires IsIndent(indent) && rest != "" && rest[0] != ' ' && rest[0] != '\t'
    ensures SkipIndent(pre + indent + rest, |pre|) == |pre| + |indent|
    decreases |indent|
  {
    var s := pre + indent + rest;
    if indent == "" {
      assert s[|pre|] == rest[0];
    } else {
      assert s[|pre|] == indent[0];
      assert s == (pre + [indent[0]]) + indent[1..] + rest;
      SkipIndentIs(pre + [indent[0]], indent[1..], rest);
    }
  }

  /** The line break after a value ends it; without one it goes to the end of the headers. */
  lemma ValueEnds(pre: string, value: string, rest: string)
    requires '\r' !in value && (rest == "" || StartsWith(rest, CRLF))
    ensures LineFrom(pre + value + rest, |pre|) == value
  {
    hide Find, OccursAt;
    var s := pre + value + rest;
    forall j: nat | |pre| <= j < |pre| + |value|
      ensures !OccursAt(s, CRLF, j)
    {
      assert s[j] == value[j - |pre|];
      Mismatch(s, CRLF, j, 0);
    }
    if rest == "" {
      assert |s| == |pre| + |value|;
      NothingAfter(s, CRLF, |s|);
      FindIsNone(s, CRLF, |pre|);
      assert s[|pre|..] == value;
    } else {
      BreakHere(pre + value, rest);
      FindIs(s, CRLF, |pre|, |pre| + |value|);
      assert s[|pre|..|pre| + |value|] == value;
    }
  }

  lemma BreakHere(a: string, b: string)
    requires StartsWith(b, CRLF)
    ensures OccursAt(a + b, CRLF, |a|)
  {
    assert (a + b)[|a|..|a| + 2] == b[..2];
  }

  lemma NothingAfter(s: string, p: string, n: nat)
    requires p != "" && |s| <= n
    ensures forall j: nat :: n <= j ==> !OccursAt(s, p, j)
  {
  }

  /** A header line that announces a length. */
  function LengthLine(name: string, indent: string, n: nat, tail: string): string {
    name + indent + Decimal(n) + tail
  }

  predicate IsTail(tail: string) {
    EndsNumber(tail) && '\r' !in tail && '\n' !in tail
  }

  lemma ValueText(n: nat, tail: string)
    requires IsTail(tail)
    ensures var value := Decimal(n) + tail;
      value != "" && value[0] != ' ' && value[0] != '\t' && '\r' !in value
  {
    hide Decimal;
    assert Decimal(n)[0] in Decimal(n) && (Decimal(n) + tail)[0] == Decimal(n)[0];
  }

  /** The value of the field, read from where its name ends. */
  lemma ValueIs(pre: string, indent: string, value: string, n: nat, tail: string, rest: string, overflow: int)
    requires IsIndent(indent) && IsTail(tail) && n <= INT_MAX && (rest == "" || StartsWith(rest, CRLF))
    requires value == Decimal(n) + tail
    ensures var s := pre + indent + value + rest;
      Atoi(LineFrom(s, SkipIndent(s, |pre|)), overflow) == n
  {
    ValueText(n, tail);
    AtoiOfDecimal(n, tail, overflow);
    hide *;
    var s := pre + indent + value + rest;
    assert s == pre + indent + (value + rest) && (value + rest)[0] == value[0];
    SkipIndentIs(pre, indent, value + rest);
    assert s == (pre + indent) + value + rest;
    ValueEnds(pre + indent, value, rest);
  }

  /** Other header lines may come before and after; what they must not contain is the name of the field. */
  predicate IsAnnounced(before: seq<string>, name: string, indent: string, n: nat, tail: string, after: seq<string>) {
    && IsIndent(indent) && IsTail(tail) && n <= INT_MAX
    && (forall i :: 0 <= i < |before| ==> Lacks(before[i], name))
    && (name == FIELD || (name == LOWER_FIELD
          && forall i :: 0 <= i <= |before| + |after| ==>
               Lacks((before + [LengthLine(name, indent, n, tail)] + after)[i], FIELD)))
  }

  lemma ContentLengthIs(before: seq<string>, name: string, indent: string, n: nat, tail: string, after: seq<string>,
                        overflow: int)
    requires IsAnnounced(before, name, indent, n, tail, after)
    ensures ContentLength(Headers(before + [LengthLine(name, indent, n, tail)] + after), overflow) == Some(n)
  {
    var line := LengthLine(name, indent, n, tail);
    var all, pre, rest := before + [line] + after, Before(before), Rest(after);
    hide Find, Atoi, SkipIndent, LineFrom, Headers, Before, Decimal;
    HeadersSplit(before, line, after);
    var text := line + rest;
    assert text[..|name|] == name;
    assert pre + line + rest == pre + text;
    FindField(before, name, text);
    if name != FIELD {
      assert |all| == |before| + |after| + 1;
      FindNoField(all, FIELD);
    }
    assert FieldValueAt(Headers(all)) == Some(|pre + name|);
    assert Headers(all) == (pre + name) + indent + (Decimal(n) + tail) + rest;
    ValueIs(pre + name, indent, Decimal(n) + tail, n, tail, rest, overflow);
  }

  lemma AnnouncedLines(before: seq<string>, name: string, indent: string, n: nat, tail: string, after: seq<string>)
    requires AreLines(before) && AreLines(after) && IsAnnounced(before, name, indent, n, tail, after)
    ensures AreLines(before + [LengthLine(name, indent, n, tail)] + after)
  {
    hide Decimal, Find;
    var line := LengthLine(name, indent, n, tail);
    assert forall c :: c in line ==> c in name || c in indent || c in Decimal(n) || c in tail;
    assert IsLine(line);
  }

  /**
   The round trip. A body of a length in the range of an int, not empty, is framed with its length among
   any other headers, and arrives in any pieces, followed by anything. It is read back as it was if and
   only if the first piece has four bytes, the headers end within fifty receives, and the body ends within
   five hundred in all.
   */
  lemma RoundTrip(before: seq<string>, name: string, indent: string, tail: string, after: seq<string>,
                  body: string, pieces: seq<string>, overflow: int)
    requires AreLines(before) && AreLines(after) && IsAnnounced(before, name, indent, |body|, tail, after)
    requires body != "" && forall p :: p in pieces ==> p != ""
    requires Headers(before + [LengthLine(name, indent, |body|, tail)] + after) + END + body <= Concat(pieces)
    ensures pieces != []
    ensures var h := Headers(before + [LengthLine(name, indent, |body|, tail)] + after);
      ReadReply(pieces, overflow) == Reply(body) <==>
        |pieces[0]| >= 4 && |After(pieces, 50)| >= |h| + 4 && |After(pieces, 500)| >= |h| + 4 + |body|
  {
    AnnouncedLines(before, name, indent, |body|, tail, after);
    ContentLengthIs(before, name, indent, |body|, tail, after, overflow);
    var lines := before + [LengthLine(name, indent, |body|, tail)] + after;
    LinesAreHeaders(lines);
    hide AreHeaders, ContentLength, Headers, Concat, After, ReadReply;
    ReplyIsBody(Headers(lines), body, pieces, overflow);
  }

  // ---------- A call ----------

  /** What the client sends. */
  function Frame(body: string): string {
    FIELD + " " + Decimal(|body|) + END + body
  }

  /** The client's own frames are of that form. */
  lemma FrameIsFramed(body: string)
    requires |body| <= INT_MAX
    ensures IsAnnounced([], FIELD, " ", |body|, "", [])
    ensures Frame(body) == Headers([] + [LengthLine(FIELD, " ", |body|, "")] + []) + END + body
  {
    hide Decimal, Find;
    assert [] + [LengthLine(FIELD, " ", |body|, "")] + [] == [LengthLine(FIELD, " ", |body|, "")];
  }

  // ---------- A body that is cut short ----------

  function Bytewise(body: string): seq<string> {
    seq(|body|, i requires 0 <= i < |body| => [body[i]])
  }

  lemma {:induction false} BytesUpTo(body: string, k: nat)
    requires k <= |body|
    ensures |Bytewise(body)| == |body| && Concat(Bytewise(body)[..k]) == body[..k]
  {
    var pieces := Bytewise(body);
    if k > 0 {
      BytesUpTo(body, k - 1);
      assert pieces[..k] == pieces[..k - 1] + [[body[k - 1]]];
      ConcatSplit(pieces[..k - 1], [[body[k - 1]]]);
    }
  }

  /** One piece, then the bytes of a text. */
  lemma AfterBytes(first: string, body: string, k: nat)
    requires 0 < k <= |body| + 1
    ensures After([first] + Bytewise(body), k) == first + body[..k - 1]
  {
    BytesUpTo(body, k - 1);
    var pieces := [first] + Bytewise(body);
    assert pieces[..k] == [first] + Bytewise(body)[..k - 1];
    ConcatSplit([first], Bytewise(body)[..k - 1]);
    assert Concat([first]) == first;
    hide Concat;
  }

  lemma FrameCarried(body: string, pieces: seq<string>, overflow: int) returns (h: string)
    requires body != "" && |body| <= INT_MAX && Concat(pieces) == Frame(body) && forall p :: p in pieces ==> p != ""
    ensures h == FIELD + " " + Decimal(|body|) && Frame(body) == h + END + body && Carries(pieces, h, body, overflow)
  {
    hide Find, Concat, ContentLength, AreHeaders, IsAnnounced, Headers, Decimal;
    h := FIELD + " " + Decimal(|body|);
    var lines := [] + [LengthLine(FIELD, " ", |body|, "")] + [];
    FrameIsFramed(body);
    AnnouncedLines([], FIELD, " ", |body|, "", []);
    ContentLengthIs([], FIELD, " ", |body|, "", [], overflow);
    LinesAreHeaders(lines);
    assert lines == [h + ""] && h + "" == h;
    OnlyLine(h);
  }

  lemma OnlyLine(h: string)
    ensures Headers([h]) == h
  {
  }

  /** A longer body that comes byte by byte after its headers is cut, without an error, to what 499 receives bring. */
  lemma BytewiseIsCut(body: string, overflow: int)
    requires 499 < |body| <= INT_MAX
    ensures var pieces := [FIELD + " " + Decimal(|body|) + END] + Bytewise(body);
      Concat(pieces) == Frame(body) && ReadReply(pieces, overflow) == Reply(body[..499])
  {
    hide *;
    var head := FIELD + " " + Decimal(|body|) + END;
    var pieces := [head] + Bytewise(body);
    BytesHold(body);
    AfterBytes(head, body, |body| + 1);
    AfterAll(pieces);
    HeadIs(body, head);
    var h := FrameCarried(body, pieces, overflow);
    ReplyIs(h, body, pieces, overflow);
    AfterBytes(head, body, 50);
    AfterBytes(head, body, 500);
    ShareIs(|body|, |head|);
  }

  lemma BytesHold(body: string)
    ensures |Bytewise(body)| == |body| && forall p :: p in Bytewise(body) ==> p != ""
  {
  }

  lemma HeadIs(body: string, head: string)
    requires head == FIELD + " " + Decimal(|body|) + END
    ensures head != "" && |head| == |FIELD + " " + Decimal(|body|)| + 4 && |head| > 4 && Frame(body) == head + body
  {
    hide Decimal;
  }

  lemma ShareIs(n: nat, start: nat)
    requires 499 < n
    ensures Share(n, start + 499, start) == 499
  {
  }

  method Call(socket: Socket, body: string, overflow: int) returns (outcome: Outcome)
    requires socket.Valid()
    modifies socket
    ensures var counts := old(socket.accepted);
      var sent := exists k :: 0 <= k <= |counts| && AllTake(counts[..k]) && Total(counts[..k]) >= |Frame(body)|;
      && outcome == (if sent then ReadReply(old(socket.incoming), overflow) else Failed(SendFailed))
      && (sent ==> socket.wire == old(socket.wire) + Frame(body))
    ensures AllTake(old(socket.accepted)) && Total(old(socket.accepted)) >= |Frame(body)| ==>
      outcome == ReadReply(old(socket.incoming), overflow)
  {
    hide Frame, ReadReply, AllTake, Total;
    if AllTake(socket.accepted) && Total(socket.accepted) >= |Frame(body)| {
      SmallSendsSuffice(socket.accepted, |Frame(body)|);
    }
    var ok := socket.SendAll(Frame(body));
    if !ok {
      return Failed(SendFailed);
    }
    var receiver := new Receiver(socket);
    outcome := receiver.Receive(overflow);
  }
}
