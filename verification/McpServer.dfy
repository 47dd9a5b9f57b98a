/** The server over whole runs of requests and panel actions: replies, log, disabled tools and call counts. */
module McpServer {
  import opened Wrappers
  import opened ByteText
  import opened ToolRegistry
  import opened McpMethods

  /** What the JSON parser makes of a text; it fails on a number that is out of range. */
  datatype Parse = Parsed(json: Json) | Malformed(what: string) | Failed

  predicate HasMethod(j: Json) {
    j.Obj? && "method" in j.fields && j.fields["method"].Str?
  }

  function IdOf(j: Json): Json {
    if j.Obj? then Id(j.fields) else Null
  }

  predicate HasId(j: Json) {
    j.Obj? && "id" in j.fields
  }

  /** The answer to whatever raises an exception. */
  function InternalError(world: World): Reply {
    Error(Null, -32603, "Internal error: " + world.what)
  }

  /** What the parser says quotes the text, and cannot be printed when that is not UTF-8. */
  function ParseError(what: string): Reply {
    Error(Null, -32700, "Parse error: " + what)
  }

  /** The response to a request with a method and an id. */
  function Dispatched(s: State, req: map<string, Json>, rpc: string, world: World): Reply {
    match AnswerOf(s, rpc, req, world)
    case Replied(reply) => reply
    case Unknown => Error(Id(req), -32601, "Method not found: " + rpc)
    case Raised => InternalError(world)
  }

  /** What `_handle_message` returns; None for the empty string, which sends nothing. */
  function ReplyTo(s: State, text: string, parse: string -> Parse, world: World): Option<Reply> {
    if AllSpace(text) then None
    else
      match parse(text)
      case Failed => Some(InternalError(world))
      case Malformed(what) => Some(if world.prints then ParseError(what) else InternalError(world))
      case Parsed(j) =>
        if !HasMethod(j) then Some(Error(IdOf(j), -32600, "Invalid Request: missing 'method'"))
        else if !HasId(j) then None
        else Some(Dispatched(s, j.fields, j.fields["method"].s, world))
  }

  /** The text is a request that gets as far as the methods. */
  predicate IsDispatched(text: string, parse: string -> Parse) {
    !AllSpace(text) && parse(text).Parsed? && HasMethod(parse(text).json) && HasId(parse(text).json)
  }

  function StateAfter(s: State, text: string, parse: string -> Parse, world: World): State {
    if IsDispatched(text, parse) then
      var req := parse(text).json.fields;
      Handled(s, req["method"].s, req, world)
    else s
  }

  class Server {
    const methods: Methods

    constructor (methods: Methods)
      ensures this.methods == methods
    {
      this.methods := methods;
    }

    method HandleMessage(text: string, parse: string -> Parse, world: World) returns (reply: Option<Reply>)
      modifies methods`logs, methods.registry`callCounts
      ensures reply == ReplyTo(old(methods.Value()), text, parse, world)
      ensures methods.Value() == StateAfter(old(methods.Value()), text, parse, world)
    {
      hide AnswerOf, Handled, AllSpace;
      if AllSpace(text) {
        return None;
      }
      var parsed := parse(text);
      if parsed.Failed? {
        return Some(InternalError(world));
      }
      if parsed.Malformed? {
        return Some(if world.prints then ParseError(parsed.what) else InternalError(world));
      }
      var req := parsed.json;
      if !HasMethod(req) {
        return Some(Error(IdOf(req), -32600, "Invalid Request: missing 'method'"));
      }
      var rpc := req.fields["method"].s;
      if !HasId(req) {
        return None;
      }
      var answer := methods.Handle(rpc, req.fields, world);
      match answer
      case Replied(response) => reply := Some(response);
      case Unknown => reply := Some(Error(Id(req.fields), -32601, "Method not found: " + rpc));
      case Raised => reply := Some(InternalError(world));
    }
  }

  // ---------- Replies ----------

  /** A request that asks for no response: it has a method, and no id. */
  predicate IsNotification(p: Parse) {
    p.Parsed? && HasMethod(p.json) && !HasId(p.json)
  }

  /** The text is not blank, and not a notification. */
  predicate AsksForReply(text: string, parse: string -> Parse) {
    !AllSpace(text) && !IsNotification(parse(text))
  }

  /** The id that a reply is due under; none when nothing can be made of the text. */
  function DueId(p: Parse): Json {
    if p.Parsed? then IdOf(p.json) else Null
  }

  /** A reply is sent exactly when it is asked for, under the id of the request unless an exception was raised. */
  lemma ReplyIsDue(s: State, text: string, parse: string -> Parse, world: World)
    ensures ReplyTo(s, text, parse, world).Some? <==> AsksForReply(text, parse)
    ensures AsksForReply(text, parse) ==>
      var reply := ReplyTo(s, text, parse, world).value;
      reply.id == DueId(parse(text)) || reply == InternalError(world)
  {
    hide AllSpace, AnswerOf;
    if IsDispatched(text, parse) {
      var req := parse(text).json.fields;
      SameId(s, req["method"].s, req, world);
    }
  }

  lemma BlankIsNotAsked(text: string, parse: string -> Parse)
    ensures AsksForReply(text, parse) ==> !AllSpace(text)
    ensures !AllSpace(text) && parse(text).Malformed? ==> AsksForReply(text, parse)
  {
    hide AllSpace;
  }

  lemma ErrorCodes(s: State, rpc: string, req: map<string, Json>, world: World)
    ensures var a := AnswerOf(s, rpc, req, world);
      a.Replied? && a.reply.Error? ==> a.reply.code == -32602 || a.reply.code == -32601
  {
    hide FindResource, FindPrompt, Outcome;
  }

  /** The parse error is sent exactly for texts that the parser calls malformed, in words that can be printed. */
  lemma SaysMalformed(s: State, text: string, parse: string -> Parse, world: World)
    ensures var reply := ReplyTo(s, text, parse, world);
      reply.Some? && reply.value.Error? && reply.value.code == -32700
      <==> !AllSpace(text) && parse(text).Malformed? && world.prints
    ensures !AllSpace(text) && !parse(text).Parsed? ==> StateAfter(s, text, parse, world) == s
  {
    hide AllSpace, AnswerOf;
    if IsDispatched(text, parse) {
      var req := parse(text).json.fields;
      ErrorCodes(s, req["method"].s, req, world);
    }
  }

  // ---------- Runs ----------

  /** What can happen to the server: a message from a client, a registration, or an action in the panel. */
  datatype Action =
    | Receive(text: string, world: World)
    | RegisterTool(registration: Registration)
    | AddResource(resource: Resource)
    | AddPrompt(prompt: Prompt)
    | SetToolEnabled(name: string, enabled: bool)
    | EnableAllTools
    | DisableAllTools
    | ClearLogs

  const START := State(EMPTY, [], [], [])

  function Step(s: State, a: Action, parse: string -> Parse): State {
    match a
    case Receive(text, world) => StateAfter(s, text, parse, world)
    case RegisterTool(r) => s.(registry := Register(s.registry, r))
    case AddResource(r) => s.(resources := WithResource(s.resources, r))
    case AddPrompt(p) => s.(prompts := WithPrompt(s.prompts, p))
    case SetToolEnabled(name, enabled) => s.(registry := SetEnabled(s.registry, name, enabled))
    case EnableAllTools => s.(registry := EnableAll(s.registry))
    case DisableAllTools => s.(registry := DisableAll(s.registry))
    case ClearLogs => s.(logs := [])
  }

  function After(run: seq<Action>, parse: string -> Parse): State {
    if run == [] then START else Step(After(run[..|run| - 1], parse), run[|run| - 1], parse)
  }

  /** The entry that an action adds to the log. */
  function Entry(s: State, a: Action, parse: string -> Parse): Option<LogEntry> {
    if a.Receive? && IsDispatched(a.text, parse) then
      var req := parse(a.text).json.fields;
      EntryOf(s, req["method"].s, req, a.world)
    else None
  }

  /** Every entry that the run has added since the log was last cleared, however many. */
  function Entries(run: seq<Action>, parse: string -> Parse): seq<LogEntry> {
    if run == [] then []
    else
      var before, a := run[..|run| - 1], run[|run| - 1];
      if a.ClearLogs? then []
      else
        var e := Entry(After(before, parse), a, parse);
        Entries(before, parse) + if e.Some? then [e.value] else []
  }

  /** The name under which an action has called a tool, if the call came back. */
  function Call(s: State, a: Action, parse: string -> Parse): Option<string> {
    if a.Receive? && IsDispatched(a.text, parse) then
      var req := parse(a.text).json.fields;
      if req["method"].s == "tools/call" && ComesBack(s, req, a.world) then TextOf(Params(req), "name", "") else None
    else None
  }

  /** The names of the calls in the run, one for each call that came back. */
  function Calls(run: seq<Action>, parse: string -> Parse): seq<string> {
    if run == [] then []
    else
      var before, a := run[..|run| - 1], run[|run| - 1];
      var c := Call(After(before, parse), a, parse);
      Calls(before, parse) + if c.Some? then [c.value] else []
  }

  /** How many of the calls under these names ran the handler of the tool. */
  function TimesRun(names: seq<string>, tool: string): nat {
    if names == [] then 0
    else TimesRun(names[..|names| - 1], tool) + if UpToNul(names[|names| - 1]) == tool then 1 else 0
  }

  /** A text that asks for a reply: the id that the reply is due under, and whether a parse error can be told. */
  datatype Due = Due(id: Json, malformed: bool)

  /** The texts of the run that ask for a reply. */
  function Asked(run: seq<Action>, parse: string -> Parse): seq<Due> {
    if run == [] then []
    else
      var a := run[|run| - 1];
      Asked(run[..|run| - 1], parse)
      + if a.Receive? && AsksForReply(a.text, parse)
        then [Due(DueId(parse(a.text)), parse(a.text).Malformed? && a.world.prints)] else []
  }

  /** The replies sent in the run. */
  function Sent(run: seq<Action>, parse: string -> Parse): seq<Reply> {
    if run == [] then []
    else
      var before, a := run[..|run| - 1], run[|run| - 1];
      Sent(before, parse)
      + if !a.Receive? then []
        else
          var reply := ReplyTo(After(before, parse), a.text, parse, a.world);
          if reply.Some? then [reply.value] else []
  }

  predicate IsInternalError(r: Reply) {
    r.Error? && r.id == Null && r.code == -32603
  }

  predicate IsParseError(r: Reply) {
    r.Error? && r.code == -32700
  }

  /**
   Every text that asks for a reply gets one, in order and under its id, except for exceptions, which have none.
   It is the parse error exactly for the texts that the parser calls malformed, in words that can be printed.
   */
  lemma {:induction false} RepliesInOrder(run: seq<Action>, parse: string -> Parse)
    ensures |Sent(run, parse)| == |Asked(run, parse)|
    ensures forall k :: 0 <= k < |Sent(run, parse)| ==>
      && (Sent(run, parse)[k].id == Asked(run, parse)[k].id || IsInternalError(Sent(run, parse)[k]))
      && (IsParseError(Sent(run, parse)[k]) <==> Asked(run, parse)[k].malformed)
  {
    if run == [] {
    } else {
      var before, a := run[..|run| - 1], run[|run| - 1];
      RepliesInOrder(before, parse);
      hide ReplyTo, AsksForReply, After, DueId;
      if a.Receive? {
        ReplyIsDue(After(before, parse), a.text, parse, a.world);
        SaysMalformed(After(before, parse), a.text, parse, a.world);
        BlankIsNotAsked(a.text, parse);
      }
    }
  }

  /**
   What any request with a method and an id does in a run. Its reply is the answer of the methods, -32601 if they
   do not know it, -32603 if they raise an exception; an answer leaves one entry in the log, an unknown method
   none; and a tool disabled in the panel, asked for by its own name, is answered like a missing method and not
   called.
   */
  lemma EachRequest(run: seq<Action>, parse: string -> Parse, i: nat)
    requires i < |run| && run[i].Receive? && IsDispatched(run[i].text, parse)
    ensures var (s, s', req) := (After(run[..i], parse), After(run[..i + 1], parse), parse(run[i].text).json.fields);
      var rpc, reply := req["method"].s, ReplyTo(s, run[i].text, parse, run[i].world);
      && reply.Some? && (reply.value.id == req["id"] || reply == Some(InternalError(run[i].world)))
      && (!IsKnown(rpc) ==> reply == Some(Error(req["id"], -32601, "Method not found: " + rpc)) && s' == s)
      && (IsKnown(rpc) && !IsInternalError(reply.value) ==>
            exists e: LogEntry :: e.rpc == rpc && s'.logs == Pushed(s.logs, e))
      && (rpc == "tools/call" ==>
            var name := TextOf(Params(req), "name", "");
            name.Some? && name.value in s.registry.disabled && name.value != "" ==>
              reply == Some(Error(req["id"], -32601, "Method not found: " + name.value)) && s'.registry == s.registry)
  {
    var s, text, world := After(run[..i], parse), run[i].text, run[i].world;
    assert run[..i + 1][..i] == run[..i];
    DisabledAreRegistered(run[..i], parse);
    var req := parse(text).json.fields;
    hide After, AllSpace, AnswerOf, EntryOf, Pushed, Handled, IsKnown, TextOf, Params;
    SameId(s, req["method"].s, req, world);
    OneEntry(s, req["method"].s, req, world);
    HandledLogs(s, req["method"].s, req, world);
    if TextOf(Params(req), "name", "").Some? {
      DisabledIsUnknown(s, req, world);
    }
  }

  lemma HandledLogs(s: State, rpc: string, req: map<string, Json>, world: World)
    ensures var (s', e) := (Handled(s, rpc, req, world), EntryOf(s, rpc, req, world));
      && s'.logs == (if e.Some? then Pushed(s.logs, e.value) else s.logs)
      && (e.Some? ==> e.value.rpc == rpc)
      && (rpc != "tools/call" && e.None? ==> s' == s)
  {
    hide Pushed, Outcome, Read;
  }

  lemma DisabledIsUnknown(s: State, req: map<string, Json>, world: World)
    requires IsConsistent(s.registry) && AreNamed(s.registry)
    requires TextOf(Params(req), "name", "").Some?
    ensures var name := TextOf(Params(req), "name", "").value;
      name in s.registry.disabled && name != "" ==>
        && AnswerOf(s, "tools/call", req, world) == Replied(Error(Id(req), -32601, "Method not found: " + name))
        && Handled(s, "tools/call", req, world).registry == s.registry
  {
    var name := TextOf(Params(req), "name", "").value;
    if name in s.registry.disabled {
      assert name in s.registry.tools && '\0' !in name;
    }
  }

  lemma PushedIsLast(all: seq<LogEntry>, e: LogEntry)
    ensures Pushed(LastOf(all, MAX_LOG_ENTRIES), e) == LastOf(all + [e], MAX_LOG_ENTRIES)
  {
  }

  lemma LogsAfterStep(s: State, a: Action, parse: string -> Parse)
    ensures !a.ClearLogs? ==>
      var e := Entry(s, a, parse);
      Step(s, a, parse).logs == if e.Some? then Pushed(s.logs, e.value) else s.logs
  {
    hide Pushed, EntryOf, ComesBack, Counted;
  }

  /** The buffer always holds the last five hundred entries since it was last cleared, or all when there are fewer. */
  lemma {:induction false} LogsAreLast(run: seq<Action>, parse: string -> Parse)
    ensures After(run, parse).logs == LastOf(Entries(run, parse), MAX_LOG_ENTRIES)
  {
    if run == [] {
    } else {
      var before, a := run[..|run| - 1], run[|run| - 1];
      LogsAreLast(before, parse);
      hide Step, Pushed, Entry;
      var e := Entry(After(before, parse), a, parse);
      LogsAfterStep(After(before, parse), a, parse);
      if a.ClearLogs? {
        ClearedLogs(After(before, parse), parse);
      } else if e.Some? {
        PushedIsLast(Entries(before, parse), e.value);
      }
    }
  }

  lemma ClearedLogs(s: State, parse: string -> Parse)
    ensures Step(s, ClearLogs, parse).logs == []
  {
  }

  lemma ConsistentAfterStep(s: State, a: Action, parse: string -> Parse)
    requires IsConsistent(s.registry) && AreNamed(s.registry)
    ensures IsConsistent(Step(s, a, parse).registry) && AreNamed(Step(s, a, parse).registry)
  {
    hide EntryOf, ComesBack, IsDispatched, UpToNul;
  }

  /**
   Only registered tools are ever disabled, so that the number of enabled tools is the difference of the
   sizes; and every tool is under its own name, which holds no NUL byte.
   */
  lemma {:induction false} DisabledAreRegistered(run: seq<Action>, parse: string -> Parse)
    ensures var t := After(run, parse).registry;
      && IsConsistent(t) && AreNamed(t)
      && |t.disabled| <= |t.tools| && |t.tools| - |t.disabled| == |Enabled(t)|
  {
    if run == [] {
    } else {
      DisabledAreRegistered(run[..|run| - 1], parse);
      hide Step;
      ConsistentAfterStep(After(run[..|run| - 1], parse), run[|run| - 1], parse);
    }
    EnabledCountIsExact(After(run, parse).registry);
  }

  lemma CountsAfterStep(s: State, a: Action, parse: string -> Parse)
    ensures var c := Call(s, a, parse);
      Step(s, a, parse).registry.counts == if c.Some? then Counted(s.registry, c.value).counts else s.registry.counts
  {
    hide EntryOf, IsDispatched;
  }

  lemma CountedIs(t: Tools, name: string, other: string)
    ensures CountOf(Counted(t, name), other) == CountOf(t, other) + if name == other then 1 else 0
  {
  }

  /** Each counter is the number of calls under its name that came back, and the total is the number of them all. */
  lemma {:induction false} CountsAreCalls(run: seq<Action>, parse: string -> Parse, name: string)
    ensures CountOf(After(run, parse).registry, name) == multiset(Calls(run, parse))[name]
    ensures Sum(After(run, parse).registry.counts) == |Calls(run, parse)|
  {
    if run == [] {
    } else {
      var before, a := run[..|run| - 1], run[|run| - 1];
      CountsAreCalls(before, parse, name);
      hide Step, Call, Sum;
      var s, c := After(before, parse), Call(After(before, parse), a, parse);
      CountsAfterStep(s, a, parse);
      if c.Some? {
        SumCounted(s.registry, c.value);
        CountedIs(s.registry, c.value, name);
      }
      SameCounts(After(run, parse).registry, if c.Some? then Counted(s.registry, c.value) else s.registry, name);
    }
  }

  lemma SameCounts(t: Tools, u: Tools, name: string)
    requires t.counts == u.counts
    ensures CountOf(t, name) == CountOf(u, name) && Sum(t.counts) == Sum(u.counts)
  {
    hide Sum;
  }

  lemma {:induction false} TimesRunIs(names: seq<string>, tool: string)
    requires '\0' !in tool
    ensures multiset(names)[tool] <= TimesRun(names, tool)
    ensures multiset(names)[tool] == TimesRun(names, tool) <==> NoneLonger(names, tool)
  {
    hide UpToNul;
    if names == [] {
    } else {
      var before, last := names[..|names| - 1], names[|names| - 1];
      assert names == before + [last] && UpToNul(tool) == tool;
      TimesRunIs(before, tool);
      assert multiset(names)[tool] == multiset(before)[tool] + if last == tool then 1 else 0;
      assert NoneLonger(names, tool) <==> NoneLonger(before, tool) && (UpToNul(last) == tool ==> last == tool);
    }
  }

  /** No name is the tool's own with a NUL byte after it. */
  predicate NoneLonger(names: seq<string>, tool: string) {
    forall n :: n in names && UpToNul(n) == tool ==> n == tool
  }

  /**
   The counter of a tool is the number of times its handler was run exactly when no call that came back
   used a longer name, with a NUL byte after the tool's own; otherwise it is less.
   */
  lemma CountsAreRuns(run: seq<Action>, parse: string -> Parse, tool: string)
    requires tool in After(run, parse).registry.tools
    ensures CountOf(After(run, parse).registry, tool) <= TimesRun(Calls(run, parse), tool)
    ensures CountOf(After(run, parse).registry, tool) == TimesRun(Calls(run, parse), tool)
      <==> NoneLonger(Calls(run, parse), tool)
  {
    DisabledAreRegistered(run, parse);
    CountsAreCalls(run, parse, tool);
    hide After, Calls, CountOf, TimesRun, UpToNul, NoneLonger;
    TimesRunIs(Calls(run, parse), tool);
  }

  /** The request asks for this name, and gets as far as the handler of a tool. */
  predicate ReachesUnder(s: State, req: map<string, Json>, name: string) {
    TextOf(Params(req), "name", "") == Some(name) && Reaches(s, req)
  }

  /** A request for the name reaches an enabled tool, if any. */
  predicate ReachesEnabled(s: State, req: map<string, Json>, name: string) {
    ReachesUnder(s, req, name) ==> UpToNul(name) in Enabled(s.registry)
  }

  function AsksFor(name: string): map<string, Json> {
    map["params" := Obj(map["name" := Str(name)])]
  }

  /** The run that registers the tool of a name and disables it. */
  function Disabling(name: string): seq<Action> {
    [RegisterTool(Registration(Some(name), None, None, false, true)), SetToolEnabled(UpToNul(name), false)]
  }

  lemma AfterDisabling(name: string, parse: string -> Parse)
    ensures var cut := UpToNul(name);
      After(Disabling(name), parse)
      == START.(registry := Tools(map[cut := Tool(cut, "", "{}", false, true)], {cut}, map[]))
    ensures Calls(Disabling(name), parse) == []
  {
    hide UpToNul;
    var run, cut := Disabling(name), UpToNul(name);
    var first, tool := [run[0]], Tool(cut, "", "{}", false, true);
    assert run[..1] == first && first[..0] == [];
    assert After([], parse) == START;
    assert After(first, parse).registry == Tools(map[cut := tool], {}, map[]);
    assert {} + {cut} == {cut};
    assert After(run, parse) == Step(After(first, parse), run[1], parse);
    assert Calls([], parse) == [] && Calls(first, parse) == [];
  }

  /** Past the NUL byte a disabled tool is reached. */
  lemma DisabledIsReached(name: string, parse: string -> Parse)
    requires '\0' in name
    ensures !ReachesEnabled(After(Disabling(name), parse), AsksFor(name), name)
  {
    AfterDisabling(name, parse);
    assert UpToNul(name) != name;
    hide After, UpToNul;
    assert Params(AsksFor(name)) == map["name" := Str(name)];
  }

  /** By a name without a NUL byte only enabled tools are reached, in any run. */
  lemma EnabledIsReached(run: seq<Action>, req: map<string, Json>, name: string, parse: string -> Parse)
    requires '\0' !in name
    ensures ReachesEnabled(After(run, parse), req, name)
  {
    assert UpToNul(name) == name;
    hide After, TextOf, Params;
  }

  /**
   The names by which no run and no request can reach a tool that is disabled in the panel are exactly those
   without a NUL byte.
   */
  lemma EnabledToolsAreReached(name: string, parse: string -> Parse)
    ensures '\0' !in name <==> forall run, req :: ReachesEnabled(After(run, parse), req, name)
  {
    hide After, ReachesEnabled;
    if '\0' in name {
      DisabledIsReached(name, parse);
    } else {
      forall run, req
        ensures ReachesEnabled(After(run, parse), req, name)
      {
        EnabledIsReached(run, req, name, parse);
      }
    }
  }

  // ---------- A disabled tool that is called ----------

  function AsksPastNul(): Json {
    Obj(map[
      "id" := Number(1), "method" := Str("tools/call"), "params" := Obj(map["name" := Str("a\0x")])])
  }

  lemma CutNames()
    ensures UpToNul("a\0x") == "a" && UpToNul("a") == "a" && "a\0x" != "a"
  {
    assert "a\0x"[1..][0] == '\0';
    assert ["a"[0]] + "" == "a";
  }

  /** Past the NUL byte, the request is answered by the disabled tool. */
  lemma ReachesPastNul(s: State, world: World, result: string)
    requires s.registry == Tools(map["a" := Tool("a", "", "{}", false, true)], {"a"}, map[])
    requires world.prints && world.run == Returned(result, "")
    ensures var req := AsksPastNul().fields;
      && TextOf(Params(req), "name", "") == Some("a\0x") && Id(req) == Number(1)
      && ComesBack(s, req, world)
      && AnswerOf(s, "tools/call", req, world) == Replied(Result(Number(1), ToolResult(result, false)))
  {
    CutNames();
    var req := AsksPastNul().fields;
    assert Params(req) == map["name" := Str("a\0x")];
    hide UpToNul, Read;
  }

  lemma OneCall(run: seq<Action>, a: Action, name: string, parse: string -> Parse)
    requires Calls(run, parse) == [] && Call(After(run, parse), a, parse) == Some(name)
    ensures Calls(run + [a], parse) == [name] && TimesRun([name], UpToNul(name)) == 1
  {
    hide After, Call, UpToNul;
    assert (run + [a])[..|run|] == run && [name][..0] == [];
  }

  lemma AsksForTool(text: string, parse: string -> Parse)
    requires !AllSpace(text) && parse(text) == Parsed(AsksPastNul())
    ensures var req := AsksPastNul().fields;
      "method" in req && req["method"] == Str("tools/call") && IsDispatched(text, parse)
  {
    hide AllSpace;
  }

  /** Asked for with a NUL byte and any text after its name, a tool disabled in the panel is called, and not counted. */
  lemma DisabledToolIsCalled(parse: string -> Parse, text: string, world: World, result: string)
    requires !AllSpace(text) && parse(text) == Parsed(AsksPastNul())
    requires world.prints && world.run == Returned(result, "")
    ensures var s, run := After(Disabling("a"), parse), Disabling("a") + [Receive(text, world)];
      && "a" in s.registry.disabled
      && ReplyTo(s, text, parse, world) == Some(Result(Number(1), ToolResult(result, false)))
      && Calls(run, parse) == ["a\0x"] && TimesRun(Calls(run, parse), "a") == 1
      && CountOf(After(run, parse).registry, "a") == 0
  {
    var s, a, run := After(Disabling("a"), parse), Receive(text, world), Disabling("a") + [Receive(text, world)];
    CutNames();
    AfterDisabling("a", parse);
    ReachesPastNul(s, world, result);
    AsksForTool(text, parse);
    hide AllSpace, After, UpToNul, AnswerOf, ComesBack, IsDispatched, AsksPastNul, Disabling, Calls, TimesRun,
         CountOf, TextOf, Params, Id;
    OneCall(Disabling("a"), a, "a\0x", parse);
    CountsAreCalls(run, parse, "a");
  }
}
