/** What each request of a run is answered and what it leaves behind, case by case, in plain words. */
module McpAnswers {
  import opened Wrappers
  import opened ByteText
  import opened ToolRegistry
  import opened McpMethods
  import opened McpServer

  // ---------- Requests in plain words ----------

  /** Action `i` is a text that parses as the request `req`, which has an id and calls the method `rpc`. */
  ghost predicate IsRequest(run: seq<Action>, i: nat, parse: string -> Parse, req: map<string, Json>, rpc: string) {
    && i < |run| && run[i].Receive?
    && (exists k :: 0 <= k < |run[i].text| && !IsSpace(run[i].text[k]))
    && parse(run[i].text) == Parsed(Obj(req))
    && "id" in req && "method" in req && req["method"] == Str(rpc)
  }

  /** The parameters have a text under the key, or nothing, or something that is no text. */
  predicate HasText(req: map<string, Json>, key: string, text: string) {
    && "params" in req && req["params"].Obj? && key in req["params"].fields
    && req["params"].fields[key] == Str(text)
  }

  predicate HasNothing(req: map<string, Json>, key: string) {
    "params" !in req || !req["params"].Obj? || key !in req["params"].fields
  }

  predicate HasOther(req: map<string, Json>, key: string) {
    "params" in req && req["params"].Obj? && key in req["params"].fields && !req["params"].fields[key].Str?
  }

  lemma TextIs(req: map<string, Json>, key: string, fallback: string)
    ensures forall text :: HasText(req, key, text) ==> TextOf(Params(req), key, fallback) == Some(text)
    ensures HasNothing(req, key) ==> TextOf(Params(req), key, fallback) == Some(fallback)
    ensures HasOther(req, key) ==> TextOf(Params(req), key, fallback) == None
  {
  }

  // ---------- What an action leads to ----------

  /** It is answered so. */
  ghost predicate IsAnswered(run: seq<Action>, i: nat, parse: string -> Parse, reply: Reply)
    requires i < |run| && run[i].Receive?
  {
    ReplyTo(After(run[..i], parse), run[i].text, parse, run[i].world) == Some(reply)
  }

  /** It is answered with the error that stands for any exception. */
  ghost predicate IsFailed(run: seq<Action>, i: nat, parse: string -> Parse)
    requires i < |run| && run[i].Receive?
  {
    IsAnswered(run, i, parse, Error(Null, -32603, "Internal error: " + run[i].world.what))
  }

  /** It adds the entry to the log, which drops its oldest entry past five hundred. */
  ghost predicate IsLogged(run: seq<Action>, i: nat, parse: string -> Parse, e: LogEntry)
    requires i < |run|
  {
    var all := After(run[..i], parse).logs + [e];
    After(run[..i + 1], parse).logs == if |all| > 500 then all[1..] else all
  }

  ghost predicate ChangesNothing(run: seq<Action>, i: nat, parse: string -> Parse)
    requires i < |run|
  {
    After(run[..i + 1], parse) == After(run[..i], parse)
  }

  /** Nothing but the log changes. */
  ghost predicate OnlyLogs(run: seq<Action>, i: nat, parse: string -> Parse)
    requires i < |run|
  {
    var s := After(run[..i], parse);
    After(run[..i + 1], parse) == s.(logs := After(run[..i + 1], parse).logs)
  }

  /** Nothing but the log and the counter of the name, which counts one more. */
  ghost predicate IsCounted(run: seq<Action>, i: nat, parse: string -> Parse, name: string)
    requires i < |run|
  {
    var s, s' := After(run[..i], parse), After(run[..i + 1], parse);
    && s' == s.(logs := s'.logs, registry := s.registry.(counts := s'.registry.counts))
    && forall n :: CountOf(s'.registry, n) == CountOf(s.registry, n) + if n == name then 1 else 0
  }

  lemma LoggedIs(logs: seq<LogEntry>, e: LogEntry)
    requires |logs| <= 500
    ensures var all := logs + [e]; Pushed(logs, e) == if |all| > 500 then all[1..] else all
  {
  }

  lemma LogIsBounded(run: seq<Action>, parse: string -> Parse)
    ensures |After(run, parse).logs| <= 500
  {
    LogsAreLast(run, parse);
    hide After, Entries;
  }

  /** A request is answered by the methods, and they decide what it leaves behind. */
  lemma RequestStep(run: seq<Action>, i: nat, parse: string -> Parse, req: map<string, Json>, rpc: string)
    requires IsRequest(run, i, parse, req, rpc)
    ensures var s, world := After(run[..i], parse), run[i].world;
      && After(run[..i + 1], parse) == Handled(s, rpc, req, world)
      && ReplyTo(s, run[i].text, parse, world) == Some(Dispatched(s, req, rpc, world))
      && Id(req) == req["id"]
  {
    hide Handled, Dispatched;
    assert run[..i + 1][..i] == run[..i] && run[..i + 1][i] == run[i];
  }

  lemma DispatchedIs(s: State, req: map<string, Json>, rpc: string, world: World)
    ensures var a := AnswerOf(s, rpc, req, world);
      && (a.Replied? ==> Dispatched(s, req, rpc, world) == a.reply)
      && (a.Raised? ==> Dispatched(s, req, rpc, world) == Error(Null, -32603, "Internal error: " + world.what))
  {
    hide AnswerOf;
  }

  // ---------- tools/call ----------

  /** Asked for by no name, by an unknown one, or by that of a tool disabled in the panel. */
  lemma RefusedStep(s: State, req: map<string, Json>, world: World, name: string)
    requires TextOf(Params(req), "name", "") == Some(name)
    ensures var a, s', id := AnswerOf(s, "tools/call", req, world), Handled(s, "tools/call", req, world), Id(req);
      && (name == "" ==>
            && a == Replied(Error(id, -32602, "Invalid params: missing 'name'"))
            && s' == Logged(s, LogEntry("error", "tools/call", "", "error", "missing 'name'")))
      && (name != "" && UpToNul(name) !in s.registry.tools ==>
            && a == Replied(Error(id, -32602, "Tool not found: " + name))
            && s' == Logged(s, LogEntry("warn", "tools/call", name, "error", "tool not registered")))
      && (name != "" && UpToNul(name) in s.registry.tools && name in s.registry.disabled ==>
            && a == Replied(Error(id, -32601, "Method not found: " + name))
            && s' == Logged(s, LogEntry("warn", "tools/call", name, "skipped", "tool disabled in panel")))
  {
    hide Logged, UpToNul, Outcome, TextOf, Params, Id;
  }

  /** The entry that a call which came back leaves, with the first two hundred bytes of the error or the arguments. */
  function CallLog(req: map<string, Json>, world: World, name: string, error: string): LogEntry {
    var text := if error != "" then error else if HasNothing(req, "arguments") then "{}" else world.printed;
    var message := if |text| > 200 then text[..200] + "..." else text;
    if error != "" then LogEntry("error", "tools/call", name, "error", message)
    else LogEntry("info", "tools/call", name, "ok", message)
  }

  lemma CallLogIs(req: map<string, Json>, world: World, name: string, error: string)
    ensures CallLog(req, world, name, error)
         == if error != "" then ToolEntry("error", name, "error", Preview(error))
            else ToolEntry("info", name, "ok", Preview(Arguments(Params(req), world)))
  {
  }

  predicate IsReached(s: State, name: string) {
    name != "" && UpToNul(name) in s.registry.tools && name !in s.registry.disabled
  }

  lemma CameBackStep(s: State, req: map<string, Json>, world: World, name: string, result: string, error: string)
    requires TextOf(Params(req), "name", "") == Some(name) && IsReached(s, name)
    requires Outcome(s.registry.tools[UpToNul(name)], world.run) == Some((result, error))
    ensures var a, s', id := AnswerOf(s, "tools/call", req, world), Handled(s, "tools/call", req, world), Id(req);
      && (!world.prints ==> a == Raised)
      && (world.prints && error != "" ==> a == Replied(Result(id, ToolResult(error, true))))
      && (world.prints && error == "" ==> a == Replied(Result(id, ToolResult(result, false))))
      && s' == Logged(s.(registry := Counted(s.registry, name)), CallLog(req, world, name, error))
  {
    CallLogIs(req, world, name, error);
    hide Logged, UpToNul, Outcome, TextOf, Params, Id, Counted, Arguments, Preview, ToolEntry, CallLog;
  }

  lemma ThrewStep(s: State, req: map<string, Json>, world: World, name: string)
    requires TextOf(Params(req), "name", "") == Some(name) && IsReached(s, name)
    requires Outcome(s.registry.tools[UpToNul(name)], world.run) == None
    ensures AnswerOf(s, "tools/call", req, world) == Raised && Handled(s, "tools/call", req, world) == s
  {
    hide Logged, UpToNul, Outcome, TextOf, Params, Id, Counted;
  }

  /** The call is answered with the result, or with the error if there is one; it is logged and counted. */
  ghost predicate Ends(run: seq<Action>, i: nat, parse: string -> Parse, req: map<string, Json>, name: string,
                       result: string, error: string)
    requires IsRequest(run, i, parse, req, "tools/call")
  {
    var id, world := req["id"], run[i].world;
    && (if !world.prints then IsFailed(run, i, parse)
        else if error != "" then IsAnswered(run, i, parse, Result(id, ToolResult(error, true)))
        else IsAnswered(run, i, parse, Result(id, ToolResult(result, false))))
    && IsCounted(run, i, parse, name)
    && IsLogged(run, i, parse, CallLog(req, world, name, error))
  }

  lemma CountedMore(t: Tools, name: string)
    ensures var t' := Counted(t, name);
      t' == t.(counts := t'.counts) && forall n :: CountOf(t', n) == CountOf(t, n) + if n == name then 1 else 0
  {
  }

  lemma StepIsCounted(run: seq<Action>, i: nat, parse: string -> Parse, name: string, e: LogEntry)
    requires i < |run|
    requires var s := After(run[..i], parse);
      After(run[..i + 1], parse) == Logged(s.(registry := Counted(s.registry, name)), e)
    ensures IsCounted(run, i, parse, name) && IsLogged(run, i, parse, e)
  {
    LogIsBounded(run[..i], parse);
    LoggedIs(After(run[..i], parse).logs, e);
    CountedMore(After(run[..i], parse).registry, name);
    hide After, Counted, CountOf, Pushed;
  }

  lemma EndsSo(run: seq<Action>, i: nat, parse: string -> Parse, req: map<string, Json>, name: string,
               result: string, error: string)
    requires IsRequest(run, i, parse, req, "tools/call") && HasText(req, "name", name)
    requires IsReached(After(run[..i], parse), name)
    requires Outcome(After(run[..i], parse).registry.tools[UpToNul(name)], run[i].world.run) == Some((result, error))
    ensures Ends(run, i, parse, req, name, result, error)
  {
    var s, world := After(run[..i], parse), run[i].world;
    TextIs(req, "name", "");
    RequestStep(run, i, parse, req, "tools/call");
    CameBackStep(s, req, world, name, result, error);
    DispatchedIs(s, req, "tools/call", world);
    hide After, ReplyTo, Dispatched, Handled, AnswerOf, Outcome, UpToNul, HasText, TextOf, Params, Id, Logged, CallLog,
         IsReached, IsCounted, IsLogged, Counted;
    StepIsCounted(run, i, parse, name, CallLog(req, world, name, error));
  }

  lemma LeavesNothing(run: seq<Action>, i: nat, parse: string -> Parse, req: map<string, Json>, name: string)
    requires IsRequest(run, i, parse, req, "tools/call") && HasText(req, "name", name)
    requires IsReached(After(run[..i], parse), name)
    requires Outcome(After(run[..i], parse).registry.tools[UpToNul(name)], run[i].world.run) == None
    ensures IsFailed(run, i, parse) && ChangesNothing(run, i, parse)
  {
    var s, world := After(run[..i], parse), run[i].world;
    TextIs(req, "name", "");
    RequestStep(run, i, parse, req, "tools/call");
    ThrewStep(s, req, world, name);
    DispatchedIs(s, req, "tools/call", world);
    hide After, ReplyTo, Dispatched, Handled, AnswerOf, Outcome, UpToNul, HasText, TextOf, Params, Id, IsReached;
  }

  lemma OutcomeIs(tool: Tool, run: Run)
    ensures tool.hasHandler && run.Returned? ==> Outcome(tool, run) == Some((run.result, run.error))
    ensures tool.mainThread && run.TimedOut? ==> Outcome(tool, run) == Some((
    "{\"error\": \"Main thread dispatch timed out (10s). The process node may not be receiving notifications.\"}",
      if tool.hasHandler then run.late else ""))
    ensures !tool.hasHandler && tool.mainThread && !run.TimedOut? ==> Outcome(tool, run) == Some(("", ""))
    ensures !tool.hasHandler && !tool.mainThread ==> Outcome(tool, run) == Some(("", "Tool has no handler"))
    ensures tool.hasHandler && (run.Threw? || (run.TimedOut? && !tool.mainThread)) ==> Outcome(tool, run) == None
  {
  }

  /**
   A call of an enabled tool: what its handler returned counts, the error before the result; for a time-out, the error
   that the handler had set by then, if any, and else the text that tells of it; without a handler, nothing for a tool
   of the main thread and an error for another; an exception leaves nothing.
   */
  lemma EachToolCall(run: seq<Action>, i: nat, parse: string -> Parse, req: map<string, Json>, name: string)
    requires IsRequest(run, i, parse, req, "tools/call") && HasText(req, "name", name)
    requires IsReached(After(run[..i], parse), name)
    ensures var tool, it := After(run[..i], parse).registry.tools[UpToNul(name)], run[i].world.run;
      && (tool.hasHandler && it.Returned? ==> Ends(run, i, parse, req, name, it.result, it.error))
      && (tool.mainThread && it.TimedOut? ==> Ends(run, i, parse, req, name,
    "{\"error\": \"Main thread dispatch timed out (10s). The process node may not be receiving notifications.\"}",
           if tool.hasHandler then it.late else ""))
      && (!tool.hasHandler && tool.mainThread && !it.TimedOut? ==> Ends(run, i, parse, req, name, "", ""))
      && (!tool.hasHandler && !tool.mainThread ==> Ends(run, i, parse, req, name, "", "Tool has no handler"))
      && (tool.hasHandler && (it.Threw? || (it.TimedOut? && !tool.mainThread)) ==>
            IsFailed(run, i, parse) && ChangesNothing(run, i, parse))
  {
    var tool, it := After(run[..i], parse).registry.tools[UpToNul(name)], run[i].world.run;
    OutcomeIs(tool, it);
    hide Outcome, After, UpToNul, HasText, IsRequest, Ends, IsFailed, ChangesNothing, IsReached;
    if Outcome(tool, it).Some? {
      var (result, error) := Outcome(tool, it).value;
      EndsSo(run, i, parse, req, name, result, error);
    } else {
      LeavesNothing(run, i, parse, req, name);
    }
  }

  lemma StepIsLogged(run: seq<Action>, i: nat, parse: string -> Parse, e: LogEntry)
    requires i < |run| && After(run[..i + 1], parse) == Logged(After(run[..i], parse), e)
    ensures OnlyLogs(run, i, parse) && IsLogged(run, i, parse, e)
  {
    LogIsBounded(run[..i], parse);
    LoggedIs(After(run[..i], parse).logs, e);
    hide After, Pushed;
  }

  /**
   A call that reaches no tool: no name was given, or an empty one; or a name that no tool has; or that of a tool that
   is disabled in the panel; or something that is no name at all.
   */
  lemma EachRefusedCall(run: seq<Action>, i: nat, parse: string -> Parse, req: map<string, Json>, name: string)
    requires IsRequest(run, i, parse, req, "tools/call")
    requires HasText(req, "name", name) || (HasNothing(req, "name") && name == "")
    ensures var s, id := After(run[..i], parse), req["id"];
      && (name == "" ==>
            && IsAnswered(run, i, parse, Error(id, -32602, "Invalid params: missing 'name'")) && OnlyLogs(run, i, parse)
            && IsLogged(run, i, parse, LogEntry("error", "tools/call", "", "error", "missing 'name'")))
      && (name != "" && UpToNul(name) !in s.registry.tools ==>
            && IsAnswered(run, i, parse, Error(id, -32602, "Tool not found: " + name)) && OnlyLogs(run, i, parse)
            && IsLogged(run, i, parse, LogEntry("warn", "tools/call", name, "error", "tool not registered")))
      && (name != "" && UpToNul(name) in s.registry.tools && name in s.registry.disabled ==>
            && IsAnswered(run, i, parse, Error(id, -32601, "Method not found: " + name)) && OnlyLogs(run, i, parse)
            && IsLogged(run, i, parse, LogEntry("warn", "tools/call", name, "skipped", "tool disabled in panel")))
  {
    var s, world := After(run[..i], parse), run[i].world;
    TextIs(req, "name", "");
    RequestStep(run, i, parse, req, "tools/call");
    RefusedStep(s, req, world, name);
    DispatchedIs(s, req, "tools/call", world);
    hide After, ReplyTo, Dispatched, Handled, AnswerOf, UpToNul, HasText, HasNothing, TextOf, Params, Id, Logged,
         OnlyLogs, IsLogged;
    if name == "" {
      StepIsLogged(run, i, parse, LogEntry("error", "tools/call", "", "error", "missing 'name'"));
    } else if UpToNul(name) !in s.registry.tools {
      StepIsLogged(run, i, parse, LogEntry("warn", "tools/call", name, "error", "tool not registered"));
    } else if name in s.registry.disabled {
      StepIsLogged(run, i, parse, LogEntry("warn", "tools/call", name, "skipped", "tool disabled in panel"));
    }
  }

  /** A name that is not a text raises an exception. */
  lemma EachMalformedCall(run: seq<Action>, i: nat, parse: string -> Parse, req: map<string, Json>)
    requires IsRequest(run, i, parse, req, "tools/call") && HasOther(req, "name")
    ensures IsFailed(run, i, parse) && ChangesNothing(run, i, parse)
  {
    var s, world := After(run[..i], parse), run[i].world;
    TextIs(req, "name", "");
    RequestStep(run, i, parse, req, "tools/call");
    NoNameStep(s, req, world);
    DispatchedIs(s, req, "tools/call", world);
    hide After, ReplyTo, Dispatched, Handled, AnswerOf, HasOther, TextOf, Params, Id;
  }

  lemma NoNameStep(s: State, req: map<string, Json>, world: World)
    requires TextOf(Params(req), "name", "") == None
    ensures AnswerOf(s, "tools/call", req, world) == Raised && Handled(s, "tools/call", req, world) == s
  {
    hide Logged, UpToNul, Outcome, TextOf, Params, Id, Counted;
  }

  // ---------- The other methods ----------

  /** A method that only reads: its answer, and the entry that every answer leaves. */
  lemma ReadingStep(run: seq<Action>, i: nat, parse: string -> Parse, req: map<string, Json>, rpc: string)
    requires IsRequest(run, i, parse, req, rpc) && rpc != "tools/call"
    ensures var a := Read(After(run[..i], parse), rpc, req, run[i].world);
      && (a.Replied? ==>
            && IsAnswered(run, i, parse, a.reply) && OnlyLogs(run, i, parse)
            && IsLogged(run, i, parse, LogEntry("info", rpc, "", "ok", "")))
      && (a.Raised? ==> IsFailed(run, i, parse) && ChangesNothing(run, i, parse))
  {
    var s, world := After(run[..i], parse), run[i].world;
    RequestStep(run, i, parse, req, rpc);
    ReadingHandled(s, rpc, req, world);
    DispatchedIs(s, req, rpc, world);
    hide After, ReplyTo, Dispatched, Handled, AnswerOf, Read, Id, Logged, OnlyLogs, IsLogged;
    if Read(s, rpc, req, world).Replied? {
      StepIsLogged(run, i, parse, LogEntry("info", rpc, "", "ok", ""));
    }
  }

  lemma ReadingHandled(s: State, rpc: string, req: map<string, Json>, world: World)
    requires rpc != "tools/call"
    ensures AnswerOf(s, rpc, req, world) == Read(s, rpc, req, world)
    ensures Handled(s, rpc, req, world)
         == if Read(s, rpc, req, world).Replied? then Logged(s, LogEntry("info", rpc, "", "ok", "")) else s
  {
    hide Read, Logged;
  }

  /** The request is answered with the payload, if that can be printed, and logged. */
  ghost predicate Shows(run: seq<Action>, i: nat, parse: string -> Parse, req: map<string, Json>, rpc: string,
                        payload: Payload)
    requires IsRequest(run, i, parse, req, rpc)
  {
    if run[i].world.prints then
      && IsAnswered(run, i, parse, Result(req["id"], payload)) && OnlyLogs(run, i, parse)
      && IsLogged(run, i, parse, LogEntry("info", rpc, "", "ok", ""))
    else IsFailed(run, i, parse) && ChangesNothing(run, i, parse)
  }

  /** The request is refused, and logged as answered. */
  ghost predicate Refuses(run: seq<Action>, i: nat, parse: string -> Parse, req: map<string, Json>, rpc: string,
                          message: string)
    requires IsRequest(run, i, parse, req, rpc)
  {
    && IsAnswered(run, i, parse, Error(req["id"], -32602, message)) && OnlyLogs(run, i, parse)
    && IsLogged(run, i, parse, LogEntry("info", rpc, "", "ok", ""))
  }

  lemma IdIs(run: seq<Action>, i: nat, parse: string -> Parse, req: map<string, Json>, rpc: string)
    requires IsRequest(run, i, parse, req, rpc)
    ensures Id(req) == req["id"]
  {
  }

  /** The lists show all that is registered, in its order. */
  lemma EachList(run: seq<Action>, i: nat, parse: string -> Parse, req: map<string, Json>, rpc: string)
    requires IsRequest(run, i, parse, req, rpc)
    ensures var s := After(run[..i], parse);
      && (rpc == "tools/list" ==> Shows(run, i, parse, req, rpc, ToolList(s.registry.tools)))
      && (rpc == "resources/list" ==> Shows(run, i, parse, req, rpc, ResourceList(s.resources)))
      && (rpc == "prompts/list" ==> Shows(run, i, parse, req, rpc, PromptList(s.prompts)))
  {
    IdIs(run, i, parse, req, rpc);
    if rpc != "tools/call" {
      ReadingStep(run, i, parse, req, rpc);
    }
    hide After, Id, OnlyLogs, IsLogged, IsAnswered, IsFailed, ChangesNothing, IsRequest;
  }

  /** `ping` and `initialize`; a protocol version, if there is one, must be a text. */
  lemma EachGreeting(run: seq<Action>, i: nat, parse: string -> Parse, req: map<string, Json>, rpc: string)
    requires IsRequest(run, i, parse, req, rpc) && (rpc == "ping" || rpc == "initialize")
    ensures if rpc == "initialize" && HasOther(req, "protocolVersion") then
        IsFailed(run, i, parse) && ChangesNothing(run, i, parse)
      else
        && IsAnswered(run, i, parse, Result(req["id"], if rpc == "ping" then Pong else Initialized))
        && OnlyLogs(run, i, parse) && IsLogged(run, i, parse, LogEntry("info", rpc, "", "ok", ""))
  {
    IdIs(run, i, parse, req, rpc);
    ReadingStep(run, i, parse, req, rpc);
    VersionIs(req);
    hide After, Id, OnlyLogs, IsLogged, IsAnswered, IsFailed, ChangesNothing, IsRequest, HasOther, TextOf, Params;
  }

  lemma VersionIs(req: map<string, Json>)
    ensures TextOf(Params(req), "protocolVersion", "2024-11-05").None? <==> HasOther(req, "protocolVersion")
  {
  }

  /** The address is longer than what the template says before its first brace, and begins with that. */
  ghost predicate Fits(template: string, uri: string) {
    exists n :: 0 <= n < |template| && template[n] == '{' && '{' !in template[..n] && template[..n] < uri
  }

  /** Resource `k` is the first with the address, or, if there is none, the first whose template fits it. */
  ghost predicate IsFound(resources: seq<Resource>, k: nat, uri: string) {
    && k < |resources|
    && if resources[k].uri == uri then forall j :: 0 <= j < k ==> resources[j].uri != uri
       else
         && (forall j :: 0 <= j < |resources| ==> resources[j].uri != uri)
         && Fits(resources[k].uri, uri) && forall j :: 0 <= j < k ==> !Fits(resources[j].uri, uri)
  }

  ghost predicate IsMissing(resources: seq<Resource>, uri: string) {
    forall j :: 0 <= j < |resources| ==> resources[j].uri != uri && !Fits(resources[j].uri, uri)
  }

  lemma FitsIs(r: Resource, uri: string)
    ensures IsTemplateFor(r, uri) <==> Fits(r.uri, uri)
  {
    hide Find;
    if Fits(r.uri, uri) {
      var n :| 0 <= n < |r.uri| && r.uri[n] == '{' && '{' !in r.uri[..n] && r.uri[..n] < uri;
      FirstBrace(r.uri, n);
    }
    if IsTemplateFor(r, uri) {
      BeforeBrace(r.uri, Find(r.uri, "{", 0).value);
    }
  }

  lemma FirstBrace(template: string, n: nat)
    requires n < |template| && template[n] == '{' && '{' !in template[..n]
    ensures Find(template, "{", 0) == Some(n)
  {
    hide Find;
    FindByte(template[..n], '{', template[n + 1..]);
    assert template == template[..n] + ['{'] + template[n + 1..];
  }

  lemma BeforeBrace(template: string, n: nat)
    requires Find(template, "{", 0) == Some(n)
    ensures n < |template| && template[n] == '{' && '{' !in template[..n]
  {
    hide Find;
    assert template[n..n + 1][0] == '{';
    forall j | 0 <= j < n
      ensures template[j] != '{'
    {
      assert !OccursAt(template, "{", j);
      assert template[j..j + 1] == [template[j]];
    }
  }

  lemma {:induction false} ExactIs(resources: seq<Resource>, k: nat, uri: string)
    requires k <= |resources| && forall j :: 0 <= j < k ==> resources[j].uri != uri
    requires k < |resources| ==> resources[k].uri == uri
    ensures FindExact(resources, uri) == if k < |resources| then Some(resources[k]) else None
  {
    if k > 0 {
      ExactIs(resources[1..], k - 1, uri);
    }
  }

  lemma {:induction false} TemplateIs(resources: seq<Resource>, k: nat, uri: string)
    requires k <= |resources| && forall j :: 0 <= j < k ==> !Fits(resources[j].uri, uri)
    requires k < |resources| ==> Fits(resources[k].uri, uri)
    ensures FindTemplate(resources, uri) == if k < |resources| then Some(resources[k]) else None
  {
    hide IsTemplateFor, Fits;
    if resources != [] {
      FitsIs(resources[0], uri);
    }
    if k > 0 {
      assert forall j :: 0 <= j < k - 1 ==> resources[1..][j] == resources[j + 1];
      TemplateIs(resources[1..], k - 1, uri);
    }
  }

  lemma FoundIs(resources: seq<Resource>, k: nat, uri: string)
    ensures IsFound(resources, k, uri) ==> FindResource(resources, uri) == Some(resources[k])
    ensures IsMissing(resources, uri) ==> FindResource(resources, uri) == None
  {
    hide FindExact, FindTemplate, Fits;
    if IsFound(resources, k, uri) {
      if resources[k].uri == uri {
        ExactIs(resources, k, uri);
      } else {
        ExactIs(resources, |resources|, uri);
        TemplateIs(resources, k, uri);
      }
    } else if IsMissing(resources, uri) {
      ExactIs(resources, |resources|, uri);
      TemplateIs(resources, |resources|, uri);
    }
  }

  /** A resource is read by its handler, under the address asked for; without one it is empty. */
  lemma EachResourceRead(run: seq<Action>, i: nat, parse: string -> Parse, req: map<string, Json>, uri: string, k: nat)
    requires IsRequest(run, i, parse, req, "resources/read")
    requires HasText(req, "uri", uri) || (HasNothing(req, "uri") && uri == "")
    ensures var all, rpc, text := After(run[..i], parse).resources, "resources/read", run[i].world.text;
      && (uri == "" ==> Refuses(run, i, parse, req, rpc, "Invalid params: missing 'uri'"))
      && (uri != "" && IsMissing(all, uri) ==> Refuses(run, i, parse, req, rpc, "Resource not found: " + uri))
      && (uri != "" && IsFound(all, k, uri) && !all[k].hasHandler ==>
            Shows(run, i, parse, req, rpc, ResourceText(uri, all[k].mimeType, "")))
      && (uri != "" && IsFound(all, k, uri) && all[k].hasHandler && text.Some? ==>
            Shows(run, i, parse, req, rpc, ResourceText(uri, all[k].mimeType, text.value)))
      && (uri != "" && IsFound(all, k, uri) && all[k].hasHandler && text.None? ==>
            IsFailed(run, i, parse) && ChangesNothing(run, i, parse))
  {
    IdIs(run, i, parse, req, "resources/read");
    ReadingStep(run, i, parse, req, "resources/read");
    TextIs(req, "uri", "");
    FoundIs(After(run[..i], parse).resources, k, uri);
    hide After, Id, OnlyLogs, IsLogged, IsAnswered, IsFailed, ChangesNothing, IsRequest, HasText, HasNothing, TextOf,
         Params, FindResource, IsMissing;
  }

  /** Prompt `k` is the first of the name. */
  predicate IsFirstNamed(prompts: seq<Prompt>, k: nat, name: string) {
    k < |prompts| && prompts[k].name == name && forall j :: 0 <= j < k ==> prompts[j].name != name
  }

  lemma {:induction false} PromptIs(prompts: seq<Prompt>, k: nat, name: string)
    requires k <= |prompts| && forall j :: 0 <= j < k ==> prompts[j].name != name
    requires k < |prompts| ==> prompts[k].name == name
    ensures FindPrompt(prompts, name) == if k < |prompts| then Some(prompts[k]) else None
  {
    if k > 0 {
      PromptIs(prompts[1..], k - 1, name);
    }
  }

  /** A prompt is answered with its description and what its handler says; without one it says nothing. */
  lemma EachPromptRead(run: seq<Action>, i: nat, parse: string -> Parse, req: map<string, Json>, name: string, k: nat)
    requires IsRequest(run, i, parse, req, "prompts/get")
    requires HasText(req, "name", name) || (HasNothing(req, "name") && name == "")
    ensures var all, rpc, messages := After(run[..i], parse).prompts, "prompts/get", run[i].world.messages;
      && (name == "" ==> Refuses(run, i, parse, req, rpc, "Invalid params: missing 'name'"))
      && (name != "" && (forall j :: 0 <= j < |all| ==> all[j].name != name) ==>
            Refuses(run, i, parse, req, rpc, "Prompt not found: " + name))
      && (name != "" && IsFirstNamed(all, k, name) && !all[k].hasHandler ==>
            Shows(run, i, parse, req, rpc, PromptMessages(all[k].description, [])))
      && (name != "" && IsFirstNamed(all, k, name) && all[k].hasHandler && messages.Some? ==>
            Shows(run, i, parse, req, rpc, PromptMessages(all[k].description, messages.value)))
      && (name != "" && IsFirstNamed(all, k, name) && all[k].hasHandler && messages.None? ==>
            IsFailed(run, i, parse) && ChangesNothing(run, i, parse))
  {
    var all := After(run[..i], parse).prompts;
    IdIs(run, i, parse, req, "prompts/get");
    ReadingStep(run, i, parse, req, "prompts/get");
    TextIs(req, "name", "");
    hide After, Id, OnlyLogs, IsLogged, IsAnswered, IsFailed, ChangesNothing, IsRequest, HasText, HasNothing, TextOf,
         Params, FindPrompt;
    if IsFirstNamed(all, k, name) {
      PromptIs(all, k, name);
    } else if forall j :: 0 <= j < |all| ==> all[j].name != name {
      PromptIs(all, |all|, name);
    }
  }

  /** An address or a name that is not a text raises an exception. */
  lemma EachMalformedRead(run: seq<Action>, i: nat, parse: string -> Parse, req: map<string, Json>, rpc: string)
    requires IsRequest(run, i, parse, req, rpc)
    requires (rpc == "resources/read" && HasOther(req, "uri")) || (rpc == "prompts/get" && HasOther(req, "name"))
    ensures IsFailed(run, i, parse) && ChangesNothing(run, i, parse)
  {
    ReadingStep(run, i, parse, req, rpc);
    TextIs(req, "uri", "");
    TextIs(req, "name", "");
    hide After, IsAnswered, IsFailed, ChangesNothing, IsRequest, HasOther, TextOf, Params, Id;
  }

  // ---------- What is no request ----------

  /** The text holds something other than white space, and the parser makes this of it. */
  ghost predicate IsParsedAs(run: seq<Action>, i: nat, parse: string -> Parse, p: Parse) {
    && i < |run| && run[i].Receive? && parse(run[i].text) == p
    && exists k :: 0 <= k < |run[i].text| && !IsSpace(run[i].text[k])
  }

  /**
   What is not a request: a text that is no object with a method in words is answered under its id, if it has one; a
   notification and a blank text are not answered; and none of them changes anything.
   */
  lemma EachOtherText(run: seq<Action>, i: nat, parse: string -> Parse, j: Json)
    requires IsParsedAs(run, i, parse, Parsed(j))
    ensures var s := After(run[..i], parse);
      && (!j.Obj? ==>
            IsAnswered(run, i, parse, Error(Null, -32600, "Invalid Request: missing 'method'"))
            && ChangesNothing(run, i, parse))
      && (j.Obj? && ("method" !in j.fields || !j.fields["method"].Str?) ==>
            && IsAnswered(run, i, parse, Error(if "id" in j.fields then j.fields["id"] else Null, -32600,
                                               "Invalid Request: missing 'method'"))
            && ChangesNothing(run, i, parse))
      && (j.Obj? && "method" in j.fields && j.fields["method"].Str? && "id" !in j.fields ==>
            ReplyTo(s, run[i].text, parse, run[i].world) == None && ChangesNothing(run, i, parse))
  {
    hide Handled, Dispatched;
    assert run[..i + 1][..i] == run[..i] && run[..i + 1][i] == run[i];
  }

  lemma EachUnparsedText(run: seq<Action>, i: nat, parse: string -> Parse, what: string)
    ensures IsParsedAs(run, i, parse, Malformed(what)) ==>
      && (if run[i].world.prints then IsAnswered(run, i, parse, Error(Null, -32700, "Parse error: " + what))
          else IsFailed(run, i, parse))
      && ChangesNothing(run, i, parse)
    ensures IsParsedAs(run, i, parse, Failed) ==> IsFailed(run, i, parse) && ChangesNothing(run, i, parse)
    ensures i < |run| && run[i].Receive? && (forall k :: 0 <= k < |run[i].text| ==> IsSpace(run[i].text[k])) ==>
      ReplyTo(After(run[..i], parse), run[i].text, parse, run[i].world) == None && ChangesNothing(run, i, parse)
  {
    hide Handled, Dispatched;
    assert i < |run| ==> run[..i + 1][..i] == run[..i] && run[..i + 1][i] == run[i];
  }
}
