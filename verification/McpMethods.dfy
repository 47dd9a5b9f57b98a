/** The methods of the Model Context Protocol that the server answers, and the log of its answers. */
module McpMethods {
  import opened Wrappers
  import opened ByteText
  import opened ToolRegistry

  /** A parsed JSON value. */
  datatype Json =
    | Null
    | Bool(b: bool)
    | Number(n: int)
    | Str(s: string)
    | Arr(items: seq<Json>)
    | Obj(fields: map<string, Json>)

  datatype Resource = Resource(uri: string, name: string, description: string, mimeType: string, hasHandler: bool)

  datatype Prompt = Prompt(name: string, description: string, arguments: seq<string>, hasHandler: bool)

  datatype Message = Message(role: string, content: string)

  /** An entry of the log, without its time and its duration. */
  datatype LogEntry = LogEntry(level: string, rpc: string, tool: string, status: string, message: string)

  datatype Payload =
    | Pong
    | Initialized
    | ToolList(tools: map<string, Tool>)
    | ToolResult(text: string, isError: bool)
    | ResourceList(resources: seq<Resource>)
    | ResourceText(uri: string, mimeType: string, text: string)
    | PromptList(prompts: seq<Prompt>)
    | PromptMessages(description: string, messages: seq<Message>)

  /** A response envelope of JSON-RPC 2.0, section 5. */
  datatype Reply = Result(id: Json, payload: Payload) | Error(id: Json, code: int, message: string)

  /** What becomes of a request: a response, nothing because the method is not known, or an exception. */
  datatype Answer = Replied(reply: Reply) | Unknown | Raised

  /**
   What the handler of a tool does. Only a tool of the main thread can time out; its handler may have set an
   error by then, `late`, which is read although the result is not.
   */
  datatype Run = Returned(result: string, error: string) | TimedOut(late: string) | Threw

  /**
   What a request finds outside the server: what the handlers do, how the JSON library prints the
   arguments, whether it can print the response, which it cannot when a text is not UTF-8, and what any
   exception says.
   */
  datatype World = World(run: Run, text: Option<string>, messages: Option<seq<Message>>, printed: string, prints: bool,
    what: string)

  datatype State = State(registry: Tools, resources: seq<Resource>, prompts: seq<Prompt>, logs: seq<LogEntry>)

  const MAX_LOG_ENTRIES := 500

  const TIMEOUT_TEXT :=
    "{\"error\": \"Main thread dispatch timed out (10s). The process node may not be receiving notifications.\"}"

  // ---------- The log ----------

  function Pushed(logs: seq<LogEntry>, e: LogEntry): seq<LogEntry> {
    (if |logs| >= MAX_LOG_ENTRIES then logs[1..] else logs) + [e]
  }

  function Logged(s: State, e: LogEntry): State {
    s.(logs := Pushed(s.logs, e))
  }

  /** The last `n` entries. */
  function LastOf<T>(s: seq<T>, n: nat): seq<T> {
    if |s| <= n then s else s[|s| - n..]
  }

  // ---------- Requests ----------

  function Id(req: map<string, Json>): Json {
    if "id" in req then req["id"] else Null
  }

  function Params(req: map<string, Json>): map<string, Json> {
    if "params" in req && req["params"].Obj? then req["params"].fields else map[]
  }

  /** `params.value(key, fallback)`; None for the exception that a value of another type raises. */
  function TextOf(params: map<string, Json>, key: string, fallback: string): Option<string> {
    if key !in params then Some(fallback)
    else if params[key].Str? then Some(params[key].s)
    else None
  }

  function Preview(s: string): string {
    if |s| > 200 then s[..200] + "..." else s
  }

  // ---------- tools/call ----------

  function ToolEntry(level: string, tool: string, status: string, message: string): LogEntry {
    LogEntry(level, "tools/call", tool, status, message)
  }

  /** The result and the error text of a tool; None when its handler throws. */
  function Outcome(tool: Tool, run: Run): Option<(string, string)> {
    if tool.mainThread && run.TimedOut? then Some((TIMEOUT_TEXT, if tool.hasHandler then run.late else ""))
    else if !tool.hasHandler then Some(("", if tool.mainThread then "" else "Tool has no handler"))
    else match run
      case Returned(result, error) => Some((result, error))
      case _ => None
  }

  function Arguments(params: map<string, Json>, world: World): string {
    if "arguments" in params then world.printed else "{}"
  }

  /**
   The request gets as far as the handler of a tool: that of the name up to its first NUL byte, if the whole
   name is not disabled.
   */
  predicate Reaches(s: State, req: map<string, Json>) {
    var name := TextOf(Params(req), "name", "");
    name.Some? && name.value != "" && UpToNul(name.value) in s.registry.tools && name.value !in s.registry.disabled
  }

  /** The handler of the tool comes back, or the wait for it ends. */
  predicate ComesBack(s: State, req: map<string, Json>, world: World) {
    var name := TextOf(Params(req), "name", "");
    Reaches(s, req) && Outcome(s.registry.tools[UpToNul(name.value)], world.run).Some?
  }

  function CallAnswer(s: State, req: map<string, Json>, world: World): Answer {
    var id, text := Id(req), TextOf(Params(req), "name", "");
    if text.None? then Raised
    else if text.value == "" then Replied(Error(id, -32602, "Invalid params: missing 'name'"))
    else if UpToNul(text.value) !in s.registry.tools then Replied(Error(id, -32602, "Tool not found: " + text.value))
    else if text.value in s.registry.disabled then Replied(Error(id, -32601, "Method not found: " + text.value))
    else
      match Outcome(s.registry.tools[UpToNul(text.value)], world.run)
      case None => Raised
      case Some((result, error)) =>
        if !world.prints then Raised
        else Replied(Result(id, if error != "" then ToolResult(error, true) else ToolResult(result, false)))
  }

  /** What a call leaves in the log; it does so even when its response cannot be printed. */
  function CallEntry(s: State, req: map<string, Json>, world: World): Option<LogEntry> {
    var params := Params(req);
    var text := TextOf(params, "name", "");
    if text.None? then None
    else if text.value == "" then Some(ToolEntry("error", "", "error", "missing 'name'"))
    else if UpToNul(text.value) !in s.registry.tools then
      Some(ToolEntry("warn", text.value, "error", "tool not registered"))
    else if text.value in s.registry.disabled then
      Some(ToolEntry("warn", text.value, "skipped", "tool disabled in panel"))
    else
      match Outcome(s.registry.tools[UpToNul(text.value)], world.run)
      case None => None
      case Some((result, error)) =>
        if error != "" then Some(ToolEntry("error", text.value, "error", Preview(error)))
        else Some(ToolEntry("info", text.value, "ok", Preview(Arguments(params, world))))
  }

  /** A call is counted under its whole name. */
  function CallCounted(s: State, req: map<string, Json>, world: World): State {
    if ComesBack(s, req, world) then s.(registry := Counted(s.registry, TextOf(Params(req), "name", "").value)) else s
  }

  // ---------- The other methods ----------

  function Printed(id: Json, payload: Payload, world: World): Answer {
    if world.prints then Replied(Result(id, payload)) else Raised
  }

  function Initialize(req: map<string, Json>): Answer {
    if TextOf(Params(req), "protocolVersion", "2024-11-05").None? then Raised
    else Replied(Result(Id(req), Initialized))
  }

  function FindExact(resources: seq<Resource>, uri: string): (r: Option<Resource>)
    ensures r.Some? ==> r.value in resources && r.value.uri == uri
    ensures r.None? ==> forall x :: x in resources ==> x.uri != uri
  {
    if resources == [] then None
    else if resources[0].uri == uri then Some(resources[0])
    else FindExact(resources[1..], uri)
  }

  /** The template of a resource stands for every longer address that begins with its part before the brace. */
  predicate IsTemplateFor(r: Resource, uri: string) {
    match Find(r.uri, "{", 0)
    case None => false
    case Some(i) => |uri| > i && StartsWith(uri, r.uri[..i])
  }

  function FindTemplate(resources: seq<Resource>, uri: string): (r: Option<Resource>)
    ensures r.Some? ==> r.value in resources && IsTemplateFor(r.value, uri)
    ensures r.None? ==> forall x :: x in resources ==> !IsTemplateFor(x, uri)
  {
    if resources == [] then None
    else if IsTemplateFor(resources[0], uri) then Some(resources[0])
    else FindTemplate(resources[1..], uri)
  }

  /** The resource with that address, or else the first whose template fits it. */
  function FindResource(resources: seq<Resource>, uri: string): Option<Resource> {
    var exact := FindExact(resources, uri);
    if exact.Some? then exact else FindTemplate(resources, uri)
  }

  function ReadResource(s: State, req: map<string, Json>, world: World): Answer {
    var uri := TextOf(Params(req), "uri", "");
    if uri.None? then Raised
    else if uri.value == "" then Replied(Error(Id(req), -32602, "Invalid params: missing 'uri'"))
    else
      match FindResource(s.resources, uri.value)
      case None => Replied(Error(Id(req), -32602, "Resource not found: " + uri.value))
      case Some(r) =>
        if !r.hasHandler then Printed(Id(req), ResourceText(uri.value, r.mimeType, ""), world)
        else if world.text.None? then Raised
        else Printed(Id(req), ResourceText(uri.value, r.mimeType, world.text.value), world)
  }

  function FindPrompt(prompts: seq<Prompt>, name: string): (r: Option<Prompt>)
    ensures r.Some? ==> r.value in prompts && r.value.name == name
    ensures r.None? ==> forall x :: x in prompts ==> x.name != name
  {
    if prompts == [] then None
    else if prompts[0].name == name then Some(prompts[0])
    else FindPrompt(prompts[1..], name)
  }

  function GetPrompt(s: State, req: map<string, Json>, world: World): Answer {
    var name := TextOf(Params(req), "name", "");
    if name.None? then Raised
    else if name.value == "" then Replied(Error(Id(req), -32602, "Invalid params: missing 'name'"))
    else
      match FindPrompt(s.prompts, name.value)
      case None => Replied(Error(Id(req), -32602, "Prompt not found: " + name.value))
      case Some(p) =>
        if !p.hasHandler then Printed(Id(req), PromptMessages(p.description, []), world)
        else if world.messages.None? then Raised
        else Printed(Id(req), PromptMessages(p.description, world.messages.value), world)
  }

  /** The methods that only read the state. */
  function Read(s: State, rpc: string, req: map<string, Json>, world: World): Answer {
    if rpc == "ping" then Replied(Result(Id(req), Pong))
    else if rpc == "initialize" then Initialize(req)
    else if rpc == "tools/list" then Printed(Id(req), ToolList(s.registry.tools), world)
    else if rpc == "resources/list" then Printed(Id(req), ResourceList(s.resources), world)
    else if rpc == "resources/read" then ReadResource(s, req, world)
    else if rpc == "prompts/list" then Printed(Id(req), PromptList(s.prompts), world)
    else if rpc == "prompts/get" then GetPrompt(s, req, world)
    else Unknown
  }

  function AnswerOf(s: State, rpc: string, req: map<string, Json>, world: World): Answer {
    if rpc == "tools/call" then CallAnswer(s, req, world) else Read(s, rpc, req, world)
  }

  function EntryOf(s: State, rpc: string, req: map<string, Json>, world: World): Option<LogEntry> {
    if rpc == "tools/call" then CallEntry(s, req, world)
    else if Read(s, rpc, req, world).Replied? then Some(LogEntry("info", rpc, "", "ok", ""))
    else None
  }

  function WithEntry(s: State, e: Option<LogEntry>): State {
    if e.Some? then Logged(s, e.value) else s
  }

  /** The state after `handle`, for a request whose method is `rpc`. */
  function Handled(s: State, rpc: string, req: map<string, Json>, world: World): State {
    WithEntry(if rpc == "tools/call" then CallCounted(s, req, world) else s, EntryOf(s, rpc, req, world))
  }

  predicate IsKnown(rpc: string) {
    rpc in {"ping", "initialize", "tools/list", "tools/call", "resources/list", "resources/read", "prompts/list",
            "prompts/get"}
  }

  /**
   A request of a known method that raises no exception leaves one entry in the log; one of an unknown method
   none.
   */
  lemma OneEntry(s: State, rpc: string, req: map<string, Json>, world: World)
    ensures AnswerOf(s, rpc, req, world).Unknown? <==> !IsKnown(rpc)
    ensures AnswerOf(s, rpc, req, world).Replied? ==> EntryOf(s, rpc, req, world).Some?
    ensures AnswerOf(s, rpc, req, world).Unknown? ==> EntryOf(s, rpc, req, world).None?
  {
  }

  /** Every response that `handle` gives carries the id of its request. */
  lemma SameId(s: State, rpc: string, req: map<string, Json>, world: World)
    ensures AnswerOf(s, rpc, req, world).Replied? ==> AnswerOf(s, rpc, req, world).reply.id == Id(req)
  {
  }

  // ---------- Registration ----------

  /** A resource replaces the one with its address, in its place, or comes last. */
  function WithResource(resources: seq<Resource>, r: Resource): seq<Resource> {
    if resources == [] then [r]
    else if resources[0].uri == r.uri then [r] + resources[1..]
    else [resources[0]] + WithResource(resources[1..], r)
  }

  function WithPrompt(prompts: seq<Prompt>, p: Prompt): seq<Prompt> {
    if prompts == [] then [p]
    else if prompts[0].name == p.name then [p] + prompts[1..]
    else [prompts[0]] + WithPrompt(prompts[1..], p)
  }

  /** The latest registration of an address counts, and no other address is touched. */
  lemma {:induction false} RegisteredIsFound(resources: seq<Resource>, r: Resource, uri: string)
    ensures FindExact(WithResource(resources, r), uri) == if uri == r.uri then Some(r) else FindExact(resources, uri)
  {
    if resources == [] {
      assert [r][1..] == [];
    } else if resources[0].uri == r.uri {
      assert ([r] + resources[1..])[1..] == resources[1..];
    } else {
      RegisteredIsFound(resources[1..], r, uri);
    }
  }

  lemma {:induction false} RegisteredPromptIsFound(prompts: seq<Prompt>, p: Prompt, name: string)
    ensures FindPrompt(WithPrompt(prompts, p), name) == if name == p.name then Some(p) else FindPrompt(prompts, name)
  {
    if prompts == [] {
      assert [p][1..] == [];
    } else if prompts[0].name == p.name {
      assert ([p] + prompts[1..])[1..] == prompts[1..];
    } else {
      RegisteredPromptIsFound(prompts[1..], p, name);
    }
  }

  /** A registration takes the place of the first with its address, or comes last. */
  lemma {:induction false} ResourceIsPlaced(resources: seq<Resource>, r: Resource, k: nat)
    requires k <= |resources| && (forall j :: 0 <= j < k ==> resources[j].uri != r.uri)
    requires k < |resources| ==> resources[k].uri == r.uri
    ensures WithResource(resources, r) == if k < |resources| then resources[k := r] else resources + [r]
  {
    if k > 0 {
      var later := resources[1..];
      ResourceIsPlaced(later, r, k - 1);
      assert WithResource(resources, r) == [resources[0]] + WithResource(later, r);
      hide WithResource;
      FirstBefore(resources, r, k);
    } else if resources == [] {
      assert resources + [r] == [r];
    }
  }

  lemma FirstBefore<T>(s: seq<T>, x: T, k: nat)
    requires 0 < k <= |s|
    ensures k < |s| ==> [s[0]] + s[1..][k - 1 := x] == s[k := x]
    ensures k == |s| ==> [s[0]] + (s[1..] + [x]) == s + [x]
  {
  }

  lemma {:induction false} PromptIsPlaced(prompts: seq<Prompt>, p: Prompt, k: nat)
    requires k <= |prompts| && (forall j :: 0 <= j < k ==> prompts[j].name != p.name)
    requires k < |prompts| ==> prompts[k].name == p.name
    ensures WithPrompt(prompts, p) == if k < |prompts| then prompts[k := p] else prompts + [p]
  {
    if k > 0 {
      var later := prompts[1..];
      PromptIsPlaced(later, p, k - 1);
      assert WithPrompt(prompts, p) == [prompts[0]] + WithPrompt(later, p);
      hide WithPrompt;
      FirstBefore(prompts, p, k);
    } else if prompts == [] {
      assert prompts + [p] == [p];
    }
  }

  // ---------- The object ----------

  class Methods {
    const registry: Registry
    var resources: seq<Resource>
    var prompts: seq<Prompt>
    var logs: seq<LogEntry>

    ghost function Value(): State
      reads this, registry
    {
      State(registry.Value(), resources, prompts, logs)
    }

    constructor (registry: Registry)
      ensures this.registry == registry && resources == [] && prompts == [] && logs == []
    {
      this.registry, resources, prompts, logs := registry, [], [], [];
    }

    method Log(e: LogEntry)
      modifies this`logs
      ensures logs == Pushed(old(logs), e)
    {
      if |logs| >= MAX_LOG_ENTRIES {
        logs := logs[1..];
      }
      logs := logs + [e];
    }

    method GetRecentLogs(maxCount: nat) returns (out: seq<LogEntry>)
      ensures out == LastOf(logs, maxCount)
    {
      out := [];
      if maxCount == 0 || logs == [] {
        return;
      }
      var start := if |logs| > maxCount then |logs| - maxCount else 0;
      for i := start to |logs|
        invariant out == logs[start..i]
      {
        out := out + [logs[i]];
      }
    }

    method ClearLogs()
      modifies this`logs
      ensures logs == []
    {
      logs := [];
    }

    method RegisterResource(r: Resource)
      modifies this`resources
      ensures resources == WithResource(old(resources), r)
    {
      for i := 0 to |resources|
        invariant resources == old(resources)
        invariant WithResource(resources, r) == resources[..i] + WithResource(resources[i..], r)
      {
        assert resources[i..][1..] == resources[i + 1..];
        if resources[i].uri == r.uri {
          resources := resources[i := r];
          return;
        }
      }
      resources := resources + [r];
    }

    method RegisterPrompt(p: Prompt)
      modifies this`prompts
      ensures prompts == WithPrompt(old(prompts), p)
    {
      for i := 0 to |prompts|
        invariant prompts == old(prompts)
        invariant WithPrompt(prompts, p) == prompts[..i] + WithPrompt(prompts[i..], p)
      {
        assert prompts[i..][1..] == prompts[i + 1..];
        if prompts[i].name == p.name {
          prompts := prompts[i := p];
          return;
        }
      }
      prompts := prompts + [p];
    }

    method LookUpResource(uri: string) returns (found: Option<Resource>)
      ensures found == FindResource(resources, uri)
    {
      for i := 0 to |resources|
        invariant FindExact(resources, uri) == FindExact(resources[i..], uri)
      {
        assert resources[i..][1..] == resources[i + 1..];
        if resources[i].uri == uri {
          return Some(resources[i]);
        }
      }
      hide FindExact, IsTemplateFor;
      for i := 0 to |resources|
        invariant FindTemplate(resources, uri) == FindTemplate(resources[i..], uri)
      {
        assert resources[i..][1..] == resources[i + 1..];
        if IsTemplateFor(resources[i], uri) {
          return Some(resources[i]);
        }
      }
      found := None;
    }

    method LookUpPrompt(name: string) returns (found: Option<Prompt>)
      ensures found == FindPrompt(prompts, name)
    {
      for i := 0 to |prompts|
        invariant FindPrompt(prompts, name) == FindPrompt(prompts[i..], name)
      {
        assert prompts[i..][1..] == prompts[i + 1..];
        if prompts[i].name == name {
          return Some(prompts[i]);
        }
      }
      found := None;
    }

    method HandleToolsCall(req: map<string, Json>, world: World) returns (answer: Answer)
      modifies this`logs, registry`callCounts
      ensures answer == CallAnswer(old(Value()), req, world)
      ensures Value() == WithEntry(CallCounted(old(Value()), req, world), CallEntry(old(Value()), req, world))
    {
      hide Pushed;
      var id, params := Id(req), Params(req);
      var text := TextOf(params, "name", "");
      if text.None? {
        return Raised;
      }
      var name := text.value;
      if name == "" {
        Log(ToolEntry("error", "", "error", "missing 'name'"));
        return Replied(Error(id, -32602, "Invalid params: missing 'name'"));
      }
      var tool := registry.GetTool(name);
      if tool.None? {
        Log(ToolEntry("warn", name, "error", "tool not registered"));
        return Replied(Error(id, -32602, "Tool not found: " + name));
      }
      var enabled := registry.IsToolEnabled(name);
      if !enabled {
        Log(ToolEntry("warn", name, "skipped", "tool disabled in panel"));
        return Replied(Error(id, -32601, "Method not found: " + name));
      }
      var outcome := Outcome(tool.value, world.run);
      if outcome.None? {
        return Raised;
      }
      registry.IncrementCallCount(name);
      var result, error := outcome.value.0, outcome.value.1;
      if error != "" {
        Log(ToolEntry("error", name, "error", Preview(error)));
        return if world.prints then Replied(Result(id, ToolResult(error, true))) else Raised;
      }
      Log(ToolEntry("info", name, "ok", Preview(Arguments(params, world))));
      answer := if world.prints then Replied(Result(id, ToolResult(result, false))) else Raised;
    }

    method HandleResourcesRead(req: map<string, Json>, world: World) returns (answer: Answer)
      ensures answer == ReadResource(Value(), req, world)
    {
      hide FindResource;
      var uri := TextOf(Params(req), "uri", "");
      if uri.None? {
        return Raised;
      }
      if uri.value == "" {
        return Replied(Error(Id(req), -32602, "Invalid params: missing 'uri'"));
      }
      var found := LookUpResource(uri.value);
      if found.None? {
        return Replied(Error(Id(req), -32602, "Resource not found: " + uri.value));
      }
      var content := "";
      if found.value.hasHandler {
        if world.text.None? {
          return Raised;
        }
        content := world.text.value;
      }
      answer := Printed(Id(req), ResourceText(uri.value, found.value.mimeType, content), world);
    }

    method HandlePromptsGet(req: map<string, Json>, world: World) returns (answer: Answer)
      ensures answer == GetPrompt(Value(), req, world)
    {
      hide FindPrompt;
      var name := TextOf(Params(req), "name", "");
      if name.None? {
        return Raised;
      }
      if name.value == "" {
        return Replied(Error(Id(req), -32602, "Invalid params: missing 'name'"));
      }
      var found := LookUpPrompt(name.value);
      if found.None? {
        return Replied(Error(Id(req), -32602, "Prompt not found: " + name.value));
      }
      var messages := [];
      if found.value.hasHandler {
        if world.messages.None? {
          return Raised;
        }
        messages := world.messages.value;
      }
      answer := Printed(Id(req), PromptMessages(found.value.description, messages), world);
    }

    method Handle(rpc: string, req: map<string, Json>, world: World) returns (answer: Answer)
      modifies this`logs, registry`callCounts
      ensures answer == AnswerOf(old(Value()), rpc, req, world)
      ensures Value() == Handled(old(Value()), rpc, req, world)
    {
      hide Pushed, CallAnswer, CallEntry, CallCounted, ReadResource, GetPrompt, Initialize, Printed, TextOf, Id;
      if rpc == "ping" {
        answer := Replied(Result(Id(req), Pong));
      } else if rpc == "initialize" {
        answer := Initialize(req);
      } else if rpc == "tools/list" {
        answer := Printed(Id(req), ToolList(registry.tools), world);
      } else if rpc == "tools/call" {
        answer := HandleToolsCall(req, world);
      } else if rpc == "resources/list" {
        answer := Printed(Id(req), ResourceList(resources), world);
      } else if rpc == "resources/read" {
        answer := HandleResourcesRead(req, world);
      } else if rpc == "prompts/list" {
        answer := Printed(Id(req), PromptList(prompts), world);
      } else if rpc == "prompts/get" {
        answer := HandlePromptsGet(req, world);
      } else {
        answer := Unknown;
      }
      if answer.Replied? && rpc != "tools/call" {
        Log(LogEntry("info", rpc, "", "ok", ""));
      }
    }
  }
}
