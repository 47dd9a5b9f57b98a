/** What the registry holds after a run, told from the registrations and the panel actions of the run. */
module ToolHistory {
  import opened ToolRegistry
  import opened McpMethods
  import opened McpServer

  /** The action registers a tool under the name, the part of a C string before its end. */
  predicate Registers(a: Action, name: string) {
    a.RegisterTool? && name == UpToNul(if a.registration.name.Some? then a.registration.name.value else "")
  }

  predicate IsRegistered(run: seq<Action>, name: string) {
    exists i :: 0 <= i < |run| && Registers(run[i], name)
  }

  /** The panel acts on the tool, which is registered by then. */
  predicate Concerns(run: seq<Action>, i: nat, name: string)
    requires i < |run|
  {
    && IsRegistered(run[..i], name)
    && (run[i].EnableAllTools? || run[i].DisableAllTools? || (run[i].SetToolEnabled? && run[i].name == name))
  }

  predicate Disables(a: Action) {
    a.DisableAllTools? || (a.SetToolEnabled? && !a.enabled)
  }

  /** The last panel action that concerned the tool while it was registered disabled it. */
  ghost predicate WasDisabled(run: seq<Action>, name: string) {
    exists i :: 0 <= i < |run| && Concerns(run, i, name) && Disables(run[i]) && NoneConcerns(run, i + 1, name)
  }

  predicate NoneConcerns(run: seq<Action>, from: nat, name: string) {
    forall j :: from <= j < |run| ==> !Concerns(run, j, name)
  }

  lemma OneMore(run: seq<Action>, a: Action, name: string)
    ensures IsRegistered(run + [a], name) <==> IsRegistered(run, name) || Registers(a, name)
    ensures forall i :: 0 <= i < |run| ==> (Concerns(run + [a], i, name) <==> Concerns(run, i, name))
  {
    hide Registers;
    var all := run + [a];
    if i :| 0 <= i < |run| && Registers(run[i], name) {
      assert Registers(all[i], name);
    }
    if Registers(a, name) {
      assert all[|run|] == a;
    }
    if i :| 0 <= i < |all| && Registers(all[i], name) {
      assert i < |run| ==> all[i] == run[i];
    }
    hide IsRegistered;
    forall i | 0 <= i < |run|
      ensures Concerns(all, i, name) <==> Concerns(run, i, name)
    {
      assert all[..i] == run[..i] && all[i] == run[i];
    }
  }

  lemma RegisteredEffect(s: State, a: Action, parse: string -> Parse, name: string)
    ensures name in Step(s, a, parse).registry.tools <==> name in s.registry.tools || Registers(a, name)
  {
    hide UpToNul, EntryOf, ComesBack;
  }

  /** A tool is registered exactly when some action has registered it. */
  lemma {:induction false} RegisteredExactly(run: seq<Action>, parse: string -> Parse, name: string)
    ensures name in After(run, parse).registry.tools <==> IsRegistered(run, name)
  {
    if run == [] {
    } else {
      var before, a := run[..|run| - 1], run[|run| - 1];
      assert run == before + [a];
      RegisteredExactly(before, parse, name);
      RegisteredEffect(After(before, parse), a, parse, name);
      OneMore(before, a, name);
      hide Step, IsRegistered, Registers;
    }
  }

  /** The tool is as a registration has it; the description is empty and the schema `{}` unless it gives others. */
  predicate IsAsRegistered(tool: Tool, name: string, r: Registration) {
    && tool.name == name
    && tool.description == (if r.description.Some? then UpToNul(r.description.value) else "")
    && tool.schema == (if r.schema.Some? then UpToNul(r.schema.value) else "{}")
    && tool.mainThread == r.mainThread && tool.hasHandler == r.hasHandler
  }

  /** What a step does to the tool of a name. */
  lemma ToolEffect(s: State, a: Action, parse: string -> Parse, name: string)
    ensures var tools, tools' := s.registry.tools, Step(s, a, parse).registry.tools;
      && (Registers(a, name) ==> name in tools' && IsAsRegistered(tools'[name], name, a.registration))
      && (!Registers(a, name) ==>
            (name in tools' <==> name in tools) && (name in tools ==> tools'[name] == tools[name]))
  {
    NoNul();
    hide UpToNul, EntryOf, ComesBack;
  }

  lemma NoNul()
    ensures UpToNul("") == "" && UpToNul("{}") == "{}"
  {
  }

  predicate NoneRegisters(run: seq<Action>, from: nat, name: string) {
    forall j :: from <= j < |run| ==> !Registers(run[j], name)
  }

  lemma LastStep(run: seq<Action>, parse: string -> Parse, name: string, i: nat)
    requires run != [] && NoneRegisters(run, i + 1, name)
    ensures var before, a := run[..|run| - 1], run[|run| - 1]; After(run, parse) == Step(After(before, parse), a, parse)
    ensures NoneRegisters(run[..|run| - 1], i + 1, name)
    ensures i < |run| - 1 ==> !Registers(run[|run| - 1], name)
  {
    hide Step, Registers;
  }

  /** The last registration of a name counts. */
  lemma {:induction false} LastRegistrationCounts(run: seq<Action>, parse: string -> Parse, name: string, i: nat)
    requires i < |run| && Registers(run[i], name) && NoneRegisters(run, i + 1, name)
    ensures var tools := After(run, parse).registry.tools;
      name in tools && IsAsRegistered(tools[name], name, run[i].registration)
    decreases |run|
  {
    hide *;
    var before, a := run[..|run| - 1], run[|run| - 1];
    LastStep(run, parse, name, i);
    ToolEffect(After(before, parse), a, parse, name);
    if i < |before| {
      assert before[i] == run[i];
      LastRegistrationCounts(before, parse, name, i);
    }
  }

  lemma DisabledEffect(s: State, a: Action, parse: string -> Parse, name: string)
    requires IsConsistent(s.registry)
    ensures var off := name in Step(s, a, parse).registry.disabled;
      if name in s.registry.tools && (a.EnableAllTools? || a.DisableAllTools? || (a.SetToolEnabled? && a.name == name))
      then off <==> Disables(a) else off <==> name in s.registry.disabled
  {
    hide UpToNul, EntryOf, ComesBack;
  }

  lemma WasDisabledStep(run: seq<Action>, a: Action, name: string)
    ensures WasDisabled(run + [a], name) <==>
      if Concerns(run + [a], |run|, name) then Disables(a) else WasDisabled(run, name)
  {
    hide Concerns, Disables;
    var all := run + [a];
    OneMore(run, a, name);
    if i :| 0 <= i < |all| && Concerns(all, i, name) && Disables(all[i]) && NoneConcerns(all, i + 1, name) {
      if i < |run| {
        assert NoneConcerns(run, i + 1, name) && run[i] == all[i];
        assert !Concerns(all, |run|, name);
      }
    }
    if i :| 0 <= i < |run| && Concerns(run, i, name) && Disables(run[i]) && NoneConcerns(run, i + 1, name) {
      if !Concerns(all, |run|, name) {
        assert Concerns(all, i, name) && all[i] == run[i] && NoneConcerns(all, i + 1, name);
      }
    }
    if Concerns(all, |run|, name) && Disables(a) {
      assert all[|run|] == a && NoneConcerns(all, |run| + 1, name);
    }
  }

  /**
   Over every run, a tool is disabled if and only if the last panel action that concerned it, while it was registered,
   disabled it.
   */
  lemma {:induction false} DisabledExactly(run: seq<Action>, parse: string -> Parse, name: string)
    ensures name in After(run, parse).registry.disabled <==> WasDisabled(run, name)
  {
    if run == [] {
    } else {
      var before, a := run[..|run| - 1], run[|run| - 1];
      assert run == before + [a] && run[..|before|] == before;
      DisabledExactly(before, parse, name);
      DisabledAreRegistered(before, parse);
      RegisteredExactly(before, parse, name);
      DisabledEffect(After(before, parse), a, parse, name);
      WasDisabledStep(before, a, name);
      hide Step, WasDisabled, IsRegistered, Disables;
    }
  }
}
