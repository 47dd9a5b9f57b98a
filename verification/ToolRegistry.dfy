/** The registered tools, which of them are disabled, and how often each has been called. */
module ToolRegistry {
  import opened Wrappers

  /** A tool; `hasHandler` is false for a null handler. */
  datatype Tool = Tool(name: string, description: string, schema: string, mainThread: bool, hasHandler: bool)

  /** What a registration passes in: C strings, which may be null, and whether there is a handler. */
  datatype Registration = Registration(name: Option<string>, description: Option<string>, schema: Option<string>,
    mainThread: bool, hasHandler: bool)

  /** A string as a reader of C strings sees it: up to its first NUL byte. */
  function UpToNul(s: string): (r: string)
    ensures r <= s && '\0' !in r
    ensures r == s || s[|r|] == '\0'
    ensures '\0' !in s ==> r == s
  {
    if s == "" || s[0] == '\0' then ""
    else
      var r := UpToNul(s[1..]);
      assert s[..1 + |r|] == [s[0]] + s[1..][..|r|];
      [s[0]] + r
  }

  function FromC(p: Option<string>, fallback: string): string {
    if p.Some? then UpToNul(p.value) else fallback
  }

  function ToolOf(r: Registration): Tool {
    Tool(FromC(r.name, ""), FromC(r.description, ""), FromC(r.schema, "{}"), r.mainThread, r.hasHandler)
  }

  datatype Tools = Tools(tools: map<string, Tool>, disabled: set<string>, counts: map<string, nat>)

  const EMPTY := Tools(map[], {}, map[])

  /** Only registered tools are disabled. */
  predicate IsConsistent(t: Tools) {
    t.disabled <= t.tools.Keys
  }

  /** Every tool is under its own name, and no name holds a NUL byte. */
  predicate AreNamed(t: Tools) {
    forall name :: name in t.tools ==> t.tools[name].name == name && '\0' !in name
  }

  function Register(t: Tools, r: Registration): Tools {
    t.(tools := t.tools[ToolOf(r).name := ToolOf(r)])
  }

  /** `get_tool` reads the name as a C string. */
  function FindTool(t: Tools, name: string): Option<Tool> {
    if UpToNul(name) in t.tools then Some(t.tools[UpToNul(name)]) else None
  }

  /** A tool is found under every name that a C string reader takes for its own. */
  lemma RegisteredToolIsFound(t: Tools, r: Registration, name: string)
    ensures FindTool(Register(t, r), name)
         == if UpToNul(name) == ToolOf(r).name then Some(ToolOf(r)) else FindTool(t, name)
    ensures AreNamed(t) ==> AreNamed(Register(t, r))
  {
  }

  function SetEnabled(t: Tools, name: string, enabled: bool): Tools {
    if name !in t.tools then t
    else if enabled then t.(disabled := t.disabled - {name})
    else t.(disabled := t.disabled + {name})
  }

  function EnableAll(t: Tools): Tools {
    t.(disabled := {})
  }

  function DisableAll(t: Tools): Tools {
    t.(disabled := t.disabled + t.tools.Keys)
  }

  function CountOf(t: Tools, name: string): nat {
    if name in t.counts then t.counts[name] else 0
  }

  function Counted(t: Tools, name: string): Tools {
    t.(counts := t.counts[name := CountOf(t, name) + 1])
  }

  /** The tools that calls may reach. */
  function Enabled(t: Tools): set<string> {
    t.tools.Keys - t.disabled
  }

  ghost function Sum(counts: map<string, nat>): nat
    decreases |counts|
  {
    if counts == map[] then 0
    else
      var k :| k in counts;
      counts[k] + Sum(counts - {k})
  }

  /** The order of summation does not matter. */
  lemma {:induction false} SumWithout(counts: map<string, nat>, k: string)
    requires k in counts
    ensures Sum(counts) == counts[k] + Sum(counts - {k})
    decreases |counts|
  {
    var j :| j in counts && Sum(counts) == counts[j] + Sum(counts - {j});
    if j == k {
    } else {
      SumWithout(counts - {j}, k);
      SumWithout(counts - {k}, j);
      assert counts - {j} - {k} == counts - {k} - {j};
    }
  }

  /** One more call of one tool is one more call in all. */
  lemma SumCounted(t: Tools, name: string)
    ensures Sum(Counted(t, name).counts) == Sum(t.counts) + 1
  {
    var after := Counted(t, name).counts;
    SumWithout(after, name);
    if name in t.counts {
      SumWithout(t.counts, name);
      assert after - {name} == t.counts - {name};
    } else {
      assert after - {name} == t.counts;
    }
  }

  /** What the panel shows is exact: what `size - size` counts are the enabled tools. */
  lemma EnabledCountIsExact(t: Tools)
    requires IsConsistent(t)
    ensures |t.disabled| <= |t.tools| && |t.tools| - |t.disabled| == |Enabled(t)|
  {
    assert t.tools.Keys == Enabled(t) + t.disabled;
    assert |t.tools| == |t.tools.Keys|;
  }

  function Done(keys: set<string>, left: set<string>, disabled: set<string>): set<string> {
    keys - left - disabled
  }

  function Off(keys: set<string>, left: set<string>, disabled: set<string>): set<string> {
    disabled + (keys - left)
  }

  lemma AllLeft(keys: set<string>, disabled: set<string>)
    ensures Done(keys, keys, disabled) == {} && Off(keys, keys, disabled) == disabled
    ensures Done(keys, {}, disabled) == keys - disabled && Off(keys, {}, disabled) == disabled + keys
  {
  }

  lemma OneMoreDone(keys: set<string>, left: set<string>, disabled: set<string>, name: string)
    requires name in left && left <= keys
    ensures name in Off(keys, left, disabled) <==> name in disabled
    ensures Off(keys, left - {name}, disabled) == Off(keys, left, disabled) + {name}
    ensures |Done(keys, left - {name}, disabled)| == |Done(keys, left, disabled)| + if name in disabled then 0 else 1
  {
    if name in disabled {
      assert Done(keys, left - {name}, disabled) == Done(keys, left, disabled);
    } else {
      assert Done(keys, left - {name}, disabled) == Done(keys, left, disabled) + {name};
    }
  }

  class Registry {
    var tools: map<string, Tool>
    var disabled: set<string>
    var callCounts: map<string, nat>

    function Value(): Tools
      reads this
    {
      Tools(tools, disabled, callCounts)
    }

    constructor ()
      ensures Value() == EMPTY
    {
      tools, disabled, callCounts := map[], {}, map[];
    }

    method RegisterTool(r: Registration)
      modifies this
      ensures Value() == Register(old(Value()), r)
    {
      var name := if r.name.Some? then UpToNul(r.name.value) else "";
      var description := if r.description.Some? then UpToNul(r.description.value) else "";
      var schema := if r.schema.Some? then UpToNul(r.schema.value) else "{}";
      tools := tools[name := Tool(name, description, schema, r.mainThread, r.hasHandler)];
    }

    method GetTool(name: string) returns (tool: Option<Tool>)
      ensures tool == FindTool(Value(), name)
    {
      var key := UpToNul(name);
      tool := if key in tools then Some(tools[key]) else None;
    }

    method EnabledCount() returns (n: nat)
      requires IsConsistent(Value())
      ensures n == |Enabled(Value())|
    {
      EnabledCountIsExact(Value());
      n := |tools| - |disabled|;
    }

    method SetToolEnabled(name: string, enabled: bool) returns (ok: bool)
      modifies this
      ensures Value() == SetEnabled(old(Value()), name, enabled) && ok == (name in old(tools))
    {
      if name !in tools {
        return false;
      }
      if enabled {
        disabled := disabled - {name};
      } else {
        disabled := disabled + {name};
      }
      return true;
    }

    method IsToolEnabled(name: string) returns (enabled: bool)
      ensures enabled == (name !in disabled)
      ensures name in tools ==> (enabled <==> name in Enabled(Value()))
    {
      enabled := name !in disabled;
    }

    method EnableAllTools() returns (n: nat)
      modifies this
      ensures Value() == EnableAll(old(Value())) && n == |old(disabled)|
    {
      n := |disabled|;
      disabled := {};
    }

    /** Returns how many tools it has disabled. */
    method DisableAllTools() returns (n: nat)
      modifies this
      ensures Value() == DisableAll(old(Value())) && n == |Enabled(old(Value()))|
    {
      hide Done, Off;
      n := 0;
      var left := tools.Keys;
      AllLeft(tools.Keys, disabled);
      while left != {}
        invariant left <= tools.Keys && tools == old(tools) && callCounts == old(callCounts)
        invariant disabled == Off(tools.Keys, left, old(disabled))
        invariant n == |Done(tools.Keys, left, old(disabled))|
      {
        var name :| name in left;
        OneMoreDone(tools.Keys, left, old(disabled), name);
        if name !in disabled {
          n := n + 1;
        }
        disabled := disabled + {name};
        left := left - {name};
      }
    }

    method IncrementCallCount(name: string)
      modifies this`callCounts
      ensures Value() == Counted(old(Value()), name)
    {
      callCounts := callCounts[name := (if name in callCounts then callCounts[name] else 0) + 1];
    }

    method TotalCallCount() returns (sum: nat)
      ensures sum == Sum(callCounts)
    {
      sum := 0;
      var left := callCounts;
      while left != map[]
        invariant sum + Sum(left) == Sum(callCounts)
        decreases |left|
      {
        var name :| name in left;
        SumWithout(left, name);
        sum := sum + left[name];
        left := left - {name};
      }
    }

    method GetCallCount(name: string) returns (n: nat)
      ensures n == CountOf(Value(), name)
    {
      n := if name in callCounts then callCounts[name] else 0;
    }
  }
}
