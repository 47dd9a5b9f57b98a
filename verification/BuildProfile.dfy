/** Trimming the engine API by a build profile: which classes and which methods stay. */
module BuildProfile {
  import opened Wrappers
  import opened ByteText

  /** A method; a missing return value has the empty type. */
  datatype Method = Method(name: string, returnType: string, arguments: seq<string>)

  /** A class of the API; `inherits` is empty for a root, and `methods` may be missing. */
  datatype Class = Class(name: string, inherits: string, methods: Option<seq<Method>>)

  datatype Api = Api(classes: seq<Class>, structures: seq<string>)

  /** The lists of a profile file, as they are given; a missing list is empty. */
  datatype Profile = Profile(enabled: seq<string>, disabled: seq<string>)

  // ---------- Least closed sets ----------

  function Successors(graph: map<string, seq<string>>, c: string): seq<string> {
    if c in graph then graph[c] else []
  }

  ghost predicate IsClosed(s: set<string>, graph: map<string, seq<string>>) {
    forall c, d :: c in s && d in Successors(graph, c) ==> d in s
  }

  /** The least set that holds the seeds and with each member its successors. */
  ghost predicate IsLeastClosed(s: set<string>, seeds: set<string>, graph: map<string, seq<string>>) {
    && seeds <= s && IsClosed(s, graph)
    && forall t: set<string> :: seeds <= t && IsClosed(t, graph) ==> s <= t
  }

  function Elements(s: seq<string>): set<string> {
    set c | c in s
  }

  /** Everything the worklist can ever hold. */
  function Universe(seeds: seq<string>, graph: map<string, seq<string>>): set<string> {
    Elements(seeds) + set c, d | c in graph && d in graph[c] :: d
  }

  /** What the worklist loops keep: nothing is lost, and nothing is taken that need not be. */
  ghost predicate IsPartial(done: seq<string>, front: seq<string>, seeds: seq<string>,
                            graph: map<string, seq<string>>)
  {
    && Elements(seeds) <= Elements(done) + Elements(front) <= Universe(seeds, graph)
    && (forall i, j :: 0 <= i < j < |done| ==> done[i] != done[j])
    && (forall c, d :: c in done && d in Successors(graph, c) ==> d in done || d in front)
    && (forall t: set<string> :: Elements(seeds) <= t && IsClosed(t, graph) ==> Elements(done) + Elements(front) <= t)
  }

  lemma InUniverse(seeds: seq<string>, graph: map<string, seq<string>>, c: string)
    ensures forall d :: d in Successors(graph, c) ==> d in Universe(seeds, graph)
  {
  }

  /** A class met again is dropped from the worklist. */
  lemma PartialDrops(done: seq<string>, front: seq<string>, cls: string, seeds: seq<string>,
                     graph: map<string, seq<string>>)
    requires IsPartial(done, front + [cls], seeds, graph) && cls in done
    ensures IsPartial(done, front, seeds, graph)
  {
    hide Successors, Universe, IsClosed;
    var before := front + [cls];
    assert forall c :: c in before <==> c in front || c == cls;
    assert Elements(done) + Elements(before) == Elements(done) + Elements(front);
  }

  /** A new class is taken over, and its successors go on the worklist. */
  lemma PartialTakes(done: seq<string>, front: seq<string>, cls: string, seeds: seq<string>,
                     graph: map<string, seq<string>>)
    requires IsPartial(done, front + [cls], seeds, graph) && cls !in done
    ensures IsPartial(done + [cls], front + Successors(graph, cls), seeds, graph)
    ensures Universe(seeds, graph) - Elements(done + [cls]) < Universe(seeds, graph) - Elements(done)
  {
    var before, next := front + [cls], Successors(graph, cls);
    var done', front' := done + [cls], front + next;
    assert forall c :: c in before <==> c in front || c == cls;
    assert forall c :: c in done' <==> c in done || c == cls;
    assert forall c :: c in front' <==> c in front || c in next;
    InUniverse(seeds, graph, cls);
    assert cls in Elements(before);
    hide Successors, Universe;
    assert Elements(done') + Elements(front') == Elements(done) + Elements(before) + Elements(next);
    forall t: set<string> | Elements(seeds) <= t && IsClosed(t, graph)
      ensures Elements(done') + Elements(front') <= t
    {
      assert cls in t;
    }
    assert cls in Universe(seeds, graph) - Elements(done);
    assert cls !in Universe(seeds, graph) - Elements(done');
  }

  lemma PartialEnds(done: seq<string>, seeds: seq<string>, graph: map<string, seq<string>>)
    requires IsPartial(done, [], seeds, graph)
    ensures IsLeastClosed(Elements(done), Elements(seeds), graph)
  {
  }

  // ---------- The class tree ----------

  /** The parent of each class; of two classes of one name the later counts. */
  function ParentsOf(classes: seq<Class>): map<string, string> {
    if classes == [] then map[]
    else
      var c := classes[|classes| - 1];
      ParentsOf(classes[..|classes| - 1])[c.name := c.inherits]
  }

  function ChildrenOf(classes: seq<Class>): map<string, seq<string>> {
    if classes == [] then map[]
    else
      var before, c := ChildrenOf(classes[..|classes| - 1]), classes[|classes| - 1];
      if c.inherits == "" then before else before[c.inherits := Successors(before, c.inherits) + [c.name]]
  }

  /** Parents as a graph: every class leads to its parent, unless it has none. */
  function Upward(parents: map<string, string>): map<string, seq<string>> {
    map c | c in parents && parents[c] != "" :: [parents[c]]
  }

  predicate HasUniqueNames(classes: seq<Class>) {
    forall i, j :: 0 <= i < j < |classes| ==> classes[i].name != classes[j].name
  }

  lemma {:induction false} ParentIs(classes: seq<Class>, c: Class)
    requires c in classes && HasUniqueNames(classes)
    ensures c.name in ParentsOf(classes) && ParentsOf(classes)[c.name] == c.inherits
  {
    var before, last := classes[..|classes| - 1], classes[|classes| - 1];
    assert classes == before + [last];
    if c == last {
    } else {
      ParentIs(before, c);
      var i :| 0 <= i < |before| && before[i] == c;
      assert classes[i].name != classes[|classes| - 1].name;
    }
  }

  lemma {:induction false} ChildIs(classes: seq<Class>, parent: string, child: string)
    ensures child in Successors(ChildrenOf(classes), parent)
      <==> parent != "" && exists c :: c in classes && c.name == child && c.inherits == parent
  {
    if classes == [] {
    } else {
      var before, last := classes[..|classes| - 1], classes[|classes| - 1];
      assert classes == before + [last];
      ChildIs(before, parent, child);
      assert forall c :: c in classes <==> c in before || c == last;
    }
  }

  method BuildTree(classes: seq<Class>) returns (parents: map<string, string>, children: map<string, seq<string>>)
    ensures parents == ParentsOf(classes) && children == ChildrenOf(classes)
  {
    parents, children := map[], map[];
    for i := 0 to |classes|
      invariant parents == ParentsOf(classes[..i]) && children == ChildrenOf(classes[..i])
    {
      assert classes[..i + 1][..i] == classes[..i];
      var parent, child := classes[i].inherits, classes[i].name;
      parents := parents[child := parent];
      if parent == "" {
        continue;
      }
      children := children[parent := Successors(children, parent)];
      children := children[parent := children[parent] + [child]];
    }
    assert classes[..|classes|] == classes;
  }

  // ---------- The worklists ----------

  method CloseUpward(seeds: seq<string>, parents: map<string, string>) returns (included: seq<string>)
    ensures IsLeastClosed(Elements(included), Elements(seeds), Upward(parents))
  {
    ghost var graph := Upward(parents);
    included := [];
    var front := seeds;
    while front != []
      invariant IsPartial(included, front, seeds, graph)
      decreases Universe(seeds, graph) - Elements(included), |front|
    {
      var cls := front[|front| - 1];
      assert front == front[..|front| - 1] + [cls];
      front := front[..|front| - 1];
      if cls in included {
        PartialDrops(included, front, cls, seeds, graph);
        continue;
      }
      PartialTakes(included, front, cls, seeds, graph);
      included := included + [cls];
      var parent := if cls in parents then parents[cls] else "";
      hide IsPartial, Universe;
      if parent != "" {
        front := front + [parent];
      } else {
        assert front + [] == front;
      }
    }
    PartialEnds(included, seeds, graph);
  }

  method CloseDownward(seeds: seq<string>, children: map<string, seq<string>>) returns (excluded: seq<string>)
    ensures IsLeastClosed(Elements(excluded), Elements(seeds), children)
  {
    excluded := [];
    var front := seeds;
    while front != []
      invariant IsPartial(excluded, front, seeds, children)
      decreases Universe(seeds, children) - Elements(excluded), |front|
    {
      var cls := front[|front| - 1];
      assert front == front[..|front| - 1] + [cls];
      front := front[..|front| - 1];
      if cls in excluded {
        PartialDrops(excluded, front, cls, seeds, children);
        continue;
      }
      PartialTakes(excluded, front, cls, seeds, children);
      excluded := excluded + [cls];
      front := front + Successors(children, cls);
    }
    PartialEnds(excluded, seeds, children);
  }

  /** The classes that the bindings themselves use. */
  const ALWAYS := ["WorkerThreadPool", "ClassDB", "ClassDBSingleton", "FileAccess", "Image", "XMLParser", "Semaphore"]

  /** The classes that a profile enables, with those that are always needed when it enables any. */
  function EnabledSeeds(profile: Profile): seq<string> {
    if profile.enabled == [] then [] else profile.enabled + ALWAYS
  }

  /** What `parse_build_profile` returns: the closed lists. */
  datatype Lists = Lists(included: seq<string>, excluded: seq<string>)

  ghost predicate AreListsOf(lists: Lists, profile: Profile, classes: seq<Class>) {
    && IsLeastClosed(Elements(lists.included), Elements(EnabledSeeds(profile)), Upward(ParentsOf(classes)))
    && IsLeastClosed(Elements(lists.excluded), Elements(profile.disabled), ChildrenOf(classes))
  }

  method ParseBuildProfile(profile: Profile, classes: seq<Class>) returns (lists: Lists)
    ensures AreListsOf(lists, profile, classes)
  {
    hide IsLeastClosed;
    var parents, children := BuildTree(classes);
    var front := profile.enabled;
    if front != [] {
      front := front + ALWAYS;
    }
    var included := CloseUpward(front, parents);
    var excluded := CloseDownward(profile.disabled, children);
    lists := Lists(included, excluded);
  }

  // ---------- The classes that a method refers to ----------

  /** `s.replace(p, "")`. */
  function RemoveAll(s: string, p: string): string
    requires p != ""
    decreases |s|
  {
    match Find(s, p, 0)
    case None => s
    case Some(i) => s[..i] + RemoveAll(s[i + |p|..], p)
  }

  /** `s.split(".")[0]`. */
  function UpToDot(s: string): string {
    match Find(s, ".", 0)
    case None => s
    case Some(i) => s[..i]
  }

  predicate IsBitfield(typeName: string) {
    StartsWith(typeName, "bitfield::")
  }

  predicate IsEnum(typeName: string) {
    StartsWith(typeName, "enum::") || IsBitfield(typeName)
  }

  function EnumClass(enumName: string): string {
    if '.' in enumName then
      UpToDot(RemoveAll(enumName, if IsBitfield(enumName) then "bitfield::" else "enum::"))
    else "GlobalConstants"
  }

  function BaseType(typeName: string): string {
    var a := if StartsWith(typeName, "const ") then typeName[6..] else typeName;
    var b := if EndsWith(a, "*") then a[..|a| - 1] else a;
    if StartsWith(b, "typedarray::") then RemoveAll(b, "typedarray::") else b
  }

  /** The recognised class that a type names, directly or through one of its enumerations. */
  function ClassOf(typeName: string, engine: set<string>): set<string> {
    var base := BaseType(typeName);
    if base in engine then {base}
    else if IsEnum(base) && EnumClass(base) in engine then {EnumClass(base)}
    else {}
  }

  function ClassesOf(types: seq<string>, engine: set<string>): set<string> {
    if types == [] then {} else ClassesOf(types[..|types| - 1], engine) + ClassOf(types[|types| - 1], engine)
  }

  /** Every recognised class in the signature of a method. */
  function Mentions(m: Method, engine: set<string>): set<string> {
    ClassOf(m.returnType, engine) + ClassesOf(m.arguments, engine)
  }

  // ---------- What stays ----------

  predicate ClassStays(name: string, lists: Lists) {
    if lists.included != [] then name in lists.included
    else lists.excluded == [] || name !in lists.excluded
  }

  predicate MethodStays(m: Method, lists: Lists, engine: set<string>) {
    forall c :: c in Mentions(m, engine) ==>
      (lists.included == [] || c in lists.included) && (lists.excluded == [] || c !in lists.excluded)
  }

  function KeptMethods(methods: seq<Method>, lists: Lists, engine: set<string>): seq<Method> {
    if methods == [] then []
    else
      var m := methods[|methods| - 1];
      KeptMethods(methods[..|methods| - 1], lists, engine) + if MethodStays(m, lists, engine) then [m] else []
  }

  function KeptClass(c: Class, lists: Lists, engine: set<string>): Class {
    match c.methods
    case None => c
    case Some(methods) => c.(methods := Some(KeptMethods(methods, lists, engine)))
  }

  function KeptClasses(classes: seq<Class>, lists: Lists, engine: set<string>): seq<Class> {
    if classes == [] then []
    else
      var c := classes[|classes| - 1];
      KeptClasses(classes[..|classes| - 1], lists, engine)
      + if ClassStays(c.name, lists) then [KeptClass(c, lists, engine)] else []
  }

  /** The names that a signature is searched for: classes and native structures, object ids excepted. */
  function EngineNames(api: Api): set<string> {
    (set c | c in api.classes :: c.name) + (set s | s in api.structures && s != "ObjectID")
  }

  function Trimmed(api: Api, lists: Lists): Api {
    api.(classes := KeptClasses(api.classes, lists, EngineNames(api)))
  }

  method IsClassIncluded(name: string, lists: Lists) returns (r: bool)
    ensures r == ClassStays(name, lists)
  {
    if lists.included != [] {
      return name in lists.included;
    }
    if lists.excluded != [] {
      return name !in lists.excluded;
    }
    return true;
  }

  method IsMethodIncluded(m: Method, lists: Lists, engine: set<string>) returns (r: bool)
    ensures r == MethodStays(m, lists, engine)
  {
    hide ClassOf;
    var refs := ClassOf(m.returnType, engine);
    for i := 0 to |m.arguments|
      invariant refs == ClassOf(m.returnType, engine) + ClassesOf(m.arguments[..i], engine)
    {
      assert m.arguments[..i + 1][..i] == m.arguments[..i];
      refs := refs + ClassOf(m.arguments[i], engine);
    }
    assert m.arguments[..|m.arguments|] == m.arguments;
    assert refs == Mentions(m, engine);
    hide Mentions;
    var left := refs;
    while left != {}
      invariant left <= refs
      invariant forall c :: c in refs && c !in left ==>
        (lists.included == [] || c in lists.included) && (lists.excluded == [] || c !in lists.excluded)
    {
      var c :| c in left;
      if |lists.included| > 0 && c !in lists.included {
        return false;
      } else if |lists.excluded| > 0 && c in lists.excluded {
        return false;
      }
      left := left - {c};
    }
    return true;
  }

  method TrimMethods(methods: seq<Method>, lists: Lists, engine: set<string>) returns (kept: seq<Method>)
    ensures kept == KeptMethods(methods, lists, engine)
  {
    kept := [];
    hide MethodStays;
    for i := 0 to |methods|
      invariant kept == KeptMethods(methods[..i], lists, engine)
    {
      assert methods[..i + 1][..i] == methods[..i];
      var stays := IsMethodIncluded(methods[i], lists, engine);
      if !stays {
        continue;
      }
      kept := kept + [methods[i]];
    }
    assert methods[..|methods|] == methods;
  }

  /** `generate_trimmed_api`; without a profile the API stays as it is. */
  method GenerateTrimmedApi(api: Api, profile: Option<Profile>) returns (trimmed: Api)
    ensures profile.None? ==> trimmed == api
    ensures profile.Some? ==>
      exists lists :: AreListsOf(lists, profile.value, api.classes) && trimmed == Trimmed(api, lists)
  {
    if profile.None? {
      return api;
    }
    hide AreListsOf, ClassStays, KeptMethods;
    var lists := ParseBuildProfile(profile.value, api.classes);
    var engine := EngineNames(api);
    hide EngineNames;
    var classes := [];
    for i := 0 to |api.classes|
      invariant classes == KeptClasses(api.classes[..i], lists, engine)
    {
      assert api.classes[..i + 1][..i] == api.classes[..i];
      var classApi := api.classes[i];
      var stays := IsClassIncluded(classApi.name, lists);
      if !stays {
        continue;
      }
      if classApi.methods.Some? {
        var methods := TrimMethods(classApi.methods.value, lists, engine);
        classApi := classApi.(methods := Some(methods));
      }
      classes := classes + [classApi];
    }
    assert api.classes[..|api.classes|] == api.classes;
    trimmed := api.(classes := classes);
  }

  // ---------- What trimming guarantees ----------

  lemma {:induction false} KeptClassesAre(classes: seq<Class>, lists: Lists, engine: set<string>, k: Class)
    ensures k in KeptClasses(classes, lists, engine)
      <==> exists c :: c in classes && ClassStays(c.name, lists) && k == KeptClass(c, lists, engine)
  {
    hide ClassStays, KeptClass;
    if classes == [] {
    } else {
      var before, last := classes[..|classes| - 1], classes[|classes| - 1];
      assert classes == before + [last];
      KeptClassesAre(before, lists, engine, k);
      assert forall c :: c in classes <==> c in before || c == last;
    }
  }

  lemma {:induction false} KeptMethodsAre(methods: seq<Method>, lists: Lists, engine: set<string>, m: Method)
    ensures m in KeptMethods(methods, lists, engine) <==> m in methods && MethodStays(m, lists, engine)
  {
    hide MethodStays;
    if methods == [] {
    } else {
      var before, last := methods[..|methods| - 1], methods[|methods| - 1];
      assert methods == before + [last];
      KeptMethodsAre(before, lists, engine, m);
    }
  }

  /** Places in a list, each after the one before. */
  predicate Ascends(places: seq<nat>, n: nat) {
    (forall i :: 0 <= i < |places| ==> places[i] < n) && forall i, j :: 0 <= i < j < |places| ==> places[i] < places[j]
  }

  /** The methods that stay are in the order of the original. */
  lemma {:induction false} MethodsInOrder(methods: seq<Method>, lists: Lists, engine: set<string>)
    returns (places: seq<nat>)
    ensures var kept := KeptMethods(methods, lists, engine);
      && Ascends(places, |methods|) && |places| == |kept|
      && forall i :: 0 <= i < |kept| ==> kept[i] == methods[places[i]]
  {
    hide MethodStays;
    if methods == [] {
      places := [];
    } else {
      var n := |methods| - 1;
      places := MethodsInOrder(methods[..n], lists, engine);
      if MethodStays(methods[n], lists, engine) {
        places := places + [n];
      }
    }
  }

  /** So are the classes, each with its own methods that stay. */
  lemma {:induction false} ClassesInOrder(classes: seq<Class>, lists: Lists, engine: set<string>)
    returns (places: seq<nat>)
    ensures var kept := KeptClasses(classes, lists, engine);
      && Ascends(places, |classes|) && |places| == |kept|
      && forall i :: 0 <= i < |kept| ==> kept[i] == KeptClass(classes[places[i]], lists, engine)
  {
    hide ClassStays, KeptClass;
    if classes == [] {
      places := [];
    } else {
      var n := |classes| - 1;
      places := ClassesInOrder(classes[..n], lists, engine);
      if ClassStays(classes[n].name, lists) {
        places := places + [n];
      }
    }
  }

  lemma ElementsIn(s: seq<string>)
    ensures forall c :: c in Elements(s) <==> c in s
    ensures Elements(s) == {} <==> s == []
  {
    if s != [] {
      assert s[0] in Elements(s);
    }
  }

  /** The lists are empty exactly when the profile leaves them empty. */
  lemma EmptyLists(lists: Lists, profile: Profile, classes: seq<Class>)
    requires AreListsOf(lists, profile, classes)
    ensures lists.included == [] <==> profile.enabled == []
    ensures lists.excluded == [] <==> profile.disabled == []
  {
    ElementsIn(lists.included);
    ElementsIn(lists.excluded);
    ElementsIn(EnabledSeeds(profile));
    ElementsIn(profile.disabled);
    hide ParentsOf, Upward, ChildrenOf, Elements;
    var up, down := Upward(ParentsOf(classes)), ChildrenOf(classes);
    assert IsClosed({}, up) && IsClosed({}, down);
  }

  predicate HasName(classes: seq<Class>, name: string) {
    exists p :: p in classes && p.name == name
  }

  /** Going up from class `name`, or from the classes that are always needed, one comes to `parent`. */
  ghost predicate ComesTo(classes: seq<Class>, name: string, parent: string) {
    forall t: set<string> :: Elements([name] + ALWAYS) <= t && IsClosed(t, Upward(ParentsOf(classes))) ==> parent in t
  }

  /** Going up from a class of the API, one comes to its parent, if the API has it. */
  ghost predicate LeadsUp(classes: seq<Class>) {
    forall c :: c in classes && c.inherits != "" && HasName(classes, c.inherits) ==>
      ComesTo(classes, c.name, c.inherits)
  }

  /** It does when no two classes have the same name. */
  lemma UniqueNamesLeadUp(classes: seq<Class>)
    requires HasUniqueNames(classes)
    ensures LeadsUp(classes)
  {
    hide HasUniqueNames, HasName, IsClosed, ParentsOf;
    forall c, t: set<string> | c in classes && c.inherits != ""
        && Elements([c.name] + ALWAYS) <= t && IsClosed(t, Upward(ParentsOf(classes)))
      ensures c.inherits in t
    {
      ParentIs(classes, c);
      assert ([c.name] + ALWAYS)[0] == c.name;
      assert c.inherits in Successors(Upward(ParentsOf(classes)), c.name);
      InClosed(t, Upward(ParentsOf(classes)), c.name, c.inherits);
    }
  }

  lemma InClosed(t: set<string>, graph: map<string, seq<string>>, c: string, d: string)
    requires IsClosed(t, graph) && c in t && d in Successors(graph, c)
    ensures d in t
  {
  }

  /** Enabled classes stay with their parents, all the way up. */
  lemma EnabledParentStays(api: Api, profile: Profile, lists: Lists, c: Class, p: Class)
    requires AreListsOf(lists, profile, api.classes) && lists.included != [] && LeadsUp(api.classes)
    requires c in api.classes && p in api.classes && c.inherits == p.name && p.name != "" && ClassStays(c.name, lists)
    ensures ClassStays(p.name, lists)
  {
    EmptyLists(lists, profile, api.classes);
    ElementsIn(lists.included);
    ElementsIn(EnabledSeeds(profile));
    ElementsIn([c.name] + ALWAYS);
    assert HasName(api.classes, p.name);
    hide ParentsOf, Upward, ChildrenOf, IsClosed, Elements;
    assert ComesTo(api.classes, c.name, p.name);
  }

  /** Disabled classes go with everything below them. */
  lemma DisabledParentStays(api: Api, profile: Profile, lists: Lists, c: Class, p: Class)
    requires AreListsOf(lists, profile, api.classes) && lists.included == []
    requires c in api.classes && p in api.classes && c.inherits == p.name && p.name != "" && ClassStays(c.name, lists)
    ensures ClassStays(p.name, lists)
  {
    var graph := ChildrenOf(api.classes);
    ChildIs(api.classes, p.name, c.name);
    ElementsIn(lists.excluded);
    hide ParentsOf, Upward, ChildrenOf;
    assert IsClosed(Elements(lists.excluded), graph);
  }

  /** The trimmed API keeps no class without its parent, unless homonyms hide the parent from the upward search. */
  lemma ParentsStay(api: Api, profile: Profile, lists: Lists, k: Class)
    requires AreListsOf(lists, profile, api.classes) && (lists.included != [] ==> LeadsUp(api.classes))
    requires k in Trimmed(api, lists).classes && k.inherits != ""
    ensures HasName(api.classes, k.inherits) <==> HasName(Trimmed(api, lists).classes, k.inherits)
  {
    var engine := EngineNames(api);
    hide AreListsOf, ClassStays, EngineNames, KeptMethods, LeadsUp;
    KeptClassesAre(api.classes, lists, engine, k);
    var c :| c in api.classes && ClassStays(c.name, lists) && k == KeptClass(c, lists, engine);
    if p :| p in api.classes && p.name == k.inherits {
      if lists.included != [] {
        EnabledParentStays(api, profile, lists, c, p);
      } else {
        DisabledParentStays(api, profile, lists, c, p);
      }
      KeptClassesAre(api.classes, lists, engine, KeptClass(p, lists, engine));
      assert KeptClass(p, lists, engine).name == k.inherits;
    }
    if q :| q in Trimmed(api, lists).classes && q.name == k.inherits {
      KeptClassesAre(api.classes, lists, engine, q);
      var p :| p in api.classes && ClassStays(p.name, lists) && q == KeptClass(p, lists, engine);
    }
  }

  lemma MentionsStay(m: Method, lists: Lists, engine: set<string>, c: string)
    requires MethodStays(m, lists, engine) && c in Mentions(m, engine)
    ensures ClassStays(c, lists)
  {
    hide Mentions;
  }

  /**
   A kept class keeps exactly the methods none of whose recognised classes is left out; no method that stays
   mentions a class that goes.
   */
  lemma MethodsStay(api: Api, lists: Lists, k: Class, m: Method)
    requires k in Trimmed(api, lists).classes
    ensures exists c ::
      && c in api.classes && ClassStays(c.name, lists) && c.name == k.name && c.inherits == k.inherits
      && (c.methods.Some? <==> k.methods.Some?)
      && (c.methods.Some? ==>
          (m in k.methods.value <==> m in c.methods.value && MethodStays(m, lists, EngineNames(api))))
    ensures k.methods.Some? && m in k.methods.value ==>
      forall d :: d in Mentions(m, EngineNames(api)) ==> ClassStays(d, lists)
  {
    var engine := EngineNames(api);
    hide ClassStays, MethodStays, EngineNames, KeptMethods;
    KeptClassesAre(api.classes, lists, engine, k);
    var c :| c in api.classes && ClassStays(c.name, lists) && k == KeptClass(c, lists, engine);
    if c.methods.Some? {
      KeptMethodsAre(c.methods.value, lists, engine, m);
    }
    if MethodStays(m, lists, engine) {
      forall d | d in Mentions(m, engine)
        ensures ClassStays(d, lists)
      {
        MentionsStay(m, lists, engine, d);
      }
    }
  }

  /** All the classes that the method mentions are enabled, and one of them is disabled too. */
  ghost predicate IsOnBothLists(m: Method, lists: Lists, engine: set<string>) {
    Mentions(m, engine) <= Elements(lists.included) && Mentions(m, engine) * Elements(lists.excluded) != {}
  }

  lemma OnlyBothListsCount(m: Method, lists: Lists, engine: set<string>)
    requires lists.included != []
    ensures MethodStays(m, lists, engine) ==> MethodStays(m, lists.(excluded := []), engine)
    ensures MethodStays(m, lists, engine) != MethodStays(m, lists.(excluded := []), engine)
      <==> IsOnBothLists(m, lists, engine)
  {
    hide Mentions;
    var mentions := Mentions(m, engine);
    if c :| c in mentions && c in lists.excluded {
      assert c in mentions * Elements(lists.excluded);
    }
  }

  ghost predicate SomeOnBoth(methods: seq<Method>, lists: Lists, engine: set<string>) {
    exists m :: m in methods && IsOnBothLists(m, lists, engine)
  }

  ghost predicate LosesMethod(c: Class, lists: Lists, engine: set<string>) {
    c.methods.Some? && SomeOnBoth(c.methods.value, lists, engine)
  }

  lemma KeptOneMore(methods: seq<Method>, lists: Lists, engine: set<string>)
    requires methods != []
    ensures var before, last := methods[..|methods| - 1], methods[|methods| - 1];
      var kept := KeptMethods(before, lists, engine);
      KeptMethods(methods, lists, engine) == if MethodStays(last, lists, engine) then kept + [last] else kept
  {
    hide MethodStays;
    var kept := KeptMethods(methods[..|methods| - 1], lists, engine);
    assert kept + [] == kept;
  }

  lemma OneMore<T>(a: seq<T>, b: seq<T>, x: T)
    requires |a| <= |b|
    ensures a + [x] == b + [x] <==> a == b
    ensures a != b + [x]
  {
    if |a| == |b| {
      LastsDiffer(a, x, b, x);
    }
    assert |a + [x]| == |a| + 1 && |b + [x]| == |b| + 1;
  }

  lemma SomeOnBothLast(methods: seq<Method>, lists: Lists, engine: set<string>)
    requires methods != []
    ensures var before, last := methods[..|methods| - 1], methods[|methods| - 1];
      SomeOnBoth(methods, lists, engine) <==> SomeOnBoth(before, lists, engine) || IsOnBothLists(last, lists, engine)
  {
    hide IsOnBothLists;
    var before, last := methods[..|methods| - 1], methods[|methods| - 1];
    assert methods == before + [last];
    assert forall m :: m in methods <==> m in before || m == last;
  }

  lemma {:induction false} MethodsLost(methods: seq<Method>, lists: Lists, engine: set<string>)
    requires lists.included != []
    ensures |KeptMethods(methods, lists, engine)| <= |KeptMethods(methods, lists.(excluded := []), engine)|
    ensures KeptMethods(methods, lists, engine) != KeptMethods(methods, lists.(excluded := []), engine)
      <==> SomeOnBoth(methods, lists, engine)
  {
    if methods == [] {
    } else {
      var all, before, last := lists.(excluded := []), methods[..|methods| - 1], methods[|methods| - 1];
      hide *;
      MethodsLost(before, lists, engine);
      OnlyBothListsCount(last, lists, engine);
      SomeOnBothLast(methods, lists, engine);
      KeptOneMore(methods, lists, engine);
      KeptOneMore(methods, all, engine);
      OneMore(KeptMethods(before, lists, engine), KeptMethods(before, all, engine), last);
    }
  }

  lemma ClassLoses(c: Class, lists: Lists, engine: set<string>)
    requires lists.included != []
    ensures KeptClass(c, lists, engine) != KeptClass(c, lists.(excluded := []), engine)
      <==> LosesMethod(c, lists, engine)
  {
    hide KeptMethods, SomeOnBoth;
    if c.methods.Some? {
      MethodsLost(c.methods.value, lists, engine);
    }
  }

  /** A class that stays loses a method. */
  ghost predicate SomeLose(classes: seq<Class>, lists: Lists, engine: set<string>) {
    exists c :: c in classes && ClassStays(c.name, lists) && LosesMethod(c, lists, engine)
  }

  lemma SomeLoseLast(classes: seq<Class>, lists: Lists, engine: set<string>)
    requires classes != []
    ensures var before, last := classes[..|classes| - 1], classes[|classes| - 1];
      SomeLose(classes, lists, engine) <==>
      SomeLose(before, lists, engine) || (ClassStays(last.name, lists) && LosesMethod(last, lists, engine))
  {
    hide ClassStays, LosesMethod;
    var before, last := classes[..|classes| - 1], classes[|classes| - 1];
    assert classes == before + [last];
    assert forall c :: c in classes <==> c in before || c == last;
  }

  lemma KeptOneMoreClass(classes: seq<Class>, lists: Lists, engine: set<string>)
    requires classes != []
    ensures var before, last := classes[..|classes| - 1], classes[|classes| - 1];
      var kept := KeptClasses(before, lists, engine);
      KeptClasses(classes, lists, engine)
      == if ClassStays(last.name, lists) then kept + [KeptClass(last, lists, engine)] else kept
  {
    hide ClassStays, KeptClass;
    var kept := KeptClasses(classes[..|classes| - 1], lists, engine);
    assert kept + [] == kept;
  }

  lemma SameClassesStay(name: string, lists: Lists)
    requires lists.included != []
    ensures ClassStays(name, lists) == ClassStays(name, lists.(excluded := []))
  {
  }

  lemma {:induction false} ClassesLose(classes: seq<Class>, lists: Lists, engine: set<string>)
    requires lists.included != []
    ensures |KeptClasses(classes, lists, engine)| == |KeptClasses(classes, lists.(excluded := []), engine)|
    ensures KeptClasses(classes, lists, engine) != KeptClasses(classes, lists.(excluded := []), engine)
      <==> SomeLose(classes, lists, engine)
  {
    if classes == [] {
    } else {
      var all, before, last := lists.(excluded := []), classes[..|classes| - 1], classes[|classes| - 1];
      hide *;
      ClassesLose(before, lists, engine);
      ClassLoses(last, lists, engine);
      SameClassesStay(last.name, lists);
      SomeLoseLast(classes, lists, engine);
      KeptOneMoreClass(classes, lists, engine);
      KeptOneMoreClass(classes, all, engine);
      LastsDiffer(KeptClasses(before, lists, engine), KeptClass(last, lists, engine),
                  KeptClasses(before, all, engine), KeptClass(last, all, engine));
    }
  }

  lemma LastsDiffer<T>(a: seq<T>, x: T, b: seq<T>, y: T)
    requires |a| == |b|
    ensures a + [x] == b + [y] <==> a == b && x == y
  {
    assert (a + [x])[..|a|] == a && (b + [y])[..|b|] == b && (a + [x])[|a|] == x && (b + [y])[|b|] == y;
  }

  /**
   When a profile gives both lists, a warning says that the disabled one is ignored. It makes a difference to the
   trimmed API exactly when a kept class has a method whose classes are all enabled and one of them disabled.
   */
  lemma DisabledListStillCounts(api: Api, profile: Profile, lists: Lists)
    requires AreListsOf(lists, profile, api.classes) && profile.enabled != [] && profile.disabled != []
    ensures Trimmed(api, lists) != Trimmed(api, lists.(excluded := []))
      <==> SomeLose(api.classes, lists, EngineNames(api))
  {
    EmptyLists(lists, profile, api.classes);
    hide AreListsOf, SomeLose, KeptClasses;
    ClassesLose(api.classes, lists, EngineNames(api));
  }

  lemma ParentsOfMore(classes: seq<Class>, c: Class)
    ensures ParentsOf(classes + [c]) == ParentsOf(classes)[c.name := c.inherits]
  {
    assert (classes + [c])[..|classes|] == classes;
  }

  const HOMONYMS := [Class("A", "B", None), Class("A", "", None), Class("B", "", None)]

  lemma HomonymParents()
    ensures ParentsOf(HOMONYMS) == map["A" := "", "B" := ""] && Upward(ParentsOf(HOMONYMS)) == map[]
  {
    var a, b, c := HOMONYMS[0], HOMONYMS[1], HOMONYMS[2];
    NoParents();
    ParentsOfMore([], a);
    ParentsOfMore([a], b);
    ParentsOfMore([a, b], c);
    hide ParentsOf, Upward;
    assert [] + [a] == [a] && [a] + [b] == [a, b] && [a, b] + [c] == HOMONYMS;
    NoneAbove(ParentsOf(HOMONYMS));
  }

  /** With two classes of one name, the parent of the earlier may be dropped although the earlier is kept. */
  lemma HomonymLosesParent(lists: Lists)
    requires AreListsOf(lists, Profile(["A"], []), HOMONYMS)
    ensures var kept := Trimmed(Api(HOMONYMS, []), lists).classes;
      Class("A", "B", None) in kept && HasName(HOMONYMS, "B") && !HasName(kept, "B")
  {
    var api, k := Api(HOMONYMS, []), HOMONYMS[0];
    var engine := EngineNames(api);
    assert HOMONYMS[2].name == "B";
    HomonymStays(lists);
    hide AreListsOf, ClassStays, EngineNames;
    KeptClassesAre(HOMONYMS, lists, engine, k);
    assert KeptClass(k, lists, engine) == k;
    forall q | q in Trimmed(api, lists).classes
      ensures q.name != "B"
    {
      KeptClassesAre(HOMONYMS, lists, engine, q);
    }
  }

  lemma HomonymStays(lists: Lists)
    requires AreListsOf(lists, Profile(["A"], []), HOMONYMS)
    ensures ClassStays("A", lists) && !ClassStays("B", lists)
  {
    HomonymParents();
    hide ParentsOf, ChildrenOf;
    EmptyLists(lists, Profile(["A"], []), HOMONYMS);
    ElementsIn(lists.included);
    var t := Elements(["A"] + ALWAYS);
    assert IsClosed(t, Upward(ParentsOf(HOMONYMS))) && "B" !in t && (["A"] + ALWAYS)[0] == "A";
    hide Elements, Upward;
  }

  lemma NoParents()
    ensures ParentsOf([]) == map[]
  {
  }

  lemma NoneAbove(parents: map<string, string>)
    requires forall c :: c in parents ==> parents[c] == ""
    ensures Upward(parents) == map[]
  {
  }

  // ---------- Exactly when no kept class loses its parent ----------

  lemma {:induction false} ListOf(s: set<string>) returns (list: seq<string>)
    ensures Elements(list) == s
    decreases |s|
  {
    if s == {} {
      list := [];
    } else {
      var c :| c in s;
      var others := ListOf(s - {c});
      list := others + [c];
      assert forall d :: d in list <==> d in others || d == c;
      assert forall d :: d in others <==> d in Elements(others);
    }
  }

  /** There always is a least closed set. */
  lemma LeastExists(seeds: seq<string>, graph: map<string, seq<string>>) returns (least: seq<string>)
    ensures IsLeastClosed(Elements(least), Elements(seeds), graph)
  {
    var s := set c | c in Universe(seeds, graph) && IsNeeded(c, seeds, graph);
    forall c, d | c in s && d in Successors(graph, c)
      ensures d in s
    {
      InUniverse(seeds, graph, c);
      assert IsNeeded(d, seeds, graph);
    }
    assert forall c :: c in Elements(seeds) ==> IsNeeded(c, seeds, graph);
    least := ListOf(s);
  }

  ghost predicate IsNeeded(c: string, seeds: seq<string>, graph: map<string, seq<string>>) {
    forall t: set<string> :: Elements(seeds) <= t && IsClosed(t, graph) ==> c in t
  }

  /** Every class that trimming keeps has its parent with it, if the API has the parent. */
  ghost predicate KeepsParents(api: Api, lists: Lists) {
    forall k :: k in Trimmed(api, lists).classes && k.inherits != "" && HasName(api.classes, k.inherits) ==>
      HasName(Trimmed(api, lists).classes, k.inherits)
  }

  /** Enabling a class from which one does not come to its parent drops the parent. */
  lemma ParentIsDropped(api: Api, c: Class) returns (profile: Profile, lists: Lists)
    requires c in api.classes && c.inherits != "" && HasName(api.classes, c.inherits)
    requires !ComesTo(api.classes, c.name, c.inherits)
    ensures AreListsOf(lists, profile, api.classes) && !KeepsParents(api, lists)
  {
    var graph := Upward(ParentsOf(api.classes));
    profile := Profile([c.name], []);
    var included := LeastExists(EnabledSeeds(profile), graph);
    var excluded := LeastExists(profile.disabled, ChildrenOf(api.classes));
    lists := Lists(included, excluded);
    OnlyChildStays(api.classes, c.name, c.inherits, lists);
    hide AreListsOf, ClassStays, EngineNames, ComesTo;
    var k := KeptClass(c, lists, EngineNames(api));
    KeptClassesAre(api.classes, lists, EngineNames(api), k);
    assert k in Trimmed(api, lists).classes && k.inherits == c.inherits;
    forall q | q in Trimmed(api, lists).classes
      ensures q.name != c.inherits
    {
      KeptClassesAre(api.classes, lists, EngineNames(api), q);
    }
  }

  lemma OnlyChildStays(classes: seq<Class>, name: string, parent: string, lists: Lists)
    requires AreListsOf(lists, Profile([name], []), classes) && !ComesTo(classes, name, parent)
    ensures ClassStays(name, lists) && !ClassStays(parent, lists)
  {
    hide ParentsOf, ChildrenOf, Upward, IsClosed;
    ElementsIn(lists.included);
    ElementsIn([name] + ALWAYS);
    assert ([name] + ALWAYS)[0] == name;
    hide Elements;
    assert name in Elements(lists.included);
    var t: set<string> :| Elements([name] + ALWAYS) <= t && IsClosed(t, Upward(ParentsOf(classes))) && parent !in t;
  }

  /**
   Whatever profile is used, no kept class loses a parent that the API has: exactly for APIs in which
   going up from a class, by the later of two homonyms, comes to the parent it names.
   */
  lemma ParentsAlwaysStay(api: Api)
    ensures LeadsUp(api.classes) <==>
      forall profile, lists :: AreListsOf(lists, profile, api.classes) ==> KeepsParents(api, lists)
  {
    hide AreListsOf, ComesTo, HasName, KeptClasses;
    if LeadsUp(api.classes) {
      forall profile, lists | AreListsOf(lists, profile, api.classes)
        ensures KeepsParents(api, lists)
      {
        forall k | k in Trimmed(api, lists).classes && k.inherits != "" && HasName(api.classes, k.inherits)
          ensures HasName(Trimmed(api, lists).classes, k.inherits)
        {
          ParentsStay(api, profile, lists, k);
        }
      }
    } else {
      var c :| c in api.classes && c.inherits != "" && HasName(api.classes, c.inherits)
        && !ComesTo(api.classes, c.name, c.inherits);
      var profile, lists := ParentIsDropped(api, c);
    }
  }

  // ---------- A method that is lost ----------

  const RETURNS_A := Method("f", "A", [])

  lemma MentionsA()
    ensures Mentions(RETURNS_A, {"A"}) == {"A"}
  {
    assert BaseType("A") == "A";
  }

  /** A class both enabled and disabled is kept, but loses the methods that mention it. */
  lemma EnabledAndDisabled(lists: Lists)
    requires AreListsOf(lists, Profile(["A"], ["A"]), [Class("A", "", Some([RETURNS_A]))])
    ensures var api := Api([Class("A", "", Some([RETURNS_A]))], []);
      && Trimmed(api, lists).classes == [Class("A", "", Some([]))]
      && Trimmed(api, lists.(excluded := [])).classes == api.classes
  {
    var api := Api([Class("A", "", Some([RETURNS_A]))], []);
    BothHoldA(lists, api.classes);
    assert EngineNames(api) == {"A"} by { assert api.classes[0].name == "A"; }
    MentionsA();
    hide AreListsOf, Mentions, EngineNames, KeptMethods, KeptClasses;
    OneOfEach(api.classes[0], RETURNS_A, lists, {"A"});
    OneOfEach(api.classes[0], RETURNS_A, lists.(excluded := []), {"A"});
  }

  lemma OneOfEach(c: Class, m: Method, lists: Lists, engine: set<string>)
    ensures KeptClasses([c], lists, engine) == if ClassStays(c.name, lists) then [KeptClass(c, lists, engine)] else []
    ensures KeptMethods([m], lists, engine) == if MethodStays(m, lists, engine) then [m] else []
  {
    hide ClassStays, MethodStays, KeptClass;
    assert [c][..0] == [] && [m][..0] == [];
  }

  lemma BothHoldA(lists: Lists, classes: seq<Class>)
    requires AreListsOf(lists, Profile(["A"], ["A"]), classes)
    ensures "A" in lists.included && "A" in lists.excluded
  {
    hide ParentsOf, ChildrenOf, Upward;
    ElementsIn(lists.included);
    ElementsIn(lists.excluded);
    assert (["A"] + ALWAYS)[0] == "A";
    assert "A" in Elements(["A"] + ALWAYS) && "A" in Elements(["A"]);
  }
}
