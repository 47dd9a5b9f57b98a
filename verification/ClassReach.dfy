/** Which classes a build profile keeps, told by the chains of inheritance that lead to them. */
module ClassReach {
  import opened BuildProfile

  // ---------- Least closed sets as reachable ones ----------

  ghost predicate IsPath(path: seq<string>, graph: map<string, seq<string>>) {
    path != [] && forall i :: 0 <= i < |path| - 1 ==> path[i + 1] in Successors(graph, path[i])
  }

  ghost predicate IsReached(seeds: set<string>, graph: map<string, seq<string>>, d: string) {
    exists path :: IsPath(path, graph) && path[0] in seeds && path[|path| - 1] == d
  }

  lemma {:induction false} PathStays(path: seq<string>, s: set<string>, graph: map<string, seq<string>>)
    requires IsPath(path, graph) && path[0] in s && IsClosed(s, graph)
    ensures path[|path| - 1] in s
    decreases |path|
  {
    if |path| > 1 {
      var before := path[..|path| - 1];
      assert IsPath(before, graph);
      PathStays(before, s, graph);
      InClosed(s, graph, before[|before| - 1], path[|path| - 1]);
    }
  }

  lemma LongerPath(path: seq<string>, graph: map<string, seq<string>>, d: string)
    requires IsPath(path, graph) && d in Successors(graph, path[|path| - 1])
    ensures IsPath(path + [d], graph)
  {
    var longer := path + [d];
    forall i | 0 <= i < |longer| - 1
      ensures longer[i + 1] in Successors(graph, longer[i])
    {
      if i < |path| - 1 {
        assert longer[i + 1] == path[i + 1] && longer[i] == path[i];
      }
    }
  }

  lemma SeedReached(seeds: set<string>, graph: map<string, seq<string>>, c: string)
    requires c in seeds
    ensures IsReached(seeds, graph, c)
  {
    assert IsPath([c], graph) && [c][0] == c;
  }

  lemma NextReached(seeds: set<string>, graph: map<string, seq<string>>, c: string, d: string)
    requires IsReached(seeds, graph, c) && d in Successors(graph, c)
    ensures IsReached(seeds, graph, d)
  {
    hide Successors;
    var path :| IsPath(path, graph) && path[0] in seeds && path[|path| - 1] == c;
    LongerPath(path, graph, d);
    assert (path + [d])[0] == path[0] && (path + [d])[|path|] == d;
  }

  /** What the seeds lead to is closed. */
  lemma ReachedIsClosed(s: set<string>, seeds: set<string>, graph: map<string, seq<string>>)
    requires seeds <= s && IsClosed(s, graph)
    ensures var t := set c | c in s && IsReached(seeds, graph, c); seeds <= t && IsClosed(t, graph)
  {
    hide IsReached, Successors;
    forall c | c in seeds
      ensures IsReached(seeds, graph, c)
    {
      SeedReached(seeds, graph, c);
    }
    forall c, d | IsReached(seeds, graph, c) && d in Successors(graph, c)
      ensures IsReached(seeds, graph, d)
    {
      NextReached(seeds, graph, c, d);
    }
  }

  /** The least closed set holds exactly what the seeds lead to. */
  lemma LeastIsReached(s: set<string>, seeds: set<string>, graph: map<string, seq<string>>, d: string)
    requires IsLeastClosed(s, seeds, graph)
    ensures d in s <==> IsReached(seeds, graph, d)
  {
    hide Successors, IsClosed;
    if path :| IsPath(path, graph) && path[0] in seeds && path[|path| - 1] == d {
      PathStays(path, s, graph);
    }
    hide IsReached;
    ReachedIsClosed(s, seeds, graph);
  }

  // ---------- Chains of inheritance ----------

  /** Each class of the chain inherits the next. */
  ghost predicate Climbs(classes: seq<Class>, chain: seq<string>) {
    && chain != []
    && forall i :: 0 <= i < |chain| - 1 ==> Inherits(classes, chain[i], chain[i + 1])
  }

  predicate Inherits(classes: seq<Class>, child: string, parent: string) {
    parent != "" && exists c :: c in classes && c.name == child && c.inherits == parent
  }

  /** `up` is `down` or above it. */
  ghost predicate IsAbove(classes: seq<Class>, up: string, down: string) {
    exists chain :: Climbs(classes, chain) && chain[0] == down && chain[|chain| - 1] == up
  }

  lemma ParentEdge(classes: seq<Class>, child: string, parent: string)
    requires HasUniqueNames(classes)
    ensures parent in Successors(Upward(ParentsOf(classes)), child) <==> Inherits(classes, child, parent)
  {
    ParentOrigin(classes, child);
    hide HasUniqueNames, ParentsOf;
    if c :| c in classes && c.name == child && c.inherits == parent {
      ParentIs(classes, c);
    }
  }

  lemma {:induction false} ParentOrigin(classes: seq<Class>, child: string)
    ensures child in ParentsOf(classes) ==>
      exists c :: c in classes && c.name == child && c.inherits == ParentsOf(classes)[child]
  {
    if classes == [] {
    } else {
      var before, last := classes[..|classes| - 1], classes[|classes| - 1];
      assert classes == before + [last];
      ParentOrigin(before, child);
      assert forall c :: c in classes <==> c in before || c == last;
    }
  }

  lemma ChildEdge(classes: seq<Class>, child: string, parent: string)
    ensures child in Successors(ChildrenOf(classes), parent) <==> Inherits(classes, child, parent)
  {
    hide ChildrenOf, Successors;
    ChildIs(classes, parent, child);
  }

  lemma UpwardPath(classes: seq<Class>, path: seq<string>)
    requires HasUniqueNames(classes)
    ensures IsPath(path, Upward(ParentsOf(classes))) <==> Climbs(classes, path)
  {
    hide Successors, Upward, ParentsOf, Inherits, HasUniqueNames;
    forall i | 0 <= i < |path| - 1
      ensures path[i + 1] in Successors(Upward(ParentsOf(classes)), path[i])
        <==> Inherits(classes, path[i], path[i + 1])
    {
      ParentEdge(classes, path[i], path[i + 1]);
    }
  }

  function Backwards(path: seq<string>): seq<string> {
    seq(|path|, i requires 0 <= i < |path| => path[|path| - 1 - i])
  }

  lemma DownwardPath(classes: seq<Class>, path: seq<string>)
    ensures IsPath(path, ChildrenOf(classes)) ==> Climbs(classes, Backwards(path))
    ensures Climbs(classes, Backwards(path)) ==> IsPath(path, ChildrenOf(classes))
  {
    hide Successors, ChildrenOf, Inherits;
    var n, back := |path|, Backwards(path);
    forall i | 0 <= i < n - 1
      ensures path[i + 1] in Successors(ChildrenOf(classes), path[i]) <==> Inherits(classes, path[i + 1], path[i])
    {
      ChildEdge(classes, path[i + 1], path[i]);
    }
    if IsPath(path, ChildrenOf(classes)) {
      forall i | 0 <= i < n - 1
        ensures Inherits(classes, back[i], back[i + 1])
      {
        assert back[i] == path[n - 2 - i + 1] && back[i + 1] == path[n - 2 - i];
      }
    }
    if Climbs(classes, back) {
      forall i | 0 <= i < n - 1
        ensures path[i + 1] in Successors(ChildrenOf(classes), path[i])
      {
        assert back[n - 2 - i] == path[i + 1] && back[n - 2 - i + 1] == path[i];
      }
    }
  }

  lemma BackTwice(path: seq<string>)
    ensures Backwards(Backwards(path)) == path
    ensures path != [] ==> Backwards(path) != [] && Backwards(path)[0] == path[|path| - 1]
    ensures path != [] ==> Backwards(path)[|path| - 1] == path[0]
  {
  }

  // ---------- Which classes stay ----------

  /** One of the classes that the bindings themselves use. */
  predicate IsAlwaysNeeded(n: string) {
    || n == "WorkerThreadPool" || n == "ClassDB" || n == "ClassDBSingleton" || n == "FileAccess" || n == "Image"
    || n == "XMLParser" || n == "Semaphore"
  }

  lemma SeedsAre(profile: Profile, n: string)
    ensures n in Elements(EnabledSeeds(profile)) <==>
      profile.enabled != [] && (n in profile.enabled || IsAlwaysNeeded(n))
  {
    assert n in ALWAYS <==> IsAlwaysNeeded(n) by {
      AlwaysAre(n);
    }
  }

  lemma AlwaysAre(n: string)
    ensures n in ALWAYS <==> IsAlwaysNeeded(n)
  {
    assert ALWAYS[0] == "WorkerThreadPool" && ALWAYS[1] == "ClassDB" && ALWAYS[2] == "ClassDBSingleton";
    assert ALWAYS[3] == "FileAccess" && ALWAYS[4] == "Image" && ALWAYS[5] == "XMLParser" && ALWAYS[6] == "Semaphore";
    assert |ALWAYS| == 7;
  }

  lemma IncludedAre(profile: Profile, lists: Lists, classes: seq<Class>, n: string)
    requires AreListsOf(lists, profile, classes) && HasUniqueNames(classes) && profile.enabled != []
    ensures n in lists.included <==>
      exists m :: (m in profile.enabled || IsAlwaysNeeded(m)) && IsAbove(classes, n, m)
  {
    var seeds, graph := Elements(EnabledSeeds(profile)), Upward(ParentsOf(classes));
    ElementsIn(lists.included);
    LeastIsReached(Elements(lists.included), seeds, graph, n);
    hide AreListsOf, IsLeastClosed, ParentsOf, Upward, Elements, EnabledSeeds, IsAlwaysNeeded, HasUniqueNames;
    if IsReached(seeds, graph, n) {
      var path :| IsPath(path, graph) && path[0] in seeds && path[|path| - 1] == n;
      UpwardPath(classes, path);
      SeedsAre(profile, path[0]);
      assert IsAbove(classes, n, path[0]);
    }
    if m :| (m in profile.enabled || IsAlwaysNeeded(m)) && IsAbove(classes, n, m) {
      var chain :| Climbs(classes, chain) && chain[0] == m && chain[|chain| - 1] == n;
      UpwardPath(classes, chain);
      SeedsAre(profile, m);
    }
  }

  lemma ExcludedAre(profile: Profile, lists: Lists, classes: seq<Class>, n: string)
    requires AreListsOf(lists, profile, classes)
    ensures n in lists.excluded <==> exists m :: m in profile.disabled && IsAbove(classes, m, n)
  {
    var seeds, graph := Elements(profile.disabled), ChildrenOf(classes);
    ElementsIn(lists.excluded);
    ElementsIn(profile.disabled);
    LeastIsReached(Elements(lists.excluded), seeds, graph, n);
    hide AreListsOf, IsLeastClosed, ChildrenOf, Elements, Backwards;
    if IsReached(seeds, graph, n) {
      var path :| IsPath(path, graph) && path[0] in seeds && path[|path| - 1] == n;
      DownwardPath(classes, path);
      BackTwice(path);
      assert |Backwards(path)| == |path| by { SameLength(path); }
      assert IsAbove(classes, path[0], n);
    }
    if m :| m in profile.disabled && IsAbove(classes, m, n) {
      var chain :| Climbs(classes, chain) && chain[0] == n && chain[|chain| - 1] == m;
      BackTwice(chain);
      SameLength(chain);
      DownwardPath(classes, Backwards(chain));
      assert Backwards(chain)[|chain| - 1] == chain[0];
    }
  }

  lemma SameLength(path: seq<string>)
    ensures |Backwards(path)| == |path|
  {
  }

  /**
   With an enabled list, the classes that stay are those on it, those always needed, and all above them; without one,
   all but those on the disabled list and all below them.
   */
  lemma ClassesThatStay(profile: Profile, lists: Lists, classes: seq<Class>, n: string)
    requires AreListsOf(lists, profile, classes) && HasUniqueNames(classes)
    ensures ClassStays(n, lists) <==>
      if profile.enabled != [] then exists m :: (m in profile.enabled || IsAlwaysNeeded(m)) && IsAbove(classes, n, m)
      else !exists m :: m in profile.disabled && IsAbove(classes, m, n)
  {
    EmptyLists(lists, profile, classes);
    ExcludedAre(profile, lists, classes, n);
    hide AreListsOf, IsAbove, IsAlwaysNeeded, HasUniqueNames;
    if profile.enabled != [] {
      IncludedAre(profile, lists, classes, n);
    }
  }
}
