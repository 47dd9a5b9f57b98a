/** Which way a call of `invoke_on_main` takes, told from the events of the run alone. */
module MainThreadDispatch {
  import opened Wrappers
  import opened MainThreadQueue

  /** The dispatch flag was last set to true; before it is set it is false. */
  ghost predicate IsUp(run: seq<Event>) {
    exists i :: 0 <= i < |run| && run[i] == SetDispatch(true) && NoneSets(run[i + 1..])
  }

  predicate NoneSets(run: seq<Event>) {
    forall j :: 0 <= j < |run| ==> !run[j].SetDispatch?
  }

  /** How many calls begin in the run; the next one to begin has this number. */
  function CallsIn(run: seq<Event>): nat {
    if run == [] then 0 else CallsIn(run[..|run| - 1]) + if run[|run| - 1].Enter? then 1 else 0
  }

  lemma NoneSetsBefore(run: seq<Event>, e: Event)
    requires NoneSets(run + [e])
    ensures NoneSets(run) && !e.SetDispatch?
  {
    var all := run + [e];
    assert all[|run|] == e;
    assert forall j :: 0 <= j < |run| ==> run[j] == all[j];
  }

  lemma IsUpAfter(run: seq<Event>, e: Event)
    ensures IsUp(run + [e]) <==> if e.SetDispatch? then e.available else IsUp(run)
  {
    var all := run + [e];
    if i :| 0 <= i < |run| && run[i] == SetDispatch(true) && NoneSets(run[i + 1..]) {
      assert all[i + 1..] == run[i + 1..] + [e];
      assert all[i] == run[i];
    }
    if e == SetDispatch(true) {
      assert all[|run|] == e && all[|run| + 1..] == [];
    }
    if i :| 0 <= i < |all| && all[i] == SetDispatch(true) && NoneSets(all[i + 1..]) {
      if i < |run| {
        assert all[i + 1..] == run[i + 1..] + [e];
        NoneSetsBefore(run[i + 1..], e);
      }
    }
  }

  lemma FlagEffect(s: State, e: Event)
    requires Enabled(s, e)
    ensures Apply(s, e).dispatch == if e.SetDispatch? then e.available else s.dispatch
    ensures |Apply(s, e).calls| == |s.calls| + if e.Enter? then 1 else 0
  {
  }

  /** The flag and the number of calls, from the events. */
  lemma {:induction false} FlagIs(run: seq<Event>)
    requires After(run).Some?
    ensures After(run).value.dispatch <==> IsUp(run)
    ensures |After(run).value.calls| == CallsIn(run)
  {
    if run == [] {
    } else {
      var before, e := run[..|run| - 1], run[|run| - 1];
      FlagIs(before);
      FlagEffect(After(before).value, e);
      IsUpAfter(before, e);
      hide Apply, Enabled, IsUp;
      assert run == before + [e];
    }
  }

  /** The call is about to be queued, or has been. */
  predicate OnQueueWay(s: State, c: nat) {
    c < |s.calls| && (s.calls[c].phase.Entering? || c in s.submitted)
  }

  /** The call is run by its own caller, or has been, and never queued. */
  predicate OnDirectWay(s: State, c: nat) {
    && c < |s.calls| && c !in s.submitted
    && (s.calls[c].phase.Direct? || s.calls[c].phase.Returned? || s.calls[c].phase.Threw?)
  }

  lemma WaysApart(s: State, c: nat)
    requires Inv(s)
    ensures c < |s.calls| ==> (OnQueueWay(s, c) <==> !OnDirectWay(s, c))
  {
    CallFits(s, c);
    hide Inv;
  }

  lemma Begins(s: State, e: Event)
    requires Inv(s) && Enabled(s, e) && e.Enter?
    ensures var c, s' := |s.calls|, Apply(s, e);
      && c < |s'.calls| && s'.calls[c].callable == e.callable
      && InPhase(s', c, if s.dispatch then Entering else Direct)
      && (if s.dispatch then OnQueueWay(s', c) else OnDirectWay(s', c))
  {
    MembersBefore(s, |s.calls|);
    hide Inv;
  }

  /** A step keeps a call on its way, and only steps of that way are possible for it. */
  lemma WayKept(s: State, e: Event, c: nat)
    requires Inv(s) && Enabled(s, e) && c < |s.calls|
    ensures c < |Apply(s, e).calls| && Apply(s, e).calls[c].callable == s.calls[c].callable
    ensures OnQueueWay(s, c) <==> OnQueueWay(Apply(s, e), c)
    ensures e == Push(c) || e == Return(c) || e == TimeOut(c) ==> OnQueueWay(s, c)
    ensures e == ThrowDirect(c) || (e.RunDirect? && e.call == c) ==> OnDirectWay(s, c)
  {
    CallFits(s, c);
    StepMembers(s, e, c);
    CallableKept(s, e, c);
    CallEffect(s, e, c);
    MeantFor(s, e, c);
    hide Inv, Apply, Enabled, FlagFits, Yielded;
  }

  lemma StepMembers(s: State, e: Event, c: nat)
    requires Inv(s) && Enabled(s, e)
    ensures c in Apply(s, e).submitted <==> c in s.submitted || e == Push(c)
  {
    Members(s, e, c);
    hide Inv, Apply, Enabled;
  }

  lemma CallableKept(s: State, e: Event, c: nat)
    requires Enabled(s, e) && c < |s.calls|
    ensures c < |Apply(s, e).calls| && Apply(s, e).calls[c].callable == s.calls[c].callable
  {
  }

  lemma {:induction false} PrefixRuns(run: seq<Event>, k: nat)
    requires After(run).Some? && k <= |run|
    ensures After(run[..k]).Some?
    decreases |run|
  {
    if k == |run| {
      assert run[..k] == run;
    } else {
      var before := run[..|run| - 1];
      PrefixRuns(before, k);
      assert before[..k] == run[..k];
    }
  }

  lemma LastStep(run: seq<Event>)
    requires After(run).Some? && run != []
    ensures var before, e := run[..|run| - 1], run[|run| - 1];
      && After(before).Some? && Inv(After(before).value) && Inv(After(run).value)
      && Enabled(After(before).value, e) && After(run) == Some(Apply(After(before).value, e))
  {
    EveryRun(run[..|run| - 1]);
    EveryRun(run);
    hide Inv, Apply, Enabled;
  }

  /** What the events show of the way that a call takes. */
  ghost predicate TakesQueue(run: seq<Event>, c: nat) {
    Push(c) in run || Return(c) in run || TimeOut(c) in run
  }

  ghost predicate TakesDirect(run: seq<Event>, c: nat) {
    ThrowDirect(c) in run || exists v :: RunDirect(c, v) in run
  }

  lemma NothingTaken(run: seq<Event>, e: Event, c: nat)
    ensures TakesQueue(run + [e], c) <==> TakesQueue(run, c) || e == Push(c) || e == Return(c) || e == TimeOut(c)
    ensures TakesDirect(run + [e], c) <==> TakesDirect(run, c) || e == ThrowDirect(c) || (e.RunDirect? && e.call == c)
  {
    var all := run + [e];
    assert forall f :: f in all <==> f in run || f == e;
    if e.RunDirect? && e.call == c {
      assert RunDirect(c, e.value) in all;
    }
  }

  lemma NoSuchCall(s: State, e: Event, c: nat)
    requires Inv(s) && Enabled(s, e) && |s.calls| <= c
    ensures e != Push(c) && e != Return(c) && e != TimeOut(c) && e != ThrowDirect(c) && !(e.RunDirect? && e.call == c)
  {
    MeantFor(s, e, c);
    hide Inv, Enabled;
  }

  /** Before it begins, a call takes no step. */
  lemma {:induction false} NotBegun(run: seq<Event>, c: nat)
    requires After(run).Some? && CallsIn(run) <= c
    ensures !TakesQueue(run, c) && !TakesDirect(run, c)
  {
    if run == [] {
    } else {
      var before, e := run[..|run| - 1], run[|run| - 1];
      assert run == before + [e];
      LastStep(run);
      FlagIs(before);
      NotBegun(before, c);
      NoSuchCall(After(before).value, e, c);
      NothingTaken(before, e, c);
      hide Inv, Apply, Enabled, TakesQueue, TakesDirect;
    }
  }

  /**
   From the events alone: a call is run by its own caller if and only if the dispatch flag was last set to false
   when it began, or had not been set; otherwise it goes by the queue.
   */
  lemma {:induction false} WayOfCall(run: seq<Event>, k: nat)
    requires After(run).Some? && k < |run| && run[k].Enter?
    ensures var c, s := CallsIn(run[..k]), After(run).value;
      && c < |s.calls| && s.calls[c].callable == run[k].callable
      && (OnDirectWay(s, c) <==> !IsUp(run[..k])) && (OnQueueWay(s, c) <==> IsUp(run[..k]))
      && (TakesDirect(run, c) ==> !IsUp(run[..k])) && (TakesQueue(run, c) ==> IsUp(run[..k]))
    decreases |run|
  {
    hide *;
    var before, e := run[..|run| - 1], run[|run| - 1];
    var c := CallsIn(run[..k]);
    assert run == before + [e];
    LastStep(run);
    NothingTaken(before, e, c);
    if k == |before| {
      assert run[..k] == before;
      FlagIs(before);
      Begins(After(before).value, e);
      NotBegun(before, c);
      WaysApart(After(run).value, c);
    } else {
      assert before[..k] == run[..k] && before[k] == run[k];
      WayOfCall(before, k);
      WayKept(After(before).value, e, c);
      WaysApart(After(run).value, c);
    }
  }

  lemma OneStep(run: seq<Event>, e: Event)
    requires After(run).Some? && Enabled(After(run).value, e)
    ensures After(run + [e]) == Some(Apply(After(run).value, e))
  {
    hide Apply, Enabled;
    assert (run + [e])[..|run|] == run;
  }

  lemma CanBeSubmitted(run: seq<Event>, c: nat)
    requires After(run).Some? && InPhase(After(run).value, c, Entering)
    ensures exists more :: After(run + more).Some? && Push(c) in more
  {
    var more := [Push(c)];
    OneStep(run, Push(c));
    assert After(run + more).Some? && Push(c) in more;
  }

  lemma CanRunDirect(run: seq<Event>, c: nat, v: string)
    requires After(run).Some? && InPhase(After(run).value, c, Direct) && After(run).value.calls[c].callable
    ensures exists more :: After(run + more).Some? && RunDirect(c, v) in more
  {
    var more := [RunDirect(c, v)];
    OneStep(run, RunDirect(c, v));
    assert After(run + more).Some? && RunDirect(c, v) in more;
  }

  lemma CanThrowDirect(run: seq<Event>, c: nat)
    requires After(run).Some? && InPhase(After(run).value, c, Direct)
    ensures exists more :: After(run + more).Some? && ThrowDirect(c) in more
  {
    var more := [ThrowDirect(c)];
    OneStep(run, ThrowDirect(c));
    assert After(run + more).Some? && ThrowDirect(c) in more;
  }

  lemma DirectEnds(s: State, e: Event, c: nat, v: string)
    requires Enabled(s, e)
    ensures e == RunDirect(c, v) ==> InPhase(Apply(s, e), c, Returned(v)) && Apply(s, e).calls[c].callable
    ensures InPhase(s, c, Returned(v)) && s.calls[c].callable ==>
      InPhase(Apply(s, e), c, Returned(v)) && Apply(s, e).calls[c].callable
  {
  }

  /** A call that ran its own task returns what the task yielded. */
  lemma {:induction false} DirectReturns(run: seq<Event>, c: nat, v: string)
    requires After(run).Some? && RunDirect(c, v) in run
    ensures InPhase(After(run).value, c, Returned(v)) && After(run).value.calls[c].callable
  {
    var before, e := run[..|run| - 1], run[|run| - 1];
    assert run == before + [e];
    LastStep(run);
    DirectEnds(After(before).value, e, c, v);
    hide Apply, Enabled, Inv, InPhase;
    if RunDirect(c, v) in before {
      DirectReturns(before, c, v);
    }
  }

  lemma InMore(run: seq<Event>, k: nat, more: seq<Event>)
    requires k < |run| && run[k].Enter? && After(run[..k + 1] + more).Some?
    ensures var c, all := CallsIn(run[..k]), run[..k + 1] + more;
      && (Push(c) in more ==> IsUp(run[..k])) && (ThrowDirect(c) in more ==> !IsUp(run[..k]))
      && forall v :: RunDirect(c, v) in more ==> !IsUp(run[..k]) && run[k].callable
  {
    hide *;
    var c, all := CallsIn(run[..k]), run[..k + 1] + more;
    SamePrefix(run, k, more);
    WayOfCall(all, k);
    Shown(all, c);
    forall v | RunDirect(c, v) in more
      ensures !IsUp(run[..k]) && run[k].callable
    {
      DirectReturns(all, c, v);
    }
  }

  lemma SamePrefix(run: seq<Event>, k: nat, more: seq<Event>)
    requires k < |run|
    ensures var all := run[..k + 1] + more;
      k < |all| && all[..k] == run[..k] && all[k] == run[k] && forall e :: e in more ==> e in all
  {
  }

  lemma Shown(run: seq<Event>, c: nat)
    ensures Push(c) in run ==> TakesQueue(run, c)
    ensures ThrowDirect(c) in run ==> TakesDirect(run, c)
    ensures forall v :: RunDirect(c, v) in run ==> TakesDirect(run, c)
  {
  }

  lemma Begun(run: seq<Event>, k: nat)
    requires k < |run| && run[k].Enter? && After(run[..k + 1]).Some?
    ensures var c, s := CallsIn(run[..k]), After(run[..k + 1]).value;
      && InPhase(s, c, if IsUp(run[..k]) then Entering else Direct)
      && c < |s.calls| && s.calls[c].callable == run[k].callable
  {
    hide *;
    var begun := run[..k + 1];
    assert begun[..|begun| - 1] == run[..k] && begun[|begun| - 1] == run[k];
    LastStep(begun);
    FlagIs(run[..k]);
    Begins(After(run[..k]).value, run[k]);
  }

  /**
   Which calls can ever be submitted, and which can be run by their own caller, whatever happens after they begin:
   as the dispatch flag was last set before that, and never both.
   */
  lemma WhoRunsTheTask(run: seq<Event>, k: nat)
    requires k < |run| && run[k].Enter? && After(run[..k + 1]).Some?
    ensures var c, begun := CallsIn(run[..k]), run[..k + 1];
      && (IsUp(run[..k]) <==> exists more :: After(begun + more).Some? && Push(c) in more)
      && (!IsUp(run[..k]) <==> exists more :: After(begun + more).Some? && ThrowDirect(c) in more)
      && forall v :: !IsUp(run[..k]) && run[k].callable <==>
           exists more :: After(begun + more).Some? && RunDirect(c, v) in more
  {
    hide *;
    var c, begun := CallsIn(run[..k]), run[..k + 1];
    Begun(run, k);
    if IsUp(run[..k]) {
      CanBeSubmitted(begun, c);
    } else {
      CanThrowDirect(begun, c);
    }
    forall v
      ensures !IsUp(run[..k]) && run[k].callable <==>
        exists more :: After(begun + more).Some? && RunDirect(c, v) in more
    {
      if !IsUp(run[..k]) && run[k].callable {
        CanRunDirect(begun, c, v);
      }
      if more :| After(begun + more).Some? && RunDirect(c, v) in more {
        InMore(run, k, more);
      }
    }
    if more :| After(begun + more).Some? && Push(c) in more {
      InMore(run, k, more);
    }
    if more :| After(begun + more).Some? && ThrowDirect(c) in more {
      InMore(run, k, more);
    }
  }
}
