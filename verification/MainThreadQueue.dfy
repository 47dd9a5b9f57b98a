/**
 The hand-off of tasks from TCP threads to the main thread, as a system of atomic steps: any number
 of calls of `invoke_on_main`, interleaved in any way with the draining of the queue and with
 changes of the dispatch flag. Calls are numbered as they begin; a task carries the number of its
 call where the source carries pointers into the caller's frame.
 */
module MainThreadQueue {
  import opened Wrappers

  /** Where a call of `invoke_on_main` stands. `Entering` has seen the dispatch flag up and not pushed its task yet. */
  datatype Phase = Entering | Waiting | TimedOut | Direct | Returned(value: string) | Threw

  /** A call, with the two locals of its frame that its task points to. */
  datatype Call = Call(callable: bool, phase: Phase, result: string, done: bool)

  /** Where the main thread stands in the body of the drain loop. */
  datatype MainThread =
    | Idle
    | Popped(call: nat)
    | Ran(call: nat, value: string)
    | Stored(call: nat)
    | Flagged(call: nat)

  /** One execution of the task of a call. */
  datatype Run = Run(call: nat, value: string)

  /** `submitted`, `started`, `failed` and the two lists of runs only record what has happened. */
  datatype State = State(
    dispatch: bool,
    calls: seq<Call>,
    queue: seq<nat>,
    main: MainThread,
    submitted: seq<nat>,
    started: seq<nat>,
    failed: set<nat>,
    ranOnMain: seq<Run>,
    ranDirect: seq<Run>)

  datatype Event =
    | SetDispatch(available: bool)
    | Enter(callable: bool)
    | RunDirect(call: nat, value: string)
    | ThrowDirect(call: nat)
    | Push(call: nat)
    | Pop
    | Execute(value: string)
    | Throw
    | Store
    | SetFlag
    | Notify
    | Return(call: nat)
    | TimeOut(call: nat)

  const INITIAL := State(false, [], [], Idle, [], [], {}, [], [])

  predicate InPhase(s: State, c: nat, p: Phase) {
    c < |s.calls| && s.calls[c].phase == p
  }

  /** A waiter checks the flag under its mutex, when it is woken and once more when its time is up. */
  predicate Enabled(s: State, e: Event) {
    match e
    case SetDispatch(_) => true
    case Enter(_) => true
    case RunDirect(c, _) => InPhase(s, c, Direct) && s.calls[c].callable
    case ThrowDirect(c) => InPhase(s, c, Direct)
    case Push(c) => InPhase(s, c, Entering)
    case Pop => s.main.Idle? && s.queue != []
    case Execute(v) =>
      s.main.Popped? && s.main.call < |s.calls| && (!s.calls[s.main.call].callable ==> v == "")
    case Throw => s.main.Popped? && s.main.call < |s.calls| && s.calls[s.main.call].callable
    case Store => s.main.Ran? && s.main.call < |s.calls|
    case SetFlag => s.main.Stored? && s.main.call < |s.calls|
    case Notify => s.main.Flagged?
    case Return(c) => InPhase(s, c, Waiting) && s.calls[c].done
    case TimeOut(c) => InPhase(s, c, Waiting) && !s.calls[c].done
  }

  function WithPhase(s: State, c: nat, p: Phase): State
    requires c < |s.calls|
  {
    s.(calls := s.calls[c := s.calls[c].(phase := p)])
  }

  function Apply(s: State, e: Event): State
    requires Enabled(s, e)
  {
    match e
    case SetDispatch(available) => s.(dispatch := available)
    case Enter(callable) => s.(calls := s.calls + [Call(callable, if s.dispatch then Entering else Direct, "", false)])
    case RunDirect(c, v) => WithPhase(s, c, Returned(v)).(ranDirect := s.ranDirect + [Run(c, v)])
    case ThrowDirect(c) => WithPhase(s, c, Threw)
    case Push(c) => WithPhase(s, c, Waiting).(queue := s.queue + [c], submitted := s.submitted + [c])
    case Pop => s.(queue := s.queue[1..], main := Popped(s.queue[0]), started := s.started + [s.queue[0]])
    case Execute(v) =>
      var c := s.main.call;
      s.(main := Ran(c, v), ranOnMain := if s.calls[c].callable then s.ranOnMain + [Run(c, v)] else s.ranOnMain)
    case Throw => s.(main := Idle, failed := s.failed + {s.main.call})
    case Store =>
      var c := s.main.call;
      s.(main := Stored(c), calls := s.calls[c := s.calls[c].(result := s.main.value)])
    case SetFlag =>
      var c := s.main.call;
      s.(main := Flagged(c), calls := s.calls[c := s.calls[c].(done := true)])
    case Notify => s.(main := Idle)
    case Return(c) => WithPhase(s, c, Returned(s.calls[c].result))
    case TimeOut(c) => WithPhase(s, c, TimedOut)
  }

  /** The state after a run of the system from its start; None when some step is not possible. */
  function After(run: seq<Event>): Option<State> {
    if run == [] then Some(INITIAL)
    else
      var before := After(run[..|run| - 1]);
      if before.Some? && Enabled(before.value, run[|run| - 1])
      then Some(Apply(before.value, run[|run| - 1])) else None
  }

  // ---------- What every run keeps ----------

  predicate NoDup<T(==)>(s: seq<T>) {
    forall i, j :: 0 <= i < j < |s| ==> s[i] != s[j]
  }

  function CallsOf(runs: seq<Run>): seq<nat> {
    seq(|runs|, i requires 0 <= i < |runs| => runs[i].call)
  }

  /** The calls among `ids` whose task is there to be run and has not thrown. */
  function Runnable(s: State, ids: seq<nat>): seq<nat> {
    if ids == [] then []
    else
      var c := ids[|ids| - 1];
      Runnable(s, ids[..|ids| - 1]) + if c < |s.calls| && s.calls[c].callable && c !in s.failed then [c] else []
  }

  /** The tasks taken from the queue whose execution is over. */
  function Executed(s: State): seq<nat> {
    if s.main.Popped? && s.started != [] then s.started[..|s.started| - 1] else s.started
  }

  /**
   What call `c` must return: the value its task yielded on the main thread; nothing when there was no task to
   run.
   */
  predicate Yielded(s: State, c: nat, v: string) {
    c < |s.calls| && if s.calls[c].callable then Run(c, v) in s.ranOnMain else v == ""
  }

  /** Every submitted task is in the queue, running or over; tasks start in the order they were submitted, once each. */
  predicate InOrder(s: State) {
    && NoDup(s.submitted)
    && s.submitted == s.started + s.queue
    && (!s.main.Idle? ==> s.started != [] && s.started[|s.started| - 1] == s.main.call)
  }

  /** The main thread executes every task whose turn has come, in the order they were submitted. */
  predicate RunInOrder(s: State) {
    && CallsOf(s.ranOnMain) == Runnable(s, Executed(s))
    && forall c :: c in s.failed ==> c in s.started && !(!s.main.Idle? && s.main.call == c)
  }

  /** A task executed by its own caller is executed once, and never queued. */
  predicate DirectOnce(s: State) {
    && NoDup(CallsOf(s.ranDirect))
    && forall r :: r in s.ranDirect ==>
        InPhase(s, r.call, Returned(r.value)) && s.calls[r.call].callable && r.call !in s.submitted
  }

  /** The main thread has taken the task of call `c` and has not raised its flag yet. */
  predicate Busy(s: State, c: nat) {
    (s.main.Popped? || s.main.Ran? || s.main.Stored?) && s.main.call == c
  }

  /** The flag of a call is up exactly when its task is over, and then its result is there. */
  predicate FlagFits(s: State, c: nat)
    requires c < |s.calls|
  {
    && (s.calls[c].done <==> c in s.started && c !in s.failed && !Busy(s, c))
    && (s.calls[c].done ==> Yielded(s, c, s.calls[c].result))
    && (s.main == Stored(c) ==> Yielded(s, c, s.calls[c].result))
  }

  predicate PhaseFits(s: State, c: nat)
    requires c < |s.calls|
  {
    var call := s.calls[c];
    match call.phase
    case Waiting => c in s.submitted
    case TimedOut => c in s.submitted
    case Returned(v) => if c in s.submitted then call.done && v == call.result else Run(c, v) in s.ranDirect
    case _ => c !in s.submitted
  }

  predicate FlagsFit(s: State) {
    forall c :: 0 <= c < |s.calls| ==> FlagFits(s, c)
  }

  predicate PhasesFit(s: State) {
    forall c :: 0 <= c < |s.calls| ==> PhaseFits(s, c)
  }

  predicate Inv(s: State) {
    && InOrder(s)
    && (forall c :: c in s.submitted ==> c < |s.calls|)
    && RunInOrder(s)
    && DirectOnce(s)
    && (s.main.Ran? ==> Yielded(s, s.main.call, s.main.value))
    && FlagsFit(s)
    && PhasesFit(s)
  }

  lemma {:induction false} RunnableFrame(s: State, s': State, ids: seq<nat>)
    requires |s.calls| <= |s'.calls|
    requires forall c :: c in ids ==> c < |s.calls| && s'.calls[c].callable == s.calls[c].callable
    requires forall c :: c in ids ==> (c in s.failed <==> c in s'.failed)
    ensures Runnable(s', ids) == Runnable(s, ids)
  {
    if ids == [] {
    } else {
      var before, last := ids[..|ids| - 1], ids[|ids| - 1];
      forall c | c in before
        ensures c in ids
      {
        assert ids == before + [last];
      }
      RunnableFrame(s, s', before);
      assert last in ids;
    }
  }

  lemma InOrderFacts(s: State)
    requires InOrder(s)
    ensures forall c :: c in s.submitted <==> c in s.started || c in s.queue
    ensures forall c :: c in s.started ==> c !in s.queue
    ensures forall c :: c in Executed(s) <==> c in s.started && !(s.main.Popped? && s.main.call == c)
  {
    assert forall i :: 0 <= i < |s.started| ==> s.submitted[i] == s.started[i];
    assert forall i :: 0 <= i < |s.queue| ==> s.submitted[|s.started| + i] == s.queue[i];
    forall c | c in s.started && !(s.main.Popped? && s.main.call == c)
      ensures c in Executed(s)
    {
      var i :| 0 <= i < |s.started| && s.started[i] == c;
      assert s.main.Popped? ==> Executed(s)[i] == c;
    }
  }

  lemma DirectKept(s: State, e: Event)
    requires DirectOnce(s) && PhasesFit(s) && Enabled(s, e)
    ensures DirectOnce(Apply(s, e))
  {
    var s' := Apply(s, e);
    if e.RunDirect? {
      assert CallsOf(s'.ranDirect) == CallsOf(s.ranDirect) + [e.call];
      assert forall i :: 0 <= i < |s.ranDirect| ==> s.ranDirect[i] in s.ranDirect;
    }
    forall r | r in s'.ranDirect
      ensures InPhase(s', r.call, Returned(r.value)) && s'.calls[r.call].callable && r.call !in s'.submitted
    {
      assert r in s.ranDirect || (r == Run(e.call, e.value) && PhaseFits(s, e.call));
    }
  }

  predicate IsTaking(e: Event) {
    e.Pop? || e.Execute? || e.Throw?
  }

  predicate IsSignal(e: Event) {
    e.Store? || e.SetFlag? || e.Notify?
  }

  /** What a step does to the records of the queue. */
  lemma OrderEffect(s: State, e: Event)
    requires Enabled(s, e)
    ensures var s' := Apply(s, e);
      && s'.submitted == (if e.Push? then s.submitted + [e.call] else s.submitted)
      && s'.started == (if e.Pop? then s.started + [s.queue[0]] else s.started)
      && s'.queue == (if e.Push? then s.queue + [e.call] else if e.Pop? then s.queue[1..] else s.queue)
      && (e.Pop? ==> s'.main == Popped(s.queue[0]) && s.queue != [])
      && (!e.Pop? && !s'.main.Idle? ==> !s.main.Idle? && s'.main.call == s.main.call)
      && |s.calls| <= |s'.calls|
  {
  }

  lemma InOrderIs(s: State)
    ensures InOrder(s) <==>
      && NoDup(s.submitted)
      && s.submitted == s.started + s.queue
      && (!s.main.Idle? ==> s.started != [] && s.started[|s.started| - 1] == s.main.call)
  {
    hide NoDup;
  }

  lemma NoDupSnoc(s: seq<nat>, c: nat)
    requires NoDup(s) && c !in s
    ensures NoDup(s + [c])
  {
  }

  lemma NotSubmittedYet(s: State, e: Event)
    requires Inv(s) && Enabled(s, e)
    ensures e.Push? ==> e.call < |s.calls| && e.call !in s.submitted
  {
    assert e.Push? ==> PhaseFits(s, e.call);
  }

  lemma SubmittedAreCalls(s: State)
    requires Inv(s)
    ensures InOrder(s)
    ensures forall c :: c in s.submitted ==> c < |s.calls|
  {
  }

  lemma SubmittedKept(s: State, e: Event)
    requires Inv(s) && Enabled(s, e)
    ensures forall c :: c in Apply(s, e).submitted ==> c < |Apply(s, e).calls|
  {
    NotSubmittedYet(s, e);
    SubmittedAreCalls(s);
    OrderEffect(s, e);
    hide *;
  }

  lemma InOrderKept(s: State, e: Event)
    requires Inv(s) && Enabled(s, e)
    ensures InOrder(Apply(s, e))
  {
    var s' := Apply(s, e);
    NotSubmittedYet(s, e);
    SubmittedInOrder(s);
    OrderEffect(s, e);
    hide *;
    if e.Push? {
      PushInOrder(s, s', e.call);
    } else if e.Pop? {
      PopInOrder(s, s');
    } else {
      InOrderIs(s);
      InOrderIs(s');
    }
  }

  lemma SubmittedInOrder(s: State)
    requires Inv(s)
    ensures InOrder(s)
  {
  }

  lemma PushInOrder(s: State, s': State, c: nat)
    requires InOrder(s) && c !in s.submitted
    requires s'.submitted == s.submitted + [c] && s'.started == s.started && s'.queue == s.queue + [c]
    requires !s'.main.Idle? ==> !s.main.Idle? && s'.main.call == s.main.call
    ensures InOrder(s')
  {
    hide *;
    InOrderIs(s);
    InOrderIs(s');
    NoDupSnoc(s.submitted, c);
    assert s.started + s.queue + [c] == s.started + (s.queue + [c]);
  }

  lemma PopInOrder(s: State, s': State)
    requires InOrder(s) && s.queue != []
    requires s'.submitted == s.submitted && s'.started == s.started + [s.queue[0]] && s'.queue == s.queue[1..]
    requires s'.main == Popped(s.queue[0])
    ensures InOrder(s')
  {
    hide *;
    InOrderIs(s);
    InOrderIs(s');
    assert s.started + s.queue == s.started + [s.queue[0]] + s.queue[1..];
  }

  lemma RunInOrderKept(s: State, e: Event)
    requires Inv(s) && Enabled(s, e)
    ensures RunInOrder(Apply(s, e))
  {
    InOrderKept(s, e);
    if IsTaking(e) {
      RunInOrderTaking(s, e);
    } else {
      RunInOrderOther(s, e);
    }
  }

  lemma RunnableSnoc(s: State, ids: seq<nat>, c: nat)
    ensures Runnable(s, ids + [c])
         == Runnable(s, ids) + if c < |s.calls| && s.calls[c].callable && c !in s.failed then [c] else []
  {
    assert (ids + [c])[..|ids|] == ids;
  }

  lemma TakingEffect(s: State, e: Event)
    requires Inv(s) && Enabled(s, e) && IsTaking(e)
    ensures var s' := Apply(s, e);
      && s'.calls == s.calls
      && (e.Pop? ==>
            && Executed(s') == Executed(s) && s'.failed == s.failed && s'.ranOnMain == s.ranOnMain
            && s.queue[0] !in s.started && s'.started == s.started + [s.queue[0]])
      && (!e.Pop? ==>
            && s.main.Popped? && s.main.call in s.started && s.main.call !in Executed(s) && s.main.call < |s.calls|
            && Executed(s') == Executed(s) + [s.main.call] && s'.started == s.started)
      && (e.Throw? ==>
            s.calls[s.main.call].callable && s'.failed == s.failed + {s.main.call} && s'.ranOnMain == s.ranOnMain)
      && (e.Execute? ==>
            && s'.failed == s.failed
            && s'.ranOnMain == s.ranOnMain + if s.calls[s.main.call].callable then [Run(s.main.call, e.value)] else [])
      && s'.main == match e { case Pop => Popped(s.queue[0]) case Throw => Idle case Execute(v) => Ran(s.main.call, v) }
  {
    if e.Pop? {
      PopEffect(s);
    } else {
      EndEffect(s, e);
    }
    hide Inv, Executed;
  }

  lemma PopEffect(s: State)
    requires Inv(s) && Enabled(s, Pop)
    ensures Executed(Apply(s, Pop)) == Executed(s) && s.queue[0] !in s.started
  {
    MembersBefore(s, 0);
    hide Inv;
  }

  lemma EndEffect(s: State, e: Event)
    requires Inv(s) && Enabled(s, e) && IsTaking(e) && !e.Pop?
    ensures s.main.Popped? && s.main.call in s.started && s.main.call !in Executed(s) && s.main.call < |s.calls|
    ensures Executed(Apply(s, e)) == Executed(s) + [s.main.call]
  {
    Ended(s, e);
    hide *;
    MembersBefore(s, 0);
    SubmittedInOrder(s);
    LastTaken(s);
    ExecutedAll(Apply(s, e));
  }

  lemma Ended(s: State, e: Event)
    requires Enabled(s, e) && IsTaking(e) && !e.Pop?
    ensures s.main.Popped? && !Apply(s, e).main.Popped? && Apply(s, e).started == s.started
  {
  }

  lemma ExecutedAll(s: State)
    ensures !s.main.Popped? ==> Executed(s) == s.started
  {
  }

  lemma LastTaken(s: State)
    requires InOrder(s) && s.main.Popped?
    ensures s.started == Executed(s) + [s.main.call] && s.main.call !in Executed(s)
  {
    InOrderFacts(s);
    InOrderIs(s);
    hide InOrder;
  }

  lemma CallsOfSnoc(runs: seq<Run>, r: Run)
    ensures CallsOf(runs + [r]) == CallsOf(runs) + [r.call]
  {
  }

  lemma RunInOrderTaking(s: State, e: Event)
    requires Inv(s) && Enabled(s, e) && IsTaking(e)
    ensures RunInOrder(Apply(s, e))
  {
    var s' := Apply(s, e);
    TakingEffect(s, e);
    InOrderFacts(s);
    RunInOrderIs(s);
    RunInOrderIs(s');
    hide Inv, InOrder, RunInOrder, Executed, Runnable, InPhase, CallsOf, Apply, Enabled;
    RunnableFrame(s, s', Executed(s));
    if e.Pop? {
    } else {
      RunnableSnoc(s', Executed(s), s.main.call);
      if e.Execute? {
        CallsOfSnoc(s.ranOnMain, Run(s.main.call, e.value));
      }
    }
  }

  lemma RunInOrderIs(s: State)
    ensures RunInOrder(s) <==>
      && CallsOf(s.ranOnMain) == Runnable(s, Executed(s))
      && forall c :: c in s.failed ==> c in s.started && !(!s.main.Idle? && s.main.call == c)
    ensures Inv(s) ==> RunInOrder(s)
  {
    hide CallsOf, Runnable, Executed, InOrder, DirectOnce, FlagsFit, PhasesFit, Yielded;
  }

  /** What a step that neither takes a task nor ends one leaves as it was. */
  lemma Untouched(s: State, e: Event)
    requires Enabled(s, e) && !IsTaking(e)
    ensures var s' := Apply(s, e);
      && s'.started == s.started && s'.failed == s.failed && s'.ranOnMain == s.ranOnMain
      && Executed(s') == Executed(s)
      && (s'.main.Idle? || s'.main.Popped? || s'.main.call == s.main.call) && (s.main.Idle? ==> s'.main.Idle?)
      && |s.calls| <= |s'.calls|
      && forall c :: 0 <= c < |s.calls| ==> s'.calls[c].callable == s.calls[c].callable
  {
  }

  lemma RunInOrderOther(s: State, e: Event)
    requires Inv(s) && Enabled(s, e) && !IsTaking(e)
    ensures RunInOrder(Apply(s, e))
  {
    InOrderFacts(s);
    Untouched(s, e);
    hide InOrder, FlagsFit, PhasesFit, DirectOnce, Apply, Enabled, Executed;
    RunnableFrame(s, Apply(s, e), Executed(s));
  }

  /** Where the invariant says call `c` is. */
  lemma MembersBefore(s: State, c: nat)
    requires Inv(s)
    ensures c in s.started ==> c in s.submitted && c !in s.queue
    ensures c in s.submitted ==> c < |s.calls|
    ensures c in s.failed ==> c in s.started && !(!s.main.Idle? && s.main.call == c)
    ensures !s.main.Idle? ==> s.main.call in s.started && s.main.call < |s.calls|
    ensures s.queue != [] ==> s.queue[0] in s.submitted && s.queue[0] !in s.started
  {
    InOrderFacts(s);
    hide DirectOnce, FlagsFit, PhasesFit, Executed, Runnable, CallsOf, Yielded;
  }

  /** Membership in the records, before and after a step. */
  lemma Members(s: State, e: Event, c: nat)
    requires Inv(s) && Enabled(s, e)
    ensures var s' := Apply(s, e);
      && (c in s'.submitted <==> c in s.submitted || e == Push(c))
      && (c in s'.started <==> c in s.started || (e.Pop? && s.queue[0] == c))
      && (c in s'.failed ==> c in s'.started && !(!s'.main.Idle? && s'.main.call == c))
      && (c in s.started ==> c in s.submitted && c !in s.queue)
      && (c in s.submitted ==> c < |s.calls|)
      && (!s.main.Idle? ==> s.main.call in s.started && s.main.call < |s.calls|)
      && (e.Pop? ==> s.queue[0] in s.submitted && s.queue[0] !in s.started)
  {
    MembersBefore(s, c);
    hide Inv;
  }

  lemma FlagKeptTaking(s: State, e: Event, c: nat)
    requires Inv(s) && Enabled(s, e) && c < |Apply(s, e).calls|
    requires IsTaking(e)
    ensures FlagFits(Apply(s, e), c)
  {
    Members(s, e, c);
    assert c < |s.calls| ==> FlagFits(s, c);
    hide Inv;
  }

  lemma FlagKeptSignal(s: State, e: Event, c: nat)
    requires Inv(s) && Enabled(s, e) && c < |Apply(s, e).calls|
    requires IsSignal(e)
    ensures FlagFits(Apply(s, e), c)
  {
    Members(s, e, c);
    assert c < |s.calls| ==> FlagFits(s, c);
    assert s.main.Ran? ==> Yielded(s, s.main.call, s.main.value);
    hide Inv;
  }

  lemma CallerEffect(s: State, e: Event)
    requires Enabled(s, e) && !IsTaking(e) && !IsSignal(e)
    ensures var s' := Apply(s, e);
      && s'.main == s.main && |s.calls| <= |s'.calls|
      && (forall c :: 0 <= c < |s.calls| ==>
          s'.calls[c].result == s.calls[c].result && s'.calls[c].done == s.calls[c].done)
      && (forall c :: |s.calls| <= c < |s'.calls| ==> !s'.calls[c].done)
  {
  }

  lemma FlagKeptCaller(s: State, e: Event, c: nat)
    requires Inv(s) && Enabled(s, e) && c < |Apply(s, e).calls|
    requires !IsTaking(e) && !IsSignal(e)
    ensures FlagFits(Apply(s, e), c)
  {
    Members(s, e, c);
    assert c < |s.calls| ==> FlagFits(s, c);
    Untouched(s, e);
    CallerEffect(s, e);
    hide Inv, Apply, Enabled, IsTaking, IsSignal;
  }

  lemma CallFits(s: State, c: nat)
    requires Inv(s)
    ensures c < |s.calls| ==> FlagFits(s, c) && PhaseFits(s, c)
  {
  }

  lemma DirectEffect(s: State, e: Event)
    requires Enabled(s, e)
    ensures forall r :: r in s.ranDirect ==> r in Apply(s, e).ranDirect
    ensures e.RunDirect? ==> Run(e.call, e.value) in Apply(s, e).ranDirect
  {
  }

  /** The phase a step leaves call `c` in. */
  function PhaseAfter(s: State, e: Event, c: nat): Phase
    requires c < |s.calls|
  {
    match e
    case RunDirect(k, v) => if k == c then Returned(v) else s.calls[c].phase
    case ThrowDirect(k) => if k == c then Threw else s.calls[c].phase
    case Push(k) => if k == c then Waiting else s.calls[c].phase
    case Return(k) => if k == c then Returned(s.calls[c].result) else s.calls[c].phase
    case TimeOut(k) => if k == c then TimedOut else s.calls[c].phase
    case _ => s.calls[c].phase
  }

  /** What a step does to call `c`, and how a call begins. */
  lemma CallEffect(s: State, e: Event, c: nat)
    requires Enabled(s, e) && c < |Apply(s, e).calls|
    ensures var call' := Apply(s, e).calls[c];
      if c < |s.calls| then
        && call'.phase == PhaseAfter(s, e, c)
        && ((e.Store? && s.main.call == c) || call'.result == s.calls[c].result)
        && (s.calls[c].done ==> call'.done)
      else call'.phase.Entering? || call'.phase.Direct?
  {
  }

  /** The steps of a call are possible in its phases only; the main thread stores no result twice. */
  lemma MeantFor(s: State, e: Event, c: nat)
    requires Inv(s) && Enabled(s, e)
    ensures e.Store? && c < |s.calls| && s.main.call == c ==> !s.calls[c].done
    ensures match e
      case RunDirect(k, _) => InPhase(s, k, Direct)
      case ThrowDirect(k) => InPhase(s, k, Direct)
      case Push(k) => InPhase(s, k, Entering)
      case Return(k) => InPhase(s, k, Waiting) && s.calls[k].done
      case TimeOut(k) => InPhase(s, k, Waiting)
      case _ => true
  {
    CallFits(s, c);
    hide Inv;
  }

  lemma PhaseKept(s: State, e: Event, c: nat)
    requires Inv(s) && Enabled(s, e) && c < |Apply(s, e).calls|
    ensures PhaseFits(Apply(s, e), c)
  {
    Members(s, e, c);
    CallFits(s, c);
    DirectEffect(s, e);
    CallEffect(s, e, c);
    MeantFor(s, e, c);
    hide Inv, Yielded, Apply;
  }

  lemma Preserved(s: State, e: Event)
    requires Inv(s) && Enabled(s, e)
    ensures Inv(Apply(s, e))
  {
    InOrderKept(s, e);
    SubmittedKept(s, e);
    RunInOrderKept(s, e);
    DirectKept(s, e);
    hide InOrder, RunInOrder, DirectOnce, FlagFits, PhaseFits;
    forall c | 0 <= c < |Apply(s, e).calls|
      ensures FlagFits(Apply(s, e), c) && PhaseFits(Apply(s, e), c)
    {
      if IsTaking(e) {
        FlagKeptTaking(s, e, c);
      } else if IsSignal(e) {
        FlagKeptSignal(s, e, c);
      } else {
        FlagKeptCaller(s, e, c);
      }
      PhaseKept(s, e, c);
    }
  }

  lemma {:induction false} EveryRun(run: seq<Event>)
    requires After(run).Some?
    ensures Inv(After(run).value)
  {
    if run == [] {
      assert CallsOf([]) == [];
    } else {
      EveryRun(run[..|run| - 1]);
      hide Inv, Apply;
      Preserved(After(run[..|run| - 1]).value, run[|run| - 1]);
    }
  }

  // ---------- What callers can rely on, in every run ----------

  lemma {:induction false} RunnableMembers(s: State, ids: seq<nat>, c: nat)
    requires NoDup(ids)
    ensures c in Runnable(s, ids) <==> c in ids && c < |s.calls| && s.calls[c].callable && c !in s.failed
    ensures NoDup(Runnable(s, ids))
  {
    if ids == [] {
    } else {
      var before, last := ids[..|ids| - 1], ids[|ids| - 1];
      assert ids == before + [last];
      RunnableMembers(s, before, c);
      RunnableMembers(s, before, last);
    }
  }

  /** A submitted task is in the queue, or being run, or over: always one of the three. */
  lemma OnePlace(run: seq<Event>, c: nat)
    requires After(run).Some? && c in After(run).value.submitted
    ensures var s := After(run).value;
      var queued, running, started := c in s.queue, !s.main.Idle? && s.main.call == c, c in s.started;
      && (queued <==> !started)
      && (running ==> started)
      && multiset(s.submitted)[c] == 1
  {
    EveryRun(run);
    var s := After(run).value;
    InOrderFacts(s);
    hide After, Inv;
    OnceInNoDup(s.submitted, c);
  }

  lemma {:induction false} OnceInNoDup(s: seq<nat>, c: nat)
    requires NoDup(s) && c in s
    ensures multiset(s)[c] == 1
  {
    var k :| 0 <= k < |s| && s[k] == c;
    assert c !in s[..k] && c !in s[k + 1..];
    hide NoDup;
    assert s == s[..k] + [c] + s[k + 1..];
    assert multiset(s[..k])[c] == 0 && multiset(s[k + 1..])[c] == 0;
    assert multiset(s) == multiset(s[..k]) + multiset{c} + multiset(s[k + 1..]);
  }

  lemma ExecutedNoDup(s: State)
    requires InOrder(s)
    ensures NoDup(Executed(s))
  {
    assert forall i :: 0 <= i < |s.started| ==> s.submitted[i] == s.started[i];
  }

  lemma RunsApart(s: State, i: nat, j: nat)
    requires Inv(s) && i < |s.ranOnMain| && j < |s.ranDirect|
    ensures s.ranOnMain[i].call != s.ranDirect[j].call
  {
    var c := s.ranOnMain[i].call;
    assert c == CallsOf(s.ranOnMain)[i] && s.ranDirect[j] in s.ranDirect;
    ExecutedNoDup(s);
    InOrderFacts(s);
    RunnableMembers(s, Executed(s), c);
    hide InOrder, FlagsFit, PhasesFit, Runnable, Executed;
  }

  lemma NoDupConcat(a: seq<nat>, b: seq<nat>)
    requires NoDup(a) && NoDup(b) && forall i, j :: 0 <= i < |a| && 0 <= j < |b| ==> a[i] != b[j]
    ensures NoDup(a + b)
  {
  }

  lemma EachRunsOnce(s: State)
    requires Inv(s)
    ensures NoDup(CallsOf(s.ranOnMain + s.ranDirect))
  {
    ExecutedNoDup(s);
    RunnableMembers(s, Executed(s), 0);
    forall i, j | 0 <= i < |s.ranOnMain| && 0 <= j < |s.ranDirect|
      ensures s.ranOnMain[i].call != s.ranDirect[j].call
    {
      RunsApart(s, i, j);
    }
    hide InOrder, FlagsFit, PhasesFit, Runnable, Executed, NoDup;
    NoDupConcat(CallsOf(s.ranOnMain), CallsOf(s.ranDirect));
    assert CallsOf(s.ranOnMain + s.ranDirect) == CallsOf(s.ranOnMain) + CallsOf(s.ranDirect);
  }

  /** What the main thread has executed so far, in order: every task it has taken and not lost, as submitted. */
  lemma RunsInOrder(run: seq<Event>)
    requires After(run).Some?
    ensures var s := After(run).value;
      && s.started <= s.submitted
      && CallsOf(s.ranOnMain) == Runnable(s, Executed(s))
      && NoDup(CallsOf(s.ranOnMain + s.ranDirect))
  {
    EveryRun(run);
    EachRunsOnce(After(run).value);
    hide After, FlagsFit, PhasesFit, Runnable, Executed;
  }

  lemma OneRun(runs: seq<Run>, r: Run, r': Run)
    requires NoDup(CallsOf(runs)) && r in runs && r' in runs && r.call == r'.call
    ensures r == r'
  {
    var i :| 0 <= i < |runs| && runs[i] == r;
    var j :| 0 <= j < |runs| && runs[j] == r';
    assert CallsOf(runs)[i] == CallsOf(runs)[j];
  }

  lemma ReturnedWas(s: State, c: nat, v: string)
    requires Inv(s) && InPhase(s, c, Returned(v))
    ensures Yielded(s, c, v) || Run(c, v) in s.ranDirect
  {
    assert FlagFits(s, c) && PhaseFits(s, c);
  }

  /**
   A call that has returned returned what its task yielded when it ran, which it did once; an empty task yields
   "".
   */
  lemma ReturnsOwnValue(run: seq<Event>, c: nat, v: string)
    requires After(run).Some? && InPhase(After(run).value, c, Returned(v))
    ensures var s := After(run).value;
      if !s.calls[c].callable then v == ""
      else
        && Run(c, v) in s.ranOnMain + s.ranDirect
        && forall r :: r in s.ranOnMain + s.ranDirect && r.call == c ==> r == Run(c, v)
  {
    var s := After(run).value;
    EveryRun(run);
    ReturnedWas(s, c, v);
    EachRunsOnce(s);
    hide Inv, After;
    forall r | r in s.ranOnMain + s.ranDirect && r.call == c && s.calls[c].callable
      ensures r == Run(c, v)
    {
      OneRun(s.ranOnMain + s.ranDirect, r, Run(c, v));
    }
  }

  /** No caller reads its result before the main thread has put it there. */
  lemma NoEarlyRead(run: seq<Event>, c: nat)
    requires After(run).Some? && Enabled(After(run).value, Return(c))
    ensures Yielded(After(run).value, c, After(run).value.calls[c].result)
  {
    EveryRun(run);
    assert FlagFits(After(run).value, c);
  }

  lemma TimeOutEffect(s: State, e: Event, c: nat)
    requires Enabled(s, e)
    ensures InPhase(Apply(s, e), c, TimedOut) <==> InPhase(s, c, TimedOut) || e == TimeOut(c)
  {
  }

  lemma {:induction false} TimedOutMeans(run: seq<Event>, c: nat)
    requires After(run).Some?
    ensures InPhase(After(run).value, c, TimedOut) <==> TimeOut(c) in run
  {
    if run == [] {
    } else {
      var before, e := run[..|run| - 1], run[|run| - 1];
      TimedOutMeans(before, c);
      TimeOutEffect(After(before).value, e, c);
      hide Apply, InPhase;
      assert run == before + [e];
    }
  }

  lemma TakenPhase(s: State)
    requires Inv(s) && !s.main.Idle?
    ensures s.main.call in s.submitted && s.main.call < |s.calls|
    ensures var phase := s.calls[s.main.call].phase;
      phase.Waiting? || phase.TimedOut? || (phase.Returned? && s.main.Flagged?)
  {
    InOrderFacts(s);
    var c := s.main.call;
    assert c in s.submitted && c < |s.calls|;
    assert FlagFits(s, c) && PhaseFits(s, c);
    hide InOrder, FlagsFit, PhasesFit, RunInOrder, DirectOnce;
  }

  /** The main thread writes into a frame that is still there exactly when the call has not timed out. */
  lemma WritesReachWaiters(run: seq<Event>)
    requires After(run).Some?
    requires Enabled(After(run).value, Store) || Enabled(After(run).value, SetFlag)
    ensures var s := After(run).value;
      InPhase(s, s.main.call, Waiting) <==> TimeOut(s.main.call) !in run
  {
    EveryRun(run);
    var s := After(run).value;
    TimedOutMeans(run, s.main.call);
    TakenPhase(s);
    hide Inv, After;
  }

  /** The main thread wakes a caller that is still there exactly when the call has neither timed out nor returned. */
  lemma WakesWaiters(run: seq<Event>)
    requires After(run).Some? && Enabled(After(run).value, Notify)
    ensures var s := After(run).value;
      InPhase(s, s.main.call, Waiting) <==> TimeOut(s.main.call) !in run && Return(s.main.call) !in run
  {
    EveryRun(run);
    var s := After(run).value;
    TimedOutMeans(run, s.main.call);
    LeftMeans(run, s.main.call);
    TakenPhase(s);
    hide Inv, After;
  }

  lemma LeaveEffect(s: State, e: Event, c: nat)
    requires Inv(s) && Enabled(s, e)
    ensures c in Apply(s, e).submitted && Apply(s, e).calls[c].phase.Returned?
       <==> (c in s.submitted && s.calls[c].phase.Returned?) || e == Return(c)
  {
    Members(s, e, c);
    InOrderKept(s, e);
    CallFits(s, c);
    if c < |Apply(s, e).calls| {
      CallEffect(s, e, c);
    }
    MeantFor(s, e, c);
    hide Inv, InOrder, FlagFits, Apply, Enabled;
  }

  lemma {:induction false} LeftMeans(run: seq<Event>, c: nat)
    requires After(run).Some?
    ensures Inv(After(run).value)
    ensures c in After(run).value.submitted && After(run).value.calls[c].phase.Returned? <==> Return(c) in run
  {
    EveryRun(run);
    if run == [] {
    } else {
      var before, e := run[..|run| - 1], run[|run| - 1];
      LeftMeans(before, c);
      LeaveEffect(After(before).value, e, c);
      assert run == before + [e];
    }
  }

  ghost predicate NoTimeOuts(run: seq<Event>) {
    forall c: nat :: TimeOut(c) !in run
  }

  lemma Start() returns (run: seq<Event>, s: State)
    ensures run == [] && s == INITIAL && After(run) == Some(s) && NoTimeOuts(run)
  {
    run, s := [], INITIAL;
  }

  lemma Step(run: seq<Event>, s: State, e: Event) returns (run': seq<Event>, s': State)
    requires After(run) == Some(s) && Enabled(s, e)
    ensures run' == run + [e] && s' == Apply(s, e) && After(run') == Some(s')
    ensures NoTimeOuts(run) && !e.TimeOut? ==> NoTimeOuts(run')
  {
    run', s' := run + [e], Apply(s, e);
    assert run'[..|run|] == run;
  }

  /** A run after which one caller waits. */
  lemma OneWaiting() returns (run: seq<Event>, s: State)
    ensures After(run) == Some(s) && NoTimeOuts(run)
    ensures s.calls == [Call(true, Waiting, "", false)] && s.queue == [0] && s.main == Idle
  {
    hide After, NoTimeOuts;
    run, s := Start();
    run, s := Step(run, s, SetDispatch(true));
    run, s := Step(run, s, Enter(true));
    run, s := Step(run, s, Push(0));
  }

  /** A caller that timed out leaves the main thread writing into a frame that is gone. */
  lemma LateWrite()
    ensures exists run: seq<Event> ::
      After(run).Some? && Enabled(After(run).value, Store)
          && InPhase(After(run).value, After(run).value.main.call, TimedOut)
  {
    hide After, NoTimeOuts;
    var run, s: State := OneWaiting();
    run, s := Step(run, s, TimeOut(0));
    run, s := Step(run, s, Pop);
    run, s := Step(run, s, Execute(""));
    assert Enabled(s, Store);
  }

  /** A run after which the caller's flag is up and it has not been woken yet. */
  lemma OneFlagged() returns (run: seq<Event>, s: State)
    ensures After(run) == Some(s) && NoTimeOuts(run)
    ensures s.calls == [Call(true, Waiting, "", true)] && s.main == Flagged(0)
  {
    hide After, NoTimeOuts;
    run, s := OneWaiting();
    run, s := Step(run, s, Pop);
    run, s := Step(run, s, Execute(""));
    run, s := Step(run, s, Store);
    run, s := Step(run, s, SetFlag);
  }

  /** Without any timeout, the main thread may still wake a caller that has returned already. */
  lemma LateWakeUp()
    ensures exists run: seq<Event> ::
      && After(run).Some? && NoTimeOuts(run)
      && Enabled(After(run).value, Notify) && InPhase(After(run).value, After(run).value.main.call, Returned(""))
  {
    hide After, NoTimeOuts;
    var run, s: State := OneFlagged();
    run, s := Step(run, s, Return(0));
    assert Enabled(s, Notify);
  }

  // ---------- The queue and the code that works on it ----------

  /** How a task ends: with a value, or by throwing. */
  datatype Outcome = Value(value: string) | Thrown

  /** One turn of the drain loop, undisturbed. */
  function Turn(s: State, outcome: Outcome): State
    requires Enabled(s, Pop) && s.queue[0] < |s.calls|
  {
    var s1 := Apply(s, Pop);
    if !s.calls[s.queue[0]].callable then Signalled(Apply(s1, Execute("")))
    else match outcome
      case Thrown => Apply(s1, Throw)
      case Value(v) => Signalled(Apply(s1, Execute(v)))
  }

  function Signalled(s: State): State
    requires Enabled(s, Store)
  {
    Apply(Apply(Apply(s, Store), SetFlag), Notify)
  }

  /** A drain with nothing else going on: it ends when the queue is empty, or with the first task that throws. */
  function Drained(s: State, outcomes: nat -> Outcome): State
    requires Inv(s) && s.main.Idle?
    decreases |s.queue|
  {
    if s.queue == [] then s
    else
      TurnIsSafe(s, outcomes(s.queue[0]));
      var after := Turn(s, outcomes(s.queue[0]));
      if s.calls[s.queue[0]].callable && outcomes(s.queue[0]).Thrown? then after
      else Drained(after, outcomes)
  }

  lemma HeadIsCall(s: State)
    requires Inv(s) && s.queue != []
    ensures s.queue[0] < |s.calls|
  {
    assert s.queue[0] in s.queue;
    InOrderFacts(s);
    hide RunInOrder, DirectOnce, FlagsFit, PhasesFit, InOrder;
  }

  lemma TurnKeepsInv(s: State, outcome: Outcome)
    requires Inv(s) && s.main.Idle? && s.queue != []
    ensures s.queue[0] < |s.calls| && Inv(Turn(s, outcome))
  {
    hide Inv;
    HeadIsCall(s);
    Preserved(s, Pop);
    var s1 := Apply(s, Pop);
    if !s.calls[s.queue[0]].callable {
      Preserved(s1, Execute(""));
      SignalledIsSafe(Apply(s1, Execute("")));
    } else if outcome.Thrown? {
      Preserved(s1, Throw);
    } else {
      Preserved(s1, Execute(outcome.value));
      SignalledIsSafe(Apply(s1, Execute(outcome.value)));
    }
  }

  lemma TurnIsSafe(s: State, outcome: Outcome)
    requires Inv(s) && s.main.Idle? && s.queue != []
    ensures s.queue[0] < |s.calls|
    ensures var after := Turn(s, outcome);
      && Inv(after) && after.main.Idle? && after.queue == s.queue[1..] && |after.calls| == |s.calls|
      && (forall c :: 0 <= c < |s.calls| ==> after.calls[c].callable == s.calls[c].callable)
      && (forall r :: r in s.ranOnMain ==> r in after.ranOnMain)
      && (s.calls[s.queue[0]].callable && outcome.Value? ==> Run(s.queue[0], outcome.value) in after.ranOnMain)
      && (!s.calls[s.queue[0]].callable || outcome.Value? ==> after.failed == s.failed)
  {
    TurnKeepsInv(s, outcome);
    var s1 := Apply(s, Pop);
    if !s.calls[s.queue[0]].callable {
      SignalledEffect(Apply(s1, Execute("")));
    } else if outcome.Value? {
      SignalledEffect(Apply(s1, Execute(outcome.value)));
    }
    hide Inv, Signalled;
  }

  lemma SignalledIsSafe(s: State)
    requires Inv(s) && Enabled(s, Store)
    ensures Inv(Signalled(s))
  {
    hide Inv;
    Preserved(s, Store);
    Preserved(Apply(s, Store), SetFlag);
    Preserved(Apply(Apply(s, Store), SetFlag), Notify);
  }

  lemma SignalledEffect(s: State)
    requires Enabled(s, Store)
    ensures var after := Signalled(s);
      && after.main.Idle? && after.queue == s.queue && |after.calls| == |s.calls|
      && (forall c :: 0 <= c < |s.calls| ==> after.calls[c].callable == s.calls[c].callable)
      && after.ranOnMain == s.ranOnMain && after.failed == s.failed
  {
  }

  /** Every task in the queue that can be run ends with a value. */
  ghost predicate NoneThrows(s: State, outcomes: nat -> Outcome) {
    forall c :: c in s.queue && c < |s.calls| && s.calls[c].callable ==> outcomes(c).Value?
  }

  lemma {:induction false} DrainedIsSafe(s: State, outcomes: nat -> Outcome)
    requires Inv(s) && s.main.Idle? && NoneThrows(s, outcomes)
    ensures var after := Drained(s, outcomes);
      && Inv(after) && after.main.Idle? && after.queue == [] && after.failed == s.failed
      && |after.calls| == |s.calls|
      && (forall c :: 0 <= c < |s.calls| ==> after.calls[c].callable == s.calls[c].callable)
      && (forall r :: r in s.ranOnMain ==> r in after.ranOnMain)
      && (forall c :: c in s.queue && c < |s.calls| && s.calls[c].callable ==>
            Run(c, outcomes(c).value) in after.ranOnMain)
    decreases |s.queue|
  {
    if s.queue == [] {
    } else {
      var c := s.queue[0];
      TurnIsSafe(s, outcomes(c));
      var next := Turn(s, outcomes(c));
      hide Inv, Turn;
      assert s.queue == [c] + next.queue;
      DrainedIsSafe(next, outcomes);
    }
  }

  /** With nothing queued or running, every caller that waits may leave, unless its task has thrown. */
  lemma WaiterMayLeave(s: State, c: nat)
    requires Inv(s) && s.main.Idle? && s.queue == [] && c !in s.failed && InPhase(s, c, Waiting)
    ensures Enabled(s, Return(c)) && Yielded(s, c, s.calls[c].result)
  {
    InOrderFacts(s);
    assert FlagFits(s, c) && PhaseFits(s, c);
    hide InOrder, FlagsFit, PhasesFit, RunInOrder, DirectOnce;
  }

  lemma RanWith(s: State, c: nat, v: string, w: string)
    requires Inv(s) && Run(c, v) in s.ranOnMain && Run(c, w) in s.ranOnMain
    ensures v == w
  {
    EachRunsOnce(s);
    hide Inv;
    OneRun(s.ranOnMain + s.ranDirect, Run(c, v), Run(c, w));
  }

  /**
   After a drain in which no task throws, a caller still waiting can leave at once with its own task's
   value, unless that task threw before.
   */
  lemma DrainWakesAll(s: State, outcomes: nat -> Outcome, c: nat)
    requires Inv(s) && s.main.Idle? && c !in s.failed && NoneThrows(s, outcomes)
    ensures var after := Drained(s, outcomes);
      && after.queue == []
      && (InPhase(after, c, Waiting) ==>
            && Enabled(after, Return(c)) && Yielded(after, c, after.calls[c].result)
            && (c in s.queue && after.calls[c].callable ==> outcomes(c) == Value(after.calls[c].result)))
  {
    DrainedIsSafe(s, outcomes);
    var after := Drained(s, outcomes);
    hide Inv, Drained;
    if InPhase(after, c, Waiting) {
      WaiterMayLeave(after, c);
      if c in s.queue && after.calls[c].callable {
        RanWith(after, c, after.calls[c].result, outcomes(c).value);
      }
    }
  }

  /** A turn in which the task throws loses that task, and signals nobody. */
  lemma ThrowingTurn(s: State)
    requires Inv(s) && s.main.Idle? && s.queue != []
    ensures s.queue[0] < |s.calls|
    ensures s.calls[s.queue[0]].callable ==>
      var after := Turn(s, Thrown);
      && after.queue == s.queue[1..] && s.queue[0] in after.failed && after.calls == s.calls
      && (forall c :: c in s.failed ==> c in after.failed)
  {
    HeadIsCall(s);
    hide Inv;
  }

  lemma FailedIsNotDone(s: State, c: nat)
    requires Inv(s) && c in s.failed
    ensures c < |s.calls| && !s.calls[c].done && !Enabled(s, Return(c))
  {
    MembersBefore(s, c);
    CallFits(s, c);
    hide Inv, Yielded, PhaseFits;
  }

  lemma DrainedUnfold(s: State, outcomes: nat -> Outcome)
    requires Inv(s) && s.main.Idle? && s.queue != []
    ensures s.queue[0] < |s.calls|
    ensures var after := Turn(s, outcomes(s.queue[0]));
      && Inv(after) && after.main.Idle? && after.queue == s.queue[1..] && |after.calls| == |s.calls|
      && (forall c :: 0 <= c < |s.calls| ==> after.calls[c].callable == s.calls[c].callable)
      && Drained(s, outcomes)
         == if s.calls[s.queue[0]].callable && outcomes(s.queue[0]).Thrown? then after else Drained(after, outcomes)
  {
    TurnIsSafe(s, outcomes(s.queue[0]));
    hide Inv, Turn;
  }

  /** The first task in the queue that throws is at place `k`. */
  ghost predicate ThrowsFirst(s: State, outcomes: nat -> Outcome, k: nat) {
    && k < |s.queue| && s.queue[k] < |s.calls| && s.calls[s.queue[k]].callable && outcomes(s.queue[k]).Thrown?
    && forall j :: 0 <= j < k && s.queue[j] < |s.calls| && s.calls[s.queue[j]].callable ==>
         outcomes(s.queue[j]).Value?
  }

  lemma ThrowsNext(s: State, next: State, outcomes: nat -> Outcome, k: nat)
    requires ThrowsFirst(s, outcomes, k) && k > 0 && next.queue == s.queue[1..] && |next.calls| == |s.calls|
    requires forall c :: 0 <= c < |s.calls| ==> next.calls[c].callable == s.calls[c].callable
    ensures ThrowsFirst(next, outcomes, k - 1) && next.queue[k - 1] == s.queue[k] && next.queue[k..] == s.queue[k + 1..]
    ensures s.queue[0] < |s.calls| && s.calls[s.queue[0]].callable ==> outcomes(s.queue[0]).Value?
  {
    assert forall j :: 0 <= j < k ==> next.queue[j] == s.queue[j + 1];
  }

  /**
   The first task that throws ends the drain: those behind it stay in the queue, in their order, and its own caller is
   never told, so that it can only time out.
   */
  lemma {:induction false} ThrowEndsDrain(s: State, outcomes: nat -> Outcome, k: nat)
    requires Inv(s) && s.main.Idle? && ThrowsFirst(s, outcomes, k)
    ensures var after := Drained(s, outcomes);
      && Inv(after) && after.main.Idle? && after.queue == s.queue[k + 1..]
      && s.queue[k] in after.failed && !Enabled(after, Return(s.queue[k]))
    decreases k
  {
    var c := s.queue[0];
    hide Inv, Turn, Enabled, Drained;
    DrainedUnfold(s, outcomes);
    var next := Turn(s, outcomes(c));
    if k == 0 {
      ThrowingTurn(s);
      FailedIsNotDone(next, c);
    } else {
      ThrowsNext(s, next, outcomes, k);
      hide ThrowsFirst;
      ThrowEndsDrain(next, outcomes, k - 1);
    }
  }

  /** The static members of the source, and the frames of the calls in progress. */
  class Queue {
    var dispatchAvailable: bool
    var tasks: seq<nat>
    var calls: seq<Call>
    ghost var main: MainThread
    ghost var submitted: seq<nat>
    ghost var started: seq<nat>
    ghost var failed: set<nat>
    ghost var ranOnMain: seq<Run>
    ghost var ranDirect: seq<Run>

    ghost function Now(): State
      reads this
    {
      State(dispatchAvailable, calls, tasks, main, submitted, started, failed, ranOnMain, ranDirect)
    }

    constructor ()
      ensures Now() == INITIAL
    {
      dispatchAvailable, tasks, calls, main := false, [], [], Idle;
      submitted, started, failed, ranOnMain, ranDirect := [], [], {}, [], [];
    }

    method SetDispatchAvailable(available: bool)
      modifies this
      ensures Now() == Apply(old(Now()), SetDispatch(available))
    {
      dispatchAvailable := available;
    }

    /** The test at the head of `invoke_on_main`; the call is then `Entering` or `Direct`. */
    method Begin(callable: bool) returns (c: nat)
      modifies this
      ensures Now() == Apply(old(Now()), Enter(callable)) && c == |old(calls)|
      ensures calls == old(calls) + [Call(callable, if old(dispatchAvailable) then Entering else Direct, "", false)]
    {
      c := |calls|;
      calls := calls + [Call(callable, if dispatchAvailable then Entering else Direct, "", false)];
    }

    /** The locked section that queues the task. */
    method PushTask(c: nat)
      requires Enabled(Now(), Push(c))
      modifies this
      ensures Now() == Apply(old(Now()), Push(c))
    {
      tasks := tasks + [c];
      calls := calls[c := calls[c].(phase := Waiting)];
      submitted := submitted + [c];
    }

    /** The end of the wait: the flag is up, or the time is. */
    method Leave(c: nat) returns (r: Option<string>)
      requires InPhase(Now(), c, Waiting)
      modifies this
      ensures Now() == Apply(old(Now()), if old(calls[c].done) then Return(c) else TimeOut(c))
      ensures r == if old(calls[c].done) then Some(old(calls[c].result)) else None
    {
      if !calls[c].done {
        calls := calls[c := calls[c].(phase := TimedOut)];
        return None;
      }
      r := Some(calls[c].result);
      calls := calls[c := calls[c].(phase := Returned(calls[c].result))];
    }

    /** The locked section of the drain loop; None when the queue is empty. */
    method PopTask() returns (task: Option<nat>)
      requires main.Idle?
      modifies this
      ensures task.None? <==> old(tasks) == []
      ensures task.None? ==> Now() == old(Now())
      ensures task.Some? ==> task.value == old(tasks[0]) && Now() == Apply(old(Now()), Pop)
    {
      if tasks == [] {
        return None;
      }
      task := Some(tasks[0]);
      main, started := Popped(tasks[0]), started + [tasks[0]];
      tasks := tasks[1..];
    }

    method RunTask(c: nat, outcome: Outcome) returns (value: Option<string>)
      requires main == Popped(c) && c < |calls|
      modifies this
      ensures value ==
        if !old(calls[c]).callable then Some("")
        else match outcome { case Thrown => None case Value(v) => Some(v) }
      ensures Now() == Apply(old(Now()), match value { case None => Throw case Some(v) => Execute(v) })
    {
      value := Some("");
      if calls[c].callable {
        match outcome {
          case Thrown =>
            main, failed := Idle, failed + {c};
            return None;
          case Value(v) =>
            value := Some(v);
            ranOnMain := ranOnMain + [Run(c, v)];
        }
      }
      main := Ran(c, value.value);
    }

    method Signal(c: nat, value: string)
      requires main == Ran(c, value) && c < |calls|
      modifies this
      ensures Now() == Signalled(old(Now()))
    {
      calls := calls[c := calls[c].(result := value)];
      calls := calls[c := calls[c].(done := true)];
      main := Idle;
    }

    /** `process_pending`, when nothing else happens meanwhile; false when a task has thrown. */
    method ProcessPending(outcomes: nat -> Outcome) returns (ok: bool)
      requires Inv(Now()) && main.Idle?
      modifies this
      ensures Inv(Now()) && Now() == Drained(old(Now()), outcomes)
      ensures ok ==> tasks == []
    {
      ghost var first := Now();
      while true
        invariant Inv(Now()) && main.Idle?
        invariant Drained(Now(), outcomes) == Drained(first, outcomes)
        decreases |tasks|
      {
        ghost var before := Now();
        var task := PopTask();
        if task.None? {
          return true;
        }
        var c := task.value;
        TurnIsSafe(before, outcomes(c));
        var value := RunTask(c, outcomes(c));
        if value.None? {
          return false;
        }
        Signal(c, value.value);
      }
    }
  }
}
