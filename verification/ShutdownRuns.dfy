// Properties of whole runs of the shutdown protocol: the order of its hooks, the single close,
// when Serve returns, and that every run that was asked to stop comes to an end.
module ShutdownRuns {
  import opened Counting
  import opened Shutdown
  import opened Wrappers

  // The state remembers what the run has done.

  ghost predicate ClosesTraced(s: State, run: seq<Action>) { s.closes == 0 <==> forall c :: Close(c) !in run }

  ghost predicate HooksTraced(s: State, run: seq<Action>) {
    (s.preHooks > 0 <==> PreHook in run) && (s.postHooks > 0 <==> PostHook in run)
  }

  // How far handleShutdown has come.
  function Stage(h: HandlerPc): nat {
    match h
    case Unstarted => 0
    case AwaitingClose => 1
    case BeforePreHook => 2
    case Spawning(_) => 3
    case Collecting(_, _) => 4
    case Cancelling => 5
    case Releasing => 6
    case Finished => 7
  }

  ghost predicate HandlerTraced(s: State, run: seq<Action>) {
    && (StartHandler in run <==> Stage(s.handler) >= 1)
    && (Wake in run <==> Stage(s.handler) >= 2)
    && (PreHook in run <==> Stage(s.handler) >= 3)
    && (SpawnedAll in run <==> Stage(s.handler) >= 4)
    && (PostHook in run || SkipPostHook in run <==> Stage(s.handler) >= 5)
    && (Cancel in run <==> Stage(s.handler) >= 6)
    && (HandlerDone in run <==> Stage(s.handler) >= 7)
  }

  ghost predicate StopsTraced(s: State, run: seq<Action>) {
    forall w: nat :: ServingStops(w) in run <==> w < |s.serving| && s.serving[w] == Done
  }

  ghost predicate WorkersTraced(s: State, run: seq<Action>) {
    && (forall w: nat :: BeginClosing(w) in run <==> w < |s.workers| && Begun(s.workers[w]))
    && (forall w: nat :: Receive(w) in run <==> w < |s.workers| && s.workers[w].Received?)
  }

  ghost predicate StartsTraced(s: State, run: seq<Action>) {
    multiset(run)[StartServing] == if s.serve.Starting? then s.serve.next else |s.serving|
  }

  // The first swap of the run is the one of caller c.
  ghost predicate WonBy(run: seq<Action>, c: nat) {
    exists j :: 0 <= j < |run| && run[j] == Swap(c) && forall k | 0 <= k < j :: !run[k].Swap?
  }

  predicate HasSwapped(c: CallPc) { c == MustClose || c == Returned }

  // What makes caller c call: the interrupt loop calls when it is signalled.
  function CalledBy(c: nat): Action { if c == 0 then Signal else Call(c) }

  ghost predicate SwapsTraced(s: State, run: seq<Action>) {
    && (forall c: nat :: Swap(c) in run <==> c < |s.callers| && HasSwapped(s.callers[c]))
    && (forall c: nat | c < |s.callers| && s.callers[c] != NotCalled :: CalledBy(c) in run)
  }

  ghost predicate WinnerTraced(s: State, run: seq<Action>) {
    && (!s.shuttingDown ==> forall a | a in run :: !a.Swap?)
    && (forall c: nat | c < |s.callers| && s.callers[c] == MustClose :: WonBy(run, c))
  }

  ghost predicate Traced(s: State, run: seq<Action>) {
    ClosesTraced(s, run) && HooksTraced(s, run) && HandlerTraced(s, run) && StopsTraced(s, run)
  }

  // What server.Shutdown returned, once it has.
  function ResultOf(w: WorkerPc): Option<bool> {
    match w case Sending(ok) => Some(ok) case Received(ok) => Some(ok) case _ => None
  }

  // Each worker's result is the one its server.Shutdown gave.
  ghost predicate ResultsTraced(workers: seq<WorkerPc>, run: seq<Action>) {
    forall i: nat, ok :: EndClosing(i, ok) in run <==> i < |workers| && ResultOf(workers[i]) == Some(ok)
  }

  lemma StepKeepsClosesTraced(s: State, run: seq<Action>, a: Action)
    requires ClosesTraced(s, run) && Enabled(s, a)
    ensures ClosesTraced(Apply(s, a), run + [a])
  {
    if a.Close? {
      assert a in run + [a];
    } else {
      assert forall c :: Close(c) in run + [a] <==> Close(c) in run;
    }
  }

  lemma StepKeepsHooksTraced(s: State, run: seq<Action>, a: Action)
    requires HooksTraced(s, run) && Enabled(s, a)
    ensures HooksTraced(Apply(s, a), run + [a])
  {
  }

  // The stage an action brings handleShutdown to, if it does.
  function StageOf(a: Action): nat {
    match a
    case StartHandler => 1
    case Wake => 2
    case PreHook => 3
    case SpawnedAll => 4
    case PostHook => 5
    case SkipPostHook => 5
    case Cancel => 6
    case HandlerDone => 7
    case _ => 0
  }

  lemma StageOfStep(s: State, a: Action)
    requires ServeInv(s) && Enabled(s, a)
    ensures if StageOf(a) == 0 then Stage(Apply(s, a).handler) == Stage(s.handler)
            else Stage(s.handler) == StageOf(a) - 1 && Stage(Apply(s, a).handler) == StageOf(a)
  {
  }

  lemma StepKeepsHandlerTraced(s: State, run: seq<Action>, a: Action)
    requires ServeInv(s) && HandlerTraced(s, run) && Enabled(s, a)
    ensures HandlerTraced(Apply(s, a), run + [a])
  {
    StageOfStep(s, a);
    assert forall b :: b in run + [a] <==> b in run || b == a;
  }

  lemma StepKeepsStopsTraced(s: State, run: seq<Action>, a: Action)
    requires ServeInv(s) && StopsTraced(s, run) && Enabled(s, a)
    ensures StopsTraced(Apply(s, a), run + [a])
  {
    assert forall b :: b in run + [a] <==> b in run || b == a;
    if a.StartServing? || a.ServingStops? {
    } else {
      assert Apply(s, a).serving == s.serving;
    }
  }

  lemma WorkersOfStep(s: State, a: Action)
    requires HandlerInv(s) && Enabled(s, a)
    ensures |Apply(s, a).workers| == |s.workers|
    ensures forall w: nat | w < |s.workers| ::
              && (Begun(Apply(s, a).workers[w]) <==> Begun(s.workers[w]) || a == BeginClosing(w))
              && (Apply(s, a).workers[w].Received? <==> s.workers[w].Received? || a == Receive(w))
  {
    if a.Spawn? {
      assert s.workers[s.handler.next] == Absent;
    } else if a.BeginClosing? || a.EndClosing? || a.Receive? {
    } else {
      OtherStepsKeepWorkers(s, a);
    }
  }

  lemma StepKeepsWorkersTraced(s: State, run: seq<Action>, a: Action)
    requires HandlerInv(s) && WorkersTraced(s, run) && Enabled(s, a)
    ensures WorkersTraced(Apply(s, a), run + [a])
  {
    WorkersOfStep(s, a);
    assert forall b :: b in run + [a] <==> b in run || b == a;
    assert a.BeginClosing? || a.Receive? ==> a.i < |s.workers|;
  }

  lemma StepKeepsStartsTraced(s: State, run: seq<Action>, a: Action)
    requires StartsTraced(s, run) && Enabled(s, a)
    ensures StartsTraced(Apply(s, a), run + [a])
  {
  }

  lemma StillWonBy(run: seq<Action>, a: Action, c: nat)
    requires WonBy(run, c) || (a == Swap(c) && forall b | b in run :: !b.Swap?)
    ensures WonBy(run + [a], c)
  {
    if WonBy(run, c) {
      var j :| 0 <= j < |run| && run[j] == Swap(c) && forall k | 0 <= k < j :: !run[k].Swap?;
      assert (run + [a])[j] == Swap(c);
    } else {
      assert (run + [a])[|run|] == Swap(c);
    }
  }

  lemma CallsOfStep(s: State, a: Action)
    requires Enabled(s, a) && CloseInv(s)
    ensures |Apply(s, a).callers| == |s.callers|
    ensures forall c: nat | c < |s.callers| ::
              && (HasSwapped(Apply(s, a).callers[c]) <==> HasSwapped(s.callers[c]) || a == Swap(c))
              && (Apply(s, a).callers[c] != NotCalled <==> s.callers[c] != NotCalled || a == CalledBy(c))
              && (Apply(s, a).callers[c] == MustClose ==>
                    s.callers[c] == MustClose || (a == Swap(c) && !s.shuttingDown))
  {
    if a.Signal? || a.Call? || a.Swap? || a.Close? {
    } else {
      assert Apply(s, a).callers == s.callers;
    }
  }

  lemma StepKeepsSwapsTraced(s: State, run: seq<Action>, a: Action)
    requires SwapsTraced(s, run) && CloseInv(s) && Enabled(s, a)
    ensures SwapsTraced(Apply(s, a), run + [a])
  {
    CallsOfStep(s, a);
    assert forall b :: b in run + [a] <==> b in run || b == a;
    assert a.Swap? ==> a.c < |s.callers|;
  }

  lemma SwapsSetTheFlag(s: State, a: Action)
    requires Enabled(s, a)
    ensures Apply(s, a).shuttingDown <==> s.shuttingDown || a.Swap?
  {
  }

  lemma StepKeepsWinnerTraced(s: State, run: seq<Action>, a: Action)
    requires WinnerTraced(s, run) && CloseInv(s) && Enabled(s, a)
    ensures WinnerTraced(Apply(s, a), run + [a])
  {
    CallsOfStep(s, a);
    SwapsSetTheFlag(s, a);
    var t := Apply(s, a);
    forall c: nat | c < |t.callers| && t.callers[c] == MustClose ensures WonBy(run + [a], c) {
      StillWonBy(run, a, c);
    }
  }

  lemma StepKeepsTraced(s: State, run: seq<Action>, a: Action)
    requires Inv(s) && Traced(s, run) && Enabled(s, a)
    ensures Traced(Apply(s, a), run + [a])
  {
    StepKeepsClosesTraced(s, run, a);
    StepKeepsHooksTraced(s, run, a);
    StepKeepsHandlerTraced(s, run, a);
    StepKeepsStopsTraced(s, run, a);
  }

  lemma StepKeepsResultsTraced(s: State, run: seq<Action>, a: Action)
    requires HandlerInv(s) && ResultsTraced(s.workers, run) && Enabled(s, a)
    ensures ResultsTraced(Apply(s, a).workers, run + [a])
  {
    var workers := Apply(s, a).workers;
    assert forall b :: b in run + [a] <==> b in run || b == a;
    if a.EndClosing? {
      assert workers == s.workers[a.i := Sending(a.ok)];
    } else {
      OtherStepsKeepResults(s, a);
    }
  }

  lemma OtherStepsKeepResults(s: State, a: Action)
    requires HandlerInv(s) && Enabled(s, a) && !a.EndClosing?
    ensures |Apply(s, a).workers| == |s.workers|
    ensures forall i | 0 <= i < |s.workers| :: ResultOf(Apply(s, a).workers[i]) == ResultOf(s.workers[i])
  {
    if a.Spawn? {
      assert s.workers[s.handler.next] == Absent;
    } else if a.BeginClosing? || a.Receive? {
    } else {
      OtherStepsKeepWorkers(s, a);
    }
  }

  // The workers received from, in order of arrival.
  function Arrivals(run: seq<Action>): seq<nat> {
    if run == [] then [] else
      var a := run[|run| - 1];
      Arrivals(run[..|run| - 1]) + if a.Receive? then [a.i] else []
  }

  ghost predicate ReceivedTraced(s: State, arrivals: seq<nat>) {
    && |s.received| == |arrivals|
    && forall k | 0 <= k < |arrivals| :: arrivals[k] < |s.workers| && s.workers[arrivals[k]] == Received(s.received[k])
  }

  lemma StepKeepsReceivedTraced(s: State, arrivals: seq<nat>, a: Action)
    requires HandlerInv(s) && ReceivedTraced(s, arrivals) && Enabled(s, a)
    ensures ReceivedTraced(Apply(s, a), arrivals + if a.Receive? then [a.i] else [])
  {
    if a.Spawn? {
      assert s.workers[s.handler.next] == Absent;
    } else if a.BeginClosing? || a.EndClosing? || a.Receive? {
    } else {
      OtherStepsKeepWorkers(s, a);
    }
  }

  lemma {:induction false} RunIsTraced(servers: nat, callers: nat, run: seq<Action>)
    requires After(servers, callers, run).Some?
    ensures Traced(After(servers, callers, run).value, run)
    ensures ResultsTraced(After(servers, callers, run).value.workers, run)
    ensures ReceivedTraced(After(servers, callers, run).value, Arrivals(run))
  {
    if run == [] {
    } else {
      var init, a := run[..|run| - 1], run[|run| - 1];
      assert run == init + [a];
      RunIsTraced(servers, callers, init);
      RunKeepsInv(servers, callers, init);
      StepKeepsTraced(After(servers, callers, init).value, init, a);
      StepKeepsResultsTraced(After(servers, callers, init).value, init, a);
      StepKeepsReceivedTraced(After(servers, callers, init).value, Arrivals(init), a);
    }
  }

  lemma {:induction false} RunTracesWorkers(servers: nat, callers: nat, run: seq<Action>)
    requires After(servers, callers, run).Some?
    ensures WorkersTraced(After(servers, callers, run).value, run)
    ensures StartsTraced(After(servers, callers, run).value, run)
  {
    if run == [] {
    } else {
      var init, a := run[..|run| - 1], run[|run| - 1];
      assert run == init + [a];
      RunTracesWorkers(servers, callers, init);
      RunKeepsInv(servers, callers, init);
      StepKeepsWorkersTraced(After(servers, callers, init).value, init, a);
      StepKeepsStartsTraced(After(servers, callers, init).value, init, a);
    }
  }

  lemma {:induction false} RunTracesCalls(servers: nat, callers: nat, run: seq<Action>)
    requires After(servers, callers, run).Some?
    ensures SwapsTraced(After(servers, callers, run).value, run)
    ensures WinnerTraced(After(servers, callers, run).value, run)
  {
    if run == [] {
    } else {
      var init, a := run[..|run| - 1], run[|run| - 1];
      assert run == init + [a];
      RunTracesCalls(servers, callers, init);
      RunKeepsInv(servers, callers, init);
      StepKeepsSwapsTraced(After(servers, callers, init).value, init, a);
      StepKeepsWinnerTraced(After(servers, callers, init).value, init, a);
    }
  }

  // The state in which action i of a run was taken.
  lemma {:induction false} StateBefore(servers: nat, callers: nat, run: seq<Action>, i: nat) returns (s: State)
    requires After(servers, callers, run).Some? && i < |run|
    ensures After(servers, callers, run[..i]) == Some(s) && Enabled(s, run[i])
    ensures Inv(s) && |s.workers| == servers
    ensures Traced(s, run[..i]) && ResultsTraced(s.workers, run[..i])
  {
    var init := run[..|run| - 1];
    if i < |run| - 1 {
      s := StateBefore(servers, callers, init, i);
      assert init[..i] == run[..i];
    } else {
      s := After(servers, callers, init).value;
      RunKeepsInv(servers, callers, init);
      RunIsTraced(servers, callers, init);
    }
  }

  lemma AllReceived(s: State)
    requires Inv(s) && |s.received| == |s.workers|
    ensures forall w | w in s.workers :: w.Received?
  {
    TotalConstant(s.workers, (w: WorkerPc) => 1, 1);
    TotalBounded(s.workers, HasBeenReceived(), (w: WorkerPc) => 1);
  }

  // ServerShutdown runs at most once, after PreServerShutdown and after every
  // server.Shutdown has returned nil.
  lemma HooksInOrder(servers: nat, callers: nat, run: seq<Action>, i: nat)
    requires After(servers, callers, run).Some? && i < |run| && run[i] == PostHook
    ensures PreHook in run[..i] && PostHook !in run[..i]
    ensures forall w: nat | w < servers :: EndClosing(w, true) in run[..i]
  {
    var s := StateBefore(servers, callers, run, i);
    AllReceived(s);
    forall w: nat | w < servers ensures EndClosing(w, true) in run[..i] {
      assert s.workers[w] in s.workers;
      assert s.workers[w] == Received(true);
    }
  }

  // The whole order of handleShutdown: each of its steps is taken once and follows the one before.
  lemma HandlerInOrder(servers: nat, callers: nat, run: seq<Action>, i: nat)
    requires After(servers, callers, run).Some? && i < |run|
    ensures run[i] == StartHandler ==> StartHandler !in run[..i] && multiset(run[..i])[StartServing] == servers
    ensures run[i] == Wake ==> Wake !in run[..i] && StartHandler in run[..i] && exists c :: Close(c) in run[..i]
    ensures run[i] == PreHook ==> PreHook !in run[..i] && Wake in run[..i]
    ensures run[i] == Spawn ==> PreHook in run[..i] && SpawnedAll !in run[..i]
    ensures run[i] == SpawnedAll ==> SpawnedAll !in run[..i] && PreHook in run[..i]
    ensures run[i].Receive? || run[i] == SkipReceive ==> SpawnedAll in run[..i]
    ensures run[i] == PostHook || run[i] == SkipPostHook ==>
              PostHook !in run[..i] && SkipPostHook !in run[..i] && SpawnedAll in run[..i]
    ensures run[i] == Cancel ==> Cancel !in run[..i] && (PostHook in run[..i] || SkipPostHook in run[..i])
    ensures run[i] == HandlerDone ==> HandlerDone !in run[..i] && Cancel in run[..i]
  {
    var s := StateBefore(servers, callers, run, i);
    RunTracesWorkers(servers, callers, run[..i]);
  }

  // No server is shut down before PreServerShutdown has run. Each one is shut down once, it stops
  // serving after that, and its result is received once it was given.
  lemma ShutdownsFollowPreHook(servers: nat, callers: nat, run: seq<Action>, i: nat)
    requires After(servers, callers, run).Some? && i < |run|
    ensures run[i].BeginClosing? ==> PreHook in run[..i] && run[i] !in run[..i]
    ensures run[i].EndClosing? ==>
              BeginClosing(run[i].i) in run[..i] && forall ok :: EndClosing(run[i].i, ok) !in run[..i]
    ensures run[i].ServingStops? ==> BeginClosing(run[i].i) in run[..i] && run[i] !in run[..i]
    ensures run[i].Receive? ==> run[i] !in run[..i] && exists ok :: EndClosing(run[i].i, ok) in run[..i]
  {
    var s := StateBefore(servers, callers, run, i);
    RunTracesWorkers(servers, callers, run[..i]);
    if run[i].Receive? {
      assert EndClosing(run[i].i, s.workers[run[i].i].ok) in run[..i];
    }
  }

  lemma {:induction false} ArrivalsAreReceived(run: seq<Action>)
    ensures forall k | 0 <= k < |Arrivals(run)| :: Receive(Arrivals(run)[k]) in run
  {
    if run == [] {
    } else {
      ArrivalsAreReceived(run[..|run| - 1]);
    }
  }

  // The collector goes on without receiving only after it has received a failure.
  lemma SkipsFollowFailure(servers: nat, callers: nat, run: seq<Action>, i: nat) returns (w: nat)
    requires After(servers, callers, run).Some? && i < |run| && (run[i] == SkipReceive || run[i] == SkipPostHook)
    ensures Receive(w) in run[..i] && EndClosing(w, false) in run[..i]
  {
    var s := StateBefore(servers, callers, run, i);
    RunIsTraced(servers, callers, run[..i]);
    ArrivalsAreReceived(run[..i]);
    ArrivalsInRun(s, run[..i]);
    w := Arrivals(run[..i])[|s.received| - 1];
  }

  // A caller swaps once, after it was called, and only the caller that swapped first closes.
  lemma CallsInOrder(servers: nat, callers: nat, run: seq<Action>, i: nat)
    requires After(servers, callers, run).Some? && i < |run|
    ensures run[i].Swap? ==> run[i] !in run[..i] && (if run[i].c == 0 then Signal else Call(run[i].c)) in run[..i]
    ensures run[i].Close? ==> WonBy(run[..i], run[i].c)
  {
    var s := StateBefore(servers, callers, run, i);
    RunTracesCalls(servers, callers, run[..i]);
  }

  // PreServerShutdown runs at most once, and only after the channel was closed.
  lemma PreHookOnce(servers: nat, callers: nat, run: seq<Action>, i: nat)
    requires After(servers, callers, run).Some? && i < |run| && run[i] == PreHook
    ensures PreHook !in run[..i] && exists c :: Close(c) in run[..i]
  {
    var s := StateBefore(servers, callers, run, i);
  }

  lemma PendingIsCounted(callers: seq<CallPc>, c: nat)
    requires c < |callers| && callers[c] == MustClose
    ensures Total(callers, PendingClose()) >= 1
  {
    TotalUpdate(callers, c, Returned, PendingClose());
  }

  // The shutdown channel is never closed twice, for any number of callers and signals.
  lemma ClosedAtMostOnce(servers: nat, callers: nat, run: seq<Action>, i: nat)
    requires After(servers, callers, run).Some? && i < |run| && run[i].Close?
    ensures forall c :: Close(c) !in run[..i]
  {
    var s := StateBefore(servers, callers, run, i);
    PendingIsCounted(s.callers, run[i].c);
  }

  // wg.Done of handleShutdown comes after its hook and after cancelling the context.
  lemma HandlerDoneIsLast(servers: nat, callers: nat, run: seq<Action>, i: nat)
    requires After(servers, callers, run).Some? && i < |run| && run[i] == HandlerDone
    ensures Cancel in run[..i] && (PostHook in run[..i] || SkipPostHook in run[..i])
  {
    var s := StateBefore(servers, callers, run, i);
  }

  // Serve returns only when every server goroutine and handleShutdown are done.
  lemma ServeReturnsLast(servers: nat, callers: nat, run: seq<Action>, i: nat)
    requires After(servers, callers, run).Some? && i < |run| && run[i] == WaitReturns
    ensures HandlerDone in run[..i]
    ensures forall w: nat | w < servers :: ServingStops(w) in run[..i]
  {
    var s := StateBefore(servers, callers, run, i);
    forall w: nat | w < servers ensures ServingStops(w) in run[..i] {
      if s.serving[w] == Serving {
        TotalUpdate(s.serving, w, Done, Live());
        assert false;
      }
    }
  }

  // Progress.

  // An action of the protocol itself, rather than of its environment.
  predicate Internal(a: Action) { !a.Signal? && !a.Call? }

  ghost predicate Stuck(s: State) { forall a | Internal(a) :: !Enabled(s, a) }

  ghost predicate Requested(s: State) { exists c | c in s.callers :: c != NotCalled }

  // A worker whose result nobody will receive.
  function Unheard(): WorkerPc -> nat { (w: WorkerPc) => if w.Received? then 0 else 1 }

  // While no failure has been received, a result remains to be sent or received:
  // the collector never hangs.
  lemma CollectorCanMove(s: State) returns (a: Action)
    requires Inv(s) && s.handler.Collecting? && s.handler.iterations < |s.workers|
    ensures Internal(a) && Enabled(s, a)
  {
    if !s.handler.success {
      return SkipReceive;
    }
    if forall w | w in s.workers :: w.Received? {
      TotalConstant(s.workers, HasBeenReceived(), 1);
      assert false;
    }
    var w :| w in s.workers && !w.Received?;
    var i :| 0 <= i < |s.workers| && s.workers[i] == w;
    match w
    case Spawned => a := BeginClosing(i);
    case Closing => a := EndClosing(i, true);
    case Sending(_) => a := Receive(i);
  }

  lemma HandlerCanMove(s: State) returns (a: Action)
    requires Inv(s) && s.closes == 1 && s.handler != Unstarted && s.handler != Finished
    ensures Internal(a) && Enabled(s, a)
  {
    match s.handler
    case AwaitingClose => a := Wake;
    case BeforePreHook => a := PreHook;
    case Spawning(next) => a := if next < |s.workers| then Spawn else SpawnedAll;
    case Collecting(k, success) =>
      if k < |s.workers| {
        a := CollectorCanMove(s);
      } else {
        a := if success then PostHook else SkipPostHook;
      }
    case Cancelling => a := Cancel;
    case Releasing => a := HandlerDone;
  }

  // With no call of Shutdown under way, one that returned left the channel closed.
  lemma QuietCallsClosed(s: State)
    requires Inv(s) && Requested(s)
    requires forall c | c in s.callers :: c == NotCalled || c == Returned
    ensures s.closes == 1
  {
    TotalConstant(s.callers, PendingClose(), 0);
  }

  lemma ServingCanMove(s: State) returns (a: Action)
    requires Inv(s) && s.handler == Finished && s.group > 0
    ensures Internal(a) && Enabled(s, a)
  {
    if forall p | p in s.serving :: p != Serving {
      TotalConstant(s.serving, Live(), 0);
      assert false;
    }
    var i :| 0 <= i < |s.serving| && s.serving[i] == Serving;
    a := if s.workers[i] == Spawned then BeginClosing(i) else ServingStops(i);
  }

  // No deadlock: once Shutdown has been called, some party can move until Serve has returned.
  lemma SomePartyCanMove(s: State) returns (a: Action)
    requires Inv(s) && Requested(s) && s.serve != ServeReturned
    ensures Internal(a) && Enabled(s, a)
  {
    if c: nat :| c < |s.callers| && s.callers[c] == Calling {
      return Swap(c);
    }
    if c: nat :| c < |s.callers| && s.callers[c] == MustClose {
      return Close(c);
    }
    QuietCallsClosed(s);
    if s.serve.Starting? {
      a := if s.serve.next < |s.serving| then StartServing else StartHandler;
    } else if s.handler != Finished {
      a := HandlerCanMove(s);
    } else if s.group == 0 {
      a := WaitReturns;
    } else {
      a := ServingCanMove(s);
    }
  }

  // A goroutine waits to send its result to a collector that receives nothing more.

  predicate Deaf(h: HandlerPc) {
    h == Cancelling || h == Releasing || h == Finished || (h.Collecting? && !h.success)
  }

  predicate Blocked(s: State, i: nat) { i < |s.workers| && s.workers[i].Sending? && Deaf(s.handler) }

  lemma StaysBlocked(s: State, a: Action, i: nat)
    requires ServeInv(s) && Blocked(s, i) && Enabled(s, a)
    ensures Blocked(Apply(s, a), i)
  {
  }

  // It stays blocked for ever, whatever happens.
  lemma {:induction false} BlockedForEver(servers: nat, callers: nat, run: seq<Action>, more: seq<Action>, i: nat)
    requires After(servers, callers, run).Some? && Blocked(After(servers, callers, run).value, i)
    requires After(servers, callers, run + more).Some?
    ensures Blocked(After(servers, callers, run + more).value, i)
    decreases |more|
  {
    if more == [] {
      assert run + more == run;
    } else {
      var init, a := more[..|more| - 1], more[|more| - 1];
      assert (run + more)[..|run + more| - 1] == run + init;
      BlockedForEver(servers, callers, run, init, i);
      RunKeepsInv(servers, callers, run + init);
      StaysBlocked(After(servers, callers, run + init).value, a, i);
    }
  }

  lemma StuckWorkers(s: State)
    requires Inv(s) && Stuck(s) && AllSpawned(s)
    ensures forall w | w in s.workers :: w.Sending? || w.Received?
  {
    forall i: nat | i < |s.workers| ensures s.workers[i].Sending? || s.workers[i].Received? {
      assert s.workers[i] == Spawned ==> Enabled(s, BeginClosing(i));
      assert s.workers[i] == Closing ==> Enabled(s, EndClosing(i, true));
    }
  }

  // The collector stopped at its first failure, or heard from all n servers: every result but the
  // last one received was good, and the last one was bad unless the hook ran.
  ghost predicate StoppedAtFirstFailure(arrivals: seq<nat>, n: nat, hook: bool, run: seq<Action>) {
    && |arrivals| <= n
    && (forall k | 0 <= k < |arrivals| - 1 :: EndClosing(arrivals[k], true) in run)
    && if hook then
         |arrivals| == n && forall k | 0 <= k < n :: EndClosing(arrivals[k], true) in run
       else
         0 < |arrivals| && EndClosing(arrivals[|arrivals| - 1], false) in run
  }

  lemma ArrivalsInRun(s: State, run: seq<Action>)
    requires ResultsTraced(s.workers, run) && ReceivedTraced(s, Arrivals(run))
    ensures forall k | 0 <= k < |s.received| :: EndClosing(Arrivals(run)[k], s.received[k]) in run
  {
    var arrivals := Arrivals(run);
    forall k | 0 <= k < |s.received| ensures EndClosing(arrivals[k], s.received[k]) in run {
      assert ResultOf(s.workers[arrivals[k]]) == Some(s.received[k]);
    }
  }

  lemma GoodUntilTheLast(received: seq<bool>, n: nat, success: bool)
    requires CollectorInv(received, n, success)
    ensures |received| <= n && (|received| < n ==> !success)
    ensures forall k | 0 <= k < |received| :: received[k] || (k == |received| - 1 && !success)
    ensures !success ==> 0 < |received| && !received[|received| - 1]
  {
    forall k | 0 <= k < |received| ensures received[k] || (k == |received| - 1 && !success) {
      var good := if success then received else received[..|received| - 1];
      assert k < |good| ==> good[k] in good;
    }
  }

  lemma CollectorStopped(s: State, run: seq<Action>)
    requires Inv(s) && s.handler == Finished
    requires ResultsTraced(s.workers, run) && ReceivedTraced(s, Arrivals(run))
    ensures StoppedAtFirstFailure(Arrivals(run), |s.workers|, s.postHooks == 1, run)
  {
    ArrivalsInRun(s, run);
    GoodUntilTheLast(s.received, |s.workers|, s.postHooks == 1);
  }

  // A run that was asked to stop and cannot go on has ended well: Serve has returned, and
  // ServerShutdown ran exactly if every server.Shutdown returned nil. The goroutines whose
  // results came after the first failure are left blocked on their send.
  lemma StuckRunHasEnded(servers: nat, callers: nat, run: seq<Action>)
    requires After(servers, callers, run).Some?
    requires Stuck(After(servers, callers, run).value) && Requested(After(servers, callers, run).value)
    ensures var s := After(servers, callers, run).value;
      && s.serve == ServeReturned && s.closes == 1 && s.preHooks == 1 && s.postHooks <= 1
      && (s.postHooks == 1 <==> forall w: nat | w < servers :: EndClosing(w, true) in run)
      && StoppedAtFirstFailure(Arrivals(run), servers, s.postHooks == 1, run)
      && Total(s.workers, Unheard()) == servers - |Arrivals(run)|
      && |s.workers| == servers && forall i: nat | i < servers :: s.workers[i].Received? || Blocked(s, i)
  {
    var s := After(servers, callers, run).value;
    RunKeepsInv(servers, callers, run);
    RunIsTraced(servers, callers, run);
    if s.serve != ServeReturned {
      var a := SomePartyCanMove(s);
    }
    StuckWorkers(s);
    UnheardComplement(s.workers);
    OutcomeOfResults(s, run);
    CollectorStopped(s, run);
    forall i: nat | i < servers ensures s.workers[i].Received? || Blocked(s, i) {
      assert s.workers[i] in s.workers;
    }
  }

  lemma {:induction false} UnheardComplement(workers: seq<WorkerPc>)
    ensures Total(workers, Unheard()) + Total(workers, HasBeenReceived()) == |workers|
  {
    if workers == [] {
    } else {
      UnheardComplement(workers[..|workers| - 1]);
    }
  }

  lemma OutcomeOfResults(s: State, run: seq<Action>)
    requires Inv(s) && ResultsTraced(s.workers, run) && s.handler == Finished
    requires forall w | w in s.workers :: w.Sending? || w.Received?
    ensures s.postHooks == 1 <==> forall w: nat | w < |s.workers| :: EndClosing(w, true) in run
  {
    if s.postHooks == 1 {
      AllReceived(s);
      forall w: nat | w < |s.workers| ensures EndClosing(w, true) in run {
        assert s.workers[w] in s.workers;
      }
    } else {
      var last := s.received[|s.received| - 1];
      assert last in s.received && !last;
      assert !AllTrue(s.received);
      var w :| w in s.workers && w.Received? && !w.ok;
      var i :| 0 <= i < |s.workers| && s.workers[i] == w;
      assert EndClosing(i, true) !in run;
    }
  }

  // A measure that every move lowers.

  function CallRank(): CallPc -> nat {
    (c: CallPc) => match c case NotCalled => 3 case Calling => 2 case MustClose => 1 case Returned => 0
  }
  function ServingRank(): ServingPc -> nat {
    (p: ServingPc) => match p case NotStarted => 2 case Serving => 1 case Done => 0
  }
  function WorkerRank(): WorkerPc -> nat {
    (w: WorkerPc) =>
      match w case Absent => 4 case Spawned => 3 case Closing => 2 case Sending(_) => 1 case Received(_) => 0
  }
  function ServeRank(serve: ServePc, servers: nat): int {
    match serve case Starting(next) => servers - next + 2 case Waiting => 1 case ServeReturned => 0
  }
  function HandlerRank(handler: HandlerPc, servers: nat): int {
    match handler
    case Unstarted => 2 * servers + 9
    case AwaitingClose => 2 * servers + 8
    case BeforePreHook => 2 * servers + 7
    case Spawning(next) => 2 * servers + 6 - next
    case Collecting(k, _) => servers + 4 - k
    case Cancelling => 2
    case Releasing => 1
    case Finished => 0
  }

  function Rank(s: State): int {
    Total(s.callers, CallRank()) + Total(s.serving, ServingRank()) + Total(s.workers, WorkerRank())
    + ServeRank(s.serve, |s.serving|) + HandlerRank(s.handler, |s.workers|)
  }

  lemma RankIsNatural(s: State)
    requires Inv(s)
    ensures Rank(s) >= 0
  {
  }

  lemma CallLowersRank(s: State, a: Action)
    requires Enabled(s, a) && (a.Signal? || a.Call? || a.Swap? || a.Close?)
    requires CloseInv(s) && !(a.Signal? && s.interrupted)
    ensures Rank(Apply(s, a)) < Rank(s)
  {
    var c := if a.Signal? then 0 else a.c;
    TotalUpdate(s.callers, c, Apply(s, a).callers[c], CallRank());
  }

  lemma ServingLowersRank(s: State, a: Action)
    requires Enabled(s, a) && (a.StartServing? || a.ServingStops?)
    requires ServeInv(s)
    ensures Rank(Apply(s, a)) < Rank(s)
  {
    var i := if a.StartServing? then s.serve.next else a.i;
    TotalUpdate(s.serving, i, Apply(s, a).serving[i], ServingRank());
  }

  lemma WorkerLowersRank(s: State, a: Action)
    requires Enabled(s, a) && (a.Spawn? || a.BeginClosing? || a.EndClosing? || a.Receive?)
    requires HandlerInv(s)
    ensures Rank(Apply(s, a)) < Rank(s)
  {
    var i := if a.Spawn? then s.handler.next else a.i;
    TotalUpdate(s.workers, i, Apply(s, a).workers[i], WorkerRank());
  }

  // Every action lowers the measure, except a signal that is ignored.
  lemma MoveLowersRank(s: State, a: Action)
    requires Inv(s) && Enabled(s, a) && !(a.Signal? && s.interrupted)
    ensures Rank(Apply(s, a)) < Rank(s)
  {
    if a.Signal? || a.Call? || a.Swap? || a.Close? {
      CallLowersRank(s, a);
    } else if a.StartServing? || a.ServingStops? {
      ServingLowersRank(s, a);
    } else if a.Spawn? || a.BeginClosing? || a.EndClosing? || a.Receive? {
      WorkerLowersRank(s, a);
    } else {
      var t := Apply(s, a);
      assert t.callers == s.callers && t.serving == s.serving && t.workers == s.workers;
    }
  }

  // How many actions of a run changed the state.
  ghost function Moves(servers: nat, callers: nat, run: seq<Action>): nat
    requires After(servers, callers, run).Some?
  {
    if run == [] then 0 else
      var before := After(servers, callers, run[..|run| - 1]).value;
      Moves(servers, callers, run[..|run| - 1]) + if Apply(before, run[|run| - 1]) != before then 1 else 0
  }

  // No run goes on for ever: with n servers and m callers it makes at most 9n + 3m + 14 moves.
  lemma RunsAreBounded(servers: nat, callers: nat, run: seq<Action>)
    requires After(servers, callers, run).Some?
    ensures Moves(servers, callers, run) <= 9 * servers + 3 * callers + 14
  {
    MovesPlusRank(servers, callers, run);
    RunKeepsInv(servers, callers, run);
    RankIsNatural(After(servers, callers, run).value);
    var s := Initial(servers, callers);
    TotalConstant(s.callers, CallRank(), 3);
    TotalConstant(s.serving, ServingRank(), 2);
    TotalConstant(s.workers, WorkerRank(), 4);
  }

  lemma {:induction false} MovesPlusRank(servers: nat, callers: nat, run: seq<Action>)
    requires After(servers, callers, run).Some?
    ensures Moves(servers, callers, run) + Rank(After(servers, callers, run).value) <= Rank(Initial(servers, callers))
  {
    if run == [] {
    } else {
      var init, a := run[..|run| - 1], run[|run| - 1];
      MovesPlusRank(servers, callers, init);
      RunKeepsInv(servers, callers, init);
      var s := After(servers, callers, init).value;
      if !(a.Signal? && s.interrupted) {
        MoveLowersRank(s, a);
      }
    }
  }

  // A run in which Shutdown was called goes on, without further signals or calls, until Serve
  // returns: some internal action extends it, and by RunsAreBounded not for ever.
  lemma RunGoesOn(servers: nat, callers: nat, run: seq<Action>) returns (a: Action)
    requires After(servers, callers, run).Some? && Requested(After(servers, callers, run).value)
    requires After(servers, callers, run).value.serve != ServeReturned
    ensures Internal(a) && After(servers, callers, run + [a]).Some?
    ensures var t := After(servers, callers, run + [a]).value;
      Requested(t) && 0 <= Rank(t) < Rank(After(servers, callers, run).value)
  {
    var s := After(servers, callers, run).value;
    RunKeepsInv(servers, callers, run);
    a := SomePartyCanMove(s);
    assert (run + [a])[..|run + [a]| - 1] == run;
    MoveLowersRank(s, a);
    StepKeepsInv(s, a);
    RankIsNatural(Apply(s, a));
    StaysRequested(s, a);
  }

  lemma StaysRequested(s: State, a: Action)
    requires Inv(s) && Enabled(s, a) && Requested(s)
    ensures Requested(Apply(s, a))
  {
    var c :| 0 <= c < |s.callers| && s.callers[c] != NotCalled;
    assert Apply(s, a).callers[c] in Apply(s, a).callers;
  }

  ghost predicate Ended(servers: nat, callers: nat, run: seq<Action>) {
    After(servers, callers, run).Some? && After(servers, callers, run).value.serve == ServeReturned
  }

  // A run that has been asked to stop can be extended until Serve has returned.
  lemma RunToEnd(servers: nat, callers: nat, run: seq<Action>) returns (longer: seq<Action>)
    requires After(servers, callers, run).Some? && Requested(After(servers, callers, run).value)
    ensures run <= longer && Ended(servers, callers, longer)
  {
    RunKeepsInv(servers, callers, run);
    RankIsNatural(After(servers, callers, run).value);
    longer := RunToEndWithin(servers, callers, run, Rank(After(servers, callers, run).value));
  }

  lemma {:induction false} RunToEndWithin(servers: nat, callers: nat, run: seq<Action>, moves: nat)
    returns (longer: seq<Action>)
    requires After(servers, callers, run).Some? && Requested(After(servers, callers, run).value)
    requires Rank(After(servers, callers, run).value) <= moves
    ensures run <= longer && Ended(servers, callers, longer)
    decreases moves
  {
    if Ended(servers, callers, run) {
      longer := run;
    } else {
      var a := RunGoesOn(servers, callers, run);
      longer := RunToEndWithin(servers, callers, run + [a], moves - 1);
    }
  }

  // A goroutine that is left blocked, and the least number of servers it takes.

  lemma Advance(servers: nat, callers: nat, run: seq<Action>, a: Action)
    requires After(servers, callers, run).Some? && Enabled(After(servers, callers, run).value, a)
    ensures After(servers, callers, run + [a]) == Some(Apply(After(servers, callers, run).value, a))
  {
    assert (run + [a])[..|run + [a]| - 1] == run;
  }

  // Shutdown was called by a signal while Serve has started k servers.
  lemma {:induction false} ReachStarting(servers: nat, callers: nat, k: nat) returns (run: seq<Action>)
    requires k <= servers
    ensures After(servers, callers, run).Some?
    ensures var s := After(servers, callers, run).value; s.serve == Starting(k) && s.closes == 1 && s.interrupted
  {
    if k == 0 {
      Advance(servers, callers, [], Signal);
      Advance(servers, callers, [] + [Signal], Swap(0));
      Advance(servers, callers, [] + [Signal] + [Swap(0)], Close(0));
      run := [] + [Signal] + [Swap(0)] + [Close(0)];
    } else {
      run := ReachStarting(servers, callers, k - 1);
      RunKeepsInv(servers, callers, run);
      Advance(servers, callers, run, StartServing);
      run := run + [StartServing];
    }
  }

  // handleShutdown has spawned k goroutines, and none of them has moved.
  lemma {:induction false} ReachSpawning(servers: nat, callers: nat, k: nat) returns (run: seq<Action>)
    requires k <= servers
    ensures After(servers, callers, run).Some?
    ensures var s := After(servers, callers, run).value;
      && s.handler == Spawning(k) && s.interrupted && |s.workers| == servers
      && forall j | 0 <= j < k :: s.workers[j] == Spawned
  {
    if k == 0 {
      run := ReachStarting(servers, callers, servers);
      RunKeepsInv(servers, callers, run);
      Advance(servers, callers, run, StartHandler);
      Advance(servers, callers, run + [StartHandler], Wake);
      Advance(servers, callers, run + [StartHandler] + [Wake], PreHook);
      run := run + [StartHandler] + [Wake] + [PreHook];
    } else {
      run := ReachSpawning(servers, callers, k - 1);
      Advance(servers, callers, run, Spawn);
      run := run + [Spawn];
    }
  }

  // With two servers or more: the first one fails and is received, the second one is not.
  lemma ReachBlocked(servers: nat, callers: nat) returns (run: seq<Action>)
    requires servers >= 2
    ensures After(servers, callers, run).Some? && Requested(After(servers, callers, run).value)
    ensures Blocked(After(servers, callers, run).value, 1)
  {
    run := ReachSpawning(servers, callers, servers);
    run := ReachFailure(servers, callers, run);
    Advance(servers, callers, run, BeginClosing(1));
    Advance(servers, callers, run + [BeginClosing(1)], EndClosing(1, true));
    run := run + [BeginClosing(1)] + [EndClosing(1, true)];
    RunKeepsInv(servers, callers, run);
    var s := After(servers, callers, run).value;
    assert s.callers[0] in s.callers;
  }

  lemma ReachFailure(servers: nat, callers: nat, run: seq<Action>) returns (longer: seq<Action>)
    requires servers >= 2 && After(servers, callers, run).Some?
    requires var s := After(servers, callers, run).value;
      && s.handler == Spawning(servers) && s.interrupted && |s.workers| == servers
      && forall j | 0 <= j < servers :: s.workers[j] == Spawned
    ensures After(servers, callers, longer).Some?
    ensures var s := After(servers, callers, longer).value;
      && s.handler == Collecting(1, false) && s.interrupted && |s.workers| == servers && s.workers[1] == Spawned
  {
    longer := ReachSending(servers, callers, run);
    Advance(servers, callers, longer, SpawnedAll);
    Advance(servers, callers, longer + [SpawnedAll], Receive(0));
    longer := longer + [SpawnedAll] + [Receive(0)];
  }

  lemma ReachSending(servers: nat, callers: nat, run: seq<Action>) returns (longer: seq<Action>)
    requires servers >= 2 && After(servers, callers, run).Some?
    requires var s := After(servers, callers, run).value;
      |s.workers| == servers && s.workers[0] == Spawned
    ensures After(servers, callers, longer).Some?
    ensures var s := After(servers, callers, run).value;
      After(servers, callers, longer).value == s.(workers := s.workers[0 := Sending(false)])
  {
    Advance(servers, callers, run, BeginClosing(0));
    Advance(servers, callers, run + [BeginClosing(0)], EndClosing(0, false));
    longer := run + [BeginClosing(0)] + [EndClosing(0, false)];
    var s := After(servers, callers, run).value;
    assert s.workers[0 := Closing][0 := Sending(false)] == s.workers[0 := Sending(false)];
  }

  // Serve has returned, and a goroutine of handleShutdown is blocked for ever.
  ghost predicate LeavesBlocked(servers: nat, callers: nat, run: seq<Action>) {
    Ended(servers, callers, run) && exists i: nat :: Blocked(After(servers, callers, run).value, i)
  }

  lemma OneServerIsHeard(servers: nat, callers: nat, run: seq<Action>, i: nat)
    requires Ended(servers, callers, run)
    requires Blocked(After(servers, callers, run).value, i)
    ensures servers >= 2
  {
    var s := After(servers, callers, run).value;
    RunKeepsInv(servers, callers, run);
    assert s.handler == Finished;
    assert |s.received| > 0;
    UnheardComplement(s.workers);
    TotalUpdate(s.workers, i, Received(true), Unheard());
  }

  // A run can leave a goroutine blocked exactly if there are two servers or more.
  lemma BlockedExactlyFromTwoServers(servers: nat, callers: nat)
    ensures (exists run :: LeavesBlocked(servers, callers, run)) <==> servers >= 2
  {
    if run :| LeavesBlocked(servers, callers, run) {
      var i: nat :| Blocked(After(servers, callers, run).value, i);
      OneServerIsHeard(servers, callers, run, i);
    }
    if servers >= 2 {
      var run := ReachBlocked(servers, callers);
      var longer := RunToEnd(servers, callers, run);
      assert longer == run + longer[|run|..];
      BlockedForEver(servers, callers, run, longer[|run|..], 1);
      assert LeavesBlocked(servers, callers, longer);
    }
  }

  // The collector loop by itself, fed with the results in their order of arrival: it makes one
  // iteration for every server, and stops receiving at the first failure.
  method Collect(arrivals: seq<bool>) returns (success: bool, receives: nat)
    ensures success <==> AllTrue(arrivals)
    ensures receives <= |arrivals| && CollectorInv(arrivals[..receives], |arrivals|, success)
  {
    success, receives := true, 0;
    for k := 0 to |arrivals|
      invariant receives <= k && CollectorInv(arrivals[..receives], k, success)
    {
      if success {
        AllTrueAppend(arrivals[..receives], arrivals[receives]);
        assert arrivals[..receives + 1] == arrivals[..receives] + [arrivals[receives]];
        success := arrivals[receives];
        receives := receives + 1;
        assert arrivals[..receives][..|arrivals[..receives]| - 1] == arrivals[..receives - 1];
      }
    }
    if success {
      assert arrivals[..receives] == arrivals;
    } else {
      assert arrivals[receives - 1] in arrivals;
    }
  }
}
