// operatorapi/server.go: the graceful-shutdown protocol as a state machine.
// Serve, any number of Shutdown callers, the interrupt loop, handleShutdown, one serving
// goroutine and one shutdown goroutine per server interleave one atomic action at a time.
module Shutdown {
  import opened Counting
  import opened Wrappers

  // One call of Server.Shutdown: compare-and-swap, then close if it was won.
  datatype CallPc = NotCalled | Calling | MustClose | Returned

  // The main goroutine: starting server number next, waiting on the group, returned.
  datatype ServePc = Starting(next: nat) | Waiting | ServeReturned

  // The goroutine that runs http.Server.Serve; Done includes its deferred wg.Done.
  datatype ServingPc = NotStarted | Serving | Done

  // A goroutine of handleShutdown: spawned, inside server.Shutdown(ctx),
  // blocked sending its result, received.
  datatype WorkerPc = Absent | Spawned | Closing | Sending(ok: bool) | Received(ok: bool)

  // handleShutdown itself. Collecting(k, success): k iterations of the collector loop are over.
  datatype HandlerPc =
    | Unstarted | AwaitingClose | BeforePreHook | Spawning(next: nat)
    | Collecting(iterations: nat, success: bool)
    | Cancelling | Releasing | Finished

  datatype State = State(
    shuttingDown: bool,       // the flag of the compare-and-swap
    closes: nat,              // how often s.shutdown was closed; a second close panics
    callers: seq<CallPc>,     // callers[0] is the one call the interrupt loop makes
    interrupted: bool,
    serve: ServePc,
    group: int,               // the counter of the wait group
    serving: seq<ServingPc>,
    handler: HandlerPc,
    workers: seq<WorkerPc>,
    received: seq<bool>,      // the results received, in order of arrival
    preHooks: nat,
    postHooks: nat)

  datatype Action =
    | Signal                              // the interrupt loop takes a signal from its channel
    | Call(c: nat) | Swap(c: nat) | Close(c: nat)
    | StartServing | StartHandler | WaitReturns
    | ServingStops(i: nat)                // http.Server.Serve returns ErrServerClosed
    | Wake | PreHook | Spawn | SpawnedAll
    | BeginClosing(i: nat) | EndClosing(i: nat, ok: bool)
    | Receive(i: nat) | SkipReceive
    | PostHook | SkipPostHook | Cancel | HandlerDone

  function Initial(servers: nat, callers: nat): State {
    State(false, 0, seq(callers + 1, _ => NotCalled), false, Starting(0), 0,
          seq(servers, _ => NotStarted), Unstarted, seq(servers, _ => Absent), [], 0, 0)
  }

  predicate Enabled(s: State, a: Action) {
    match a
    case Signal => |s.callers| > 0
    case Call(c) => 0 < c < |s.callers| && s.callers[c] == NotCalled
    case Swap(c) => c < |s.callers| && s.callers[c] == Calling
    case Close(c) => c < |s.callers| && s.callers[c] == MustClose
    case StartServing => s.serve.Starting? && s.serve.next < |s.serving|
    case StartHandler => s.serve.Starting? && s.serve.next == |s.serving|
    case WaitReturns => s.serve == Waiting && s.group == 0
    case ServingStops(i) => i < |s.serving| && i < |s.workers| && s.serving[i] == Serving && Begun(s.workers[i])
    case Wake => s.handler == AwaitingClose && s.closes > 0
    case PreHook => s.handler == BeforePreHook
    case Spawn => s.handler.Spawning? && s.handler.next < |s.workers|
    case SpawnedAll => s.handler.Spawning? && s.handler.next == |s.workers|
    case BeginClosing(i) => i < |s.workers| && s.workers[i] == Spawned
    case EndClosing(i, _) => i < |s.workers| && s.workers[i] == Closing
    case Receive(i) =>
      && s.handler.Collecting? && s.handler.iterations < |s.workers| && s.handler.success
      && i < |s.workers| && s.workers[i].Sending?
    case SkipReceive => s.handler.Collecting? && s.handler.iterations < |s.workers| && !s.handler.success
    case PostHook => s.handler.Collecting? && s.handler.iterations == |s.workers| && s.handler.success
    case SkipPostHook => s.handler.Collecting? && s.handler.iterations == |s.workers| && !s.handler.success
    case Cancel => s.handler == Cancelling
    case HandlerDone => s.handler == Releasing
  }

  // server.Shutdown closes the listeners of its server as soon as it begins.
  predicate Begun(w: WorkerPc) { !w.Absent? && !w.Spawned? }

  function AfterSwap(s: State): CallPc { if s.shuttingDown then Returned else MustClose }

  function Apply(s: State, a: Action): State
    requires Enabled(s, a)
  {
    match a
    case Signal => if s.interrupted then s else s.(interrupted := true, callers := s.callers[0 := Calling])
    case Call(c) => s.(callers := s.callers[c := Calling])
    case Swap(c) => s.(callers := s.callers[c := AfterSwap(s)], shuttingDown := true)
    case Close(c) => s.(callers := s.callers[c := Returned], closes := s.closes + 1)
    case StartServing =>
      s.(serving := s.serving[s.serve.next := Serving], group := s.group + 1, serve := Starting(s.serve.next + 1))
    case StartHandler => s.(handler := AwaitingClose, group := s.group + 1, serve := Waiting)
    case WaitReturns => s.(serve := ServeReturned)
    case ServingStops(i) => s.(serving := s.serving[i := Done], group := s.group - 1)
    case Wake => s.(handler := BeforePreHook)
    case PreHook => s.(handler := Spawning(0), preHooks := s.preHooks + 1)
    case Spawn => s.(workers := s.workers[s.handler.next := Spawned], handler := Spawning(s.handler.next + 1))
    case SpawnedAll => s.(handler := Collecting(0, true))
    case BeginClosing(i) => s.(workers := s.workers[i := Closing])
    case EndClosing(i, ok) => s.(workers := s.workers[i := Sending(ok)])
    case Receive(i) =>
      var ok := s.workers[i].ok;
      s.(workers := s.workers[i := Received(ok)], received := s.received + [ok],
         handler := Collecting(s.handler.iterations + 1, ok))
    case SkipReceive => s.(handler := Collecting(s.handler.iterations + 1, false))
    case PostHook => s.(handler := Cancelling, postHooks := s.postHooks + 1)
    case SkipPostHook => s.(handler := Cancelling)
    case Cancel => s.(handler := Releasing)
    case HandlerDone => s.(handler := Finished, group := s.group - 1)
  }

  // The state after a run from the initial state, if every action was enabled in turn.
  function After(servers: nat, callers: nat, run: seq<Action>): Option<State> {
    if run == [] then Some(Initial(servers, callers)) else
      match After(servers, callers, run[..|run| - 1])
      case None => None
      case Some(s) =>
        var a := run[|run| - 1];
        if Enabled(s, a) then Some(Apply(s, a)) else None
  }

  // The inductive invariant.

  function PendingClose(): CallPc -> nat { (c: CallPc) => if c == MustClose then 1 else 0 }
  function Live(): ServingPc -> nat { (p: ServingPc) => if p == Serving then 1 else 0 }
  function HasBeenReceived(): WorkerPc -> nat { (w: WorkerPc) => if w.Received? then 1 else 0 }

  // At most one winner of the swap, and it closes once.
  predicate CloseInv(s: State) {
    && Total(s.callers, PendingClose()) + s.closes == (if s.shuttingDown then 1 else 0)
    && |s.callers| > 0 && (s.callers[0] == NotCalled <==> !s.interrupted)
    && (!s.shuttingDown ==> forall c | 0 <= c < |s.callers| :: s.callers[c] == NotCalled || s.callers[c] == Calling)
  }

  function HandlerLive(h: HandlerPc): nat { if h == Unstarted || h == Finished then 0 else 1 }

  // The group counts the goroutines Serve waits for.
  predicate GroupInv(s: State) {
    && s.group == Total(s.serving, Live()) + HandlerLive(s.handler)
    && (s.serve == ServeReturned ==> s.group == 0 && !s.handler.Unstarted?)
  }

  // Which serving goroutines have been started.
  predicate ServeInv(s: State) {
    if s.serve.Starting? then
      && s.handler == Unstarted && s.serve.next <= |s.serving|
      && forall j | 0 <= j < |s.serving| :: s.serving[j] == NotStarted <==> j >= s.serve.next
    else
      s.handler != Unstarted && forall j | 0 <= j < |s.serving| :: s.serving[j] != NotStarted
  }

  // A server stops serving only when its shutdown has begun.
  predicate StoppedInv(s: State)
    requires |s.workers| == |s.serving|
  {
    forall j | 0 <= j < |s.serving| :: s.serving[j] == Done ==> Begun(s.workers[j])
  }

  predicate AllTrue(results: seq<bool>) { forall r | r in results :: r }

  lemma AllTrueAppend(results: seq<bool>, r: bool)
    ensures AllTrue(results + [r]) <==> AllTrue(results) && r
  {
    assert r in results + [r];
    assert forall x | x in results :: x in results + [r];
  }

  // All results are good, except for the last one when the loop has failed.
  predicate CollectorInv(received: seq<bool>, iterations: nat, success: bool) {
    if success then |received| == iterations && AllTrue(received)
    else 0 < |received| <= iterations && !received[|received| - 1] && AllTrue(received[..|received| - 1])
  }

  predicate ReceivedInv(s: State) {
    && Total(s.workers, HasBeenReceived()) == |s.received|
    && (AllTrue(s.received) <==> forall w | w in s.workers && w.Received? :: w.ok)
  }

  predicate HandlerInv(s: State) {
    match s.handler
    case Unstarted => Idle(s)
    case AwaitingClose => Idle(s)
    case BeforePreHook => Idle(s) && s.closes == 1
    case Spawning(next) =>
      && s.closes == 1 && s.preHooks == 1 && s.postHooks == 0 && next <= |s.workers| && s.received == []
      && forall j | 0 <= j < |s.workers| :: s.workers[j] == Absent <==> j >= next
    case Collecting(k, success) =>
      && AllSpawned(s) && s.postHooks == 0
      && k <= |s.workers| && CollectorInv(s.received, k, success)
    case _ =>
      && AllSpawned(s) && s.postHooks <= 1
      && CollectorInv(s.received, |s.workers|, s.postHooks == 1)
  }

  predicate Idle(s: State) {
    s.preHooks == 0 && s.postHooks == 0 && s.received == [] && forall j | 0 <= j < |s.workers| :: s.workers[j] == Absent
  }

  predicate AllSpawned(s: State) {
    s.closes == 1 && s.preHooks == 1 && forall j | 0 <= j < |s.workers| :: s.workers[j] != Absent
  }

  predicate Inv(s: State) {
    && |s.workers| == |s.serving|
    && CloseInv(s) && GroupInv(s) && ServeInv(s) && StoppedInv(s) && ReceivedInv(s) && HandlerInv(s)
  }

  lemma InitialInv(servers: nat, callers: nat)
    ensures Inv(Initial(servers, callers))
  {
    var s := Initial(servers, callers);
    TotalConstant(s.callers, PendingClose(), 0);
    TotalConstant(s.serving, Live(), 0);
    TotalConstant(s.workers, HasBeenReceived(), 0);
  }

  lemma StepKeepsCloseInv(s: State, a: Action)
    requires |s.workers| == |s.serving| && CloseInv(s) && Enabled(s, a)
    ensures CloseInv(Apply(s, a))
  {
    match a
    case Signal => TotalUpdate(s.callers, 0, Calling, PendingClose());
    case Call(c) => TotalUpdate(s.callers, c, Calling, PendingClose());
    case Swap(c) => TotalUpdate(s.callers, c, AfterSwap(s), PendingClose());
    case Close(c) => TotalUpdate(s.callers, c, Returned, PendingClose());
    case _ =>
  }

  lemma StepKeepsGroupInv(s: State, a: Action)
    requires |s.workers| == |s.serving| && GroupInv(s) && ServeInv(s) && Enabled(s, a)
    ensures GroupInv(Apply(s, a))
  {
    match a
    case StartServing => TotalUpdate(s.serving, s.serve.next, Serving, Live());
    case ServingStops(i) => TotalUpdate(s.serving, i, Done, Live());
    case _ =>
  }

  lemma StepKeepsServeInv(s: State, a: Action)
    requires |s.workers| == |s.serving| && ServeInv(s) && Enabled(s, a)
    ensures ServeInv(Apply(s, a))
  {
    match a
    case StartServing =>
    case StartHandler =>
    case ServingStops(i) =>
    case _ => assert Apply(s, a).serving == s.serving && Apply(s, a).handler.Unstarted? == s.handler.Unstarted?;
  }

  lemma StepKeepsStoppedInv(s: State, a: Action)
    requires |s.workers| == |s.serving| && StoppedInv(s) && HandlerInv(s) && Enabled(s, a)
    ensures |Apply(s, a).workers| == |Apply(s, a).serving| && StoppedInv(Apply(s, a))
  {
    match a
    case StartServing =>
    case ServingStops(i) =>
    case Spawn =>
    case BeginClosing(i) =>
    case EndClosing(i, ok) =>
    case Receive(i) =>
    case _ => assert Apply(s, a).serving == s.serving && Apply(s, a).workers == s.workers;
  }

  lemma ReceiveKeepsReceivedInv(s: State, i: nat)
    requires ReceivedInv(s) && Enabled(s, Receive(i))
    ensures ReceivedInv(Apply(s, Receive(i)))
  {
    var t := Apply(s, Receive(i));
    TotalUpdate(s.workers, i, t.workers[i], HasBeenReceived());
    AllTrueAppend(s.received, s.workers[i].ok);
    assert t.workers[i] in t.workers;
    forall w | w in s.workers && w.Received? ensures w in t.workers {
      var j :| 0 <= j < |s.workers| && s.workers[j] == w;
      assert t.workers[j] == w;
    }
  }

  lemma BeforeReceiveKeepsReceivedInv(s: State, i: nat, w: WorkerPc)
    requires ReceivedInv(s) && i < |s.workers| && !s.workers[i].Received? && !w.Received?
    ensures ReceivedInv(s.(workers := s.workers[i := w]))
  {
    var t := s.(workers := s.workers[i := w]);
    TotalUpdate(s.workers, i, w, HasBeenReceived());
    forall j | 0 <= j < |s.workers| && s.workers[j].Received? ensures s.workers[j] in t.workers {
      assert t.workers[j] == s.workers[j];
    }
  }

  lemma SpawnKeepsReceivedInv(s: State)
    requires ReceivedInv(s) && HandlerInv(s) && Enabled(s, Spawn)
    ensures ReceivedInv(Apply(s, Spawn))
  {
    assert s.workers[s.handler.next] == Absent;
    BeforeReceiveKeepsReceivedInv(s, s.handler.next, Spawned);
  }

  lemma StepKeepsReceivedInv(s: State, a: Action)
    requires |s.workers| == |s.serving| && ReceivedInv(s) && HandlerInv(s) && Enabled(s, a)
    ensures ReceivedInv(Apply(s, a))
  {
    if a.Spawn? {
      SpawnKeepsReceivedInv(s);
    } else if a.BeginClosing? {
      BeforeReceiveKeepsReceivedInv(s, a.i, Closing);
    } else if a.EndClosing? {
      BeforeReceiveKeepsReceivedInv(s, a.i, Sending(a.ok));
    } else if a.Receive? {
      ReceiveKeepsReceivedInv(s, a.i);
    } else {
      OtherStepsKeepWorkers(s, a);
    }
  }

  lemma OtherStepsKeepWorkers(s: State, a: Action)
    requires Enabled(s, a) && !a.Spawn? && !a.BeginClosing? && !a.EndClosing? && !a.Receive?
    ensures Apply(s, a).workers == s.workers && Apply(s, a).received == s.received
  {
  }

  lemma WorkerStepKeepsHandlerInv(s: State, a: Action)
    requires HandlerInv(s) && Enabled(s, a) && (a.BeginClosing? || a.EndClosing?)
    ensures HandlerInv(Apply(s, a))
  {
    var t := Apply(s, a);
    assert s.workers[a.i] != Absent;
    assert t.handler == s.handler && |t.workers| == |s.workers|;
    assert forall j | 0 <= j < |s.workers| :: t.workers[j] == Absent <==> s.workers[j] == Absent;
  }

  lemma HandlerStepKeepsHandlerInv(s: State, a: Action)
    requires HandlerInv(s) && CloseInv(s) && Enabled(s, a)
    requires a.Wake? || a.PreHook? || a.Spawn? || a.SpawnedAll? || a.SkipReceive? || a.PostHook? || a.SkipPostHook?
    ensures HandlerInv(Apply(s, a))
  {
  }

  lemma ReceiveKeepsHandlerInv(s: State, i: nat)
    requires HandlerInv(s) && Enabled(s, Receive(i))
    ensures HandlerInv(Apply(s, Receive(i)))
  {
    var t := Apply(s, Receive(i));
    assert t.received[..|t.received| - 1] == s.received;
    AllTrueAppend(s.received, s.workers[i].ok);
  }

  lemma StepKeepsHandlerInv(s: State, a: Action)
    requires |s.workers| == |s.serving| && CloseInv(s) && ServeInv(s) && HandlerInv(s) && Enabled(s, a)
    ensures HandlerInv(Apply(s, a))
  {
    if a.BeginClosing? || a.EndClosing? {
      WorkerStepKeepsHandlerInv(s, a);
    } else if a.Receive? {
      ReceiveKeepsHandlerInv(s, a.i);
    } else if a.Wake? || a.PreHook? || a.Spawn? || a.SpawnedAll? || a.SkipReceive? || a.PostHook? || a.SkipPostHook? {
      HandlerStepKeepsHandlerInv(s, a);
    } else {
      var t := Apply(s, a);
      assert t.workers == s.workers && t.received == s.received;
      assert t.preHooks == s.preHooks && t.postHooks == s.postHooks;
      StepKeepsCloseInv(s, a);
    }
  }

  lemma StepKeepsInv(s: State, a: Action)
    requires Inv(s) && Enabled(s, a)
    ensures Inv(Apply(s, a))
    ensures |Apply(s, a).workers| == |s.workers| && |Apply(s, a).callers| == |s.callers|
  {
    StepKeepsCloseInv(s, a);
    StepKeepsGroupInv(s, a);
    StepKeepsServeInv(s, a);
    StepKeepsStoppedInv(s, a);
    StepKeepsReceivedInv(s, a);
    StepKeepsHandlerInv(s, a);
  }

  lemma {:induction false} RunKeepsInv(servers: nat, callers: nat, run: seq<Action>)
    requires After(servers, callers, run).Some?
    ensures var s := After(servers, callers, run).value;
      Inv(s) && |s.workers| == servers && |s.callers| == callers + 1
  {
    if run == [] {
      InitialInv(servers, callers);
    } else {
      RunKeepsInv(servers, callers, run[..|run| - 1]);
      StepKeepsInv(After(servers, callers, run[..|run| - 1]).value, run[|run| - 1]);
    }
  }
}
