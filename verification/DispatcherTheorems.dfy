/** What the dispatcher and the reply-once context guarantee together, over whole runs. */
module DispatcherTheorems {
  import opened Basics
  import opened DispatcherProtocol
  import opened DispatcherSafety

  // ---------- Before the cancel pass ----------

  /** Handed to JavaScript and not yet done. */
  predicate InJavaScript(pc: EntryPc) {
    pc.Posted? || pc.JsRunning? || pc.JsThrew? || pc.JsReturned? || pc.JsCounted? || pc.JsErased?
  }

  predicate Settled(pc: EntryPc) {
    pc.Retained? || pc.Finished?
  }

  /** Every accepted request is in exactly one place, and a queued one is a pending key. */
  lemma OnePlace(s: State, id: nat)
    requires Reachable(s) && BeforeCancel(s.phase)
    ensures id in s.entry ==>
              && 1 <= id < s.nextId
              && (id in s.queue <==> !WorkerHolds(s.entry[id]) && !InJavaScript(s.entry[id]) && !Settled(s.entry[id]))
              && (WorkerHolds(s.entry[id]) ==> !InJavaScript(s.entry[id]) && !Settled(s.entry[id]) && WorkersAlive(s.phase))
              && (InJavaScript(s.entry[id]) ==> !Settled(s.entry[id]))
    ensures id in s.queue ==> id in s.pending && id in s.entry
    ensures id in s.pending ==> 1 <= id < s.nextId
  {
    ReachableInv(s);
    assert LocalAt(s, id);
  }

  lemma SplitOwing(s: State)
    requires AllLocal(s) && BeforeCancel(s.phase)
    ensures Having(s.entry, OwesDecrement) == s.queue + Having(s.entry, WorkerHolds) + Having(s.entry, InJavaScript)
    ensures s.queue !! Having(s.entry, WorkerHolds) !! Having(s.entry, InJavaScript)
    ensures s.swept == {}
  {
    forall id: nat
      ensures id in Having(s.entry, OwesDecrement)
           <==> id in s.queue || id in Having(s.entry, WorkerHolds) || id in Having(s.entry, InJavaScript)
      ensures id in s.queue ==> id !in Having(s.entry, WorkerHolds) && id !in Having(s.entry, InJavaScript)
      ensures id !in s.swept
    {
      assert LocalAt(s, id);
    }
  }

  /** Until a cancel pass begins, `inflight_` plus the callers that have pushed and not yet
      counted is the number of requests queued, in a worker's hand or in JavaScript. */
  lemma InflightCountsTheWork(s: State)
    requires Reachable(s) && BeforeCancel(s.phase)
    ensures s.inflight + |Having(s.caller, OwesIncrement)|
         == |s.queue| + |Having(s.entry, WorkerHolds)| + |Having(s.entry, InJavaScript)|
  {
    ReachableInv(s);
    SplitOwing(s);
  }

  predicate AwaitingFate(pc: EntryPc) {
    pc.InHand?
  }

  predicate AwaitingCount(pc: EntryPc) {
    pc.Posted? || pc.JsRunning? || pc.JsThrew? || pc.JsReturned?
  }

  lemma SplitUnbooked(s: State)
    requires AllLocal(s) && BeforeCancel(s.phase)
    ensures Having(s.entry, Unbooked) == s.queue + Having(s.entry, AwaitingFate) + Having(s.entry, AwaitingCount)
    ensures s.queue !! Having(s.entry, AwaitingFate) !! Having(s.entry, AwaitingCount)
  {
    forall id: nat
      ensures id in Having(s.entry, Unbooked)
           <==> id in s.queue || id in Having(s.entry, AwaitingFate) || id in Having(s.entry, AwaitingCount)
      ensures id in s.queue ==> id !in Having(s.entry, AwaitingFate) && id !in Having(s.entry, AwaitingCount)
    {
      assert LocalAt(s, id);
      assert Shape(CellOf(s, id)) && Holder(CellOf(s, id), s.phase);
    }
  }

  /** Until then each accepted request is in the statistics, in the queue, with a worker that
      has not decided its fate, or in JavaScript and not yet counted; never in two of these. */
  lemma AcceptedAreAccountedFor(s: State)
    requires Reachable(s) && BeforeCancel(s.phase)
    ensures |s.entry| == s.forgotten + s.dispatched + s.errors
                       + |s.queue| + |Having(s.entry, AwaitingFate)| + |Having(s.entry, AwaitingCount)|
  {
    ReachableInv(s);
    SplitUnbooked(s);
  }

  /** The limit holds over every run that does not change it. */
  lemma {:induction false} QueueStaysBounded(s: State, run: seq<Action>)
    requires Runs(s, run)
    requires forall a :: a in run ==> !(a.Configuring? && a.config.SetMaxQueueSize?)
    requires s.maxQueue > 0 && |s.queue| <= s.maxQueue
    ensures After(s, run).maxQueue == s.maxQueue && |After(s, run).queue| <= s.maxQueue
    decreases |run|
  {
    if run != [] {
      StepKeepsBound(s, run[0]);
      QueueStaysBounded(Next(s, run[0]), run[1..]);
    }
  }

  lemma WorkMovesQueue(s: State, w: WorkStep, id: nat)
    requires CanWork(s, w, id)
    ensures Worked(s, w, id).queue == if w.Pop? then s.queue - {id} else s.queue
    ensures Worked(s, w, id).maxQueue == s.maxQueue
  {
  }

  lemma JsMovesNoQueue(s: State, j: JsStep, id: nat)
    requires CanRunJs(s, j, id)
    ensures JsRan(s, j, id).queue == s.queue && JsRan(s, j, id).maxQueue == s.maxQueue
  {
  }

  lemma CancelMovesQueue(s: State, c: CancelStep, id: nat)
    requires CanCancel(s, c, id)
    ensures Cancelled(s, c, id).queue == if c.CancelPop? then s.queue - {id} else s.queue
    ensures Cancelled(s, c, id).maxQueue == s.maxQueue
  {
  }

  lemma DispatchMovesQueue(s: State, d: DispatchStep, id: nat)
    requires CanDispatch(s, d, id)
    ensures Dispatched(s, d, id).queue == if d.Push? then s.queue + {id} else s.queue
    ensures Dispatched(s, d, id).maxQueue == s.maxQueue
    ensures d.Push? ==> CallerAt(s, id, Registered) && (s.maxQueue == 0 || |s.queue| < s.maxQueue)
  {
  }

  lemma ShutdownMovesQueue(s: State, d: ShutdownStep)
    requires CanShutDown(s, d)
    ensures ShutDown(s, d).queue == if d.ClearQueue? then {} else s.queue
    ensures ShutDown(s, d).maxQueue == s.maxQueue
  {
  }

  predicate Pushes(a: Action) {
    a.Dispatching? && a.dispatch.Push?
  }

  predicate TakesFromQueue(a: Action) {
    (a.Working? && a.work.Pop?) || (a.Cancelling? && a.cancel.CancelPop?)
  }

  /** What an action does to the queue. */
  lemma QueueAfter(s: State, a: Action)
    requires Enabled(s, a)
    ensures Next(s, a).queue ==
            if Pushes(a) then s.queue + {a.id}
            else if TakesFromQueue(a) then s.queue - {a.id}
            else if a == ShuttingDown(ClearQueue) then {}
            else s.queue
    ensures Pushes(a) ==> CallerAt(s, a.id, Registered) && (s.maxQueue == 0 || |s.queue| < s.maxQueue)
    ensures !(a.Configuring? && a.config.SetMaxQueueSize?) ==> Next(s, a).maxQueue == s.maxQueue
  {
    hide Dispatched, Worked, JsRan, Cancelled, ShutDown, CanDispatch, CanWork, CanRunJs, CanCancel, CanShutDown;
    match a
    case Dispatching(d, id) => DispatchMovesQueue(s, d, id);
    case Working(w, id) => WorkMovesQueue(s, w, id);
    case InJs(j, id) => JsMovesNoQueue(s, j, id);
    case Replying(r, id) =>
    case Cancelling(c, id) => CancelMovesQueue(s, c, id);
    case ShuttingDown(d) => ShutdownMovesQueue(s, d);
    case Configuring(c) =>
  }

  lemma StepKeepsBound(s: State, a: Action)
    requires Enabled(s, a) && !(a.Configuring? && a.config.SetMaxQueueSize?)
    requires s.maxQueue > 0 && |s.queue| <= s.maxQueue
    ensures Next(s, a).maxQueue == s.maxQueue && |Next(s, a).queue| <= s.maxQueue
  {
    QueueAfter(s, a);
    hide Enabled, Next;
    if !Pushes(a) {
      SubsetSize(Next(s, a).queue, s.queue);
    }
  }

  // ---------- Callbacks and replies, in every phase ----------

  lemma CallbackBounds(s: State, id: nat)
    requires Reachable(s)
    ensures s.callbackRuns[id] <= 1
    ensures s.errorRuns[id] <= 2
    ensures BeforeCancel(s.phase) ==> s.errorRuns[id] <= 1
    ensures s.errorRuns[id] > 0 ==> id in s.replied
  {
    ReachableInv(s);
    assert LocalAt(s, id);
  }

  /** No request is answered twice, and one whose flag is set is answered once, unless the
      thread that won the flag is just about to. */
  lemma AtMostOneReply(s: State, id: nat)
    requires Reachable(s)
    ensures s.replies[id] <= 1
    ensures s.replies[id] == 1 <==> id in s.replied && id !in s.replying
  {
    ReachableInv(s);
    assert LocalAt(s, id);
  }

  // ---------- The sweep of the pending map ----------

  /** The sweep that was to deal with `keys` has dealt with them, or still has them in hand. */
  ghost predicate Sweeping(s: State, keys: set<nat>) {
    forall id :: id in keys ==> id in s.swept || (s.phase.CancelPending? && (id in s.phase.todo || id in s.phase.told))
  }

  lemma CancelKeepsSweeping(s: State, c: CancelStep, id: nat, keys: set<nat>)
    requires Sweeping(s, keys) && CanCancel(s, c, id)
    ensures Sweeping(Cancelled(s, c, id), keys)
  {
  }

  lemma ShutdownKeepsSweeping(s: State, d: ShutdownStep, keys: set<nat>)
    requires Sweeping(s, keys) && CanShutDown(s, d)
    ensures Sweeping(ShutDown(s, d), keys)
  {
  }

  lemma StepKeepsSweeping(s: State, a: Action, keys: set<nat>)
    requires Sweeping(s, keys) && Enabled(s, a)
    ensures Sweeping(Next(s, a), keys)
  {
    hide Dispatched, Worked, JsRan, Replied, Cancelled, ShutDown, CanDispatch, CanWork, CanRunJs, CanReply, CanCancel, CanShutDown;
    if a.Cancelling? {
      CancelKeepsSweeping(s, a.cancel, a.id, keys);
    } else if a.ShuttingDown? {
      ShutdownKeepsSweeping(s, a.shutdown, keys);
    } else {
      OthersKeepStage(s, a);
    }
  }

  lemma {:induction false} RunKeepsSweeping(s: State, run: seq<Action>, keys: set<nat>)
    requires Sweeping(s, keys) && Runs(s, run)
    ensures Sweeping(After(s, run), keys)
    decreases |run|
  {
    if run != [] {
      StepKeepsSweeping(s, run[0], keys);
      RunKeepsSweeping(Next(s, run[0]), run[1..], keys);
    }
  }

  /** Every request that is pending when the sweep of the pending map begins is answered
      exactly once by the time it is over, however the other threads interleave; and that
      stays so for ever. Only the JavaScript thread, where it was first, may still be about to
      send the one reply. */
  lemma PendingAtTheSweepAreAnswered(s: State, run: seq<Action>, id: nat)
    requires Reachable(s) && CanShutDown(s, EndQueuePass) && id in s.pending
    requires Runs(ShutDown(s, EndQueuePass), run)
    requires !After(ShutDown(s, EndQueuePass), run).phase.CancelPending?
    ensures var t := After(ShutDown(s, EndQueuePass), run);
            && id in t.replied
            && (id !in t.replying ==> t.replies[id] == 1)
            && (id in t.replying ==> t.replying[id] in {ByJs, ByCode} && t.callbackRuns[id] == 1 && t.replies[id] == 0)
  {
    ReachableInv(s);
    var begun := ShutDown(s, EndQueuePass);
    StepKeepsInv(s, ShuttingDown(EndQueuePass));
    RunKeepsInv(begun, run);
    RunKeepsSweeping(begun, run, s.pending);
    SweptBySomebody(After(begun, run), id);
  }

  /** Once the sweep is done with a request, its own reply has been sent. */
  lemma SweptBySomebody(t: State, id: nat)
    requires LocalAt(t, id) && id in t.swept && !t.phase.CancelPending?
    ensures id in t.replied && (id !in t.replying ==> t.replies[id] == 1)
    ensures id in t.replying ==> t.replying[id] in {ByJs, ByCode} && t.callbackRuns[id] == 1 && t.replies[id] == 0
  {
    var c := CellOf(t, id);
    assert SenderStands(c) && Answered(c) && OneReplyPerFlag(c) && CallbackCount(c);
    assert SweptOnce(c, t.phase) && Holder(c, t.phase);
  }

  // ---------- Dispatches under way ----------

  /** No dispatching thread is between the RUNNING check and its return, and none can start. */
  ghost predicate NoDispatchUnderWay(s: State) {
    && !s.phase.Running?
    && s.entering == 0
    && forall id :: id in s.caller ==> s.caller[id].Returned? || s.caller[id].Rejected?
  }

  lemma NoDispatchEnabled(s: State, a: Action)
    requires NoDispatchUnderWay(s)
    ensures a.Dispatching? ==> !Enabled(s, a)
  {
  }

  // ---------- What the cancel pass does to `inflight_` ----------

  predicate IsRetained(pc: EntryPc) {
    pc.Retained?
  }

  /** Workers joined, no dispatch under way and nothing left with JavaScript. */
  ghost predicate Quiescent(s: State) {
    && NoDispatchUnderWay(s)
    && !WorkersAlive(s.phase)
    && forall id :: id in s.entry ==> !InJavaScript(s.entry[id]) && !s.entry[id].Dropped?
  }

  /** How far the pass over `keys` has come. */
  ghost predicate Pass(s: State, keys: set<nat>) {
    && Quiescent(s)
    && s.swept <= keys
    && (if s.cleared then s.swept == keys && s.pending == {} && s.queue == {} else s.pending == keys)
    && (s.phase.CancelPending? ==> s.queue == {})
  }

  lemma NoWorkEnabled(s: State, a: Action)
    requires Inv(s) && !WorkersAlive(s.phase)
    ensures a.Working? ==> !Enabled(s, a)
  {
    if a.Working? {
      assert LocalAt(s, a.id);
      assert Shape(CellOf(s, a.id)) && Holder(CellOf(s, a.id), s.phase);
    }
  }

  lemma NoJsEnabled(s: State, a: Action)
    requires Quiescent(s)
    ensures a.InJs? ==> !Enabled(s, a)
  {
  }

  lemma CancelKeepsPass(s: State, c: CancelStep, id: nat, keys: set<nat>)
    requires LocalAt(s, id) && Pass(s, keys) && CanCancel(s, c, id)
    ensures Pass(Cancelled(s, c, id), keys)
  {
    assert SweptOnce(CellOf(s, id), s.phase);
  }

  lemma ShutdownKeepsPass(s: State, d: ShutdownStep, keys: set<nat>)
    requires Inv(s) && Pass(s, keys) && CanShutDown(s, d)
    ensures Pass(ShutDown(s, d), keys)
  {
    assert LocalAt(s, 0);
    if d.EndPendingPass? {
      forall id: nat | id in s.pending
        ensures id in s.swept
      {
        assert LocalAt(s, id);
        assert SweptOnce(CellOf(s, id), s.phase);
      }
    } else if d.ClearQueue? {
      forall id: nat | id in s.entry
        ensures !s.entry[id].Queued?
      {
        assert LocalAt(s, id);
        assert Shape(CellOf(s, id));
      }
    }
  }

  lemma StepKeepsPass(s: State, a: Action, keys: set<nat>)
    requires Inv(s) && Pass(s, keys) && Enabled(s, a)
    ensures Pass(Next(s, a), keys)
  {
    hide Dispatched, Worked, JsRan, Cancelled, ShutDown;
    NoDispatchEnabled(s, a);
    NoWorkEnabled(s, a);
    NoJsEnabled(s, a);
    match a
    case Replying(r, id) =>
    case Cancelling(c, id) => assert LocalAt(s, id); CancelKeepsPass(s, c, id, keys);
    case ShuttingDown(d) => ShutdownKeepsPass(s, d, keys);
    case Configuring(c) =>
  }

  lemma {:induction false} RunKeepsPass(s: State, run: seq<Action>, keys: set<nat>)
    requires Inv(s) && Pass(s, keys) && Runs(s, run)
    ensures Pass(After(s, run), keys)
    decreases |run|
  {
    if run != [] {
      StepKeepsPass(s, run[0], keys);
      StepKeepsInv(s, run[0]);
      RunKeepsPass(Next(s, run[0]), run[1..], keys);
    }
  }

  /** Where a request can be when a pass begins. */
  ghost predicate AtRest(s: State, id: nat) {
    && (id in s.pending <==> At(s, id, Queued) || At(s, id, Retained))
    && (id in s.queue <==> At(s, id, Queued))
    && (id in s.entry ==> (OwesDecrement(s.entry[id]) <==> s.entry[id].Queued?))
    && id !in s.swept && !s.cleared
  }

  lemma PlacesBeforeThePass(s: State, id: nat)
    requires LocalAt(s, id) && Quiescent(s) && s.phase.Joined?
    ensures AtRest(s, id)
  {
    var c := CellOf(s, id);
    assert Shape(c) && PendingKey(c, s.phase, s.cleared) && Holder(c, s.phase) && SweptOnce(c, s.phase);
    assert id in s.caller ==> s.caller[id].Returned? || s.caller[id].Rejected?;
  }

  lemma SetsAtRest(s: State)
    requires forall id: nat :: AtRest(s, id)
    ensures s.pending == s.queue + Having(s.entry, IsRetained) && s.queue !! Having(s.entry, IsRetained)
    ensures Having(s.entry, OwesDecrement) == s.queue && s.swept == {} && !s.cleared
  {
    assert AtRest(s, 0);
    forall id: nat
      ensures id in s.pending <==> id in s.queue || id in Having(s.entry, IsRetained)
      ensures id in s.queue ==> id !in Having(s.entry, IsRetained)
      ensures id in Having(s.entry, OwesDecrement) <==> id in s.queue
      ensures id !in s.swept
    {
      assert AtRest(s, id);
    }
  }

  lemma NobodyOwesAnIncrement(s: State)
    requires Quiescent(s)
    ensures Having(s.caller, OwesIncrement) == {}
  {
  }

  lemma BeforeThePass(s: State)
    requires Inv(s) && Quiescent(s) && s.phase.Joined?
    ensures s.pending == s.queue + Having(s.entry, IsRetained) && s.queue !! Having(s.entry, IsRetained)
    ensures s.inflight == |s.queue| && s.swept == {} && !s.cleared
  {
    hide Quiescent, LocalAt, Conserved, AtRest, Having;
    NobodyOwesAnIncrement(s);
    forall id: nat
      ensures AtRest(s, id)
    {
      assert LocalAt(s, id);
      PlacesBeforeThePass(s, id);
    }
    SetsAtRest(s);
  }

  lemma AfterThePass(s: State, keys: set<nat>)
    requires Inv(s) && Pass(s, keys) && s.cleared && !s.phase.CancelQueue?
    ensures s.inflight == -|keys|
  {
    forall id: nat
      ensures id !in Having(s.entry, OwesDecrement)
    {
      assert LocalAt(s, id);
      assert Placed(CellOf(s, id), s.phase, s.cleared);
    }
    assert Having(s.entry, OwesDecrement) == {};
    assert Having(s.caller, OwesIncrement) == {};
  }

  /** With the workers joined, no dispatch under way and no JavaScript call outstanding, the
      cancel pass lowers `inflight_` once for each queued and once for each pending entry,
      although every queued entry is pending too. So it ends at zero exactly when the queue
      was empty and no entry had been left behind by a worker's error path. */
  lemma CancelPassLowersInflight(s: State, run: seq<Action>)
    requires Reachable(s) && s.phase.Joined? && Quiescent(s)
    requires Runs(s, run) && After(s, run).cleared && !After(s, run).phase.CancelQueue?
    ensures After(s, run).inflight == s.inflight - |s.queue| - |s.pending|
    ensures After(s, run).inflight == -(|s.queue| + |Having(s.entry, IsRetained)|)
    ensures After(s, run).inflight == 0 <==> s.queue == {} && Having(s.entry, IsRetained) == {}
  {
    ReachableInv(s);
    BeforeThePass(s);
    RunKeepsInv(s, run);
    RunKeepsPass(s, run, s.pending);
    AfterThePass(After(s, run), s.pending);
  }

  /** The state of a run with a single request, in its given places. */
  function OneRequest(phase: Phase, caller: CallerPc, entry: EntryPc, queued: set<nat>, inflight: int): State {
    Init(0).(phase := phase, nextId := 2, caller := map[1 := caller], entry := map[1 := entry],
             queue := queued, pending := {1}, inflight := inflight)
  }

  lemma OneRequestHasAnId() returns (s: State)
    ensures Reachable(s) && s == Init(0).(nextId := 2, caller := map[1 := Allocated])
  {
    InitIsReachable(0);
    hide Reachable;
    s := Init(0);
    StepIsReachable(s, Dispatching(Enter, 0));
    s := Next(s, Dispatching(Enter, 0));
    StepIsReachable(s, Dispatching(Allocate, 1));
    s := Next(s, Dispatching(Allocate, 1));
    assert s.caller == map[1 := Allocated];
  }

  lemma OneRequestIsRegistered() returns (s: State)
    ensures Reachable(s) && s == Init(0).(nextId := 2, caller := map[1 := Registered], pending := {1})
  {
    hide Reachable;
    s := OneRequestHasAnId();
    StepIsReachable(s, Dispatching(Register, 1));
    s := Next(s, Dispatching(Register, 1));
    assert s.caller == map[1 := Registered] && s.pending == {1};
  }

  lemma OneRequestIsPushed() returns (s: State)
    ensures Reachable(s) && s == OneRequest(Running, CallerPc.Pushed, Queued, {1}, 0)
  {
    hide Reachable;
    s := OneRequestIsRegistered();
    StepIsReachable(s, Dispatching(DispatchStep.Push, 1));
    s := Next(s, Dispatching(DispatchStep.Push, 1));
    assert s.caller == map[1 := CallerPc.Pushed] && s.entry == map[1 := Queued] && s.queue == {1};
  }

  lemma TheQueuePassBegins() returns (s: State)
    ensures Reachable(s) && s == OneRequest(CancelQueue, Returned, Queued, {1}, 1)
  {
    hide Reachable;
    s := OneRequestIsPushed();
    StepIsReachable(s, Dispatching(CountIn, 1));
    s := Next(s, Dispatching(CountIn, 1));
    assert s.caller == map[1 := Returned];
    StepIsReachable(s, ShuttingDown(Begin));
    s := Next(s, ShuttingDown(Begin));
    StepIsReachable(s, ShuttingDown(Join));
    s := Next(s, ShuttingDown(Join));
    StepIsReachable(s, ShuttingDown(BeginCancel));
    s := Next(s, ShuttingDown(BeginCancel));
  }

  lemma TheEntryIsPopped() returns (s: State)
    ensures Reachable(s) && s == OneRequest(CancelQueue, Returned, EntryPc.Sweeping, {}, 1)
  {
    hide Reachable;
    s := TheQueuePassBegins();
    StepIsReachable(s, Cancelling(CancelPop, 1));
    s := Next(s, Cancelling(CancelPop, 1));
    assert s.entry == map[1 := EntryPc.Sweeping] && s.queue == {};
  }

  lemma TheEntryIsTold() returns (s: State)
    ensures Reachable(s)
    ensures s == OneRequest(CancelQueue, Returned, SweepTold, {}, 1).(
                   replied := {1}, replies := multiset{1}, errorRuns := multiset{1})
  {
    hide Reachable;
    s := TheEntryIsPopped();
    StepIsReachable(s, Cancelling(CancelTell, 1));
    s := Next(s, Cancelling(CancelTell, 1));
    StepIsReachable(s, Replying(SendReply, 1));
    s := Next(s, Replying(SendReply, 1));
    assert s.entry == map[1 := SweepTold] && s.replying == map[];
  }

  lemma TheEntryIsSwept() returns (s: State)
    ensures Reachable(s) && s.phase.CancelQueue? && s.inflightMutex.Free? && s.inflight == 0 && s.queue == {}
    ensures s.entry == map[1 := Swept] && s.pending == {1} && s.replied == {1} && s.replying == map[]
  {
    hide Reachable;
    s := TheEntryIsTold();
    StepIsReachable(s, Cancelling(CancelDone, 1));
    s := Next(s, Cancelling(CancelDone, 1));
    assert s.entry == map[1 := Swept];
  }

  lemma TheQueuePassEnds() returns (s: State)
    ensures Reachable(s) && s.phase == CancelPending({1}, {}) && s.inflightMutex.Free? && s.inflight == 0
    ensures s.replied == {1} && s.replying == map[]
  {
    hide Reachable;
    s := TheEntryIsSwept();
    StepIsReachable(s, ShuttingDown(EndQueuePass));
    s := Next(s, ShuttingDown(EndQueuePass));
  }

  /** It does end below zero: with a single queued request, at -1. */
  lemma OneQueuedRequestEndsBelowZero()
    ensures exists s: State :: Reachable(s) && s.cleared && s.phase.Waiting? && s.inflight == -1
  {
    hide Reachable;
    var s := TheQueuePassEnds();
    StepIsReachable(s, Cancelling(CancelStep.SweepTell, 1));
    s := Next(s, Cancelling(CancelStep.SweepTell, 1));
    StepIsReachable(s, Cancelling(SweepDone, 1));
    s := Next(s, Cancelling(SweepDone, 1));
    StepIsReachable(s, ShuttingDown(EndPendingPass));
    s := Next(s, ShuttingDown(EndPendingPass));
    assert Reachable(s) && s.cleared && s.phase.Waiting? && s.inflight == -1;
  }
}
