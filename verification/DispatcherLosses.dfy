/** Which accepted requests are answered, and which are lost. */
module DispatcherLosses {
  import opened DispatcherProtocol
  import opened DispatcherSafety
  import opened DispatcherTheorems

  // ---------- What is kept for each request ----------

  /** A set flag has a cause: an error callback of its own, the sweep of the pending map, the
      refusal of its caller, or the start of its `callback_fn`. */
  predicate Caused(c: Cell) {
    c.replied ==> ToldItself(c.entry) || c.told || c.swept || c.caller.Rejected? || c.callbackRuns > 0
  }

  /** Until the last clear, whatever lost its pending key without being done was swept. */
  predicate ClearedWasSwept(c: Cell, p: Phase) {
    !p.Closed? && Registrable(c) && !c.pending ==> c.swept
  }

  predicate Traced(c: Cell, p: Phase) {
    Caused(c) && ClearedWasSwept(c, p)
  }

  /** Answered, or its `callback_fn` has returned normally, so that the JavaScript code owns
      the reply. */
  predicate AnsweredOrWithJs(c: Cell) {
    c.replied || c.entry == JsErased(true) || c.entry == Finished(true)
  }

  /** So, or its caller is about to refuse it. */
  predicate Safe(c: Cell) {
    AnsweredOrWithJs(c) || c.caller.Denied?
  }

  /** The sweep of the pending map has begun, or is over. */
  predicate FromTheSweep(p: Phase) {
    p.CancelPending? || p.Waiting? || p.Clearing? || p.Closed?
  }

  /** It came too late for the sweep: nobody will ever take it from the queue. */
  predicate Late(c: Cell, p: Phase) {
    && FromTheSweep(p)
    && !c.todo && !c.told && !c.swept
    && (c.entry.NoEntry? || c.entry.Queued? || c.entry.Dropped?)
    && (c.replied ==> c.caller.Rejected?) && c.callbackRuns == 0
  }

  /** Accepted, unanswered, and left in or discarded from the queue of a closed dispatcher:
      nobody holds the request any more. */
  predicate LostCell(c: Cell, p: Phase) {
    p.Closed? && (c.entry.Queued? || c.entry.Dropped?) && !c.replied && c.callbackRuns == 0
  }

  predicate RegisteredCell(c: Cell) {
    !c.caller.Unknown? && !c.caller.Allocated?
  }

  /** What an action keeps of these for one request. */
  ghost predicate Tracks(s: State, a: Action, t: State, id: nat) {
    var c, e := CellOf(s, id), CellOf(t, id);
    && (Traced(c, s.phase) ==> Traced(e, t.phase))
    && (Safe(c) ==> Safe(e))
    && (Late(c, s.phase) && a != ShuttingDown(BeginCancel) ==> Late(e, t.phase))
    && (LostCell(c, s.phase) ==> LostCell(e, t.phase))
    && (RegisteredCell(c) ==> RegisteredCell(e))
    && (t.cleared ==> s.cleared || a == ShuttingDown(EndPendingPass))
  }

  lemma DenyTracks(s: State, d: DispatchStep, id: nat)
    requires LocalAt(s, id) && CanDispatch(s, d, id)
    requires d.Deny?
    ensures Tracks(s, Dispatching(d, id), Dispatched(s, d, id), id)
  {
  }

  lemma PushTracks(s: State, d: DispatchStep, id: nat)
    requires LocalAt(s, id) && CanDispatch(s, d, id)
    requires d.Push? || d.CountIn?
    ensures Tracks(s, Dispatching(d, id), Dispatched(s, d, id), id)
  {
  }

  lemma AcceptTracks(s: State, d: DispatchStep, id: nat)
    requires LocalAt(s, id) && CanDispatch(s, d, id)
    requires d.Push? || d.CountIn? || d.Deny?
    ensures Tracks(s, Dispatching(d, id), Dispatched(s, d, id), id)
  {
    hide Dispatched, CanDispatch, LocalAt, Tracks;
    if d.Deny? {
      DenyTracks(s, d, id);
    } else {
      PushTracks(s, d, id);
    }
  }

  lemma EnterTracks(s: State, d: DispatchStep, id: nat)
    requires LocalAt(s, id) && CanDispatch(s, d, id)
    requires d.Enter? || d.LeaveRefused? || d.Allocate?
    ensures Tracks(s, Dispatching(d, id), Dispatched(s, d, id), id)
  {
  }

  lemma RegisterTracks(s: State, d: DispatchStep, id: nat)
    requires LocalAt(s, id) && CanDispatch(s, d, id)
    requires d.Register? || d.FindFull? || d.EraseRefused?
    ensures Tracks(s, Dispatching(d, id), Dispatched(s, d, id), id)
  {
  }

  lemma AnnounceTracks(s: State, d: DispatchStep, id: nat)
    requires LocalAt(s, id) && CanDispatch(s, d, id)
    requires !(d.Push? || d.CountIn? || d.Deny?)
    ensures Tracks(s, Dispatching(d, id), Dispatched(s, d, id), id)
  {
    hide Dispatched, CanDispatch, LocalAt, Tracks;
    if d.Enter? || d.LeaveRefused? || d.Allocate? {
      EnterTracks(s, d, id);
    } else {
      RegisterTracks(s, d, id);
    }
  }

  lemma DispatchTracks(s: State, d: DispatchStep, id: nat)
    requires LocalAt(s, id) && CanDispatch(s, d, id)
    ensures Tracks(s, Dispatching(d, id), Dispatched(s, d, id), id)
  {
    hide Dispatched, CanDispatch, LocalAt, Tracks;
    if d.Push? || d.CountIn? || d.Deny? {
      AcceptTracks(s, d, id);
    } else {
      AnnounceTracks(s, d, id);
    }
  }

  lemma WorkTracks(s: State, w: WorkStep, id: nat)
    requires LocalAt(s, id) && CanWork(s, w, id)
    ensures Tracks(s, Working(w, id), Worked(s, w, id), id)
  {
  }

  lemma JsStartTracks(s: State, j: JsStep, id: nat)
    requires LocalAt(s, id) && CanRunJs(s, j, id)
    requires j.Catch? || j.Throw? || j.Start?
    ensures Tracks(s, InJs(j, id), JsRan(s, j, id), id)
  {
  }

  lemma JsEndTracks(s: State, j: JsStep, id: nat)
    requires LocalAt(s, id) && CanRunJs(s, j, id)
    requires !(j.Catch? || j.Throw? || j.Start?)
    ensures Tracks(s, InJs(j, id), JsRan(s, j, id), id)
  {
  }

  lemma JsTracks(s: State, j: JsStep, id: nat)
    requires LocalAt(s, id) && CanRunJs(s, j, id)
    ensures Tracks(s, InJs(j, id), JsRan(s, j, id), id)
  {
    hide JsRan, CanRunJs, LocalAt, Tracks;
    if j.Catch? || j.Throw? || j.Start? {
      JsStartTracks(s, j, id);
    } else {
      JsEndTracks(s, j, id);
    }
  }

  lemma ReplyTracks(s: State, r: ReplyStep, id: nat)
    requires LocalAt(s, id) && CanReply(s, r, id)
    ensures Tracks(s, Replying(r, id), Replied(s, r, id), id)
  {
  }

  lemma SweepTracks(s: State, c: CancelStep, id: nat)
    requires LocalAt(s, id) && CanCancel(s, c, id)
    requires c.SweepTell? || c.SweepDone?
    ensures Tracks(s, Cancelling(c, id), Cancelled(s, c, id), id)
  {
  }

  lemma CancelTellTracks(s: State, c: CancelStep, id: nat)
    requires LocalAt(s, id) && CanCancel(s, c, id)
    requires c.CancelTell?
    ensures Tracks(s, Cancelling(c, id), Cancelled(s, c, id), id)
  {
  }

  lemma CancelElseTracks(s: State, c: CancelStep, id: nat)
    requires LocalAt(s, id) && CanCancel(s, c, id)
    requires c.CancelPop? || c.CancelDone?
    ensures Tracks(s, Cancelling(c, id), Cancelled(s, c, id), id)
  {
  }

  lemma QueueCancelTracks(s: State, c: CancelStep, id: nat)
    requires LocalAt(s, id) && CanCancel(s, c, id)
    requires !(c.SweepTell? || c.SweepDone?)
    ensures Tracks(s, Cancelling(c, id), Cancelled(s, c, id), id)
  {
    hide Cancelled, CanCancel, LocalAt, Tracks;
    if c.CancelTell? {
      CancelTellTracks(s, c, id);
    } else {
      CancelElseTracks(s, c, id);
    }
  }

  lemma CancelTracks(s: State, c: CancelStep, id: nat)
    requires LocalAt(s, id) && CanCancel(s, c, id)
    ensures Tracks(s, Cancelling(c, id), Cancelled(s, c, id), id)
  {
    hide Cancelled, CanCancel, LocalAt, Tracks;
    if c.SweepTell? || c.SweepDone? {
      SweepTracks(s, c, id);
    } else {
      QueueCancelTracks(s, c, id);
    }
  }

  lemma PassTracks(s: State, d: ShutdownStep, id: nat)
    requires LocalAt(s, id) && CanShutDown(s, d)
    requires d.EndQueuePass? || d.EndPendingPass?
    ensures Tracks(s, ShuttingDown(d), ShutDown(s, d), id)
  {
  }

  lemma ClearTracks(s: State, d: ShutdownStep, id: nat)
    requires LocalAt(s, id) && CanShutDown(s, d)
    requires d.ClearQueue? || d.ClearPending?
    ensures Tracks(s, ShuttingDown(d), ShutDown(s, d), id)
  {
  }

  lemma StageTracks(s: State, d: ShutdownStep, id: nat)
    requires LocalAt(s, id) && CanShutDown(s, d)
    requires d.Begin? || d.Join? || d.BeginCancel? || d.EndWait?
    ensures Tracks(s, ShuttingDown(d), ShutDown(s, d), id)
  {
    assert CellOf(ShutDown(s, d), id) == CellOf(s, id);
  }

  lemma ShutdownTracks(s: State, d: ShutdownStep, id: nat)
    requires LocalAt(s, id) && CanShutDown(s, d)
    ensures Tracks(s, ShuttingDown(d), ShutDown(s, d), id)
  {
    hide ShutDown, CanShutDown, LocalAt, Tracks;
    if d.EndQueuePass? || d.EndPendingPass? {
      PassTracks(s, d, id);
    } else if d.ClearQueue? || d.ClearPending? {
      ClearTracks(s, d, id);
    } else {
      StageTracks(s, d, id);
    }
  }

  /** Every action of every thread, for every request. */
  lemma StepTracks(s: State, a: Action, i: nat)
    requires LocalAt(s, i) && Enabled(s, a)
    ensures Tracks(s, a, Next(s, a), i)
  {
    hide Dispatched, Worked, JsRan, Replied, Cancelled, ShutDown, CanDispatch, CanWork, CanRunJs, CanReply, CanCancel, CanShutDown;
    hide LocalAt, CellOf, Tracks, Configured;
    match a
    case Dispatching(d, id) => if i == id { DispatchTracks(s, d, i); } else { DispatchPasses(s, d, id, i); }
    case Working(w, id) => if i == id { WorkTracks(s, w, i); } else { WorkPasses(s, w, id, i); }
    case InJs(j, id) => if i == id { JsTracks(s, j, i); } else { JsPasses(s, j, id, i); }
    case Replying(r, id) => if i == id { ReplyTracks(s, r, i); } else { ReplyPasses(s, r, id, i); }
    case Cancelling(c, id) => if i == id { CancelTracks(s, c, i); } else { CancelPasses(s, c, id, i); }
    case ShuttingDown(d) => ShutdownTracks(s, d, i);
    case Configuring(c) => ConfigPasses(s, c, i);
  }

  /** A request whose cell an action leaves alone, in a phase that it does not leave. */
  lemma SameTracks(s: State, a: Action, t: State, i: nat)
    requires CellOf(t, i) == CellOf(s, i) && t.cleared == s.cleared
    requires t.phase == s.phase || (s.phase.CancelPending? && t.phase.CancelPending?)
    ensures Tracks(s, a, t, i)
  {
    hide CellOf;
  }

  lemma ConfigPasses(s: State, c: ConfigStep, i: nat)
    ensures Tracks(s, Configuring(c), Configured(s, c), i)
  {
    ConfigFrame(s, c, i);
    hide CellOf;
    SameTracks(s, Configuring(c), Configured(s, c), i);
  }

  lemma DispatchPasses(s: State, d: DispatchStep, id: nat, i: nat)
    requires CanDispatch(s, d, id) && i != id
    ensures Tracks(s, Dispatching(d, id), Dispatched(s, d, id), i)
  {
    DispatchFrame(s, d, id, i);
    hide CellOf;
    SameTracks(s, Dispatching(d, id), Dispatched(s, d, id), i);
  }

  lemma WorkPasses(s: State, w: WorkStep, id: nat, i: nat)
    requires CanWork(s, w, id) && i != id
    ensures Tracks(s, Working(w, id), Worked(s, w, id), i)
  {
    WorkFrame(s, w, id, i);
    hide CellOf;
    SameTracks(s, Working(w, id), Worked(s, w, id), i);
  }

  lemma JsPasses(s: State, j: JsStep, id: nat, i: nat)
    requires CanRunJs(s, j, id) && i != id
    ensures Tracks(s, InJs(j, id), JsRan(s, j, id), i)
  {
    JsFrame(s, j, id, i);
    hide CellOf;
    SameTracks(s, InJs(j, id), JsRan(s, j, id), i);
  }

  lemma ReplyPasses(s: State, r: ReplyStep, id: nat, i: nat)
    requires CanReply(s, r, id) && i != id
    ensures Tracks(s, Replying(r, id), Replied(s, r, id), i)
  {
    ReplyFrame(s, r, id, i);
    hide CellOf;
    SameTracks(s, Replying(r, id), Replied(s, r, id), i);
  }

  lemma CancelPasses(s: State, c: CancelStep, id: nat, i: nat)
    requires CanCancel(s, c, id) && i != id
    ensures Tracks(s, Cancelling(c, id), Cancelled(s, c, id), i)
  {
    CancelFrame(s, c, id, i);
    hide CellOf;
    SameTracks(s, Cancelling(c, id), Cancelled(s, c, id), i);
  }

  // ---------- Over whole runs ----------

  lemma {:induction false} RunTracks(s: State, run: seq<Action>, i: nat)
    requires Inv(s) && Runs(s, run)
    ensures Traced(CellOf(s, i), s.phase) ==> Traced(CellOf(After(s, run), i), After(s, run).phase)
    ensures Safe(CellOf(s, i)) ==> Safe(CellOf(After(s, run), i))
    ensures LostCell(CellOf(s, i), s.phase) ==> LostCell(CellOf(After(s, run), i), After(s, run).phase)
    decreases |run|
  {
    hide Enabled, Next, CellOf, Traced, Safe, Late, LostCell, LocalAt;
    if run != [] {
      assert LocalAt(s, i);
      StepTracks(s, run[0], i);
      StepKeepsInv(s, run[0]);
      RunTracks(Next(s, run[0]), run[1..], i);
    }
  }

  /** In every reachable state, a set flag has a cause, and a cleared key was swept. */
  lemma ReachableTraced(s: State, i: nat)
    requires Reachable(s)
    ensures Traced(CellOf(s, i), s.phase)
  {
    var maxQueue: nat, run: seq<Action> :| Runs(Init(maxQueue), run) && After(Init(maxQueue), run) == s;
    InitHolds(maxQueue);
    RunTracks(Init(maxQueue), run, i);
  }

  /** The run has no further cancel pass. */
  predicate NoNewPass(run: seq<Action>) {
    forall a :: a in run ==> a != ShuttingDown(BeginCancel)
  }

  lemma {:induction false} RunKeepsLate(s: State, run: seq<Action>, i: nat)
    requires Inv(s) && Runs(s, run) && NoNewPass(run) && Late(CellOf(s, i), s.phase)
    ensures Late(CellOf(After(s, run), i), After(s, run).phase)
    decreases |run|
  {
    hide Enabled, Next, CellOf, Late, LocalAt;
    if run != [] {
      assert run[0] in run && forall a :: a in run[1..] ==> a in run;
      assert LocalAt(s, i);
      StepTracks(s, run[0], i);
      StepKeepsInv(s, run[0]);
      RunKeepsLate(Next(s, run[0]), run[1..], i);
    }
  }

  // ---------- Which requests are answered ----------

  /** It has been put into the pending map, or been accepted or refused since. */
  predicate WasRegistered(s: State, id: nat) {
    id in s.caller && !s.caller[id].Allocated?
  }

  /** At the sweep, whatever was registered is pending, or answered, or with JavaScript. */
  lemma SweptOrSafe(s: State, id: nat)
    requires LocalAt(s, id) && Traced(CellOf(s, id), s.phase)
    requires CanShutDown(s, EndQueuePass) && WasRegistered(s, id)
    ensures id in s.pending || Safe(CellOf(s, id))
  {
    var c := CellOf(s, id);
    assert Shape(c) && PendingKey(c, s.phase, s.cleared) && Answered(c);
  }

  /** Whatever was registered before a sweep is, once it is over and for ever after, answered,
      or its callback has returned normally, or its caller is about to refuse it. */
  lemma RegisteredBeforeTheSweep(s: State, run: seq<Action>, id: nat)
    requires Reachable(s) && CanShutDown(s, EndQueuePass) && WasRegistered(s, id)
    requires Runs(ShutDown(s, EndQueuePass), run)
    requires !After(ShutDown(s, EndQueuePass), run).phase.CancelPending?
    ensures Safe(CellOf(After(ShutDown(s, EndQueuePass), run), id))
  {
    ReachableInv(s);
    ReachableTraced(s, id);
    assert LocalAt(s, id);
    SweptOrSafe(s, id);
    if id in s.pending {
      PendingAtTheSweepAreAnswered(s, run, id);
    } else {
      StepKeepsInv(s, ShuttingDown(EndQueuePass));
      StepTracks(s, ShuttingDown(EndQueuePass), id);
      RunTracks(ShutDown(s, EndQueuePass), run, id);
    }
  }

  lemma FirstClearLosesNone(s: State, id: nat)
    requires LocalAt(s, id) && Traced(CellOf(s, id), s.phase)
    requires CanShutDown(s, EndPendingPass) && WasRegistered(s, id)
    ensures Safe(CellOf(s, id))
  {
    var c := CellOf(s, id);
    assert Shape(c) && PendingKey(c, s.phase, s.cleared) && SweptOnce(c, s.phase) && Answered(c);
  }

  lemma RegisteredHasCell(s: State, id: nat)
    requires Proper(s, id)
    ensures WasRegistered(s, id) <==> RegisteredCell(CellOf(s, id))
  {
  }

  lemma {:induction false} RunKeepsSafe(s: State, run: seq<Action>, id: nat)
    requires Inv(s) && Traced(CellOf(s, id), s.phase) && Runs(s, run)
    requires RegisteredCell(CellOf(s, id)) && (s.cleared ==> Safe(CellOf(s, id)))
    ensures After(s, run).cleared ==> Safe(CellOf(After(s, run), id))
    decreases |run|
  {
    hide Next, CellOf, Traced, Safe, Late, LostCell, RegisteredCell, LocalAt, CanShutDown;
    if run != [] {
      assert LocalAt(s, id);
      StepTracks(s, run[0], id);
      if run[0] == ShuttingDown(EndPendingPass) {
        LocalIsProper(s, id);
        RegisteredHasCell(s, id);
        FirstClearLosesNone(s, id);
      }
      StepKeepsInv(s, run[0]);
      RunKeepsSafe(Next(s, run[0]), run[1..], id);
    }
  }

  lemma LocalIsProper(s: State, id: nat)
    requires LocalAt(s, id)
    ensures Proper(s, id)
  {
  }

  /** In particular, whatever was registered before the pending map was first cleared is, after
      that, answered, or with JavaScript, or about to be refused; a flag whose winner has
      replied is one kernel reply. */
  lemma NoRequestIsLost(s: State, run: seq<Action>, id: nat)
    requires Reachable(s) && !s.cleared && WasRegistered(s, id)
    requires Runs(s, run) && After(s, run).cleared
    ensures Safe(CellOf(After(s, run), id))
    ensures var t := After(s, run);
            id in t.replied && id !in t.replying ==> t.replies[id] == 1
  {
    ReachableInv(s);
    ReachableTraced(s, id);
    assert LocalAt(s, id);
    RegisteredHasCell(s, id);
    RunKeepsSafe(s, run, id);
    RunKeepsInv(s, run);
    assert LocalAt(After(s, run), id);
  }

  /** What was not registered when the sweep began came too late for it. */
  lemma UnregisteredIsLate(s: State, id: nat)
    requires LocalAt(s, id) && Traced(CellOf(s, id), s.phase)
    requires CanShutDown(s, EndQueuePass) && !WasRegistered(s, id)
    ensures Late(CellOf(ShutDown(s, EndQueuePass), id), ShutDown(s, EndQueuePass).phase)
  {
    var c := CellOf(s, id);
    assert Shape(c) && PendingKey(c, s.phase, s.cleared) && SweptOnce(c, s.phase) && CallbackCount(c);
  }

  /** After the last sweep, an accepted request has been answered, or is up to the JavaScript
      code, exactly if it had been registered when that sweep began. */
  lemma AnsweredExactly(s: State, run: seq<Action>, id: nat)
    requires Reachable(s) && CanShutDown(s, EndQueuePass)
    requires Runs(ShutDown(s, EndQueuePass), run) && NoNewPass(run)
    requires !After(ShutDown(s, EndQueuePass), run).phase.CancelPending?
    requires id in After(ShutDown(s, EndQueuePass), run).entry
    ensures AnsweredOrWithJs(CellOf(After(ShutDown(s, EndQueuePass), run), id)) <==> WasRegistered(s, id)
  {
    var begun := ShutDown(s, EndQueuePass);
    var t := After(begun, run);
    ReachableInv(s);
    ReachableTraced(s, id);
    StepKeepsInv(s, ShuttingDown(EndQueuePass));
    RunKeepsInv(begun, run);
    assert LocalAt(s, id) && LocalAt(t, id);
    if WasRegistered(s, id) {
      RegisteredBeforeTheSweep(s, run, id);
    } else {
      UnregisteredIsLate(s, id);
      RunKeepsLate(begun, run, id);
    }
    AcceptedIsNotRefused(t, id);
  }

  lemma AcceptedIsNotRefused(t: State, id: nat)
    requires LocalAt(t, id) && id in t.entry
    ensures var e := CellOf(t, id);
            && (Safe(e) ==> AnsweredOrWithJs(e))
            && (Late(e, t.phase) ==> !AnsweredOrWithJs(e) && (e.entry.Queued? || e.entry.Dropped?))
  {
    assert Shape(CellOf(t, id));
  }

  // ---------- What is lost ----------

  ghost predicate Lost(s: State, id: nat) {
    LostCell(CellOf(s, id), s.phase)
  }

  /** In a closed dispatcher, what is left in the queue or was discarded from it is lost
      exactly if no sweep had dealt with it. */
  lemma LostExactly(s: State, id: nat)
    requires Reachable(s) && s.phase.Closed? && (At(s, id, Queued) || At(s, id, Dropped))
    ensures Lost(s, id) <==> id !in s.swept
  {
    ReachableInv(s);
    ReachableTraced(s, id);
    assert LocalAt(s, id);
    assert Shape(CellOf(s, id)) && Answered(CellOf(s, id)) && CallbackCount(CellOf(s, id));
    assert SweptOnce(CellOf(s, id), s.phase);
  }

  /** A request that was accepted but not registered before the last sweep ends up lost. */
  lemma LateIsLost(s: State, run: seq<Action>, id: nat)
    requires Reachable(s) && CanShutDown(s, EndQueuePass) && !WasRegistered(s, id)
    requires Runs(ShutDown(s, EndQueuePass), run) && NoNewPass(run)
    requires After(ShutDown(s, EndQueuePass), run).phase.Closed? && id in After(ShutDown(s, EndQueuePass), run).entry
    ensures Lost(After(ShutDown(s, EndQueuePass), run), id)
  {
    var begun := ShutDown(s, EndQueuePass);
    var t := After(begun, run);
    ReachableInv(s);
    ReachableTraced(s, id);
    StepKeepsInv(s, ShuttingDown(EndQueuePass));
    RunKeepsInv(begun, run);
    assert LocalAt(s, id) && LocalAt(t, id);
    UnregisteredIsLate(s, id);
    RunKeepsLate(begun, run, id);
    AcceptedIsNotRefused(t, id);
  }

  /** A lost request is never answered, and its callback never runs. */
  lemma LostIsForEver(s: State, run: seq<Action>, id: nat)
    requires Reachable(s) && Lost(s, id) && Runs(s, run)
    ensures Lost(After(s, run), id)
  {
    ReachableInv(s);
    RunTracks(s, run, id);
  }

  /** A caller has passed the RUNNING check, and `Shutdown` is in its bounded wait. */
  function ACallerIsInside(mutex: InflightMutex): State {
    Init(0).(phase := Waiting, entering := 1, cleared := true, inflightMutex := mutex)
  }

  lemma ShutdownRunsPastACaller() returns (s: State)
    ensures Reachable(s) && s == ACallerIsInside(Free)
  {
    hide Reachable;
    InitIsReachable(0);
    s := Init(0);
    StepIsReachable(s, Dispatching(Enter, 0));
    s := Next(s, Dispatching(Enter, 0));
    StepIsReachable(s, ShuttingDown(Begin));
    s := Next(s, ShuttingDown(Begin));
    StepIsReachable(s, ShuttingDown(Join));
    s := Next(s, ShuttingDown(Join));
    StepIsReachable(s, ShuttingDown(BeginCancel));
    s := Next(s, ShuttingDown(BeginCancel));
    StepIsReachable(s, ShuttingDown(EndQueuePass));
    s := Next(s, ShuttingDown(EndQueuePass));
    StepIsReachable(s, ShuttingDown(EndPendingPass));
    s := Next(s, ShuttingDown(EndPendingPass));
  }

  lemma TheCallerRegistersThen(s0: State) returns (s: State)
    requires Reachable(s0) && s0 == ACallerIsInside(s0.inflightMutex)
    ensures Reachable(s)
    ensures s == s0.(nextId := 2, entering := 0, caller := map[1 := Registered], pending := {1})
  {
    hide Reachable;
    StepIsReachable(s0, Dispatching(Allocate, 1));
    s := Next(s0, Dispatching(Allocate, 1));
    assert s.caller == map[1 := Allocated];
    StepIsReachable(s, Dispatching(Register, 1));
    s := Next(s, Dispatching(Register, 1));
    assert s.caller == map[1 := Registered];
  }

  lemma TheCallerPushesThen(s0: State) returns (s: State)
    requires Reachable(s0) && s0 == ACallerIsInside(s0.inflightMutex)
    ensures Reachable(s)
    ensures s == s0.(nextId := 2, entering := 0, caller := map[1 := Returned], pending := {1},
                     entry := map[1 := Queued], queue := {1}, inflight := 1)
  {
    hide Reachable;
    s := TheCallerRegistersThen(s0);
    StepIsReachable(s, Dispatching(DispatchStep.Push, 1));
    s := Next(s, Dispatching(DispatchStep.Push, 1));
    StepIsReachable(s, Dispatching(CountIn, 1));
    s := Next(s, Dispatching(CountIn, 1));
    assert s.caller == map[1 := Returned] && s.entry == map[1 := Queued];
  }

  /** There are such requests: a caller passes the RUNNING check, Shutdown runs to the end of its
      bounded wait, the caller pushes and returns an id, and the last clear discards the entry. */
  lemma OverlappingDispatchIsLost()
    ensures exists s: State :: Reachable(s) && Lost(s, 1) && s.inflight == 1
  {
    hide Reachable;
    var s := ShutdownRunsPastACaller();
    StepIsReachable(s, ShuttingDown(EndWait));
    s := Next(s, ShuttingDown(EndWait));
    s := TheCallerPushesThen(s);
    StepIsReachable(s, ShuttingDown(ClearQueue));
    s := Next(s, ShuttingDown(ClearQueue));
    StepIsReachable(s, ShuttingDown(ClearPending));
    s := Next(s, ShuttingDown(ClearPending));
    assert Reachable(s) && Lost(s, 1) && s.inflight == 1;
  }
}
