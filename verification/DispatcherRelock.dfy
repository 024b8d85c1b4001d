/** The second cancel pass of `Shutdown`, which runs while the thread holds `inflight_mtx_`: a
    decrement from one to zero locks that mutex once more, and then `Shutdown` never returns.
  */
module DispatcherRelock {
  import opened DispatcherProtocol
  import opened DispatcherSafety
  import opened DispatcherLosses

  /** How often the pass has still to lower the count, if nobody else does anything. */
  ghost function Left(s: State): nat {
    match s.phase
    case CancelQueue => |s.queue| + |Having(s.entry, SweepHolds)| + |s.pending|
    case CancelPending(todo, told) => |todo| + |told|
    case _ => 0
  }

  /** A step of `Shutdown` itself, or a reply that is on its way. */
  predicate Own(a: Action) {
    a.Cancelling? || a.ShuttingDown? || (a.Replying? && a.reply.SendReply?)
  }

  /** Nobody else moves. */
  predicate Alone(run: seq<Action>) {
    forall a :: a in run ==> Own(a)
  }

  /** In or after a second pass that began with the count `count` and had to lower it `left` times. */
  ghost predicate SecondPass(s: State, count: int, left: nat) {
    && !s.inflightMutex.Free?
    && s.inflight - Left(s) == count - left && s.inflight <= count
    && (if s.inflightMutex.Relocked? then s.inflight == 0 && count >= 1 else count >= 1 ==> s.inflight >= 1)
  }

  lemma QueueCancelKeepsSecondPass(s: State, c: CancelStep, id: nat, count: int, left: nat)
    requires LocalAt(s, id) && CanCancel(s, c, id) && SecondPass(s, count, left)
    requires c.CancelPop? || c.CancelTell? || c.CancelDone?
    requires MutexHeld(s)
    ensures SecondPass(Cancelled(s, c, id), count, left)
  {
    assert Shape(CellOf(s, id)) && Holder(CellOf(s, id), s.phase);
    hide Having;
    var t := Cancelled(s, c, id);
    assert s.phase.CancelQueue? && t.phase.CancelQueue?;
    HavingMoved(s.entry, id, t.entry[id], SweepHolds);
    assert t.entry == s.entry[id := t.entry[id]];
  }

  lemma ErrorEffectHere(s: State, id: nat)
    ensures var t := RunErrorCallback(s, id, ByShutdown);
            t.phase == s.phase && t.inflightMutex == s.inflightMutex && t.inflight == s.inflight
  {
  }

  lemma ToldIsNotTodo(s: State, id: nat)
    requires LocalAt(s, id) && s.phase.CancelPending?
    ensures id in s.phase.todo ==> id !in s.phase.told
  {
    assert SweptOnce(CellOf(s, id), s.phase);
  }

  lemma SameSecondPass(s: State, t: State, count: int, left: nat)
    requires SecondPass(s, count, left)
    requires t.inflight == s.inflight && t.inflightMutex == s.inflightMutex && Left(t) == Left(s)
    ensures SecondPass(t, count, left)
  {
  }

  lemma SweepTellKeepsSecondPass(s: State, id: nat, count: int, left: nat)
    requires LocalAt(s, id) && CanCancel(s, CancelStep.SweepTell, id) && SecondPass(s, count, left)
    ensures SecondPass(Cancelled(s, CancelStep.SweepTell, id), count, left)
  {
    hide Having, RunErrorCallback, LocalAt, SecondPass;
    ToldIsNotTodo(s, id);
    var p := CancelPending(s.phase.todo - {id}, s.phase.told + {id});
    ErrorEffectHere(s.(phase := p), id);
    var t := Cancelled(s, CancelStep.SweepTell, id);
    assert t.phase == p && Left(t) == |p.todo| + |p.told|;
    SameSecondPass(s, t, count, left);
  }

  lemma SweepDoneKeepsSecondPass(s: State, id: nat, count: int, left: nat)
    requires CanCancel(s, SweepDone, id) && SecondPass(s, count, left) && MutexHeld(s)
    ensures SecondPass(Cancelled(s, SweepDone, id), count, left)
  {
    hide Having;
  }

  lemma ShutdownKeepsSecondPass(s: State, d: ShutdownStep, count: int, left: nat)
    requires CanShutDown(s, d) && SecondPass(s, count, left) && MutexHeld(s)
    ensures SecondPass(ShutDown(s, d), count, left)
  {
    if d.EndQueuePass? {
      assert Having(s.entry, SweepHolds) == {};
    }
  }

  lemma StepKeepsSecondPass(s: State, a: Action, count: int, left: nat)
    requires Inv(s) && MutexHeld(s) && Enabled(s, a) && Own(a) && SecondPass(s, count, left)
    ensures SecondPass(Next(s, a), count, left)
  {
    hide Cancelled, ShutDown, CanCancel, CanShutDown, SecondPass, MutexHeld;
    match a
    case Cancelling(c, id) =>
      assert LocalAt(s, id);
      if c.SweepTell? {
        SweepTellKeepsSecondPass(s, id, count, left);
      } else if c.SweepDone? {
        SweepDoneKeepsSecondPass(s, id, count, left);
      } else {
        QueueCancelKeepsSecondPass(s, c, id, count, left);
      }
    case ShuttingDown(d) => ShutdownKeepsSecondPass(s, d, count, left);
    case Replying(r, id) => ReplyKeepsSecondPass(s, id, count, left);
  }

  lemma ReplyKeepsSecondPass(s: State, id: nat, count: int, left: nat)
    requires CanReply(s, SendReply, id) && SecondPass(s, count, left)
    ensures SecondPass(Replied(s, SendReply, id), count, left)
  {
  }

  lemma {:induction false} RunKeepsSecondPass(s: State, run: seq<Action>, count: int, left: nat)
    requires Inv(s) && MutexHeld(s) && Runs(s, run) && Alone(run) && SecondPass(s, count, left)
    ensures SecondPass(After(s, run), count, left) && MutexHeld(After(s, run))
    decreases |run|
  {
    hide Enabled, Next, MutexHeld, SecondPass, Own;
    if run != [] {
      assert run[0] in run && forall a :: a in run[1..] ==> a in run;
      StepKeepsInv(s, run[0]);
      StepKeepsMutexHeld(s, run[0]);
      StepKeepsSecondPass(s, run[0], count, left);
      RunKeepsSecondPass(Next(s, run[0]), run[1..], count, left);
    }
  }

  // ---------- The pass can always go on ----------

  predicate IsSweeping(pc: EntryPc) {
    pc.Sweeping?
  }

  predicate IsSweepTold(pc: EntryPc) {
    pc.SweepTold?
  }

  /** More than the number of steps that are left. */
  ghost function Steps(s: State): nat {
    |s.replying.Keys| +
    match s.phase
    case CancelQueue => 6 * |s.queue| + 4 * |Having(s.entry, IsSweeping)| + 2 * |Having(s.entry, IsSweepTold)| + 4 * |s.pending| + 2
    case CancelPending(todo, told) => 4 * |todo| + 2 * |told| + 1
    case _ => 0
  }

  lemma ErrorSteps(s: State, id: nat)
    ensures var t := RunErrorCallback(s, id, ByShutdown);
            && t.phase == s.phase && t.entry == s.entry && t.queue == s.queue && t.pending == s.pending
            && |t.replying.Keys| <= |s.replying.Keys| + 1
  {
    var t := RunErrorCallback(s, id, ByShutdown);
    assert t.replying == s.replying || t.replying.Keys == s.replying.Keys + {id};
  }

  lemma QueuedHasEntry(s: State, id: nat)
    requires AllLocal(s) && id in s.queue
    ensures LocalAt(s, id) && id in s.entry
  {
    assert LocalAt(s, id);
    assert Shape(CellOf(s, id));
  }

  lemma CancelPopSteps(s: State, id: nat)
    requires LocalAt(s, id) && CanCancel(s, CancelPop, id)
    ensures Steps(Cancelled(s, CancelPop, id)) < Steps(s)
  {
    assert Shape(CellOf(s, id));
    hide Having, LocalAt;
    HavingMoved(s.entry, id, EntryPc.Sweeping, IsSweeping);
    HavingMoved(s.entry, id, EntryPc.Sweeping, IsSweepTold);
  }

  lemma CancelTellSteps(s: State, id: nat)
    requires s.phase.CancelQueue? && CanCancel(s, CancelTell, id)
    ensures Steps(Cancelled(s, CancelTell, id)) < Steps(s)
  {
    hide Having, RunErrorCallback;
    ErrorSteps(MoveEntry(s, id, SweepTold), id);
    HavingMoved(s.entry, id, SweepTold, IsSweeping);
    HavingMoved(s.entry, id, SweepTold, IsSweepTold);
  }

  lemma CancelDoneSteps(s: State, id: nat)
    requires s.phase.CancelQueue? && CanCancel(s, CancelDone, id)
    ensures Steps(Cancelled(s, CancelDone, id)) < Steps(s)
  {
    hide Having;
    HavingMoved(s.entry, id, Swept, IsSweeping);
    HavingMoved(s.entry, id, Swept, IsSweepTold);
  }

  lemma SweepTellSteps(s: State, id: nat)
    requires CanCancel(s, CancelStep.SweepTell, id)
    ensures Steps(Cancelled(s, CancelStep.SweepTell, id)) < Steps(s)
  {
    hide Having, RunErrorCallback;
    var told := CancelPending(s.phase.todo - {id}, s.phase.told + {id});
    ErrorSteps(s.(phase := told), id);
    assert |told.told| <= |s.phase.told| + 1;
  }

  lemma SweepDoneSteps(s: State, id: nat)
    requires CanCancel(s, SweepDone, id)
    ensures Steps(Cancelled(s, SweepDone, id)) < Steps(s)
  {
    hide Having;
  }

  lemma EndSteps(s: State, d: ShutdownStep)
    requires CanShutDown(s, d)
    requires d.EndQueuePass? || d.EndPendingPass?
    ensures Steps(ShutDown(s, d)) < Steps(s)
  {
  }

  lemma ReplySteps(s: State, id: nat)
    requires CanReply(s, SendReply, id)
    ensures Steps(Replied(s, SendReply, id)) < Steps(s)
  {
    assert Replied(s, SendReply, id).replying.Keys == s.replying.Keys - {id};
    hide Having;
  }

  /** One step of the queue pass. */
  lemma QueuePassGoesOn(s: State) returns (a: Action)
    requires Inv(s) && s.inflightMutex.Held? && s.phase.CancelQueue?
    ensures Enabled(s, a) && Own(a) && Steps(Next(s, a)) < Steps(s)
  {
    hide Steps, Cancelled, ShutDown, Replied, LocalAt;
    if id: nat :| id in s.entry && s.entry[id].SweepTold? {
      if Sending(s, id, ByShutdown) {
        ReplySteps(s, id);
        a := Replying(SendReply, id);
      } else {
        CancelDoneSteps(s, id);
        a := Cancelling(CancelDone, id);
      }
    } else if id: nat :| id in s.entry && s.entry[id].Sweeping? {
      CancelTellSteps(s, id);
      a := Cancelling(CancelTell, id);
    } else if id: nat :| id in s.queue {
      QueuedHasEntry(s, id);
      CancelPopSteps(s, id);
      a := Cancelling(CancelPop, id);
    } else {
      EndSteps(s, EndQueuePass);
      a := ShuttingDown(EndQueuePass);
    }
  }

  /** One step of the sweep of the pending map. */
  lemma SweepGoesOn(s: State) returns (a: Action)
    requires Inv(s) && s.inflightMutex.Held? && s.phase.CancelPending?
    ensures Enabled(s, a) && Own(a) && Steps(Next(s, a)) < Steps(s)
  {
    hide Steps, Cancelled, ShutDown, Replied;
    if id: nat :| id in s.phase.told {
      assert LocalAt(s, id);
      if Sending(s, id, ByShutdown) {
        ReplySteps(s, id);
        a := Replying(SendReply, id);
      } else {
        SweepDoneSteps(s, id);
        a := Cancelling(SweepDone, id);
      }
    } else if id: nat :| id in s.phase.todo {
      assert LocalAt(s, id);
      SweepTellSteps(s, id);
      a := Cancelling(CancelStep.SweepTell, id);
    } else {
      EndSteps(s, EndPendingPass);
      a := ShuttingDown(EndPendingPass);
    }
  }

  /** The pass ends, or waits for its own mutex. */
  predicate Over(s: State) {
    (s.phase.Waiting? && s.inflightMutex.Released?) || s.inflightMutex.Relocked?
  }

  lemma {:induction false} PassGoesOn(s: State) returns (run: seq<Action>)
    requires Inv(s) && MutexHeld(s) && (s.inflightMutex.Held? || Over(s))
    ensures Runs(s, run) && Alone(run) && Over(After(s, run))
    decreases Steps(s)
  {
    hide Enabled, Next, Steps, Own;
    if Over(s) {
      run := [];
    } else {
      var a;
      if s.phase.CancelQueue? {
        a := QueuePassGoesOn(s);
      } else {
        a := SweepGoesOn(s);
      }
      StepKeepsInv(s, a);
      StepKeepsMutexHeld(s, a);
      StaysInThePass(s, a);
      var rest := PassGoesOn(Next(s, a));
      run := [a] + rest;
      assert run[1..] == rest;
    }
  }

  lemma StaysInThePass(s: State, a: Action)
    requires Enabled(s, a) && s.inflightMutex.Held? && (s.phase.CancelQueue? || s.phase.CancelPending?)
    ensures Next(s, a).inflightMutex.Held? || Over(Next(s, a))
  {
    hide Dispatched, Worked, JsRan, Replied, Cancelled, ShutDown;
    hide CanDispatch, CanWork, CanRunJs, CanReply, CanCancel, CanShutDown;
    if a.Cancelling? {
      CancelStaysInThePass(s, a.cancel, a.id);
    } else if a.ShuttingDown? {
      ShutdownStaysInThePass(s, a.shutdown);
    } else {
      OthersKeepStage(s, a);
    }
  }

  lemma CancelStaysInThePass(s: State, c: CancelStep, id: nat)
    requires CanCancel(s, c, id) && s.inflightMutex.Held?
    ensures Cancelled(s, c, id).inflightMutex.Held? || Over(Cancelled(s, c, id))
  {
  }

  lemma ShutdownStaysInThePass(s: State, d: ShutdownStep)
    requires CanShutDown(s, d) && s.inflightMutex.Held? && (s.phase.CancelQueue? || s.phase.CancelPending?)
    ensures ShutDown(s, d).inflightMutex.Held? || Over(ShutDown(s, d))
  {
  }

  // ---------- When it ends ----------

  /** The count is positive, and the pass is to lower it to zero or below. */
  predicate Relocks(s: State) {
    1 <= s.inflight <= |s.queue| + |s.pending|
  }

  lemma SecondPassBegins(s: State)
    requires Inv(s) && MutexHeld(s) && s.phase.Waiting? && CanShutDown(s, BeginCancel)
    ensures var begun := ShutDown(s, BeginCancel);
            && Inv(begun) && MutexHeld(begun) && begun.inflightMutex.Held?
            && SecondPass(begun, s.inflight, |s.queue| + |s.pending|)
  {
    StepKeepsInv(s, ShuttingDown(BeginCancel));
    StepKeepsMutexHeld(s, ShuttingDown(BeginCancel));
    forall id: nat | id in s.entry
      ensures !SweepHolds(s.entry[id])
    {
      assert LocalAt(s, id);
      assert Holder(CellOf(s, id), s.phase);
    }
    assert Having(s.entry, SweepHolds) == {};
  }

  /** With nobody else moving, a second cancel pass can come to its end exactly if it does not
      have to take a positive count to zero; else it relocks its mutex, whatever the order. */
  lemma SecondPassEndsExactly(s: State)
    requires Reachable(s) && s.phase.Waiting? && CanShutDown(s, BeginCancel)
    ensures var begun := ShutDown(s, BeginCancel);
            (exists run :: Alone(run) && Runs(begun, run) && After(begun, run).phase.Waiting?) <==> !Relocks(s)
    ensures var begun := ShutDown(s, BeginCancel);
            (exists run :: Alone(run) && Runs(begun, run) && After(begun, run).inflightMutex.Relocked?) <==> Relocks(s)
  {
    ReachableInv(s);
    ReachableMutexHeld(s);
    hide CanShutDown, ShutDown, Reachable;
    SecondPassBegins(s);
    var begun := ShutDown(s, BeginCancel);
    forall run | Alone(run) && Runs(begun, run)
      ensures After(begun, run).phase.Waiting? ==> !Relocks(s)
      ensures After(begun, run).inflightMutex.Relocked? ==> Relocks(s)
    {
      RunKeepsSecondPass(begun, run, s.inflight, |s.queue| + |s.pending|);
      EndOfTheSecondPass(After(begun, run), s.inflight, |s.queue| + |s.pending|);
    }
    var run := PassGoesOn(begun);
    assert Alone(run) && Runs(begun, run) && Over(After(begun, run));
  }

  lemma EndOfTheSecondPass(t: State, count: int, left: nat)
    requires SecondPass(t, count, left) && MutexHeld(t)
    ensures t.phase.Waiting? ==> !(1 <= count <= left)
    ensures t.inflightMutex.Relocked? ==> 1 <= count <= left
  {
  }

  // ---------- After that ----------

  /** Queued, and unanswered. */
  predicate Abandoned(s: State, id: nat) {
    At(s, id, Queued) && id !in s.replied && s.callbackRuns[id] == 0
  }

  lemma StepKeepsRelocked(s: State, a: Action)
    requires Enabled(s, a) && s.inflightMutex.Relocked?
    ensures SameStage(s, Next(s, a)) && !a.Cancelling? && !a.ShuttingDown?
  {
    hide Dispatched, Worked, JsRan, Replied, CanDispatch, CanWork, CanRunJs, CanReply;
    assert !a.Cancelling? && !a.ShuttingDown?;
    OthersKeepStage(s, a);
  }

  lemma AbandonedByDispatch(s: State, d: DispatchStep, id: nat)
    requires LocalAt(s, id) && CanDispatch(s, d, id) && Abandoned(s, id)
    ensures Abandoned(Dispatched(s, d, id), id)
  {
    assert Shape(CellOf(s, id));
  }

  lemma SameCellAbandoned(s: State, t: State, id: nat)
    requires CellOf(t, id) == CellOf(s, id)
    ensures Abandoned(t, id) <==> Abandoned(s, id)
  {
    assert Abandoned(s, id) <==> CellOf(s, id).entry.Queued? && !CellOf(s, id).replied && CellOf(s, id).callbackRuns == 0;
  }

  lemma StepKeepsAbandoned(s: State, a: Action, id: nat)
    requires LocalAt(s, id) && Enabled(s, a) && Abandoned(s, id)
    requires s.inflightMutex.Relocked? && !WorkersAlive(s.phase)
    ensures Abandoned(Next(s, a), id)
  {
    hide Dispatched, Worked, JsRan, Replied, CellOf;
    match a
    case Dispatching(d, i) =>
      if i == id { AbandonedByDispatch(s, d, id); } else { DispatchFrame(s, d, i, id); SameCellAbandoned(s, Next(s, a), id); }
    case Working(w, i) => WorkFrame(s, w, i, id); SameCellAbandoned(s, Next(s, a), id);
    case InJs(j, i) => JsFrame(s, j, i, id); SameCellAbandoned(s, Next(s, a), id);
    case Replying(r, i) =>
      if i != id { ReplyFrame(s, r, i, id); SameCellAbandoned(s, Next(s, a), id); } else { NoReplyYet(s, r, id); }
    case Configuring(c) => ConfigFrame(s, c, id); SameCellAbandoned(s, Next(s, a), id);
  }

  lemma NoReplyYet(s: State, r: ReplyStep, id: nat)
    requires LocalAt(s, id) && Abandoned(s, id)
    ensures !CanReply(s, r, id)
  {
    assert OneReplyPerFlag(CellOf(s, id));
  }

  /** A thread that waits for its own mutex waits for ever, so `Shutdown` never returns; and the
      requests that its pass had not reached stay queued and unanswered. */
  lemma {:induction false} RelockedForEver(s: State, run: seq<Action>, id: nat)
    requires Inv(s) && MutexHeld(s) && s.inflightMutex.Relocked? && Runs(s, run)
    ensures SameStage(s, After(s, run)) && !After(s, run).phase.Closed?
    ensures Abandoned(s, id) ==> Abandoned(After(s, run), id)
    decreases |run|
  {
    hide Enabled, Next, LocalAt, Abandoned;
    if run != [] {
      assert LocalAt(s, id);
      StepKeepsInv(s, run[0]);
      StepKeepsMutexHeld(s, run[0]);
      StepKeepsRelocked(s, run[0]);
      if Abandoned(s, id) {
        StepKeepsAbandoned(s, run[0], id);
      }
      RelockedForEver(Next(s, run[0]), run[1..], id);
    }
  }

  /** A dispatch that passes the RUNNING check before `Shutdown` and is counted during the
      bounded wait is enough. */
  lemma ALateDispatchRelocks()
    ensures exists s: State :: Reachable(s) && s.inflightMutex.Relocked?
  {
    hide Reachable, Runs, After;
    var s := ShutdownRunsPastACaller();
    s := TheCallerPushesThen(s);
    SecondPassEndsExactly(s);
    var begun := ShutDown(s, BeginCancel);
    StepIsReachable(s, ShuttingDown(BeginCancel));
    var run :| Alone(run) && Runs(begun, run) && After(begun, run).inflightMutex.Relocked?;
    RunIsReachable(begun, run);
  }
}
