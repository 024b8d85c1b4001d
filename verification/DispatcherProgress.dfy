/** The running dispatcher never gets stuck: whatever has been accepted can move on, and once
    nobody enters any more, all of it is settled after a bounded number of steps.
  */
module DispatcherProgress {
  import opened DispatcherProtocol
  import opened DispatcherSafety
  import opened DispatcherTheorems
  import opened Basics

  /** The action does something, and is nobody's decision to start, stop or reconfigure. */
  predicate Productive(s: State, a: Action) {
    match a
    case Dispatching(d, _) => !d.Enter?
    case Working(_, _) => true
    case InJs(_, _) => true
    case Replying(r, id) => r.SendReply? || id !in s.replied
    case Cancelling(_, _) => true
    case ShuttingDown(_) => false
    case Configuring(_) => false
  }

  /** Nobody enters, and nobody calls `Shutdown`. */
  predicate Undisturbed(a: Action) {
    !a.ShuttingDown? && !(a.Dispatching? && a.dispatch.Enter?)
  }

  // ---------- The work that is left ----------

  function CallerWork(pc: CallerPc): nat {
    match pc
    case Allocated => 12
    case Registered => 11
    case Refused => 2
    case Denied => 1
    case Pushed => 1
    case _ => 0
  }

  function EntryWork(pc: EntryPc): nat {
    match pc
    case Queued => 8
    case InHand => 7
    case Posted => 6
    case JsRunning => 5
    case JsThrew => 4
    case JsReturned(_) => 3
    case JsCounted(_) => 2
    case JsErased(_) => 1
    case Faulted => 2
    case Told => 1
    case _ => 0
  }

  function ReplyWork(c: Cell): nat {
    if !c.replied then 2 else if c.replying.Some? then 1 else 0
  }

  function CellWork(c: Cell): nat {
    CallerWork(c.caller) + EntryWork(c.entry) + ReplyWork(c)
  }

  /** Over the requests with smaller ids. */
  ghost function WorkBelow(s: State, n: nat): nat {
    if n == 0 then 0 else WorkBelow(s, n - 1) + CellWork(CellOf(s, n - 1))
  }

  ghost function Work(s: State): nat {
    20 * s.entering + WorkBelow(s, s.nextId)
  }

  lemma {:induction false} SameWork(s: State, t: State, n: nat)
    requires forall i: nat :: i < n ==> CellOf(t, i) == CellOf(s, i)
    ensures WorkBelow(t, n) == WorkBelow(s, n)
  {
    hide CellOf;
    if n > 0 {
      SameWork(s, t, n - 1);
    }
  }

  /** Where one request moves. */
  lemma {:induction false} WorkMoves(s: State, t: State, id: nat, n: nat)
    requires id < n && forall i: nat :: i < n && i != id ==> CellOf(t, i) == CellOf(s, i)
    ensures WorkBelow(t, n) - WorkBelow(s, n) == CellWork(CellOf(t, id)) - CellWork(CellOf(s, id))
  {
    hide CellOf, CellWork;
    if id == n - 1 {
      SameWork(s, t, n - 1);
    } else {
      WorkMoves(s, t, id, n - 1);
    }
  }

  // ---------- Each productive action does some of it ----------

  lemma DenyWorks(s: State, id: nat)
    requires LocalAt(s, id) && CanDispatch(s, Deny, id)
    ensures CellWork(CellOf(Dispatched(s, Deny, id), id)) < CellWork(CellOf(s, id))
    ensures id < s.nextId && Dispatched(s, Deny, id).nextId == s.nextId && Dispatched(s, Deny, id).entering == s.entering
  {
    assert Shape(CellOf(s, id));
  }

  lemma PushWorks(s: State, id: nat)
    requires LocalAt(s, id) && CanDispatch(s, DispatchStep.Push, id)
    ensures CellWork(CellOf(Dispatched(s, DispatchStep.Push, id), id)) < CellWork(CellOf(s, id))
    ensures id < s.nextId && Dispatched(s, DispatchStep.Push, id).nextId == s.nextId
    ensures Dispatched(s, DispatchStep.Push, id).entering == s.entering
  {
    assert Shape(CellOf(s, id));
  }

  lemma DispatchWorks(s: State, d: DispatchStep, id: nat)
    requires LocalAt(s, id) && CanDispatch(s, d, id)
    requires d.Register? || d.CountIn? || d.FindFull? || d.EraseRefused?
    ensures CellWork(CellOf(Dispatched(s, d, id), id)) < CellWork(CellOf(s, id))
    ensures id < s.nextId && Dispatched(s, d, id).nextId == s.nextId && Dispatched(s, d, id).entering == s.entering
  {
    assert Shape(CellOf(s, id));
  }

  lemma WorkerWorks(s: State, w: WorkStep, id: nat)
    requires LocalAt(s, id) && CanWork(s, w, id)
    ensures CellWork(CellOf(Worked(s, w, id), id)) < CellWork(CellOf(s, id))
    ensures id < s.nextId && Worked(s, w, id).nextId == s.nextId && Worked(s, w, id).entering == s.entering
  {
    assert Shape(CellOf(s, id));
  }

  lemma CatchWorks(s: State, id: nat)
    requires LocalAt(s, id) && CanRunJs(s, Catch, id)
    ensures CellWork(CellOf(JsRan(s, Catch, id), id)) < CellWork(CellOf(s, id))
    ensures id < s.nextId && JsRan(s, Catch, id).nextId == s.nextId && JsRan(s, Catch, id).entering == s.entering
  {
    assert Shape(CellOf(s, id));
  }

  lemma CountWorks(s: State, id: nat)
    requires LocalAt(s, id) && CanRunJs(s, Count, id)
    ensures CellWork(CellOf(JsRan(s, Count, id), id)) < CellWork(CellOf(s, id))
    ensures id < s.nextId && JsRan(s, Count, id).nextId == s.nextId && JsRan(s, Count, id).entering == s.entering
  {
    assert Shape(CellOf(s, id));
  }

  lemma EraseCell(s: State, id: nat)
    requires CanRunJs(s, Erase, id)
    ensures var t := JsRan(s, Erase, id);
            && CellOf(t, id) == CellOf(s, id).(entry := JsErased(s.entry[id].ok), pending := false)
            && s.entry[id].JsCounted? && t.nextId == s.nextId && t.entering == s.entering
  {
  }

  lemma DoneCell(s: State, id: nat)
    requires CanRunJs(s, Done, id)
    ensures var t := JsRan(s, Done, id);
            && CellOf(t, id) == CellOf(s, id).(entry := Finished(s.entry[id].ok))
            && s.entry[id].JsErased? && t.nextId == s.nextId && t.entering == s.entering
  {
  }

  lemma HasEntry(s: State, id: nat)
    requires LocalAt(s, id) && id in s.entry
    ensures CellOf(s, id).entry == s.entry[id] && id < s.nextId
  {
    assert Shape(CellOf(s, id));
  }

  lemma JsEndWorks(s: State, j: JsStep, id: nat)
    requires LocalAt(s, id) && CanRunJs(s, j, id)
    requires j.Erase? || j.Done?
    ensures CellWork(CellOf(JsRan(s, j, id), id)) < CellWork(CellOf(s, id))
    ensures id < s.nextId && JsRan(s, j, id).nextId == s.nextId && JsRan(s, j, id).entering == s.entering
  {
    assert id in s.entry;
    hide JsRan, CanRunJs, CellOf, LocalAt;
    HasEntry(s, id);
    if j.Erase? {
      EraseCell(s, id);
    } else {
      DoneCell(s, id);
    }
  }

  lemma JsCallWorks(s: State, j: JsStep, id: nat)
    requires LocalAt(s, id) && CanRunJs(s, j, id)
    requires j.Start? || j.Return? || j.Throw?
    ensures CellWork(CellOf(JsRan(s, j, id), id)) < CellWork(CellOf(s, id))
    ensures id < s.nextId && JsRan(s, j, id).nextId == s.nextId && JsRan(s, j, id).entering == s.entering
  {
    assert Shape(CellOf(s, id));
  }

  lemma ReplyWorks(s: State, r: ReplyStep, id: nat)
    requires LocalAt(s, id) && CanReply(s, r, id)
    ensures var t := Replied(s, r, id);
            if r.SendReply? || id !in s.replied then CellWork(CellOf(t, id)) < CellWork(CellOf(s, id)) else t == s
    ensures id < s.nextId && Replied(s, r, id).nextId == s.nextId && Replied(s, r, id).entering == s.entering
  {
    var c := CellOf(s, id);
    assert Shape(c) && CallbackCount(c) && OneReplyPerFlag(c) && SenderStands(c) && SweptOnce(c, s.phase);
  }

  lemma NewCell(s: State)
    requires LocalAt(s, s.nextId) && CanDispatch(s, Allocate, s.nextId)
    ensures var t := Dispatched(s, Allocate, s.nextId);
            t.nextId == s.nextId + 1 && t.entering == s.entering - 1 && CellWork(CellOf(t, s.nextId)) <= 14
  {
    assert Shape(CellOf(s, s.nextId));
  }

  lemma AllocateWorks(s: State)
    requires Inv(s) && CanDispatch(s, Allocate, s.nextId)
    ensures Work(Dispatched(s, Allocate, s.nextId)) < Work(s)
  {
    hide Dispatched, CanDispatch, CellOf, CellWork, LocalAt;
    assert LocalAt(s, s.nextId);
    NewCell(s);
    var t := Dispatched(s, Allocate, s.nextId);
    forall i: nat | i < s.nextId
      ensures CellOf(t, i) == CellOf(s, i)
    {
      DispatchFrame(s, Allocate, s.nextId, i);
    }
    SameWork(s, t, s.nextId);
    assert WorkBelow(t, t.nextId) == WorkBelow(t, s.nextId) + CellWork(CellOf(t, s.nextId));
  }

  /** What a step of one request, in `t`, does to all of the work. */
  lemma OneRequestWorks(s: State, t: State, id: nat)
    requires id < s.nextId && t.nextId == s.nextId && t.entering == s.entering
    requires forall i: nat :: i != id ==> CellOf(t, i) == CellOf(s, i)
    ensures Work(t) - Work(s) == CellWork(CellOf(t, id)) - CellWork(CellOf(s, id))
  {
    WorkMoves(s, t, id, s.nextId);
  }

  lemma DispatchStepWorks(s: State, d: DispatchStep, id: nat)
    requires Inv(s) && s.phase.Running? && CanDispatch(s, d, id) && !d.Enter?
    ensures Work(Dispatched(s, d, id)) < Work(s)
  {
    hide Dispatched, CellOf, CellWork, Work, LocalAt;
    if d.Allocate? {
      AllocateWorks(s);
    } else {
      assert LocalAt(s, id);
      match d {
        case Deny => DenyWorks(s, id);
        case Push => PushWorks(s, id);
        case _ => DispatchWorks(s, d, id);
      }
      forall i: nat | i != id
        ensures CellOf(Dispatched(s, d, id), i) == CellOf(s, i)
      {
        DispatchFrame(s, d, id, i);
      }
      OneRequestWorks(s, Dispatched(s, d, id), id);
    }
  }

  lemma WorkStepWorks(s: State, w: WorkStep, id: nat)
    requires Inv(s) && CanWork(s, w, id)
    ensures Work(Worked(s, w, id)) < Work(s)
  {
    hide Worked, CanWork, CellOf, CellWork, Work, LocalAt;
    assert LocalAt(s, id);
    WorkerWorks(s, w, id);
    forall i: nat | i != id
      ensures CellOf(Worked(s, w, id), i) == CellOf(s, i)
    {
      WorkFrame(s, w, id, i);
    }
    OneRequestWorks(s, Worked(s, w, id), id);
  }

  lemma JsStepWorks(s: State, j: JsStep, id: nat)
    requires Inv(s) && CanRunJs(s, j, id)
    ensures Work(JsRan(s, j, id)) < Work(s)
  {
    hide JsRan, CanRunJs, CellOf, CellWork, Work, LocalAt;
    assert LocalAt(s, id);
    if j.Catch? {
      CatchWorks(s, id);
    } else if j.Count? {
      CountWorks(s, id);
    } else if j.Erase? || j.Done? {
      JsEndWorks(s, j, id);
    } else {
      JsCallWorks(s, j, id);
    }
    forall i: nat | i != id
      ensures CellOf(JsRan(s, j, id), i) == CellOf(s, i)
    {
      JsFrame(s, j, id, i);
    }
    OneRequestWorks(s, JsRan(s, j, id), id);
  }

  lemma ReplyStepWorks(s: State, r: ReplyStep, id: nat)
    requires Inv(s) && CanReply(s, r, id)
    ensures if r.SendReply? || id !in s.replied then Work(Replied(s, r, id)) < Work(s) else Replied(s, r, id) == s
  {
    hide Replied, CanReply, CellOf, CellWork, Work, LocalAt;
    assert LocalAt(s, id);
    ReplyWorks(s, r, id);
    forall i: nat | i != id
      ensures CellOf(Replied(s, r, id), i) == CellOf(s, i)
    {
      ReplyFrame(s, r, id, i);
    }
    OneRequestWorks(s, Replied(s, r, id), id);
  }

  lemma ConfigWorks(s: State, c: ConfigStep)
    ensures Work(Configured(s, c)) == Work(s)
  {
    forall i: nat
      ensures CellOf(Configured(s, c), i) == CellOf(s, i)
    {
    }
    SameWork(s, Configured(s, c), s.nextId);
  }

  lemma NoCancelWhileRunning(s: State, c: CancelStep, id: nat)
    requires LocalAt(s, id) && s.phase.Running?
    ensures !CanCancel(s, c, id)
  {
    assert Holder(CellOf(s, id), s.phase);
  }

  /** While the dispatcher runs and nobody enters, every productive action lowers the work, and
      no other action raises it. */
  lemma StepWorks(s: State, a: Action)
    requires Inv(s) && s.phase.Running? && Enabled(s, a) && Undisturbed(a)
    ensures Next(s, a).phase.Running?
    ensures if Productive(s, a) then Work(Next(s, a)) < Work(s) else Work(Next(s, a)) == Work(s)
  {
    hide Dispatched, Worked, JsRan, Replied, Cancelled, Configured, CanDispatch, CanWork, CanRunJs, CanReply, CanCancel, Work, LocalAt;
    match a
    case Dispatching(d, id) => DispatchStepWorks(s, d, id); OthersKeepStage(s, a);
    case Working(w, id) => WorkStepWorks(s, w, id); OthersKeepStage(s, a);
    case InJs(j, id) => JsStepWorks(s, j, id); OthersKeepStage(s, a);
    case Replying(r, id) => ReplyStepWorks(s, r, id); OthersKeepStage(s, a);
    case Cancelling(c, id) => assert LocalAt(s, id); NoCancelWhileRunning(s, c, id);
    case Configuring(c) => ConfigWorks(s, c); OthersKeepStage(s, a);
  }

  // ---------- Whatever is not settled can move ----------

  /** The next step of an accepted request, by a worker, in JavaScript, or a reply on its way. */
  function NextStep(s: State, id: nat): Action
    requires id in s.entry
  {
    match s.entry[id]
    case Queued => Working(WorkStep.Pop, id)
    case InHand => Working(Post, id)
    case Faulted => Working(Tell, id)
    case Told => if Sending(s, id, ByWorker) then Replying(SendReply, id) else Working(FaultDone, id)
    case Posted => InJs(Start, id)
    case JsRunning => InJs(Return, id)
    case JsThrew => InJs(Catch, id)
    case JsReturned(_) => if Sending(s, id, ByJs) then Replying(SendReply, id) else InJs(Count, id)
    case JsCounted(_) => InJs(Erase, id)
    case _ => InJs(Done, id)
  }

  /** An accepted request of a running dispatcher is settled, or can move on. */
  lemma UnsettledCanMove(s: State, id: nat)
    requires Reachable(s) && s.phase.Running? && id in s.entry && !Settled(s.entry[id])
    ensures Enabled(s, NextStep(s, id)) && Undisturbed(NextStep(s, id)) && Productive(s, NextStep(s, id))
  {
    ReachableInv(s);
    assert LocalAt(s, id);
    assert Shape(CellOf(s, id)) && Holder(CellOf(s, id), s.phase);
  }

  /** So can a caller that has not returned. */
  function NextCall(s: State, id: nat): Action
    requires id in s.caller
  {
    match s.caller[id]
    case Allocated => Dispatching(Register, id)
    case Registered => Dispatching(if 0 < s.maxQueue <= |s.queue| then FindFull else DispatchStep.Push, id)
    case Refused => Dispatching(EraseRefused, id)
    case Denied => Dispatching(Deny, id)
    case _ => Dispatching(CountIn, id)
  }

  lemma CallerCanMove(s: State, id: nat)
    requires LocalAt(s, id) && s.phase.Running? && id in s.caller && !s.caller[id].Returned? && !s.caller[id].Rejected?
    ensures Enabled(s, NextCall(s, id)) && Undisturbed(NextCall(s, id)) && Productive(s, NextCall(s, id))
  {
  }

  /** Nothing is left to do. */
  ghost predicate Drained(s: State) {
    && s.phase.Running?
    && s.entering == 0 && s.queue == {} && s.inflight == 0 && s.replying == map[]
    && (forall id :: id in s.caller ==> s.caller[id].Returned? || s.caller[id].Rejected?)
    && (forall id :: id in s.entry ==> Settled(s.entry[id]))
  }

  lemma NothingOwed(s: State)
    requires Inv(s) && s.phase.Running?
    requires forall id :: id in s.caller ==> s.caller[id].Returned? || s.caller[id].Rejected?
    requires forall id :: id in s.entry ==> Settled(s.entry[id])
    ensures s.queue == {} && s.inflight == 0
  {
    forall id: nat
      ensures id !in s.queue && id !in s.swept
    {
      assert LocalAt(s, id);
      assert Shape(CellOf(s, id)) && SweptOnce(CellOf(s, id), s.phase);
    }
    assert Having(s.entry, OwesDecrement) == {} && Having(s.caller, OwesIncrement) == {};
  }

  /** As long as anything is left, something productive is enabled. */
  lemma SomethingCanMove(s: State) returns (a: Action)
    requires Reachable(s) && s.phase.Running? && !Drained(s)
    ensures Enabled(s, a) && Undisturbed(a) && Productive(s, a)
  {
    ReachableInv(s);
    if id: nat :| id in s.entry && !Settled(s.entry[id]) {
      UnsettledCanMove(s, id);
      a := NextStep(s, id);
    } else if id: nat :| id in s.caller && !s.caller[id].Returned? && !s.caller[id].Rejected? {
      assert LocalAt(s, id);
      CallerCanMove(s, id);
      a := NextCall(s, id);
    } else if s.entering > 0 {
      a := Dispatching(Allocate, s.nextId);
    } else {
      hide Enabled, LocalAt, Having;
      NothingOwed(s);
      var id :| id in s.replying;
      a := Replying(SendReply, id);
      SendIsEnabled(s, id);
    }
  }

  lemma SendIsEnabled(s: State, id: nat)
    requires id in s.replying
    ensures Enabled(s, Replying(SendReply, id))
  {
  }

  // ---------- So it drains ----------

  /** How many actions of the run do something. */
  ghost function Productives(s: State, run: seq<Action>): nat
    requires Runs(s, run)
    decreases |run|
  {
    if run == [] then 0 else (if Productive(s, run[0]) then 1 else 0) + Productives(Next(s, run[0]), run[1..])
  }

  /** However the threads interleave, once nobody enters, only so many steps do anything. */
  lemma {:induction false} BoundedWork(s: State, run: seq<Action>)
    requires Inv(s) && s.phase.Running? && Runs(s, run) && forall a :: a in run ==> Undisturbed(a)
    ensures After(s, run).phase.Running?
    ensures Productives(s, run) + Work(After(s, run)) <= Work(s)
    decreases |run|
  {
    hide Enabled, Next, Work, Productive, Undisturbed;
    if run != [] {
      assert run[0] in run && forall a :: a in run[1..] ==> a in run;
      StepWorks(s, run[0]);
      StepKeepsInv(s, run[0]);
      BoundedWork(Next(s, run[0]), run[1..]);
    }
  }

  /** And a run that cannot be continued by such a step has settled everything: all callers have
      returned, the queue is empty, the count is zero, and every reply is sent. */
  lemma StoppedIsDrained(s: State, run: seq<Action>)
    requires Reachable(s) && s.phase.Running? && Runs(s, run) && forall a :: a in run ==> Undisturbed(a)
    ensures Drained(After(s, run)) || exists a :: Enabled(After(s, run), a) && Undisturbed(a) && Productive(After(s, run), a)
  {
    ReachableInv(s);
    RunIsReachable(s, run);
    BoundedWork(s, run);
    if !Drained(After(s, run)) {
      var a := SomethingCanMove(After(s, run));
    }
  }

  /** From every state of a running dispatcher some run that nobody enters drains it. */
  lemma {:induction false} CanDrain(s: State) returns (run: seq<Action>)
    requires Reachable(s) && s.phase.Running?
    ensures Runs(s, run) && (forall a :: a in run ==> Undisturbed(a)) && |run| <= Work(s) && Drained(After(s, run))
    decreases Work(s)
  {
    hide Reachable, Enabled, Next, Work, Productive, Undisturbed, Drained;
    if Drained(s) {
      run := [];
    } else {
      var a := SomethingCanMove(s);
      ReachableInv(s);
      StepWorks(s, a);
      StepIsReachable(s, a);
      var rest := CanDrain(Next(s, a));
      run := [a] + rest;
      assert run[1..] == rest;
    }
  }
}
