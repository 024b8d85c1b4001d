/** The TSFN dispatcher as a transition system, composed with the `replied` flag of each
    request context. One action is one critical section or one atomic operation of one
    thread, so a sequence of enabled actions is an interleaving of any number of
    dispatching FUSE threads, workers, the JavaScript thread and one shutting-down thread.

    Requests are named by the id that `next_request_id_` gave them.
  */
module DispatcherProtocol {
  import opened Basics

  /** Where the thread that called `DispatchCustom` for a request stands. */
  datatype CallerPc =
    | Unknown     // no such id yet
    | Allocated   // has an id, not yet in the pending map
    | Registered  // in the pending map, not yet pushed
    | Refused     // found the queue full, not yet erased from the pending map
    | Denied      // returned 0, still has to reply EAGAIN
    | Rejected    // replied EAGAIN
    | Pushed      // pushed, has not yet raised the in-flight count
    | Returned    // returned the id

  /** Where the queue entry of an accepted request stands. */
  datatype EntryPc =
    | NoEntry
    | Queued
    // held by a worker
    | InHand                // popped, its fate not yet decided
    | Faulted               // counted as an error, error callback still to run
    | Told                  // error callback has run, in-flight count still to be lowered
    | Retained              // given up by the worker, left behind in the pending map
    // handed to JavaScript
    | Posted                // waiting in the thread-safe function
    | JsRunning             // `callback_fn` is running
    | JsThrew               // it threw, error callback still to run
    | JsReturned(ok: bool)  // statistics still to be updated
    | JsCounted(ok: bool)   // still to be erased from the pending map
    | JsErased(ok: bool)    // in-flight count still to be lowered
    | Finished(ok: bool)
    // popped by the cancel pass of Shutdown
    | Sweeping              // error callback still to run
    | SweepTold             // in-flight count still to be lowered
    | Swept
    | Dropped               // discarded by the last, defensive clear

  datatype Phase =
    | Running
    | Stopping                                         // state_ left RUNNING, workers not yet joined
    | Joined                                           // workers joined
    | CancelQueue                                      // cancel pass, holding queue_mutex_
    | CancelPending(todo: set<nat>, told: set<nat>)    // cancel pass, holding pending_requests_mutex_
    | Waiting                                          // bounded wait for inflight_ == 0
    | Clearing                                         // queue cleared, pending map not yet
    | Closed

  /** `inflight_mtx_`, as far as `Shutdown` has to do with it. It holds the mutex during a second
      cancel pass, and locks it again when that pass takes the count from one to zero. */
  datatype InflightMutex =
    | Free        // the bounded wait is not over
    | Held        // second cancel pass
    | Relocked    // the pass waits for the mutex that it holds, for ever
    | Released    // the bounded wait is over

  /** Who sends a reply. */
  datatype Sender =
    | ByCaller     // the dispatching thread
    | ByWorker     // a worker, in an error callback
    | ByJs         // the JavaScript thread, in an error callback
    | ByCode       // the JavaScript code, at any time after `callback_fn` started
    | ByShutdown   // a cancel pass, in an error callback

  datatype State = State(
    phase: Phase,
    inflightMutex: InflightMutex,
    nextId: nat,
    entering: nat,                 // calls that passed the RUNNING check and have no id yet
    caller: map<nat, CallerPc>,
    entry: map<nat, EntryPc>,
    queue: set<nat>,               // callback_queue_
    pending: set<nat>,             // keys of pending_requests_
    inflight: int,
    maxQueue: nat,
    dispatched: nat,               // stats_.total_dispatched
    completed: nat,                // stats_.total_completed
    errors: nat,                   // stats_.total_errors
    forgotten: nat,                // what ResetStats has erased from dispatched + errors
    swept: set<nat>,               // pending entries that a cancel pass has dealt with
    cleared: bool,                 // the pending map has been cleared at least once
    replied: set<nat>,             // contexts whose flag is set
    replying: map<nat, Sender>,    // flag won, kernel reply not yet sent
    replies: multiset<nat>,        // replies sent to the kernel
    callbackRuns: multiset<nat>,   // starts of callback_fn
    errorRuns: multiset<nat>)      // starts of error_callback

  function Init(maxQueue: nat): State {
    State(Running, Free, 1, 0, map[], map[], {}, {}, 0, maxQueue, 0, 0, 0, 0, {}, false,
          {}, map[], multiset{}, multiset{}, multiset{})
  }

  /** A dispatching thread. */
  datatype DispatchStep = Enter | LeaveRefused | Allocate | Register | Push | CountIn | FindFull | EraseRefused | Deny

  /** A worker thread. */
  datatype WorkStep = Pop | Post | Fault | Tell | FaultDone

  /** The JavaScript thread. */
  datatype JsStep = Start | Return | Throw | Catch | Count | Erase | Done

  /** Any thread that holds a context: a reply of the JavaScript code once `callback_fn` has
      started, or the kernel reply of whoever won the flag. */
  datatype ReplyStep = LateReply | SendReply

  /** The thread that calls `Shutdown`, from stage to stage. */
  datatype ShutdownStep = Begin | Join | BeginCancel | EndQueuePass | EndPendingPass | EndWait | ClearQueue | ClearPending

  /** Its two cancel loops: pop a queued entry, run its error callback, lower the count; then
      the error callback and the count for a pending entry. */
  datatype CancelStep = CancelPop | CancelTell | CancelDone | SweepTell | SweepDone

  datatype ConfigStep = SetMaxQueueSize(n: nat) | ResetStats

  datatype Action =
    | Dispatching(dispatch: DispatchStep, id: nat)
    | Working(work: WorkStep, id: nat)
    | InJs(js: JsStep, id: nat)
    | Replying(reply: ReplyStep, id: nat)
    | Cancelling(cancel: CancelStep, id: nat)
    | ShuttingDown(shutdown: ShutdownStep)
    | Configuring(config: ConfigStep)

  // ---------- The step function ----------

  predicate At(s: State, id: nat, pc: EntryPc) {
    id in s.entry && s.entry[id] == pc
  }

  predicate CallerAt(s: State, id: nat, pc: CallerPc) {
    id in s.caller && s.caller[id] == pc
  }

  predicate WorkerHolds(pc: EntryPc) {
    pc.InHand? || pc.Faulted? || pc.Told?
  }

  predicate SweepHolds(pc: EntryPc) {
    pc.Sweeping? || pc.SweepTold?
  }

  predicate WorkersAlive(p: Phase) {
    p.Running? || p.Stopping?
  }

  predicate BeforeCancel(p: Phase) {
    p.Running? || p.Stopping? || p.Joined?
  }

  function MoveEntry(s: State, id: nat, pc: EntryPc): State {
    s.(entry := s.entry[id := pc])
  }

  function MoveCaller(s: State, id: nat, pc: CallerPc): State {
    s.(caller := s.caller[id := pc])
  }

  /** The compare-and-swap of `TryMarkReplied`: only the first caller goes on to reply. */
  function TryMark(s: State, id: nat, who: Sender): State {
    if id in s.replied then s
    else s.(replied := s.replied + {id}, replying := s.replying[id := who])
  }

  /** One run of `error_callback`, which replies unless a reply was already begun. The thread
      that runs it goes on only after that reply. */
  function RunErrorCallback(s: State, id: nat, who: Sender): State {
    TryMark(s.(errorRuns := s.errorRuns + multiset{id}), id, who)
  }

  predicate Sending(s: State, id: nat, who: Sender) {
    id in s.replying && s.replying[id] == who
  }

  predicate CanDispatch(s: State, d: DispatchStep, id: nat) {
    match d
    case Enter => s.phase.Running?
    case LeaveRefused => s.entering > 0 && !s.phase.Running?
    case Allocate => s.entering > 0 && id == s.nextId
    case Register => CallerAt(s, id, Allocated) && !s.phase.CancelPending?
    case Push => CallerAt(s, id, Registered) && !s.phase.CancelQueue? && (s.maxQueue == 0 || |s.queue| < s.maxQueue)
    case CountIn => CallerAt(s, id, Pushed)
    case FindFull => CallerAt(s, id, Registered) && !s.phase.CancelQueue? && 0 < s.maxQueue <= |s.queue|
    case EraseRefused => CallerAt(s, id, Refused) && !s.phase.CancelPending?
    case Deny => CallerAt(s, id, Denied)
  }

  function Dispatched(s: State, d: DispatchStep, id: nat): State
    requires CanDispatch(s, d, id)
  {
    match d
    case Enter => s.(entering := s.entering + 1)
    case LeaveRefused => s.(entering := s.entering - 1)
    case Allocate => MoveCaller(s, id, Allocated).(entering := s.entering - 1, nextId := s.nextId + 1)
    case Register => MoveCaller(s, id, Registered).(pending := s.pending + {id})
    case Push => MoveEntry(MoveCaller(s, id, Pushed), id, Queued).(queue := s.queue + {id})
    case CountIn => MoveCaller(s, id, Returned).(inflight := s.inflight + 1)
    case FindFull => MoveCaller(s, id, Refused)
    case EraseRefused => MoveCaller(s, id, Denied).(pending := s.pending - {id})
    case Deny => TryMark(MoveCaller(s, id, Rejected), id, ByCaller)
  }

  predicate CanWork(s: State, w: WorkStep, id: nat) {
    match w
    case Pop => WorkersAlive(s.phase) && id in s.queue && id in s.entry
    case Post => At(s, id, InHand)
    case Fault => At(s, id, InHand)
    case Tell => At(s, id, Faulted) && !s.phase.CancelPending?
    case FaultDone => At(s, id, Told) && !Sending(s, id, ByWorker)
  }

  function Worked(s: State, w: WorkStep, id: nat): State
    requires CanWork(s, w, id)
  {
    match w
    case Pop => MoveEntry(s, id, InHand).(queue := s.queue - {id})
    case Post => MoveEntry(s, id, Posted)
    case Fault => MoveEntry(s, id, Faulted).(errors := s.errors + 1)
    case Tell =>
      if id in s.pending then RunErrorCallback(MoveEntry(s, id, Told), id, ByWorker) else MoveEntry(s, id, Told)
    case FaultDone => MoveEntry(s, id, Retained).(inflight := s.inflight - 1)
  }

  predicate CanRunJs(s: State, j: JsStep, id: nat) {
    && id in s.entry
    && match j
       case Start => s.entry[id].Posted?
       case Return => s.entry[id].JsRunning?
       case Throw => s.entry[id].JsRunning?
       case Catch => s.entry[id].JsThrew?
       case Count => s.entry[id].JsReturned? && !Sending(s, id, ByJs)
       case Erase => s.entry[id].JsCounted? && !s.phase.CancelPending?
       case Done => s.entry[id].JsErased?
  }

  function JsRan(s: State, j: JsStep, id: nat): State
    requires CanRunJs(s, j, id)
  {
    match j
    case Start => MoveEntry(s, id, JsRunning).(callbackRuns := s.callbackRuns + multiset{id})
    case Return => MoveEntry(s, id, JsReturned(true))
    case Throw => MoveEntry(s, id, JsThrew)
    case Catch => RunErrorCallback(MoveEntry(s, id, JsReturned(false)), id, ByJs)
    case Count =>
      MoveEntry(s, id, JsCounted(s.entry[id].ok)).(
        dispatched := s.dispatched + 1,
        completed := s.completed + if s.entry[id].ok then 1 else 0)
    case Erase => MoveEntry(s, id, JsErased(s.entry[id].ok)).(pending := s.pending - {id})
    case Done => MoveEntry(s, id, Finished(s.entry[id].ok)).(inflight := s.inflight - 1)
  }

  predicate CanReply(s: State, r: ReplyStep, id: nat) {
    match r
    case LateReply => s.callbackRuns[id] > 0
    case SendReply => id in s.replying
  }

  function Replied(s: State, r: ReplyStep, id: nat): State
    requires CanReply(s, r, id)
  {
    match r
    case LateReply => TryMark(s, id, ByCode)
    case SendReply => s.(replying := s.replying - {id}, replies := s.replies + multiset{id})
  }

  /** No entry is held by a worker. */
  predicate WorkersIdle(s: State) {
    forall id :: id in s.entry ==> !WorkerHolds(s.entry[id])
  }

  predicate SweepIdle(s: State) {
    forall id :: id in s.entry ==> !SweepHolds(s.entry[id])
  }

  predicate CanCancel(s: State, c: CancelStep, id: nat) {
    && !s.inflightMutex.Relocked?
    && match c
       case CancelPop => s.phase.CancelQueue? && id in s.queue && id in s.entry
       case CancelTell => At(s, id, Sweeping)
       case CancelDone => At(s, id, SweepTold) && !Sending(s, id, ByShutdown)
       case SweepTell => s.phase.CancelPending? && id in s.phase.todo
       case SweepDone => s.phase.CancelPending? && id in s.phase.told && !Sending(s, id, ByShutdown)
  }

  /** `DecInflight` in a cancel pass: a decrement from one to zero locks `inflight_mtx_`. */
  function LoweredInPass(s: State): State {
    s.(inflight := s.inflight - 1,
       inflightMutex := if s.inflightMutex.Held? && s.inflight == 1 then Relocked else s.inflightMutex)
  }

  function Cancelled(s: State, c: CancelStep, id: nat): State
    requires CanCancel(s, c, id)
  {
    match c
    case CancelPop => MoveEntry(s, id, Sweeping).(queue := s.queue - {id})
    case CancelTell => RunErrorCallback(MoveEntry(s, id, SweepTold), id, ByShutdown)
    case CancelDone => MoveEntry(LoweredInPass(s), id, Swept)
    case SweepTell =>
      RunErrorCallback(s.(phase := CancelPending(s.phase.todo - {id}, s.phase.told + {id})), id, ByShutdown)
    case SweepDone =>
      LoweredInPass(s).(phase := CancelPending(s.phase.todo, s.phase.told - {id}), swept := s.swept + {id})
  }

  predicate CanShutDown(s: State, d: ShutdownStep) {
    && !s.inflightMutex.Relocked?
    && match d
       case Begin => s.phase.Running?
       case Join => s.phase.Stopping? && WorkersIdle(s)
       case BeginCancel => s.phase.Joined? || (s.phase.Waiting? && s.inflightMutex.Free? && s.inflight != 0)
       case EndQueuePass => s.phase.CancelQueue? && s.queue == {} && SweepIdle(s)
       case EndPendingPass => s.phase.CancelPending? && s.phase.todo == {} && s.phase.told == {}
       case EndWait => s.phase.Waiting? && s.inflightMutex.Free? && s.inflight == 0
       case ClearQueue => s.phase.Waiting? && s.inflightMutex.Released?
       case ClearPending => s.phase.Clearing?
  }

  function ShutDown(s: State, d: ShutdownStep): State
    requires CanShutDown(s, d)
  {
    match d
    case Begin => s.(phase := Stopping)
    case Join => s.(phase := Joined)
    case BeginCancel => s.(phase := CancelQueue, inflightMutex := if s.phase.Waiting? then Held else s.inflightMutex)
    case EndQueuePass => s.(phase := CancelPending(s.pending, {}))
    case EndPendingPass =>
      s.(phase := Waiting, pending := {}, cleared := true,
         inflightMutex := if s.inflightMutex.Held? then Released else s.inflightMutex)
    case EndWait => s.(inflightMutex := Released)
    case ClearQueue => s.(phase := Clearing, queue := {}, entry := WithoutQueued(s.entry))
    case ClearPending => s.(phase := Closed, pending := {}, cleared := true)
  }

  function WithoutQueued(m: map<nat, EntryPc>): map<nat, EntryPc> {
    map id | id in m :: if m[id].Queued? then Dropped else m[id]
  }

  function Configured(s: State, c: ConfigStep): State {
    match c
    case SetMaxQueueSize(n) => s.(maxQueue := n)
    case ResetStats =>
      s.(forgotten := s.forgotten + s.dispatched + s.errors, dispatched := 0, completed := 0, errors := 0)
  }

  /** What the threads' program counters, guards and locks allow. */
  predicate Enabled(s: State, a: Action) {
    match a
    case Dispatching(d, id) => CanDispatch(s, d, id)
    case Working(w, id) => CanWork(s, w, id)
    case InJs(j, id) => CanRunJs(s, j, id)
    case Replying(r, id) => CanReply(s, r, id)
    case Cancelling(c, id) => CanCancel(s, c, id)
    case ShuttingDown(d) => CanShutDown(s, d)
    case Configuring(_) => true
  }

  function Next(s: State, a: Action): State
    requires Enabled(s, a)
  {
    match a
    case Dispatching(d, id) => Dispatched(s, d, id)
    case Working(w, id) => Worked(s, w, id)
    case InJs(j, id) => JsRan(s, j, id)
    case Replying(r, id) => Replied(s, r, id)
    case Cancelling(c, id) => Cancelled(s, c, id)
    case ShuttingDown(d) => ShutDown(s, d)
    case Configuring(c) => Configured(s, c)
  }

  // ---------- Runs ----------

  /** The actions are enabled one after the other. */
  predicate Runs(s: State, run: seq<Action>)
    decreases |run|
  {
    run == [] || (Enabled(s, run[0]) && Runs(Next(s, run[0]), run[1..]))
  }

  function After(s: State, run: seq<Action>): State
    requires Runs(s, run)
    decreases |run|
  {
    if run == [] then s else After(Next(s, run[0]), run[1..])
  }

  // ---------- What every reachable state says about one id ----------

  /** Everything the state says about one id. */
  datatype Cell = Cell(
    known: bool,                  // 1 <= id < nextId
    caller: CallerPc,
    entry: EntryPc,
    queued: bool,
    pending: bool,
    todo: bool,                   // the cancel pass has yet to deal with its pending entry
    told: bool,                   // ... has run its error callback
    swept: bool,                  // ... is done with it
    replied: bool,
    replying: Option<Sender>,
    replies: nat,
    callbackRuns: nat,
    errorRuns: nat)

  ghost function CellOf(s: State, id: nat): Cell {
    Cell(
      1 <= id < s.nextId,
      if id in s.caller then s.caller[id] else Unknown,
      if id in s.entry then s.entry[id] else NoEntry,
      id in s.queue,
      id in s.pending,
      s.phase.CancelPending? && id in s.phase.todo,
      s.phase.CancelPending? && id in s.phase.told,
      id in s.swept,
      id in s.replied,
      if id in s.replying then Some(s.replying[id]) else None,
      s.replies[id],
      s.callbackRuns[id],
      s.errorRuns[id])
  }

  /** Ids lie below the counter; an entry exists exactly for an accepted request; the queue
      holds exactly the entries that nobody has popped. */
  predicate Shape(c: Cell) {
    && (!c.caller.Unknown? <==> c.known)
    && (!c.entry.NoEntry? <==> c.caller == Pushed || c.caller == Returned)
    && (c.queued <==> c.entry == Queued)
  }

  /** Where a request is a key of the pending map, unless a cancel pass cleared it. */
  predicate Registrable(c: Cell) {
    || c.caller == Registered
    || c.caller == Refused
    || (!c.entry.NoEntry? && !c.entry.JsErased? && !c.entry.Finished?)
  }

  predicate PendingKey(c: Cell, p: Phase, cleared: bool) {
    && (c.pending ==> Registrable(c))
    && (!cleared && Registrable(c) ==> c.pending)
    && (cleared ==> !BeforeCancel(p))
    && (p.Waiting? || p.Clearing? || p.Closed? ==> cleared)
  }

  /** Who may hold an entry in which phase. */
  predicate Holder(c: Cell, p: Phase) {
    !c.entry.NoEntry? ==>
      && (WorkerHolds(c.entry) ==> WorkersAlive(p))
      && (SweepHolds(c.entry) ==> p.CancelQueue?)
      && (c.entry.Swept? || c.entry.Dropped? ==> !BeforeCancel(p))
  }

  /** A cancel pass deals with each key of the pending map once, and no key comes back. */
  predicate SweptOnce(c: Cell, p: Phase) {
    && (c.swept ==> !c.caller.Unknown? && !c.caller.Allocated? && !BeforeCancel(p))
    && !(c.todo && c.told)
    && (c.todo || c.told ==> c.pending && !c.swept)
    && (p.CancelPending? && c.pending ==> c.todo || c.told || c.swept)
    && (!p.CancelPending? ==> !(c.pending && c.swept) && !c.todo && !c.told)
  }

  /** The error callback has run on the entry's own path (worker, JavaScript or queue sweep). */
  predicate ToldItself(pc: EntryPc) {
    match pc
    case Told => true
    case Retained => true
    case JsReturned(ok) => !ok
    case JsCounted(ok) => !ok
    case JsErased(ok) => !ok
    case Finished(ok) => !ok
    case SweepTold => true
    case Swept => true
    case _ => false
  }

  /** `callback_fn` has started. */
  predicate Started(pc: EntryPc) {
    pc.JsRunning? || pc.JsThrew? || pc.JsReturned? || pc.JsCounted? || pc.JsErased? || pc.Finished?
  }

  /** How often each callback has run, exactly. */
  predicate CallbackCount(c: Cell) {
    && c.callbackRuns == (if Started(c.entry) then 1 else 0)
    && c.errorRuns == (if c.told || c.swept
                       then if ToldItself(c.entry) then 2 else 1
                       else if ToldItself(c.entry) then 1 else 0)
  }

  /** A set flag is one kernel reply, sent or about to be sent. */
  predicate OneReplyPerFlag(c: Cell) {
    if !c.replied then c.replying.None? && c.replies == 0
    else c.replies == if c.replying.Some? then 0 else 1
  }

  /** Where each sender stands until it has sent its reply. */
  predicate SenderStands(c: Cell) {
    c.replying.Some? ==>
      match c.replying.value
      case ByCaller => c.caller.Rejected? && !c.told && !c.swept
      case ByWorker => c.entry.Told?
      case ByJs => c.entry == JsReturned(false)
      case ByCode => c.callbackRuns > 0
      case ByShutdown => (c.told || c.entry.SweepTold?) && !c.swept
  }

  /** Every error callback and every refusal has answered its request. */
  predicate Answered(c: Cell) {
    && (ToldItself(c.entry) ==> c.replied)
    && (c.told || c.swept ==> c.replied)
    && (c.caller == Rejected ==> c.replied)
  }

  /** Where the request is. */
  predicate Placed(c: Cell, p: Phase, cleared: bool) {
    Shape(c) && PendingKey(c, p, cleared) && Holder(c, p) && SweptOnce(c, p)
  }

  /** What has been done about it. */
  predicate Handled(c: Cell) {
    CallbackCount(c) && OneReplyPerFlag(c) && Answered(c) && SenderStands(c)
  }

  predicate Local(c: Cell, p: Phase, cleared: bool) {
    Placed(c, p, cleared) && Handled(c)
  }

  /** `Unknown` and `NoEntry` only stand for absence. */
  predicate Proper(s: State, id: nat) {
    s.nextId >= 1 && (id in s.caller ==> !s.caller[id].Unknown?) && (id in s.entry ==> !s.entry[id].NoEntry?)
  }

  ghost predicate LocalAt(s: State, id: nat) {
    Proper(s, id) && Local(CellOf(s, id), s.phase, s.cleared)
  }
}
