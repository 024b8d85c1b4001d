/** The dispatcher itself: one method for each critical section or atomic step of its threads,
    and whole calls made of them. The ghost field `model` is the state of the protocol; every
    step takes one action of the protocol, so any interleaving of the steps is one of its runs.
  */
module TSFNDispatcher {
  import opened PriorityHeap
  import opened RollingAverage
  import opened DispatcherProtocol
  import opened DispatcherSafety
  import Basics
  import Overtaking

  datatype Lifecycle = RUNNING | SHUTTING_DOWN | SHUTDOWN

  datatype DispatcherStats = DispatcherStats(
    totalDispatched: nat,
    totalCompleted: nat,
    totalErrors: nat,
    queueSize: nat,
    maxQueueSize: nat,
    average: real)

  const EIO := 5
  const EAGAIN := 11
  const EINVAL := 22
  const ENOSYS := 38

  /** What `ProcessRequest` finds in place of the global dispatcher. */
  datatype Lookup =
    | Found
    | Created          // there was none, but there is now
    | NoneForDestroy   // there is none, and the request is DESTROY
    | NoEnvironment    // there is none, and nothing to create one in
    | CreationFails

  const NO_STATS := DispatcherStats(0, 0, 0, 0, 0, 0.0)

  // ---------- The queue ----------

  /** The heap holds exactly the entries of `queued`, once each. */
  ghost predicate Indexed(c: seq<Slot<nat>>, queued: map<nat, Item<nat>>) {
    && |c| == |queued|
    && (forall id :: id in queued ==> queued[id].value == id)
    && (forall x: Slot<nat> ::
          multiset(c)[x] == if x.Full? && x.item.value in queued && queued[x.item.value] == x.item then 1 else 0)
  }

  lemma IndexedPush(c: seq<Slot<nat>>, queued: map<nat, Item<nat>>, d: seq<Slot<nat>>, x: Item<nat>)
    requires Indexed(c, queued) && x.value !in queued
    requires multiset(d) == multiset(c) + multiset{Full(x)} && |d| == |c| + 1
    ensures Indexed(d, queued[x.value := x])
  {
    assert queued[x.value := x].Keys == queued.Keys + {x.value};
    assert |queued[x.value := x]| == |queued[x.value := x].Keys|;
  }

  lemma IndexedPop(c: seq<Slot<nat>>, queued: map<nat, Item<nat>>, d: seq<Slot<nat>>)
    requires Indexed(c, queued) && c != [] && c[0].Full?
    requires multiset(d) == multiset(c) - multiset{c[0]} && |d| == |c| - 1
    ensures var id := c[0].item.value; id in queued && Indexed(d, queued - {id})
  {
    assert multiset(c)[c[0]] > 0;
    var id := c[0].item.value;
    assert (queued - {id}).Keys == queued.Keys - {id};
    assert |queued - {id}| == |(queued - {id}).Keys|;
  }

  // ---------- What of the protocol's state the fields show ----------

  datatype Shown = Shown(
    running: bool,
    queue: set<nat>,
    pending: set<nat>,
    nextId: nat,
    inflight: int,
    maxQueue: nat,
    dispatched: nat,
    completed: nat,
    errors: nat,
    replied: set<nat>)

  function Show(s: State): Shown {
    Shown(s.phase.Running?, s.queue, s.pending, s.nextId, s.inflight, s.maxQueue, s.dispatched, s.completed, s.errors, s.replied)
  }

  lemma DispatchShows(s: State, d: DispatchStep, id: nat)
    requires Enabled(s, Dispatching(d, id))
    ensures Show(Next(s, Dispatching(d, id))) ==
            match d
            case Allocate => Show(s).(nextId := Show(s).nextId + 1)
            case Register => Show(s).(pending := Show(s).pending + {id})
            case Push => Show(s).(queue := Show(s).queue + {id})
            case CountIn => Show(s).(inflight := Show(s).inflight + 1)
            case EraseRefused => Show(s).(pending := Show(s).pending - {id})
            case Deny => Show(s).(replied := Show(s).replied + {id})
            case _ => Show(s)
  {
  }

  lemma WorkShows(s: State, w: WorkStep, id: nat)
    requires Enabled(s, Working(w, id))
    ensures Show(Next(s, Working(w, id))) ==
            match w
            case Pop => Show(s).(queue := Show(s).queue - {id})
            case Fault => Show(s).(errors := Show(s).errors + 1)
            case Tell => if id in Show(s).pending then Show(s).(replied := Show(s).replied + {id}) else Show(s)
            case FaultDone => Show(s).(inflight := Show(s).inflight - 1)
            case _ => Show(s)
  {
  }

  lemma JsShows(s: State, j: JsStep, id: nat)
    requires Enabled(s, InJs(j, id))
    ensures Show(Next(s, InJs(j, id))) ==
            match j
            case Catch => Show(s).(replied := Show(s).replied + {id})
            case Count => Show(s).(dispatched := Show(s).dispatched + 1, completed := Show(s).completed + if s.entry[id].ok then 1 else 0)
            case Erase => Show(s).(pending := Show(s).pending - {id})
            case Done => Show(s).(inflight := Show(s).inflight - 1)
            case _ => Show(s)
  {
  }

  lemma CancelShows(s: State, c: CancelStep, id: nat)
    requires Enabled(s, Cancelling(c, id))
    ensures Show(Next(s, Cancelling(c, id))) ==
            match c
            case CancelPop => Show(s).(queue := Show(s).queue - {id})
            case CancelTell => Show(s).(replied := Show(s).replied + {id})
            case CancelDone => Show(s).(inflight := Show(s).inflight - 1)
            case SweepTell => Show(s).(replied := Show(s).replied + {id})
            case SweepDone => Show(s).(inflight := Show(s).inflight - 1)
  {
  }

  lemma ShutdownShows(s: State, d: ShutdownStep)
    requires Enabled(s, ShuttingDown(d))
    ensures Show(Next(s, ShuttingDown(d))) ==
            match d
            case Begin => Show(s).(running := false)
            case EndPendingPass => Show(s).(pending := {})
            case ClearQueue => Show(s).(queue := {})
            case ClearPending => Show(s).(pending := {})
            case _ => Show(s)
  {
  }

  lemma ReplyShows(s: State, r: ReplyStep, id: nat)
    requires Enabled(s, Replying(r, id))
    ensures Show(Next(s, Replying(r, id))) == if r.LateReply? then Show(s).(replied := Show(s).replied + {id}) else Show(s)
  {
  }

  // ---------- Runs of the protocol ----------

  /** Some run of the protocol leads from `s` to `t`. */
  ghost predicate Leads(s: State, t: State) {
    exists run :: Runs(s, run) && After(s, run) == t
  }

  lemma LeadsNowhere(s: State)
    ensures Leads(s, s)
  {
    assert Runs(s, []) && After(s, []) == s;
  }

  lemma LeadsOn(s: State, t: State, a: Action)
    requires Leads(s, t) && Enabled(t, a)
    ensures Leads(s, Next(t, a))
  {
    var run :| Runs(s, run) && After(s, run) == t;
    OneMoreStep(s, run, a);
    assert Runs(s, run + [a]);
  }

  lemma LeadsFurther(s: State, t: State, u: State)
    requires Leads(s, t) && Leads(t, u)
    ensures Leads(s, u)
  {
    var run :| Runs(s, run) && After(s, run) == t;
    var more :| Runs(t, more) && After(t, more) == u;
    RunsOn(s, run, more);
    assert Runs(s, run + more);
  }

  lemma {:induction false} RunsOn(s: State, run: seq<Action>, more: seq<Action>)
    requires Runs(s, run) && Runs(After(s, run), more)
    ensures Runs(s, run + more) && After(s, run + more) == After(After(s, run), more)
    decreases |run|
  {
    hide Next, Enabled;
    if run == [] {
      assert run + more == more;
    } else {
      RunsOn(Next(s, run[0]), run[1..], more);
      assert (run + more)[1..] == run[1..] + more;
    }
  }

  /** The action sets the flag of `id`, and whoever set it first is to reply. */
  ghost predicate Marks(s: State, a: Action, id: nat) {
    && Enabled(s, a)
    && Show(Next(s, a)) == Show(s).(replied := Show(s).replied + {id})
    && (id !in Show(s).replied ==> Enabled(Next(s, a), Replying(SendReply, id)))
  }

  /** The action, and the kernel reply of the thread that takes it if the flag was clear. */
  ghost function Marked(s: State, a: Action, id: nat): State
    requires Marks(s, a, id)
  {
    if id in Show(s).replied then Next(s, a) else Next(Next(s, a), Replying(SendReply, id))
  }

  lemma ErrorsMark(s: State, a: Action, id: nat)
    requires Enabled(s, a)
    requires || a == Dispatching(Deny, id) || a == InJs(Catch, id) || a == Cancelling(CancelTell, id)
             || a == Cancelling(SweepTell, id) || a == Replying(LateReply, id) || (a == Working(Tell, id) && id in Show(s).pending)
    ensures Marks(s, a, id)
  {
    hide Dispatched, Worked, JsRan, Replied, Cancelled, CanDispatch, CanWork, CanRunJs, CanReply, CanCancel, Show, Marks;
    match a
    case Dispatching(d, i) => DenyMarks(s, id);
    case Working(w, i) => TellMarks(s, id);
    case InJs(j, i) => CatchMarks(s, id);
    case Replying(r, i) => LateReplyMarks(s, id);
    case Cancelling(c, i) => CancelMarks(s, c, id);
  }

  lemma DenyMarks(s: State, id: nat)
    requires CanDispatch(s, Deny, id)
    ensures Marks(s, Dispatching(Deny, id), id)
  {
  }

  lemma TellMarks(s: State, id: nat)
    requires CanWork(s, Tell, id) && id in Show(s).pending
    ensures Marks(s, Working(Tell, id), id)
  {
  }

  lemma CatchMarks(s: State, id: nat)
    requires CanRunJs(s, Catch, id)
    ensures Marks(s, InJs(Catch, id), id)
  {
  }

  lemma LateReplyMarks(s: State, id: nat)
    requires CanReply(s, LateReply, id)
    ensures Marks(s, Replying(LateReply, id), id)
  {
  }

  lemma CancelMarks(s: State, c: CancelStep, id: nat)
    requires CanCancel(s, c, id) && (c.CancelTell? || c.SweepTell?)
    ensures Marks(s, Cancelling(c, id), id)
  {
  }

  lemma LeadsMarked(s: State, t: State, a: Action, id: nat)
    requires Leads(s, t) && Marks(t, a, id)
    ensures Leads(s, Marked(t, a, id))
  {
    hide Leads, Next, Enabled, Show;
    LeadsOn(s, t, a);
    if id !in Show(t).replied {
      LeadsOn(s, Next(t, a), Replying(SendReply, id));
    }
  }

  class Dispatcher {
    var state: Lifecycle
    var accepting: bool
    var workersRunning: bool
    var callbackQueue: seq<Slot<nat>>
    var pendingRequests: map<nat, Item<nat>>
    var nextRequestId: nat
    var inflight: int
    var maxQueueSize: nat
    var stats: DispatcherStats
    var replied: set<nat>                    // requests whose context has its flag set
    ghost var queued: map<nat, Item<nat>>    // the entries in the queue
    ghost var observed: seq<Observation>     // what UpdateStats saw since the last reset
    ghost var model: State

    ghost function Fields(): Shown
      reads this
    {
      Shown(state == RUNNING, queued.Keys, pendingRequests.Keys, nextRequestId, inflight, maxQueueSize,
            stats.totalDispatched, stats.totalCompleted, stats.totalErrors, replied)
    }

    ghost predicate Valid()
      reads this
    {
      && Reachable(model) && Fields() == Show(model)
      && (state == RUNNING ==> accepting && workersRunning)
      && IsHeap(callbackQueue) && Indexed(callbackQueue, queued)
      && stats.totalCompleted == Completed(observed) && stats.average == DispatcherAverage(observed)
    }

    constructor (maxQueueSize: nat)
      ensures Valid() && model == Init(maxQueueSize) && state == RUNNING && accepting && workersRunning
      ensures this.maxQueueSize == maxQueueSize && nextRequestId == 1 && inflight == 0
      ensures callbackQueue == [] && pendingRequests == map[] && replied == {}
      ensures stats == DispatcherStats(0, 0, 0, 0, 0, 0.0)
    {
      state, accepting, workersRunning := RUNNING, true, true;
      callbackQueue, pendingRequests, nextRequestId, inflight := [], map[], 1, 0;
      this.maxQueueSize, stats, replied := maxQueueSize, NO_STATS, {};
      queued, observed, model := map[], [], Init(maxQueueSize);
      InitIsReachable(maxQueueSize);
    }

    ghost method Step(a: Action)
      requires Reachable(model) && Enabled(model, a)
      modifies `model
      ensures Reachable(model) && model == Next(old(model), a)
    {
      hide Next, Enabled;
      StepIsReachable(model, a);
      model := Next(model, a);
    }

    // ---------- A dispatching thread ----------

    method BeginDispatch() returns (ok: bool)
      requires Valid()
      modifies `model
      ensures Valid() && ok == (state == RUNNING)
      ensures model == if ok then Next(old(model), Dispatching(Enter, 0)) else old(model)
    {
      if state != RUNNING || !accepting {
        return false;
      }
      DispatchShows(model, Enter, 0);
      Step(Dispatching(Enter, 0));
      ok := true;
    }

    method AllocateId() returns (id: nat)
      requires Valid() && model.entering > 0
      modifies `model, `nextRequestId
      ensures Valid() && id == old(nextRequestId) && model == Next(old(model), Dispatching(Allocate, id))
    {
      hide Reachable, Completed, DispatcherAverage, Indexed, IsHeap;
      id := nextRequestId;
      DispatchShows(model, Allocate, id);
      Step(Dispatching(Allocate, id));
      nextRequestId := nextRequestId + 1;
    }

    method RegisterPending(entry: Item<nat>)
      requires Valid() && Enabled(model, Dispatching(Register, entry.value))
      modifies `model, `pendingRequests
      ensures Valid() && model == Next(old(model), Dispatching(Register, entry.value))
      ensures pendingRequests == old(pendingRequests)[entry.value := entry]
    {
      hide Reachable, Completed, DispatcherAverage, Indexed, IsHeap, Next, Enabled;
      DispatchShows(model, Register, entry.value);
      pendingRequests := pendingRequests[entry.value := entry];
      Step(Dispatching(Register, entry.value));
    }

    /** The heap and its statistics. */
    method Enqueue(entry: Item<nat>)
      requires IsHeap(callbackQueue) && Indexed(callbackQueue, queued) && entry.value !in queued
      modifies `callbackQueue, `queued, `stats
      ensures IsHeap(callbackQueue) && Indexed(callbackQueue, queued) && queued == old(queued)[entry.value := entry]
      ensures callbackQueue == PriorityHeap.Pushed(old(callbackQueue), entry)
      ensures stats == old(stats).(queueSize := |callbackQueue|, maxQueueSize := stats.maxQueueSize)
      ensures stats.maxQueueSize in {old(stats).maxQueueSize, |callbackQueue|}
      ensures stats.maxQueueSize >= old(stats).maxQueueSize && stats.maxQueueSize >= |callbackQueue|
    {
      hide Indexed, IsHeap;
      ghost var before := callbackQueue;
      callbackQueue := PriorityHeap.Push(callbackQueue, entry);
      IndexedPush(before, queued, callbackQueue, entry);
      queued := queued[entry.value := entry];
      stats := stats.(queueSize := |callbackQueue|);
      stats := stats.(maxQueueSize := if stats.maxQueueSize < stats.queueSize then stats.queueSize else stats.maxQueueSize);
    }

    method PushLocked(entry: Item<nat>)
      requires Valid() && Enabled(model, Dispatching(DispatchStep.Push, entry.value))
      modifies `model, `callbackQueue, `queued, `stats
      ensures Valid() && model == Next(old(model), Dispatching(DispatchStep.Push, entry.value))
      ensures callbackQueue == PriorityHeap.Pushed(old(callbackQueue), entry)
      ensures queued == old(queued)[entry.value := entry]
      ensures stats == old(stats).(queueSize := |callbackQueue|, maxQueueSize := stats.maxQueueSize)
      ensures stats.maxQueueSize in {old(stats).maxQueueSize, |callbackQueue|}
      ensures stats.maxQueueSize >= old(stats).maxQueueSize && stats.maxQueueSize >= |callbackQueue|
    {
      hide Reachable, Completed, DispatcherAverage, Indexed, IsHeap, Next, Enabled, Show, PriorityHeap.Pushed;
      NotQueuedYet(model, entry.value);
      DispatchShows(model, DispatchStep.Push, entry.value);
      Enqueue(entry);
      Step(Dispatching(DispatchStep.Push, entry.value));
    }

    method RefuseLocked(id: nat)
      requires Valid() && Enabled(model, Dispatching(FindFull, id)) && !model.phase.CancelPending?
      modifies `model, `pendingRequests
      ensures Valid()
      ensures model == Next(Next(old(model), Dispatching(FindFull, id)), Dispatching(EraseRefused, id))
      ensures pendingRequests == old(pendingRequests) - {id}
    {
      hide Reachable, Completed, DispatcherAverage, Indexed, IsHeap;
      DispatchShows(model, FindFull, id);
      Step(Dispatching(FindFull, id));
      DispatchShows(model, EraseRefused, id);
      Step(Dispatching(EraseRefused, id));
      pendingRequests := pendingRequests - {id};
    }

    /** Under the queue's mutex: push, or give up and take the request out of the map again. */
    method PushOrRefuse(entry: Item<nat>) returns (ok: bool)
      requires Valid() && CallerAt(model, entry.value, Registered)
      requires !model.phase.CancelQueue? && !model.phase.CancelPending?
      modifies `model, `callbackQueue, `queued, `pendingRequests, `stats
      ensures Valid() && ok == (maxQueueSize == 0 || |old(callbackQueue)| < maxQueueSize)
      ensures ok ==> Enabled(old(model), Dispatching(DispatchStep.Push, entry.value))
      ensures ok ==> model == Next(old(model), Dispatching(DispatchStep.Push, entry.value))
      ensures ok ==> callbackQueue == PriorityHeap.Pushed(old(callbackQueue), entry) && pendingRequests == old(pendingRequests)
      ensures ok ==> stats == old(stats).(queueSize := |callbackQueue|, maxQueueSize := stats.maxQueueSize)
      ensures ok ==> stats.maxQueueSize in {old(stats).maxQueueSize, |callbackQueue|}
      ensures ok ==> stats.maxQueueSize >= old(stats).maxQueueSize && stats.maxQueueSize >= |callbackQueue|
      ensures !ok ==> Enabled(old(model), Dispatching(FindFull, entry.value))
      ensures !ok ==> model == Next(Next(old(model), Dispatching(FindFull, entry.value)), Dispatching(EraseRefused, entry.value))
      ensures !ok ==> callbackQueue == old(callbackQueue) && pendingRequests == old(pendingRequests) - {entry.value}
      ensures !ok ==> stats == old(stats)
    {
      hide Reachable, Completed, DispatcherAverage, IsHeap, Next, PriorityHeap.Pushed;
      assert |queued| == |queued.Keys|;
      if maxQueueSize > 0 && |callbackQueue| >= maxQueueSize {
        RefuseLocked(entry.value);
        return false;
      }
      PushLocked(entry);
      ok := true;
    }

    method CountIn(id: nat)
      requires Valid() && Enabled(model, Dispatching(DispatchStep.CountIn, id))
      modifies `model, `inflight
      ensures Valid() && model == Next(old(model), Dispatching(DispatchStep.CountIn, id))
      ensures inflight == old(inflight) + 1
    {
      hide Reachable, Completed, DispatcherAverage, Indexed, IsHeap, Next, Enabled, Show, PriorityHeap.Pushed;
      DispatchShows(model, DispatchStep.CountIn, id);
      inflight := inflight + 1;
      Step(Dispatching(DispatchStep.CountIn, id));
    }

    // ---------- Replying ----------

    /** `TryMarkReplied` and, for the first caller only, the reply to the kernel. `a` is the
        protocol's action that this is part of. */
    method ReplyOnce(id: nat, ghost a: Action) returns (first: bool)
      requires Valid() && Marks(model, a, id)
      modifies `model, `replied
      ensures Valid() && model == Marked(old(model), a, id)
      ensures replied == old(replied) + {id} && first == (id !in old(replied))
    {
      hide Reachable, Completed, DispatcherAverage, Indexed, IsHeap, Next, Enabled, Show, PriorityHeap.Pushed;
      first := id !in replied;
      replied := replied + {id};
      Step(a);
      if first {
        ReplyShows(model, SendReply, id);
        Step(Replying(SendReply, id));
      }
    }

    /** The first half of a call: a fresh id and an entry in the pending map. */
    method Announce(priority: int, timestamp: int) returns (ok: bool, entry: Item<nat>)
      requires Valid()
      modifies `model, `nextRequestId, `pendingRequests
      ensures Valid() && Leads(old(model), model) && ok == (state == RUNNING)
      ensures entry == Item(priority, timestamp, old(nextRequestId)) && model.replied == old(model).replied
      ensures !ok ==> pendingRequests == old(pendingRequests)
      ensures ok ==> entry.value > 0 && entry.value !in old(pendingRequests)
      ensures ok ==> pendingRequests == old(pendingRequests)[entry.value := entry]
      ensures ok ==> CallerAt(model, entry.value, Registered) && model.phase.Running?
    {
      hide Reachable, Completed, DispatcherAverage, Indexed, IsHeap, Next, Enabled, PriorityHeap.Pushed, Leads;
      entry := Item(priority, timestamp, nextRequestId);
      LeadsNowhere(model);
      ghost var s := model;
      ok := BeginDispatch();
      if ok {
        Registration(s);
        var id := AllocateId();
        RegisterPending(entry);
      }
    }

    /** The second half: into the queue and the in-flight count, or out of the pending map. */
    method Admit(entry: Item<nat>) returns (ok: bool)
      requires Valid() && CallerAt(model, entry.value, Registered) && model.phase.Running?
      modifies `model, `callbackQueue, `queued, `pendingRequests, `stats, `inflight
      ensures Valid() && Leads(old(model), model) && ok == (maxQueueSize == 0 || |old(callbackQueue)| < maxQueueSize)
      ensures ok ==> CallerAt(model, entry.value, Returned) && At(model, entry.value, Queued)
      ensures ok ==> callbackQueue == PriorityHeap.Pushed(old(callbackQueue), entry) && pendingRequests == old(pendingRequests)
      ensures ok ==> inflight == old(inflight) + 1
      ensures !ok ==> CallerAt(model, entry.value, Denied) && callbackQueue == old(callbackQueue)
      ensures !ok ==> pendingRequests == old(pendingRequests) - {entry.value} && inflight == old(inflight)
      ensures model.phase.Running? && model.replied == old(model).replied
    {
      hide Reachable, Completed, DispatcherAverage, Indexed, IsHeap, Next, Enabled, PriorityHeap.Pushed, Leads;
      ghost var t := model;
      LeadsNowhere(t);
      ok := PushOrRefuse(entry);
      if ok {
        Admission(t, t, entry.value);
        CountIn(entry.value);
      } else {
        Refusal(t, t, entry.value);
      }
    }

    /** A whole call, undisturbed: the new id, or 0 when the dispatcher is not running or the
        queue is full; a refused request leaves nothing behind. */
    method DispatchCustom(priority: int, timestamp: int) returns (id: nat)
      requires Valid()
      modifies `model, `nextRequestId, `pendingRequests, `callbackQueue, `queued, `stats, `inflight
      ensures Valid() && Leads(old(model), model)
      ensures id == 0 <==> state != RUNNING || (maxQueueSize > 0 && |old(callbackQueue)| >= maxQueueSize)
      ensures id != 0 ==>
                && id == old(nextRequestId) && CallerAt(model, id, Returned) && At(model, id, Queued)
                && callbackQueue == PriorityHeap.Pushed(old(callbackQueue), Item(priority, timestamp, id))
                && pendingRequests == old(pendingRequests)[id := Item(priority, timestamp, id)]
                && inflight == old(inflight) + 1
      ensures id == 0 ==> callbackQueue == old(callbackQueue) && pendingRequests == old(pendingRequests) && inflight == old(inflight)
      ensures id == 0 && state == RUNNING ==> CallerAt(model, old(nextRequestId), Denied)
      ensures model.replied == old(model).replied
    {
      hide Reachable, Completed, DispatcherAverage, Indexed, IsHeap, Next, Enabled, PriorityHeap.Pushed, Leads;
      var ok, entry := Announce(priority, timestamp);
      if !ok {
        return 0;
      }
      ghost var t := model;
      ok := Admit(entry);
      LeadsFurther(old(model), t, model);
      if !ok {
        assert old(pendingRequests)[entry.value := entry] - {entry.value} == old(pendingRequests);
        return 0;
      }
      id := entry.value;
    }

    /** `ProcessRequest`, with the answer that it gives itself, if any: no handler, no dispatcher, or
        no id. (A request that is answered before it has an id is not in the protocol.) */
    method ProcessRequest(hasHandler: bool, lookup: Lookup, priority: int, timestamp: int)
        returns (id: nat, answer: Basics.Option<int>)
      requires Valid()
      modifies `model, `nextRequestId, `pendingRequests, `callbackQueue, `queued, `stats, `inflight, `replied
      ensures Valid() && Leads(old(model), model)
      ensures id == 0 <==>
                !(hasHandler && (lookup.Found? || lookup.Created?))
                || state != RUNNING || (maxQueueSize > 0 && |old(callbackQueue)| >= maxQueueSize)
      // it answers itself exactly the requests that get no id, and says why
      ensures answer.None? <==> id != 0
      ensures answer == Basics.Some(ENOSYS) <==> !hasHandler
      ensures answer == Basics.Some(0) <==> hasHandler && lookup.NoneForDestroy?
      ensures answer == Basics.Some(EINVAL) <==> hasHandler && lookup.NoEnvironment?
      ensures answer == Basics.Some(EIO) <==> hasHandler && lookup.CreationFails?
      ensures answer == Basics.Some(EAGAIN) <==>
                hasHandler && (lookup.Found? || lookup.Created?)
                && (state != RUNNING || (maxQueueSize > 0 && |old(callbackQueue)| >= maxQueueSize))
      ensures id != 0 ==> id == old(nextRequestId) && At(model, id, Queued) && replied == old(replied)
      ensures id == 0 && hasHandler && (lookup.Found? || lookup.Created?) && state == RUNNING ==>
                replied == old(replied) + {old(nextRequestId)} && CallerAt(model, old(nextRequestId), Rejected)
      ensures !(hasHandler && (lookup.Found? || lookup.Created?)) ==> model == old(model) && replied == old(replied)
    {
      hide Reachable, Completed, DispatcherAverage, Indexed, IsHeap, Next, Enabled, PriorityHeap.Pushed, Leads, Show;
      ghost var s := model;
      LeadsNowhere(s);
      if !hasHandler {
        return 0, Basics.Some(ENOSYS);
      }
      if lookup.NoneForDestroy? {
        return 0, Basics.Some(0);
      } else if lookup.NoEnvironment? {
        return 0, Basics.Some(EINVAL);
      } else if lookup.CreationFails? {
        return 0, Basics.Some(EIO);
      }
      var request := nextRequestId;
      id := DispatchCustom(priority, timestamp);
      if id != 0 {
        return id, Basics.None;
      }
      if state == RUNNING {
        Denial(s, model, request);
        var first := ReplyOnce(request, Dispatching(Deny, request));
      }
      answer := Basics.Some(EAGAIN);
    }

    // ---------- A worker ----------

    /** The heap alone. */
    method Dequeue() returns (entry: Item<nat>)
      requires IsHeap(callbackQueue) && Indexed(callbackQueue, queued) && callbackQueue != []
      modifies `callbackQueue, `queued
      ensures IsHeap(callbackQueue) && Indexed(callbackQueue, queued)
      ensures old(callbackQueue)[0] == Full(entry) && callbackQueue == PriorityHeap.Popped(old(callbackQueue))
      ensures Overtaking.IsNext(old(queued), entry.value)
      ensures entry.value in old(queued) && queued == old(queued) - {entry.value}
    {
      ghost var before := callbackQueue;
      RootIsNext(callbackQueue, queued);
      entry := callbackQueue[0].item;
      callbackQueue := PriorityHeap.Pop(callbackQueue);
      IndexedPop(before, queued, callbackQueue);
      queued := queued - {entry.value};
    }

    /** The pop alone, as a step of the protocol. */
    method PopNext() returns (entry: Item<nat>)
      requires Valid() && WorkersAlive(model.phase) && callbackQueue != []
      modifies `model, `callbackQueue, `queued
      ensures Valid() && Enabled(old(model), Working(WorkStep.Pop, entry.value))
      ensures model == Next(old(model), Working(WorkStep.Pop, entry.value))
      ensures Overtaking.IsNext(old(queued), entry.value) && entry.value in old(queued) && queued == old(queued) - {entry.value}
      ensures callbackQueue == PriorityHeap.Popped(old(callbackQueue))
    {
      hide Reachable, Completed, DispatcherAverage, Indexed, IsHeap, Next, Enabled, PriorityHeap.Popped, Show, Overtaking.IsNext;
      entry := Dequeue();
      QueuedCanBePopped(model, entry.value);
      WorkShows(model, WorkStep.Pop, entry.value);
      Step(Working(WorkStep.Pop, entry.value));
    }

    /** Under the queue's mutex: take the entry that ranks first. */
    method TakeNext() returns (entry: Item<nat>)
      requires Valid() && WorkersAlive(model.phase) && callbackQueue != []
      modifies `model, `callbackQueue, `queued, `stats
      ensures Valid() && Enabled(old(model), Working(WorkStep.Pop, entry.value))
      ensures model == Next(old(model), Working(WorkStep.Pop, entry.value))
      ensures Overtaking.IsNext(old(queued), entry.value) && entry.value in old(queued) && queued == old(queued) - {entry.value}
      ensures callbackQueue == PriorityHeap.Popped(old(callbackQueue))
      ensures stats == old(stats).(queueSize := |callbackQueue|)
    {
      hide Reachable, Completed, DispatcherAverage, Indexed, IsHeap, Next, Enabled, PriorityHeap.Popped, Show, Overtaking.IsNext;
      entry := PopNext();
      stats := stats.(queueSize := |callbackQueue|);
    }

    method HandleCallbackError(id: nat)
      requires Valid() && Enabled(model, Working(Fault, id)) && !model.phase.CancelPending?
      modifies `model, `stats, `replied
      ensures Valid() && model == Errored(old(model), id)
      ensures stats == old(stats).(totalErrors := old(stats).totalErrors + 1)
      ensures replied == if id in pendingRequests then old(replied) + {id} else old(replied)
    {
      hide Reachable, Completed, DispatcherAverage, Indexed, IsHeap, Next, Enabled, Show;
      FaultThenTell(model, id);
      WorkShows(model, Fault, id);
      stats := stats.(totalErrors := stats.totalErrors + 1);
      Step(Working(Fault, id));
      if id in pendingRequests {
        ErrorsMark(model, Working(Tell, id), id);
        var first := ReplyOnce(id, Working(Tell, id));
      } else {
        WorkShows(model, Tell, id);
        Step(Working(Tell, id));
      }
    }

    /** A decrement from one to zero locks the mutex of the bounded wait, to notify the waiting
        thread. The thread that holds it, `locked`, never gets past that. (For others it may take
        until that thread lets go.) */
    method DecInflight(locked: bool, ghost a: Action) returns (done: bool)
      requires Valid() && Enabled(model, a) && Show(Next(model, a)) == Show(model).(inflight := Show(model).inflight - 1)
      modifies `model, `inflight
      ensures Valid() && model == Next(old(model), a) && inflight == old(inflight) - 1
      ensures done <==> !(locked && old(inflight) == 1)
    {
      hide Reachable, Completed, DispatcherAverage, Indexed, IsHeap, Next, Enabled, Show;
      done := !(locked && inflight == 1);
      inflight := inflight - 1;
      Step(a);
    }

    /** The error path of a worker. */
    method GiveUp(id: nat)
      requires Valid() && At(model, id, InHand)
      modifies `model, `stats, `replied, `inflight
      ensures Valid() && Leads(old(model), model) && At(model, id, Retained)
      ensures id in pendingRequests && replied == old(replied) + {id}
      ensures inflight == old(inflight) - 1 && stats == old(stats).(totalErrors := old(stats).totalErrors + 1)
    {
      hide Reachable, Completed, DispatcherAverage, Indexed, IsHeap, Next, Enabled, Show, Leads;
      ErrorPath(model, id);
      HandleCallbackError(id);
      WorkShows(model, FaultDone, id);
      var done := DecInflight(false, Working(FaultDone, id));
    }

    /** Post the callback to JavaScript; or run its error path, after which it still is in the
        pending map. `found` says whether there is a handler, `accepted` whether the
        thread-safe function takes the call. */
    method ProcessCallback(id: nat, found: bool, accepted: bool) returns (posted: bool)
      requires Valid() && At(model, id, InHand)
      modifies `model, `stats, `replied, `inflight
      ensures Valid() && Leads(old(model), model) && posted == (state == RUNNING && found && accepted)
      ensures posted ==> At(model, id, Posted) && inflight == old(inflight) && stats == old(stats) && replied == old(replied)
      ensures !posted ==> At(model, id, Retained) && id in pendingRequests && replied == old(replied) + {id}
      ensures !posted ==> inflight == old(inflight) - 1 && stats == old(stats).(totalErrors := old(stats).totalErrors + 1)
    {
      hide Reachable, Completed, DispatcherAverage, Indexed, IsHeap, Next, Enabled, Show, Leads;
      ghost var s := model;
      if state != RUNNING || !found || !accepted {
        GiveUp(id);
        return false;
      }
      PostPath(s, id);
      WorkShows(model, Post, id);
      Step(Working(Post, id));
      posted := true;
    }

    /** A round of `WorkerThreadMain`: whatever it takes is next, and none is taken twice. */
    method WorkerRound(found: bool, accepted: bool) returns (id: nat, posted: bool)
      requires Valid() && WorkersAlive(model.phase) && callbackQueue != []
      modifies `model, `callbackQueue, `queued, `stats, `replied, `inflight
      ensures Valid() && Leads(old(model), model) && posted == (state == RUNNING && found && accepted)
      ensures Overtaking.IsNext(old(queued), id) && queued == old(queued) - {id}
      ensures if posted then At(model, id, Posted) else At(model, id, Retained) && id in pendingRequests && id in replied
      ensures inflight == old(inflight) - if posted then 0 else 1
    {
      hide Reachable, Completed, DispatcherAverage, Indexed, IsHeap, Next, Enabled, Show, Leads, Overtaking.IsNext;
      LeadsNowhere(model);
      var entry := TakeNext();
      id := entry.value;
      ghost var t := model;
      QueuedCanBePopped(old(model), id);
      LeadsOn(old(model), old(model), Working(WorkStep.Pop, id));
      posted := ProcessCallback(id, found, accepted);
      LeadsFurther(old(model), t, model);
    }

    // ---------- The JavaScript thread ----------

    /** The start of `callback_fn`, which may answer the request itself. */
    method StartJs(id: nat, answers: bool)
      requires Valid() && At(model, id, Posted)
      modifies `model, `replied
      ensures Valid() && Leads(old(model), model) && model.phase == old(model).phase
      ensures At(model, id, JsRunning)
      ensures replied == if answers then old(replied) + {id} else old(replied)
    {
      hide Reachable, Completed, DispatcherAverage, Indexed, IsHeap, Next, Enabled, Show, Leads;
      ghost var s := model;
      StartPath(s, id);
      JsShows(model, Start, id);
      Step(InJs(Start, id));
      if answers {
        AnswerPath(s, model, id);
        var first := ReplyOnce(id, Replying(LateReply, id));
      }
    }

    /** Its end: an exception runs the error callback. */
    method EndJs(id: nat, throws: bool)
      requires Valid() && At(model, id, JsRunning)
      modifies `model, `replied
      ensures Valid() && Leads(old(model), model) && model.phase == old(model).phase
      ensures At(model, id, JsReturned(!throws)) && Enabled(model, InJs(Count, id))
      ensures replied == if throws then old(replied) + {id} else old(replied)
    {
      hide Reachable, Completed, DispatcherAverage, Indexed, IsHeap, Next, Enabled, Show, Leads;
      ghost var s := model;
      LeadsNowhere(s);
      if throws {
        ThrowPath(s, s, id);
        JsShows(model, Throw, id);
        Step(InJs(Throw, id));
        var first := ReplyOnce(id, InJs(Catch, id));
      } else {
        ReturnPath(s, s, id);
        JsShows(model, Return, id);
        Step(InJs(Return, id));
      }
    }

    method CallJs(id: nat, answers: bool, throws: bool)
      requires Valid() && At(model, id, Posted)
      modifies `model, `replied
      ensures Valid() && Leads(old(model), model) && model.phase == old(model).phase
      ensures At(model, id, JsReturned(!throws)) && Enabled(model, InJs(Count, id))
      ensures replied == if answers || throws then old(replied) + {id} else old(replied)
    {
      hide Reachable, Completed, DispatcherAverage, Indexed, IsHeap, Next, Enabled, Show, Leads;
      StartJs(id, answers);
      ghost var t := model;
      EndJs(id, throws);
      LeadsFurther(old(model), t, model);
    }

    method UpdateStats(id: nat, latency: real, success: bool)
      requires Valid() && At(model, id, JsReturned(success)) && Enabled(model, InJs(Count, id))
      modifies `model, `stats, `observed
      ensures Valid() && model == Next(old(model), InJs(Count, id))
      ensures observed == old(observed) + [Observation(latency, success)]
      ensures stats.totalDispatched == old(stats).totalDispatched + 1
      ensures stats.totalCompleted == old(stats).totalCompleted + if success then 1 else 0
    {
      hide Reachable, Completed, DispatcherAverage, Updated, Indexed, IsHeap, Next, Show;
      JsShows(model, Count, id);
      OneMoreObservation(observed, Observation(latency, success));
      stats := stats.(totalDispatched := stats.totalDispatched + 1);
      if success {
        stats := stats.(totalCompleted := stats.totalCompleted + 1);
        stats := stats.(average := Updated(stats.average, stats.totalCompleted, latency));
      }
      observed := observed + [Observation(latency, success)];
      Step(InJs(Count, id));
    }

    method ErasePending(id: nat)
      requires Valid() && Enabled(model, InJs(Erase, id))
      modifies `model, `pendingRequests
      ensures Valid() && model == Next(old(model), InJs(Erase, id)) && pendingRequests == old(pendingRequests) - {id}
    {
      hide Reachable, Completed, DispatcherAverage, Indexed, IsHeap, Next, Enabled, Show;
      JsShows(model, Erase, id);
      pendingRequests := pendingRequests - {id};
      Step(InJs(Erase, id));
    }

    /** Out of the pending map and the in-flight count. */
    method Release(id: nat)
      requires Valid() && Enabled(model, InJs(Erase, id)) && Enabled(Next(model, InJs(Erase, id)), InJs(Done, id))
      modifies `model, `pendingRequests, `inflight
      ensures Valid() && model == Next(Next(old(model), InJs(Erase, id)), InJs(Done, id))
      ensures pendingRequests == old(pendingRequests) - {id} && inflight == old(inflight) - 1
    {
      hide Reachable, Completed, DispatcherAverage, Indexed, IsHeap, Next, Enabled, Show;
      ErasePending(id);
      JsShows(model, Done, id);
      var done := DecInflight(false, InJs(Done, id));
    }

    /** What follows `callback_fn`, whether it threw or not. */
    method FinishJs(id: nat, latency: real, ok: bool)
      requires Valid() && At(model, id, JsReturned(ok)) && Enabled(model, InJs(Count, id)) && !model.phase.CancelPending?
      modifies `model, `stats, `observed, `pendingRequests, `inflight
      ensures Valid() && Leads(old(model), model) && At(model, id, Finished(ok))
      ensures pendingRequests == old(pendingRequests) - {id} && inflight == old(inflight) - 1
      ensures observed == old(observed) + [Observation(latency, ok)]
      ensures stats.totalDispatched == old(stats).totalDispatched + 1
      ensures stats.totalCompleted == old(stats).totalCompleted + if ok then 1 else 0
    {
      hide Reachable, Completed, DispatcherAverage, Indexed, IsHeap, Next, Enabled, Show, Leads;
      LeadsNowhere(model);
      FinishPath(model, model, id);
      UpdateStats(id, latency, ok);
      Release(id);
    }

    /** A whole call in the JavaScript thread: the request leaves the pending map and the
        in-flight count, is counted once, and is answered if the code answered or threw. */
    method RunInJs(id: nat, answers: bool, throws: bool, latency: real)
      requires Valid() && At(model, id, Posted) && !model.phase.CancelPending?
      modifies `model, `replied, `stats, `observed, `pendingRequests, `inflight
      ensures Valid() && Leads(old(model), model) && At(model, id, Finished(!throws))
      ensures pendingRequests == old(pendingRequests) - {id} && inflight == old(inflight) - 1
      ensures replied == if answers || throws then old(replied) + {id} else old(replied)
      ensures observed == old(observed) + [Observation(latency, !throws)]
      ensures stats.totalDispatched == old(stats).totalDispatched + 1
      ensures stats.totalCompleted == old(stats).totalCompleted + if throws then 0 else 1
    {
      hide Reachable, Completed, DispatcherAverage, Indexed, IsHeap, Next, Enabled, Show, Leads;
      CallJs(id, answers, throws);
      ghost var t := model;
      FinishJs(id, latency, !throws);
      LeadsFurther(old(model), t, model);
    }

    // ---------- Configuration ----------

    method ResetStats()
      requires Valid()
      modifies `model, `stats, `observed
      ensures Valid() && model == Next(old(model), Configuring(ConfigStep.ResetStats))
      ensures stats == DispatcherStats(0, 0, 0, 0, 0, 0.0) && observed == []
    {
      hide Reachable, Indexed, IsHeap;
      stats, observed := NO_STATS, [];
      Step(Configuring(ConfigStep.ResetStats));
    }

    method SetMaxQueueSize(n: nat)
      requires Valid()
      modifies `model, `maxQueueSize
      ensures Valid() && model == Next(old(model), Configuring(ConfigStep.SetMaxQueueSize(n))) && maxQueueSize == n
    {
      hide Reachable, Indexed, IsHeap, Completed, DispatcherAverage;
      maxQueueSize := n;
      Step(Configuring(ConfigStep.SetMaxQueueSize(n)));
    }

    // ---------- Shutdown ----------

    /** The top entry, for the cancel loop. */
    method PopToCancel() returns (id: nat)
      requires Valid() && model.phase.CancelQueue? && !model.inflightMutex.Relocked? && callbackQueue != []
      modifies `model, `callbackQueue, `queued
      ensures Valid() && Enabled(old(model), Cancelling(CancelPop, id)) && model == Next(old(model), Cancelling(CancelPop, id))
      ensures |callbackQueue| == |old(callbackQueue)| - 1 && id in old(queued) && queued == old(queued) - {id}
    {
      hide Reachable, Completed, DispatcherAverage, Indexed, IsHeap, Next, Enabled, Show, PriorityHeap.Popped, Overtaking.IsNext;
      var entry := Dequeue();
      id := entry.value;
      CancelPopPath(model, id);
      CancelShows(model, CancelPop, id);
      Step(Cancelling(CancelPop, id));
    }

    /** A round of the first cancel loop: the top entry, its error callback, the count. */
    method CancelTop(locked: bool) returns (done: bool, ghost id: nat)
      requires Valid() && model.phase.CancelQueue? && MutexIs(model, locked) && callbackQueue != []
      modifies `model, `callbackQueue, `queued, `replied, `inflight
      ensures done <==> !(locked && old(inflight) == 1)
      ensures Valid() && Leads(old(model), model) && QueueRound(old(model), model, id)
      ensures |callbackQueue| == |old(callbackQueue)| - 1
      ensures id in old(queued) && queued == old(queued) - {id} && replied == old(replied) + {id}
      ensures inflight == old(inflight) - 1
    {
      hide Reachable, Completed, DispatcherAverage, Indexed, IsHeap, Next, Enabled, Show, Leads, QueueRound;
      ghost var s := model;
      var popped := PopToCancel();
      id := popped;
      QueueRoundPath(s, id);
      var first := ReplyOnce(popped, Cancelling(CancelTell, popped));
      CancelShows(model, CancelDone, popped);
      done := DecInflight(locked, Cancelling(CancelDone, popped));
    }

    /** The first cancel loop, under the queue's mutex. It gets stuck when it has to take the
        count from one to zero while the thread holds the mutex of the bounded wait. */
    method CancelQueued(locked: bool) returns (done: bool)
      requires Valid() && model.phase.CancelQueue? && SweepIdle(model) && MutexIs(model, locked)
      modifies `model, `callbackQueue, `queued, `replied, `inflight, `stats
      ensures Valid() && Leads(old(model), model)
      ensures done <==> !(locked && 1 <= old(inflight) <= |old(callbackQueue)|)
      ensures done ==> model.phase.CancelQueue? && SweepIdle(model) && MutexIs(model, locked) && callbackQueue == [] && queued == map[]
      ensures done ==> inflight == old(inflight) - |old(callbackQueue)| && replied == old(replied) + old(queued).Keys
      ensures done ==> model.errorRuns == old(model).errorRuns + multiset(old(queued).Keys) && stats == old(stats).(queueSize := 0)
      ensures !done ==> model.inflightMutex.Relocked? && inflight == 0 && |callbackQueue| == |old(callbackQueue)| - old(inflight)
      ensures !done ==> ToldAll(old(queued).Keys, queued.Keys, old(replied), replied, old(model).errorRuns, model.errorRuns)
      ensures !done ==> pendingRequests == old(pendingRequests)
    {
      hide Reachable, Completed, DispatcherAverage, Indexed, IsHeap, Next, Enabled, Show, Leads, SweepIdle, QueueRound, ToldAll, MutexIs;
      ghost var was := queued.Keys;
      LeadsNowhere(model);
      NoneTold(was, replied, model.errorRuns);
      while callbackQueue != []
        invariant Valid() && Leads(old(model), model) && model.phase.CancelQueue? && SweepIdle(model) && MutexIs(model, locked)
        invariant inflight == old(inflight) - |old(callbackQueue)| + |callbackQueue| && stats == old(stats)
        invariant locked && old(inflight) >= 1 ==> inflight >= 1
        invariant ToldAll(was, queued.Keys, old(replied), replied, old(model).errorRuns, model.errorRuns)
        decreases |callbackQueue|
      {
        ghost var t, keys, told := model, queued.Keys, replied;
        ghost var id;
        done, id := CancelTop(locked);
        QueueRoundEffect(t, model, id, locked);
        LeadsFurther(old(model), t, model);
        OneTold(was, keys, old(replied), told, old(model).errorRuns, t.errorRuns, id);
        if !done {
          return;
        }
      }
      EmptyIndex(callbackQueue, queued);
      EveryoneTold(was, old(replied), replied, old(model).errorRuns, model.errorRuns);
      stats := stats.(queueSize := 0);
      done := true;
    }

    method CancelEntry(id: nat, locked: bool) returns (done: bool)
      requires Valid() && model.phase.CancelPending? && model.phase.told == {} && id in model.phase.todo && MutexIs(model, locked)
      modifies `model, `replied, `inflight
      ensures Valid() && Leads(old(model), model) && PendingRound(old(model), model, id)
      ensures replied == old(replied) + {id} && inflight == old(inflight) - 1
      ensures done <==> !(locked && old(inflight) == 1)
    {
      hide Reachable, Completed, DispatcherAverage, Indexed, IsHeap, Next, Enabled, Show, Leads, PendingRound;
      PendingRoundPath(model, id);
      var first := ReplyOnce(id, Cancelling(SweepTell, id));
      CancelShows(model, SweepDone, id);
      done := DecInflight(locked, Cancelling(SweepDone, id));
    }

    /** The second cancel loop, which gets stuck in the same way; `todo` is what it has not done. */
    method CancelEach(ids: set<nat>, locked: bool) returns (done: bool, todo: set<nat>)
      requires Valid() && model.phase == CancelPending(ids, {}) && MutexIs(model, locked)
      modifies `model, `replied, `inflight
      ensures Valid() && Leads(old(model), model)
      ensures done <==> !(locked && 1 <= old(inflight) <= |ids|)
      ensures model.phase == CancelPending(todo, {}) && inflight == old(inflight) - |ids| + |todo|
      ensures ToldAll(ids, todo, old(replied), replied, old(model).errorRuns, model.errorRuns)
      ensures if done then todo == {} && MutexIs(model, locked) else model.inflightMutex.Relocked? && inflight == 0
    {
      hide Reachable, Completed, DispatcherAverage, Indexed, IsHeap, Next, Enabled, Show, Leads, PendingRound, ToldAll, MutexIs;
      todo := ids;
      LeadsNowhere(model);
      NoneTold(ids, replied, model.errorRuns);
      while todo != {}
        invariant Valid() && Leads(old(model), model) && model.phase == CancelPending(todo, {}) && MutexIs(model, locked)
        invariant inflight == old(inflight) - |ids| + |todo|
        invariant locked && old(inflight) >= 1 ==> inflight >= 1
        invariant ToldAll(ids, todo, old(replied), replied, old(model).errorRuns, model.errorRuns)
        decreases |todo|
      {
        var id :| id in todo;
        ghost var t, told := model, replied;
        done := CancelEntry(id, locked);
        PendingRoundEffect(t, model, id, locked);
        LeadsFurther(old(model), t, model);
        OneTold(ids, todo, old(replied), told, old(model).errorRuns, t.errorRuns, id);
        todo := todo - {id};
        if !done {
          return;
        }
      }
      done := true;
    }

    method EndSweep(locked: bool)
      requires Valid() && model.phase == CancelPending({}, {}) && MutexIs(model, locked)
      modifies `model, `pendingRequests
      ensures Valid() && Leads(old(model), model) && model.phase.Waiting? && pendingRequests == map[]
      ensures model.inflightMutex == (if locked then Released else Free) && model.errorRuns == old(model).errorRuns
    {
      hide Reachable, Completed, DispatcherAverage, Indexed, IsHeap, Next, Enabled, Show, Leads, MutexIs;
      LeadsNowhere(model);
      EndPath(model, model, locked);
      ShutdownShows(model, EndPendingPass);
      pendingRequests := map[];
      Step(ShuttingDown(EndPendingPass));
    }

    /** All of it, under the mutex of the pending map, which is then cleared. */
    method CancelPendings(locked: bool) returns (done: bool)
      requires Valid() && model.phase == CancelPending(pendingRequests.Keys, {}) && MutexIs(model, locked)
      modifies `model, `replied, `inflight, `pendingRequests
      ensures Valid() && Leads(old(model), model)
      ensures done <==> !(locked && 1 <= old(inflight) <= |old(pendingRequests)|)
      ensures done ==> model.phase.Waiting? && pendingRequests == map[]
      ensures done ==> model.inflightMutex == if locked then Released else Free
      ensures done ==> inflight == old(inflight) - |old(pendingRequests)| && replied == old(replied) + old(pendingRequests).Keys
      ensures done ==> model.errorRuns == old(model).errorRuns + multiset(old(pendingRequests).Keys)
      ensures !done ==> model.inflightMutex.Relocked? && inflight == 0
      ensures !done ==> |model.errorRuns| == |old(model).errorRuns| + old(inflight)
    {
      hide Reachable, Completed, DispatcherAverage, Indexed, IsHeap, Next, Enabled, Show, Leads, ToldAll, MutexIs;
      assert |pendingRequests| == |pendingRequests.Keys|;
      var todo;
      done, todo := CancelEach(pendingRequests.Keys, locked);
      ToldSize(pendingRequests.Keys, todo, old(replied), replied, old(model).errorRuns, model.errorRuns);
      if done {
        EveryoneTold(pendingRequests.Keys, old(replied), replied, old(model).errorRuns, model.errorRuns);
        ghost var t := model;
        EndSweep(locked);
        LeadsFurther(old(model), t, model);
      }
    }

    /** The first half of the pass. */
    method CancelAllQueued(locked: bool) returns (done: bool)
      requires Valid() && CanBeginCancel(model, inflight, locked)
      modifies `model, `callbackQueue, `queued, `replied, `inflight, `stats
      ensures Valid() && Leads(old(model), model)
      ensures done <==> !(locked && 1 <= old(inflight) <= |old(callbackQueue)|)
      ensures done ==> model.phase.CancelQueue? && SweepIdle(model) && MutexIs(model, locked) && callbackQueue == [] && queued == map[]
      ensures done ==> inflight == old(inflight) - |old(callbackQueue)| && replied == old(replied) + old(queued).Keys
      ensures done ==> model.errorRuns == old(model).errorRuns + multiset(old(queued).Keys)
      ensures done ==> |old(queued).Keys| == |old(callbackQueue)|
      ensures !done ==> model.inflightMutex.Relocked? && inflight == 0
      ensures !done ==> |model.errorRuns| == |old(model).errorRuns| + old(inflight)
    {
      hide Reachable, Completed, DispatcherAverage, Indexed, IsHeap, Next, Enabled, Show, Leads, SweepIdle, ToldAll, MutexIs;
      QueueSize(callbackQueue, queued);
      BeginCancelPath(model, inflight, locked);
      ShutdownShows(model, BeginCancel);
      Step(ShuttingDown(BeginCancel));
      ghost var t := model;
      done := CancelQueued(locked);
      LeadsFurther(old(model), t, model);
      if !done {
        ToldSize(old(queued).Keys, queued.Keys, old(replied), replied, old(model).errorRuns, model.errorRuns);
        QueueSize(callbackQueue, queued);
      }
    }

    /** The second half. */
    method CancelAllPending(locked: bool) returns (done: bool)
      requires Valid() && model.phase.CancelQueue? && SweepIdle(model) && MutexIs(model, locked) && queued == map[]
      modifies `model, `replied, `inflight, `pendingRequests
      ensures Valid() && Leads(old(model), model)
      ensures done <==> !(locked && 1 <= old(inflight) <= |old(pendingRequests)|)
      ensures done ==> model.phase.Waiting? && pendingRequests == map[]
      ensures done ==> model.inflightMutex == if locked then Released else Free
      ensures done ==> inflight == old(inflight) - |old(pendingRequests)| && replied == old(replied) + old(pendingRequests).Keys
      ensures done ==> model.errorRuns == old(model).errorRuns + multiset(old(pendingRequests).Keys)
      ensures !done ==> model.inflightMutex.Relocked? && inflight == 0
      ensures !done ==> |model.errorRuns| == |old(model).errorRuns| + old(inflight)
    {
      hide Reachable, Completed, DispatcherAverage, Indexed, IsHeap, Next, Enabled, Show, Leads, SweepIdle;
      LeadsNowhere(model);
      EndQueuePath(old(model), model, pendingRequests.Keys);
      ShutdownShows(model, EndQueuePass);
      Step(ShuttingDown(EndQueuePass));
      ghost var t := model;
      done := CancelPendings(locked);
      LeadsFurther(old(model), t, model);
    }

    /** The cancel pass: every queued and every pending entry has its error callback run and
        the count lowered; the entries that are both, twice. `locked` says that the thread holds
        the mutex of the bounded wait. Then the pass ends exactly if it does not have to take a
        positive count to zero; else it never returns (`done` is false), stuck after as many error
        callbacks as the count was. */
    method CancelAllCallbacks(locked: bool) returns (done: bool)
      requires Valid() && CanBeginCancel(model, inflight, locked)
      modifies `model, `callbackQueue, `queued, `replied, `inflight, `stats, `pendingRequests
      ensures Valid() && Leads(old(model), model)
      ensures done <==> !(locked && 1 <= old(inflight) <= |old(callbackQueue)| + |old(pendingRequests)|)
      ensures done ==> model.phase.Waiting? && model.inflightMutex == if locked then Released else Free
      ensures done ==> callbackQueue == [] && queued == map[] && pendingRequests == map[]
      ensures done ==> inflight == old(inflight) - |old(callbackQueue)| - |old(pendingRequests)|
      ensures done ==> replied == old(replied) + old(queued).Keys + old(pendingRequests).Keys
      ensures done ==>
                model.errorRuns == old(model).errorRuns + multiset(old(queued).Keys) + multiset(old(pendingRequests).Keys)
      ensures !done ==> model.inflightMutex.Relocked? && inflight == 0
      ensures !done ==> |model.errorRuns| == |old(model).errorRuns| + old(inflight)
    {
      hide Reachable, Completed, DispatcherAverage, Indexed, IsHeap, Show, Leads, SweepIdle, MutexIs;
      done := CancelAllQueued(locked);
      if done {
        ghost var t := model;
        done := CancelAllPending(locked);
        LeadsFurther(old(model), t, model);
      }
    }

    /** Refuse new requests, and join the workers. */
    method Stop()
      requires Valid() && state == RUNNING && WorkersIdle(model)
      modifies `model, `state, `accepting, `workersRunning
      ensures Valid() && Leads(old(model), model) && model.phase.Joined? && state == SHUTTING_DOWN
    {
      hide Reachable, Completed, DispatcherAverage, Indexed, IsHeap, Next, Enabled, Show, Leads, WorkersIdle;
      JoinPath(model);
      ShutdownShows(model, Begin);
      state, accepting, workersRunning := SHUTTING_DOWN, false, false;
      Step(ShuttingDown(Begin));
      ShutdownShows(model, ShutdownStep.Join);
      Step(ShuttingDown(ShutdownStep.Join));
    }

    /** The bounded wait, and a second pass if the count is not zero after it. Where nobody came in
        between, that pass has nothing to do, and so does not get stuck. */
    method WaitUndisturbed()
      requires Valid() && model.phase.Waiting? && model.inflightMutex.Free? && callbackQueue == [] && pendingRequests == map[]
      modifies `model, `callbackQueue, `queued, `replied, `inflight, `stats, `pendingRequests
      ensures Valid() && Leads(old(model), model) && model.phase.Waiting? && model.inflightMutex.Released?
      ensures inflight == old(inflight) && replied == old(replied)
    {
      hide Reachable, Completed, DispatcherAverage, IsHeap, Next, Enabled, Show, Leads;
      EmptyIndex(callbackQueue, queued);
      if inflight != 0 {
        var done := CancelAllCallbacks(true);
        assert replied == old(replied) + {} + {};
      } else {
        EndWaitPath(model, inflight);
        ShutdownShows(model, EndWait);
        Step(ShuttingDown(EndWait));
      }
    }

    /** The cancel pass, and the wait. */
    method CancelAndWait()
      requires Valid() && model.phase.Joined?
      modifies `model, `callbackQueue, `queued, `replied, `inflight, `stats, `pendingRequests
      ensures Valid() && Leads(old(model), model) && model.phase.Waiting? && model.inflightMutex.Released?
      ensures inflight == old(inflight) - |old(callbackQueue)| - |old(pendingRequests)|
      ensures replied == old(replied) + old(queued).Keys + old(pendingRequests).Keys
    {
      hide Reachable, Completed, DispatcherAverage, Indexed, IsHeap, Next, Enabled, Show, Leads;
      JoinedIsFree(model);
      var done := CancelAllCallbacks(false);
      ghost var t := model;
      WaitUndisturbed();
      LeadsFurther(old(model), t, model);
    }

    /** What follows the join. */
    method Close()
      requires Valid() && model.phase.Joined? && state == SHUTTING_DOWN
      modifies `state, `model, `callbackQueue, `queued, `replied, `inflight, `stats, `pendingRequests
      ensures Valid() && Leads(old(model), model) && model.phase.Closed? && state == SHUTDOWN
      ensures callbackQueue == [] && pendingRequests == map[]
      ensures inflight == old(inflight) - |old(callbackQueue)| - |old(pendingRequests)|
      ensures replied == old(replied) + old(queued).Keys + old(pendingRequests).Keys
    {
      hide Reachable, Completed, DispatcherAverage, Indexed, IsHeap, Next, Enabled, Show, Leads;
      CancelAndWait();
      ghost var t := model;
      Clear();
      LeadsFurther(old(model), t, model);
      state := SHUTDOWN;
    }

    /** A whole shutdown. Joining the workers waits until none of them holds an entry. */
    method Shutdown() returns (ok: bool)
      requires Valid() && state != SHUTTING_DOWN && (state == RUNNING ==> WorkersIdle(model))
      modifies `state, `accepting, `workersRunning
      modifies `model, `callbackQueue, `queued, `replied, `inflight, `stats, `pendingRequests
      ensures Valid() && ok && state == SHUTDOWN && Leads(old(model), model)
      ensures old(state) == SHUTDOWN ==> model == old(model) && inflight == old(inflight)
      ensures old(state) == RUNNING ==>
                && model.phase.Closed? && callbackQueue == [] && pendingRequests == map[]
                && inflight == old(inflight) - |old(callbackQueue)| - |old(pendingRequests)|
                && replied == old(replied) + old(queued).Keys + old(pendingRequests).Keys
    {
      hide Reachable, Completed, DispatcherAverage, Indexed, IsHeap, Next, Enabled, Show, Leads, WorkersIdle;
      LeadsNowhere(model);
      if state == SHUTDOWN {
        return true;
      }
      Stop();
      ghost var t := model;
      Close();
      LeadsFurther(old(model), t, model);
      ok := true;
    }

    method ClearQueueLocked()
      requires Valid() && model.phase.Waiting? && model.inflightMutex.Released?
      modifies `model, `callbackQueue, `queued
      ensures Valid() && model == Next(old(model), ShuttingDown(ClearQueue)) && callbackQueue == []
    {
      hide Reachable, Completed, DispatcherAverage, Next, Show;
      ShutdownShows(model, ClearQueue);
      callbackQueue, queued := [], map[];
      Step(ShuttingDown(ClearQueue));
    }

    /** The last, defensive clear. */
    method Clear()
      requires Valid() && model.phase.Waiting? && model.inflightMutex.Released?
      modifies `model, `callbackQueue, `queued, `pendingRequests
      ensures Valid() && Leads(old(model), model) && model.phase.Closed?
      ensures callbackQueue == [] && pendingRequests == map[]
    {
      hide Reachable, Completed, DispatcherAverage, Indexed, IsHeap, Next, Enabled, Show, Leads;
      ClearPath(model);
      ClearQueueLocked();
      ShutdownShows(model, ClearPending);
      pendingRequests := map[];
      Step(ShuttingDown(ClearPending));
    }
  }

  /** The first three steps of a dispatch. */
  lemma Registration(s: State)
    requires Reachable(s) && s.phase.Running?
    ensures s.nextId > 0 && s.nextId !in s.pending && Enabled(s, Dispatching(Enter, 0))
    ensures var id, t := s.nextId, Next(s, Dispatching(Enter, 0));
            && t.entering > 0 && t.nextId == id && Enabled(t, Dispatching(Allocate, id))
            && var u := Next(t, Dispatching(Allocate, id));
               && Enabled(u, Dispatching(Register, id))
               && var v := Next(u, Dispatching(Register, id));
                  && CallerAt(v, id, Registered) && v.phase.Running? && v.replied == s.replied && Leads(s, v)
  {
    ReachableInv(s);
    assert LocalAt(s, s.nextId);
    LeadsNowhere(s);
    LeadsOn(s, s, Dispatching(Enter, 0));
    var t := Next(s, Dispatching(Enter, 0));
    LeadsOn(s, t, Dispatching(Allocate, s.nextId));
    LeadsOn(s, Next(t, Dispatching(Allocate, s.nextId)), Dispatching(Register, s.nextId));
  }

  /** The last two of an accepted one. */
  lemma Admission(s: State, t: State, id: nat)
    requires Leads(s, t) && Enabled(t, Dispatching(DispatchStep.Push, id))
    ensures var u := Next(t, Dispatching(DispatchStep.Push, id));
            && Enabled(u, Dispatching(CountIn, id))
            && var v := Next(u, Dispatching(CountIn, id));
               CallerAt(v, id, Returned) && At(v, id, Queued) && v.phase == t.phase && v.replied == t.replied && Leads(s, v)
  {
    LeadsOn(s, t, Dispatching(DispatchStep.Push, id));
    LeadsOn(s, Next(t, Dispatching(DispatchStep.Push, id)), Dispatching(CountIn, id));
  }

  lemma Refusal(s: State, t: State, id: nat)
    requires Leads(s, t) && Enabled(t, Dispatching(FindFull, id)) && !t.phase.CancelPending?
    ensures var u := Next(t, Dispatching(FindFull, id));
            && Enabled(u, Dispatching(EraseRefused, id))
            && var v := Next(u, Dispatching(EraseRefused, id));
               CallerAt(v, id, Denied) && v.phase == t.phase && v.replied == t.replied && Leads(s, v)
  {
    LeadsOn(s, t, Dispatching(FindFull, id));
    LeadsOn(s, Next(t, Dispatching(FindFull, id)), Dispatching(EraseRefused, id));
  }

  lemma Denial(s: State, t: State, id: nat)
    requires Leads(s, t) && CallerAt(t, id, Denied)
    ensures Marks(t, Dispatching(Deny, id), id)
    ensures var u := Marked(t, Dispatching(Deny, id), id); CallerAt(u, id, Rejected) && Leads(s, u)
  {
    assert Enabled(t, Dispatching(Deny, id));
    ErrorsMark(t, Dispatching(Deny, id), id);
    LeadsMarked(s, t, Dispatching(Deny, id), id);
  }

  /** No queued entry ranks before the root. */
  lemma RootIsNext(c: seq<Slot<nat>>, queued: map<nat, Item<nat>>)
    requires IsHeap(c) && Indexed(c, queued) && c != []
    ensures c[0].Full? && IsHeapBelowRoot(c)
    ensures c[0].item.value in queued && queued[c[0].item.value] == c[0].item && Overtaking.IsNext(queued, c[0].item.value)
  {
    assert multiset(c)[c[0]] > 0;
    forall j | j in queued
      ensures !ComparePriority(c[0], Full(queued[j]))
    {
      assert multiset(c)[Full(queued[j])] == 1;
      var i :| 0 <= i < |c| && c[i] == Full(queued[j]);
      RootIsFirst(c, i);
    }
  }

  lemma QueuedCanBePopped(s: State, id: nat)
    requires Reachable(s) && WorkersAlive(s.phase) && id in Show(s).queue
    ensures Enabled(s, Working(WorkStep.Pop, id)) && At(Next(s, Working(WorkStep.Pop, id)), id, InHand)
  {
    ReachableInv(s);
    assert LocalAt(s, id);
    assert Shape(CellOf(s, id));
  }

  lemma FaultThenTell(s: State, id: nat)
    requires Enabled(s, Working(Fault, id)) && !s.phase.CancelPending?
    ensures Enabled(Next(s, Working(Fault, id)), Working(Tell, id))
    ensures Sending(Next(s, Working(Fault, id)), id, ByWorker) <==> Sending(s, id, ByWorker)
    ensures Show(Next(s, Working(Fault, id))).pending == Show(s).pending
  {
  }

  /** `HandleCallbackError`: count the error, then run the error callback of a pending entry. */
  ghost function Errored(s: State, id: nat): State
    requires Enabled(s, Working(Fault, id)) && !s.phase.CancelPending?
  {
    FaultThenTell(s, id);
    var t := Next(s, Working(Fault, id));
    if id in Show(t).pending then
      ErrorsMark(t, Working(Tell, id), id);
      Marked(t, Working(Tell, id), id)
    else Next(t, Working(Tell, id))
  }

  lemma InHandIsPending(s: State, id: nat)
    requires Reachable(s) && At(s, id, InHand)
    ensures WorkersAlive(s.phase) && id in Show(s).pending && Enabled(s, Working(Fault, id)) && Enabled(s, Working(Post, id))
  {
    ReachableInv(s);
    assert LocalAt(s, id);
    assert PendingKey(CellOf(s, id), s.phase, s.cleared) && Holder(CellOf(s, id), s.phase);
  }

  lemma PostPath(s: State, id: nat)
    requires Reachable(s) && At(s, id, InHand)
    ensures Enabled(s, Working(Post, id)) && Leads(s, Next(s, Working(Post, id))) && At(Next(s, Working(Post, id)), id, Posted)
  {
    InHandIsPending(s, id);
    LeadsNowhere(s);
    LeadsOn(s, s, Working(Post, id));
  }

  /** A worker's error path ends with the entry given up and still a key of the pending map. */
  lemma ErrorPath(s: State, id: nat)
    requires Reachable(s) && At(s, id, InHand)
    ensures Enabled(s, Working(Fault, id)) && !s.phase.CancelPending? && id in Show(s).pending
    ensures var t := Errored(s, id);
            && Enabled(t, Working(FaultDone, id))
            && var u := Next(t, Working(FaultDone, id)); At(u, id, Retained) && Leads(s, u)
  {
    InHandIsPending(s, id);
    LeadsNowhere(s);
    LeadsOn(s, s, Working(Fault, id));
    FaultThenTell(s, id);
    var t := Next(s, Working(Fault, id));
    ErrorsMark(t, Working(Tell, id), id);
    LeadsMarked(s, t, Working(Tell, id), id);
    NoSenderYet(s, id);
    ToldAfterwards(t, id);
    LeadsOn(s, Errored(s, id), Working(FaultDone, id));
  }

  lemma ToldAfterwards(t: State, id: nat)
    requires Marks(t, Working(Tell, id), id) && !Sending(t, id, ByWorker)
    ensures var u := Marked(t, Working(Tell, id), id);
            At(u, id, Told) && Enabled(u, Working(FaultDone, id)) && At(Next(u, Working(FaultDone, id)), id, Retained)
  {
  }

  lemma OneMoreObservation(obs: seq<Observation>, o: Observation)
    ensures Completed(obs + [o]) == Completed(obs) + if o.ok then 1 else 0
    ensures o.ok ==> DispatcherAverage(obs + [o]) == Updated(DispatcherAverage(obs), Completed(obs) + 1, o.latency)
    ensures !o.ok ==> DispatcherAverage(obs + [o]) == DispatcherAverage(obs)
  {
    assert (obs + [o])[..|obs|] == obs;
  }

  lemma StartPath(s: State, id: nat)
    requires At(s, id, Posted)
    ensures Enabled(s, InJs(Start, id))
    ensures var t := Next(s, InJs(Start, id));
            At(t, id, JsRunning) && t.callbackRuns[id] > 0 && t.phase == s.phase && Leads(s, t)
  {
    LeadsNowhere(s);
    LeadsOn(s, s, InJs(Start, id));
  }

  lemma AnswerPath(s: State, t: State, id: nat)
    requires Leads(s, t) && At(t, id, JsRunning) && t.callbackRuns[id] > 0
    ensures Marks(t, Replying(LateReply, id), id)
    ensures var u := Marked(t, Replying(LateReply, id), id); At(u, id, JsRunning) && u.phase == t.phase && Leads(s, u)
  {
    ErrorsMark(t, Replying(LateReply, id), id);
    LeadsMarked(s, t, Replying(LateReply, id), id);
  }

  /** A thread that is at an earlier point has no reply of its own on the way. */
  lemma NoSenderYet(s: State, id: nat)
    requires Reachable(s) && id in s.entry
    ensures !s.entry[id].Told? ==> !Sending(s, id, ByWorker)
    ensures !s.entry[id].JsReturned? ==> !Sending(s, id, ByJs)
    ensures !s.entry[id].SweepTold? && !(s.phase.CancelPending? && id in s.phase.told) ==> !Sending(s, id, ByShutdown)
  {
    ReachableInv(s);
    assert LocalAt(s, id);
    assert SenderStands(CellOf(s, id));
  }

  lemma ReturnPath(s: State, t: State, id: nat)
    requires Leads(s, t) && Reachable(t) && At(t, id, JsRunning)
    ensures Enabled(t, InJs(Return, id))
    ensures var u := Next(t, InJs(Return, id));
            At(u, id, JsReturned(true)) && Enabled(u, InJs(Count, id)) && u.phase == t.phase && Leads(s, u)
  {
    NoSenderYet(t, id);
    LeadsOn(s, t, InJs(Return, id));
  }

  lemma ThrowPath(s: State, t: State, id: nat)
    requires Leads(s, t) && Reachable(t) && At(t, id, JsRunning)
    ensures Enabled(t, InJs(Throw, id))
    ensures var u := Next(t, InJs(Throw, id));
            && Marks(u, InJs(Catch, id), id)
            && var v := Marked(u, InJs(Catch, id), id);
               At(v, id, JsReturned(false)) && Enabled(v, InJs(Count, id)) && v.phase == t.phase && Leads(s, v)
  {
    NoSenderYet(t, id);
    LeadsOn(s, t, InJs(Throw, id));
    var u := Next(t, InJs(Throw, id));
    ErrorsMark(u, InJs(Catch, id), id);
    LeadsMarked(s, u, InJs(Catch, id), id);
  }

  lemma FinishPath(s: State, t: State, id: nat)
    requires Leads(s, t) && Enabled(t, InJs(Count, id)) && !t.phase.CancelPending?
    ensures var u := Next(t, InJs(Count, id));
            && Enabled(u, InJs(Erase, id))
            && var v := Next(u, InJs(Erase, id));
               && Enabled(v, InJs(Done, id))
               && var w := Next(v, InJs(Done, id)); At(w, id, Finished(t.entry[id].ok)) && Leads(s, w)
  {
    LeadsOn(s, t, InJs(Count, id));
    var u := Next(t, InJs(Count, id));
    LeadsOn(s, u, InJs(Erase, id));
    LeadsOn(s, Next(u, InJs(Erase, id)), InJs(Done, id));
  }

  // ---------- The cancel pass ----------

  /** The state of the mutex of the bounded wait in a cancel pass, unless it is stuck. */
  predicate MutexIs(s: State, locked: bool) {
    s.inflightMutex == if locked then Held else Free
  }

  /** What a decrement in the pass does to it. */
  predicate MutexAfter(s: State, t: State) {
    t.inflightMutex == if s.inflightMutex.Held? && s.inflight == 1 then Relocked else s.inflightMutex
  }

  /** What a round of the first loop changes, of what the loop needs to know. */
  ghost predicate QueueRound(s: State, t: State, id: nat) {
    && t.phase == s.phase && MutexAfter(s, t)
    && (SweepIdle(s) ==> SweepIdle(t))
    && t.errorRuns == s.errorRuns + multiset{id}
  }

  lemma QueueRoundEffect(s: State, t: State, id: nat, locked: bool)
    requires QueueRound(s, t, id) && MutexIs(s, locked)
    ensures t.phase == s.phase && (SweepIdle(s) ==> SweepIdle(t)) && t.errorRuns == s.errorRuns + multiset{id}
    ensures if locked && Show(s).inflight == 1 then t.inflightMutex.Relocked? else MutexIs(t, locked)
  {
  }

  lemma CancelPopPath(s: State, id: nat)
    requires Reachable(s) && s.phase.CancelQueue? && !s.inflightMutex.Relocked? && id in Show(s).queue
    ensures Enabled(s, Cancelling(CancelPop, id))
    ensures var t := Next(s, Cancelling(CancelPop, id));
            && t.phase == s.phase && t.entry == s.entry[id := EntryPc.Sweeping] && t.errorRuns == s.errorRuns
            && t.inflightMutex == s.inflightMutex && t.inflight == s.inflight && !Sending(t, id, ByShutdown)
  {
    ReachableInv(s);
    assert LocalAt(s, id);
    assert Shape(CellOf(s, id));
    NoSenderYet(s, id);
  }

  lemma CancelTellPath(t: State, id: nat)
    requires At(t, id, EntryPc.Sweeping) && !t.inflightMutex.Relocked? && !Sending(t, id, ByShutdown)
    ensures Marks(t, Cancelling(CancelTell, id), id)
    ensures var u := Marked(t, Cancelling(CancelTell, id), id);
            && Enabled(u, Cancelling(CancelDone, id))
            && var v := Next(u, Cancelling(CancelDone, id));
               && v.phase == t.phase && v.entry == t.entry[id := SweepTold][id := Swept] && v.errorRuns == t.errorRuns + multiset{id}
               && MutexAfter(t, v)
  {
    ErrorsMark(t, Cancelling(CancelTell, id), id);
  }

  lemma QueueRoundPath(s: State, id: nat)
    requires Reachable(s) && s.phase.CancelQueue? && !s.inflightMutex.Relocked? && id in Show(s).queue
    ensures Enabled(s, Cancelling(CancelPop, id))
    ensures var t := Next(s, Cancelling(CancelPop, id));
            && Marks(t, Cancelling(CancelTell, id), id)
            && var u := Marked(t, Cancelling(CancelTell, id), id);
               && Enabled(u, Cancelling(CancelDone, id))
               && var v := Next(u, Cancelling(CancelDone, id)); QueueRound(s, v, id) && Leads(s, v)
  {
    hide Reachable, Next, Enabled, Marked, Marks, Leads, Show;
    CancelPopPath(s, id);
    LeadsNowhere(s);
    LeadsOn(s, s, Cancelling(CancelPop, id));
    var t := Next(s, Cancelling(CancelPop, id));
    CancelTellPath(t, id);
    LeadsMarked(s, t, Cancelling(CancelTell, id), id);
    LeadsOn(s, Marked(t, Cancelling(CancelTell, id), id), Cancelling(CancelDone, id));
  }

  ghost predicate PendingRound(s: State, t: State, id: nat) {
    && s.phase.CancelPending?
    && t.phase == CancelPending(s.phase.todo - {id}, {}) && MutexAfter(s, t)
    && t.errorRuns == s.errorRuns + multiset{id}
  }

  lemma PendingRoundEffect(s: State, t: State, id: nat, locked: bool)
    requires PendingRound(s, t, id) && MutexIs(s, locked)
    ensures s.phase.CancelPending? && t.phase == CancelPending(s.phase.todo - {id}, {})
    ensures t.errorRuns == s.errorRuns + multiset{id}
    ensures if locked && Show(s).inflight == 1 then t.inflightMutex.Relocked? else MutexIs(t, locked)
  {
  }

  lemma PendingHasNoSender(s: State, id: nat)
    requires Reachable(s) && s.phase.CancelPending? && id !in s.phase.told
    ensures !Sending(s, id, ByShutdown)
  {
    ReachableInv(s);
    assert LocalAt(s, id);
    assert SenderStands(CellOf(s, id)) && Holder(CellOf(s, id), s.phase);
  }

  lemma PendingRoundPath(s: State, id: nat)
    requires Reachable(s) && s.phase.CancelPending? && s.phase.told == {} && id in s.phase.todo && !s.inflightMutex.Relocked?
    ensures Marks(s, Cancelling(SweepTell, id), id)
    ensures var t := Marked(s, Cancelling(SweepTell, id), id);
            && Enabled(t, Cancelling(SweepDone, id))
            && var u := Next(t, Cancelling(SweepDone, id)); PendingRound(s, u, id) && Leads(s, u)
  {
    PendingHasNoSender(s, id);
    hide Reachable, Leads;
    ErrorsMark(s, Cancelling(SweepTell, id), id);
    LeadsNowhere(s);
    LeadsMarked(s, s, Cancelling(SweepTell, id), id);
    LeadsOn(s, Marked(s, Cancelling(SweepTell, id), id), Cancelling(SweepDone, id));
  }

  /** Where a pass can begin, without the mutex or with it. */
  predicate CanBeginCancel(s: State, inflight: int, locked: bool) {
    s.inflightMutex.Free? && if locked then s.phase.Waiting? && inflight != 0 else s.phase.Joined?
  }

  lemma BeginCancelPath(s: State, inflight: int, locked: bool)
    requires Reachable(s) && inflight == Show(s).inflight && CanBeginCancel(s, inflight, locked)
    ensures Enabled(s, ShuttingDown(BeginCancel))
    ensures var t := Next(s, ShuttingDown(BeginCancel));
            t.phase.CancelQueue? && SweepIdle(t) && MutexIs(t, locked) && t.errorRuns == s.errorRuns && Leads(s, t)
  {
    ReachableInv(s);
    forall id: nat | id in s.entry
      ensures !SweepHolds(s.entry[id])
    {
      assert LocalAt(s, id);
      assert Holder(CellOf(s, id), s.phase);
    }
    LeadsNowhere(s);
    LeadsOn(s, s, ShuttingDown(BeginCancel));
  }

  lemma EndQueuePath(s: State, t: State, pending: set<nat>)
    requires Leads(s, t) && t.phase.CancelQueue? && SweepIdle(t) && Show(t).queue == {} && pending == Show(t).pending
    requires !t.inflightMutex.Relocked?
    ensures Enabled(t, ShuttingDown(EndQueuePass))
    ensures var u := Next(t, ShuttingDown(EndQueuePass));
            u.phase == CancelPending(pending, {}) && u.inflightMutex == t.inflightMutex && u.errorRuns == t.errorRuns && Leads(s, u)
  {
    LeadsOn(s, t, ShuttingDown(EndQueuePass));
  }

  lemma JoinedIsFree(s: State)
    requires Reachable(s)
    ensures BeforeCancel(s.phase) ==> s.inflightMutex.Free?
  {
    ReachableMutexHeld(s);
  }

  lemma EndWaitPath(s: State, inflight: int)
    requires s.phase.Waiting? && s.inflightMutex.Free? && Show(s).inflight == inflight == 0
    ensures Enabled(s, ShuttingDown(EndWait))
    ensures var t := Next(s, ShuttingDown(EndWait)); t.phase.Waiting? && t.inflightMutex.Released? && Leads(s, t)
  {
    LeadsNowhere(s);
    LeadsOn(s, s, ShuttingDown(EndWait));
  }

  lemma JoinPath(s: State)
    requires Reachable(s) && Show(s).running && WorkersIdle(s)
    ensures Enabled(s, ShuttingDown(Begin))
    ensures var t := Next(s, ShuttingDown(Begin));
            && Enabled(t, ShuttingDown(ShutdownStep.Join))
            && var u := Next(t, ShuttingDown(ShutdownStep.Join)); u.phase.Joined? && Leads(s, u)
  {
    JoinedIsFree(s);
    LeadsNowhere(s);
    LeadsOn(s, s, ShuttingDown(Begin));
    LeadsOn(s, Next(s, ShuttingDown(Begin)), ShuttingDown(ShutdownStep.Join));
  }

  lemma ClearPath(s: State)
    requires s.phase.Waiting? && s.inflightMutex.Released?
    ensures Enabled(s, ShuttingDown(ClearQueue))
    ensures var t := Next(s, ShuttingDown(ClearQueue));
            && Enabled(t, ShuttingDown(ClearPending))
            && var u := Next(t, ShuttingDown(ClearPending)); u.phase.Closed? && Leads(s, u)
  {
    LeadsNowhere(s);
    LeadsOn(s, s, ShuttingDown(ClearQueue));
    LeadsOn(s, Next(s, ShuttingDown(ClearQueue)), ShuttingDown(ClearPending));
  }

  lemma EndPath(s: State, t: State, locked: bool)
    requires Leads(s, t) && t.phase == CancelPending({}, {}) && MutexIs(t, locked)
    ensures Enabled(t, ShuttingDown(EndPendingPass))
    ensures var u := Next(t, ShuttingDown(EndPendingPass));
            && u.phase.Waiting? && u.errorRuns == t.errorRuns && Leads(s, u)
            && u.inflightMutex == if locked then Released else Free
  {
    LeadsOn(s, t, ShuttingDown(EndPendingPass));
  }

  /** All of `was` but `now` has had its error callback run. */
  ghost predicate ToldAll(was: set<nat>, now: set<nat>, replied0: set<nat>, replied1: set<nat>, runs0: multiset<nat>, runs1: multiset<nat>) {
    && now <= was
    && replied1 == replied0 + (was - now)
    && runs1 == runs0 + multiset(was - now)
  }

  lemma NoneTold(was: set<nat>, replied: set<nat>, runs: multiset<nat>)
    ensures ToldAll(was, was, replied, replied, runs, runs)
  {
    assert was - was == {} && replied + {} == replied;
  }

  lemma OneTold(was: set<nat>, now: set<nat>, replied0: set<nat>, replied1: set<nat>, runs0: multiset<nat>, runs1: multiset<nat>, id: nat)
    requires ToldAll(was, now, replied0, replied1, runs0, runs1) && id in now
    ensures ToldAll(was, now - {id}, replied0, replied1 + {id}, runs0, runs1 + multiset{id})
  {
    assert was - (now - {id}) == (was - now) + {id};
  }

  lemma EveryoneTold(was: set<nat>, replied0: set<nat>, replied1: set<nat>, runs0: multiset<nat>, runs1: multiset<nat>)
    requires ToldAll(was, {}, replied0, replied1, runs0, runs1)
    ensures replied1 == replied0 + was && runs1 == runs0 + multiset(was)
  {
    assert was - {} == was;
  }

  /** One error callback for each. */
  lemma ToldSize(was: set<nat>, now: set<nat>, replied0: set<nat>, replied1: set<nat>, runs0: multiset<nat>, runs1: multiset<nat>)
    requires ToldAll(was, now, replied0, replied1, runs0, runs1)
    ensures |runs1| == |runs0| + |was| - |now|
  {
    assert |was - now| == |was| - |now| by {
      assert was == (was - now) + now;
    }
  }

  lemma QueueSize(c: seq<Slot<nat>>, queued: map<nat, Item<nat>>)
    requires Indexed(c, queued)
    ensures |queued.Keys| == |c|
  {
    assert |queued| == |queued.Keys|;
  }

  lemma EmptyIndex(c: seq<Slot<nat>>, queued: map<nat, Item<nat>>)
    requires Indexed(c, queued) && c == []
    ensures queued == map[] && queued.Keys == {}
  {
  }

  lemma NotQueuedYet(s: State, id: nat)
    requires Reachable(s) && Enabled(s, Dispatching(DispatchStep.Push, id))
    ensures id !in Show(s).queue
  {
    ReachableInv(s);
    assert LocalAt(s, id);
    assert Shape(CellOf(s, id));
  }
}
