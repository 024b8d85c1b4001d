/** The per-descriptor write queue: what each critical section does to its state, and what
    every run of them keeps.
  */
module WriteQueue {
  import opened Basics
  import opened PriorityHeap
  import opened RollingAverage
  import Overtaking

  /** An enqueued write; the queue assigns `id`. */
  datatype WriteOperation = WriteOperation(
    fd: nat,
    offset: nat,
    data: seq<int>,
    hasCompletion: bool,   // completion_callback is set
    hasError: bool,        // error_callback is set
    id: nat)

  type Entry = Item<WriteOperation>

  /** A callback that was run, with the id of its operation and the code it got. */
  datatype Call = Call(completion: bool, id: nat, code: int)

  datatype Stats = Stats(
    total: nat,
    completed: nat,
    failed: nat,
    bytesWritten: nat,
    queueSize: nat,
    maxQueueSize: nat,
    average: real)

  const NO_STATS := Stats(0, 0, 0, 0, 0, 0, 0.0)

  datatype Queue = Queue(
    limit: nat,                    // max_queue_size_, 0 for none
    nextId: nat,
    heap: seq<Slot<WriteOperation>>,
    stats: Stats,
    // what the source does not store
    waiting: map<nat, Entry>,      // the entries in the heap, by id
    executing: map<nat, WriteOperation>,
    left: set<nat>,                // ids that were executed or cancelled
    calls: seq<Call>,
    carried: nat,                  // queued or executing at the last reset
    observed: seq<Observation>,    // executions since the last reset
    unreported: bool)              // the queue has not changed since the last reset

  function NewQueue(limit: nat): Queue {
    Queue(limit, 1, [], NO_STATS, map[], map[], {}, [], 0, [], false)
  }

  // ---------- The critical sections ----------

  predicate IsFull(q: Queue) {
    q.limit > 0 && |q.heap| >= q.limit
  }

  function WithId(x: Entry, id: nat): Entry {
    x.(value := x.value.(id := id))
  }

  /** `Enqueue` of a non-null operation; 0 when the queue is full. */
  function Enqueued(q: Queue, x: Entry): Queue {
    if IsFull(q) then q
    else
      var y := WithId(x, q.nextId);
      var size := |q.heap| + 1;
      q.(nextId := q.nextId + 1,
         heap := Pushed(q.heap, y),
         waiting := q.waiting[q.nextId := y],
         stats := q.stats.(queueSize := size, maxQueueSize := Max(q.stats.maxQueueSize, size), total := q.stats.total + 1),
         unreported := false)
  }

  /** The locked part of one round of `ProcessQueue`: the top leaves the heap. */
  function Taken(q: Queue): Queue
    requires q.heap != [] && q.heap[0].Full?
  {
    var op := q.heap[0].item.value;
    q.(heap := Popped(q.heap),
       waiting := q.waiting - {op.id},
       executing := q.executing[op.id := op],
       stats := q.stats.(queueSize := |q.heap| - 1),
       unreported := false)
  }

  /** What runs after the executor returned `result`: at most one of the two callbacks. */
  function CallsFor(op: WriteOperation, result: int): (calls: seq<Call>) {
    if op.hasCompletion then [Call(true, op.id, result)]
    else if result < 0 && op.hasError then [Call(false, op.id, result)]
    else []
  }

  /** The rest of the round: `UpdateStats` and the callbacks. */
  function Finished(q: Queue, op: WriteOperation, result: int, latency: real): Queue {
    var ok := result >= 0;
    var completed := q.stats.completed + if ok then 1 else 0;
    q.(executing := q.executing - {op.id},
       left := q.left + {op.id},
       calls := q.calls + CallsFor(op, result),
       observed := q.observed + [Observation(latency, ok)],
       stats := q.stats.(
         completed := completed,
         bytesWritten := q.stats.bytesWritten + if ok then |op.data| else 0,
         failed := q.stats.failed + if ok then 0 else 1,
         average := if completed > 0 then Updated(q.stats.average, completed, latency) else q.stats.average))
  }

  /** One round of the loop in `CancelAll`. */
  function CancelledTop(q: Queue, code: int): Queue
    requires q.heap != [] && q.heap[0].Full?
  {
    var op := q.heap[0].item.value;
    q.(heap := Popped(q.heap),
       waiting := q.waiting - {op.id},
       left := q.left + {op.id},
       calls := q.calls + if op.hasError then [Call(false, op.id, code)] else [],
       stats := q.stats.(failed := q.stats.failed + 1))
  }

  /** `CancelAll`, which holds the lock throughout. */
  function Cancelled(q: Queue, code: int): (r: Queue)
    requires IsHeap(q.heap)
    ensures r.heap == []
    decreases |q.heap|
  {
    if q.heap == [] then q.(stats := q.stats.(queueSize := 0), unreported := false)
    else
      PoppedIsHeap(q.heap);
      Cancelled(CancelledTop(q, code), code)
  }

  function Reset(q: Queue): Queue {
    q.(stats := NO_STATS, carried := |q.heap| + |q.executing|, observed := [], unreported := true)
  }

  // ---------- What every run keeps ----------

  ghost function SlotsOf(m: map<nat, Entry>): set<Slot<WriteOperation>> {
    set id | id in m :: Full(m[id])
  }

  /** The heap is a heap, and holds exactly the waiting entries, each once. */
  ghost predicate Indexed(q: Queue) {
    && IsHeap(q.heap)
    && multiset(q.heap) == multiset(SlotsOf(q.waiting))
    && |q.heap| == |q.waiting|
    && (forall id :: id in q.waiting ==> q.waiting[id].value.id == id)
    && (forall id :: id in q.executing ==> q.executing[id].id == id)
  }

  /** Each id ever given out is waiting, executing or gone, and only one of these. */
  ghost predicate Partitioned(q: Queue) {
    && q.nextId >= 1
    && (forall id :: 1 <= id < q.nextId <==> id in q.waiting || id in q.executing || id in q.left)
    && (forall id :: id in q.waiting ==> id !in q.executing && id !in q.left)
    && (forall id :: id in q.executing ==> id !in q.left)
  }

  /** A callback runs only for an id that has left, and at most one for each. */
  ghost predicate CalledOnce(q: Queue) {
    && (forall i :: 0 <= i < |q.calls| ==> q.calls[i].id in q.left)
    && (forall i, j :: 0 <= i < j < |q.calls| ==> q.calls[i].id != q.calls[j].id)
  }

  /** Nothing is lost or counted twice, also across resets. */
  ghost predicate Conserved(q: Queue) {
    q.stats.total + q.carried == q.stats.completed + q.stats.failed + |q.heap| + |q.executing|
  }

  /** `queue_size` is the real size, except from a reset to the next change of the queue. */
  predicate SizeReported(q: Queue) {
    q.stats.queueSize == if q.unreported then 0 else |q.heap|
  }

  ghost predicate Averaged(q: Queue) {
    && q.stats.average == WriteQueueAverage(q.observed)
    && q.stats.completed == Completed(q.observed)
  }

  ghost predicate Inv(q: Queue) {
    Indexed(q) && Partitioned(q) && CalledOnce(q) && Conserved(q) && SizeReported(q) && Averaged(q)
  }

  lemma SlotsOfAdded(m: map<nat, Entry>, id: nat, x: Entry)
    requires forall i :: i in m ==> m[i].value.id == i
    requires id !in m && x.value.id == id
    ensures Full(x) !in SlotsOf(m)
    ensures SlotsOf(m[id := x]) == SlotsOf(m) + {Full(x)}
    ensures multiset(SlotsOf(m[id := x])) == multiset(SlotsOf(m)) + multiset{Full(x)}
  {
    forall y
      ensures y in SlotsOf(m[id := x]) <==> y in SlotsOf(m) + {Full(x)}
    {
      if y in SlotsOf(m) {
        var i :| i in m && y == Full(m[i]);
        assert m[id := x][i] == m[i];
      }
      if y == Full(x) {
        assert m[id := x][id] == x;
      }
    }
  }

  lemma SlotsOfRemoved(m: map<nat, Entry>, id: nat)
    requires forall i :: i in m ==> m[i].value.id == i
    requires id in m
    ensures SlotsOf(m - {id}) == SlotsOf(m) - {Full(m[id])}
    ensures multiset(SlotsOf(m - {id})) == multiset(SlotsOf(m)) - multiset{Full(m[id])}
    ensures |m - {id}| == |m| - 1
  {
    forall y
      ensures y in SlotsOf(m - {id}) <==> y in SlotsOf(m) - {Full(m[id])}
    {
      if y in SlotsOf(m) - {Full(m[id])} {
        var i :| i in m && y == Full(m[i]);
        assert i in m - {id};
      }
    }
    assert (m - {id}).Keys == m.Keys - {id};
  }

  /** The root of the heap is the waiting entry with the root's id. */
  lemma RootIsWaiting(q: Queue)
    requires Indexed(q) && q.heap != []
    ensures q.heap[0].item.value.id in q.waiting
    ensures q.waiting[q.heap[0].item.value.id] == q.heap[0].item
  {
    assert q.heap[0] in multiset(q.heap);
    assert q.heap[0] in SlotsOf(q.waiting);
  }

  /** It is the operation that no waiting one ranks before. */
  lemma RootIsNext(q: Queue)
    requires Indexed(q) && q.heap != []
    ensures Overtaking.IsNext(q.waiting, q.heap[0].item.value.id)
  {
    RootIsWaiting(q);
    forall j | j in q.waiting
      ensures !ComparePriority(q.heap[0], Full(q.waiting[j]))
    {
      assert Full(q.waiting[j]) in SlotsOf(q.waiting);
      assert Full(q.waiting[j]) in multiset(q.heap);
      var i :| 0 <= i < |q.heap| && q.heap[i] == Full(q.waiting[j]);
      RootIsFirst(q.heap, i);
    }
  }

  lemma NewQueueInv(limit: nat)
    ensures Inv(NewQueue(limit))
  {
    assert SlotsOf(map[]) == {};
  }

  lemma PushIndexed(c: seq<Slot<WriteOperation>>, m: map<nat, Entry>, x: Entry)
    requires IsHeap(c) && multiset(c) == multiset(SlotsOf(m)) && |c| == |m|
    requires forall i :: i in m ==> m[i].value.id == i
    requires x.value.id !in m
    ensures var n := m[x.value.id := x];
            IsHeap(Pushed(c, x)) && multiset(Pushed(c, x)) == multiset(SlotsOf(n)) && |Pushed(c, x)| == |n|
  {
    PushedIsHeap(c, x);
    SlotsOfAdded(m, x.value.id, x);
  }

  lemma EnqueuedIndexed(q: Queue, x: Entry)
    requires Indexed(q) && Partitioned(q) && !IsFull(q)
    ensures Indexed(Enqueued(q, x))
  {
    assert q.nextId !in q.waiting;
    PushIndexed(q.heap, q.waiting, WithId(x, q.nextId));
  }

  lemma EnqueuedPartitioned(q: Queue, x: Entry)
    requires Partitioned(q) && !IsFull(q)
    ensures Partitioned(Enqueued(q, x))
  {
  }

  lemma EnqueuedInv(q: Queue, x: Entry)
    requires Inv(q)
    ensures Inv(Enqueued(q, x))
  {
    if !IsFull(q) {
      EnqueuedIndexed(q, x);
      EnqueuedPartitioned(q, x);
    }
  }

  lemma PopIndexed(q: Queue)
    requires Indexed(q) && q.heap != []
    ensures var id := q.heap[0].item.value.id;
            && id in q.waiting
            && IsHeap(Popped(q.heap))
            && multiset(Popped(q.heap)) == multiset(SlotsOf(q.waiting - {id}))
            && |Popped(q.heap)| == |q.waiting - {id}|
  {
    RootIsWaiting(q);
    PoppedIsHeap(q.heap);
    SlotsOfRemoved(q.waiting, q.heap[0].item.value.id);
  }

  lemma TakenPartitioned(q: Queue)
    requires Indexed(q) && Partitioned(q) && q.heap != []
    ensures Partitioned(Taken(q)) && |Taken(q).executing| == |q.executing| + 1
  {
    RootIsWaiting(q);
    assert q.heap[0].item.value.id !in q.executing;
  }

  lemma TakenIndexed(q: Queue)
    requires Indexed(q) && q.heap != []
    ensures Indexed(Taken(q))
  {
    PopIndexed(q);
  }

  lemma TakenInv(q: Queue)
    requires Inv(q) && q.heap != []
    ensures Inv(Taken(q))
  {
    TakenIndexed(q);
    TakenPartitioned(q);
  }

  lemma FinishedPartitioned(q: Queue, op: WriteOperation, result: int, latency: real)
    requires Partitioned(q) && op.id in q.executing
    ensures Partitioned(Finished(q, op, result, latency))
    ensures |Finished(q, op, result, latency).executing| == |q.executing| - 1
  {
    var r := Finished(q, op, result, latency);
    assert r.executing.Keys == q.executing.Keys - {op.id};
  }

  lemma FinishedCalledOnce(q: Queue, op: WriteOperation, result: int, latency: real)
    requires Partitioned(q) && CalledOnce(q) && op.id in q.executing
    ensures CalledOnce(Finished(q, op, result, latency))
  {
    assert op.id !in q.left;
  }

  lemma FinishedAveraged(q: Queue, op: WriteOperation, result: int, latency: real)
    requires Averaged(q)
    ensures Averaged(Finished(q, op, result, latency))
  {
    var r := Finished(q, op, result, latency);
    assert r.observed[..|r.observed| - 1] == q.observed;
  }

  lemma FinishedInv(q: Queue, op: WriteOperation, result: int, latency: real)
    requires Inv(q) && op.id in q.executing
    ensures Inv(Finished(q, op, result, latency))
  {
    FinishedPartitioned(q, op, result, latency);
    FinishedCalledOnce(q, op, result, latency);
    FinishedAveraged(q, op, result, latency);
  }

  lemma CancelledTopPartitioned(q: Queue, code: int)
    requires Indexed(q) && Partitioned(q) && CalledOnce(q) && q.heap != []
    ensures Partitioned(CancelledTop(q, code)) && CalledOnce(CancelledTop(q, code))
  {
    RootIsWaiting(q);
    assert q.heap[0].item.value.id !in q.left;
  }

  lemma CancelledTopInv(q: Queue, code: int)
    requires Indexed(q) && Partitioned(q) && CalledOnce(q) && Conserved(q) && Averaged(q) && q.heap != []
    ensures var r := CancelledTop(q, code);
            Indexed(r) && Partitioned(r) && CalledOnce(r) && Conserved(r) && Averaged(r)
  {
    PopIndexed(q);
    CancelledTopPartitioned(q, code);
  }

  lemma EmptyCancelledInv(q: Queue, code: int)
    requires Indexed(q) && Partitioned(q) && CalledOnce(q) && Conserved(q) && Averaged(q) && q.heap == []
    ensures Inv(Cancelled(q, code)) && Cancelled(q, code).heap == [] && q.waiting == map[]
  {
  }

  lemma CancelledStep(q: Queue, code: int)
    requires IsHeap(q.heap) && q.heap != []
    ensures IsHeap(CancelledTop(q, code).heap)
    ensures Cancelled(q, code) == Cancelled(CancelledTop(q, code), code)
  {
    PoppedIsHeap(q.heap);
  }

  lemma {:induction false} CancelledInv(q: Queue, code: int)
    requires Indexed(q) && Partitioned(q) && CalledOnce(q) && Conserved(q) && Averaged(q)
    ensures Inv(Cancelled(q, code))
    decreases |q.heap|
  {
    if q.heap == [] {
      EmptyCancelledInv(q, code);
    } else {
      CancelledTopInv(q, code);
      CancelledStep(q, code);
      CancelledInv(CancelledTop(q, code), code);
    }
  }

  /** After `CancelAll` the queue is empty, exactly the waiting ids have left, each counted as
      a failure, and nothing that was executing is affected. */
  lemma {:induction false} CancelAllEmpties(q: Queue, code: int)
    requires Indexed(q)
    ensures var r := Cancelled(q, code);
            && r.heap == [] && r.waiting == map[] && r.executing == q.executing
            && r.left == q.left + q.waiting.Keys
            && r.stats.failed == q.stats.failed + |q.heap|
            && r.stats.completed == q.stats.completed && r.stats.total == q.stats.total
    decreases |q.heap|
  {
    if q.heap != [] {
      PopIndexed(q);
      CancelledStep(q, code);
      var r := CancelledTop(q, code);
      CancelAllEmpties(r, code);
      assert r.left + r.waiting.Keys == q.left + q.waiting.Keys;
    }
  }

  lemma ResetInv(q: Queue)
    requires Inv(q)
    ensures Inv(Reset(q))
  {
  }

  // ---------- Runs of any number of threads ----------

  /** One critical section, or the unlocked tail of a round of `ProcessQueue`, of any thread. */
  datatype Action =
    | Enqueue(x: Entry)
    | Take
    | Finish(id: nat, result: int, latency: real)
    | CancelAll(code: int)
    | ResetStats
    | SetMaxQueueSize(limit: nat)

  ghost predicate Enabled(q: Queue, a: Action) {
    match a
    case Take => q.heap != [] && q.heap[0].Full?
    case Finish(id, _, _) => id in q.executing
    case CancelAll(_) => IsHeap(q.heap)
    case _ => true
  }

  ghost function Next(q: Queue, a: Action): Queue
    requires Enabled(q, a)
  {
    match a
    case Enqueue(x) => Enqueued(q, x)
    case Take => Taken(q)
    case Finish(id, result, latency) => Finished(q, q.executing[id], result, latency)
    case CancelAll(code) => Cancelled(q, code)
    case ResetStats => Reset(q)
    case SetMaxQueueSize(limit) => q.(limit := limit)
  }

  ghost predicate Runs(q: Queue, run: seq<Action>)
    decreases |run|
  {
    run == [] || (Enabled(q, run[0]) && Runs(Next(q, run[0]), run[1..]))
  }

  ghost function After(q: Queue, run: seq<Action>): Queue
    requires Runs(q, run)
    decreases |run|
  {
    if run == [] then q else After(Next(q, run[0]), run[1..])
  }

  lemma StepKeepsInv(q: Queue, a: Action)
    requires Inv(q) && Enabled(q, a)
    ensures Inv(Next(q, a))
  {
    match a
    case Enqueue(x) => EnqueuedInv(q, x);
    case Take => TakenInv(q);
    case Finish(id, result, latency) => FinishedInv(q, q.executing[id], result, latency);
    case CancelAll(code) => CancelledInv(q, code);
    case ResetStats => ResetInv(q);
    case SetMaxQueueSize(limit) =>
  }

  lemma {:induction false} RunKeepsInv(q: Queue, run: seq<Action>)
    requires Inv(q) && Runs(q, run)
    ensures Inv(After(q, run))
    decreases |run|
  {
    if run != [] {
      StepKeepsInv(q, run[0]);
      RunKeepsInv(Next(q, run[0]), run[1..]);
    }
  }

  /** Over every interleaving of enqueues, executions, cancellations and resets, operations
      are conserved, and each id is waiting, executing or gone. */
  lemma OperationsAreConserved(limit: nat, run: seq<Action>)
    requires Runs(NewQueue(limit), run)
    ensures var q := After(NewQueue(limit), run);
            && q.stats.total + q.carried == q.stats.completed + q.stats.failed + |q.heap| + |q.executing|
            && q.nextId - 1 == |q.waiting| + |q.executing| + |q.left|
  {
    NewQueueInv(limit);
    RunKeepsInv(NewQueue(limit), run);
    PartitionCount(After(NewQueue(limit), run));
  }

  ghost function Ids(n: nat): (s: set<nat>)
    ensures |s| == n && forall id :: id in s <==> 1 <= id <= n
  {
    if n == 0 then {} else Ids(n - 1) + {n}
  }

  /** Three sets without a common element that together hold the first `n` numbers. */
  lemma ThreeParts(n: nat, a: set<nat>, b: set<nat>, c: set<nat>)
    requires forall id: nat :: 1 <= id <= n <==> id in a || id in b || id in c
    requires (forall id :: id in a ==> id !in b && id !in c) && (forall id :: id in b ==> id !in c)
    ensures n == |a| + |b| + |c|
  {
    var ab := a + b;
    assert ab + c == Ids(n);
    assert a !! b && ab !! c;
    assert |ab + c| == |ab| + |c| && |ab| == |a| + |b|;
  }

  lemma PartitionCount(q: Queue)
    requires Partitioned(q)
    ensures q.nextId - 1 == |q.waiting| + |q.executing| + |q.left|
  {
    var a, b, c := q.waiting.Keys, q.executing.Keys, q.left;
    ThreeParts(q.nextId - 1, a, b, c);
    assert |q.waiting| == |a| && |q.executing| == |b|;
  }

  /** Each id is called back at most once, never while it waits or executes. */
  lemma AtMostOneCallback(limit: nat, run: seq<Action>, i: nat, j: nat)
    requires Runs(NewQueue(limit), run)
    requires i < j < |After(NewQueue(limit), run).calls|
    ensures var q := After(NewQueue(limit), run);
            && q.calls[i].id != q.calls[j].id
            && q.calls[i].id !in q.waiting && q.calls[i].id !in q.executing
  {
    NewQueueInv(limit);
    RunKeepsInv(NewQueue(limit), run);
  }

  // ---------- The statistic that the draining check reads ----------

  function TotalReported(qs: seq<Queue>): nat {
    if qs == [] then 0 else TotalReported(qs[..|qs| - 1]) + qs[|qs| - 1].stats.queueSize
  }

  lemma {:induction false} ReportedAtLeast(qs: seq<Queue>, i: nat)
    requires i < |qs|
    ensures TotalReported(qs) >= qs[i].stats.queueSize
  {
    if i < |qs| - 1 {
      ReportedAtLeast(qs[..|qs| - 1], i);
    }
  }

  lemma {:induction false} AllZeroReported(qs: seq<Queue>)
    requires forall i :: 0 <= i < |qs| ==> qs[i].stats.queueSize == 0
    ensures TotalReported(qs) == 0
  {
    if qs != [] {
      AllZeroReported(qs[..|qs| - 1]);
    }
  }

  /** An aggregate `queue_size` of zero means: every queue is empty or was not touched since
      its statistics were last reset. */
  lemma DrainedMeansEmpty(qs: seq<Queue>)
    requires forall i :: 0 <= i < |qs| ==> Inv(qs[i])
    ensures TotalReported(qs) == 0 <==> forall i :: 0 <= i < |qs| ==> qs[i].heap == [] || qs[i].unreported
  {
    if TotalReported(qs) == 0 {
      forall i | 0 <= i < |qs|
        ensures qs[i].heap == [] || qs[i].unreported
      {
        ReportedAtLeast(qs, i);
        assert SizeReported(qs[i]);
      }
    } else if forall i :: 0 <= i < |qs| ==> qs[i].heap == [] || qs[i].unreported {
      forall i | 0 <= i < |qs|
        ensures qs[i].stats.queueSize == 0
      {
        assert SizeReported(qs[i]);
      }
      AllZeroReported(qs);
    }
  }

  lemma {:induction false} CancelledReported(q: Queue, code: int)
    requires IsHeap(q.heap)
    ensures !Cancelled(q, code).unreported
    decreases |q.heap|
  {
    if q.heap != [] {
      PoppedIsHeap(q.heap);
      CancelledReported(CancelledTop(q, code), code);
    }
  }

  /** The action changes the queue, or empties it. */
  ghost predicate Touches(q: Queue, a: Action) {
    (a.Enqueue? && !IsFull(q)) || a.Take? || a.CancelAll?
  }

  lemma StepReports(q: Queue, a: Action)
    requires Enabled(q, a)
    ensures Next(q, a).unreported <==> a.ResetStats? || (q.unreported && !Touches(q, a))
  {
    if a.CancelAll? {
      CancelledReported(q, a.code);
    }
  }

  lemma {:induction false} AfterPrefix(q: Queue, run: seq<Action>, j: nat)
    requires Runs(q, run) && j < |run|
    ensures Runs(q, run[..j]) && Runs(q, run[..j + 1]) && Enabled(After(q, run[..j]), run[j])
    ensures After(q, run[..j + 1]) == Next(After(q, run[..j]), run[j])
    decreases |run|
  {
    hide Enabled, Next;
    assert run[..j + 1][1..] == run[1..][..j];
    if j > 0 {
      assert run[..j][1..] == run[1..][..j - 1];
      AfterPrefix(Next(q, run[0]), run[1..], j - 1);
    }
  }

  /** At its `j`-th action the run changes the queue. */
  ghost predicate TouchedAt(q: Queue, run: seq<Action>, j: nat)
    requires j < |run|
  {
    Runs(q, run[..j]) && Touches(After(q, run[..j]), run[j])
  }

  /** Among the first `n` actions is a reset, and none of those after it changes the queue: no
      operation is accepted, taken or cancelled. */
  ghost predicate ResetLast(q: Queue, run: seq<Action>, n: nat)
    requires n <= |run|
  {
    exists i :: 0 <= i < n && run[i].ResetStats? && forall j :: i < j < n ==> !TouchedAt(q, run, j)
  }

  lemma {:induction false} UnreportedAt(q: Queue, run: seq<Action>, n: nat)
    requires Runs(q, run) && !q.unreported && n <= |run|
    ensures Runs(q, run[..n])
    ensures After(q, run[..n]).unreported <==> ResetLast(q, run, n)
    decreases n
  {
    hide Enabled, Next, Touches;
    if n > 0 {
      var i := n - 1;
      AfterPrefix(q, run, i);
      UnreportedAt(q, run, i);
      StepReports(After(q, run[..i]), run[i]);
      if ResetLast(q, run, i) && !TouchedAt(q, run, i) {
        var k :| 0 <= k < i && run[k].ResetStats? && forall j :: k < j < i ==> !TouchedAt(q, run, j);
        assert forall j :: k < j < n ==> !TouchedAt(q, run, j);
      }
    }
  }

  /** The size is unreported exactly after a reset that no change of the queue has followed. */
  lemma UnreportedExactly(q: Queue, run: seq<Action>)
    requires Runs(q, run) && !q.unreported
    ensures After(q, run).unreported <==> ResetLast(q, run, |run|)
  {
    UnreportedAt(q, run, |run|);
    assert run[..|run|] == run;
  }

  /** What the draining check can conclude from an aggregate of zero, over all runs of all queues:
      each is empty, or was reset and not changed since. */
  lemma DrainedExactly(limits: seq<nat>, runs: seq<seq<Action>>, qs: seq<Queue>)
    requires |limits| == |runs| == |qs|
    requires forall i :: 0 <= i < |qs| ==> Runs(NewQueue(limits[i]), runs[i]) && qs[i] == After(NewQueue(limits[i]), runs[i])
    ensures TotalReported(qs) == 0 <==>
              forall i :: 0 <= i < |qs| ==> qs[i].heap == [] || ResetLast(NewQueue(limits[i]), runs[i], |runs[i]|)
  {
    hide Inv, ResetLast, NewQueue;
    forall i | 0 <= i < |qs|
      ensures Inv(qs[i]) && (qs[i].unreported <==> ResetLast(NewQueue(limits[i]), runs[i], |runs[i]|))
    {
      NewQueueInv(limits[i]);
      RunKeepsInv(NewQueue(limits[i]), runs[i]);
      NewQueueReported(limits[i]);
      UnreportedExactly(NewQueue(limits[i]), runs[i]);
    }
    DrainedMeansEmpty(qs);
  }

  lemma NewQueueReported(limit: nat)
    ensures !NewQueue(limit).unreported
  {
  }

  /** In particular, without resets the report is current. */
  lemma WithoutResetsReported(q: Queue, run: seq<Action>)
    requires Runs(q, run) && !q.unreported && forall a :: a in run ==> !a.ResetStats?
    ensures !After(q, run).unreported
  {
    UnreportedExactly(q, run);
  }

  /** One reset is enough to hide a waiting operation from the draining check. */
  lemma ResetHidesAWaitingOperation(x: Entry)
    ensures var q := Reset(Enqueued(NewQueue(0), x));
            Inv(q) && q.heap != [] && TotalReported([q]) == 0
  {
    NewQueueInv(0);
    EnqueuedInv(NewQueue(0), x);
    ResetInv(Enqueued(NewQueue(0), x));
    assert [Reset(Enqueued(NewQueue(0), x))][..0] == [];
  }
}
