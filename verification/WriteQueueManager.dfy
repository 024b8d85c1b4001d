/** Executing queued writes: the queue class, the manager over all descriptors, and why the
    order in which the manager's map visits descriptors does not matter.
  */
module WriteQueueManager {
  import opened Basics
  import opened PriorityHeap
  import opened RollingAverage
  import opened WriteQueue
  import WriteQueueCallbacks

  type File = seq<int>

  /** The contents of all files; a file that is not listed is empty. */
  type Files = map<nat, File>

  /** The executor sees the operation and the file it names, and touches no other file. */
  type Executor = (WriteOperation, File) -> (File, int)

  function FileOf(w: Files, fd: nat): File {
    if fd in w then w[fd] else []
  }

  // ---------- What one queue does ----------

  /** A round of `ProcessQueue` with nobody else at the queue. */
  function Round(q: Queue, exec: Executor, latency: WriteOperation -> real, w: Files): (Queue, Files)
    requires q.heap != [] && q.heap[0].Full?
  {
    var op := q.heap[0].item.value;
    var (f, result) := exec(op, FileOf(w, op.fd));
    (Finished(Taken(q), op, result, latency(op)), w[op.fd := f])
  }

  function Processed(q: Queue, exec: Executor, latency: WriteOperation -> real, w: Files): (r: (Queue, Files))
    requires IsHeap(q.heap)
    ensures r.0.heap == []
    decreases |q.heap|
  {
    if q.heap == [] then (q, w)
    else
      PoppedIsHeap(q.heap);
      var (q', w') := Round(q, exec, latency, w);
      Processed(q', exec, latency, w')
  }

  /** Run the operations one after the other, each on the file it names. */
  function RunOps(ops: seq<Entry>, exec: Executor, w: Files): Files {
    if ops == [] then w
    else
      var op := ops[0].value;
      RunOps(ops[1..], exec, w[op.fd := exec(op, FileOf(w, op.fd)).0])
  }

  /** The same on a single file. */
  function RunOnFile(ops: seq<Entry>, exec: Executor, f: File): File {
    if ops == [] then f else RunOnFile(ops[1..], exec, exec(ops[0].value, f).0)
  }

  /** `ProcessQueue` executes the drained order, once each. */
  lemma {:induction false} ProcessedRunsDrained(q: Queue, exec: Executor, latency: WriteOperation -> real, w: Files)
    requires IsHeap(q.heap)
    ensures Processed(q, exec, latency, w).1 == RunOps(Drained(q.heap), exec, w)
    decreases |q.heap|
  {
    if q.heap != [] {
      PoppedIsHeap(q.heap);
      var (q', w') := Round(q, exec, latency, w);
      ProcessedRunsDrained(q', exec, latency, w');
      assert Drained(q.heap)[1..] == Drained(Popped(q.heap));
    }
  }

  lemma {:induction false} ProcessedInv(q: Queue, exec: Executor, latency: WriteOperation -> real, w: Files)
    requires Inv(q)
    ensures Inv(Processed(q, exec, latency, w).0)
    decreases |q.heap|
  {
    if q.heap != [] {
      RoundInv(q, exec, latency, w);
      var (q', w') := Round(q, exec, latency, w);
      ProcessedInv(q', exec, latency, w');
    }
  }

  lemma RoundInv(q: Queue, exec: Executor, latency: WriteOperation -> real, w: Files)
    requires Inv(q) && q.heap != []
    ensures Inv(Round(q, exec, latency, w).0)
  {
    TakenInv(q);
    var op := q.heap[0].item.value;
    FinishedInv(Taken(q), op, exec(op, FileOf(w, op.fd)).1, latency(op));
  }

  // ---------- What happens in it ----------

  /** One execution: the operation, all files before it, its file after it, and the result. */
  datatype Execution = Execution(op: WriteOperation, world: Files, file: File, result: int)

  /** All files before the `i`-th execution. */
  function WorldAt(trace: seq<Execution>, files: Files, i: nat): Files
    requires i <= |trace|
  {
    if i == 0 then files else trace[i - 1].world[trace[i - 1].op.fd := trace[i - 1].file]
  }

  /** One after the other, each on what its file then held. */
  ghost predicate Ran(trace: seq<Execution>, exec: Executor, files: Files, after: Files) {
    && (forall i :: 0 <= i < |trace| ==>
          exec(trace[i].op, FileOf(trace[i].world, trace[i].op.fd)) == (trace[i].file, trace[i].result))
    && (forall i :: 0 <= i < |trace| ==> trace[i].world == WorldAt(trace, files, i))
    && after == WorldAt(trace, files, |trace|)
  }

  /** The new calls are those for the executions `answered`, in order; these are the ones with a
      completion callback, and without it the failures with an error callback. */
  ghost predicate CalledFor(trace: seq<Execution>, answered: seq<nat>, before: seq<Call>, calls: seq<Call>) {
    && before <= calls && |calls| == |before| + |answered|
    && (forall k, l :: 0 <= k < l < |answered| ==> answered[k] < answered[l])
    && (forall k :: 0 <= k < |answered| ==> answered[k] < |trace|)
    && (forall k :: 0 <= k < |answered| ==>
          var e := trace[answered[k]];
          calls[|before| + k] == Call(e.op.hasCompletion, e.op.id, e.result))
    && (forall i :: 0 <= i < |trace| ==>
          (i in answered <==> trace[i].op.hasCompletion || (trace[i].result < 0 && trace[i].op.hasError)))
  }

  function OneIfDone(e: Execution): int {
    if e.result >= 0 then 1 else 0
  }

  function OneIfFailed(e: Execution): int {
    if e.result >= 0 then 0 else 1
  }

  function BytesIfDone(e: Execution): int {
    if e.result >= 0 then |e.op.data| else 0
  }

  /** Each is observed. */
  ghost predicate ObservedFor(trace: seq<Execution>, latency: WriteOperation -> real, before: seq<Observation>, obs: seq<Observation>) {
    && |obs| == |before| + |trace| && before <= obs
    && (forall i :: 0 <= i < |trace| ==> obs[|before| + i] == Observation(latency(trace[i].op), trace[i].result >= 0))
  }

  /** And counted as a success, with its bytes, or as a failure. */
  ghost predicate CountedFor(trace: seq<Execution>, s: Stats, t: Stats) {
    && t.completed == s.completed + Sum(Each(trace, OneIfDone))
    && t.failed == s.failed + Sum(Each(trace, OneIfFailed))
    && t.bytesWritten == s.bytesWritten + Sum(Each(trace, BytesIfDone))
  }

  function Each<T>(xs: seq<T>, f: T -> int): (r: seq<int>)
    ensures |r| == |xs| && forall i :: 0 <= i < |xs| ==> r[i] == f(xs[i])
  {
    seq(|xs|, i requires 0 <= i < |xs| => f(xs[i]))
  }

  lemma SumOneMore<T>(xs: seq<T>, x: T, f: T -> int)
    ensures Sum(Each(xs + [x], f)) == Sum(Each(xs, f)) + f(x)
  {
    assert Each(xs + [x], f) == Each(xs, f) + [f(x)];
    SumOfParts(Each(xs, f), [f(x)], f(x));
  }

  lemma SameWorld(trace: seq<Execution>, e: Execution, files: Files, i: nat)
    requires i <= |trace|
    ensures WorldAt(trace + [e], files, i) == WorldAt(trace, files, i)
  {
    assert i > 0 ==> (trace + [e])[i - 1] == trace[i - 1];
  }

  lemma LastWorld(trace: seq<Execution>, e: Execution, files: Files)
    ensures WorldAt(trace + [e], files, |trace| + 1) == e.world[e.op.fd := e.file]
  {
    assert (trace + [e])[|trace|] == e;
  }

  lemma RanOneMore(trace: seq<Execution>, exec: Executor, files: Files, w: Files, e: Execution)
    requires Ran(trace, exec, files, w) && e.world == w && exec(e.op, FileOf(w, e.op.fd)) == (e.file, e.result)
    ensures Ran(trace + [e], exec, files, w[e.op.fd := e.file])
  {
    hide WorldAt, FileOf;
    var t := trace + [e];
    forall i | 0 <= i < |t|
      ensures t[i].world == WorldAt(t, files, i)
      ensures exec(t[i].op, FileOf(t[i].world, t[i].op.fd)) == (t[i].file, t[i].result)
    {
      SameWorld(trace, e, files, i);
      if i < |trace| {
        assert t[i] == trace[i];
      } else {
        assert t[i] == e;
      }
    }
    LastWorld(trace, e, files);
  }

  lemma CalledOneMore(trace: seq<Execution>, answered: seq<nat>, before: seq<Call>, calls: seq<Call>, e: Execution)
    requires CalledFor(trace, answered, before, calls)
    requires e.op.hasCompletion || (e.result < 0 && e.op.hasError)
    ensures CalledFor(trace + [e], answered + [|trace|], before, calls + [Call(e.op.hasCompletion, e.op.id, e.result)])
  {
    var t, more, d := trace + [e], answered + [|trace|], calls + [Call(e.op.hasCompletion, e.op.id, e.result)];
    forall k | 0 <= k < |more|
      ensures more[k] < |t| && d[|before| + k] == Call(t[more[k]].op.hasCompletion, t[more[k]].op.id, t[more[k]].result)
    {
      if k < |answered| {
        assert more[k] == answered[k] && t[more[k]] == trace[answered[k]];
      }
    }
    forall i | 0 <= i < |t|
      ensures i in more <==> t[i].op.hasCompletion || (t[i].result < 0 && t[i].op.hasError)
    {
      assert i in more <==> i in answered || i == |trace|;
    }
  }

  lemma NotCalled(trace: seq<Execution>, answered: seq<nat>, before: seq<Call>, calls: seq<Call>, e: Execution)
    requires CalledFor(trace, answered, before, calls)
    requires !(e.op.hasCompletion || (e.result < 0 && e.op.hasError))
    ensures CalledFor(trace + [e], answered, before, calls)
  {
    var t := trace + [e];
    forall k | 0 <= k < |answered|
      ensures answered[k] < |t| && calls[|before| + k] == Call(t[answered[k]].op.hasCompletion, t[answered[k]].op.id, t[answered[k]].result)
    {
      assert t[answered[k]] == trace[answered[k]];
    }
    forall i | 0 <= i < |t|
      ensures i in answered <==> t[i].op.hasCompletion || (t[i].result < 0 && t[i].op.hasError)
    {
      assert |trace| !in answered;
    }
  }

  lemma ObservedOneMore(trace: seq<Execution>, latency: WriteOperation -> real, before: seq<Observation>, obs: seq<Observation>, e: Execution)
    requires ObservedFor(trace, latency, before, obs)
    ensures ObservedFor(trace + [e], latency, before, obs + [Observation(latency(e.op), e.result >= 0)])
  {
    var t, o := trace + [e], obs + [Observation(latency(e.op), e.result >= 0)];
    forall i | 0 <= i < |t|
      ensures o[|before| + i] == Observation(latency(t[i].op), t[i].result >= 0)
    {
      assert i < |trace| ==> t[i] == trace[i] && o[|before| + i] == obs[|before| + i];
    }
  }

  lemma CountedOneMore(trace: seq<Execution>, s: Stats, t: Stats, u: Stats, e: Execution)
    requires CountedFor(trace, s, t)
    requires u.completed == t.completed + OneIfDone(e) && u.failed == t.failed + OneIfFailed(e)
    requires u.bytesWritten == t.bytesWritten + BytesIfDone(e)
    ensures CountedFor(trace + [e], s, u)
  {
    hide OneIfDone, OneIfFailed, BytesIfDone, Each, Sum;
    SumOneMore(trace, e, OneIfDone);
    SumOneMore(trace, e, OneIfFailed);
    SumOneMore(trace, e, BytesIfDone);
  }

  /** All that happened between two states of the loop of `ProcessQueue`. */
  ghost predicate Happened(trace: seq<Execution>, answered: seq<nat>, exec: Executor, latency: WriteOperation -> real,
                           q0: Queue, files: Files, q: Queue, w: Files) {
    && Ran(trace, exec, files, w)
    && CalledFor(trace, answered, q0.calls, q.calls)
    && ObservedFor(trace, latency, q0.observed, q.observed)
    && CountedFor(trace, q0.stats, q.stats)
  }

  lemma NothingHappened(exec: Executor, latency: WriteOperation -> real, q: Queue, w: Files)
    ensures Happened([], [], exec, latency, q, w, q, w)
  {
  }

  /** What a round adds to the records of a queue. */
  lemma RoundRecords(q: Queue, e: Execution, latency: real)
    requires q.heap != [] && q.heap[0].Full? && e.op == q.heap[0].item.value
    ensures var r := Finished(Taken(q), e.op, e.result, latency);
            && r.observed == q.observed + [Observation(latency, e.result >= 0)]
            && r.stats.completed == q.stats.completed + OneIfDone(e) && r.stats.failed == q.stats.failed + OneIfFailed(e)
            && r.stats.bytesWritten == q.stats.bytesWritten + BytesIfDone(e)
            && r.calls == if e.op.hasCompletion || (e.result < 0 && e.op.hasError)
                          then q.calls + [Call(e.op.hasCompletion, e.op.id, e.result)] else q.calls
  {
    WriteQueueCallbacks.FinishCalls(Taken(q), e.op, e.result, latency);
    WriteQueueCallbacks.FinishStats(Taken(q), e.op, e.result, latency);
  }

  lemma RoundHappened(trace: seq<Execution>, answered: seq<nat>, exec: Executor, latency: WriteOperation -> real,
                      q0: Queue, files: Files, q: Queue, w: Files) returns (e: Execution, more: seq<nat>)
    requires Happened(trace, answered, exec, latency, q0, files, q, w) && q.heap != [] && q.heap[0].Full?
    ensures e.op == q.heap[0].item.value
    ensures var r := Round(q, exec, latency, w); Happened(trace + [e], more, exec, latency, q0, files, r.0, r.1)
  {
    hide Ran, CalledFor, ObservedFor, CountedFor, Taken, Finished, OneIfDone, OneIfFailed, BytesIfDone, FileOf;
    var op := q.heap[0].item.value;
    var (f, result) := exec(op, FileOf(w, op.fd));
    e := Execution(op, w, f, result);
    RoundRecords(q, e, latency(op));
    RanOneMore(trace, exec, files, w, e);
    ObservedOneMore(trace, latency, q0.observed, q.observed, e);
    CountedOneMore(trace, q0.stats, q.stats, Finished(Taken(q), op, result, latency(op)).stats, e);
    if op.hasCompletion || (result < 0 && op.hasError) {
      more := answered + [|trace|];
      CalledOneMore(trace, answered, q0.calls, q.calls, e);
    } else {
      more := answered;
      NotCalled(trace, answered, q0.calls, q.calls, e);
    }
  }

  lemma DrainedStep(c: seq<Slot<WriteOperation>>)
    requires IsHeap(c) && c != []
    ensures c[0].Full? && IsHeap(Popped(c)) && Drained(c) == [c[0].item] + Drained(Popped(c))
  {
    PoppedIsHeap(c);
  }

  lemma RoundPops(q: Queue, exec: Executor, latency: WriteOperation -> real, w: Files)
    requires q.heap != [] && q.heap[0].Full?
    ensures Round(q, exec, latency, w).0.heap == Popped(q.heap)
  {
  }

  /** `ProcessQueue` executes the drained order. */
  lemma {:induction false} ProcessedHappened(trace: seq<Execution>, answered: seq<nat>, exec: Executor, latency: WriteOperation -> real,
                                             q0: Queue, files: Files, q: Queue, w: Files)
      returns (full: seq<Execution>, all: seq<nat>)
    requires IsHeap(q.heap) && Happened(trace, answered, exec, latency, q0, files, q, w)
    ensures |full| == |trace| + |q.heap| == |trace| + |Drained(q.heap)|
    ensures trace == full[..|trace|]
    ensures forall i :: 0 <= i < |q.heap| ==> full[|trace| + i].op == Drained(q.heap)[i].value
    ensures var r := Processed(q, exec, latency, w); Happened(full, all, exec, latency, q0, files, r.0, r.1)
    decreases |q.heap|
  {
    hide Happened, Processed, Round, Popped, Drained, Ordered, AllFull;
    ProcessedRound(q, exec, latency, w);
    if q.heap == [] {
      full, all := trace, answered;
      NoneDrained(q.heap);
    } else {
      DrainedStep(q.heap);
      RoundPops(q, exec, latency, w);
      var e, more := RoundHappened(trace, answered, exec, latency, q0, files, q, w);
      var r := Round(q, exec, latency, w);
      full, all := ProcessedHappened(trace + [e], more, exec, latency, q0, files, r.0, r.1);
      OneMoreDrained(trace, e, full, Drained(q.heap), Drained(r.0.heap));
    }
  }

  lemma NoneDrained(c: seq<Slot<WriteOperation>>)
    requires IsHeap(c) && c == []
    ensures Drained(c) == []
  {
  }

  lemma OneMoreDrained(trace: seq<Execution>, e: Execution, full: seq<Execution>, drained: seq<Entry>, rest: seq<Entry>)
    requires |full| == |trace| + 1 + |rest| && full[..|trace| + 1] == trace + [e]
    requires forall i :: 0 <= i < |rest| ==> full[|trace| + 1 + i].op == rest[i].value
    requires drained != [] && drained[1..] == rest && e.op == drained[0].value
    ensures trace == full[..|trace|]
    ensures forall i :: 0 <= i < |drained| ==> full[|trace| + i].op == drained[i].value
  {
    assert full[..|trace|] == full[..|trace| + 1][..|trace|];
    forall i | 0 <= i < |drained|
      ensures full[|trace| + i].op == drained[i].value
    {
      if i == 0 {
        assert full[|trace|] == full[..|trace| + 1][|trace|];
      } else {
        assert drained[i] == rest[i - 1] && full[|trace| + 1 + (i - 1)].op == rest[i - 1].value;
      }
    }
  }

  // ---------- Which file an operation touches ----------

  /** Every waiting operation names the descriptor the queue belongs to. */
  ghost predicate KeyedBy(q: Queue, fd: nat) {
    forall i :: 0 <= i < |q.heap| ==> q.heap[i].Full? && q.heap[i].item.value.fd == fd
  }

  lemma PoppedIsKeyed(q: Queue, fd: nat)
    requires KeyedBy(q, fd) && IsHeap(q.heap) && q.heap != []
    ensures KeyedBy(q.(heap := Popped(q.heap)), fd)
  {
    PoppedIsHeap(q.heap);
    var c := Popped(q.heap);
    forall i | 0 <= i < |c|
      ensures c[i].Full? && c[i].item.value.fd == fd
    {
      assert c[i] in multiset(c);
      assert c[i] in multiset(q.heap);
    }
  }

  /** A keyed queue's outcome depends on its own file only, and changes no other. */
  lemma {:induction false} ProcessedIsLocal(q: Queue, exec: Executor, latency: WriteOperation -> real, w: Files, v: Files, fd: nat)
    requires IsHeap(q.heap) && KeyedBy(q, fd) && FileOf(w, fd) == FileOf(v, fd)
    ensures Processed(q, exec, latency, w).0 == Processed(q, exec, latency, v).0
    ensures FileOf(Processed(q, exec, latency, w).1, fd) == FileOf(Processed(q, exec, latency, v).1, fd)
    ensures forall g :: g != fd ==> FileOf(Processed(q, exec, latency, w).1, g) == FileOf(w, g)
    decreases |q.heap|
  {
    if q.heap != [] {
      PoppedIsHeap(q.heap);
      PoppedIsKeyed(q, fd);
      var (q', w') := Round(q, exec, latency, w);
      var (p', v') := Round(q, exec, latency, v);
      ProcessedIsLocal(q', exec, latency, w', v', fd);
    }
  }

  lemma {:induction false} RunOpsOnOneFile(ops: seq<Entry>, exec: Executor, w: Files, fd: nat)
    requires forall i :: 0 <= i < |ops| ==> ops[i].value.fd == fd
    ensures FileOf(RunOps(ops, exec, w), fd) == RunOnFile(ops, exec, FileOf(w, fd))
    decreases |ops|
  {
    if ops != [] {
      RunOpsOnOneFile(ops[1..], exec, w[fd := exec(ops[0].value, FileOf(w, fd)).0], fd);
    }
  }

  ghost function EnqueuedAll(q: Queue, xs: seq<Entry>): Queue
    decreases |xs|
  {
    if xs == [] then q else EnqueuedAll(Enqueued(q, xs[0]), xs[1..])
  }

  /** With the ids that a queue assigns, from `first` on. */
  function Numbered(xs: seq<Entry>, first: nat): (r: seq<Entry>)
    ensures |r| == |xs|
  {
    seq(|xs|, i requires 0 <= i < |xs| => WithId(xs[i], first + i))
  }

  /** Those that still fit. */
  function Accepted(q: Queue, xs: seq<Entry>): seq<Entry> {
    if q.limit == 0 || |q.heap| + |xs| <= q.limit then xs
    else if |q.heap| >= q.limit then []
    else xs[..q.limit - |q.heap|]
  }

  /** A queue takes the operations until it is full, and numbers them. */
  lemma {:induction false} EnqueuedAllHeap(q: Queue, xs: seq<Entry>)
    ensures EnqueuedAll(q, xs).heap == PushedAll(q.heap, Numbered(Accepted(q, xs), q.nextId))
    decreases |xs|
  {
    if xs == [] {
      assert Numbered(Accepted(q, xs), q.nextId) == [];
    } else {
      var r, rest := Enqueued(q, xs[0]), xs[1..];
      EnqueuedAllHeap(r, rest);
      if IsFull(q) {
        assert Accepted(q, xs) == [] && Accepted(q, rest) == [];
        assert Numbered([], q.nextId) == [];
      } else {
        var ys := Accepted(q, xs);
        assert ys[0] == xs[0] && ys[1..] == Accepted(r, rest);
        var ns := Numbered(ys, q.nextId);
        assert ns[0] == WithId(xs[0], q.nextId) && ns[1..] == Numbered(ys[1..], q.nextId + 1);
      }
    }
  }

  /** Writes of one priority, enqueued at increasing times, reach the file in enqueue order:
      processing a new queue after any number of `Enqueue` calls leaves the file as if the
      accepted operations had run one after the other. */
  lemma FileEndsAsIfInEnqueueOrder(limit: nat, xs: seq<Entry>, exec: Executor, latency: WriteOperation -> real, w: Files, fd: nat)
    requires StrictlySorted(xs)
    requires forall i :: 0 <= i < |xs| ==> xs[i].value.fd == fd
    ensures var q := EnqueuedAll(NewQueue(limit), xs);
            && IsHeap(q.heap)
            && FileOf(Processed(q, exec, latency, w).1, fd)
            == RunOnFile(Numbered(Accepted(NewQueue(limit), xs), 1), exec, FileOf(w, fd))
  {
    var q, ns := EnqueuedAll(NewQueue(limit), xs), Numbered(Accepted(NewQueue(limit), xs), 1);
    EnqueuedAllHeap(NewQueue(limit), xs);
    NumberedIsSorted(Accepted(NewQueue(limit), xs), 1);
    DrainIsFifo(ns);
    ProcessedRunsDrained(q, exec, latency, w);
    RunOpsOnOneFile(ns, exec, w, fd);
  }

  lemma NumberedIsSorted(xs: seq<Entry>, first: nat)
    requires StrictlySorted(xs)
    ensures StrictlySorted(Numbered(xs, first))
  {
  }

  // ---------- All queues, in the order the map happens to visit them ----------

  /** The result of `ProcessAllQueues`: the queues, the files, and the processed count. */
  datatype Outcome = Outcome(queues: map<nat, Queue>, files: Files, processed: nat)

  ghost predicate AllHeaps(qs: map<nat, Queue>) {
    forall fd :: fd in qs ==> IsHeap(qs[fd].heap)
  }

  ghost predicate AllKeyed(qs: map<nat, Queue>) {
    forall fd :: fd in qs ==> KeyedBy(qs[fd], fd)
  }

  function ProcessedAll(order: seq<nat>, qs: map<nat, Queue>, exec: Executor, latency: WriteOperation -> real, w: Files): Outcome
    requires AllHeaps(qs) && forall i :: 0 <= i < |order| ==> order[i] in qs
    decreases |order|
  {
    if order == [] then Outcome(qs, w, 0)
    else
      var q := qs[order[0]];
      var (q', w') := Processed(q, exec, latency, w);
      var rest := ProcessedAll(order[1..], qs[order[0] := q'], exec, latency, w');
      rest.(processed := rest.processed + |q.heap|)
  }

  ghost predicate NoRepeats(order: seq<nat>) {
    forall i, j :: 0 <= i < j < |order| ==> order[i] != order[j]
  }

  /** `order` visits each descriptor of the map once. */
  ghost predicate Visits(order: seq<nat>, qs: map<nat, Queue>) {
    NoRepeats(order) && (forall fd :: fd in order <==> fd in qs)
  }

  lemma FirstVisit(order: seq<nat>, qs: map<nat, Queue>, exec: Executor, latency: WriteOperation -> real, w: Files)
    requires AllHeaps(qs) && AllKeyed(qs) && NoRepeats(order) && order != []
    requires forall i :: 0 <= i < |order| ==> order[i] in qs
    ensures var first := order[0];
            var qs' := qs[first := Processed(qs[first], exec, latency, w).0];
            && AllHeaps(qs') && AllKeyed(qs') && NoRepeats(order[1..]) && first !in order[1..]
            && (forall i :: 0 <= i < |order[1..]| ==> order[1..][i] in qs')
  {
  }

  /** A descriptor that is not visited keeps its queue and its file. */
  lemma {:induction false} NotVisited(order: seq<nat>, qs: map<nat, Queue>, exec: Executor,
                                      latency: WriteOperation -> real, w: Files, fd: nat)
    requires AllHeaps(qs) && AllKeyed(qs) && NoRepeats(order) && fd !in order
    requires forall i :: 0 <= i < |order| ==> order[i] in qs
    ensures var r := ProcessedAll(order, qs, exec, latency, w);
            && r.queues.Keys == qs.Keys
            && FileOf(r.files, fd) == FileOf(w, fd)
            && (fd in qs ==> r.queues[fd] == qs[fd])
    decreases |order|
  {
    if order != [] {
      var first := order[0];
      var (q', w') := Processed(qs[first], exec, latency, w);
      FirstVisit(order, qs, exec, latency, w);
      ProcessedIsLocal(qs[first], exec, latency, w, w, first);
      NotVisited(order[1..], qs[first := q'], exec, latency, w', fd);
    }
  }

  /** What a visit leaves behind for a descriptor, whichever were visited before it. */
  lemma {:induction false} Visited(order: seq<nat>, qs: map<nat, Queue>, exec: Executor,
                                   latency: WriteOperation -> real, w: Files, fd: nat)
    requires AllHeaps(qs) && AllKeyed(qs) && NoRepeats(order) && fd in order
    requires forall i :: 0 <= i < |order| ==> order[i] in qs
    ensures var r := ProcessedAll(order, qs, exec, latency, w);
            && r.queues.Keys == qs.Keys
            && r.queues[fd] == Processed(qs[fd], exec, latency, w).0
            && FileOf(r.files, fd) == FileOf(Processed(qs[fd], exec, latency, w).1, fd)
    decreases |order|
  {
    var first := order[0];
    var (q', w') := Processed(qs[first], exec, latency, w);
    FirstVisit(order, qs, exec, latency, w);
    if fd == first {
      NotVisited(order[1..], qs[first := q'], exec, latency, w', fd);
    } else {
      assert fd in order[1..];
      ProcessedIsLocal(qs[first], exec, latency, w, w, first);
      Visited(order[1..], qs[first := q'], exec, latency, w', fd);
      ProcessedIsLocal(qs[fd], exec, latency, w', w, fd);
    }
  }

  function Sizes(order: seq<nat>, qs: map<nat, Queue>): nat
    requires forall i :: 0 <= i < |order| ==> order[i] in qs
  {
    if order == [] then 0 else |qs[order[0]].heap| + Sizes(order[1..], qs)
  }

  lemma {:induction false} ProcessedCountsSizes(order: seq<nat>, qs: map<nat, Queue>, exec: Executor,
                                                latency: WriteOperation -> real, w: Files)
    requires AllHeaps(qs) && NoRepeats(order) && forall i :: 0 <= i < |order| ==> order[i] in qs
    ensures ProcessedAll(order, qs, exec, latency, w).processed == Sizes(order, qs)
    decreases |order|
  {
    if order != [] {
      var (q', w') := Processed(qs[order[0]], exec, latency, w);
      var qs' := qs[order[0] := q'];
      ProcessedCountsSizes(order[1..], qs', exec, latency, w');
      SameSizes(order[1..], qs, qs');
    }
  }

  lemma {:induction false} SameSizes(order: seq<nat>, qs: map<nat, Queue>, rs: map<nat, Queue>)
    requires forall i :: 0 <= i < |order| ==> order[i] in qs && order[i] in rs && qs[order[i]] == rs[order[i]]
    ensures Sizes(order, qs) == Sizes(order, rs)
  {
    if order != [] {
      SameSizes(order[1..], qs, rs);
    }
  }

  lemma {:induction false} SizesWithout(order: seq<nat>, k: nat, qs: map<nat, Queue>)
    requires k < |order| && forall i :: 0 <= i < |order| ==> order[i] in qs
    ensures Sizes(order, qs) == |qs[order[k]].heap| + Sizes(order[..k] + order[k + 1..], qs)
  {
    var rest := order[..k] + order[k + 1..];
    if k == 0 {
      assert rest == order[1..];
    } else {
      SizesWithout(order[1..], k - 1, qs);
      assert rest[1..] == order[1..][..k - 1] + order[1..][k..];
    }
  }

  lemma NonEmptyHasMember(b: seq<nat>)
    ensures b != [] ==> exists fd :: fd in b
  {
    if b != [] {
      assert b[0] in b;
    }
  }

  lemma {:induction false} SizesPermute(a: seq<nat>, b: seq<nat>, qs: map<nat, Queue>)
    requires NoRepeats(a) && NoRepeats(b) && forall fd :: fd in a <==> fd in b
    requires forall i :: 0 <= i < |a| ==> a[i] in qs
    requires forall i :: 0 <= i < |b| ==> b[i] in qs
    ensures Sizes(a, qs) == Sizes(b, qs)
    decreases |a|
  {
    if a == [] {
      NonEmptyHasMember(b);
    } else {
      assert a[0] in b;
      var k :| 0 <= k < |b| && b[k] == a[0];
      var c := b[..k] + b[k + 1..];
      SizesWithout(b, k, qs);
      forall fd
        ensures fd in a[1..] <==> fd in c
      {
        assert fd in a <==> fd in b;
        assert fd in c ==> fd in b && fd != a[0];
        assert fd in b && fd != a[0] ==> fd in c by {
          if fd in b && fd != a[0] {
            var j :| 0 <= j < |b| && b[j] == fd;
            assert if j < k then c[j] == fd else c[j - 1] == fd;
          }
        }
      }
      SizesPermute(a[1..], c, qs);
    }
  }

  /** Whichever order the map yields: the same final queues (hence statistics, callbacks and
      execution order per descriptor), the same contents of every file, the same count. */
  lemma VisitOrderDoesNotMatter(a: seq<nat>, b: seq<nat>, qs: map<nat, Queue>, exec: Executor,
                                latency: WriteOperation -> real, w: Files)
    requires AllHeaps(qs) && AllKeyed(qs) && Visits(a, qs) && Visits(b, qs)
    ensures ProcessedAll(a, qs, exec, latency, w).queues == ProcessedAll(b, qs, exec, latency, w).queues
    ensures ProcessedAll(a, qs, exec, latency, w).processed == ProcessedAll(b, qs, exec, latency, w).processed
    ensures forall fd :: FileOf(ProcessedAll(a, qs, exec, latency, w).files, fd)
                      == FileOf(ProcessedAll(b, qs, exec, latency, w).files, fd)
  {
    hide Processed, ProcessedAll, AllHeaps, AllKeyed;
    var r, s := ProcessedAll(a, qs, exec, latency, w), ProcessedAll(b, qs, exec, latency, w);
    forall fd: nat
      ensures r.queues.Keys == qs.Keys && s.queues.Keys == qs.Keys
      ensures fd in qs ==> r.queues[fd] == s.queues[fd]
      ensures FileOf(r.files, fd) == FileOf(s.files, fd)
    {
      if fd in a {
        Visited(a, qs, exec, latency, w, fd);
        Visited(b, qs, exec, latency, w, fd);
      } else {
        NotVisited(a, qs, exec, latency, w, fd);
        NotVisited(b, qs, exec, latency, w, fd);
      }
    }
    ProcessedCountsSizes(a, qs, exec, latency, w);
    ProcessedCountsSizes(b, qs, exec, latency, w);
    SizesPermute(a, b, qs);
  }

  // ---------- Aggregate statistics ----------

  /** The statistics of the queues that were visited, added up. */
  function Summed(order: seq<nat>, qs: map<nat, Queue>): Stats
    requires forall i :: 0 <= i < |order| ==> order[i] in qs
    decreases |order|
  {
    if order == [] then NO_STATS
    else
      Added(Summed(order[..|order| - 1], qs), qs[order[|order| - 1]].stats)
  }

  function Added(a: Stats, b: Stats): Stats {
    Stats(a.total + b.total, a.completed + b.completed, a.failed + b.failed, a.bytesWritten + b.bytesWritten,
          a.queueSize + b.queueSize, Max(a.maxQueueSize, b.maxQueueSize), 0.0)
  }

  /** Each queue's average, weighted by its completions. */
  function Weighted(order: seq<nat>, qs: map<nat, Queue>): real
    requires forall i :: 0 <= i < |order| ==> order[i] in qs
    decreases |order|
  {
    if order == [] then 0.0
    else
      var b := qs[order[|order| - 1]].stats;
      Weighted(order[..|order| - 1], qs) + if b.completed > 0 then b.average * b.completed as real else 0.0
  }

  function AllLatencies(order: seq<nat>, qs: map<nat, Queue>): real
    requires forall i :: 0 <= i < |order| ==> order[i] in qs
    decreases |order|
  {
    if order == [] then 0.0
    else AllLatencies(order[..|order| - 1], qs) + Total(qs[order[|order| - 1]].observed)
  }

  lemma {:induction false} WeightedIsTotal(order: seq<nat>, qs: map<nat, Queue>)
    requires forall i :: 0 <= i < |order| ==> order[i] in qs
    requires forall fd :: fd in qs ==> Averaged(qs[fd]) && HarmlessFailures(qs[fd].observed)
    ensures Weighted(order, qs) == AllLatencies(order, qs)
    decreases |order|
  {
    hide HarmlessFailures, WriteQueueAverage, Completed, Total;
    if order != [] {
      var q := qs[order[|order| - 1]];
      WeightedIsTotal(order[..|order| - 1], qs);
      WriteQueueAverageIsMean(q.observed);
    }
  }

  lemma {:induction false} SummedReports(order: seq<nat>, qs: map<nat, Queue>, views: seq<Queue>)
    requires |views| == |order| && forall i :: 0 <= i < |order| ==> order[i] in qs && views[i] == qs[order[i]]
    ensures Summed(order, qs).queueSize == TotalReported(views)
    decreases |order|
  {
    if order != [] {
      SummedReports(order[..|order| - 1], qs, views[..|order| - 1]);
    }
  }

  /** An aggregate size of zero means the same as for the draining check. */
  lemma SummedDrained(order: seq<nat>, qs: map<nat, Queue>)
    requires forall i :: 0 <= i < |order| ==> order[i] in qs && Inv(qs[order[i]])
    ensures Summed(order, qs).queueSize == 0 <==>
              forall i :: 0 <= i < |order| ==> qs[order[i]].heap == [] || qs[order[i]].unreported
  {
    var views := seq(|order|, i requires 0 <= i < |order| => qs[order[i]]);
    SummedReports(order, qs, views);
    DrainedMeansEmpty(views);
    hide Inv;
    assert forall i :: 0 <= i < |order| ==> views[i] == qs[order[i]];
  }

  /** One number of each visited queue. */
  function Numbers(order: seq<nat>, qs: map<nat, Queue>, f: Queue -> int): (r: seq<int>)
    requires forall i :: 0 <= i < |order| ==> order[i] in qs
    ensures |r| == |order| && forall i :: 0 <= i < |order| ==> r[i] == f(qs[order[i]])
  {
    seq(|order|, i requires 0 <= i < |order| => f(qs[order[i]]))
  }

  function RealNumbers(order: seq<nat>, qs: map<nat, Queue>, f: Queue -> real): (r: seq<real>)
    requires forall i :: 0 <= i < |order| ==> order[i] in qs
    ensures |r| == |order| && forall i :: 0 <= i < |order| ==> r[i] == f(qs[order[i]])
  {
    seq(|order|, i requires 0 <= i < |order| => f(qs[order[i]]))
  }

  // The numbers of a queue that add up.

  function TotalOf(q: Queue): int { q.stats.total }

  function FailedOf(q: Queue): int { q.stats.failed }

  function BytesOf(q: Queue): int { q.stats.bytesWritten }

  function ReportedOf(q: Queue): int { q.stats.queueSize }

  function CarriedOf(q: Queue): int { q.carried }

  function HeldOf(q: Queue): int { |q.heap| + |q.executing| }

  /** The executions observed since the last reset that succeeded. */
  function SuccessesOf(q: Queue): int { Completed(q.observed) }

  function LatencyOf(q: Queue): real { Total(q.observed) }

  lemma NumbersStep(order: seq<nat>, qs: map<nat, Queue>, f: Queue -> int)
    requires order != [] && forall i :: 0 <= i < |order| ==> order[i] in qs
    ensures Sum(Numbers(order, qs, f)) == Sum(Numbers(order[..|order| - 1], qs, f)) + f(qs[order[|order| - 1]])
  {
    var r := Numbers(order, qs, f);
    assert r[..|r| - 1] == Numbers(order[..|order| - 1], qs, f);
  }

  /** What the aggregate adds up. */
  ghost predicate AddsUp(s: Stats, order: seq<nat>, qs: map<nat, Queue>)
    requires forall i :: 0 <= i < |order| ==> order[i] in qs
  {
    && s.total == Sum(Numbers(order, qs, TotalOf))
    && s.completed == Sum(Numbers(order, qs, SuccessesOf))
    && s.failed == Sum(Numbers(order, qs, FailedOf))
    && s.bytesWritten == Sum(Numbers(order, qs, BytesOf))
    && s.queueSize == Sum(Numbers(order, qs, ReportedOf))
  }

  /** And what it takes the largest of. */
  ghost predicate IsLargest(m: nat, order: seq<nat>, qs: map<nat, Queue>)
    requires forall i :: 0 <= i < |order| ==> order[i] in qs
  {
    && (forall i :: 0 <= i < |order| ==> qs[order[i]].stats.maxQueueSize <= m)
    && (m == 0 || exists i :: 0 <= i < |order| && qs[order[i]].stats.maxQueueSize == m)
  }

  lemma {:induction false} SummedAddsUp(order: seq<nat>, qs: map<nat, Queue>)
    requires forall i :: 0 <= i < |order| ==> order[i] in qs && Averaged(qs[order[i]])
    ensures AddsUp(Summed(order, qs), order, qs)
    decreases |order|
  {
    if order != [] {
      var init, q := order[..|order| - 1], qs[order[|order| - 1]];
      SummedAddsUp(init, qs);
      CountsSuccesses(q);
      SumsStep(order, qs);
      AddedEach(Summed(init, qs), q.stats);
      hide Numbers, Sum, Completed, Averaged, Added;
      assert Summed(order, qs) == Added(Summed(init, qs), q.stats);
    }
  }

  lemma AddedEach(a: Stats, b: Stats)
    ensures var s := Added(a, b);
            && s.total == a.total + b.total && s.completed == a.completed + b.completed && s.failed == a.failed + b.failed
            && s.bytesWritten == a.bytesWritten + b.bytesWritten && s.queueSize == a.queueSize + b.queueSize
  {
  }

  lemma CountsSuccesses(q: Queue)
    requires Averaged(q)
    ensures q.stats.completed == Completed(q.observed)
  {
  }

  lemma {:induction false} SummedIsLargest(order: seq<nat>, qs: map<nat, Queue>)
    requires forall i :: 0 <= i < |order| ==> order[i] in qs
    ensures IsLargest(Summed(order, qs).maxQueueSize, order, qs)
    decreases |order|
  {
    if order != [] {
      var init := order[..|order| - 1];
      SummedIsLargest(init, qs);
      LargestStep(order, init, qs, Summed(init, qs).maxQueueSize);
    }
  }

  /** Each number of the aggregate. */
  lemma SummedIsAggregate(order: seq<nat>, qs: map<nat, Queue>)
    requires forall i :: 0 <= i < |order| ==> order[i] in qs && Averaged(qs[order[i]])
    ensures AddsUp(Summed(order, qs), order, qs) && IsLargest(Summed(order, qs).maxQueueSize, order, qs)
  {
    hide AddsUp, IsLargest, Summed, Averaged;
    SummedAddsUp(order, qs);
    SummedIsLargest(order, qs);
  }

  lemma SumsStep(order: seq<nat>, qs: map<nat, Queue>)
    requires order != [] && forall i :: 0 <= i < |order| ==> order[i] in qs
    ensures var init, q := order[..|order| - 1], qs[order[|order| - 1]];
            && Sum(Numbers(order, qs, TotalOf)) == Sum(Numbers(init, qs, TotalOf)) + q.stats.total
            && Sum(Numbers(order, qs, SuccessesOf)) == Sum(Numbers(init, qs, SuccessesOf)) + Completed(q.observed)
            && Sum(Numbers(order, qs, FailedOf)) == Sum(Numbers(init, qs, FailedOf)) + q.stats.failed
            && Sum(Numbers(order, qs, BytesOf)) == Sum(Numbers(init, qs, BytesOf)) + q.stats.bytesWritten
            && Sum(Numbers(order, qs, ReportedOf)) == Sum(Numbers(init, qs, ReportedOf)) + q.stats.queueSize
  {
    hide Sum, Numbers, Completed;
    NumbersStep(order, qs, TotalOf);
    NumbersStep(order, qs, SuccessesOf);
    NumbersStep(order, qs, FailedOf);
    NumbersStep(order, qs, BytesOf);
    NumbersStep(order, qs, ReportedOf);
  }

  lemma LargestStep(order: seq<nat>, init: seq<nat>, qs: map<nat, Queue>, m: nat)
    requires order != [] && init == order[..|order| - 1] && forall i :: 0 <= i < |order| ==> order[i] in qs
    requires forall i :: 0 <= i < |init| ==> qs[init[i]].stats.maxQueueSize <= m
    requires m == 0 || exists i :: 0 <= i < |init| && qs[init[i]].stats.maxQueueSize == m
    ensures var n := Max(m, qs[order[|order| - 1]].stats.maxQueueSize);
            && (forall i :: 0 <= i < |order| ==> qs[order[i]].stats.maxQueueSize <= n)
            && (n == 0 || exists i :: 0 <= i < |order| && qs[order[i]].stats.maxQueueSize == n)
  {
    var last := |order| - 1;
    forall i | 0 <= i < |order|
      ensures qs[order[i]].stats.maxQueueSize <= Max(m, qs[order[last]].stats.maxQueueSize)
    {
      if i < last {
        assert init[i] == order[i];
      }
    }
    if m > qs[order[last]].stats.maxQueueSize {
      var i :| 0 <= i < |init| && qs[init[i]].stats.maxQueueSize == m;
      assert init[i] == order[i];
    } else {
      assert qs[order[last]].stats.maxQueueSize == Max(m, qs[order[last]].stats.maxQueueSize);
    }
  }

  /** Over the visited queues, every operation counted or carried over a reset has completed,
      failed, or is still held. */
  lemma {:induction false} AggregateConserves(order: seq<nat>, qs: map<nat, Queue>)
    requires forall i :: 0 <= i < |order| ==> order[i] in qs && Conserved(qs[order[i]])
    requires forall i :: 0 <= i < |order| ==> Averaged(qs[order[i]])
    ensures Sum(Numbers(order, qs, TotalOf)) + Sum(Numbers(order, qs, CarriedOf))
         == Sum(Numbers(order, qs, SuccessesOf)) + Sum(Numbers(order, qs, FailedOf)) + Sum(Numbers(order, qs, HeldOf))
    decreases |order|
  {
    if order != [] {
      var q := qs[order[|order| - 1]];
      AggregateConserves(order[..|order| - 1], qs);
      hide Sum, Numbers, Completed;
      NumbersStep(order, qs, TotalOf);
      NumbersStep(order, qs, CarriedOf);
      NumbersStep(order, qs, SuccessesOf);
      NumbersStep(order, qs, FailedOf);
      NumbersStep(order, qs, HeldOf);
    }
  }

  lemma {:induction false} LatenciesAreSummed(order: seq<nat>, qs: map<nat, Queue>)
    requires forall i :: 0 <= i < |order| ==> order[i] in qs
    ensures AllLatencies(order, qs) == RealSum(RealNumbers(order, qs, LatencyOf))
    decreases |order|
  {
    var r := RealNumbers(order, qs, LatencyOf);
    if order != [] {
      LatenciesAreSummed(order[..|order| - 1], qs);
      assert r[..|r| - 1] == RealNumbers(order[..|order| - 1], qs, LatencyOf);
    }
  }

  // ---------- The classes ----------

  /** -ECANCELED. */
  const CANCELED := -125

  lemma SizesAfterRound(q: Queue, op: WriteOperation, result: int, latency: real)
    ensures Finished(q, op, result, latency).heap == q.heap
  {
  }

  lemma ProcessedRound(q: Queue, exec: Executor, latency: WriteOperation -> real, w: Files)
    requires IsHeap(q.heap)
    ensures q.heap == [] ==> Processed(q, exec, latency, w) == (q, w)
    ensures q.heap != [] ==>
              && q.heap[0].Full?
              && var r := Round(q, exec, latency, w);
                 IsHeap(r.0.heap) && Processed(q, exec, latency, w) == Processed(r.0, exec, latency, r.1)
  {
    if q.heap != [] {
      PoppedIsHeap(q.heap);
    }
  }

  lemma InvIsHeaped(q: Queue)
    requires Inv(q)
    ensures q.nextId >= 1 && IsHeap(q.heap)
  {
  }

  lemma AllCancelledInv(q: Queue, code: int)
    requires Inv(q)
    ensures Inv(Cancelled(q, code))
  {
    CancelledInv(q, code);
  }

  lemma LimitInv(q: Queue, n: nat)
    requires Inv(q)
    ensures Inv(q.(limit := n))
  {
  }

  lemma AsTold(trace: seq<Execution>, answered: seq<nat>, before: seq<Call>, calls: seq<Call>,
               latency: WriteOperation -> real, obs0: seq<Observation>, obs: seq<Observation>)
    requires CalledFor(trace, answered, before, calls) && ObservedFor(trace, latency, obs0, obs)
    ensures |calls| == |before| + |answered| && before <= calls
    ensures forall k, l :: 0 <= k < l < |answered| ==> answered[k] < answered[l]
    ensures forall i :: i in answered <==>
              0 <= i < |trace| && (trace[i].op.hasCompletion || (trace[i].result < 0 && trace[i].op.hasError))
    ensures forall k :: 0 <= k < |answered| && answered[k] < |trace| ==>
              var e := trace[answered[k]];
              calls[|before| + k] == Call(e.op.hasCompletion, e.op.id, e.result)
    ensures |obs| == |obs0| + |trace| && obs0 <= obs
    ensures forall i :: 0 <= i < |trace| ==> obs[|obs0| + i] == Observation(latency(trace[i].op), trace[i].result >= 0)
  {
  }

  lemma HappenedParts(trace: seq<Execution>, answered: seq<nat>, exec: Executor, latency: WriteOperation -> real,
                      q0: Queue, files: Files, q: Queue, w: Files)
    requires Happened(trace, answered, exec, latency, q0, files, q, w)
    ensures Ran(trace, exec, files, w) && CalledFor(trace, answered, q0.calls, q.calls)
    ensures ObservedFor(trace, latency, q0.observed, q.observed) && CountedFor(trace, q0.stats, q.stats)
  {
  }

  /** The whole story of `ProcessQueue`. */
  lemma ProcessedTells(q: Queue, exec: Executor, latency: WriteOperation -> real, files: Files)
      returns (trace: seq<Execution>, answered: seq<nat>)
    requires IsHeap(q.heap)
    ensures |trace| == |q.heap| == |Drained(q.heap)|
    ensures forall i :: 0 <= i < |trace| ==> trace[i].op == Drained(q.heap)[i].value
    ensures Ran(trace, exec, files, Processed(q, exec, latency, files).1)
    ensures CountedFor(trace, q.stats, Processed(q, exec, latency, files).0.stats)
    ensures var calls := Processed(q, exec, latency, files).0.calls;
            && |calls| == |q.calls| + |answered| && q.calls <= calls
            && forall k :: 0 <= k < |answered| && answered[k] < |trace| ==>
                 var e := trace[answered[k]];
                 calls[|q.calls| + k] == Call(e.op.hasCompletion, e.op.id, e.result)
    ensures forall k, l :: 0 <= k < l < |answered| ==> answered[k] < answered[l]
    ensures forall i :: i in answered <==>
              0 <= i < |trace| && (trace[i].op.hasCompletion || (trace[i].result < 0 && trace[i].op.hasError))
    ensures var obs := Processed(q, exec, latency, files).0.observed;
            && |obs| == |q.observed| + |trace| && q.observed <= obs
            && forall i :: 0 <= i < |trace| ==> obs[|q.observed| + i] == Observation(latency(trace[i].op), trace[i].result >= 0)
  {
    hide Processed, Drained, Ran, CalledFor, ObservedFor, CountedFor, Happened;
    NothingHappened(exec, latency, q, files);
    trace, answered := ProcessedHappened([], [], exec, latency, q, files, q, files);
    var r := Processed(q, exec, latency, files);
    HappenedParts(trace, answered, exec, latency, q, files, r.0, r.1);
    AsTold(trace, answered, q.calls, r.0.calls, latency, q.observed, r.0.observed);
    forall i | 0 <= i < |trace|
      ensures trace[i].op == Drained(q.heap)[i].value
    {
      assert trace[0 + i].op == Drained(q.heap)[i].value;
    }
  }

  lemma EnqueuedMeans(q: Queue, x: Entry)
    ensures var r := Enqueued(q, x);
            if q.limit > 0 && |q.heap| >= q.limit then r == q
            else
              && r.waiting == q.waiting[q.nextId := Item(x.priority, x.timestamp, x.value.(id := q.nextId))]
              && r.stats == q.stats.(total := q.stats.total + 1, queueSize := |r.heap|, maxQueueSize := r.stats.maxQueueSize)
              && r.stats.maxQueueSize in {q.stats.maxQueueSize, |r.heap|}
              && r.stats.maxQueueSize >= q.stats.maxQueueSize && r.stats.maxQueueSize >= |r.heap|
  {
  }

  lemma CancelEffect(q: Queue, code: int)
    requires Inv(q)
    ensures var r := Cancelled(q, code);
            && r.heap == [] && r.waiting == map[] && r.executing == q.executing
            && r.stats.failed == q.stats.failed + |q.heap| && r.stats.queueSize == 0
            && q.calls <= r.calls
            && (forall k :: |q.calls| <= k < |r.calls| ==>
                  r.calls[k].id in q.waiting && q.waiting[r.calls[k].id].value.hasError && r.calls[k] == Call(false, r.calls[k].id, code))
            && (forall id :: id in q.waiting && q.waiting[id].value.hasError ==>
                  exists k :: |q.calls| <= k < |r.calls| && r.calls[k] == Call(false, id, code))
  {
    CancelAllEmpties(q, code);
    WriteQueueCallbacks.CancelCalls(q, code);
    CancelledInv(q, code);
    EmptiedSize(q, code);
    hide Cancelled, Inv;
  }

  lemma EmptiedSize(q: Queue, code: int)
    requires Inv(q)
    ensures Cancelled(q, code).stats.queueSize == 0
  {
    CancelledInv(q, code);
  }

  class FDWriteQueue {
    const fd: nat
    var maxQueueSize: nat
    var nextOperationId: nat
    var operationQueue: seq<Slot<WriteOperation>>
    var stats: Stats
    ghost var waiting: map<nat, Entry>
    ghost var executing: map<nat, WriteOperation>
    ghost var left: set<nat>
    ghost var calls: seq<Call>
    ghost var carried: nat
    ghost var observed: seq<Observation>
    ghost var unreported: bool

    ghost function View(): Queue
      reads this
    {
      Queue(maxQueueSize, nextOperationId, operationQueue, stats, waiting, executing, left, calls, carried, observed, unreported)
    }

    ghost predicate Valid()
      reads this
    {
      Inv(View())
    }

    /** Enough for the steps inside a critical section. */
    ghost predicate Heaped()
      reads this
    {
      nextOperationId >= 1 && IsHeap(operationQueue)
    }

    constructor (fd: nat, maxQueueSize: nat)
      ensures Valid() && View() == NewQueue(maxQueueSize) && this.fd == fd
      ensures this.maxQueueSize == maxQueueSize && nextOperationId == 1 && operationQueue == []
      ensures stats == Stats(0, 0, 0, 0, 0, 0, 0.0)
    {
      this.fd := fd;
      this.maxQueueSize := maxQueueSize;
      nextOperationId := 1;
      operationQueue := [];
      stats := NO_STATS;
      waiting, executing, left, calls := map[], map[], {}, [];
      carried, observed, unreported := 0, [], false;
      NewQueueInv(maxQueueSize);
    }

    method Enqueue(operation: Option<Entry>) returns (id: nat)
      requires Valid()
      modifies this
      ensures Valid()
      ensures operation.None? ==> id == 0 && View() == old(View())
      ensures operation.Some? ==> View() == Enqueued(old(View()), operation.value)
      ensures id == 0 <==> operation.None? || IsFull(old(View()))
      ensures id != 0 ==> id == old(View()).nextId
      // a full queue refuses; else the operation waits under the id that is returned
      ensures operation.Some? ==>
                (id == 0 <==> old(maxQueueSize) > 0 && |old(operationQueue)| >= old(maxQueueSize))
      ensures id != 0 ==>
                var x := operation.value;
                && waiting == old(waiting)[id := Item(x.priority, x.timestamp, x.value.(id := id))]
                && stats == old(stats).(total := old(stats).total + 1, queueSize := |operationQueue|, maxQueueSize := stats.maxQueueSize)
                && stats.maxQueueSize in {old(stats).maxQueueSize, |operationQueue|}
                && stats.maxQueueSize >= old(stats).maxQueueSize && stats.maxQueueSize >= |operationQueue|
    {
      hide Inv, Enqueued, IsHeap;
      if operation.None? {
        return 0;
      }
      EnqueuedInv(View(), operation.value);
      EnqueuedMeans(View(), operation.value);
      InvIsHeaped(View());
      id := EnqueueLocked(operation.value);
    }

    /** What `Enqueue` does under the lock. */
    method EnqueueLocked(operation: Entry) returns (id: nat)
      requires Heaped()
      modifies this
      ensures Heaped() && View() == Enqueued(old(View()), operation)
      ensures id == if IsFull(old(View())) then 0 else old(View()).nextId
    {
      if maxQueueSize > 0 && |operationQueue| >= maxQueueSize {
        return 0;
      }
      id := nextOperationId;
      nextOperationId := nextOperationId + 1;
      var x := operation.(value := operation.value.(id := id));
      operationQueue := Push(operationQueue, x);
      stats := stats.(queueSize := |operationQueue|);
      stats := stats.(maxQueueSize := Max(stats.maxQueueSize, stats.queueSize));
      stats := stats.(total := stats.total + 1);
      waiting := waiting[id := x];
      unreported := false;
    }

    /** What a round of `ProcessQueue` does under the lock: move the top out, pop the hole. */
    method TakeLocked() returns (op: WriteOperation)
      requires Valid() && operationQueue != []
      modifies this
      ensures Valid() && View() == Taken(old(View()))
      ensures op == old(operationQueue)[0].item.value
    {
      hide Inv, IsHeap, Popped;
      InvIsHeaped(View());
      TakenInv(View());
      var x;
      x, operationQueue := TakeTop(operationQueue);
      op := x.value;
      stats := stats.(queueSize := |operationQueue|);
      waiting := waiting - {op.id};
      executing := executing[op.id := op];
      unreported := false;
    }

    method UpdateStats(op: WriteOperation, success: bool, latency: real)
      modifies `stats
      ensures stats == Finished(old(View()), op, if success then 0 else -1, latency).stats
      ensures success ==> stats.completed == old(stats).completed + 1 && stats.failed == old(stats).failed
                          && stats.bytesWritten == old(stats).bytesWritten + |op.data|
      ensures !success ==> stats.completed == old(stats).completed && stats.failed == old(stats).failed + 1
                           && stats.bytesWritten == old(stats).bytesWritten
    {
      if success {
        stats := stats.(completed := stats.completed + 1);
        stats := stats.(bytesWritten := stats.bytesWritten + |op.data|);
      } else {
        stats := stats.(failed := stats.failed + 1);
      }
      var currentAvg := stats.average;
      var totalCompleted := stats.completed;
      if totalCompleted > 0 {
        var newAvg := (currentAvg * (totalCompleted as real - 1.0) + latency) / totalCompleted as real;
        stats := stats.(average := newAvg);
      }
    }

    /** The rest of a round, after the executor has returned. */
    method Complete(op: WriteOperation, result: int, latency: real)
      requires Valid() && op.id in executing
      modifies this
      ensures Valid() && View() == Finished(old(View()), op, result, latency)
      // a completion callback is called with the result, whatever it is; else an error callback
      // after a failure; else none
      ensures op.hasCompletion ==> calls == old(calls) + [Call(true, op.id, result)]
      ensures !op.hasCompletion && result < 0 && op.hasError ==> calls == old(calls) + [Call(false, op.id, result)]
      ensures !op.hasCompletion && (result >= 0 || !op.hasError) ==> calls == old(calls)
      // a result that is not negative is a success, with all its bytes
      ensures observed == old(observed) + [Observation(latency, result >= 0)]
      ensures result >= 0 ==> stats.completed == old(stats).completed + 1 && stats.failed == old(stats).failed
                              && stats.bytesWritten == old(stats).bytesWritten + |op.data|
      ensures result < 0 ==> stats.completed == old(stats).completed && stats.failed == old(stats).failed + 1
                             && stats.bytesWritten == old(stats).bytesWritten
    {
      hide Inv;
      FinishedInv(View(), op, result, latency);
      var success := result >= 0;
      UpdateStats(op, success, latency);
      if op.hasCompletion {
        calls := calls + [Call(true, op.id, result)];
      } else if !success && op.hasError {
        calls := calls + [Call(false, op.id, result)];
      }
      assert calls == old(calls) + CallsFor(op, result);
      executing := executing - {op.id};
      left := left + {op.id};
      observed := observed + [Observation(latency, success)];
    }

    /** A round of the loop, with nobody else at the queue. */
    method ProcessTop(exec: Executor, latency: WriteOperation -> real, files: Files) returns (after: Files)
      requires Valid() && operationQueue != []
      modifies this
      ensures Valid() && IsHeap(old(operationQueue)) && |operationQueue| == |old(operationQueue)| - 1
      ensures (View(), after) == Round(old(View()), exec, latency, files)
    {
      hide Inv, IsHeap, Popped, Finished;
      InvIsHeaped(View());
      var op := TakeLocked();
      var (f, result) := exec(op, FileOf(files, op.fd));
      after := files[op.fd := f];
      SizesAfterRound(View(), op, result, latency(op));
      Complete(op, result, latency(op));
    }

    /** `trace` is what it executed, and `answered` the executions with a callback. */
    method ProcessQueue(exec: Executor, latency: WriteOperation -> real, files: Files)
        returns (processed: nat, after: Files, ghost trace: seq<Execution>, ghost answered: seq<nat>)
      requires Valid()
      modifies this
      ensures Valid() && IsHeap(old(View()).heap) && (View(), after) == Processed(old(View()), exec, latency, files)
      ensures processed == |old(operationQueue)| && operationQueue == []
      // every operation that waited, in drained order
      ensures |trace| == processed == |Drained(old(operationQueue))|
      ensures forall i :: 0 <= i < |trace| ==> trace[i].op == Drained(old(operationQueue))[i].value
      // each executed once, on what its file held after those before it
      ensures Ran(trace, exec, files, after)
      // the callbacks, in that order: with a completion callback always that one, with the result;
      // else the error callback of a failure, with the result
      ensures |calls| == |old(calls)| + |answered| && old(calls) <= calls
      ensures forall k, l :: 0 <= k < l < |answered| ==> answered[k] < answered[l]
      ensures forall i :: i in answered <==>
                0 <= i < |trace| && (trace[i].op.hasCompletion || (trace[i].result < 0 && trace[i].op.hasError))
      ensures forall k :: 0 <= k < |answered| && answered[k] < |trace| ==>
                var e := trace[answered[k]];
                calls[|old(calls)| + k] == Call(e.op.hasCompletion, e.op.id, e.result)
      // and each is counted by its result
      ensures |observed| == |old(observed)| + |trace| && old(observed) <= observed
      ensures forall i :: 0 <= i < |trace| ==>
                observed[|old(observed)| + i] == Observation(latency(trace[i].op), trace[i].result >= 0)
      ensures CountedFor(trace, old(stats), stats)
    {
      hide Inv, Processed, Drained, Ran, CountedFor, IsHeap;
      ghost var was := View();
      InvIsHeaped(was);
      trace, answered := ProcessedTells(was, exec, latency, files);
      processed, after := ProcessLoop(exec, latency, files);
      assert calls == View().calls && observed == View().observed && stats == View().stats;
    }

    /** The loop alone. */
    method ProcessLoop(exec: Executor, latency: WriteOperation -> real, files: Files) returns (processed: nat, after: Files)
      requires Valid()
      modifies this
      ensures Valid() && IsHeap(old(View()).heap) && (View(), after) == Processed(old(View()), exec, latency, files)
      ensures processed == |old(operationQueue)| && operationQueue == []
    {
      hide Inv, IsHeap, Round, Processed;
      InvIsHeaped(View());
      processed, after := 0, files;
      while operationQueue != []
        invariant Valid() && IsHeap(operationQueue) && processed + |operationQueue| == |old(operationQueue)|
        invariant Processed(View(), exec, latency, after) == Processed(old(View()), exec, latency, files)
        decreases |operationQueue|
      {
        ProcessedRound(View(), exec, latency, after);
        after := ProcessTop(exec, latency, after);
        InvIsHeaped(View());
        processed := processed + 1;
      }
      ProcessedRound(View(), exec, latency, after);
    }

    method CancelAll(code: int)
      requires Valid()
      modifies this
      ensures Valid() && View() == Cancelled(old(View()), code)
      // nothing waits any more; each operation with an error callback had it called with the code
      ensures operationQueue == [] && waiting == map[] && executing == old(executing)
      ensures stats.failed == old(stats).failed + |old(operationQueue)| && stats.queueSize == 0
      ensures old(calls) <= calls
      ensures forall k :: |old(calls)| <= k < |calls| ==>
                calls[k].id in old(waiting) && old(waiting)[calls[k].id].value.hasError && calls[k] == Call(false, calls[k].id, code)
      ensures forall id :: id in old(waiting) && old(waiting)[id].value.hasError ==>
                exists k :: |old(calls)| <= k < |calls| && calls[k] == Call(false, id, code)
    {
      hide Inv, IsHeap, Popped;
      ghost var was := View();
      CancelEffect(was, code);
      InvIsHeaped(was);
      AllCancelledInv(was, code);
      while operationQueue != []
        invariant Heaped()
        invariant Cancelled(View(), code) == Cancelled(was, code)
        decreases |operationQueue|
      {
        CancelledStep(View(), code);
        CancelTop(code);
      }
      stats := stats.(queueSize := 0);
      unreported := false;
    }

    /** One round of the loop in `CancelAll`. */
    method CancelTop(code: int)
      requires Heaped() && operationQueue != []
      modifies this
      ensures Heaped() && View() == CancelledTop(old(View()), code)
      ensures |operationQueue| < |old(operationQueue)|
    {
      hide Popped, IsHeap;
      var x;
      x, operationQueue := TakeTop(operationQueue);
      var op := x.value;
      if op.hasError {
        calls := calls + [Call(false, op.id, code)];
      }
      stats := stats.(failed := stats.failed + 1);
      waiting := waiting - {op.id};
      left := left + {op.id};
      assert !op.hasError ==> calls + [] == calls;
    }

    method ResetStats()
      requires Valid()
      modifies this
      ensures Valid() && View() == Reset(old(View()))
      ensures stats == Stats(0, 0, 0, 0, 0, 0, 0.0) && operationQueue == old(operationQueue) && calls == old(calls)
    {
      hide Inv;
      ResetInv(View());
      stats := NO_STATS;
      carried := |operationQueue| + |executing|;
      observed := [];
      unreported := true;
    }

    method SetMaxQueueSize(n: nat)
      requires Valid()
      modifies this
      ensures Valid() && View() == old(View()).(limit := n)
    {
      LimitInv(View(), n);
      hide Inv;
      maxQueueSize := n;
    }
  }

  /** Adding an entry and then changing it is setting it. */
  lemma UpdatedOnce(before: map<nat, Queue>, mid: map<nat, Queue>, fd: nat, fallback: Queue, v: Queue)
    requires mid == if fd in before then before else before[fd := fallback]
    ensures fd in mid && mid[fd] == (if fd in before then before[fd] else fallback) && mid[fd := v] == before[fd := v]
  {
  }

  lemma NoVisits(qs: map<nat, Queue>, exec: Executor, latency: WriteOperation -> real, w: Files, total: nat)
    requires AllHeaps(qs)
    ensures Plus(ProcessedAll([], qs, exec, latency, w), total) == Outcome(qs, w, total)
  {
  }

  lemma PlusNothing(r: Outcome)
    ensures Plus(r, 0) == r
  {
  }

  lemma NextVisit(order: seq<nat>, i: nat, qs: map<nat, Queue>, exec: Executor, latency: WriteOperation -> real, w: Files, total: nat)
    requires AllHeaps(qs) && i < |order| && forall k :: 0 <= k < |order| ==> order[k] in qs
    ensures var (q', w') := Processed(qs[order[i]], exec, latency, w);
            var qs' := qs[order[i] := q'];
            && AllHeaps(qs') && qs'.Keys == qs.Keys
            && Plus(ProcessedAll(order[i..], qs, exec, latency, w), total)
            == Plus(ProcessedAll(order[i + 1..], qs', exec, latency, w'), total + |qs[order[i]].heap|)
  {
    assert order[i..][0] == order[i] && order[i..][1..] == order[i + 1..];
  }

  function CancelledAll(order: seq<nat>, qs: map<nat, Queue>, code: int): map<nat, Queue>
    requires AllHeaps(qs) && forall i :: 0 <= i < |order| ==> order[i] in qs
    decreases |order|
  {
    if order == [] then qs
    else CancelledAll(order[1..], qs[order[0] := Cancelled(qs[order[0]], code)], code)
  }

  /** Whatever the order, each visited queue is cancelled and no other. */
  lemma {:induction false} CancelledAllAt(order: seq<nat>, qs: map<nat, Queue>, code: int, fd: nat)
    requires AllHeaps(qs) && NoRepeats(order) && fd in qs
    requires forall i :: 0 <= i < |order| ==> order[i] in qs
    ensures fd in CancelledAll(order, qs, code)
    ensures CancelledAll(order, qs, code)[fd] == if fd in order then Cancelled(qs[fd], code) else qs[fd]
    decreases |order|
  {
    if order != [] {
      var first := order[0];
      CancelledAllAt(order[1..], qs[first := Cancelled(qs[first], code)], code, fd);
      assert order == [first] + order[1..] && first !in order[1..];
    }
  }

  lemma NextCancel(order: seq<nat>, i: nat, qs: map<nat, Queue>, code: int)
    requires AllHeaps(qs) && i < |order| && forall k :: 0 <= k < |order| ==> order[k] in qs
    ensures var qs' := qs[order[i] := Cancelled(qs[order[i]], code)];
            AllHeaps(qs') && CancelledAll(order[i..], qs, code) == CancelledAll(order[i + 1..], qs', code)
  {
    assert order[i..][0] == order[i] && order[i..][1..] == order[i + 1..];
  }

  lemma WeightedMean(weighted: real, completed: nat)
    requires completed > 0
    ensures weighted / completed as real * completed as real == weighted
  {
  }

  class Manager {
    var defaultMaxQueueSize: nat
    var fdQueues: map<nat, FDWriteQueue>

    /** Each descriptor has a queue of its own. */
    ghost predicate Valid()
      reads this, fdQueues.Values
    {
      && (forall fd :: fd in fdQueues ==> fdQueues[fd].Valid() && fdQueues[fd].fd == fd)
      && (forall a, b :: a in fdQueues && b in fdQueues && a != b ==> fdQueues[a] != fdQueues[b])
    }

    ghost function Views(): map<nat, Queue>
      reads this, fdQueues.Values
    {
      map fd | fd in fdQueues :: fdQueues[fd].View()
    }

    constructor (defaultMaxQueueSize: nat)
      ensures Valid() && Views() == map[] && this.defaultMaxQueueSize == defaultMaxQueueSize
    {
      this.defaultMaxQueueSize := defaultMaxQueueSize;
      fdQueues := map[];
    }

    /** The existing queue, or a new one. */
    method GetQueue(fd: nat) returns (queue: FDWriteQueue)
      requires Valid()
      modifies this
      ensures Valid() && fd in fdQueues && fdQueues[fd] == queue
      ensures defaultMaxQueueSize == old(defaultMaxQueueSize)
      ensures old(fd in fdQueues) ==> fdQueues == old(fdQueues)
      ensures old(fd !in fdQueues) ==> fresh(queue) && queue.View() == NewQueue(defaultMaxQueueSize)
      ensures old(fd !in fdQueues) ==> fdQueues == old(fdQueues)[fd := queue]
      ensures Views() == if fd in old(Views()) then old(Views()) else old(Views())[fd := NewQueue(defaultMaxQueueSize)]
    {
      hide Inv, IsHeap, Enqueued, NewQueue, IsFull;
      if fd in fdQueues {
        return fdQueues[fd];
      }
      queue := new FDWriteQueue(fd, defaultMaxQueueSize);
      fdQueues := fdQueues[fd := queue];
    }

    method EnqueueWrite(fd: nat, operation: Option<Entry>) returns (id: nat)
      requires Valid()
      modifies this, fdQueues.Values
      ensures Valid()
      ensures operation.None? ==> id == 0 && Views() == old(Views())
      ensures operation.Some? ==>
                var q := if fd in old(Views()) then old(Views())[fd] else NewQueue(old(defaultMaxQueueSize));
                && Views() == old(Views())[fd := Enqueued(q, operation.value)]
                && (id == 0 <==> IsFull(q))
    {
      hide Inv, IsHeap, Enqueued, NewQueue, IsFull;
      if operation.None? {
        return 0;
      }
      id := EnqueueOperation(fd, operation.value);
    }

    method EnqueueOperation(fd: nat, x: Entry) returns (id: nat)
      requires Valid()
      modifies this, fdQueues.Values
      ensures Valid()
      ensures var q := if fd in old(Views()) then old(Views())[fd] else NewQueue(old(defaultMaxQueueSize));
              Views() == old(Views())[fd := Enqueued(q, x)] && (id == 0 <==> IsFull(q))
    {
      hide Inv, IsHeap, Enqueued, NewQueue, IsFull;
      ghost var before := Views();
      var queue := GetQueue(fd);
      ghost var mid := Views();
      id := EnqueueAt(fd, x);
      UpdatedOnce(before, mid, fd, NewQueue(defaultMaxQueueSize), Enqueued(mid[fd], x));
    }

    method EnqueueAt(fd: nat, x: Entry) returns (id: nat)
      requires Valid() && fd in fdQueues
      modifies fdQueues[fd]
      ensures Valid() && Views() == old(Views())[fd := Enqueued(old(Views())[fd], x)]
      ensures id == 0 <==> IsFull(old(Views())[fd])
    {
      hide Inv, IsHeap, Enqueued, NewQueue, IsFull;
      id := fdQueues[fd].Enqueue(Some(x));
    }

    method ProcessAt(fd: nat, exec: Executor, latency: WriteOperation -> real, files: Files) returns (n: nat, after: Files)
      requires Valid() && fd in fdQueues
      modifies fdQueues[fd]
      ensures Valid() && IsHeap(old(Views())[fd].heap)
      ensures var r := Processed(old(Views())[fd], exec, latency, files);
              Views() == old(Views())[fd := r.0] && after == r.1
      ensures n == |old(Views())[fd].heap|
    {
      hide Inv, IsHeap, Processed, Cancelled;
      InvIsHeaped(fdQueues[fd].View());
      n, after := fdQueues[fd].ProcessLoop(exec, latency, files);
    }

    lemma HeapsWhenValid()
      requires Valid()
      ensures AllHeaps(Views()) && Views().Keys == fdQueues.Keys
    {
    }

    /** A round of the loop below. */
    method ProcessNext(order: seq<nat>, i: nat, exec: Executor, latency: WriteOperation -> real, files: Files, total: nat,
                       ghost goal: Outcome, ghost qs: map<nat, Queue>)
        returns (more: nat, after: Files, ghost rs: map<nat, Queue>)
      requires AllHeaps(qs) && i < |order| && forall k :: 0 <= k < |order| ==> order[k] in qs
      requires goal == Plus(ProcessedAll(order[i..], qs, exec, latency, files), total)
      requires Valid() && qs == Views() && order[i] in fdQueues
      modifies fdQueues[order[i]]
      ensures Valid() && rs == Views() && rs.Keys == qs.Keys
      ensures AllHeaps(rs) && goal == Plus(ProcessedAll(order[i + 1..], rs, exec, latency, after), more)
    {
      hide Inv, Processed, ProcessedAll, Plus, IsHeap, AllHeaps;
      NextVisit(order, i, qs, exec, latency, files, total);
      var n;
      n, after := ProcessAt(order[i], exec, latency, files);
      more, rs := total + n, Views();
    }

    /** `order` is the order in which the map happens to yield its descriptors. */
    method ProcessAllQueues(order: seq<nat>, exec: Executor, latency: WriteOperation -> real, files: Files)
        returns (total: nat, after: Files)
      requires Valid() && forall k :: 0 <= k < |order| ==> order[k] in fdQueues
      modifies fdQueues.Values
      ensures Valid() && AllHeaps(old(Views()))
      ensures Outcome(Views(), after, total) == ProcessedAll(order, old(Views()), exec, latency, files)
    {
      hide Inv, Processed, ProcessedAll, Plus, IsHeap, AllHeaps, Valid, Views;
      total, after := 0, files;
      HeapsWhenValid();
      ghost var goal := Plus(ProcessedAll(order, Views(), exec, latency, files), 0);
      assert order[0..] == order;
      ghost var qs := Views();
      for i := 0 to |order|
        invariant Valid() && qs == Views() && AllHeaps(qs) && qs.Keys == fdQueues.Keys
        invariant fdQueues == old(fdQueues)
        invariant forall k :: 0 <= k < |order| ==> order[k] in qs
        invariant goal == Plus(ProcessedAll(order[i..], qs, exec, latency, after), total)
      {
        total, after, qs := ProcessNext(order, i, exec, latency, after, total, goal, qs);
      }
      assert order[|order|..] == [];
      NoVisits(Views(), exec, latency, after, total);
      PlusNothing(ProcessedAll(order, old(Views()), exec, latency, files));
    }

    method CancelAll(order: seq<nat>, code: int)
      requires Valid() && forall k :: 0 <= k < |order| ==> order[k] in fdQueues
      modifies fdQueues.Values
      ensures Valid() && AllHeaps(old(Views()))
      ensures Views() == CancelledAll(order, old(Views()), code)
    {
      hide Inv, Cancelled, IsHeap;
      HeapsWhenValid();
      ghost var goal := CancelledAll(order, Views(), code);
      assert order[0..] == order;
      for i := 0 to |order|
        invariant Valid() && AllHeaps(Views()) && Views().Keys == fdQueues.Keys
        invariant fdQueues == old(fdQueues)
        invariant forall k :: 0 <= k < |order| ==> order[k] in Views()
        invariant goal == CancelledAll(order[i..], Views(), code)
      {
        NextCancel(order, i, Views(), code);
        CancelAt(order[i], code);
      }
    }

    method CancelAt(fd: nat, code: int)
      requires Valid() && fd in fdQueues
      modifies fdQueues[fd]
      ensures Valid() && IsHeap(old(Views())[fd].heap)
      ensures Views() == old(Views())[fd := Cancelled(old(Views())[fd], code)]
    {
      hide Inv, IsHeap, Processed, Cancelled;
      InvIsHeaped(fdQueues[fd].View());
      fdQueues[fd].CancelAll(code);
    }

    /** Forget the descriptor. Whether its queue was empty is all that `Flush` finds out, if its time
        is not over before it looks; what is still waiting is then cancelled by the queue's
        destructor. */
    method RemoveQueue(fd: nat, looks: bool) returns (flushed: bool)
      requires Valid()
      modifies this, fdQueues.Values
      ensures Valid() && Views() == old(Views()) - {fd}
      ensures flushed <==> fd !in old(Views()) || (looks && old(Views())[fd].heap == [])
      ensures old(fd in fdQueues) ==>
                && IsHeap(old(Views())[fd].heap)
                && old(fdQueues)[fd].View() == Cancelled(old(Views())[fd], CANCELED)
    {
      hide Inv, IsHeap, Cancelled;
      if fd !in fdQueues {
        return true;
      }
      var queue := TakeOut(fd);
      flushed := FlushOnceAndDestroy(queue, looks);
    }

    /** At most one look of `Flush`, and then the destructor. */
    method FlushOnceAndDestroy(queue: FDWriteQueue, looks: bool) returns (flushed: bool)
      requires Valid() && queue.Valid() && IsHeap(queue.operationQueue) && queue !in fdQueues.Values
      modifies queue
      ensures Valid() && Views() == old(Views()) && flushed == (looks && old(queue.View()).heap == [])
      ensures IsHeap(old(queue.View()).heap) && queue.View() == Cancelled(old(queue.View()), CANCELED)
    {
      hide Inv, IsHeap, Cancelled;
      flushed := looks && queue.operationQueue == [];
      queue.CancelAll(CANCELED);
    }

    /** The part under the manager's mutex. */
    method TakeOut(fd: nat) returns (queue: FDWriteQueue)
      requires Valid() && fd in fdQueues
      modifies `fdQueues
      ensures Valid() && Views() == old(Views()) - {fd} && fdQueues == old(fdQueues) - {fd}
      ensures queue == old(fdQueues)[fd] && queue.Valid() && IsHeap(queue.operationQueue) && queue !in fdQueues.Values
      ensures fd in old(Views()) && queue.View() == old(Views())[fd]
    {
      hide Inv, IsHeap;
      queue := fdQueues[fd];
      InvIsHeaped(queue.View());
      fdQueues := fdQueues - {fd};
    }

    method CollectStats(order: seq<nat>) returns (sum: Stats, weighted: real)
      requires Valid() && forall k :: 0 <= k < |order| ==> order[k] in fdQueues
      ensures sum == Summed(order, Views()) && sum.average == 0.0 && weighted == Weighted(order, Views())
      ensures AddsUp(sum, order, Views()) && IsLargest(sum.maxQueueSize, order, Views())
    {
      hide Inv, IsHeap, AddsUp, IsLargest, Averaged;
      sum, weighted := NO_STATS, 0.0;
      ghost var qs := Views();
      for i := 0 to |order|
        invariant sum == Summed(order[..i], qs) && sum.average == 0.0
        invariant weighted == Weighted(order[..i], qs)
      {
        assert order[..i + 1][..i] == order[..i];
        var stats := fdQueues[order[i]].stats;
        sum := Added(sum, stats);
        if stats.completed > 0 {
          weighted := weighted + stats.average * stats.completed as real;
        }
      }
      assert order[..|order|] == order;
      AveragesOfViews();
      SummedIsAggregate(order, qs);
    }

    method GetAggregateStats(order: seq<nat>) returns (aggregate: Stats)
      requires Valid() && forall k :: 0 <= k < |order| ==> order[k] in fdQueues
      ensures aggregate.(average := 0.0) == Summed(order, Views())
      // the numbers of the visited queues, added up; the largest of their largest sizes
      ensures aggregate.total == Sum(Numbers(order, Views(), TotalOf))
      ensures aggregate.completed == Sum(Numbers(order, Views(), SuccessesOf))
      ensures aggregate.failed == Sum(Numbers(order, Views(), FailedOf))
      ensures aggregate.bytesWritten == Sum(Numbers(order, Views(), BytesOf))
      ensures forall k :: 0 <= k < |order| ==> Views()[order[k]].stats.maxQueueSize <= aggregate.maxQueueSize
      ensures aggregate.maxQueueSize == 0
              || exists k :: 0 <= k < |order| && Views()[order[k]].stats.maxQueueSize == aggregate.maxQueueSize
      // nothing is lost or counted twice
      ensures aggregate.total + Sum(Numbers(order, Views(), CarriedOf))
           == aggregate.completed + aggregate.failed + Sum(Numbers(order, Views(), HeldOf))
      // the average is that of all successful latencies, if no failure distorted a queue's average
      ensures aggregate.completed > 0 ==> aggregate.average * aggregate.completed as real == Weighted(order, Views())
      ensures (forall fd :: fd in Views() ==> HarmlessFailures(Views()[fd].observed)) && aggregate.completed > 0 ==>
                aggregate.average * aggregate.completed as real == RealSum(RealNumbers(order, Views(), LatencyOf))
      ensures aggregate.completed == 0 ==> aggregate.average == 0.0
      ensures aggregate.queueSize == 0 <==>
                forall k :: 0 <= k < |order| ==> Views()[order[k]].heap == [] || Views()[order[k]].unreported
    {
      hide Inv, Summed, Weighted, IsHeap, Valid, Views, HarmlessFailures, AddsUp, IsLargest, Sum, RealSum, Numbers, RealNumbers;
      InvOfViews();
      ghost var qs := Views();
      AggregateMeans(order, qs);
      WeightedMeans(order, qs);
      var weighted;
      aggregate, weighted := CollectStats(order);
      if aggregate.completed > 0 {
        WeightedMean(weighted, aggregate.completed);
        aggregate := aggregate.(average := weighted / aggregate.completed as real);
      }
    }

    lemma AveragesOfViews()
      requires Valid()
      ensures forall fd :: fd in Views() ==> Averaged(Views()[fd])
    {
    }

    lemma InvOfViews()
      requires Valid()
      ensures Views().Keys == fdQueues.Keys && forall fd :: fd in Views() ==> Inv(Views()[fd])
    {
    }
  }

  lemma AggregateMeans(order: seq<nat>, qs: map<nat, Queue>)
    requires forall k :: 0 <= k < |order| ==> order[k] in qs
    requires forall fd :: fd in qs ==> Inv(qs[fd])
    ensures var s := Summed(order, qs);
            && s.total == Sum(Numbers(order, qs, TotalOf)) && s.completed == Sum(Numbers(order, qs, SuccessesOf))
            && s.failed == Sum(Numbers(order, qs, FailedOf)) && s.bytesWritten == Sum(Numbers(order, qs, BytesOf))
            && (forall k :: 0 <= k < |order| ==> qs[order[k]].stats.maxQueueSize <= s.maxQueueSize)
            && (s.maxQueueSize == 0 || exists k :: 0 <= k < |order| && qs[order[k]].stats.maxQueueSize == s.maxQueueSize)
            && s.total + Sum(Numbers(order, qs, CarriedOf)) == s.completed + s.failed + Sum(Numbers(order, qs, HeldOf))
            && (s.queueSize == 0 <==> forall k :: 0 <= k < |order| ==> qs[order[k]].heap == [] || qs[order[k]].unreported)
  {
    EachConserves(qs);
    hide Inv, Summed, Sum, Numbers, Averaged, Conserved;
    SummedIsAggregate(order, qs);
    SummedDrained(order, qs);
    AggregateConserves(order, qs);
  }

  lemma EachConserves(qs: map<nat, Queue>)
    requires forall fd :: fd in qs ==> Inv(qs[fd])
    ensures forall fd :: fd in qs ==> Averaged(qs[fd]) && Conserved(qs[fd])
  {
  }

  lemma WeightedMeans(order: seq<nat>, qs: map<nat, Queue>)
    requires forall k :: 0 <= k < |order| ==> order[k] in qs
    requires forall fd :: fd in qs ==> Inv(qs[fd])
    ensures (forall fd :: fd in qs ==> HarmlessFailures(qs[fd].observed)) ==>
              Weighted(order, qs) == RealSum(RealNumbers(order, qs, LatencyOf))
  {
    EachConserves(qs);
    hide Inv, Weighted, HarmlessFailures, RealSum, RealNumbers, Averaged, Conserved;
    LatenciesAreSummed(order, qs);
    if forall fd :: fd in qs ==> HarmlessFailures(qs[fd].observed) {
      WeightedIsTotal(order, qs);
    }
  }

  function Plus(r: Outcome, n: nat): Outcome {
    r.(processed := r.processed + n)
  }
}
