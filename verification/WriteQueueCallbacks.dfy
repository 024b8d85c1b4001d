/** Which callbacks an operation of a write queue gets, over whole runs: which one, with which
    code, and how often.
  */
module WriteQueueCallbacks {
  import opened Basics
  import opened PriorityHeap
  import opened WriteQueue

  // ---------- What each step does to the callbacks ----------

  /** After an execution: the completion callback, whatever the result; else the error callback
      after a failure; else none. */
  lemma FinishCalls(q: Queue, op: WriteOperation, result: int, latency: real)
    ensures var calls := Finished(q, op, result, latency).calls;
            && (op.hasCompletion ==> calls == q.calls + [Call(true, op.id, result)])
            && (!op.hasCompletion && result < 0 && op.hasError ==> calls == q.calls + [Call(false, op.id, result)])
            && (!op.hasCompletion && (result >= 0 || !op.hasError) ==> calls == q.calls)
  {
  }

  /** After `CancelAll`: the error callback with its code, for each waiting operation that has
      one, and nothing else. */
  ghost predicate CancelCalled(q: Queue, calls: seq<Call>, code: int) {
    && q.calls <= calls
    && (forall k :: |q.calls| <= k < |calls| ==>
          calls[k].id in q.waiting && q.waiting[calls[k].id].value.hasError && calls[k] == Call(false, calls[k].id, code))
    && (forall id :: id in q.waiting && q.waiting[id].value.hasError ==>
          exists k :: |q.calls| <= k < |calls| && calls[k] == Call(false, id, code))
  }

  lemma TopCall(q: Queue, code: int)
    requires Indexed(q) && q.heap != []
    ensures var r, op := CancelledTop(q, code), q.heap[0].item.value;
            && op.id in q.waiting && q.waiting[op.id] == q.heap[0].item && r.waiting == q.waiting - {op.id}
            && r.calls == if op.hasError then q.calls + [Call(false, op.id, code)] else q.calls
  {
    RootIsWaiting(q);
  }

  lemma OneMoreCancelled(q: Queue, r: Queue, op: WriteOperation, calls: seq<Call>, code: int)
    requires op.id in q.waiting && q.waiting[op.id].value == op && r.waiting == q.waiting - {op.id}
    requires r.calls == if op.hasError then q.calls + [Call(false, op.id, code)] else q.calls
    requires CancelCalled(r, calls, code)
    ensures CancelCalled(q, calls, code)
  {
    assert q.calls <= r.calls <= calls;
    forall k | |q.calls| <= k < |calls|
      ensures calls[k].id in q.waiting && q.waiting[calls[k].id].value.hasError && calls[k] == Call(false, calls[k].id, code)
    {
      assert k < |r.calls| ==> calls[k] == r.calls[k];
    }
    if op.hasError {
      assert r.calls[|q.calls|] == Call(false, op.id, code) && calls[|q.calls|] == r.calls[|q.calls|];
    }
    forall id | id in q.waiting && q.waiting[id].value.hasError
      ensures exists k :: |q.calls| <= k < |calls| && calls[k] == Call(false, id, code)
    {
      if id != op.id {
        assert id in r.waiting && r.waiting[id] == q.waiting[id];
        var k :| |r.calls| <= k < |calls| && calls[k] == Call(false, id, code);
        assert |q.calls| <= k;
      }
    }
  }

  lemma {:induction false} CancelCalls(q: Queue, code: int)
    requires Indexed(q)
    ensures CancelCalled(q, Cancelled(q, code).calls, code)
    decreases |q.heap|
  {
    if q.heap == [] {
      assert q.waiting == map[];
    } else {
      PopIndexed(q);
      CancelledStep(q, code);
      TopCall(q, code);
      var r := CancelledTop(q, code);
      hide CancelCalled, CancelledTop, Cancelled;
      CancelCalls(r, code);
      OneMoreCancelled(q, r, q.heap[0].item.value, Cancelled(q, code).calls, code);
    }
  }

  // ---------- What a run keeps of them ----------

  /** Calls are only added, and only for ids that have not left; what has left, stays so. */
  ghost predicate Grown(q: Queue, r: Queue) {
    && q.calls <= r.calls && q.left <= r.left && q.nextId <= r.nextId
    && (forall k :: |q.calls| <= k < |r.calls| ==> r.calls[k].id !in q.left)
  }

  lemma FinishGrows(q: Queue, id: nat, result: int, latency: real)
    requires Indexed(q) && Partitioned(q) && id in q.executing
    ensures Grown(q, Finished(q, q.executing[id], result, latency))
  {
    FinishCalls(q, q.executing[id], result, latency);
  }

  lemma CancelGrows(q: Queue, code: int)
    requires Indexed(q) && Partitioned(q)
    ensures Grown(q, Cancelled(q, code))
  {
    CancelCalls(q, code);
    CancelAllEmpties(q, code);
    CancelKeepsIds(q, code);
    hide Cancelled;
  }

  lemma {:induction false} CancelKeepsIds(q: Queue, code: int)
    requires IsHeap(q.heap)
    ensures Cancelled(q, code).nextId == q.nextId
    decreases |q.heap|
  {
    if q.heap != [] {
      CancelledStep(q, code);
      CancelKeepsIds(CancelledTop(q, code), code);
    }
  }

  lemma StepGrows(q: Queue, a: Action)
    requires Inv(q) && Enabled(q, a)
    ensures Grown(q, Next(q, a))
  {
    match a
    case Enqueue(x) =>
    case Take =>
    case Finish(id, result, latency) => FinishGrows(q, id, result, latency);
    case CancelAll(code) => CancelGrows(q, code);
    case ResetStats =>
    case SetMaxQueueSize(limit) =>
  }

  lemma GrownFurther(q: Queue, r: Queue, s: Queue)
    requires Grown(q, r) && Grown(r, s)
    ensures Grown(q, s)
  {
    forall k | |q.calls| <= k < |s.calls|
      ensures s.calls[k].id !in q.left
    {
      assert k < |r.calls| ==> s.calls[k] == r.calls[k];
    }
  }

  lemma {:induction false} RunGrows(q: Queue, run: seq<Action>)
    requires Inv(q) && Runs(q, run)
    ensures Inv(After(q, run)) && Grown(q, After(q, run))
    decreases |run|
  {
    hide Inv, Next, Enabled, Grown;
    if run == [] {
      GrownNothing(q);
    } else {
      StepGrows(q, run[0]);
      StepKeepsInv(q, run[0]);
      RunGrows(Next(q, run[0]), run[1..]);
      GrownFurther(q, Next(q, run[0]), After(q, run));
    }
  }

  lemma GrownNothing(q: Queue)
    ensures Grown(q, q)
  {
  }

  // ---------- An operation on its way ----------

  /** Where the operation is, it is the one that was accepted under this id. */
  ghost predicate IsStill(q: Queue, id: nat, x: Entry) {
    && id < q.nextId
    && (id in q.waiting ==> q.waiting[id] == x)
    && (id in q.executing ==> q.executing[id] == x.value)
  }

  lemma StepKeepsOperation(q: Queue, a: Action, id: nat, x: Entry)
    requires Inv(q) && Enabled(q, a) && IsStill(q, id, x)
    ensures IsStill(Next(q, a), id, x)
  {
    hide Averaged, Conserved, SizeReported, CalledOnce;
    match a
    case Enqueue(y) =>
    case Take => RootIsWaiting(q);
    case Finish(i, result, latency) =>
    case CancelAll(code) => CancelAllEmpties(q, code); CancelKeepsIds(q, code);
    case ResetStats =>
    case SetMaxQueueSize(limit) =>
  }

  lemma {:induction false} RunKeepsOperation(q: Queue, run: seq<Action>, id: nat, x: Entry)
    requires Inv(q) && Runs(q, run) && IsStill(q, id, x)
    ensures IsStill(After(q, run), id, x)
    decreases |run|
  {
    hide Inv, Next, Enabled, IsStill;
    if run != [] {
      StepKeepsOperation(q, run[0], id, x);
      StepKeepsInv(q, run[0]);
      RunKeepsOperation(Next(q, run[0]), run[1..], id, x);
    }
  }

  lemma {:induction false} RunSplits(q: Queue, run: seq<Action>, i: nat)
    requires Runs(q, run) && i <= |run|
    ensures Runs(q, run[..i]) && Runs(After(q, run[..i]), run[i..])
    ensures After(After(q, run[..i]), run[i..]) == After(q, run)
    decreases |run|
  {
    hide Next, Enabled;
    if i == 0 {
      assert run[..0] == [] && run[0..] == run;
    } else {
      RunSplits(Next(q, run[0]), run[1..], i - 1);
      assert run[..i][0] == run[0] && run[..i][1..] == run[1..][..i - 1] && run[i..] == run[1..][i - 1..];
    }
  }

  /** The state before the `i`-th action of a run, the state after it, and the rest. */
  lemma AtAction(limit: nat, run: seq<Action>, i: nat) returns (q: Queue, r: Queue)
    requires Runs(NewQueue(limit), run) && i < |run|
    ensures Runs(NewQueue(limit), run[..i]) && q == After(NewQueue(limit), run[..i])
    ensures Inv(q) && Enabled(q, run[i]) && r == Next(q, run[i]) && Inv(r)
    ensures Runs(r, run[i + 1..]) && After(r, run[i + 1..]) == After(NewQueue(limit), run)
    ensures Inv(After(NewQueue(limit), run)) && Grown(r, After(NewQueue(limit), run))
  {
    hide Inv, Next, Enabled, NewQueue, Grown;
    RunSplits(NewQueue(limit), run, i);
    q := After(NewQueue(limit), run[..i]);
    NewQueueInv(limit);
    RunKeepsInv(NewQueue(limit), run[..i]);
    assert run[i..][0] == run[i] && run[i..][1..] == run[i + 1..];
    r := Next(q, run[i]);
    StepKeepsInv(q, run[i]);
    RunGrows(r, run[i + 1..]);
  }

  /** An operation is waiting or executing as it was enqueued, but for its id, which is the
      number that `Enqueue` returned. */
  lemma AsEnqueued(limit: nat, run: seq<Action>, e: nat, i: nat)
    requires Runs(NewQueue(limit), run) && e < i <= |run| && run[e].Enqueue?
    requires Runs(NewQueue(limit), run[..e]) && Runs(NewQueue(limit), run[..i])
    requires var q := After(NewQueue(limit), run[..e]); q.limit == 0 || |q.heap| < q.limit
    ensures var id, x, t := After(NewQueue(limit), run[..e]).nextId, run[e].x, After(NewQueue(limit), run[..i]);
            && (id in t.waiting ==> t.waiting[id] == Item(x.priority, x.timestamp, x.value.(id := id)))
            && (id in t.executing ==> t.executing[id] == x.value.(id := id))
            && (id in t.waiting || id in t.executing || id in t.left)
  {
    var before := run[..i];
    assert before[..e] == run[..e] && before[e] == run[e];
    var q, r := AtAction(limit, before, e);
    var y := WithId(run[e].x, q.nextId);
    hide Inv, Runs, After, NewQueue;
    NewIdIsFree(q, run[e].x);
    assert IsStill(r, q.nextId, y);
    RunKeepsOperation(r, before[e + 1..], q.nextId, y);
    GivenIdIsSomewhere(After(NewQueue(limit), before), q.nextId);
  }

  lemma NewIdIsFree(q: Queue, x: Entry)
    requires Inv(q) && !IsFull(q)
    ensures q.nextId >= 1 && q.nextId !in q.executing && Enqueued(q, x).waiting == q.waiting[q.nextId := WithId(x, q.nextId)]
    ensures Enqueued(q, x).nextId == q.nextId + 1 && Enqueued(q, x).executing == q.executing
  {
  }

  lemma GivenIdIsSomewhere(q: Queue, id: nat)
    requires Inv(q) && 1 <= id < q.nextId
    ensures id in q.waiting || id in q.executing || id in q.left
  {
  }

  // ---------- Exactly the callbacks that are due ----------

  /** The call is made once, and it is the only one for its id. */
  ghost predicate OnlyCall(calls: seq<Call>, c: Call) {
    exists k :: 0 <= k < |calls| && calls[k] == c && forall l :: 0 <= l < |calls| && calls[l].id == c.id ==> l == k
  }

  lemma OnlyCallLater(r: Queue, t: Queue, c: Call)
    requires Inv(t) && Grown(r, t) && c in r.calls && c.id in r.left
    ensures OnlyCall(t.calls, c)
  {
    var k :| 0 <= k < |r.calls| && r.calls[k] == c;
    assert t.calls[k] == c;
    assert CalledOnce(t);
    forall l | 0 <= l < |t.calls| && t.calls[l].id == c.id
      ensures l == k
    {
    }
  }

  lemma NoCallLater(r: Queue, t: Queue, id: nat)
    requires Grown(r, t) && id in r.left && forall c :: c in r.calls ==> c.id != id
    ensures forall c :: c in t.calls ==> c.id != id
  {
    forall l | 0 <= l < |t.calls|
      ensures t.calls[l].id != id
    {
      if l < |r.calls| {
        assert t.calls[l] == r.calls[l];
        assert r.calls[l] in r.calls;
      }
    }
  }

  lemma NotCalledYet(q: Queue, id: nat)
    requires Inv(q) && (id in q.waiting || id in q.executing)
    ensures id !in q.left && forall c :: c in q.calls ==> c.id != id
  {
  }

  /** Each execution, in any run: an operation with a completion callback has exactly one call, of
      that callback, with the executor's result; one without it that failed and has an error
      callback has exactly one call, of that one, with the result; any other has none. */
  lemma ExecutedCallsBack(limit: nat, run: seq<Action>, i: nat)
    requires Runs(NewQueue(limit), run) && i < |run| && run[i].Finish?
    ensures Runs(NewQueue(limit), run[..i]) && run[i].id in After(NewQueue(limit), run[..i]).executing
    ensures var op, result, calls := After(NewQueue(limit), run[..i]).executing[run[i].id], run[i].result, After(NewQueue(limit), run).calls;
            && op.id == run[i].id
            && (op.hasCompletion ==> OnlyCall(calls, Call(true, op.id, result)))
            && (!op.hasCompletion && result < 0 && op.hasError ==> OnlyCall(calls, Call(false, op.id, result)))
            && (!op.hasCompletion && (result >= 0 || !op.hasError) ==> forall c :: c in calls ==> c.id != op.id)
  {
    var q, r := AtAction(limit, run, i);
    var t := After(NewQueue(limit), run);
    var op, result := q.executing[run[i].id], run[i].result;
    assert op.id == run[i].id;
    FinishCalls(q, op, result, run[i].latency);
    NotCalledYet(q, op.id);
    assert op.id in r.left;
    hide Inv, Runs, After, NewQueue, Grown, Finished, OnlyCall;
    if op.hasCompletion {
      assert r.calls[|q.calls|] == Call(true, op.id, result);
      OnlyCallLater(r, t, Call(true, op.id, result));
    } else if result < 0 && op.hasError {
      assert r.calls[|q.calls|] == Call(false, op.id, result);
      OnlyCallLater(r, t, Call(false, op.id, result));
    } else {
      NoCallLater(r, t, op.id);
    }
  }

  /** And each cancellation: a waiting operation with an error callback has exactly one call, of
      that callback, with the code of the cancellation; one without has none. */
  lemma CancelledCallsBack(limit: nat, run: seq<Action>, i: nat, id: nat)
    requires Runs(NewQueue(limit), run) && i < |run| && run[i].CancelAll?
    requires Runs(NewQueue(limit), run[..i]) && id in After(NewQueue(limit), run[..i]).waiting
    ensures var op, calls := After(NewQueue(limit), run[..i]).waiting[id].value, After(NewQueue(limit), run).calls;
            && op.id == id
            && (op.hasError ==> OnlyCall(calls, Call(false, id, run[i].code)))
            && (!op.hasError ==> forall c :: c in calls ==> c.id != id)
  {
    hide Inv, Runs, After, NewQueue, Grown, Cancelled, OnlyCall;
    var q, r := AtAction(limit, run, i);
    var t := After(NewQueue(limit), run);
    JustCancelled(q, run[i].code, id);
    assert IsHeap(q.heap) && r == Cancelled(q, run[i].code);
    if q.waiting[id].value.hasError {
      OnlyCallLater(r, t, Call(false, id, run[i].code));
    } else {
      NoCallLater(r, t, id);
    }
  }

  lemma JustCancelled(q: Queue, code: int, id: nat)
    requires Inv(q) && id in q.waiting
    ensures var op, r := q.waiting[id].value, Cancelled(q, code);
            && op.id == id && id in r.left
            && (op.hasError ==> Call(false, id, code) in r.calls)
            && (!op.hasError ==> forall c :: c in r.calls ==> c.id != id)
  {
    CancelCalls(q, code);
    CancelAllEmpties(q, code);
    NotCalledYet(q, id);
    assert q.waiting[id].value.id == id;
    hide Inv, Cancelled;
    var r := Cancelled(q, code);
    if !q.waiting[id].value.hasError {
      forall c | c in r.calls
        ensures c.id != id
      {
        var k :| 0 <= k < |r.calls| && r.calls[k] == c;
        assert k < |q.calls| ==> q.calls[k] == c && c in q.calls;
      }
    }
  }

  // ---------- The statistics ----------

  /** What an execution counts: a result that is not negative is a success, with all its bytes. */
  lemma FinishStats(q: Queue, op: WriteOperation, result: int, latency: real)
    ensures var s, t := q.stats, Finished(q, op, result, latency).stats;
            && t == s.(completed := t.completed, failed := t.failed, bytesWritten := t.bytesWritten, average := t.average)
            && (result >= 0 ==> t.completed == s.completed + 1 && t.failed == s.failed && t.bytesWritten == s.bytesWritten + |op.data|)
            && (result < 0 ==> t.completed == s.completed && t.failed == s.failed + 1 && t.bytesWritten == s.bytesWritten)
  {
  }

  /** The bytes that the `i`-th action of a run writes. */
  ghost function WrittenAt(q: Queue, run: seq<Action>, i: nat): nat
    requires i < |run|
  {
    if Runs(q, run[..i]) && run[i].Finish? && run[i].result >= 0 && run[i].id in After(q, run[..i]).executing
    then |After(q, run[..i]).executing[run[i].id].data|
    else 0
  }

  lemma StepWrites(q: Queue, a: Action)
    requires Inv(q) && Enabled(q, a) && !a.ResetStats?
    ensures Next(q, a).stats.bytesWritten
         == q.stats.bytesWritten + if a.Finish? && a.result >= 0 then |q.executing[a.id].data| else 0
  {
    if a.CancelAll? {
      CancelWritesNothing(q, a.code);
    }
  }

  lemma {:induction false} CancelWritesNothing(q: Queue, code: int)
    requires IsHeap(q.heap)
    ensures Cancelled(q, code).stats.bytesWritten == q.stats.bytesWritten
    decreases |q.heap|
  {
    if q.heap != [] {
      CancelledStep(q, code);
      CancelWritesNothing(CancelledTop(q, code), code);
    }
  }

  /** Since the queue was new, and without resets, `bytes_written` is the sum of the sizes of the
      writes that succeeded. */
  lemma {:induction false} BytesAreWritten(limit: nat, run: seq<Action>, n: nat)
    requires Runs(NewQueue(limit), run) && n <= |run| && forall a :: a in run ==> !a.ResetStats?
    ensures Runs(NewQueue(limit), run[..n])
    ensures After(NewQueue(limit), run[..n]).stats.bytesWritten == Sum(WrittenBy(NewQueue(limit), run, n))
    decreases n
  {
    var s := NewQueue(limit);
    if n > 0 {
      hide Inv, Next, Enabled, Runs, After, NewQueue, Grown, WrittenAt, WrittenBy, Sum;
      var i := n - 1;
      BytesAreWritten(limit, run, i);
      AfterPrefix(s, run, i);
      var q, r := AtAction(limit, run, i);
      StepWrites(q, run[i]);
      WrittenHere(s, run, i);
      OneMoreWritten(s, run, i);
    }
  }

  /** The bytes of each of the first `n` actions. */
  ghost function WrittenBy(q: Queue, run: seq<Action>, n: nat): (xs: seq<int>)
    requires n <= |run|
    ensures |xs| == n && forall i :: 0 <= i < n ==> xs[i] == WrittenAt(q, run, i)
  {
    if n == 0 then [] else WrittenBy(q, run, n - 1) + [WrittenAt(q, run, n - 1)]
  }

  lemma OneMoreWritten(q: Queue, run: seq<Action>, i: nat)
    requires i < |run|
    ensures Sum(WrittenBy(q, run, i + 1)) == Sum(WrittenBy(q, run, i)) + WrittenAt(q, run, i)
  {
    hide WrittenAt;
    var xs := WrittenBy(q, run, i + 1);
    assert xs[..|xs| - 1] == WrittenBy(q, run, i);
  }

  lemma WrittenHere(q: Queue, run: seq<Action>, i: nat)
    requires i < |run| && Runs(q, run[..i]) && Enabled(After(q, run[..i]), run[i])
    ensures WrittenAt(q, run, i)
         == if run[i].Finish? && run[i].result >= 0 then |After(q, run[..i]).executing[run[i].id].data| else 0
  {
  }

  // ---------- The limit and the record of sizes ----------

  /** The limit that the queue was made with bounds it over every run that does not change it. */
  lemma {:induction false} HeapStaysBounded(limit: nat, q: Queue, run: seq<Action>)
    requires Runs(q, run) && Inv(q) && q.limit == limit > 0 && |q.heap| <= limit
    requires forall a :: a in run ==> !a.SetMaxQueueSize?
    ensures After(q, run).limit == limit && |After(q, run).heap| <= limit
    decreases |run|
  {
    if run != [] {
      StepKeepsInv(q, run[0]);
      StepKeepsBound(limit, q, run[0]);
      hide Inv, Next, Enabled;
      HeapStaysBounded(limit, Next(q, run[0]), run[1..]);
    }
  }

  lemma StepKeepsBound(limit: nat, q: Queue, a: Action)
    requires Inv(q) && Enabled(q, a) && !a.SetMaxQueueSize? && q.limit == limit > 0 && |q.heap| <= limit
    ensures Next(q, a).limit == limit && |Next(q, a).heap| <= limit
  {
    if a.CancelAll? {
      CancelAllEmpties(q, a.code);
      CancelKeepsLimit(q, a.code);
    }
  }

  lemma {:induction false} CancelKeepsLimit(q: Queue, code: int)
    requires IsHeap(q.heap)
    ensures Cancelled(q, code).limit == q.limit && Cancelled(q, code).stats.maxQueueSize == q.stats.maxQueueSize
    decreases |q.heap|
  {
    if q.heap != [] {
      CancelledStep(q, code);
      CancelKeepsLimit(CancelledTop(q, code), code);
    }
  }

  /** A new queue with a limit never holds more. */
  lemma NewQueueStaysBounded(limit: nat, run: seq<Action>)
    requires limit > 0 && Runs(NewQueue(limit), run) && forall a :: a in run ==> !a.SetMaxQueueSize?
    ensures |After(NewQueue(limit), run).heap| <= limit
  {
    NewQueueInv(limit);
    HeapStaysBounded(limit, NewQueue(limit), run);
  }

  /** At its `i`-th action the run accepts an operation. */
  ghost predicate AcceptsAt(q: Queue, run: seq<Action>, i: nat)
    requires i < |run|
  {
    run[i].Enqueue? && Runs(q, run[..i]) && !IsFull(After(q, run[..i]))
  }

  ghost function SizeAt(q: Queue, run: seq<Action>, i: nat): nat
    requires i <= |run| && Runs(q, run[..i])
  {
    |After(q, run[..i]).heap|
  }

  /** Since the last reset before `n` there was no larger size, and it was reached, or is zero. */
  ghost predicate IsRecord(q: Queue, run: seq<Action>, n: nat, size: nat)
    requires Runs(q, run) && n <= |run|
  {
    && (forall i :: 0 <= i < n && AcceptsAt(q, run, i) && (forall j :: i < j < n ==> !run[j].ResetStats?) ==>
          Runs(q, run[..i + 1]) && SizeAt(q, run, i + 1) <= size)
    && (size == 0 || exists i :: 0 <= i < n && AcceptsAt(q, run, i) && (forall j :: i < j < n ==> !run[j].ResetStats?)
                                 && Runs(q, run[..i + 1]) && SizeAt(q, run, i + 1) == size)
  }

  lemma StepRecords(q: Queue, a: Action)
    requires Inv(q) && Enabled(q, a)
    ensures var m, r := q.stats.maxQueueSize, Next(q, a);
            && (a.ResetStats? ==> r.stats.maxQueueSize == 0)
            && (a.Enqueue? && !IsFull(q) ==>
                  r.stats.maxQueueSize in {m, |r.heap|} && r.stats.maxQueueSize >= m && r.stats.maxQueueSize >= |r.heap| > 0)
            && (!a.ResetStats? && !(a.Enqueue? && !IsFull(q)) ==> r.stats.maxQueueSize == m)
  {
    if a.CancelAll? {
      CancelKeepsLimit(q, a.code);
    }
  }

  /** The statistic `max_queue_size` is the largest size since the last reset. */
  lemma {:induction false} MaxSizeIsTheRecord(limit: nat, run: seq<Action>, n: nat)
    requires Runs(NewQueue(limit), run) && n <= |run|
    ensures Runs(NewQueue(limit), run[..n]) && IsRecord(NewQueue(limit), run, n, After(NewQueue(limit), run[..n]).stats.maxQueueSize)
    decreases n
  {
    var s := NewQueue(limit);
    if n > 0 {
      hide Inv, Next, Enabled, NewQueue, Grown;
      var i := n - 1;
      MaxSizeIsTheRecord(limit, run, i);
      AfterPrefix(s, run, i);
      var q, r := AtAction(limit, run, i);
      StepRecords(q, run[i]);
      RecordMoves(s, run, i, q.stats.maxQueueSize, r.stats.maxQueueSize);
    }
  }

  lemma RecordMoves(s: Queue, run: seq<Action>, i: nat, m: nat, size: nat)
    requires Runs(s, run) && i < |run| && IsRecord(s, run, i, m) && Runs(s, run[..i + 1])
    requires run[i].ResetStats? ==> size == 0
    requires AcceptsAt(s, run, i) ==> size in {m, SizeAt(s, run, i + 1)} && size >= m && size >= SizeAt(s, run, i + 1) > 0
    requires !run[i].ResetStats? && !AcceptsAt(s, run, i) ==> size == m
    ensures IsRecord(s, run, i + 1, size)
  {
    hide Runs, After, SizeAt, AcceptsAt;
    var n := i + 1;
    forall k | 0 <= k < n && AcceptsAt(s, run, k) && (forall j :: k < j < n ==> !run[j].ResetStats?)
      ensures Runs(s, run[..k + 1]) && SizeAt(s, run, k + 1) <= size
    {
      if k < i {
        assert !run[i].ResetStats?;
        assert forall j :: k < j < i ==> !run[j].ResetStats?;
      }
    }
    if size != 0 {
      if AcceptsAt(s, run, i) && size == SizeAt(s, run, i + 1) {
        assert 0 <= i < n;
      } else {
        var k :| 0 <= k < i && AcceptsAt(s, run, k) && (forall j :: k < j < i ==> !run[j].ResetStats?)
                 && Runs(s, run[..k + 1]) && SizeAt(s, run, k + 1) == size;
        assert forall j :: k < j < n ==> !run[j].ResetStats?;
      }
    }
  }
}
