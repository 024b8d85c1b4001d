# A model of the native layer of a FUSE binding for Node

The repository binds libfuse to JavaScript. Requests come in on FUSE threads, cross a
dispatcher to the JavaScript thread, and have to be answered exactly once; writes are queued
per file descriptor; file ranges are copied by hand where the kernel cannot; and several
formats are packed and unpacked along the way. This project models that layer and proves what
it is for.

| module | what it models |
|---|---|
| `DispatcherProtocol` | the dispatcher and the `replied` flag as a transition system: one action is one critical section or one atomic operation of a dispatching thread, a worker, the JavaScript thread or the thread in `Shutdown` |
| `DispatcherSafety` | the invariant of every reachable state, proved action by action |
| `DispatcherTheorems` | what follows over whole runs: one place, exact counts, one reply, and the exact effect of the cancel pass |
| `DispatcherLosses` | which accepted requests are answered after the last sweep, and which are lost: an exact condition |
| `DispatcherRelock` | the second cancel pass, which holds the mutex that a decrement to zero locks: when it ends, and when it never does |
| `DispatcherProgress` | the running dispatcher never gets stuck, and drains once nobody enters |
| `DispatcherFairness` | in which order and how soon requests are served, over the runs in which each pop takes the root of the heap |
| `TSFNDispatcher` | the dispatcher's own fields and methods; each step takes one action of the protocol, so every interleaving of the steps is one of its runs |
| `PriorityHeap` | the binary heap behind both queues, with the loops of `push_heap` and `pop_heap` |
| `Overtaking` | how long an entry of any such queue can wait |
| `RollingAverage` | both rolling averages, over exact reals |
| `WriteQueue` | the per-descriptor write queue: its critical sections, and the runs of any number of threads |
| `WriteQueueCallbacks` | which callback each operation gets, with which code and how often, and what the statistics mean over a run |
| `WriteQueueManager` | the queue's class, the manager over a map of queues, and the aggregate |
| `CopyFileRange` | the copier: kernel call, chunked fallback, short reads, short writes, interruptions |
| `Readdir` | packing directory pages, and the listing the kernel assembles from them |
| `WriteBuf` | flattening scattered write buffers |
| `Timespec`, `TimespecText` | 64-bit timestamp arithmetic, printing and parsing |
| `Xattr` | lists of extended attribute names |
| `PathUtils` | path normalisation, joining and splitting |
| `Basics` | what several of these share |

The transition system has no fairness and no clock; its theorems hold for every finite run of
any number of threads. System calls, the layout of one directory entry, executors and latencies
are parameters or methods with a nondeterministic body. Averages use `real`. Machine integers
wrap where the text says so (`Timespec`) and are unbounded elsewhere.

Where the code and its comments differ, the model follows the code:

- `normalize_timespec` has a loop commented as handling underflow. It never runs: the branch
  before it reads negative nanoseconds as unsigned, which moves the instant by 2^64 ns
  (`Timespec.NormalizedInstant`).
- `string_to_timespec` is commented as padding the fraction to nine digits. A fraction that
  breaks off early is padded after the break, so its digits count as nanoseconds, which is right
  only for zeros (`TimespecText.BrokenFraction`). A fraction that starts with a minus sign is
  accepted, and reaches the jump above: "1.-5" is a time 584 years on (`TimespecText.OddFraction`,
  `TimespecText.MinusInTheFraction`). A minus sign before zero seconds is lost: "-0.5" is half a
  second after the epoch (`TimespecText.NegativeText`, `TimespecText.MinusHalf`).
- `chunkedCopyFileRange` takes a short read for the end of the file; the copy is complete exactly
  if no read was short before that (`CopyFileRange.Copier.ChunkedCopyFileRange`). After an error in
  a later chunk it reports the whole chunks before it as a success, but leaves the offsets alone
  and may have stored more (`CopyFileRange.OffsetsStayAfterAPartialCopy`).
- The check at the start of `HandleWriteBuf` refuses with ENOSYS when neither handler is there. A
  vector with a descriptor always goes to the WRITE handler, so with a WRITE_BUF handler alone it
  is refused too, after it has been read (`WriteBuf.DeliveredExactly`, `WriteBuf.DescriptorNeedsTheWriteHandler`).
- `Shutdown` answers what is pending, but a request that its dispatcher registers after the last
  sweep has begun is accepted and never answered (`DispatcherLosses.AnsweredExactly`,
  `DispatcherLosses.OverlappingDispatchIsLost`).
- `Shutdown` waits for `inflight_` to reach zero. Its cancel pass counts a queued entry twice,
  since it is pending too, and an entry left behind by a worker's error path once more than it
  was counted up (`DispatcherTheorems.CancelPassLowersInflight`,
  `DispatcherTheorems.OneQueuedRequestEndsBelowZero`).
- `Shutdown` speaks of a bounded wait. After it the second cancel pass runs with `inflight_mtx_` held,
  and `DecInflight` locks that mutex when it takes the count from one to zero. So the pass never
  ends if the count is positive and the pass is to lower it to zero or below, for which one late
  dispatch is enough (`DispatcherRelock.SecondPassEndsExactly`, `DispatcherRelock.ALateDispatchRelocks`).
- The draining check reads an aggregate queue size that `ResetStats` zeroes
  (`WriteQueue.DrainedExactly`, `WriteQueue.ResetHidesAWaitingOperation`).
- A write queue's average latency also takes in failures, without counting them
  (`RollingAverage.AlwaysMeanExactly`, `RollingAverage.AFailureDistortsTheMean`).

## Model

| member | source | states |
|---|---|---|
| `DispatcherSafety.StepKeepsInv` | src/tsfn_dispatcher.cc:76-550 | every action of every thread keeps the invariant: each request has one place, pending-map and queue membership match it, callbacks and replies are counted exactly, `inflight_` and the statistics satisfy their equations |
| `DispatcherSafety.RunKeepsInv` | src/tsfn_dispatcher.cc:76-550 | so does every interleaving |
| `DispatcherSafety.ReachableInv` | src/tsfn_dispatcher.cc:35-66 | so it holds in every state that some run from the initialised dispatcher reaches |
| `DispatcherSafety.StepKeepsLocal` | src/tsfn_dispatcher.cc:76-550 | an action of one thread on one request keeps what holds of every other request |
| `DispatcherSafety.CountsKept` | src/tsfn_dispatcher.cc:303-350 | each action keeps both counting equations, although registering, pushing and counting are separate steps |
| `DispatcherSafety.EntryMoves` | src/tsfn_dispatcher.cc:412-517 | when one entry changes place, the two counts change by what its old and new place owe |
| `DispatcherTheorems.OnePlace` | src/tsfn_dispatcher.cc:309-350 | until a cancel pass begins, each accepted request is in exactly one of queue, worker, JavaScript or settled; a queued id is a key of the pending map; ids lie below the counter |
| `DispatcherTheorems.InflightCountsTheWork` | src/tsfn_dispatcher.cc:303-350 | until then `inflight_` plus the callers that pushed and have not counted yet is the number queued, with workers or in JavaScript |
| `DispatcherTheorems.AcceptedAreAccountedFor` | src/tsfn_dispatcher.cc:519-550 | until then each accepted request is in the statistics, or in the queue, or with a worker, or in JavaScript and uncounted, never in two of these, also across `ResetStats` |
| `DispatcherTheorems.QueueStaysBounded` | src/tsfn_dispatcher.cc:332-344 | an unchanged, nonzero limit bounds the queue over every run |
| `DispatcherTheorems.CallbackBounds` | src/tsfn_dispatcher.cc:437-540 | `callback_fn` runs at most once, `error_callback` at most once before a cancel pass and twice in all, and never without the request being answered |
| `DispatcherTheorems.AtMostOneReply` | src/fuse_bridge.cc:621-650 | no request is answered twice in any phase; the flag is set exactly when the one reply is sent or about to be |
| `DispatcherTheorems.RunKeepsSweeping` | src/tsfn_dispatcher.cc:135-149 | once a sweep of the pending map has begun, no interleaving takes a key away from it |
| `DispatcherTheorems.PendingAtTheSweepAreAnswered` | src/tsfn_dispatcher.cc:135-149 | every request pending when the sweep begins has been answered exactly once when it is over, whatever the others do meanwhile, and for ever after; only a reply that the JavaScript thread began first can still be on its way |
| `DispatcherLosses.StepTracks` | src/tsfn_dispatcher.cc:76-550 | every action keeps, for every request: a set flag has a cause; a key that was cleared had been swept; what is answered stays so; what came too late for the sweep stays untouched; what is lost stays lost |
| `DispatcherLosses.ReachableTraced` | src/fuse_bridge.cc:621-650 | in every reachable state a set flag was set by an error callback, the sweep, a refusal, or after `callback_fn` began |
| `DispatcherLosses.RegisteredBeforeTheSweep` | src/tsfn_dispatcher.cc:135-149 | whatever is in the pending map, or has left it, when a sweep begins is answered once the sweep is over, or its callback returned normally, or its caller is about to refuse it; other dispatches may overlap |
| `DispatcherLosses.AnsweredExactly` | src/tsfn_dispatcher.cc:76-206 | after the last sweep an accepted request is answered or up to the JavaScript code exactly if it had been registered when that sweep began |
| `DispatcherLosses.NoRequestIsLost` | src/tsfn_dispatcher.cc:76-206 | whatever was registered before the pending map was first cleared is safe after that, and answered with one kernel reply |
| `DispatcherLosses.LostExactly` | src/tsfn_dispatcher.cc:192-200 | in a closed dispatcher an entry left in or discarded from the queue is lost exactly if no sweep had dealt with it |
| `DispatcherLosses.LateIsLost` | src/tsfn_dispatcher.cc:192-200 | a request accepted after the last sweep began ends up lost |
| `DispatcherLosses.LostIsForEver` | src/tsfn_dispatcher.cc:192-200 | a lost request is never answered and its callback never runs |
| `DispatcherLosses.OverlappingDispatchIsLost` | src/tsfn_dispatcher.cc:192-200 | there is one: a dispatch that passes the RUNNING check before `Shutdown` and registers after its sweep |
| `DispatcherRelock.SecondPassEndsExactly` | src/tsfn_dispatcher.cc:158-173 | with nobody else moving, a second cancel pass can reach its end exactly if not 1 <= `inflight_` <= queue size plus pending size when it begins, and can relock its own mutex exactly otherwise, in any order of its steps |
| `DispatcherRelock.RunKeepsSecondPass` | src/tsfn_dispatcher.cc:158-173 | how far that pass has come: the count and the decrements left, as an invariant of its runs |
| `DispatcherRelock.PassGoesOn` | src/tsfn_dispatcher.cc:111-173 | from any of its states the pass can go on until it ends or relocks |
| `DispatcherRelock.RelockedForEver` | src/tsfn_dispatcher.cc:563-568 | a relocked mutex stays so under every interleaving: `Shutdown` never returns, and what its pass had left queued and unanswered stays that |
| `DispatcherRelock.ALateDispatchRelocks` | src/tsfn_dispatcher.cc:158-173 | it does happen: with one dispatch that is counted during the bounded wait |
| `DispatcherProgress.UnsettledCanMove` | src/tsfn_dispatcher.cc:412-517 | while the dispatcher runs, an accepted request is settled or can move on, by a worker, in JavaScript, or by a reply on its way |
| `DispatcherProgress.StepWorks` | src/tsfn_dispatcher.cc:303-550 | while it runs and nobody enters, each action that does anything lowers the work that is left, and no other changes it |
| `DispatcherProgress.BoundedWork` | src/tsfn_dispatcher.cc:303-550 | so over every interleaving only so many actions do anything |
| `DispatcherProgress.StoppedIsDrained` | src/tsfn_dispatcher.cc:303-550 | a run that no such action continues has drained the dispatcher: callers returned, queue empty, requests settled, count zero, replies sent |
| `DispatcherProgress.CanDrain` | src/tsfn_dispatcher.cc:303-550 | from every reachable state of a running dispatcher some run that nobody enters drains it |
| `DispatcherFairness.StepOfTheLine` | src/tsfn_dispatcher.cc:332-344 | one action of the dispatcher is at most one arrival or one service in its queue |
| `DispatcherFairness.RunOfTheLine` | src/tsfn_dispatcher.cc:412-435 | so its runs are runs of the waiting line |
| `DispatcherFairness.EventsOfParts` | src/tsfn_dispatcher.cc:412-435 | and the services of that line are the pops, one for one, its arrivals of higher priority the pushes of such requests |
| `DispatcherFairness.PopsWhileWaiting` | src/tsfn_dispatcher.cc:412-435 | while a request stays queued, at most as many are popped as were ahead of it, plus the later pushes of strictly higher priority |
| `DispatcherFairness.FifoWithinTheLimit` | src/fuse_bridge.cc:570-575 | with one priority and an unchanged nonzero limit, at most limit minus one are popped before it, under every interleaving |
| `DispatcherFairness.PoppedFirst` | src/tsfn_dispatcher.cc:412-435 | a queued request that ranks before another is popped before it, under every interleaving |
| `DispatcherFairness.FirstInFirstOut` | src/tsfn_dispatcher.cc:412-435 | with one priority and times that grow with the pushes, of two requests the one pushed first is popped first |
| `DispatcherTheorems.CancelPassLowersInflight` | src/tsfn_dispatcher.cc:111-153 | with the system quiet, the pass lowers `inflight_` by queue size plus pending size; it ends at zero exactly when the queue was empty and no failed entry was left behind |
| `DispatcherTheorems.RunKeepsPass` | src/tsfn_dispatcher.cc:111-153 | how far the pass has come, as an invariant of the runs |
| `DispatcherTheorems.OneQueuedRequestEndsBelowZero` | src/tsfn_dispatcher.cc:111-153 | it does end below zero: with one queued request, at -1 |
| `DispatcherTheorems.BeforeThePass` | src/tsfn_dispatcher.cc:107-111 | with the system quiet and the workers joined, the pending keys are the queued and the left-behind entries, and `inflight_` is the queue size |
| `TSFNDispatcher.Dispatcher.constructor` | src/tsfn_dispatcher.cc:35-66 | the fields after `Initialize`, and the protocol's initial state with that limit |
| `TSFNDispatcher.Dispatcher.BeginDispatch` | src/tsfn_dispatcher.cc:314-318 | the RUNNING check lets exactly the running dispatcher go on |
| `TSFNDispatcher.Dispatcher.AllocateId` | src/tsfn_dispatcher.cc:320-320 | ids come from the counter, each once |
| `TSFNDispatcher.Dispatcher.RegisterPending` | src/tsfn_dispatcher.cc:327-330 | the pending map gains the entry and nothing else changes |
| `TSFNDispatcher.Dispatcher.Enqueue` | src/tsfn_dispatcher.cc:340-343 | the heap stays a heap and holds exactly the old entries and the new one; the size is noted, and the largest size is the larger of the old one and it |
| `TSFNDispatcher.Dispatcher.PushOrRefuse` | src/tsfn_dispatcher.cc:332-344 | under the lock: pushed if there is room, else out of the pending map again and nothing else changed |
| `TSFNDispatcher.Dispatcher.DispatchCustom` | src/tsfn_dispatcher.cc:309-350 | an undisturbed call: 0 exactly when not running or full, leaving queue, map and count as they were; else a new id that is queued, pending and counted |
| `TSFNDispatcher.Dispatcher.ProcessRequest` | src/fuse_bridge.cc:954-1003 | it answers itself exactly the requests that get no id: with ENOSYS exactly without a handler; with success, EINVAL and EIO exactly without a dispatcher for DESTROY, without an environment, and when creating one fails; with EAGAIN, and the flag set, exactly when the dispatcher is not running or is full |
| `TSFNDispatcher.Dispatcher.ReplyOnce` | src/fuse_bridge.cc:621-650 | only the caller that finds the flag clear replies; the flag is then set |
| `TSFNDispatcher.Dispatcher.Dequeue` | src/tsfn_dispatcher.cc:423-425 | top and pop hand out an entry that no queued one ranks before, and remove exactly it |
| `TSFNDispatcher.Dispatcher.TakeNext` | src/tsfn_dispatcher.cc:415-429 | the same as the protocol's step, with the size statistic |
| `TSFNDispatcher.Dispatcher.HandleCallbackError` | src/tsfn_dispatcher.cc:519-540 | counts one error, answers a pending request, and erases nothing |
| `TSFNDispatcher.Dispatcher.ProcessCallback` | src/tsfn_dispatcher.cc:437-517 | posted exactly when running, handled and accepted; else answered, counted down, and still a key of the pending map |
| `TSFNDispatcher.Dispatcher.WorkerRound` | src/tsfn_dispatcher.cc:412-435 | a worker's round serves the next entry in line and settles or posts it |
| `TSFNDispatcher.Dispatcher.StartJs` | src/tsfn_dispatcher.cc:481-487 | the callback runs, and may answer its request |
| `TSFNDispatcher.Dispatcher.EndJs` | src/tsfn_dispatcher.cc:488-498 | a throw answers the request through the error callback |
| `TSFNDispatcher.Dispatcher.UpdateStats` | src/tsfn_dispatcher.cc:542-550 | one more dispatched, one more completed on success, and the average stays that of the observations |
| `TSFNDispatcher.Dispatcher.RunInJs` | src/tsfn_dispatcher.cc:470-510 | a whole JavaScript call: out of the pending map, counted down once, in the statistics once, answered if it answered or threw |
| `TSFNDispatcher.Dispatcher.CancelQueued` | src/tsfn_dispatcher.cc:115-133 | the first loop: one error callback and one decrement for each queued entry, every one answered, the queue empty; stuck exactly if the thread holds the mutex and has to take the count from one to zero |
| `TSFNDispatcher.Dispatcher.CancelEach` | src/tsfn_dispatcher.cc:135-147 | the second loop: the same for each key of the pending map, stuck in the same case |
| `TSFNDispatcher.Dispatcher.CancelPendings` | src/tsfn_dispatcher.cc:135-149 | and the map cleared, unless stuck |
| `TSFNDispatcher.Dispatcher.CancelAllCallbacks` | src/tsfn_dispatcher.cc:111-173 | both loops: the pass ends exactly if it does not hold the mutex while it has to take a positive count to zero; then `inflight_` has fallen by queue size plus pending size, and error callbacks have run once per entry of each; else it stands at zero, after as many error callbacks as it was |
| `TSFNDispatcher.Dispatcher.Shutdown` | src/tsfn_dispatcher.cc:76-206 | an undisturbed shutdown: everything queued or pending answered, both emptied, the exact `inflight_` left behind; a second call changes nothing |
| `TSFNDispatcher.RootIsNext` | src/tsfn_dispatcher.cc:552-563 | the root of the heap is next in line among the queued entries |
| `TSFNDispatcher.ErrorPath` | src/tsfn_dispatcher.cc:444-459 | a worker's error path is a run of the protocol that leaves the entry given up but still in the map |
| `PriorityHeap.StrictWeakOrder` | src/tsfn_dispatcher.cc:552-563 | the comparator is a strict weak order on non-null entries; ties are equal priority and time |
| `PriorityHeap.NullBreaksTheOrder` | src/write_queue.cc:173-177 | with a null entry it is none: null ties with entries that do not tie |
| `PriorityHeap.PushedIsHeap` | src/write_queue.cc:51-52 | a push keeps the heap and adds exactly the entry |
| `PriorityHeap.PoppedIsHeap` | src/write_queue.cc:78-79 | a pop keeps the heap and removes exactly the root |
| `PriorityHeap.PopIgnoresRoot` | src/write_queue.cc:78-79 | popping after the root was moved out gives the same vector |
| `PriorityHeap.RootIsFirst` | src/write_queue.cc:173-186 | no entry ranks before the root |
| `PriorityHeap.DrainedIsSortedPermutation` | src/write_queue.cc:68-107 | repeated pops hand out a permutation of the entries, sorted by priority and time |
| `PriorityHeap.SortedOrderIsUnique` | src/write_queue.cc:173-186 | entries of distinct rank have only one such order |
| `PriorityHeap.DrainIsFifo` | src/write_queue.cc:173-186 | entries pushed in rank order come out in push order |
| `PriorityHeap.PushHole` | src/write_queue.cc:52-52 | the sift-up loop computes `SiftUp` |
| `PriorityHeap.AdjustHeap` | src/write_queue.cc:79-79 | the sink-then-rise loop computes the popped vector |
| `PriorityHeap.Push` | src/write_queue.cc:52-52 | the method keeps the heap and adds exactly the entry |
| `PriorityHeap.Pop` | src/write_queue.cc:79-79 | the method, also with a moved-out root, keeps the heap and removes exactly the root |
| `PriorityHeap.TakeTop` | src/write_queue.cc:78-79 | move the root out, then pop: what is handed out ranks first and nothing else is lost |
| `Overtaking.BoundedOvertaking` | src/tsfn_dispatcher.cc:412-435 | while an entry waits, at most as many are served as were ahead of it plus the later arrivals that do not rank after it |
| `Overtaking.OnlyHigherPriorityOvertakes` | src/tsfn_dispatcher.cc:552-563 | with growing times those arrivals are exactly the ones of strictly higher priority |
| `Overtaking.OnePriorityIsFifo` | src/fuse_bridge.cc:570-575 | all FUSE requests have one priority, so at most limit minus one others are served first |
| `RollingAverage.DispatcherAverageIsMean` | src/tsfn_dispatcher.cc:542-550 | the average times `total_completed` is the sum of the successful latencies |
| `RollingAverage.CompletedOfParts` | src/tsfn_dispatcher.cc:542-550 | the number of successes adds up over the parts of a history, one for each success |
| `RollingAverage.TotalOfParts` | src/tsfn_dispatcher.cc:542-550 | so does the sum of their latencies |
| `RollingAverage.MeanAfterOneMore` | src/write_queue.cc:188-203 | a success keeps a write queue's mean exact; a failure does so exactly if nothing has completed or its latency is the mean |
| `RollingAverage.AlwaysMeanExactly` | src/write_queue.cc:188-203 | over a whole history the average is an exact mean at all times exactly if each failure came before any success or took the average itself |
| `RollingAverage.AFailureDistortsTheMean` | src/write_queue.cc:188-203 | a success at 1.0 and a failure at 3.0 make the average 3.0 |
| `RollingAverage.WriteQueueAverageIsMean` | src/write_queue.cc:188-203 | so under that condition the average times the completions is the sum of the successful latencies |
| `RollingAverage.WriteQueueAverageStaysWithin` | src/write_queue.cc:188-203 | it always lies between the smallest and the largest observed latency once something completed |
| `WriteQueue.RunKeepsInv` | src/write_queue.cc:35-163 | every interleaving of enqueues, executions, cancellations, resets and limit changes keeps the queue's invariant |
| `WriteQueue.OperationsAreConserved` | src/write_queue.cc:35-163 | counted plus carried over the last reset is completed plus failed plus queued plus executing; each id is waiting, executing or gone |
| `WriteQueue.AtMostOneCallback` | src/write_queue.cc:99-104 | each id is called back at most once, never while it waits or executes |
| `WriteQueue.CancelAllEmpties` | src/write_queue.cc:130-145 | exactly the waiting operations leave, each counted as failed; executing ones are untouched |
| `WriteQueue.RootIsNext` | src/write_queue.cc:173-186 | the top is an operation that no waiting one ranks before |
| `WriteQueue.DrainedMeansEmpty` | src/shutdown.cc:461-468 | the aggregate size is zero exactly when every queue is empty or in the state that a reset leaves |
| `WriteQueue.UnreportedExactly` | src/write_queue.cc:35-163 | a queue is in that state exactly if its history holds a reset after which no operation was accepted, taken or cancelled |
| `WriteQueue.DrainedExactly` | src/shutdown.cc:461-468 | over all runs of all queues: the aggregate size is zero exactly when each queue is empty or has such a history |
| `WriteQueue.WithoutResetsReported` | src/write_queue.cc:161-163 | in particular, without resets the sizes are current |
| `WriteQueue.ResetHidesAWaitingOperation` | src/write_queue.cc:161-163 | one reset hides a waiting operation from the draining check |
| `WriteQueueCallbacks.ExecutedCallsBack` | src/write_queue.cc:96-106 | over every run, an executed operation with a completion callback gets exactly one call, of that callback, with the executor's result; one without it that failed and has an error callback exactly one, of that one, with the result; any other none |
| `WriteQueueCallbacks.CancelledCallsBack` | src/write_queue.cc:130-145 | over every run, an operation that waits at a cancellation gets exactly one call of its error callback, with the code, or none if it has no such callback |
| `WriteQueueCallbacks.CancelCalls` | src/write_queue.cc:130-145 | what a cancellation calls, and nothing else |
| `WriteQueueCallbacks.AsEnqueued` | src/write_queue.cc:35-59 | an operation waits and executes as it was enqueued, but for its id, until it is gone |
| `WriteQueueCallbacks.FinishStats` | src/write_queue.cc:188-203 | a result that is not negative counts as a success with all its bytes, any other as a failure |
| `WriteQueueCallbacks.BytesAreWritten` | src/write_queue.cc:188-203 | without resets `bytes_written` is the sum of the sizes of the writes of the run that succeeded |
| `WriteQueueCallbacks.MaxSizeIsTheRecord` | src/write_queue.cc:51-54 | `max_queue_size` is the largest size that an enqueue reached since the last reset |
| `WriteQueueCallbacks.NewQueueStaysBounded` | src/write_queue.cc:42-45 | the limit a queue is made with bounds it over every run that does not change it |
| `WriteQueueManager.ProcessedRunsDrained` | src/write_queue.cc:61-110 | processing a queue executes its drained order, each operation once |
| `WriteQueueManager.ProcessedInv` | src/write_queue.cc:61-110 | and keeps the queue's invariant |
| `WriteQueueManager.ProcessedIsLocal` | src/write_queue.cc:269-294 | a queue of one descriptor depends on and changes that file only |
| `WriteQueueManager.EnqueuedAllHeap` | src/write_queue.cc:35-59 | a queue takes operations until it is full, numbers them in order, and pushes them |
| `WriteQueueManager.FileEndsAsIfInEnqueueOrder` | src/write_queue.cc:35-110 | after any number of `Enqueue` calls with one priority and growing times, processing leaves the file as if the accepted writes had run in that order |
| `WriteQueueManager.NotVisited` | src/write_queue.cc:285-291 | a descriptor that is not visited keeps its queue and its file |
| `WriteQueueManager.Visited` | src/write_queue.cc:285-291 | a visited one ends as if it had been visited alone |
| `WriteQueueManager.VisitOrderDoesNotMatter` | src/write_queue.cc:269-294 | every order in which the map yields its queues gives the same queues, files and count |
| `WriteQueueManager.WeightedIsTotal` | src/write_queue.cc:351-381 | the weighted latencies add up to all observed ones, under the condition of `WriteQueueAverageIsMean` |
| `WriteQueueManager.SummedReports` | src/write_queue.cc:351-366 | the aggregate `queue_size` is the one that the draining check reads |
| `WriteQueueManager.SummedDrained` | src/shutdown.cc:461-468 | so it is zero exactly when every queue is empty or untouched since a reset |
| `WriteQueueManager.SummedIsAggregate` | src/write_queue.cc:351-366 | each number of the aggregate is the sum over the visited queues, the largest size an upper bound that one of them attains |
| `WriteQueueManager.AggregateConserves` | src/write_queue.cc:351-366 | the sums conserve operations, as each queue does |
| `WriteQueueManager.LatenciesAreSummed` | src/write_queue.cc:368-379 | what the weighted latencies add up to is the sum of the successful latencies of each queue |
| `WriteQueueManager.CancelledAllAt` | src/write_queue.cc:328-336 | cancelling all queues cancels each visited one and no other, in any order |
| `WriteQueueManager.FDWriteQueue.constructor` | src/write_queue.cc:26-29 | an empty queue with the given limit, ids from 1 and zero statistics |
| `WriteQueueManager.FDWriteQueue.Enqueue` | src/write_queue.cc:35-59 | 0 exactly for a null operation or a full queue, with nothing changed; else the next id, under which the operation waits; the size and its record are noted |
| `WriteQueueManager.FDWriteQueue.TakeLocked` | src/write_queue.cc:71-81 | the top moves from the heap into the hands of the caller |
| `WriteQueueManager.FDWriteQueue.UpdateStats` | src/write_queue.cc:188-203 | a success adds one and its bytes, a failure one; the average is updated |
| `WriteQueueManager.FDWriteQueue.Complete` | src/write_queue.cc:96-106 | the completion callback with the result if there is one, else the error callback with it after a failure, else none; a result that is not negative counts as a success with its bytes; the queue's invariant is kept, as by every method of the class |
| `WriteQueueManager.FDWriteQueue.ProcessQueue` | src/write_queue.cc:61-110 | every waiting operation is executed once, in drained order, each on what its file then holds; the callbacks that are due are called in that order with the results; each execution is observed and counted by its result; the queue is then empty |
| `WriteQueueManager.FDWriteQueue.CancelAll` | src/write_queue.cc:130-145 | nothing waits any more; exactly the operations with an error callback have it called, with the code; all count as failures |
| `WriteQueueManager.Manager.GetQueue` | src/write_queue.cc:216-233 | the existing queue, or a fresh empty one that is then in the map |
| `WriteQueueManager.Manager.EnqueueWrite` | src/write_queue.cc:256-267 | one queue gains the operation, and no other changes |
| `WriteQueueManager.Manager.ProcessAllQueues` | src/write_queue.cc:269-294 | the loop over the queues computes the outcome of visiting them in that order |
| `WriteQueueManager.Manager.CancelAll` | src/write_queue.cc:328-336 | the loop computes the cancelled queues |
| `WriteQueueManager.Manager.RemoveQueue` | src/write_queue.cc:235-254 | the descriptor is forgotten; true only if its queue was looked at and seen empty; what still waited is cancelled by the destructor |
| `WriteQueueManager.Manager.CollectStats` | src/write_queue.cc:354-375 | the loop adds up the five counts, with completed as the successes observed, and takes the largest of the largest sizes |
| `WriteQueueManager.Manager.GetAggregateStats` | src/write_queue.cc:351-382 | the sums over the visited queues, in which counted plus carried is completed plus failed plus held; the average times the completed ones is the weighted sum, which is the sum of all successful latencies unless failures distorted them; a size of zero exactly when the draining check may say so |
| `CopyFileRange.StoredTwice` | src/copy_file_range.cc:142-171 | two adjacent writes are one write of both |
| `CopyFileRange.CopiedTwice` | src/copy_file_range.cc:121-186 | a copy followed by the copy of the next bytes is one copy |
| `CopyFileRange.CopiedByteForByte` | src/copy_file_range.cc:121-186 | a copy is byte for byte the source's, leaves every other byte, and fills a gap with zeros |
| `CopyFileRange.ReportedMeans` | src/copy_file_range.cc:104-167 | what is reported after a failure is the largest multiple of the chunk within the room, or an error if that is none |
| `CopyFileRange.Copier.SetChunkSize` | src/copy_file_range.cc:199-201 | the nearest size in the allowed range |
| `CopyFileRange.Copier.WriteAll` | src/copy_file_range.cc:142-171 | through short writes and interruptions exactly a prefix of the buffer is written; all of it exactly if no call failed for good, and with steady calls exactly if the device has room, else as much as fits; it terminates |
| `CopyFileRange.Copier.CopyChunk` | src/copy_file_range.cc:122-171 | a round copies what it read, or a prefix of that exactly if a call failed |
| `CopyFileRange.Copier.CopyChunks` | src/copy_file_range.cc:121-186 | the bytes changed are one run that equals the source run; the loop ends normally exactly if no call failed, and is then complete exactly if no read was short too early; at a failure the whole chunks are counted; no read exceeds the buffer |
| `CopyFileRange.Copier.ChunkedCopyFileRange` | src/copy_file_range.cc:97-197 | the bytes stored are byte for byte those of the source, and nothing else changes; it ends normally exactly if no call failed for good, and is then complete exactly if no read was short too early; with steady calls and eager reads it ends normally exactly if the device has room for the least of the length and what the source has left, whatever the chunk size, and that is then the result and the move of both cursors; else all room is used, the largest multiple of the chunk in it is reported, and the offsets stay |
| `CopyFileRange.OffsetsStayAfterAPartialCopy` | src/copy_file_range.cc:161-171 | such a call: a device that fills up in the second chunk |
| `CopyFileRange.Copier.CopyFileRange` | src/copy_file_range.cc:61-84 | the same with the kernel asked first, once, unless it was given up: what it copies is the result; two refusals switch it off for good, a third is worked around, every other is final and copies nothing |
| `Readdir.Pack` | src/fuse_bridge.cc:2251-2299 | EIO exactly if the page ends at an object (in readdirplus, one with a name) whose offset is negative, lossy, or in readdir neither number nor big integer; else the entries of all objects before the end, in order, each with its own fields, and the page ends early only at one with no room; an empty buffer asks for nothing; no store overruns the buffer |
| `Readdir.FailsExactly` | src/fuse_bridge.cc:2269-2281 | the elements that the loop fails at |
| `Readdir.SkipsExactly` | src/fuse_bridge.cc:2260-2263 | the elements that it passes over: what is no object, and in readdirplus what has no name |
| `Readdir.PutsExactly` | src/fuse_bridge.cc:2265-2287 | the fields of what it puts; only readdirplus makes up an offset |
| `Readdir.SkippedAddsNothing` | src/fuse_bridge.cc:2260-2262 | without an element that is passed over the page is the same |
| `Readdir.StepsWithoutOne` | src/fuse_bridge.cc:2341-2375 | and the other elements do what they did, unless an offset behind it is made up |
| `Readdir.EncodedOfParts` | src/fuse_bridge.cc:2287-2295 | entries follow one another in the buffer |
| `Readdir.PageIsUnique` | src/fuse_bridge.cc:2260-2295 | there is only one such prefix |
| `Readdir.ListedStepsAreTheAnswer` | src/fuse_bridge.cc:2341-2375 | such an array, with offsets as numbers, as big integers, or by position, is what the loop takes for those entries |
| `Readdir.PackRepliesPage` | src/fuse_bridge.cc:2341-2399 | for a handler whose array lists the entries after the offset, the reply is no error but the page of the listing below |
| `Readdir.ListingDelivers` | src/fuse_bridge.cc:2260-2299 | resuming after each page delivers, once and in order, every entry up to the first that fits no page, in at most one page more than entries |
| `Readdir.ListingIsComplete` | src/fuse_bridge.cc:2260-2299 | the whole directory arrives exactly when each entry fits a page, in at most entries plus one pages |
| `WriteBuf.System.Fill` | src/fuse_bridge.cc:3524-3534 | over any split into short reads, the wanted bytes of the file, or failure |
| `WriteBuf.System.Linearise` | src/fuse_bridge.cc:3511-3544 | all buffers' bytes, each buffer's after those before it, or EIO and nothing dispatched |
| `WriteBuf.System.CopyBuffers` | src/fuse_bridge.cc:3440-3459 | a copy of the bytes at each pointer; EIO exactly when a pointer that is needed is missing |
| `WriteBuf.System.HandleWriteBuf` | src/fuse_bridge.cc:3377-3544 | what is delivered holds each buffer's bytes, from memory or from its file, after those of the buffers before it; while reads fail at the end of a file only, it is delivered exactly if all bytes are there and somebody takes them, and EIO comes exactly if some are missing; an early failure can only turn the answer into EIO |
| `WriteBuf.DeliveredExactly` | src/fuse_bridge.cc:3391-3544 | delivered exactly if readable and somebody takes it, which for a vector with a descriptor is the WRITE handler alone; what arrives is then all its bytes, whoever takes it; else EIO and ENOSYS say exactly what was missing |
| `WriteBuf.DescriptorNeedsTheWriteHandler` | src/fuse_bridge.cc:3512-3544 | with a WRITE_BUF handler alone, a readable byte in a file is refused with ENOSYS, and the same byte in memory delivered |
| `WriteBuf.CopiesAreFlat` | src/fuse_bridge.cc:3440-3459 | the separate copies make up the flattened bytes |
| `WriteBuf.FlatLength` | src/fuse_bridge.cc:3511-3523 | their number is the sum of the sizes |
| `WriteBuf.FlatInPlace` | src/fuse_bridge.cc:3511-3544 | where each buffer's bytes are among all of them |
| `Timespec.NsRoundTrip` | src/timespec_codec.cc:20-45 | every unsigned number of nanoseconds survives the way to a timespec and back |
| `Timespec.ToNsIsInstant` | src/timespec_codec.cc:20-45 | the conversion is the instant modulo 2^64; the way back restores a timespec exactly when it is valid and its instant fits |
| `Timespec.AddThenDiff` | src/timespec_codec.cc:122-171 | difference undoes addition, adding the negation restores the time, and exactly the sums before the epoch become (-1, 0) |
| `Timespec.CompareIsSignOfDiff` | src/timespec_codec.cc:146-171 | comparing gives the sign of the difference |
| `Timespec.NormalizedInstant` | src/timespec_codec.cc:199-217 | normal nanoseconds always; without overflow of the seconds the instant is kept exactly when the nanoseconds were not negative, else moved by 2^64; it is always kept modulo 2^64 |
| `Timespec.NegativeNanosecondsJump` | src/timespec_codec.cc:199-217 | minus one nanosecond becomes more than 584 years |
| `Timespec.Cell.Normalize` | src/timespec_codec.cc:199-217 | the update in place |
| `Timespec.Cell.Add` | src/timespec_codec.cc:122-141 | the update in place |
| `TimespecText.StringToTimespec` | src/timespec_codec.cc:262-299 | the parse in place, with zero and failure when a conversion throws |
| `TimespecText.PrintThenParse` | src/timespec_codec.cc:252-299 | printing then parsing restores every time with normal nanoseconds, and succeeds exactly when its seconds are not negative |
| `TimespecText.TextForm` | src/timespec_codec.cc:252-257 | the printed form: a minus sign only for negative seconds, the seconds without leading zeros, a point, and nine digits of nanoseconds |
| `TimespecText.NineIsFloor` | src/timespec_codec.cc:282-287 | filling or cutting to nine digits takes the floor of the fraction in nanoseconds, at any length |
| `TimespecText.DecimalParses` | src/timespec_codec.cc:262-299 | digits, a point and digits parse to the seconds and that floor exactly when there are seconds and they fit; else to zero and failure |
| `TimespecText.WholeSeconds` | src/timespec_codec.cc:269-273 | a text without a point is its seconds, accepted exactly if there are digits that fit and no minus sign before a number |
| `TimespecText.BadSeconds` | src/timespec_codec.cc:274-299 | seconds that the conversion throws at fail the whole text |
| `TimespecText.BrokenFraction` | src/timespec_codec.cc:280-289 | a fraction of digits and whatever follows them parses to the floor of the digits exactly if nothing follows, or there are nine, or they are zeros; else to the digits as nanoseconds |
| `TimespecText.StollOfSplit` | src/timespec_codec.cc:272-289 | of white space, a sign, digits and a rest only the sign and the digits matter; without digits the conversion throws |
| `TimespecText.EverySplits` | src/timespec_codec.cc:272-289 | every text comes apart like that |
| `TimespecText.OddFraction` | src/timespec_codec.cc:280-293 | a fraction that starts otherwise: failure without digits, the digits as nanoseconds, or after a minus sign the jump of the normalisation |
| `TimespecText.MinusInTheFraction` | src/timespec_codec.cc:280-293 | "1.-5" is accepted as a time 584 years on |
| `TimespecText.NegativeText` | src/timespec_codec.cc:262-299 | a text with a minus sign is accepted exactly if its seconds are zero; then its fraction counts as positive |
| `TimespecText.MinusHalf` | src/timespec_codec.cc:262-299 | "-0.5" is accepted as plus half a second |
| `Xattr.ParseAttributeList` | src/xattr_bridge.cc:56-72 | the loop computes the names of the list, never reads outside it, and ends on any bytes |
| `Xattr.ListAttributes` | src/fuse_bridge.cc:3027-3035 | the size when asked for it, ERANGE when the list does not fit, else the list |
| `Xattr.EncodeFront` | src/fuse_bridge.cc:3027-3030 | the encoding is each name and a NUL, in order |
| `Xattr.NamesOf` | src/xattr_bridge.cc:56-72 | the names of any bytes: up to each NUL, the last perhaps without one, and none after an empty one |
| `Xattr.ValidExactly` | src/xattr_bridge.cc:74-88 | a name is valid exactly if it has 1 to 255 characters and none is NUL |
| `Xattr.EncodeThenParse` | src/xattr_bridge.cc:56-72 | encoding then parsing restores the names exactly when each is non-empty and free of NUL |
| `Xattr.ParseThenEncode` | src/xattr_bridge.cc:56-72 | parsing then encoding restores the bytes exactly when there are none, or they do not start with NUL, end with one, and have no two in a row |
| `Xattr.ValidNamesSurvive` | src/xattr_bridge.cc:74-88 | valid names survive the round trip and bound its size |
| `PathUtils.NormalizeIsRooted` | ts/helpers.ts:62-86 | the normal form is a slash followed by the non-empty components joined by slashes |
| `PathUtils.NormalizedShape` | ts/helpers.ts:62-86 | a normal form starts with a slash, has no two in a row, and ends with one only if it is the root |
| `PathUtils.ComponentsOfBoth` | ts/helpers.ts:62-86 | the components of two pieces with a slash between them are those of both |
| `PathUtils.NormalizeIsIdempotent` | ts/helpers.ts:62-86 | normalising keeps the components, so twice is once |
| `PathUtils.SameNormalForm` | ts/helpers.ts:62-86 | two paths have one normal form exactly when they have the same components |
| `PathUtils.JoinIsRooted` | ts/helpers.ts:91-102 | joining concatenates the component lists |
| `PathUtils.JoinIsAssociative` | ts/helpers.ts:91-102 | so it is associative |
| `PathUtils.DirnameAndBasename` | ts/helpers.ts:107-132 | the directory has all components but the last, which is the base name |
| `PathUtils.JoinDirnameBasename` | ts/helpers.ts:107-132 | joining both gives the normal form, for every string |

## Left out

- DispatcherTheorems.AtMostOneReply: speaks of replies that go through the `replied` flag; handlers that call `fuse_reply_*` directly (bmap, ioctl, poll, xattr sizes, destroy, `DispatchReadBuf`) and the second context of the READDIRPLUS fallback do not.
- DispatcherLosses.AnsweredExactly: once its callback has returned normally, a request is up to the JavaScript code; whether that ever replies is not modelled.
- TSFNDispatcher.Dispatcher.DispatchCustom: and the other whole calls are stated for one thread that nobody disturbs; the interleavings are those of the protocol.
- TSFNDispatcher.Dispatcher.ProcessRequest: how a dispatcher is created is not modelled, only what the lookup comes to; a request answered before it gets an id is not in the protocol.
- TSFNDispatcher.Dispatcher.DecInflight: another thread that takes the count to zero while `Shutdown` holds the mutex waits until it is let go, or for ever; the model states the effect of its call and lets it go on.
- TSFNDispatcher.Dispatcher.Shutdown: joining the workers is a precondition, since nobody else runs; `UNINITIALIZED` is not modelled, and the bounded wait sees the count at once. With others running, the protocol has the wait and both passes.
- Readdir.Pack: `readdir` assumes that each entry's name is a string and `ino` a number, since a wrong type throws in the conversion; the attributes of `readdirplus` entries are reduced to name, inode, kind and offset.
- DispatcherFairness.FifoWithinTheLimit: assumes that timestamps grow with the pushes, which the clock promises only as not falling; `BoundedOvertaking` covers ties.
- WriteQueueManager.Manager.RemoveQueue: `Flush` looks again until its time is over; the model looks once or, when the time is over at once, not at all.
- CopyFileRange.Copier.ChunkedCopyFileRange: source and destination are different files that nobody else changes; offsets and lengths do not overflow; an interrupted read counts as a failed call, as it does in the code.
- `Dispatch`, which differs from `DispatchCustom` by an earlier check for a handler and by installing no `error_callback`, so that no error path and no cancel pass answers its requests.
- `WaitForCompletion`, `WaitForAllCompletion` and the `completed` flag: they only observe.
- Handlers' registration, aborted thread-safe functions, and null callbacks, contexts or requests.
- The wrap-around of 64-bit ids and counters, and data races on statistics that are read without a lock.
- N-API conversion, BigInt wrappers, logging and errno tables: plumbing.
- The code that an error callback passes on, which is always EIO; the model records whether and by whom a request is answered.
- An executor that is not set, for which `ProcessQueue` does nothing.
- The session manager, and the shutdown manager apart from its draining check.
- The clock, sleeping, and conversion between timespecs and JavaScript dates.
- Signed overflow in the timestamp arithmetic, undefined in C++, is modelled as wrapping.
- `priority_ordering_enabled_`, which nothing reads.
