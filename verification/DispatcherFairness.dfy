/** How long a request waits in the dispatcher's queue: the runs of the protocol in which every
    pop takes the root of the heap are lines of `Overtaking`.
  */
module DispatcherFairness {
  import opened PriorityHeap
  import opened DispatcherProtocol
  import opened DispatcherSafety
  import opened DispatcherTheorems
  import Overtaking

  /** Priority and time of each request. */
  type Entries = nat -> Item<nat>

  ghost function LineOf(s: State, x: Entries): Overtaking.Line<nat> {
    map id | id in s.queue :: x(id)
  }

  predicate Pops(a: Action, id: nat) {
    a == Working(WorkStep.Pop, id) || a == Cancelling(CancelPop, id)
  }

  function EventsOf(a: Action, x: Entries): seq<Overtaking.Event<nat>> {
    match a
    case Dispatching(d, id) => if d.Push? then [Overtaking.Arrive(id, x(id))] else []
    case Working(w, id) => if w.Pop? then [Overtaking.Serve(id)] else []
    case Cancelling(c, id) => if c.CancelPop? then [Overtaking.Serve(id)] else []
    case _ => []
  }

  function Events(run: seq<Action>, x: Entries): seq<Overtaking.Event<nat>> {
    if run == [] then [] else EventsOf(run[0], x) + Events(run[1..], x)
  }

  /** Every pop takes an entry that is next, as the root of the heap is; and nothing is cleared. */
  ghost predicate TopFirst(s: State, run: seq<Action>, x: Entries)
    requires Runs(s, run)
    decreases |run|
  {
    run == [] ||
      (&& (forall id :: Pops(run[0], id) ==> Overtaking.IsNext(LineOf(s, x), id))
       && run[0] != ShuttingDown(ClearQueue)
       && TopFirst(Next(s, run[0]), run[1..], x))
  }

  /** The services are the pops of the run, one for one, and the arrivals its pushes. */
  lemma {:induction false} EventsOfParts(run: seq<Action>, a: Action, x: Entries)
    ensures Overtaking.Served(Events(run + [a], x)) == Overtaking.Served(Events(run, x)) + (if TakesFromQueue(a) then 1 else 0)
    ensures forall p :: Overtaking.HigherArrivals(Events(run + [a], x), p)
                     == Overtaking.HigherArrivals(Events(run, x), p) + (if Pushes(a) && x(a.id).priority < p then 1 else 0)
    decreases |run|
  {
    if run == [] {
      assert run + [a] == [a] && [a][1..] == [];
      assert Events([a], x) == EventsOf(a, x) + [];
      assert EventsOf(a, x) + [] == EventsOf(a, x);
    } else {
      var e, rest := EventsOf(run[0], x), Events(run[1..], x);
      assert (run + [a])[0] == run[0] && (run + [a])[1..] == run[1..] + [a];
      EventsOfParts(run[1..], a, x);
      var more := Events(run[1..] + [a], x);
      var dummy: Overtaking.Event<nat> := Overtaking.Serve(0);
      Overtaking.ServedOfParts(e, rest, dummy);
      Overtaking.ServedOfParts(e, more, dummy);
      forall p
        ensures Overtaking.HigherArrivals(Events(run + [a], x), p)
             == Overtaking.HigherArrivals(Events(run, x), p) + (if Pushes(a) && x(a.id).priority < p then 1 else 0)
      {
        Overtaking.HigherArrivalsOfParts(e, rest, dummy, p);
        Overtaking.HigherArrivalsOfParts(e, more, dummy, p);
      }
    }
  }

  lemma PushedIsNew(s: State, a: Action)
    requires Inv(s) && Enabled(s, a) && Pushes(a)
    ensures a.id !in s.queue
  {
    QueueAfter(s, a);
    assert LocalAt(s, a.id);
    assert Shape(CellOf(s, a.id));
  }

  /** One action is at most one event of the line. */
  lemma StepOfTheLine(s: State, a: Action, x: Entries)
    requires Inv(s) && Enabled(s, a) && a != ShuttingDown(ClearQueue)
    requires forall id :: Pops(a, id) ==> Overtaking.IsNext(LineOf(s, x), id)
    ensures var m, n, e := LineOf(s, x), LineOf(Next(s, a), x), EventsOf(a, x);
            if e == [] then n == m else |e| == 1 && Overtaking.Possible(m, e[0]) && n == Overtaking.Step(m, e[0])
  {
    hide Next, Enabled, Inv;
    QueueAfter(s, a);
    if Pushes(a) {
      PushedIsNew(s, a);
    } else if TakesFromQueue(a) {
      assert Pops(a, a.id);
    }
  }

  /** A run of the protocol is a run of the line. */
  lemma {:induction false} RunOfTheLine(s: State, run: seq<Action>, x: Entries)
    requires Inv(s) && Runs(s, run) && TopFirst(s, run, x)
    ensures Overtaking.Runs(LineOf(s, x), Events(run, x))
    ensures Overtaking.After(LineOf(s, x), Events(run, x)) == LineOf(After(s, run), x)
    decreases |run|
  {
    hide Next, Enabled, LineOf;
    if run != [] {
      var e, rest := EventsOf(run[0], x), Events(run[1..], x);
      StepOfTheLine(s, run[0], x);
      StepKeepsInv(s, run[0]);
      RunOfTheLine(Next(s, run[0]), run[1..], x);
      if e == [] {
        assert e + rest == rest;
      } else {
        assert (e + rest)[0] == e[0] && (e + rest)[1..] == rest;
      }
    }
  }

  /** An entry that is not popped waits. */
  lemma {:induction false} NotPoppedWaits(s: State, run: seq<Action>, x: Entries, me: nat)
    requires Inv(s) && Runs(s, run) && TopFirst(s, run, x) && me in s.queue
    requires forall a :: a in run ==> !Pops(a, me)
    ensures Overtaking.Runs(LineOf(s, x), Events(run, x))
    ensures Overtaking.WaitsThrough(LineOf(s, x), Events(run, x), me)
    decreases |run|
  {
    RunOfTheLine(s, run, x);
    assert me in LineOf(s, x);
    hide Next, Enabled;
    if run != [] {
      var e, rest := EventsOf(run[0], x), Events(run[1..], x);
      assert run[0] in run && forall a :: a in run[1..] ==> a in run;
      StepOfTheLine(s, run[0], x);
      StepKeepsInv(s, run[0]);
      QueueAfter(s, run[0]);
      assert me in Next(s, run[0]).queue;
      NotPoppedWaits(Next(s, run[0]), run[1..], x, me);
      if e == [] {
        assert e + rest == rest;
      } else {
        assert (e + rest)[0] == e[0] && (e + rest)[1..] == rest;
      }
    }
  }

  /** The requests pushed in the run come later than `me`. */
  predicate PushesAfter(run: seq<Action>, x: Entries, me: nat) {
    forall a :: a in run && a.Dispatching? && a.dispatch.Push? ==> x(a.id).timestamp > x(me).timestamp
  }

  lemma {:induction false} ArrivalsArePushes(run: seq<Action>, x: Entries, i: nat)
    requires i < |Events(run, x)| && Events(run, x)[i].Arrive?
    ensures exists a :: a in run && a.Dispatching? && a.dispatch.Push? && Events(run, x)[i].x == x(a.id)
    decreases |run|
  {
    var e := EventsOf(run[0], x);
    if i < |e| {
      assert run[0] in run;
    } else {
      ArrivalsArePushes(run[1..], x, i - |e|);
      assert Events(run, x)[i] == Events(run[1..], x)[i - |e|];
      var a :| a in run[1..] && a.Dispatching? && a.dispatch.Push? && Events(run, x)[i].x == x(a.id);
      assert a in run;
    }
  }

  lemma EventsArriveAfter(run: seq<Action>, x: Entries, me: nat)
    requires PushesAfter(run, x, me)
    ensures Overtaking.ArrivesAfter(Events(run, x), x(me))
  {
    forall i | 0 <= i < |Events(run, x)| && Events(run, x)[i].Arrive?
      ensures Events(run, x)[i].x.timestamp > x(me).timestamp
    {
      ArrivalsArePushes(run, x, i);
    }
  }

  /** While a request stays in the queue, at most as many are popped as were ahead of it, plus
      the later pushes of strictly higher priority. */
  lemma PopsWhileWaiting(s: State, run: seq<Action>, x: Entries, me: nat)
    requires Reachable(s) && Runs(s, run) && TopFirst(s, run, x) && PushesAfter(run, x, me)
    requires me in s.queue && forall a :: a in run ==> !Pops(a, me)
    ensures Overtaking.Served(Events(run, x))
         <= |Overtaking.Ahead(LineOf(s, x), me, x(me))| + Overtaking.HigherArrivals(Events(run, x), x(me).priority)
  {
    ReachableInv(s);
    NotPoppedWaits(s, run, x, me);
    Overtaking.BoundedOvertaking(LineOf(s, x), Events(run, x), me);
    EventsArriveAfter(run, x, me);
    Overtaking.OnlyHigherPriorityOvertakes(Events(run, x), x(me));
  }

  /** With one priority, as FUSE requests have, and an unchanged nonzero limit, at most limit
      minus one requests are popped while another stays in the queue, whatever the threads do. */
  lemma FifoWithinTheLimit(limit: nat, before: seq<Action>, run: seq<Action>, x: Entries, me: nat)
    requires limit > 0 && Runs(Init(limit), before)
    requires forall a :: a in before ==> !(a.Configuring? && a.config.SetMaxQueueSize?)
    requires Runs(After(Init(limit), before), run) && TopFirst(After(Init(limit), before), run, x)
    requires me in After(Init(limit), before).queue && forall a :: a in run ==> !Pops(a, me)
    requires PushesAfter(run, x, me) && forall id :: x(id).priority == x(me).priority
    ensures Overtaking.Served(Events(run, x)) <= limit - 1
  {
    var s := After(Init(limit), before);
    InitHolds(limit);
    RunKeepsInv(Init(limit), before);
    QueueStaysBounded(Init(limit), before);
    NotPoppedWaits(s, run, x, me);
    EventsArriveAfter(run, x, me);
    forall i | 0 <= i < |Events(run, x)| && Events(run, x)[i].Arrive?
      ensures Events(run, x)[i].x.priority == x(me).priority
    {
      ArrivalsArePushes(run, x, i);
    }
    assert LineOf(s, x).Keys == s.queue;
    assert |LineOf(s, x)| == |LineOf(s, x).Keys|;
    Overtaking.OnePriorityIsFifo(LineOf(s, x), Events(run, x), me, limit);
  }

  // ---------- First in, first out ----------

  /** Each push comes later than those before it. */
  predicate Growing(run: seq<Action>, x: Entries) {
    forall i, j :: 0 <= i < j < |run| && Pushes(run[i]) && Pushes(run[j]) ==> x(run[i].id).timestamp < x(run[j].id).timestamp
  }

  lemma NothingRanksBefore(s: State, a: Action, x: Entries, me: nat)
    requires Enabled(s, a) && TakesFromQueue(a) && me in s.queue
    requires forall id :: Pops(a, id) ==> Overtaking.IsNext(LineOf(s, x), id)
    ensures !ComparePriority(Full(x(a.id)), Full(x(me)))
  {
    assert Pops(a, a.id);
    assert LineOf(s, x)[me] == x(me);
  }

  /** A queued entry that ranks before another is popped before it. */
  lemma {:induction false} PoppedFirst(s: State, run: seq<Action>, x: Entries, me: nat, k: nat)
    requires Runs(s, run) && TopFirst(s, run, x) && me in s.queue
    requires k < |run| && TakesFromQueue(run[k]) && ComparePriority(Full(x(run[k].id)), Full(x(me)))
    ensures exists j :: 0 <= j < k && Pops(run[j], me)
    decreases |run|
  {
    hide Next, Enabled;
    QueueAfter(s, run[0]);
    if TakesFromQueue(run[0]) {
      NothingRanksBefore(s, run[0], x, me);
    }
    if !Pops(run[0], me) {
      PoppedFirst(Next(s, run[0]), run[1..], x, me, k - 1);
      var j :| 0 <= j < k - 1 && Pops(run[1..][j], me);
      assert Pops(run[j + 1], me);
    }
  }

  lemma {:induction false} RunsFrom(s: State, run: seq<Action>, x: Entries, i: nat)
    requires Runs(s, run) && TopFirst(s, run, x) && i <= |run|
    ensures Runs(s, run[..i]) && Runs(After(s, run[..i]), run[i..]) && TopFirst(After(s, run[..i]), run[i..], x)
    decreases |run|
  {
    hide Next, Enabled, Pops, LineOf;
    if i == 0 {
      assert run[..0] == [] && run[0..] == run;
    } else {
      var next := Next(s, run[0]);
      NextOfTheRun(s, run, x);
      RunsFrom(next, run[1..], x, i - 1);
      assert run[..i][0] == run[0] && run[..i][1..] == run[1..][..i - 1] && run[1..][i - 1..] == run[i..];
      hide TopFirst;
      assert Runs(s, run[..i]) && After(s, run[..i]) == After(next, run[1..][..i - 1]);
    }
  }

  lemma NextOfTheRun(s: State, run: seq<Action>, x: Entries)
    requires Runs(s, run) && TopFirst(s, run, x) && run != []
    ensures Enabled(s, run[0]) && Runs(Next(s, run[0]), run[1..]) && TopFirst(Next(s, run[0]), run[1..], x)
  {
    hide Next, Enabled, Pops, LineOf;
  }

  /** An entry that ranks before another, from its push on. */
  lemma PushedThenPoppedFirst(s: State, run: seq<Action>, x: Entries, k: nat)
    requires Runs(s, run) && TopFirst(s, run, x) && 0 < k < |run| && Pushes(run[0])
    requires TakesFromQueue(run[k]) && ComparePriority(Full(x(run[k].id)), Full(x(run[0].id)))
    ensures exists j :: 0 < j < k && Pops(run[j], run[0].id)
  {
    hide Next, Enabled, LineOf;
    QueueAfter(s, run[0]);
    PoppedFirst(Next(s, run[0]), run[1..], x, run[0].id, k - 1);
    var j :| 0 <= j < k - 1 && Pops(run[1..][j], run[0].id);
    assert Pops(run[1 + j], run[0].id);
  }

  /** With one priority and times that grow with the pushes, entries are popped in the order in
      which they were pushed: nobody pops the later of two while the earlier is still queued. */
  lemma FirstInFirstOut(s: State, run: seq<Action>, x: Entries, p: nat, q: nat, k: nat)
    requires Runs(s, run) && TopFirst(s, run, x) && Growing(run, x)
    requires p < q < k < |run| && Pushes(run[p]) && Pushes(run[q]) && Pops(run[k], run[q].id)
    requires x(run[p].id).priority == x(run[q].id).priority
    ensures exists j :: p < j < k && Pops(run[j], run[p].id)
  {
    hide Next, Enabled, TopFirst, LineOf, Runs, After;
    RunsFrom(s, run, x, p);
    var tail := run[p..];
    assert tail[0] == run[p] && tail[k - p] == run[k];
    PushedThenPoppedFirst(After(s, run[..p]), tail, x, k - p);
    var j :| 0 < j < k - p && Pops(tail[j], tail[0].id);
    assert Pops(run[p + j], run[p].id);
  }
}
