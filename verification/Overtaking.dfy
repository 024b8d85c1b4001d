/** How often a queued entry can be overtaken, in either queue. A queue is seen as the map of
    its waiting entries; a server takes any entry that no other ranks before, which is what
    the root of the heap is.
  */
module Overtaking {
  import opened Basics
  import opened PriorityHeap

  type Line<T> = map<nat, Item<T>>

  /** No waiting entry ranks before `id`. */
  ghost predicate IsNext<T>(m: Line<T>, id: nat) {
    id in m && forall j :: j in m ==> !ComparePriority(Full(m[id]), Full(m[j]))
  }

  datatype Event<T> = Arrive(id: nat, x: Item<T>) | Serve(id: nat)

  ghost predicate Possible<T>(m: Line<T>, e: Event<T>) {
    match e
    case Arrive(id, x) => id !in m
    case Serve(id) => IsNext(m, id)
  }

  ghost function Step<T>(m: Line<T>, e: Event<T>): Line<T> {
    match e
    case Arrive(id, x) => m[id := x]
    case Serve(id) => m - {id}
  }

  ghost predicate Runs<T>(m: Line<T>, run: seq<Event<T>>)
    decreases |run|
  {
    run == [] || (Possible(m, run[0]) && Runs(Step(m, run[0]), run[1..]))
  }

  ghost function After<T>(m: Line<T>, run: seq<Event<T>>): Line<T>
    requires Runs(m, run)
    decreases |run|
  {
    if run == [] then m else After(Step(m, run[0]), run[1..])
  }

  /** The entry waits from the first event of the run to the last. */
  ghost predicate WaitsThrough<T>(m: Line<T>, run: seq<Event<T>>, me: nat)
    requires Runs(m, run)
    decreases |run|
  {
    me in m && (run == [] || WaitsThrough(Step(m, run[0]), run[1..], me))
  }

  /** The other entries that do not rank after `x`: those that may be served first. */
  ghost function Ahead<T>(m: Line<T>, me: nat, x: Item<T>): set<nat> {
    set id | id in m && id != me && !ComparePriority(Full(m[id]), Full(x))
  }

  function Served<T>(run: seq<Event<T>>): nat {
    if run == [] then 0 else (if run[0].Serve? then 1 else 0) + Served(run[1..])
  }

  /** One for each that is served; nothing else satisfies this. */
  lemma {:induction false} ServedOfParts<T>(xs: seq<Event<T>>, ys: seq<Event<T>>, e: Event<T>)
    ensures Served<T>([]) == 0 && Served([e]) == (if e.Serve? then 1 else 0)
    ensures Served(xs + ys) == Served(xs) + Served(ys)
    decreases |xs|
  {
    assert [e][1..] == [];
    if xs == [] {
      assert xs + ys == ys;
    } else {
      assert (xs + ys)[1..] == xs[1..] + ys;
      ServedOfParts(xs[1..], ys, e);
    }
  }

  /** The arrivals that do not rank after `x`. */
  function Overtakers<T>(run: seq<Event<T>>, x: Item<T>): nat {
    if run == [] then 0
    else (if run[0].Arrive? && !ComparePriority(Full(run[0].x), Full(x)) then 1 else 0) + Overtakers(run[1..], x)
  }

  lemma ServeShortensTheLine<T>(m: Line<T>, id: nat, me: nat)
    requires IsNext(m, id) && me in m && id != me
    ensures |Ahead(m - {id}, me, m[me])| == |Ahead(m, me, m[me])| - 1
  {
    assert Ahead(m - {id}, me, m[me]) == Ahead(m, me, m[me]) - {id};
    assert id in Ahead(m, me, m[me]);
  }

  lemma ArrivalLengthensTheLine<T>(m: Line<T>, id: nat, x: Item<T>, me: nat)
    requires id !in m && me in m
    ensures |Ahead(m[id := x], me, m[me])|
         == |Ahead(m, me, m[me])| + if ComparePriority(Full(x), Full(m[me])) then 0 else 1
  {
    var a, b := Ahead(m, me, m[me]), Ahead(m[id := x], me, m[me]);
    assert b == if ComparePriority(Full(x), Full(m[me])) then a else a + {id};
  }

  /** While an entry waits, at most as many are served as were ahead of it when the run began,
      plus the later arrivals that do not rank after it. */
  lemma {:induction false} BoundedOvertaking<T>(m: Line<T>, run: seq<Event<T>>, me: nat)
    requires Runs(m, run) && WaitsThrough(m, run, me)
    ensures Served(run) <= |Ahead(m, me, m[me])| + Overtakers(run, m[me])
    decreases |run|
  {
    if run != [] {
      match run[0] {
        case Serve(id) =>
          assert me in Step(m, run[0]);
          ServeShortensTheLine(m, id, me);
        case Arrive(id, x) =>
          ArrivalLengthensTheLine(m, id, x, me);
      }
      BoundedOvertaking(Step(m, run[0]), run[1..], me);
    }
  }

  /** Arrivals come later than `x`. */
  predicate ArrivesAfter<T>(run: seq<Event<T>>, x: Item<T>) {
    forall i :: 0 <= i < |run| && run[i].Arrive? ==> run[i].x.timestamp > x.timestamp
  }

  function HigherArrivals<T>(run: seq<Event<T>>, priority: int): nat {
    if run == [] then 0
    else (if run[0].Arrive? && run[0].x.priority < priority then 1 else 0) + HigherArrivals(run[1..], priority)
  }

  /** Then only arrivals of strictly higher priority overtake. */
  lemma {:induction false} OnlyHigherPriorityOvertakes<T>(run: seq<Event<T>>, x: Item<T>)
    requires ArrivesAfter(run, x)
    ensures Overtakers(run, x) == HigherArrivals(run, x.priority)
    decreases |run|
  {
    if run != [] {
      OnlyHigherPriorityOvertakes(run[1..], x);
    }
  }

  /** One for each arrival of higher priority. */
  lemma {:induction false} HigherArrivalsOfParts<T>(xs: seq<Event<T>>, ys: seq<Event<T>>, e: Event<T>, priority: int)
    ensures HigherArrivals<T>([], priority) == 0
    ensures HigherArrivals([e], priority) == if e.Arrive? && e.x.priority < priority then 1 else 0
    ensures HigherArrivals(xs + ys, priority) == HigherArrivals(xs, priority) + HigherArrivals(ys, priority)
    decreases |xs|
  {
    assert [e][1..] == [];
    if xs == [] {
      assert xs + ys == ys;
    } else {
      assert (xs + ys)[1..] == xs[1..] + ys;
      HigherArrivalsOfParts(xs[1..], ys, e, priority);
    }
  }

  lemma {:induction false} NoHigherArrivals<T>(run: seq<Event<T>>, priority: int)
    requires forall i :: 0 <= i < |run| && run[i].Arrive? ==> run[i].x.priority == priority
    ensures HigherArrivals(run, priority) == 0
    decreases |run|
  {
    if run != [] {
      NoHigherArrivals(run[1..], priority);
    }
  }

  /** With one priority, as all FUSE requests have, and times that grow with the pushes, an
      entry is served after at most those that were waiting when it arrived; so after at most
      `limit - 1` in a queue of at most `limit` entries. */
  lemma OnePriorityIsFifo<T>(m: Line<T>, run: seq<Event<T>>, me: nat, limit: nat)
    requires Runs(m, run) && WaitsThrough(m, run, me) && ArrivesAfter(run, m[me])
    requires forall i :: 0 <= i < |run| && run[i].Arrive? ==> run[i].x.priority == m[me].priority
    requires |m| <= limit
    ensures Served(run) <= |m| - 1 <= limit - 1
  {
    BoundedOvertaking(m, run, me);
    OnlyHigherPriorityOvertakes(run, m[me]);
    NoHigherArrivals(run, m[me].priority);
    var others := m.Keys - {me};
    assert |others| == |m.Keys| - 1;
    assert Ahead(m, me, m[me]) <= others;
    SubsetSize(Ahead(m, me, m[me]), others);
  }
}
