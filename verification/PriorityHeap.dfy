/** The binary heap behind both queues. `std::priority_queue` keeps a vector and calls
    `push_heap` and `pop_heap`; the loops below are those of libstdc++. A slot is null
    once its pointer has been moved out, which is what the write queue does to the root
    before it calls `pop`.
  */
module PriorityHeap {

  datatype Item<T> = Item(priority: int, timestamp: int, value: T)

  datatype Slot<T> = Null | Full(item: Item<T>)

  /** `a` ranks after `b`: a larger priority number, or the same number and a later time. */
  predicate ComparePriority<T>(a: Slot<T>, b: Slot<T>) {
    if a.Null? || b.Null? then false
    else if a.item.priority != b.item.priority then a.item.priority > b.item.priority
    else a.item.timestamp > b.item.timestamp
  }

  /** Neither entry ranks after the other. */
  predicate Tied<T>(a: Slot<T>, b: Slot<T>) {
    !ComparePriority(a, b) && !ComparePriority(b, a)
  }

  lemma StrictWeakOrder<T>(a: Slot<T>, b: Slot<T>, d: Slot<T>)
    requires a.Full? && b.Full? && d.Full?
    ensures !ComparePriority(a, a)
    ensures ComparePriority(a, b) ==> !ComparePriority(b, a)
    ensures ComparePriority(a, b) && ComparePriority(b, d) ==> ComparePriority(a, d)
    ensures Tied(a, b) && Tied(b, d) ==> Tied(a, d)
    ensures Tied(a, b) <==> a.item.priority == b.item.priority && a.item.timestamp == b.item.timestamp
  {
  }

  /** With a null entry the comparator is not a weak order: null ties with everything. */
  lemma NullBreaksTheOrder()
    ensures exists a: Slot<int>, b: Slot<int> ::
              Tied(a, Null) && Tied(Null, b) && ComparePriority(a, b)
  {
    var a, b := Full(Item(1, 0, 0)), Full(Item(0, 0, 0));
    assert Tied(a, Null) && Tied(Null, b) && ComparePriority(a, b);
  }

  // ---------- Shape ----------

  function Parent(i: int): int
    requires 0 < i
  {
    (i - 1) / 2
  }

  ghost predicate AllFull<T>(c: seq<Slot<T>>) {
    forall i :: 0 <= i < |c| ==> c[i].Full?
  }

  ghost predicate InOrder<T>(c: seq<Slot<T>>, i: int)
    requires 0 < i < |c|
  {
    !ComparePriority(c[Parent(i)], c[i])
  }

  ghost predicate Ordered<T>(c: seq<Slot<T>>) {
    forall i :: 0 < i < |c| ==> InOrder(c, i)
  }

  ghost predicate IsHeap<T>(c: seq<Slot<T>>) {
    AllFull(c) && Ordered(c)
  }

  /** A heap whose root may have been moved out. */
  ghost predicate IsHeapBelowRoot<T>(c: seq<Slot<T>>) {
    c != [] && (forall i :: 1 <= i < |c| ==> c[i].Full?) && Ordered(c)
  }

  ghost predicate HoleAt<T>(c: seq<Slot<T>>, h: int) {
    0 <= h < |c| && c[h].Null? && forall i :: 0 <= i < |c| && i != h ==> c[i].Full?
  }

  /** Neither child of `h` ranks before `v`. */
  ghost predicate AboveChildren<T>(c: seq<Slot<T>>, h: int, v: Slot<T>)
    requires 0 <= h < |c|
  {
    && (2 * h + 1 < |c| ==> !ComparePriority(v, c[2 * h + 1]))
    && (2 * h + 2 < |c| ==> !ComparePriority(v, c[2 * h + 2]))
  }

  /** A hole at `h` with every pair of entries around it in order, also across it. */
  ghost predicate HoledHeap<T>(c: seq<Slot<T>>, h: int) {
    HoleAt(c, h) && Ordered(c) && (h > 0 ==> AboveChildren(c, h, c[Parent(h)]))
  }

  // ---------- What the loops compute ----------

  /** The entry at `k` moves into the hole at `h`, leaving a hole behind. */
  function Moved<T>(c: seq<Slot<T>>, h: nat, k: nat): (r: seq<Slot<T>>)
    requires h < |c| && k < |c|
    ensures |r| == |c|
  {
    c[h := c[k]][k := Null]
  }

  /** The child of `h` that ranks first; the right one when they tie. */
  function FirstChild<T>(c: seq<Slot<T>>, h: nat): (k: nat)
    requires 2 * h + 2 < |c|
    ensures 0 < k < |c| && Parent(k) == h
  {
    if ComparePriority(c[2 * h + 2], c[2 * h + 1]) then 2 * h + 1 else 2 * h + 2
  }

  /** Where the hole ends when it sinks to a leaf, and the vector then. */
  function SinkHole<T>(c: seq<Slot<T>>, h: nat): (r: (seq<Slot<T>>, nat))
    requires h < |c|
    ensures |r.0| == |c| && h <= r.1 < |c| && 2 * r.1 + 1 >= |c|
    decreases |c| - h
  {
    if h < (|c| - 1) / 2 then
      SinkHole(Moved(c, h, FirstChild(c, h)), FirstChild(c, h))
    else if |c| % 2 == 0 && h == (|c| - 2) / 2 then
      (Moved(c, h, 2 * h + 1), 2 * h + 1)
    else
      (c, h)
  }

  function SiftUp<T>(c: seq<Slot<T>>, h: nat, v: Slot<T>): (r: seq<Slot<T>>)
    requires h < |c|
    ensures |r| == |c|
    decreases h
  {
    if h > 0 && ComparePriority(c[Parent(h)], v) then
      SiftUp(Moved(c, h, Parent(h)), Parent(h), v)
    else
      c[h := v]
  }

  function Pushed<T>(c: seq<Slot<T>>, x: Item<T>): (r: seq<Slot<T>>)
    ensures |r| == |c| + 1
  {
    SiftUp(c + [Null], |c|, Full(x))
  }

  function Popped<T>(c: seq<Slot<T>>): (r: seq<Slot<T>>)
    requires c != []
    ensures |r| == |c| - 1
  {
    if |c| == 1 then []
    else
      var (e, h) := SinkHole(c[..|c| - 1][0 := Null], 0);
      SiftUp(e, h, c[|c| - 1])
  }

  // ---------- Why that is a heap ----------

  /** Moving an entry along an edge into the hole changes no entry, only its place. */
  lemma MoveKeepsEntries<T>(c: seq<Slot<T>>, h: nat, k: nat)
    requires HoleAt(c, h) && k < |c| && k != h
    ensures var d := Moved(c, h, k);
            HoleAt(d, k) && multiset(d) == multiset(c)
  {
  }

  lemma SinkStep<T>(c: seq<Slot<T>>, h: nat, k: nat)
    requires HoledHeap(c, h) && h < k < |c| && Parent(k) == h
    requires forall s :: h < s < |c| && s != k && Parent(s) == h ==> !ComparePriority(c[k], c[s])
    ensures HoledHeap(Moved(c, h, k), k)
  {
    var d := Moved(c, h, k);
    forall i | 0 < i < |d|
      ensures InOrder(d, i)
    {
      assert InOrder(c, i);
    }
    forall i | 0 < i < |d| && Parent(i) == k
      ensures !ComparePriority(d[h], d[i])
    {
      assert InOrder(c, i);
    }
  }

  lemma {:induction false} SinkHoleKeepsOrder<T>(c: seq<Slot<T>>, h: nat)
    requires HoledHeap(c, h)
    ensures HoledHeap(SinkHole(c, h).0, SinkHole(c, h).1)
    decreases |c| - h
  {
    if h < (|c| - 1) / 2 {
      SinkStep(c, h, FirstChild(c, h));
      SinkHoleKeepsOrder(Moved(c, h, FirstChild(c, h)), FirstChild(c, h));
    } else if |c| % 2 == 0 && h == (|c| - 2) / 2 {
      SinkStep(c, h, 2 * h + 1);
    }
  }

  lemma {:induction false} SinkHoleKeepsEntries<T>(c: seq<Slot<T>>, h: nat)
    requires HoleAt(c, h)
    ensures multiset(SinkHole(c, h).0) == multiset(c)
    decreases |c| - h
  {
    if h < (|c| - 1) / 2 {
      MoveKeepsEntries(c, h, FirstChild(c, h));
      SinkHoleKeepsEntries(Moved(c, h, FirstChild(c, h)), FirstChild(c, h));
    } else if |c| % 2 == 0 && h == (|c| - 2) / 2 {
      MoveKeepsEntries(c, h, 2 * h + 1);
    }
  }

  lemma SiftStep<T>(c: seq<Slot<T>>, h: nat, v: Slot<T>)
    requires HoledHeap(c, h) && AboveChildren(c, h, v) && v.Full?
    requires h > 0 && ComparePriority(c[Parent(h)], v)
    ensures var p := Parent(h);
            var d := Moved(c, h, p);
            HoledHeap(d, p) && AboveChildren(d, p, v)
  {
    var p := Parent(h);
    var d := Moved(c, h, p);
    forall i | 0 < i < |d|
      ensures InOrder(d, i)
    {
      assert InOrder(c, i);
    }
    if p > 0 {
      assert InOrder(c, p);
    }
    forall i | 0 < i < |d| && Parent(i) == p
      ensures !ComparePriority(v, d[i])
      ensures p > 0 ==> !ComparePriority(d[Parent(p)], d[i])
    {
      assert InOrder(c, i);
    }
  }

  lemma {:induction false} SiftUpMakesHeap<T>(c: seq<Slot<T>>, h: nat, v: Slot<T>)
    requires HoledHeap(c, h) && AboveChildren(c, h, v) && v.Full?
    ensures IsHeap(SiftUp(c, h, v))
    ensures multiset(SiftUp(c, h, v)) == multiset(c) - multiset{Null} + multiset{v}
    decreases h
  {
    if h > 0 && ComparePriority(c[Parent(h)], v) {
      SiftStep(c, h, v);
      MoveKeepsEntries(c, h, Parent(h));
      SiftUpMakesHeap(Moved(c, h, Parent(h)), Parent(h), v);
    } else {
      var d := c[h := v];
      forall i | 0 < i < |d|
        ensures InOrder(d, i)
      {
        assert InOrder(c, i);
      }
    }
  }

  lemma PushedIsHeap<T>(c: seq<Slot<T>>, x: Item<T>)
    requires IsHeap(c)
    ensures IsHeap(Pushed(c, x))
    ensures multiset(Pushed(c, x)) == multiset(c) + multiset{Full(x)}
  {
    var d := c + [Null];
    forall i | 0 < i < |d|
      ensures InOrder(d, i)
    {
      assert i < |c| ==> InOrder(c, i);
    }
    SiftUpMakesHeap(d, |c|, Full(x));
  }

  lemma RootHole<T>(c: seq<Slot<T>>)
    requires IsHeapBelowRoot(c) && |c| > 1
    ensures var d := c[..|c| - 1][0 := Null];
            && HoledHeap(d, 0)
            && multiset(c) == multiset(d) - multiset{Null} + multiset{c[0], c[|c| - 1]}
  {
    var last := |c| - 1;
    var d := c[..last][0 := Null];
    assert c == c[..last] + [c[last]];
    forall i | 0 < i < |d|
      ensures InOrder(d, i)
    {
      assert InOrder(c, i);
    }
  }

  /** Popping restores the heap and removes exactly the root. */
  lemma PoppedIsHeap<T>(c: seq<Slot<T>>)
    requires IsHeapBelowRoot(c)
    ensures IsHeap(Popped(c))
    ensures multiset(Popped(c)) == multiset(c) - multiset{c[0]}
  {
    if |c| == 1 {
      assert c == [c[0]];
    } else {
      hide IsHeapBelowRoot, HoledHeap, IsHeap, SinkHole, SiftUp;
      var d, v := c[..|c| - 1][0 := Null], c[|c| - 1];
      RootHole(c);
      LastIsFull(c);
      PoppedFromHole(d, v);
      OneOut(multiset(c), multiset(d), Null, c[0], v);
    }
  }

  lemma LastIsFull<T>(c: seq<Slot<T>>)
    requires IsHeapBelowRoot(c) && |c| > 1
    ensures c[|c| - 1].Full?
  {
  }

  lemma OneOut<S>(c: multiset<S>, d: multiset<S>, hole: S, root: S, v: S)
    requires c == d - multiset{hole} + multiset{root, v}
    ensures d - multiset{hole} + multiset{v} == c - multiset{root}
  {
  }

  lemma PoppedFromHole<T>(d: seq<Slot<T>>, v: Slot<T>)
    requires HoledHeap(d, 0) && v.Full?
    ensures var (e, h) := SinkHole(d, 0);
            IsHeap(SiftUp(e, h, v)) && multiset(SiftUp(e, h, v)) == multiset(d) - multiset{Null} + multiset{v}
  {
    SinkHoleKeepsOrder(d, 0);
    SinkHoleKeepsEntries(d, 0);
    SiftUpMakesHeap(SinkHole(d, 0).0, SinkHole(d, 0).1, v);
  }

  /** A root that was moved out before the pop makes no difference to it. */
  lemma PopIgnoresRoot<T>(c: seq<Slot<T>>)
    requires c != []
    ensures Popped(c[0 := Null]) == Popped(c)
  {
    if |c| > 1 {
      assert c[0 := Null][..|c| - 1][0 := Null] == c[..|c| - 1][0 := Null];
    }
  }

  /** No entry of a heap ranks before the root. */
  lemma {:induction false} RootIsFirst<T>(c: seq<Slot<T>>, i: nat)
    requires IsHeap(c) && i < |c|
    ensures !ComparePriority(c[0], c[i])
  {
    if i > 0 {
      RootIsFirst(c, Parent(i));
      assert InOrder(c, i);
    }
  }

  // ---------- Draining ----------

  /** The entries in the order in which repeated pops hand them out. */
  function Drained<T>(c: seq<Slot<T>>): (r: seq<Item<T>>)
    requires AllFull(c) && Ordered(c)
    decreases |c|
  {
    if c == [] then []
    else
      PoppedIsHeap(c);
      [c[0].item] + Drained(Popped(c))
  }

  ghost predicate Sorted<T>(r: seq<Item<T>>) {
    forall i, j :: 0 <= i < j < |r| ==> !ComparePriority(Full(r[i]), Full(r[j]))
  }

  /** No two entries tie, and each ranks after the one before it. */
  ghost predicate StrictlySorted<T>(r: seq<Item<T>>) {
    forall i, j :: 0 <= i < j < |r| ==> ComparePriority(Full(r[j]), Full(r[i]))
  }

  ghost function Slots<T>(r: seq<Item<T>>): (c: seq<Slot<T>>)
    ensures |c| == |r| && forall i :: 0 <= i < |r| ==> c[i] == Full(r[i])
  {
    seq(|r|, i requires 0 <= i < |r| => Full(r[i]))
  }

  lemma {:induction false} DrainedIsPermutation<T>(c: seq<Slot<T>>)
    requires IsHeap(c)
    ensures multiset(Slots(Drained(c))) == multiset(c)
    decreases |c|
  {
    if c != [] {
      PoppedIsHeap(c);
      DrainedIsPermutation(Popped(c));
      SlotsSplit(Drained(c));
    }
  }

  lemma RootBeforeRest<T>(c: seq<Slot<T>>, x: Slot<T>)
    requires IsHeap(c) && x in multiset(c)
    ensures !ComparePriority(c[0], x)
  {
    assert x in c;
    var k :| 0 <= k < |c| && c[k] == x;
    RootIsFirst(c, k);
  }

  lemma {:induction false} DrainedIsSorted<T>(c: seq<Slot<T>>)
    requires IsHeap(c)
    ensures Sorted(Drained(c))
    decreases |c|
  {
    if c != [] {
      PoppedIsHeap(c);
      var tail := Drained(Popped(c));
      DrainedIsSorted(Popped(c));
      DrainedIsPermutation(Popped(c));
      forall j | 0 <= j < |tail|
        ensures !ComparePriority(c[0], Full(tail[j]))
      {
        assert Slots(tail)[j] in multiset(Slots(tail));
        RootBeforeRest(c, Slots(tail)[j]);
      }
    }
  }

  /** Draining a heap hands out each entry once, sorted by priority and then time. */
  lemma DrainedIsSortedPermutation<T>(c: seq<Slot<T>>)
    requires IsHeap(c)
    ensures multiset(Slots(Drained(c))) == multiset(c) && |Drained(c)| == |c|
    ensures Sorted(Drained(c))
  {
    DrainedIsPermutation(c);
    DrainedIsSorted(c);
    assert |multiset(Slots(Drained(c)))| == |multiset(c)|;
  }

  lemma SlotsSplit<T>(r: seq<Item<T>>)
    requires r != []
    ensures multiset(Slots(r)) == multiset{Full(r[0])} + multiset(Slots(r[1..]))
  {
    assert Slots(r) == [Full(r[0])] + Slots(r[1..]);
  }

  lemma SlotsMember<T>(r: seq<Item<T>>, x: Slot<T>) returns (i: nat)
    requires x in multiset(Slots(r))
    ensures i < |r| && x == Full(r[i])
  {
    assert x in Slots(r);
    i :| i < |r| && Slots(r)[i] == x;
  }

  lemma TailSorted<T>(r: seq<Item<T>>, q: seq<Item<T>>)
    requires StrictlySorted(r) && Sorted(q) && r != [] && q != []
    ensures StrictlySorted(r[1..]) && Sorted(q[1..])
  {
  }

  lemma SameFirst<T>(r: seq<Item<T>>, q: seq<Item<T>>)
    requires StrictlySorted(r) && Sorted(q) && multiset(Slots(r)) == multiset(Slots(q))
    requires r != [] && q != []
    ensures r[0] == q[0]
  {
    assert Slots(q)[0] in multiset(Slots(q)) && Slots(r)[0] in multiset(Slots(r));
    var i := SlotsMember(r, Full(q[0]));
    var j := SlotsMember(q, Full(r[0]));
    assert i > 0 ==> ComparePriority(Full(r[i]), Full(r[0]));
    assert j > 0 ==> !ComparePriority(Full(q[0]), Full(q[j]));
  }

  /** With no ties there is only one sorted order. */
  lemma {:induction false} SortedOrderIsUnique<T>(r: seq<Item<T>>, q: seq<Item<T>>)
    requires StrictlySorted(r) && Sorted(q) && multiset(Slots(r)) == multiset(Slots(q))
    ensures r == q
  {
    assert |multiset(Slots(q))| == |multiset(Slots(r))|;
    if r != [] {
      SameFirst(r, q);
      SlotsSplit(r);
      SlotsSplit(q);
      TailSorted(r, q);
      SameTails(multiset(Slots(r[1..])), multiset(Slots(q[1..])), Full(r[0]));
      SortedOrderIsUnique(r[1..], q[1..]);
      assert r == [r[0]] + r[1..] && q == [q[0]] + q[1..];
    }
  }

  lemma SameTails<T>(a: multiset<T>, b: multiset<T>, x: T)
    requires multiset{x} + a == multiset{x} + b
    ensures a == b
  {
    assert a == (multiset{x} + a) - multiset{x};
    assert b == (multiset{x} + b) - multiset{x};
  }

  ghost function PushedAll<T>(c: seq<Slot<T>>, xs: seq<Item<T>>): seq<Slot<T>>
    decreases |xs|
  {
    if xs == [] then c else PushedAll(Pushed(c, xs[0]), xs[1..])
  }

  lemma {:induction false} PushedAllIsHeap<T>(c: seq<Slot<T>>, xs: seq<Item<T>>)
    requires IsHeap(c)
    ensures IsHeap(PushedAll(c, xs))
    ensures multiset(PushedAll(c, xs)) == multiset(c) + multiset(Slots(xs))
    decreases |xs|
  {
    if xs != [] {
      PushedIsHeap(c, xs[0]);
      PushedAllIsHeap(Pushed(c, xs[0]), xs[1..]);
      assert Slots(xs) == [Full(xs[0])] + Slots(xs[1..]);
    }
  }

  /** Entries pushed in rank order (one priority, later times) come out in push order. */
  lemma DrainIsFifo<T>(xs: seq<Item<T>>)
    requires StrictlySorted(xs)
    ensures IsHeap(PushedAll<T>([], xs)) && Drained(PushedAll([], xs)) == xs
  {
    PushedAllIsHeap<T>([], xs);
    DrainedIsSortedPermutation(PushedAll([], xs));
    SortedOrderIsUnique(xs, Drained(PushedAll([], xs)));
  }

  // ---------- The loops ----------

  /** `std::__push_heap`. */
  method PushHole<T>(c: seq<Slot<T>>, hole: nat, v: Slot<T>) returns (r: seq<Slot<T>>)
    requires hole < |c|
    ensures r == SiftUp(c, hole, v)
  {
    r := c;
    var h := hole;
    while h > 0 && ComparePriority(r[(h - 1) / 2], v)
      invariant 0 <= h < |r| == |c|
      invariant SiftUp(r, h, v) == SiftUp(c, hole, v)
    {
      var parent := (h - 1) / 2;
      r := Moved(r, h, parent);
      h := parent;
    }
    r := r[h := v];
  }

  /** `std::priority_queue::push`. */
  method Push<T>(c: seq<Slot<T>>, x: Item<T>) returns (r: seq<Slot<T>>)
    requires IsHeap(c)
    ensures r == Pushed(c, x) && IsHeap(r)
    ensures multiset(r) == multiset(c) + multiset{Full(x)}
  {
    r := PushHole(c + [Null], |c|, Full(x));
    PushedIsHeap(c, x);
  }

  /** `std::__adjust_heap`: the hole at the root sinks to a leaf, then `v` rises from there. */
  method AdjustHeap<T>(c: seq<Slot<T>>, v: Slot<T>) returns (r: seq<Slot<T>>)
    requires c != []
    ensures r == SiftUp(SinkHole(c, 0).0, SinkHole(c, 0).1, v)
  {
    hide SiftUp, ComparePriority;
    var d := c;
    var h, second := 0, 0;
    while second < (|d| - 1) / 2
      invariant h == second && 0 <= h < |d| && |d| == |c|
      invariant SinkHole(d, h) == SinkHole(c, 0)
      decreases |d| - second
    {
      second := 2 * (second + 1);
      if ComparePriority(d[second], d[second - 1]) {
        second := second - 1;
      }
      assert second == FirstChild(d, h);
      d := Moved(d, h, second);
      h := second;
    }
    if |d| % 2 == 0 && second == (|d| - 2) / 2 {
      second := 2 * (second + 1);
      d := Moved(d, h, second - 1);
      h := second - 1;
    }
    r := PushHole(d, h, v);
  }

  /** `std::priority_queue::pop`, also right after the root was moved out. */
  method Pop<T>(c: seq<Slot<T>>) returns (r: seq<Slot<T>>)
    requires IsHeapBelowRoot(c)
    ensures r == Popped(c) && IsHeap(r)
    ensures multiset(r) == multiset(c) - multiset{c[0]}
  {
    PoppedIsHeap(c);
    var last := |c| - 1;
    if last == 0 {
      return [];
    }
    r := AdjustHeap(c[..last][0 := Null], c[last]);
  }

  /** Read the root by moving it out, then pop: the entry handed out ranks first. */
  method TakeTop<T>(c: seq<Slot<T>>) returns (x: Item<T>, r: seq<Slot<T>>)
    requires IsHeap(c) && c != []
    ensures c[0] == Full(x) && r == Popped(c) && IsHeap(r)
    ensures multiset(c) == multiset(r) + multiset{Full(x)}
    ensures forall i :: 0 <= i < |c| ==> !ComparePriority(Full(x), c[i])
  {
    hide Popped;
    PoppedIsHeap(c);
    forall i | 0 <= i < |c|
      ensures !ComparePriority(c[0], c[i])
    {
      RootIsFirst(c, i);
    }
    x := c[0].item;
    var holed := c[0 := Null];
    forall i | 0 < i < |holed|
      ensures InOrder(holed, i)
    {
      assert InOrder(c, i);
    }
    PopIgnoresRoot(c);
    r := Pop(holed);
  }
}
