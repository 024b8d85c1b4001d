/** The running averages of both queues, over exact reals. */
module RollingAverage {

  /** One timed operation: how long it took and whether it succeeded. */
  datatype Observation = Observation(latency: real, ok: bool)

  /** The update that both `UpdateStats` perform; `completed` already counts the new success. */
  function Updated(average: real, completed: nat, latency: real): real
    requires completed > 0
  {
    (average * (completed as real - 1.0) + latency) / completed as real
  }

  function Completed(obs: seq<Observation>): (n: nat)
    ensures n <= |obs|
  {
    if obs == [] then 0 else Completed(obs[..|obs| - 1]) + if obs[|obs| - 1].ok then 1 else 0
  }

  /** A write queue updates after failures too, once something has completed. */
  function WriteQueueAverage(obs: seq<Observation>): real {
    if obs == [] then 0.0
    else
      var before := WriteQueueAverage(obs[..|obs| - 1]);
      if Completed(obs) > 0 then Updated(before, Completed(obs), obs[|obs| - 1].latency) else before
  }

  /** The dispatcher updates after successes only. */
  function DispatcherAverage(obs: seq<Observation>): real {
    if obs == [] then 0.0
    else
      var before := DispatcherAverage(obs[..|obs| - 1]);
      if obs[|obs| - 1].ok then Updated(before, Completed(obs), obs[|obs| - 1].latency) else before
  }

  /** The sum of the successful latencies. */
  function Total(obs: seq<Observation>): real {
    if obs == [] then 0.0
    else Total(obs[..|obs| - 1]) + if obs[|obs| - 1].ok then obs[|obs| - 1].latency else 0.0
  }

  /** How both add up; nothing else satisfies this. */
  lemma {:induction false} CompletedOfParts(xs: seq<Observation>, ys: seq<Observation>, o: Observation)
    ensures Completed([]) == 0 && Completed([o]) == (if o.ok then 1 else 0)
    ensures Completed(xs + ys) == Completed(xs) + Completed(ys)
  {
    assert [o][..0] == [];
    if ys == [] {
      assert xs + ys == xs;
    } else {
      assert (xs + ys)[..|xs + ys| - 1] == xs + ys[..|ys| - 1];
      CompletedOfParts(xs, ys[..|ys| - 1], o);
    }
  }

  lemma {:induction false} TotalOfParts(xs: seq<Observation>, ys: seq<Observation>, o: Observation)
    ensures Total([]) == 0.0 && Total([o]) == (if o.ok then o.latency else 0.0)
    ensures Total(xs + ys) == Total(xs) + Total(ys)
  {
    assert [o][..0] == [];
    if ys == [] {
      assert xs + ys == xs;
    } else {
      assert (xs + ys)[..|xs + ys| - 1] == xs + ys[..|ys| - 1];
      TotalOfParts(xs, ys[..|ys| - 1], o);
    }
  }

  predicate Within(obs: seq<Observation>, lo: real, hi: real) {
    forall i :: 0 <= i < |obs| ==> lo <= obs[i].latency <= hi
  }

  lemma UpdatedTimesCount(average: real, completed: nat, latency: real)
    requires completed > 0
    ensures Updated(average, completed, latency) * completed as real
         == average * (completed as real - 1.0) + latency
  {
  }

  /** `average` is that of `count` numbers that add up to `sum`. */
  predicate Averages(average: real, count: nat, sum: real) {
    average * count as real == sum
  }

  /** One more of them. */
  lemma UpdateAddsLatency(average: real, count: nat, sum: real, latency: real)
    requires Averages(average, count, sum)
    ensures Averages(Updated(average, count + 1, latency), count + 1, sum + latency)
  {
    UpdatedTimesCount(average, count + 1, latency);
    assert (count + 1) as real - 1.0 == count as real;
  }

  lemma AfterASuccess(obs: seq<Observation>)
    requires obs != [] && obs[|obs| - 1].ok
    ensures var before, latency := obs[..|obs| - 1], obs[|obs| - 1].latency;
            && Completed(obs) == Completed(before) + 1 && Total(obs) == Total(before) + latency
            && DispatcherAverage(obs) == Updated(DispatcherAverage(before), Completed(before) + 1, latency)
  {
    hide Updated;
  }

  lemma AfterAFailure(obs: seq<Observation>)
    requires obs != [] && !obs[|obs| - 1].ok
    ensures var before := obs[..|obs| - 1];
            Completed(obs) == Completed(before) && Total(obs) == Total(before) && DispatcherAverage(obs) == DispatcherAverage(before)
  {
    hide Updated;
  }

  /** The dispatcher's average times its count is the sum of the successful latencies. */
  lemma {:induction false} DispatcherAverageIsMean(obs: seq<Observation>)
    ensures Averages(DispatcherAverage(obs), Completed(obs), Total(obs))
  {
    if obs != [] {
      hide Updated, DispatcherAverage, Completed, Total, Averages;
      var before, last := obs[..|obs| - 1], obs[|obs| - 1];
      DispatcherAverageIsMean(before);
      if last.ok {
        AfterASuccess(obs);
        UpdateAddsLatency(DispatcherAverage(before), Completed(before), Total(before), last.latency);
      } else {
        AfterAFailure(obs);
      }
    }
  }

  /** The average times the count is the sum of the successful latencies. */
  predicate IsMean(obs: seq<Observation>) {
    Averages(WriteQueueAverage(obs), Completed(obs), Total(obs))
  }

  /** A failure is mixed in without being counted. */
  lemma FailureShiftsMean(average: real, count: nat, sum: real, latency: real)
    requires count > 0 && Averages(average, count, sum)
    ensures Averages(Updated(average, count, latency), count, sum) <==> latency == average
  {
    UpdatedTimesCount(average, count, latency);
    Distribute(average, count as real);
  }

  lemma OneMoreWrite(obs: seq<Observation>)
    requires obs != []
    ensures var before, last := obs[..|obs| - 1], obs[|obs| - 1];
            && Completed(obs) == Completed(before) + (if last.ok then 1 else 0)
            && Total(obs) == Total(before) + (if last.ok then last.latency else 0.0)
            && WriteQueueAverage(obs)
            == if Completed(obs) > 0 then Updated(WriteQueueAverage(before), Completed(obs), last.latency)
               else WriteQueueAverage(before)
  {
    hide Updated;
  }

  /** What one more operation does to a mean: a success keeps it exact; a failure keeps it
      exact only if nothing has completed yet or its latency is the average itself. */
  lemma MeanAfterOneMore(obs: seq<Observation>)
    requires obs != [] && IsMean(obs[..|obs| - 1])
    ensures var before, last := obs[..|obs| - 1], obs[|obs| - 1];
            IsMean(obs) <==> last.ok || Completed(before) == 0 || last.latency == WriteQueueAverage(before)
  {
    var before, last := obs[..|obs| - 1], obs[|obs| - 1];
    hide WriteQueueAverage, Completed, Total, Updated, Averages;
    OneMoreWrite(obs);
    if last.ok {
      UpdateAddsLatency(WriteQueueAverage(before), Completed(before), Total(before), last.latency);
    } else if Completed(before) > 0 {
      FailureShiftsMean(WriteQueueAverage(before), Completed(before), Total(before), last.latency);
    }
  }

  /** Every prefix of the history has an exact mean. */
  predicate AlwaysMean(obs: seq<Observation>) {
    forall k :: 0 <= k <= |obs| ==> IsMean(obs[..k])
  }

  /** Each failure came before any success, or took exactly the average. */
  predicate HarmlessFailures(obs: seq<Observation>) {
    forall i :: 0 <= i < |obs| && !obs[i].ok ==> Completed(obs[..i]) == 0 || obs[i].latency == WriteQueueAverage(obs[..i])
  }

  lemma PrefixesOfInit(obs: seq<Observation>)
    requires obs != []
    ensures var before := obs[..|obs| - 1];
            forall k :: 0 <= k <= |before| ==> before[..k] == obs[..k]
  {
  }

  /** The average is the exact mean at all times exactly if every failure was harmless. */
  lemma {:induction false} AlwaysMeanExactly(obs: seq<Observation>)
    ensures AlwaysMean(obs) <==> HarmlessFailures(obs)
  {
    if obs == [] {
      assert IsMean([]);
    } else {
      hide WriteQueueAverage, Completed, Total, IsMean;
      var before := obs[..|obs| - 1];
      PrefixesOfInit(obs);
      AlwaysMeanExactly(before);
      AlwaysMeanSplits(obs);
      HarmlessSplits(obs);
      NothingIsMean(before);
      if AlwaysMean(before) {
        assert IsMean(before[..|before|]) && before[..|before|] == before;
        MeanAfterOneMore(obs);
        FailureLeavesCount(obs);
      }
    }
  }

  /** In particular it then is at the end. */
  lemma WriteQueueAverageIsMean(obs: seq<Observation>)
    requires HarmlessFailures(obs)
    ensures IsMean(obs)
  {
    hide IsMean, HarmlessFailures;
    AlwaysMeanExactly(obs);
    assert obs[..|obs|] == obs;
  }

  lemma NothingIsMean(obs: seq<Observation>)
    ensures IsMean(obs[..0])
  {
  }

  lemma FailureLeavesCount(obs: seq<Observation>)
    requires obs != []
    ensures !obs[|obs| - 1].ok ==> Completed(obs) == Completed(obs[..|obs| - 1])
  {
  }

  lemma AlwaysMeanSplits(obs: seq<Observation>)
    requires obs != []
    ensures AlwaysMean(obs) <==> AlwaysMean(obs[..|obs| - 1]) && IsMean(obs)
  {
    hide IsMean;
    PrefixesOfInit(obs);
    assert obs[..|obs|] == obs;
    if AlwaysMean(obs) {
      assert IsMean(obs[..|obs|]);
    }
  }

  lemma HarmlessSplits(obs: seq<Observation>)
    requires obs != []
    ensures var before, last := obs[..|obs| - 1], obs[|obs| - 1];
            HarmlessFailures(obs) <==>
              HarmlessFailures(before) && (last.ok || Completed(before) == 0 || last.latency == WriteQueueAverage(before))
  {
    hide WriteQueueAverage, Completed;
    PrefixesOfInit(obs);
  }

  /** A success at 1.0 and then a failure at 3.0 make the average 3.0, not 1.0. */
  lemma AFailureDistortsTheMean()
    ensures var obs := [Observation(1.0, true), Observation(3.0, false)];
            Completed(obs) == 1 && Total(obs) == 1.0 && WriteQueueAverage(obs) == 3.0 && !IsMean(obs)
  {
    var obs := [Observation(1.0, true), Observation(3.0, false)];
    assert obs[..1] == [Observation(1.0, true)];
    assert obs[..1][..0] == [];
    assert Completed(obs[..1]) == 1 && WriteQueueAverage(obs[..1]) == 1.0 && Total(obs[..1]) == 1.0;
  }

  /** A mean of `lo..hi` and a latency of `lo..hi` mix to something of `lo..hi`. */
  lemma MixBelow(average: real, latency: real, n: real, hi: real)
    requires n >= 1.0 && average <= hi && latency <= hi
    ensures (average * (n - 1.0) + latency) / n <= hi
  {
    var sum := average * (n - 1.0) + latency;
    ScaleOrder(average, hi, n - 1.0);
    Distribute(hi, n);
    DivideOrder(sum, hi, n);
  }

  lemma MixAbove(average: real, latency: real, n: real, lo: real)
    requires n >= 1.0 && lo <= average && lo <= latency
    ensures lo <= (average * (n - 1.0) + latency) / n
  {
    var sum := average * (n - 1.0) + latency;
    ScaleOrder(lo, average, n - 1.0);
    Distribute(lo, n);
    DivideOrderBelow(lo, sum, n);
  }

  lemma ScaleOrder(a: real, b: real, k: real)
    requires a <= b && k >= 0.0
    ensures a * k <= b * k
  {
  }

  lemma Distribute(a: real, n: real)
    ensures a * (n - 1.0) + a == a * n
  {
  }

  lemma DivideOrder(x: real, hi: real, n: real)
    requires n > 0.0 && x <= hi * n
    ensures x / n <= hi
  {
    var q := x / n;
    assert q * n == x;
    if q > hi {
      ScaleStrictly(hi, q, n);
    }
  }

  lemma DivideOrderBelow(lo: real, x: real, n: real)
    requires n > 0.0 && lo * n <= x
    ensures lo <= x / n
  {
    var q := x / n;
    assert q * n == x;
    if q < lo {
      ScaleStrictly(q, lo, n);
    }
  }

  lemma ScaleStrictly(a: real, b: real, k: real)
    requires a < b && k > 0.0
    ensures a * k < b * k
  {
  }

  /** The first success sets the average, whatever it was. */
  lemma FirstUpdate(average: real, latency: real)
    ensures Updated(average, 1, latency) == latency
  {
  }

  lemma UpdatedStaysWithin(average: real, completed: nat, latency: real, lo: real, hi: real)
    requires completed > 0 && lo <= latency <= hi
    requires completed > 1 ==> lo <= average <= hi
    ensures lo <= Updated(average, completed, latency) <= hi
  {
    if completed == 1 {
      FirstUpdate(average, latency);
    } else {
      MixBelow(average, latency, completed as real, hi);
      MixAbove(average, latency, completed as real, lo);
    }
  }

  /** Failures distort the mean, but never push it outside the observed range. */
  lemma {:induction false} WriteQueueAverageStaysWithin(obs: seq<Observation>, lo: real, hi: real)
    requires Within(obs, lo, hi) && Completed(obs) > 0
    ensures lo <= WriteQueueAverage(obs) <= hi
  {
    var before := obs[..|obs| - 1];
    if Completed(obs) > 1 || !obs[|obs| - 1].ok {
      WriteQueueAverageStaysWithin(before, lo, hi);
    }
    UpdatedStaysWithin(WriteQueueAverage(before), Completed(obs), obs[|obs| - 1].latency, lo, hi);
  }
}
