/** Timestamps of nanosecond precision in 64-bit machine arithmetic: conversion, arithmetic,
    normalisation, printing and parsing. Conversions and signed operations wrap around.
  */
module Timespec {
  import opened Basics

  const NS_PER_SEC := 1_000_000_000
  const TWO64 := 0x1_0000_0000_0000_0000
  const TWO63 := 0x8000_0000_0000_0000

  type U64 = x: int | 0 <= x < TWO64
  type S64 = x: int | -TWO63 <= x < TWO63

  function ToU64(x: int): (r: U64)
    ensures 0 <= x < TWO64 ==> r == x
    ensures (r - x) % TWO64 == 0
  {
    x % TWO64
  }

  function ToS64(x: int): (r: S64)
    ensures -TWO63 <= x < TWO63 ==> r == x
    ensures (r - x) % TWO64 == 0
  {
    if x % TWO64 < TWO63 then x % TWO64 else x % TWO64 - TWO64
  }

  datatype Timespec = Timespec(sec: S64, nsec: S64)

  /** The instant a timespec denotes. */
  function Instant(t: Timespec): int {
    t.sec * NS_PER_SEC + t.nsec
  }

  predicate Valid(t: Timespec) {
    0 <= t.nsec < NS_PER_SEC && t.sec >= 0
  }

  // ---------- Nanoseconds ----------

  function ToNs(t: Timespec): U64 {
    ToU64(ToU64(ToU64(t.sec) * NS_PER_SEC) + ToU64(t.nsec))
  }

  function FromNs(ns: U64): Timespec {
    Timespec(ToS64(ns / NS_PER_SEC), ToS64(ns % NS_PER_SEC))
  }

  /** Every number of nanoseconds survives the way there and back. */
  lemma NsRoundTrip(ns: U64)
    ensures ToNs(FromNs(ns)) == ns
    ensures Valid(FromNs(ns)) && Instant(FromNs(ns)) == ns
  {
    assert ns / NS_PER_SEC < TWO63;
  }

  lemma ModAdd(a: int, b: int, m: int)
    requires m > 0
    ensures (a % m + b % m) % m == (a + b) % m
  {
    var q, r := a / m, b / m;
    assert a == m * q + a % m && b == m * r + b % m;
    ModShift(a % m + b % m, q + r, m);
    assert a % m + b % m + m * (q + r) == a + b;
  }

  lemma {:induction false} ModShift(x: int, k: int, m: int)
    requires m > 0
    ensures (x + m * k) % m == x % m
  {
    var q := x / m;
    assert x == m * q + x % m;
    assert x + m * k == m * (q + k) + x % m;
    QuotientIsUnique(x + m * k, q + k, x % m, m);
  }

  lemma ModMul(a: int, b: int, m: int)
    requires m > 0
    ensures (a % m * b) % m == (a * b) % m
  {
    var q := a / m;
    assert a == m * q + a % m;
    assert a * b == a % m * b + m * (q * b) by {
      assert (m * q) * b == m * (q * b);
    }
    ModShift(a % m * b, q * b, m);
  }

  /** The conversion is the instant, modulo the width; the way back undoes it exactly for the
      valid instants that fit. */
  lemma ToNsIsInstant(t: Timespec)
    ensures ToNs(t) == ToU64(Instant(t))
    ensures FromNs(ToNs(t)) == t <==> Valid(t) && Instant(t) < TWO64
  {
    ModMul(t.sec, NS_PER_SEC, TWO64);
    ModAdd(t.sec * NS_PER_SEC, t.nsec, TWO64);
    assert ToU64(ToU64(t.sec) * NS_PER_SEC) == (t.sec * NS_PER_SEC) % TWO64;
    NsRoundTrip(ToNs(t));
    if Valid(t) && Instant(t) < TWO64 {
      QuotientIsUnique(Instant(t), t.sec, t.nsec, NS_PER_SEC);
    }
  }

  // ---------- Arithmetic ----------

  /** Seconds and nanoseconds in one signed number: the product is unsigned, the result signed. */
  function Total(t: Timespec): S64 {
    ToS64(ToNs(t))
  }

  function AddNs(t: Timespec, ns: S64): Timespec {
    var total := ToS64(Total(t) + ns);
    if total < 0 then Timespec(-1, 0) else Timespec(total / NS_PER_SEC, total % NS_PER_SEC)
  }

  function DiffNs(later: Timespec, earlier: Timespec): S64 {
    ToS64(Total(later) - Total(earlier))
  }

  function Compare(a: Timespec, b: Timespec): int {
    if a.sec < b.sec then -1 else if a.sec > b.sec then 1
    else if a.nsec < b.nsec then -1 else if a.nsec > b.nsec then 1 else 0
  }

  /** Its instant fits a signed word. */
  predicate InRange(t: Timespec) {
    -TWO63 <= Instant(t) < TWO63
  }

  lemma TotalIsInstant(t: Timespec)
    ensures InRange(t) ==> Total(t) == Instant(t)
  {
    ToNsIsInstant(t);
    if InRange(t) {
      Wrapped(Instant(t));
    }
  }

  /** Cutting a number to the unsigned width first does not change its signed value. */
  lemma Wrapped(x: int)
    ensures ToS64(ToU64(x)) == ToS64(x)
  {
  }

  /** For valid times with instants in range, and results that stay in range: adding then
      taking the difference gives the amount added; subtracting it again restores the time; a
      sum before the epoch becomes the marker (-1, 0). */
  lemma AddThenDiff(t: Timespec, ns: S64)
    requires Valid(t) && InRange(t) && Instant(t) + ns < TWO63
    ensures Instant(t) + ns >= 0 ==> Valid(AddNs(t, ns)) && InRange(AddNs(t, ns)) && Instant(AddNs(t, ns)) == Instant(t) + ns
    ensures Instant(t) + ns >= 0 ==> DiffNs(AddNs(t, ns), t) == ns
    ensures Instant(t) + ns >= 0 && ns != -TWO63 ==> AddNs(AddNs(t, ns), -ns) == t
    ensures Instant(t) + ns < 0 <==> AddNs(t, ns) == Timespec(-1, 0)
  {
    TotalIsInstant(t);
    var u := AddNs(t, ns);
    if Instant(t) + ns >= 0 {
      TotalIsInstant(u);
      QuotientIsUnique(Instant(t), t.sec, t.nsec, NS_PER_SEC);
    }
  }

  /** Comparing valid times gives the sign of the difference of their instants, and of `DiffNs`
      when the instants are in range. */
  lemma CompareIsSignOfDiff(a: Timespec, b: Timespec)
    requires Valid(a) && Valid(b)
    ensures Compare(a, b) == Sign(Instant(a) - Instant(b))
    ensures InRange(a) && InRange(b) ==> Compare(a, b) == Sign(DiffNs(a, b)) && DiffNs(a, b) == -DiffNs(b, a)
  {
    TotalIsInstant(a);
    TotalIsInstant(b);
  }

  function Sign(x: int): int {
    if x < 0 then -1 else if x > 0 then 1 else 0
  }

  // ---------- Normalisation ----------

  /** What `Normalize` leaves: the quotient is taken of the unsigned reading of the nanoseconds,
      so a negative number of them counts as that number plus 2^64. */
  function Normalized(t: Timespec): Timespec {
    if ToU64(t.nsec) >= NS_PER_SEC then
      Timespec(ToS64(t.sec + ToU64(t.nsec) / NS_PER_SEC), ToU64(t.nsec) % NS_PER_SEC)
    else t
  }

  class Cell {
    var sec: S64
    var nsec: S64

    constructor (t: Timespec)
      ensures View() == t
    {
      sec, nsec := t.sec, t.nsec;
    }

    function View(): Timespec
      reads this
    {
      Timespec(sec, nsec)
    }

    /** The branch leaves no negative nanoseconds, so the loop that follows it in the source,
        which borrows seconds while there are any, never runs. */
    method Normalize()
      modifies this
      ensures View() == Normalized(old(View()))
    {
      if ToU64(nsec) >= NS_PER_SEC {
        var extraSec: S64 := ToU64(nsec) / NS_PER_SEC;
        sec := ToS64(sec + extraSec);
        nsec := ToU64(nsec) % NS_PER_SEC;
      }
      assert nsec >= 0;
    }

    /** Addition in place. */
    method Add(ns: S64)
      modifies this
      ensures View() == AddNs(old(View()), ns)
    {
      var total := ToS64(Total(View()) + ns);
      if total < 0 {
        sec, nsec := -1, 0;
        return;
      }
      sec, nsec := total / NS_PER_SEC, total % NS_PER_SEC;
    }
  }

  /** No overflow of the seconds. */
  predicate SecondsFit(t: Timespec) {
    t.sec + ToU64(t.nsec) / NS_PER_SEC < TWO63
  }

  lemma NormalizedParts(t: Timespec)
    requires SecondsFit(t)
    ensures Instant(Normalized(t)) == Instant(t) + if t.nsec < 0 then TWO64 else 0
  {
    var u := ToU64(t.nsec);
    assert u == u / NS_PER_SEC * NS_PER_SEC + u % NS_PER_SEC;
  }

  lemma WrapOnce(x: int)
    ensures ToU64(x + TWO64) == ToU64(x)
  {
    ModShift(x, 1, TWO64);
  }

  lemma NormalizedNs(t: Timespec)
    requires SecondsFit(t)
    ensures ToNs(Normalized(t)) == ToNs(t)
  {
    hide Normalized, ToNs, FromNs, Instant, ToU64;
    NormalizedParts(t);
    ToNsIsInstant(t);
    ToNsIsInstant(Normalized(t));
    WrapOnce(Instant(t));
  }

  /** The result always has normal nanoseconds. Unless the seconds overflow, the instant is kept
      exactly when the nanoseconds were not negative; otherwise it moves by 2^64 nanoseconds. */
  lemma NormalizedInstant(t: Timespec)
    ensures 0 <= Normalized(t).nsec < NS_PER_SEC
    ensures SecondsFit(t) ==> Instant(Normalized(t)) == Instant(t) + (if t.nsec < 0 then TWO64 else 0)
    ensures SecondsFit(t) ==> (Instant(Normalized(t)) == Instant(t) <==> t.nsec >= 0)
    ensures SecondsFit(t) ==> ToNs(Normalized(t)) == ToNs(t)
  {
    if SecondsFit(t) {
      NormalizedParts(t);
      NormalizedNs(t);
      hide Normalized, ToNs;
    }
  }

  /** Minus one nanosecond becomes more than 584 years. */
  lemma NegativeNanosecondsJump()
    ensures Normalized(Timespec(0, -1)) == Timespec(18_446_744_073, 709_551_615)
  {
  }
}
