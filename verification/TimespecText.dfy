/** Timestamps as text: seconds, a point, and nine digits of nanoseconds. */
module TimespecText {
  import opened Basics
  import opened Timespec

  // ---------- Decimal digits ----------

  predicate IsDigit(c: char) {
    '0' <= c <= '9'
  }

  predicate AllDigits(s: string) {
    forall i :: 0 <= i < |s| ==> IsDigit(s[i])
  }

  function Pow10(n: nat): (r: nat)
    ensures r > 0
  {
    if n == 0 then 1 else 10 * Pow10(n - 1)
  }

  /** The number that a string of digits denotes. */
  function Value(s: string): (r: nat)
    requires AllDigits(s)
    ensures r < Pow10(|s|)
  {
    if s == [] then 0 else 10 * Value(s[..|s| - 1]) + (s[|s| - 1] as int - '0' as int)
  }

  function Zeros(n: nat): (r: string)
    ensures |r| == n && AllDigits(r)
  {
    seq(n, _ => '0')
  }

  lemma PowAdd(a: nat, b: nat)
    ensures Pow10(a + b) == Pow10(a) * Pow10(b)
  {
    if a > 0 {
      PowAdd(a - 1, b);
    }
  }

  lemma {:induction false} ValueOfConcat(a: string, b: string)
    requires AllDigits(a) && AllDigits(b)
    ensures Value(a + b) == Value(a) * Pow10(|b|) + Value(b)
  {
    if b == [] {
      assert a + b == a;
    } else {
      var c := b[..|b| - 1];
      assert (a + b)[..|a + b| - 1] == a + c;
      ValueOfConcat(a, c);
      Tenfold(Value(a), Pow10(|c|), Value(c));
    }
  }

  lemma Tenfold(a: nat, p: nat, c: nat)
    ensures 10 * (a * p + c) == a * (10 * p) + 10 * c
  {
  }

  lemma {:induction false} ValueOfZeros(n: nat)
    ensures Value(Zeros(n)) == 0
  {
    if n > 0 {
      assert Zeros(n)[..n - 1] == Zeros(n - 1);
      ValueOfZeros(n - 1);
    }
  }

  /** The digits of a number, without leading zeros. */
  function Digits(n: nat): (r: string)
    ensures |r| > 0 && AllDigits(r)
    ensures Value(r) == n
    decreases n
  {
    if n < 10 then [('0' as int + n) as char]
    else
      var r := Digits(n / 10) + [('0' as int + n % 10) as char];
      assert r[..|r| - 1] == Digits(n / 10);
      r
  }

  lemma {:induction false} DigitsFit(n: nat, k: nat)
    requires k > 0 && n < Pow10(k)
    ensures |Digits(n)| <= k
  {
    if n >= 10 {
      assert k > 1;
      DigitsFit(n / 10, k - 1);
    }
  }

  // ---------- Printing ----------

  /** A number under `%ld`. */
  function Long(n: int): string {
    if n < 0 then "-" + Digits(-n) else Digits(n)
  }

  /** A number under `%09ld`: zeros fill it up to nine characters, after the sign. */
  function Long9(n: int): string {
    var sign, digits := if n < 0 then "-" else "", Digits(if n < 0 then -n else n);
    var width := |sign| + |digits|;
    sign + Zeros(if width < 9 then 9 - width else 0) + digits
  }

  function ToText(t: Timespec): string {
    Long(t.sec) + "." + Long9(t.nsec)
  }

  // ---------- Parsing ----------

  predicate IsSpace(c: char) {
    c == ' ' || 9 <= c as int <= 13
  }

  /** The text without its leading white space. */
  function Trimmed(s: string): string {
    if s != [] && IsSpace(s[0]) then Trimmed(s[1..]) else s
  }

  /** The number of digits at the start. */
  function Run(s: string): (r: nat)
    ensures r <= |s| && AllDigits(s[..r])
    ensures r < |s| ==> !IsDigit(s[r])
  {
    if s != [] && IsDigit(s[0]) then
      var r := Run(s[1..]);
      assert s[..r + 1] == [s[0]] + s[1..][..r];
      r + 1
    else 0
  }

  /** `std::stoll`: white space, a sign, digits; what follows is ignored. None when it throws. */
  function Stoll(s: string): Option<S64> {
    Number(Trimmed(s))
  }

  function Number(text: string): Option<S64> {
    var signed := text != [] && text[0] in {'+', '-'};
    var number := if signed then text[1..] else text;
    var n := Run(number);
    var digits: int := Value(number[..n]);
    var value := if signed && text[0] == '-' then -digits else digits;
    if n == 0 || value < -TWO63 || value >= TWO63 then None else Some(value)
  }

  /** Where the first point is, or the length. */
  function Find(s: string): (r: nat)
    ensures r <= |s| && (r < |s| ==> s[r] == '.')
    ensures forall i :: 0 <= i < r ==> s[i] != '.'
  {
    if s == [] || s[0] == '.' then 0 else 1 + Find(s[1..])
  }

  /** Nine characters: filled up with zeros, or cut. */
  function Nine(s: string): (r: string)
    ensures |r| == 9
  {
    if |s| < 9 then s + Zeros(9 - |s|) else s[..9]
  }

  /** The parts before normalisation, or none when a conversion throws. */
  function Parts(s: string): Option<Timespec> {
    var dot := Find(s);
    if dot == |s| then
      var sec := Stoll(s);
      if sec.None? then None else Some(Timespec(sec.value, 0))
    else
      var sec, nsec := Stoll(s[..dot]), Stoll(Nine(s[dot + 1..]));
      if sec.None? || nsec.None? then None else Some(Timespec(sec.value, nsec.value))
  }

  const ZERO := Timespec(0, 0)

  /** What a parse leaves in the variable. */
  function Parsed(s: string): Timespec {
    var parts := Parts(s);
    if parts.None? then ZERO else Normalized(parts.value)
  }

  /** And whether it succeeds. */
  predicate Parses(s: string) {
    Parts(s).Some? && Valid(Parsed(s))
  }

  method StringToTimespec(s: string, ts: Cell) returns (ok: bool)
    modifies ts
    ensures ts.View() == Parsed(s) && ok == Parses(s)
  {
    var dotPos := Find(s);
    if dotPos == |s| {
      var sec := Stoll(s);
      if sec.None? {
        ts.sec, ts.nsec := 0, 0;
        return false;
      }
      ts.sec, ts.nsec := sec.value, 0;
    } else {
      var sec := Stoll(s[..dotPos]);
      if sec.None? {
        ts.sec, ts.nsec := 0, 0;
        return false;
      }
      ts.sec := sec.value;
      var nsecStr := s[dotPos + 1..];
      if |nsecStr| < 9 {
        nsecStr := nsecStr + Zeros(9 - |nsecStr|);
      } else if |nsecStr| > 9 {
        nsecStr := nsecStr[..9];
      }
      assert nsecStr == Nine(s[dotPos + 1..]);
      var nsec := Stoll(nsecStr);
      if nsec.None? {
        ts.sec, ts.nsec := 0, 0;
        return false;
      }
      ts.nsec := nsec.value;
    }
    ts.Normalize();
    ok := Valid(ts.View());
  }

  // ---------- What parsing means ----------

  lemma {:induction false} RunOfDigits(d: string, rest: string)
    requires AllDigits(d) && (rest == [] || !IsDigit(rest[0]))
    ensures Run(d + rest) == |d|
  {
    if d == [] {
      assert d + rest == rest;
    } else {
      assert (d + rest)[1..] == d[1..] + rest;
      RunOfDigits(d[1..], rest);
    }
  }

  /** Digits, and then anything that does not start with one. */
  lemma StollOfDigits(d: string, rest: string)
    requires AllDigits(d) && d != [] && (rest == [] || !IsDigit(rest[0]))
    ensures Stoll(d + rest) == if Value(d) < TWO63 then Some(Value(d)) else None
  {
    var s := d + rest;
    assert s[0] == d[0];
    RunOfDigits(d, rest);
    assert s[..|d|] == d;
  }

  /** At most nine digits denote less than a second. */
  lemma NineDigits(d: string)
    requires AllDigits(d) && |d| <= 9
    ensures Value(d) < NS_PER_SEC
  {
    assert Pow10(9) == NS_PER_SEC;
    PowAdd(|d|, 9 - |d|);
    assert Pow10(|d|) <= Pow10(|d|) * Pow10(9 - |d|);
  }

  /** The parse of two parts, when neither conversion throws. */
  lemma ParsedParts(a: string, b: string, t: Timespec)
    requires forall i :: 0 <= i < |a| ==> a[i] != '.'
    requires Stoll(a) == Some(t.sec) && Stoll(Nine(b)) == Some(t.nsec) && 0 <= t.nsec < NS_PER_SEC
    ensures Parsed(a + "." + b) == t && (Parses(a + "." + b) <==> t.sec >= 0)
  {
    hide Stoll, Find, Nine;
    PartsAround(a, b);
  }

  lemma StollOfNumber(n: int)
    requires -TWO63 <= n < TWO63
    ensures Stoll(Long(n)) == Some(n)
  {
    if n < 0 {
      var d := Digits(-n);
      RunOfDigits(d, []);
      assert Long(n)[1..] == d && d + [] == d && d[..|d|] == d;
    } else {
      StollOfDigits(Digits(n), []);
      assert Digits(n) + [] == Digits(n);
    }
  }

  lemma {:induction false} FindAfter(a: string, b: string)
    requires forall i :: 0 <= i < |a| ==> a[i] != '.'
    ensures Find(a + "." + b) == |a|
  {
    if a == [] {
      assert a + "." + b == "." + b;
    } else {
      assert (a + "." + b)[1..] == a[1..] + "." + b;
      FindAfter(a[1..], b);
    }
  }

  lemma PartsAround(a: string, b: string)
    requires forall i :: 0 <= i < |a| ==> a[i] != '.'
    ensures var sec, nsec := Stoll(a), Stoll(Nine(b));
            Parts(a + "." + b) == if sec.None? || nsec.None? then None else Some(Timespec(sec.value, nsec.value))
  {
    FindAfter(a, b);
    var s := a + "." + b;
    assert s[..|a|] == a && s[|a| + 1..] == b;
  }

  /** Printing and parsing give the time back, for all seconds; the parse accepts those that
      are not negative. */
  lemma PrintThenParse(t: Timespec)
    requires 0 <= t.nsec < NS_PER_SEC
    ensures Parsed(ToText(t)) == t
    ensures Parses(ToText(t)) <==> t.sec >= 0
  {
    hide Stoll, Long9, Nine, Parsed, Parses;
    Long9Parses(t.nsec);
    StollOfNumber(t.sec);
    ParsedParts(Long(t.sec), Long9(t.nsec), t);
  }

  lemma Long9Parses(n: nat)
    requires n < NS_PER_SEC
    ensures Nine(Long9(n)) == Long9(n) && Stoll(Long9(n)) == Some(n)
  {
    assert Pow10(9) == NS_PER_SEC;
    DigitsFit(n, 9);
    var z := 9 - |Digits(n)|;
    var nine := Zeros(z) + Digits(n);
    assert Long9(n) == nine by {
      assert "" + nine == nine && "" + Zeros(z) == Zeros(z);
    }
    ValueOfConcat(Zeros(z), Digits(n));
    ValueOfZeros(z);
    StollOfDigits(nine, []);
    assert nine + [] == nine;
  }

  lemma {:induction false} NoLeadingZero(n: nat)
    ensures |Digits(n)| > 1 ==> Digits(n)[0] != '0'
  {
    if n >= 10 {
      NoLeadingZero(n / 10);
      if n / 10 < 10 {
        assert Digits(n / 10)[0] == ('0' as int + n / 10) as char;
      }
    }
  }

  function Abs(x: int): nat {
    if x < 0 then -x else x
  }

  /** The printed form: a sign only for negative seconds, the seconds without leading zeros, a
      point, and exactly nine digits of nanoseconds. */
  lemma TextForm(t: Timespec) returns (seconds: string, fraction: string)
    requires 0 <= t.nsec < NS_PER_SEC
    ensures AllDigits(seconds) && seconds != "" && (|seconds| > 1 ==> seconds[0] != '0')
    ensures AllDigits(fraction) && |fraction| == 9
    ensures Value(seconds) == Abs(t.sec) && Value(fraction) == t.nsec
    ensures ToText(t) == (if t.sec < 0 then "-" else "") + seconds + "." + fraction
  {
    hide Value, Long9, Pow10;
    seconds, fraction := Digits(Abs(t.sec)), Long9(t.nsec);
    NoLeadingZero(Abs(t.sec));
    Long9Digits(t.nsec);
    NoSign(seconds);
  }

  lemma NoSign(s: string)
    ensures "" + s == s
  {
  }

  lemma Long9Digits(n: nat)
    requires n < NS_PER_SEC
    ensures AllDigits(Long9(n)) && |Long9(n)| == 9 && Value(Long9(n)) == n
  {
    assert Pow10(9) == NS_PER_SEC;
    DigitsFit(n, 9);
    var z := 9 - |Digits(n)|;
    assert Long9(n) == Zeros(z) + Digits(n) by {
      assert "" + Zeros(z) + Digits(n) == Zeros(z) + Digits(n);
    }
    ValueOfConcat(Zeros(z), Digits(n));
    ValueOfZeros(z);
  }

  /** `n` is the whole number of billionths in the fraction that the digits `f` denote. */
  ghost predicate IsFloor(n: int, f: string)
    requires AllDigits(f)
  {
    n * Pow10(|f|) <= Value(f) * NS_PER_SEC < (n + 1) * Pow10(|f|)
  }

  /** Cutting or filling the fraction takes the floor. */
  lemma NineIsFloor(f: string)
    requires AllDigits(f)
    ensures AllDigits(Nine(f)) && IsFloor(Value(Nine(f)), f)
  {
    if |f| < 9 {
      FilledIsFloor(f);
    } else {
      CutIsFloor(f);
    }
  }

  lemma FilledIsFloor(f: string)
    requires AllDigits(f) && |f| < 9
    ensures AllDigits(Nine(f)) && IsFloor(Value(Nine(f)), f)
  {
    NineZeros();
    hide Value, Pow10;
    FilledValue(f);
    PowAdd(|f|, 9 - |f|);
    Scaled(Value(f), Pow10(9 - |f|), Pow10(|f|));
  }

  lemma CutIsFloor(f: string)
    requires AllDigits(f) && |f| >= 9
    ensures AllDigits(Nine(f)) && IsFloor(Value(Nine(f)), f)
  {
    NineZeros();
    hide Value, Pow10;
    var head, tail := f[..9], f[9..];
    assert f == head + tail;
    ValueOfConcat(head, tail);
    PowAdd(9, |tail|);
    Cut(Value(head), Value(tail), Pow10(|tail|));
  }

  lemma NineZeros()
    ensures Pow10(9) == NS_PER_SEC
  {
  }

  lemma Scaled(v: nat, p: nat, q: nat)
    requires q > 0
    ensures v * p * q <= v * (q * p) < (v * p + 1) * q
  {
    assert v * p * q == v * (q * p);
    assert (v * p + 1) * q == v * p * q + q;
  }

  lemma Cut(h: nat, t: nat, p: nat)
    requires t < p
    ensures h * (NS_PER_SEC * p) <= (h * p + t) * NS_PER_SEC < (h + 1) * (NS_PER_SEC * p)
  {
    assert h * (NS_PER_SEC * p) == h * p * NS_PER_SEC;
    assert (h + 1) * (NS_PER_SEC * p) == (h * p + p) * NS_PER_SEC;
  }

  /** A decimal number `s.f`, of any length, is parsed as its seconds and the floor of its
      fraction in nanoseconds, if the seconds fit; else the result is zero and a failure. */
  lemma DecimalParses(s: string, f: string)
    requires AllDigits(s) && AllDigits(f)
    ensures Parses(s + "." + f) <==> s != [] && Value(s) < TWO63
    ensures Parses(s + "." + f) ==> Parsed(s + "." + f).sec == Value(s) && IsFloor(Parsed(s + "." + f).nsec, f)
    ensures !Parses(s + "." + f) ==> Parsed(s + "." + f) == ZERO
  {
    hide Stoll, Value, IsFloor, Nine, Find, Pow10;
    NineIsFloor(f);
    NineDigits(Nine(f));
    StollOfAll(Nine(f));
    StollOfSeconds(s);
    PartsAround(s, f);
    if s != "" && Value(s) < TWO63 {
      ParsedParts(s, f, Timespec(Value(s), Value(Nine(f))));
    }
  }

  // ---------- Fractions that are not all digits ----------

  lemma FloorIsUnique(n: int, m: int, f: string)
    requires AllDigits(f) && IsFloor(n, f) && IsFloor(m, f)
    ensures n == m
  {
    var p := Pow10(|f|);
    FloorOrder(n, m, p, Value(f) * NS_PER_SEC);
    FloorOrder(m, n, p, Value(f) * NS_PER_SEC);
  }

  lemma FloorOrder(n: int, m: int, p: nat, v: int)
    requires p > 0 && n * p <= v < (m + 1) * p
    ensures n <= m
  {
    assert n >= m + 1 ==> n * p >= (m + 1) * p;
  }

  /** Fewer than nine digits, not filled up, are their own floor only if they are zeros. */
  lemma UnfilledIsFloor(d: string)
    requires AllDigits(d) && |d| < 9
    ensures IsFloor(Value(d), d) <==> Value(d) == 0
  {
    hide Value, IsFloor, Pow10, Nine;
    NineIsFloor(d);
    FilledValue(d);
    TimesTen(Value(d), 9 - |d|);
    if IsFloor(Value(d), d) {
      FloorIsUnique(Value(d), Value(Nine(d)), d);
    }
  }

  lemma NineOfShort(d: string)
    requires |d| < 9
    ensures Nine(d) == d + Zeros(9 - |d|)
  {
  }

  lemma FilledValue(d: string)
    requires AllDigits(d) && |d| < 9
    ensures AllDigits(Nine(d)) && Value(Nine(d)) == Value(d) * Pow10(9 - |d|)
  {
    hide Value, Pow10, Nine;
    var zeros := Zeros(9 - |d|);
    NineOfShort(d);
    ValueOfConcat(d, zeros);
    ValueOfZeros(9 - |d|);
  }

  lemma TimesTen(v: nat, z: nat)
    requires z > 0
    ensures v * Pow10(z) == v <==> v == 0
  {
    assert Pow10(z) == 10 * Pow10(z - 1);
    if v > 0 {
      assert v * Pow10(z) >= v * 10;
    }
  }

  /** A fraction of digits `d` and whatever follows them. Cut at nine, or ending with them, it is
      their floor. If it breaks off before, they count as nanoseconds, which is their floor only
      if they are zeros. */
  lemma BrokenFraction(a: string, sec: S64, d: string, rest: string)
    requires (forall i :: 0 <= i < |a| ==> a[i] != '.') && Stoll(a) == Some(sec)
    requires AllDigits(d) && d != "" && (rest == "" || !IsDigit(rest[0]))
    ensures var t := Parsed(a + "." + (d + rest));
            && t.sec == sec && 0 <= t.nsec < NS_PER_SEC
            && t.nsec == (if rest == "" || |d| >= 9 then Value(Nine(d)) else Value(d))
            && (IsFloor(t.nsec, d) <==> rest == "" || |d| >= 9 || Value(d) == 0)
    ensures Parses(a + "." + (d + rest)) <==> sec >= 0
  {
    hide Stoll, Parsed, Parses, Value, IsFloor, Nine;
    NineIsFloor(d);
    NineDigits(Nine(d));
    if rest == "" || |d| >= 9 {
      NineOfLong(d, rest);
      StollOfAll(Nine(d));
      ParsedParts(a, d + rest, Timespec(sec, Value(Nine(d))));
    } else {
      NineOfBroken(d, rest);
      NineDigits(d);
      UnfilledIsFloor(d);
      StollOfDigits(d, Nine(d + rest)[|d|..]);
      ParsedParts(a, d + rest, Timespec(sec, Value(d)));
    }
  }

  lemma StollOfSeconds(s: string)
    requires AllDigits(s)
    ensures Stoll(s) == if s != "" && Value(s) < TWO63 then Some(Value(s)) else None
  {
    assert s + "" == s;
    if s != "" {
      StollOfDigits(s, "");
    }
  }

  lemma NineOfLong(d: string, rest: string)
    requires rest == "" || |d| >= 9
    ensures Nine(d + rest) == Nine(d)
  {
    assert rest == "" ==> d + rest == d;
  }

  lemma NineOfBroken(d: string, rest: string)
    requires rest != "" && |d| < 9
    ensures Nine(d + rest) == d + Nine(d + rest)[|d|..] && Nine(d + rest)[|d|] == rest[0]
  {
  }

  lemma StollOfAll(d: string)
    requires AllDigits(d) && d != "" && Value(d) < TWO63
    ensures Stoll(d) == Some(Value(d))
  {
    StollOfDigits(d, "");
    assert d + "" == d;
  }

  /** How `std::stoll` takes a text apart: white space, a sign, digits, and the rest. */
  ghost predicate Splits(text: string, space: string, sign: string, digits: string, rest: string) {
    && text == space + sign + digits + rest
    && (forall i :: 0 <= i < |space| ==> IsSpace(space[i]))
    && sign in {"", "+", "-"} && AllDigits(digits)
    && (rest == "" || !IsDigit(rest[0]))
    && (sign == "" && digits == "" && rest != "" ==> !IsSpace(rest[0]) && rest[0] !in {'+', '-'})
  }

  /** Every text comes apart. */
  lemma EverySplits(text: string) returns (space: string, sign: string, digits: string, rest: string)
    ensures Splits(text, space, sign, digits, rest)
  {
    if text != "" && IsSpace(text[0]) {
      space, sign, digits, rest := EverySplits(text[1..]);
      OneMoreSpace(text, space, sign, digits, rest);
      space := [text[0]] + space;
    } else {
      space := "";
      sign, digits, rest := SplitsWithoutSpace(text);
    }
  }

  lemma OneMoreSpace(text: string, space: string, sign: string, digits: string, rest: string)
    requires text != "" && IsSpace(text[0]) && Splits(text[1..], space, sign, digits, rest)
    ensures Splits(text, [text[0]] + space, sign, digits, rest)
  {
    hide IsSpace, IsDigit;
    assert text == [text[0]] + text[1..];
    OneInFront([text[0]], space, sign, digits, rest);
  }

  lemma OneInFront(c: string, space: string, sign: string, digits: string, rest: string)
    ensures c + (space + sign + digits + rest) == (c + space) + sign + digits + rest
  {
  }

  lemma SplitsWithoutSpace(text: string) returns (sign: string, digits: string, rest: string)
    requires text == "" || !IsSpace(text[0])
    ensures Splits(text, "", sign, digits, rest)
  {
    hide Run, IsSpace;
    sign := if text == "" then "" else if text[0] == '+' then "+" else if text[0] == '-' then "-" else "";
    var number := text[|sign|..];
    var n := Run(number);
    digits, rest := number[..n], number[n..];
    assert text[..|sign|] == sign;
    ThreeParts(text, |sign|, n);
    assert n < |number| ==> rest[0] == number[n];
    assert sign == "" && digits == "" ==> rest == text;
  }

  lemma ThreeParts(text: string, i: nat, n: nat)
    requires i + n <= |text|
    ensures text == "" + text[..i] + text[i..][..n] + text[i..][n..]
  {
  }

  lemma {:induction false} TrimmedSplit(space: string, tail: string)
    requires forall i :: 0 <= i < |space| ==> IsSpace(space[i])
    requires tail == "" || !IsSpace(tail[0])
    ensures Trimmed(space + tail) == tail
  {
    if space == "" {
      assert space + tail == tail;
    } else {
      assert (space + tail)[1..] == space[1..] + tail;
      TrimmedSplit(space[1..], tail);
    }
  }

  /** And only the sign and the digits matter; without digits it throws. */
  lemma StollOfSplit(text: string, space: string, sign: string, digits: string, rest: string)
    requires Splits(text, space, sign, digits, rest)
    ensures var v: int := Value(digits);
            var value := if sign == "-" then -v else v;
            Stoll(text) == if digits == "" || value < -TWO63 || value >= TWO63 then None else Some(value)
  {
    hide Number, Trimmed;
    var tail := sign + (digits + rest);
    assert text == space + tail;
    TrimmedSplit(space, tail);
    NumberOfSplit(sign, digits, rest);
  }

  lemma NumberOfSplit(sign: string, digits: string, rest: string)
    requires sign in {"", "+", "-"} && AllDigits(digits) && (rest == "" || !IsDigit(rest[0]))
    requires sign == "" && digits == "" && rest != "" ==> rest[0] !in {'+', '-'}
    ensures var v: int := Value(digits);
            var value := if sign == "-" then -v else v;
            Number(sign + (digits + rest)) == if digits == "" || value < -TWO63 || value >= TWO63 then None else Some(value)
  {
    hide Run, Value;
    var number := digits + rest;
    RunOfDigits(digits, rest);
    assert number[..|digits|] == digits;
    if sign == "" {
      assert sign + number == number;
    } else {
      assert (sign + number)[1..] == number;
    }
  }

  /** A text without a point is its seconds. It is accepted exactly if there are digits, they fit,
      and no minus sign makes them negative; negative seconds that fit stay in the variable. */
  lemma WholeSeconds(text: string, space: string, sign: string, digits: string, rest: string)
    requires forall i :: 0 <= i < |text| ==> text[i] != '.'
    requires Splits(text, space, sign, digits, rest)
    ensures var v: int := Value(digits);
            && (Parses(text) <==> digits != "" && v < TWO63 && (sign == "-" ==> v == 0))
            && Parsed(text) == (if digits == "" || v > TWO63 || (v == TWO63 && sign != "-") then ZERO
                                else Timespec(if sign == "-" then -v else v, 0))
  {
    hide Stoll, Value, Splits;
    StollOfSplit(text, space, sign, digits, rest);
    NoPoint(text);
  }

  /** Seconds that `std::stoll` throws at make the whole text fail. */
  lemma BadSeconds(a: string, b: string)
    requires (forall i :: 0 <= i < |a| ==> a[i] != '.') && Stoll(a).None?
    ensures !Parses(a + "." + b) && Parsed(a + "." + b) == ZERO
  {
    hide Stoll, Nine, Find;
    PartsAround(a, b);
  }

  lemma NoPoint(text: string)
    requires forall i :: 0 <= i < |text| ==> text[i] != '.'
    ensures Find(text) == |text|
  {
  }

  /** A fraction that starts with something else than a digit, cut or filled to nine characters:
      without digits the parse fails; with them they count as nanoseconds; and after a minus
      sign they are subtracted by way of the jump in `Normalized`, and often still accepted. */
  lemma OddFraction(a: string, sec: S64, f: string, space: string, sign: string, digits: string, rest: string)
    requires (forall i :: 0 <= i < |a| ==> a[i] != '.') && Stoll(a) == Some(sec)
    requires Splits(Nine(f), space, sign, digits, rest)
    ensures Value(digits) < NS_PER_SEC
    ensures var text, t, v: int := a + "." + f, Parsed(a + "." + f), Value(digits);
            && (digits == "" ==> !Parses(text) && t == ZERO)
            && (digits != "" && (sign != "-" || v == 0) ==> t == Timespec(sec, v) && (Parses(text) <==> sec >= 0))
            && (digits != "" && sign == "-" ==> t == Normalized(Timespec(sec, -v)) && (Parses(text) <==> t.sec >= 0))
  {
    hide Stoll, Nine, Value, Find, Normalized;
    NineDigits(digits);
    StollOfSplit(Nine(f), space, sign, digits, rest);
    PartsAround(a, f);
    if digits != "" {
      var v: int := Value(digits);
      NormalizedParts9(Timespec(sec, if sign == "-" then -v else v));
    }
  }

  lemma NormalizedParts9(t: Timespec)
    ensures 0 <= Normalized(t).nsec < NS_PER_SEC
    ensures 0 <= t.nsec < NS_PER_SEC ==> Normalized(t) == t
  {
  }

  /** A minus sign in the fraction: half a second less than 1.0 is read as a time 584 years on. */
  lemma MinusInTheFraction()
    ensures Parses("1.-5") && Parsed("1.-5") == Timespec(18_446_744_074, 659_551_616)
  {
    hide Stoll, Parsed, Parses, Value;
    SecondsOne();
    EightDigits();
    OddFraction("1", 1, "-5", "", "-", "50000000", "");
    assert "1" + "." + "-5" == "1.-5";
  }

  /** A text with a minus sign is accepted exactly if its seconds are zero; the sign is then lost,
      and the fraction counts as positive. */
  lemma NegativeText(a: string, space: string, digits: string, rest: string, f: string)
    requires (forall i :: 0 <= i < |a| ==> a[i] != '.') && AllDigits(f)
    requires Splits(a, space, "-", digits, rest) && digits != ""
    ensures Parses(a + "." + f) <==> Value(digits) == 0
    ensures Parses(a + "." + f) ==> Parsed(a + "." + f).sec == 0 && IsFloor(Parsed(a + "." + f).nsec, f)
  {
    hide Stoll, Value, IsFloor, Nine, Find, Pow10, Splits;
    NineIsFloor(f);
    NineDigits(Nine(f));
    StollOfAll(Nine(f));
    StollOfSplit(a, space, "-", digits, rest);
    PartsAround(a, f);
    if Stoll(a).Some? {
      ParsedParts(a, f, Timespec(Stoll(a).value, Value(Nine(f))));
    }
  }

  /** Such a text: minus half a second is read as plus half a second. */
  lemma MinusHalf()
    ensures Parses("-0.5") && Parsed("-0.5") == Timespec(0, 500_000_000)
  {
    hide Stoll, Parsed, Parses, Value, Nine;
    ThreeDigits();
    NegativeText("-0", "", "0", "", "5");
    ParsedParts("-0", "5", Timespec(0, 500_000_000));
    assert "-0" + "." + "5" == "-0.5";
  }

  lemma ThreeDigits()
    ensures Value("0") == 0 && AllDigits("5") && Splits("-0", "", "-", "0", "")
    ensures Stoll("-0") == Some(0) && Stoll(Nine("5")) == Some(500_000_000)
  {
    hide IsSpace, Value, Stoll, Nine;
    EightZeros();
    assert "" + "-" + "0" + "" == "-0";
    StollOfSplit("-0", "", "-", "0", "");
    StollOfAll(Nine("5"));
  }

  lemma EightZeros()
    ensures Value("0") == 0
    ensures AllDigits(Nine("5")) && Value(Nine("5")) == 500_000_000
  {
    assert "0"[..0] == "" && "5"[..0] == "" && Value("5") == 5;
    FilledValue("5");
    assert Pow10(8) == 100_000_000;
  }

  lemma SecondsOne()
    ensures Stoll("1") == Some(1)
  {
    StollOfNumber(1);
    assert Digits(1) == "1";
  }

  lemma EightDigits()
    ensures AllDigits("50000000") && Value("50000000") == 50_000_000
    ensures Splits(Nine("-5"), "", "-", "50000000", "")
  {
    assert Nine("-5") == "-50000000";
    assert "50000000" == "5" + Zeros(7);
    ValueOfConcat("5", Zeros(7));
    ValueOfZeros(7);
    assert Pow10(7) == 10_000_000;
    assert "5"[..0] == "" && Value("5") == 5;
  }
}
