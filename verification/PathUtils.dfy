/** Absolute paths: normalising, joining and taking apart, against the list of components. */
module PathUtils {

  // ---------- The code ----------

  /** `replace(/\/+/g, '/')`: each run of slashes becomes one. */
  function Squeeze(s: string): (r: string)
    ensures r == "" <==> s == ""
    ensures s != "" ==> r[0] == s[0]
  {
    if |s| < 2 then s
    else if s[0] == '/' && s[1] == '/' then Squeeze(s[1..])
    else [s[0]] + Squeeze(s[1..])
  }

  function Normalize(path: string): string {
    if path == "" then "/"
    else
      var path := if path[0] != '/' then "/" + path else path;
      var path := Squeeze(path);
      if |path| > 1 && path[|path| - 1] == '/' then path[..|path| - 1] else path
  }

  function NonEmpty(parts: seq<string>): seq<string> {
    if parts == [] then [] else (if parts[0] != "" then [parts[0]] else []) + NonEmpty(parts[1..])
  }

  function JoinWithSlash(parts: seq<string>): string {
    if parts == [] then "" else if |parts| == 1 then parts[0] else parts[0] + "/" + JoinWithSlash(parts[1..])
  }

  function Join(parts: seq<string>): string {
    if parts == [] then "/" else Normalize(Squeeze(JoinWithSlash(NonEmpty(parts))))
  }

  /** The position of the last slash, or -1. */
  function LastSlash(s: string): (r: int)
    ensures -1 <= r < |s| && (r >= 0 ==> s[r] == '/')
    ensures forall i :: r < i < |s| ==> s[i] != '/'
  {
    if s == "" then -1 else if s[|s| - 1] == '/' then |s| - 1 else LastSlash(s[..|s| - 1])
  }

  function Dirname(path: string): string {
    var normalized := Normalize(path);
    if normalized == "/" then "/"
    else
      var lastSlash := LastSlash(normalized);
      if lastSlash <= 0 then "/" else normalized[..lastSlash]
  }

  function Basename(path: string): string {
    var normalized := Normalize(path);
    if normalized == "/" then "/" else normalized[LastSlash(normalized) + 1..]
  }

  // ---------- Components ----------

  /** The non-empty pieces between the slashes. */
  function Components(s: string): (r: seq<string>)
    ensures s != "" && s[0] != '/' ==> r != []
    ensures forall i :: 0 <= i < |r| ==> r[i] != "" && '/' !in r[i]
  {
    if s == "" then []
    else if s[0] == '/' then Components(s[1..])
    else if |s| == 1 || s[1] == '/' then [[s[0]]] + Components(s[1..])
    else
      var r := Components(s[1..]);
      [[s[0]] + r[0]] + r[1..]
  }

  function Path(components: seq<string>): string {
    if components == [] then "" else "/" + components[0] + Path(components[1..])
  }

  /** The one absolute path with these components. */
  function Rooted(components: seq<string>): string {
    if components == [] then "/" else Path(components)
  }

  lemma {:induction false} ComponentsOfSqueezed(s: string)
    ensures Components(Squeeze(s)) == Components(s)
  {
    if |s| >= 2 {
      ComponentsOfSqueezed(s[1..]);
      if !(s[0] == '/' && s[1] == '/') {
        assert Squeeze(s)[1..] == Squeeze(s[1..]);
      }
    }
  }

  /** Components of two pieces, with a slash between them. */
  lemma {:induction false} ComponentsOfBoth(a: string, b: string)
    ensures Components(a + "/" + b) == Components(a) + Components(b)
  {
    var s := a + "/" + b;
    if a == "" {
      assert s[1..] == b;
    } else {
      assert s[1..] == a[1..] + "/" + b;
      ComponentsOfBoth(a[1..], b);
    }
  }

  /** No two slashes in a row. */
  ghost predicate Single(s: string) {
    forall i :: 0 <= i < |s| - 1 ==> !(s[i] == '/' && s[i + 1] == '/')
  }

  lemma {:induction false} SqueezedIsSingle(s: string)
    ensures Single(Squeeze(s))
  {
    if |s| >= 2 {
      SqueezedIsSingle(s[1..]);
      var r, t := Squeeze(s), Squeeze(s[1..]);
      if r != t {
        forall i | 0 <= i < |r| - 1
          ensures !(r[i] == '/' && r[i + 1] == '/')
        {
          assert i > 0 ==> r[i] == t[i - 1] && r[i + 1] == t[i];
        }
      }
    }
  }

  /** A path in normal form is the path of its components. */
  lemma {:induction false} NormalForm(s: string)
    requires s != "" && Single(s) && s[|s| - 1] != '/'
    ensures Components(s) != [] && Path(Components(s)) == if s[0] == '/' then s else "/" + s
  {
    if |s| > 1 {
      var t := s[1..];
      assert Single(t) by {
        forall i | 0 <= i < |t| - 1
          ensures !(t[i] == '/' && t[i + 1] == '/')
        {
          assert t[i] == s[i + 1] && t[i + 1] == s[i + 2];
        }
      }
      NormalForm(t);
      NormalStep(s);
    } else {
      assert s[1..] == "" && [s[0]] == s && Components("") == [];
      assert [s][1..] == [];
    }
  }

  lemma NormalStep(s: string)
    requires |s| > 1 && !(s[0] == '/' && s[1] == '/') && Components(s[1..]) != []
    requires Path(Components(s[1..])) == if s[1] == '/' then s[1..] else "/" + s[1..]
    ensures Components(s) != [] && Path(Components(s)) == if s[0] == '/' then s else "/" + s
  {
    hide Path;
    var t, r := s[1..], Components(s[1..]);
    ComponentsStep(s);
    hide Components;
    assert [s[0]] + t == s;
    if s[0] == '/' {
    } else if s[1] == '/' {
      PathOf([s[0]], r);
      assert "/" + [s[0]] + t == "/" + ([s[0]] + t);
    } else {
      PathOf(r[0], r[1..]);
      assert [r[0]] + r[1..] == r;
      PathOf([s[0]] + r[0], r[1..]);
      CharInFront(s[0], r[0], Path(r[1..]), t);
    }
  }

  lemma ComponentsStep(s: string)
    requires |s| > 1
    ensures var r := Components(s[1..]);
            Components(s) == if s[0] == '/' then r
                             else if s[1] == '/' || r == [] then [[s[0]]] + r
                             else [[s[0]] + r[0]] + r[1..]
  {
  }

  lemma PathOf(c: string, cs: seq<string>)
    ensures Path([c] + cs) == "/" + c + Path(cs)
  {
    assert ([c] + cs)[1..] == cs;
  }

  lemma CharInFront(c: char, first: string, rest: string, t: string)
    requires "/" + first + rest == "/" + t
    ensures "/" + ([c] + first) + rest == "/" + ([c] + t)
  {
    assert first + rest == t by {
      assert ("/" + first + rest)[1..] == first + rest;
      assert ("/" + t)[1..] == t;
    }
    assert "/" + ([c] + first) + rest == "/" + ([c] + (first + rest));
  }

  /** Normalising a path gives the absolute path of its components. */
  lemma NormalizeIsRooted(p: string)
    ensures Normalize(p) == Rooted(Components(p))
  {
    if p != "" {
      var absolute := if p[0] != '/' then "/" + p else p;
      LeadingSlash(p);
      ComponentsOfSqueezed(absolute);
      SqueezedIsSingle(absolute);
      TrailingSlash(Squeeze(absolute));
    }
  }

  /** A normal form starts with a slash, has no two in a row, and ends with one only if it is one. */
  lemma NormalizedShape(p: string)
    ensures var n := Normalize(p);
            && n != "" && n[0] == '/'
            && (forall i :: 0 <= i < |n| - 1 ==> !(n[i] == '/' && n[i + 1] == '/'))
            && (|n| > 1 ==> n[|n| - 1] != '/')
  {
    if p != "" {
      var s := Squeeze(if p[0] != '/' then "/" + p else p);
      SqueezedIsSingle(if p[0] != '/' then "/" + p else p);
      if |s| > 1 && s[|s| - 1] == '/' {
        assert s[|s| - 2] != '/';
        assert s[..|s| - 1][0] == s[0] && s[..|s| - 1][|s| - 2] == s[|s| - 2];
      }
    }
  }

  lemma LeadingSlash(p: string)
    ensures Components("/" + p) == Components(p)
  {
    assert ("/" + p)[1..] == p;
  }

  lemma TrailingSlash(s: string)
    requires s != "" && s[0] == '/' && Single(s)
    ensures (if |s| > 1 && s[|s| - 1] == '/' then s[..|s| - 1] else s) == Rooted(Components(s))
  {
    hide Components, Path;
    NoComponents();
    if |s| > 1 && s[|s| - 1] == '/' {
      var cut := s[..|s| - 1];
      assert s == cut + "/" + "";
      ComponentsOfBoth(cut, "");
      assert s[|s| - 2] == cut[|cut| - 1];
      assert Components(cut) + [] == Components(cut);
      NormalForm(cut);
    } else if |s| > 1 {
      NormalForm(s);
    } else {
      assert s == "/";
    }
  }

  lemma NoComponents()
    ensures Components("") == Components("/") == []
  {
    assert "/"[1..] == "";
  }

  /** The components of the path of a list of components are that list. */
  lemma {:induction false} ComponentsOfPath(cs: seq<string>)
    requires forall i :: 0 <= i < |cs| ==> cs[i] != "" && '/' !in cs[i]
    ensures Components(Path(cs)) == cs && Components(Rooted(cs)) == cs
  {
    if cs == [] {
      assert Components("/"[1..]) == [];
    } else {
      ComponentsOfPath(cs[1..]);
      var s := Path(cs);
      assert s[1..] == cs[0] + Path(cs[1..]);
      ComponentThenPath(cs[0], Path(cs[1..]));
    }
  }

  lemma {:induction false} ComponentThenPath(c: string, rest: string)
    requires c != "" && '/' !in c && (rest == "" || rest[0] == '/')
    ensures Components(c + rest) == [c] + Components(rest)
  {
    var s := c + rest;
    assert s[1..] == c[1..] + rest;
    if |c| > 1 {
      ComponentThenPath(c[1..], rest);
      assert [c[0]] + c[1..] == c;
    } else {
      assert c[1..] + rest == rest && [s[0]] == c;
    }
  }

  /** Normalising keeps the components, so doing it twice changes nothing more. */
  lemma NormalizeIsIdempotent(p: string)
    ensures Components(Normalize(p)) == Components(p)
    ensures Normalize(Normalize(p)) == Normalize(p)
  {
    NormalizeIsRooted(p);
    NormalizeIsRooted(Normalize(p));
    ComponentsOfPath(Components(p));
  }

  /** Two paths have the same normal form exactly when they have the same components. */
  lemma SameNormalForm(p: string, q: string)
    ensures Normalize(p) == Normalize(q) <==> Components(p) == Components(q)
  {
    NormalizeIsRooted(p);
    NormalizeIsRooted(q);
    NormalizeIsIdempotent(p);
    NormalizeIsIdempotent(q);
  }

  // ---------- Joining ----------

  /** All components, in order. */
  function AllComponents(parts: seq<string>): seq<string> {
    if parts == [] then [] else Components(parts[0]) + AllComponents(parts[1..])
  }

  lemma {:induction false} AllOfBoth(xs: seq<string>, ys: seq<string>)
    ensures AllComponents(xs + ys) == AllComponents(xs) + AllComponents(ys)
  {
    if xs == [] {
      assert xs + ys == ys;
    } else {
      assert (xs + ys)[1..] == xs[1..] + ys;
      AllOfBoth(xs[1..], ys);
    }
  }

  lemma {:induction false} AllOfNonEmpty(parts: seq<string>)
    ensures AllComponents(NonEmpty(parts)) == AllComponents(parts)
  {
    if parts != [] {
      AllOfNonEmpty(parts[1..]);
      if parts[0] == "" {
        assert NonEmpty(parts) == NonEmpty(parts[1..]);
      } else {
        assert NonEmpty(parts)[1..] == NonEmpty(parts[1..]);
      }
    }
  }

  lemma {:induction false} ComponentsOfJoined(parts: seq<string>)
    ensures Components(JoinWithSlash(parts)) == AllComponents(parts)
  {
    if |parts| == 1 {
      assert parts[1..] == [];
    } else if |parts| > 1 {
      ComponentsOfJoined(parts[1..]);
      ComponentsOfBoth(parts[0], JoinWithSlash(parts[1..]));
    }
  }

  /** Joining concatenates the components. */
  lemma JoinIsRooted(parts: seq<string>)
    ensures Join(parts) == Rooted(AllComponents(parts))
    ensures Components(Join(parts)) == AllComponents(parts)
  {
    var joined := JoinWithSlash(NonEmpty(parts));
    NormalizeIsRooted(Squeeze(joined));
    ComponentsOfSqueezed(joined);
    ComponentsOfJoined(NonEmpty(parts));
    AllOfNonEmpty(parts);
    ComponentsOfPath(Components(joined));
  }

  /** So the parts can be joined in any grouping. */
  lemma JoinIsAssociative(xs: seq<string>, ys: seq<string>, zs: seq<string>)
    ensures Join(xs + ys) == Join([Join(xs), Join(ys)])
    ensures Join([Join([Join(xs), Join(ys)]), Join(zs)]) == Join([Join(xs), Join([Join(ys), Join(zs)])])
  {
    hide Join;
    JoinOfTwo(xs, ys);
    JoinOfTwo(ys, zs);
    JoinOfTwo(xs + ys, zs);
    JoinOfTwo(xs, ys + zs);
    assert xs + ys + zs == xs + (ys + zs);
  }

  lemma JoinOfTwo(xs: seq<string>, ys: seq<string>)
    ensures Join([Join(xs), Join(ys)]) == Join(xs + ys)
  {
    JoinIsRooted(xs);
    JoinIsRooted(ys);
    JoinIsRooted(xs + ys);
    AllOfBoth(xs, ys);
    AllOfTwo(Join(xs), Join(ys));
    JoinIsRooted([Join(xs), Join(ys)]);
  }

  lemma AllOfTwo(a: string, b: string)
    ensures AllComponents([a, b]) == Components(a) + Components(b)
  {
    assert [a, b][1..] == [b] && [b][1..] == [];
    assert AllComponents([b]) == Components(b) + AllComponents([]);
  }

  // ---------- Taking apart ----------

  lemma {:induction false} PathEnds(cs: seq<string>)
    requires cs != []
    ensures Path(cs) == Path(cs[..|cs| - 1]) + "/" + cs[|cs| - 1]
  {
    if |cs| == 1 {
      assert cs[1..] == [];
    } else {
      PathEnds(cs[1..]);
      var init := cs[..|cs| - 1];
      assert init[1..] == cs[1..][..|cs| - 2] && init[0] == cs[0];
      assert "/" + cs[0] + (Path(init[1..]) + "/" + cs[|cs| - 1]) == "/" + cs[0] + Path(init[1..]) + "/" + cs[|cs| - 1];
    }
  }

  lemma LastSlashBefore(a: string, b: string)
    requires '/' !in b
    ensures LastSlash(a + "/" + b) == |a|
  {
    var s, r := a + "/" + b, LastSlash(a + "/" + b);
    assert s[|a|] == '/' && s[|a| + 1..] == b;
  }

  /** The directory has all components but the last, which is the base name. */
  lemma DirnameAndBasename(p: string)
    ensures var cs := Components(p);
            if cs == [] then Dirname(p) == Basename(p) == "/"
            else Dirname(p) == Rooted(cs[..|cs| - 1]) && Basename(p) == cs[|cs| - 1]
  {
    var cs, n := Components(p), Normalize(p);
    NormalizeIsRooted(p);
    if cs != [] {
      var init, last := cs[..|cs| - 1], cs[|cs| - 1];
      PathEnds(cs);
      assert n == Path(init) + "/" + last;
      assert |last| > 0 && |n| > 1;
      LastSlashBefore(Path(init), last);
      assert n[..|Path(init)|] == Path(init) && n[|Path(init)| + 1..] == last;
      assert init == [] <==> Path(init) == "";
    }
  }

  /** Joining a path's directory and base name gives its normal form. */
  lemma JoinDirnameBasename(p: string)
    ensures Join([Dirname(p), Basename(p)]) == Normalize(p)
  {
    hide Dirname, Basename, Join, Normalize, Components;
    NoComponents();
    var cs := Components(p);
    DirnameAndBasename(p);
    NormalizeIsRooted(p);
    JoinIsRooted([Dirname(p), Basename(p)]);
    AllOfTwo(Dirname(p), Basename(p));
    if cs != [] {
      var init, last := cs[..|cs| - 1], cs[|cs| - 1];
      ComponentsOfPath(init);
      ComponentThenPath(last, "");
      assert last + "" == last && [last] + [] == [last] && init + [last] == cs;
    }
  }
}
