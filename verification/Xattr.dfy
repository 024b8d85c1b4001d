/** Lists of extended attribute names: one buffer of NUL-terminated strings, as a handler's
    array is encoded for the kernel and as the kernel's answer is parsed.
  */
module Xattr {
  import opened Basics

  const NUL := '\0'
  const ERANGE := 34

  predicate NulFree(s: string) {
    NUL !in s
  }

  /** A name that a list can carry. */
  predicate Carried(name: string) {
    name != "" && NulFree(name)
  }

  // ---------- The format ----------

  function Encode(names: seq<string>): string {
    if names == [] then "" else Encode(names[..|names| - 1]) + names[|names| - 1] + [NUL]
  }

  /** `strnlen`: the number of characters before the first NUL, or all of them. */
  function Length(s: string): (r: nat)
    ensures r <= |s| && NulFree(s[..r])
    ensures r < |s| ==> s[r] == NUL
  {
    if s == "" || s[0] == NUL then 0
    else
      assert s[..1 + Length(s[1..])] == [s[0]] + s[1..][..Length(s[1..])];
      1 + Length(s[1..])
  }

  /** The names in a list, up to the first empty one. */
  function Names(s: string): (r: seq<string>)
    ensures forall i :: 0 <= i < |r| ==> Carried(r[i])
  {
    var n := Length(s);
    if n == 0 then [] else [s[..n]] + if n == |s| then [] else Names(s[n + 1..])
  }

  // ---------- The code ----------

  /** `buffer` is none for a null pointer; else `size` of its characters belong to the list. */
  method ParseAttributeList(buffer: Option<string>, size: nat) returns (names: seq<string>)
    requires buffer.Some? ==> size <= |buffer.value|
    ensures names == if buffer.None? then [] else Names(buffer.value[..size])
  {
    hide Length, Names;
    NoNames();
    names := [];
    if size == 0 || buffer.None? {
      return;
    }
    var list := buffer.value[..size];
    assert list[0..] == list;
    var ptr: nat := 0;
    while ptr < size
      invariant ptr <= size + 1
      invariant Names(list) == names + NamesFrom(list, ptr)
      decreases size - ptr
    {
      NextName(list, ptr);
      var rest := list[ptr..];
      var len := Length(rest);
      if len == 0 {
        break;
      }
      names := names + [rest[..len]];
      ptr := ptr + len + 1;
    }
  }

  /** The names from a position on; the position after the last name may be past the end. */
  function NamesFrom(list: string, ptr: nat): seq<string> {
    if ptr < |list| then Names(list[ptr..]) else []
  }

  lemma NoNames()
    ensures Names("") == []
  {
  }

  lemma NextName(list: string, ptr: nat)
    requires ptr < |list|
    ensures var len := Length(list[ptr..]);
            NamesFrom(list, ptr) == if len == 0 then [] else [list[ptr..][..len]] + NamesFrom(list, ptr + len + 1)
  {
    hide Length;
    var rest := list[ptr..];
    var len := Length(rest);
    assert len > 0 ==> Names(rest) == [rest[..len]] + if len == |rest| then [] else Names(rest[len + 1..]);
    if ptr + len + 1 < |list| {
      assert rest[len + 1..] == list[ptr + len + 1..];
    } else if len < |rest| {
      assert rest[len + 1..] == "" && Length("") == 0;
    }
  }

  datatype Reply = ReplySize(size: nat) | ReplyError(code: int) | ReplyBuffer(data: string)

  /** The handler's array, for a buffer of `size` characters; size 0 asks how many it takes. */
  method ListAttributes(names: seq<string>, size: nat) returns (reply: Reply)
    ensures size == 0 ==> reply == ReplySize(|Encode(names)|)
    ensures 0 < size < |Encode(names)| ==> reply == ReplyError(ERANGE)
    ensures size > 0 && size >= |Encode(names)| ==> reply == ReplyBuffer(Encode(names))
  {
    var list := "";
    for i := 0 to |names|
      invariant list == Encode(names[..i])
    {
      assert names[..i + 1][..i] == names[..i];
      list := list + names[i] + [NUL];
    }
    assert names[..|names|] == names;
    if size == 0 {
      return ReplySize(|list|);
    }
    if |list| > size {
      return ReplyError(ERANGE);
    }
    reply := ReplyBuffer(list);
  }

  predicate IsValidAttributeName(name: string) {
    if name == "" || |name| > 255 then false
    else if NUL in name then false
    else name[0] != NUL
  }

  /** A valid name is one that a list can carry, of at most 255 characters. */
  lemma ValidExactly(name: string)
    ensures IsValidAttributeName(name) <==> 1 <= |name| <= 255 && forall i :: 0 <= i < |name| ==> name[i] != NUL
  {
    assert NUL in name ==> exists i :: 0 <= i < |name| && name[i] == NUL;
  }

  /** The names of a list, from its first one on; the last may lack its NUL, and an empty one ends
      the list. Nothing else satisfies this. */
  lemma NamesOf(name: string, rest: string)
    requires name != "" && forall i :: 0 <= i < |name| ==> name[i] != NUL
    ensures Names("") == [] && Names([NUL] + rest) == []
    ensures Names(name) == [name]
    ensures Names(name + [NUL] + rest) == [name] + Names(rest)
  {
    assert NulFree(name);
    LengthOfFirst(name, rest);
    var s := name + [NUL] + rest;
    assert s[..|name|] == name && s[|name| + 1..] == rest;
    WholeLength(name);
    assert name[..|name|] == name;
  }

  lemma {:induction false} WholeLength(name: string)
    requires NulFree(name)
    ensures Length(name) == |name|
  {
    if name != "" {
      assert NulFree(name[1..]);
      WholeLength(name[1..]);
    }
  }

  // ---------- Round trips ----------

  lemma {:induction false} EncodeFront(name: string, names: seq<string>)
    ensures Encode([name] + names) == name + [NUL] + Encode(names)
  {
    var all := [name] + names;
    if names == [] {
      assert all[..|all| - 1] == [];
    } else {
      var init := names[..|names| - 1];
      assert all[..|all| - 1] == [name] + init;
      EncodeFront(name, init);
    }
  }

  lemma {:induction false} LengthOfFirst(name: string, rest: string)
    requires NulFree(name)
    ensures Length(name + [NUL] + rest) == |name|
  {
    var s := name + [NUL] + rest;
    if name != "" {
      assert s[1..] == name[1..] + [NUL] + rest;
      LengthOfFirst(name[1..], rest);
    }
  }

  lemma {:induction false} ParseEncoded(names: seq<string>)
    requires forall i :: 0 <= i < |names| ==> Carried(names[i])
    ensures Names(Encode(names)) == names
  {
    if names != [] {
      var name, rest := names[0], names[1..];
      assert names == [name] + rest;
      EncodeFront(name, rest);
      LengthOfFirst(name, Encode(rest));
      var s := Encode(names);
      assert s[..|name|] == name && s[|name| + 1..] == Encode(rest);
      ParseEncoded(rest);
    }
  }

  /** Encoding and then parsing gives the names back exactly when a list can carry each. */
  lemma EncodeThenParse(names: seq<string>)
    ensures Names(Encode(names)) == names <==> forall i :: 0 <= i < |names| ==> Carried(names[i])
  {
    if forall i :: 0 <= i < |names| ==> Carried(names[i]) {
      ParseEncoded(names);
    }
  }

  /** A list: it does not start with NUL, ends with one, and has no two in a row. */
  predicate IsList(s: string) {
    s == "" || (s[0] != NUL && s[|s| - 1] == NUL && forall i :: 0 <= i < |s| - 1 ==> !(s[i] == NUL && s[i + 1] == NUL))
  }

  lemma {:induction false} EncodeIsList(names: seq<string>)
    requires forall i :: 0 <= i < |names| ==> Carried(names[i])
    ensures IsList(Encode(names))
  {
    if names != [] {
      EncodeIsList(names[..|names| - 1]);
    }
  }

  lemma {:induction false} EncodeParsed(s: string)
    requires IsList(s)
    ensures Encode(Names(s)) == s
    decreases |s|
  {
    hide Length;
    if s != "" {
      var n := Length(s);
      RestIsList(s, n);
      var rest := s[n + 1..];
      EncodeParsed(rest);
      EncodeFront(s[..n], Names(rest));
      assert s == s[..n] + [NUL] + rest;
    }
  }

  lemma RestIsList(s: string, n: nat)
    requires IsList(s) && s != "" && n == Length(s)
    ensures 0 < n < |s| && IsList(s[n + 1..])
  {
    var rest := s[n + 1..];
    if rest != "" {
      assert rest[0] == s[n + 1] && rest[|rest| - 1] == s[|s| - 1];
      forall i | 0 <= i < |rest| - 1
        ensures !(rest[i] == NUL && rest[i + 1] == NUL)
      {
        assert rest[i] == s[n + 1 + i] && rest[i + 1] == s[n + 1 + i + 1];
      }
    }
  }

  /** Parsing and then encoding gives the bytes back exactly when they form a list. */
  lemma ParseThenEncode(s: string)
    ensures Encode(Names(s)) == s <==> IsList(s)
  {
    if IsList(s) {
      EncodeParsed(s);
    } else {
      EncodeIsList(Names(s));
    }
  }

  /** Valid names go through a list unharmed, and come back valid. */
  lemma ValidNamesSurvive(names: seq<string>)
    requires forall i :: 0 <= i < |names| ==> IsValidAttributeName(names[i])
    ensures Names(Encode(names)) == names
    ensures |Encode(names)| <= 256 * |names|
  {
    EncodeThenParse(names);
    EncodedSize(names);
  }

  lemma {:induction false} EncodedSize(names: seq<string>)
    requires forall i :: 0 <= i < |names| ==> |names[i]| <= 255
    ensures |Encode(names)| <= 256 * |names|
  {
    if names != [] {
      EncodedSize(names[..|names| - 1]);
    }
  }
}
