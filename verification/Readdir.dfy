/** Packing directory entries into the kernel's buffer, and the listing the kernel puts
    together by resuming after the last entry of each page.
  */
module Readdir {

  import opened Basics

  // ---------- What a handler returns ----------

  datatype NextOffset =
    | Missing
    | OtherType
    | BigInt(value: int, lossless: bool)
    | Number(value: int)

  /** An element of the `entries` array. */
  datatype Item =
    | NotAnObject
    | Entry(named: bool, name: string, ino: nat, kind: nat, next: NextOffset)

  /** A directory entry as it goes to the kernel. */
  datatype Direntry = Direntry(name: string, ino: nat, kind: nat, next: nat)

  /** What the loop does with an element, apart from the space left. */
  datatype Step =
    | Skip
    | Fail
    | Put(entry: Direntry)

  function ReaddirStep(item: Item): Step {
    if item.NotAnObject? then Skip
    else
      match item.next
      case BigInt(value, lossless) =>
        if !lossless || value < 0 then Fail else Put(Direntry(item.name, item.ino, item.kind % 16, value))
      case Number(value) =>
        if value < 0 then Fail else Put(Direntry(item.name, item.ino, item.kind % 16, value))
      case _ => Fail
  }

  /** `position` is the index in the array, `offset` that of the request. */
  function ReaddirplusStep(item: Item, position: nat, offset: nat): Step {
    if item.NotAnObject? || !item.named then Skip
    else
      match item.next
      case BigInt(value, lossless) =>
        if !lossless || value < 0 then Fail else Put(Direntry(item.name, item.ino, item.kind, value))
      case Number(value) =>
        if value < 0 then Fail else Put(Direntry(item.name, item.ino, item.kind, value))
      case _ => Put(Direntry(item.name, item.ino, item.kind, offset + position + 1))
  }

  datatype Operation = Readdir | Readdirplus(offset: nat)

  function StepOf(op: Operation, item: Item, position: nat): Step {
    match op
    case Readdir => ReaddirStep(item)
    case Readdirplus(offset) => ReaddirplusStep(item, position, offset)
  }

  function StepsOf(op: Operation, items: seq<Item>): (r: seq<Step>)
    ensures |r| == |items|
  {
    seq(|items|, i requires 0 <= i < |items| => StepOf(op, items[i], i))
  }

  // ---------- Pages ----------

  /** The entries that a list of steps puts. */
  function Entries(steps: seq<Step>): seq<Direntry> {
    if steps == [] then []
    else Entries(steps[..|steps| - 1]) + (if steps[|steps| - 1].Put? then [steps[|steps| - 1].entry] else [])
  }

  /** The bytes of a list of entries; `enc` is how libfuse lays out one entry. */
  function Encoded(enc: Direntry -> seq<Byte>, entries: seq<Direntry>): seq<Byte> {
    if entries == [] then []
    else Encoded(enc, entries[..|entries| - 1]) + enc(entries[|entries| - 1])
  }

  /** The bytes of the entries of the first `k` steps. */
  function Packed(enc: Direntry -> seq<Byte>, steps: seq<Step>, k: nat): seq<Byte>
    requires k <= |steps|
  {
    Encoded(enc, Entries(steps[..k]))
  }

  /** A page: the entries of the first `k` steps. It has no failed step, fits the buffer, and is
      as long as possible: it ends at the end, at a failed step, or at an entry with no room. */
  ghost predicate IsPage(enc: Direntry -> seq<Byte>, steps: seq<Step>, maxSize: nat, k: nat) {
    && k <= |steps|
    && (forall i :: 0 <= i < k ==> !steps[i].Fail?)
    && |Packed(enc, steps, k)| <= maxSize
    && (k < |steps| ==>
          || steps[k].Fail?
          || (steps[k].Put? && |Packed(enc, steps, k)| + |enc(steps[k].entry)| > maxSize))
  }

  lemma OneMoreStep(enc: Direntry -> seq<Byte>, steps: seq<Step>, i: nat)
    requires i < |steps|
    ensures Entries(steps[..i + 1]) == Entries(steps[..i]) + (if steps[i].Put? then [steps[i].entry] else [])
    ensures Packed(enc, steps, i + 1) == Packed(enc, steps, i) + (if steps[i].Put? then enc(steps[i].entry) else [])
  {
    assert steps[..i + 1][..i] == steps[..i];
    var e := Entries(steps[..i + 1]);
    if steps[i].Put? {
      assert e[..|e| - 1] == Entries(steps[..i]);
    } else {
      assert e == Entries(steps[..i]);
    }
  }

  lemma NothingPacked(enc: Direntry -> seq<Byte>, steps: seq<Step>)
    ensures Packed(enc, steps, 0) == []
  {
  }

  lemma {:induction false} LaterPagesAreLonger(enc: Direntry -> seq<Byte>, steps: seq<Step>, i: nat, j: nat)
    requires i <= j <= |steps|
    ensures |Packed(enc, steps, i)| <= |Packed(enc, steps, j)|
    decreases j
  {
    if i < j {
      LaterPagesAreLonger(enc, steps, i, j - 1);
      OneMoreStep(enc, steps, j - 1);
    }
  }

  /** There is one page only. */
  lemma PageIsUnique(enc: Direntry -> seq<Byte>, steps: seq<Step>, maxSize: nat, j: nat, k: nat)
    requires IsPage(enc, steps, maxSize, j) && IsPage(enc, steps, maxSize, k)
    ensures j == k
  {
    if j != k {
      var a, b := if j < k then j else k, if j < k then k else j;
      OneMoreStep(enc, steps, a);
      LaterPagesAreLonger(enc, steps, a + 1, b);
      assert false;
    }
  }

  /** How entries follow one another in the buffer; nothing else satisfies this. */
  lemma {:induction false} EncodedOfParts(enc: Direntry -> seq<Byte>, xs: seq<Direntry>, ys: seq<Direntry>, x: Direntry)
    ensures Encoded(enc, []) == [] && Encoded(enc, [x]) == enc(x)
    ensures Encoded(enc, xs + ys) == Encoded(enc, xs) + Encoded(enc, ys)
  {
    assert [x][..0] == [];
    if ys == [] {
      assert xs + ys == xs;
    } else {
      assert (xs + ys)[..|xs + ys| - 1] == xs + ys[..|ys| - 1];
      EncodedOfParts(enc, xs, ys[..|ys| - 1], x);
    }
  }

  // ---------- What the steps do with the elements ----------

  /** The loop fails at an element exactly if it is an object (in readdirplus, one with a name)
      whose offset is negative, or lossy, or in readdir neither a number nor a big integer. */
  lemma FailsExactly(op: Operation, items: seq<Item>, i: nat)
    requires i < |items|
    ensures var x := items[i];
            StepsOf(op, items)[i].Fail? <==>
              && x.Entry? && (op.Readdirplus? ==> x.named)
              && (|| (x.next.BigInt? && !x.next.lossless)
                  || ((x.next.BigInt? || x.next.Number?) && x.next.value < 0)
                  || (op.Readdir? && (x.next.Missing? || x.next.OtherType?)))
  {
  }

  /** It passes over what is no object, and in readdirplus over what has no name. */
  lemma SkipsExactly(op: Operation, items: seq<Item>, i: nat)
    requires i < |items|
    ensures StepsOf(op, items)[i].Skip? <==> items[i].NotAnObject? || (op.Readdirplus? && !items[i].named)
  {
  }

  /** And else takes the element's own fields. */
  lemma PutsExactly(op: Operation, items: seq<Item>, i: nat)
    requires i < |items| && StepsOf(op, items)[i].Put?
    ensures var x, d := items[i], StepsOf(op, items)[i].entry;
            && x.Entry? && (op.Readdirplus? ==> x.named) && d.name == x.name && d.ino == x.ino
            && d.kind == (if op.Readdir? then x.kind % 16 else x.kind)
            && (x.next.BigInt? || x.next.Number? ==> d.next == x.next.value)
            && (x.next.Missing? || x.next.OtherType? ==> op.Readdirplus? && d.next == op.offset + i + 1)
  {
  }

  /** The positions of the elements that the first `k` steps put. */
  lemma {:induction false} TakenBy(op: Operation, items: seq<Item>, k: nat) returns (taken: seq<nat>)
    requires k <= |items| && forall i :: 0 <= i < k ==> !StepsOf(op, items)[i].Fail?
    ensures |taken| == |Entries(StepsOf(op, items)[..k])|
    ensures forall i, j :: 0 <= i < j < |taken| ==> taken[i] < taken[j]
    ensures forall j :: 0 <= j < |taken| ==>
              taken[j] < k && StepsOf(op, items)[taken[j]] == Put(Entries(StepsOf(op, items)[..k])[j])
    ensures forall i :: 0 <= i < k && i !in taken ==> StepsOf(op, items)[i].Skip?
  {
    var steps := StepsOf(op, items);
    hide StepsOf;
    if k == 0 {
      taken := [];
    } else {
      taken := TakenBy(op, items, k - 1);
      assert steps[..k][..k - 1] == steps[..k - 1];
      if steps[k - 1].Put? {
        taken := taken + [k - 1];
      }
    }
  }

  lemma {:induction false} EntriesOfParts(xs: seq<Step>, ys: seq<Step>)
    ensures Entries(xs + ys) == Entries(xs) + Entries(ys)
  {
    if ys == [] {
      assert xs + ys == xs;
    } else {
      assert (xs + ys)[..|xs + ys| - 1] == xs + ys[..|ys| - 1];
      EntriesOfParts(xs, ys[..|ys| - 1]);
    }
  }

  lemma WithoutOne(steps: seq<Step>, i: nat, k: nat)
    requires i < k <= |steps|
    ensures var rest := steps[..i] + steps[i + 1..];
            && rest[..k - 1] == steps[..i] + steps[i + 1..k]
            && steps[..k] == steps[..i] + ([steps[i]] + steps[i + 1..k])
            && (forall j :: 0 <= j < k - 1 ==> rest[j] == if j < i then steps[j] else steps[j + 1])
            && (k < |steps| ==> rest[k - 1] == steps[k])
  {
  }

  lemma SkippedEntry(steps: seq<Step>, i: nat, k: nat)
    requires i < k <= |steps| && steps[i].Skip?
    ensures Entries((steps[..i] + steps[i + 1..])[..k - 1]) == Entries(steps[..k])
  {
    WithoutOne(steps, i, k);
    var a, b := steps[..i], steps[i + 1..k];
    EntriesOfParts(a, [steps[i]] + b);
    EntriesOfParts([steps[i]], b);
    EntriesOfParts(a, b);
    assert [steps[i]][..0] == [] && Entries([steps[i]]) == [];
  }

  /** A skipped element adds nothing: without it the page is the same. */
  lemma SkippedAddsNothing(enc: Direntry -> seq<Byte>, steps: seq<Step>, i: nat, maxSize: nat, k: nat)
    requires IsPage(enc, steps, maxSize, k) && i < k && steps[i].Skip?
    ensures var rest := steps[..i] + steps[i + 1..];
            IsPage(enc, rest, maxSize, k - 1) && Packed(enc, rest, k - 1) == Packed(enc, steps, k)
  {
    WithoutOne(steps, i, k);
    SkippedEntry(steps, i, k);
    hide Entries, Encoded;
  }

  /** And so does an element that is skipped: the others do what they did, unless readdirplus
      makes up an offset from a position behind it. */
  lemma StepsWithoutOne(op: Operation, items: seq<Item>, i: nat)
    requires i < |items|
    requires op.Readdir? || forall j :: i < j < |items| ==>
               items[j].NotAnObject? || !items[j].named || items[j].next.BigInt? || items[j].next.Number?
    ensures StepsOf(op, items[..i] + items[i + 1..]) == StepsOf(op, items)[..i] + StepsOf(op, items)[i + 1..]
  {
    var rest := items[..i] + items[i + 1..];
    forall j | 0 <= j < |rest|
      ensures StepsOf(op, rest)[j] == (StepsOf(op, items)[..i] + StepsOf(op, items)[i + 1..])[j]
    {
      assert rest[j] == if j < i then items[j] else items[j + 1];
    }
  }

  const EIO := 5

  datatype Reply = Buffer(bytes: seq<Byte>) | Error(code: int)

  /** The second call of `fuse_add_direntry`, which stores an entry in the buffer. */
  method AddDirentry(buffer: array<Byte>, at: nat, bytes: seq<Byte>)
    requires at + |bytes| <= buffer.Length
    modifies buffer
    ensures buffer[..at + |bytes|] == old(buffer[..at]) + bytes
  {
    for i := 0 to |bytes|
      invariant buffer[..at + i] == old(buffer[..at]) + bytes[..i]
    {
      buffer[at + i] := bytes[i];
      assert buffer[..at + i + 1] == buffer[..at + i] + [bytes[i]];
    }
  }

  /** The packing loop: the reply is the page, or an error if the page ends at a failed step. */
  method PackPage(enc: Direntry -> seq<Byte>, op: Operation, items: seq<Item>, maxSize: nat) returns (reply: Reply, ghost k: nat)
    ensures maxSize == 0 ==> reply == Buffer([])
    ensures maxSize > 0 ==> IsPage(enc, StepsOf(op, items), maxSize, k)
    ensures maxSize > 0 ==>
              reply == if k < |items| && StepsOf(op, items)[k].Fail? then Error(EIO)
                       else Buffer(Packed(enc, StepsOf(op, items), k))
  {
    if maxSize == 0 {
      return Buffer([]), 0;
    }
    hide Packed, Entries, Encoded;
    ghost var steps := StepsOf(op, items);
    NothingPacked(enc, steps);
    var buffer := new Byte[maxSize];
    var bufferOffset: nat := 0;
    k := |items|;
    for i := 0 to |items|
      invariant k == |items|
      invariant forall j :: 0 <= j < i ==> !steps[j].Fail?
      invariant bufferOffset <= maxSize && buffer[..bufferOffset] == Packed(enc, steps, i)
    {
      var step := StepOf(op, items[i], i);
      OneMoreStep(enc, steps, i);
      if step.Skip? {
        continue;
      }
      if step.Fail? {
        return Error(EIO), i;
      }
      var need := |enc(step.entry)|;
      if need > maxSize - bufferOffset {
        k := i;
        break;
      }
      AddDirentry(buffer, bufferOffset, enc(step.entry));
      bufferOffset := bufferOffset + need;
    }
    reply := Buffer(buffer[..bufferOffset]);
  }

  /** The same in terms of the handler's elements: `k` is where the page ends, `taken` are the
      positions of the elements in it, and `entries` what they became. */
  method Pack(enc: Direntry -> seq<Byte>, op: Operation, items: seq<Item>, maxSize: nat)
      returns (reply: Reply, ghost k: nat, ghost taken: seq<nat>, ghost entries: seq<Direntry>)
    ensures maxSize == 0 ==> reply == Buffer([])
    ensures maxSize > 0 ==> IsPage(enc, StepsOf(op, items), maxSize, k)
    // an error exactly if the page ends at an object without a usable offset
    ensures maxSize > 0 ==>
              (reply == Error(EIO) <==>
                 && k < |items| && items[k].Entry? && (op.Readdirplus? ==> items[k].named)
                 && (|| (items[k].next.BigInt? && !items[k].next.lossless)
                     || ((items[k].next.BigInt? || items[k].next.Number?) && items[k].next.value < 0)
                     || (op.Readdir? && (items[k].next.Missing? || items[k].next.OtherType?))))
    // else the entries that were taken, which fit
    ensures maxSize > 0 && reply != Error(EIO) ==> reply == Buffer(Encoded(enc, entries)) && |Encoded(enc, entries)| <= maxSize
    // they are all objects before the end of the page, in order; in readdirplus, all with a name
    ensures maxSize > 0 ==>
              && |taken| == |entries|
              && (forall i, j :: 0 <= i < j < |taken| ==> taken[i] < taken[j])
              && (forall j :: 0 <= j < |taken| ==> taken[j] < k)
              && (forall i :: 0 <= i < k <= |items| && i !in taken ==>
                    items[i].NotAnObject? || (op.Readdirplus? && !items[i].named))
    // and the page ends before its end only at an error or an entry with no room
    ensures maxSize > 0 && reply != Error(EIO) && k < |items| ==>
              exists d: Direntry ::
                && |Encoded(enc, entries)| + |enc(d)| > maxSize
                && items[k].Entry? && (op.Readdirplus? ==> items[k].named) && d.name == items[k].name && d.ino == items[k].ino
                && d.kind == (if op.Readdir? then items[k].kind % 16 else items[k].kind)
                && (items[k].next.BigInt? || items[k].next.Number? ==> d.next == items[k].next.value)
                && (items[k].next.Missing? || items[k].next.OtherType? ==> op.Readdirplus? && d.next == op.offset + k + 1)
    // each with its own fields; only readdirplus makes up an offset
    ensures maxSize > 0 ==> forall j :: 0 <= j < |taken| && j < |entries| && taken[j] < |items| ==>
              var x, d := items[taken[j]], entries[j];
              && x.Entry? && (op.Readdirplus? ==> x.named) && d.name == x.name && d.ino == x.ino
              && d.kind == (if op.Readdir? then x.kind % 16 else x.kind)
              && (x.next.BigInt? || x.next.Number? ==> d.next == x.next.value)
              && (x.next.Missing? || x.next.OtherType? ==> op.Readdirplus? && d.next == op.offset + taken[j] + 1)
  {
    reply, k := PackPage(enc, op, items, maxSize);
    taken, entries := [], [];
    if maxSize > 0 {
      taken := TakenBy(op, items, k);
      entries := Entries(StepsOf(op, items)[..k]);
      if k < |items| {
        FailsExactly(op, items, k);
      }
      EachExactly(op, items);
      hide StepsOf;
    }
  }

  lemma EachExactly(op: Operation, items: seq<Item>)
    ensures forall i :: 0 <= i < |items| ==>
              (StepsOf(op, items)[i].Skip? <==> items[i].NotAnObject? || (op.Readdirplus? && !items[i].named))
    ensures forall i :: 0 <= i < |items| && StepsOf(op, items)[i].Put? ==>
              var x, d := items[i], StepsOf(op, items)[i].entry;
              && x.Entry? && (op.Readdirplus? ==> x.named) && d.name == x.name && d.ino == x.ino
              && d.kind == (if op.Readdir? then x.kind % 16 else x.kind)
              && (x.next.BigInt? || x.next.Number? ==> d.next == x.next.value)
              && (x.next.Missing? || x.next.OtherType? ==> op.Readdirplus? && d.next == op.offset + i + 1)
  {
  }

  // ---------- The listing ----------

  /** A directory whose entries can be resumed after: their offsets are positive and differ. */
  ghost predicate Resumable(dir: seq<Direntry>) {
    && (forall i :: 0 <= i < |dir| ==> dir[i].next > 0)
    && (forall i, j :: 0 <= i < j < |dir| ==> dir[i].next != dir[j].next)
  }

  /** The position after the entry with this offset, looking from `from` on. */
  function After(dir: seq<Direntry>, offset: nat, from: nat): (r: nat)
    requires from <= |dir|
    ensures r <= |dir|
    decreases |dir| - from
  {
    if from == |dir| then from else if dir[from].next == offset then from + 1 else After(dir, offset, from + 1)
  }

  function Resume(dir: seq<Direntry>, offset: nat): (r: nat)
    ensures r <= |dir|
  {
    if offset == 0 then 0 else After(dir, offset, 0)
  }

  lemma {:induction false} AfterEntry(dir: seq<Direntry>, i: nat, from: nat)
    requires Resumable(dir) && from <= i < |dir|
    ensures After(dir, dir[i].next, from) == i + 1
    decreases i - from
  {
    if from < i {
      AfterEntry(dir, i, from + 1);
    }
  }

  /** The handler's answer to a request: the entries after the offset. */
  function Answer(dir: seq<Direntry>, offset: nat): seq<Step> {
    var rest := dir[Resume(dir, offset)..];
    seq(|rest|, i requires 0 <= i < |rest| => Put(rest[i]))
  }

  function PageEnd(enc: Direntry -> seq<Byte>, entries: seq<Direntry>, maxSize: nat, k: nat): (r: nat)
    requires k <= |entries|
    ensures k <= r <= |entries|
    ensures r == k <==> k == |entries| || |Encoded(enc, entries[..k])| + |enc(entries[k])| > maxSize
    decreases |entries| - k
  {
    if k < |entries| && |Encoded(enc, entries[..k])| + |enc(entries[k])| <= maxSize then PageEnd(enc, entries, maxSize, k + 1)
    else k
  }

  lemma EncodedStep(enc: Direntry -> seq<Byte>, entries: seq<Direntry>, k: nat)
    requires k < |entries|
    ensures Encoded(enc, entries[..k + 1]) == Encoded(enc, entries[..k]) + enc(entries[k])
  {
    assert entries[..k + 1][..k] == entries[..k];
  }

  lemma {:induction false} PageEndFits(enc: Direntry -> seq<Byte>, entries: seq<Direntry>, maxSize: nat, k: nat)
    requires k <= |entries| && |Encoded(enc, entries[..k])| <= maxSize
    ensures var r := PageEnd(enc, entries, maxSize, k);
            && |Encoded(enc, entries[..r])| <= maxSize
            && (r < |entries| ==> |Encoded(enc, entries[..r])| + |enc(entries[r])| > maxSize)
            && (forall i :: k <= i < r ==> |enc(entries[i])| <= maxSize)
    decreases |entries| - k
  {
    if k < |entries| && |Encoded(enc, entries[..k])| + |enc(entries[k])| <= maxSize {
      EncodedStep(enc, entries, k);
      PageEndFits(enc, entries, maxSize, k + 1);
    }
  }

  lemma {:induction false} EntriesOfPuts(dir: seq<Direntry>, offset: nat, k: nat)
    requires k <= |Answer(dir, offset)|
    ensures Entries(Answer(dir, offset)[..k]) == dir[Resume(dir, offset)..][..k]
  {
    if k > 0 {
      EntriesOfPuts(dir, offset, k - 1);
      assert Answer(dir, offset)[..k][..k - 1] == Answer(dir, offset)[..k - 1];
    }
  }

  /** One page of the answer to a request. */
  function Page(enc: Direntry -> seq<Byte>, dir: seq<Direntry>, maxSize: nat, offset: nat): seq<Direntry> {
    var rest := dir[Resume(dir, offset)..];
    rest[..PageEnd(enc, rest, maxSize, 0)]
  }

  /** The element `item`, at `position` of its array, describes the entry. */
  predicate Describes(op: Operation, item: Item, position: nat, d: Direntry) {
    && item.Entry? && item.named && item.name == d.name && item.ino == d.ino
    && (if op.Readdir? then item.kind % 16 == d.kind else item.kind == d.kind)
    && match item.next
       case BigInt(value, lossless) => lossless && value == d.next
       case Number(value) => value == d.next
       case _ => op.Readdirplus? && d.next == op.offset + position + 1
  }

  /** The array that a handler returns for a request lists the entries after the offset. */
  predicate Lists(op: Operation, items: seq<Item>, dir: seq<Direntry>, offset: nat) {
    var rest := dir[Resume(dir, offset)..];
    && |items| == |rest|
    && (op.Readdirplus? ==> op.offset == offset)
    && forall i :: 0 <= i < |items| ==> Describes(op, items[i], i, rest[i])
  }

  /** Such an array is easily made. */
  lemma AnyDirectoryCanBeListed(op: Operation, dir: seq<Direntry>, offset: nat) returns (items: seq<Item>)
    requires if op.Readdir? then forall i :: 0 <= i < |dir| ==> dir[i].kind < 16 else op.offset == offset
    ensures Lists(op, items, dir, offset)
  {
    var rest := dir[Resume(dir, offset)..];
    items := seq(|rest|, i requires 0 <= i < |rest| => Entry(true, rest[i].name, rest[i].ino, rest[i].kind, BigInt(rest[i].next, true)));
    hide Resume;
    forall i | 0 <= i < |items|
      ensures Describes(op, items[i], i, rest[i])
    {
      assert op.Readdir? ==> rest[i] == dir[|dir| - |rest| + i];
    }
  }

  /** So the loop sees the answer. */
  lemma ListedStepsAreTheAnswer(op: Operation, items: seq<Item>, dir: seq<Direntry>, offset: nat)
    requires Lists(op, items, dir, offset)
    ensures StepsOf(op, items) == Answer(dir, offset)
  {
    var rest := dir[Resume(dir, offset)..];
    forall i | 0 <= i < |items|
      ensures StepsOf(op, items)[i] == Answer(dir, offset)[i]
    {
      assert Describes(op, items[i], i, rest[i]);
    }
  }

  /** The page is what `Pack` puts into its reply, without an error, for a handler that lists the
      entries after the offset. */
  lemma PackRepliesPage(enc: Direntry -> seq<Byte>, op: Operation, items: seq<Item>, dir: seq<Direntry>, maxSize: nat, offset: nat, k: nat)
    requires Lists(op, items, dir, offset) && IsPage(enc, StepsOf(op, items), maxSize, k)
    ensures Packed(enc, StepsOf(op, items), k) == Encoded(enc, Page(enc, dir, maxSize, offset))
    ensures k == |Page(enc, dir, maxSize, offset)| && (k < |items| ==> !StepsOf(op, items)[k].Fail?)
  {
    hide Lists, Packed, Encoded, Entries;
    ListedStepsAreTheAnswer(op, items, dir, offset);
    AnswerIsPaged(enc, dir, maxSize, offset, k);
  }

  lemma AnswerIsPaged(enc: Direntry -> seq<Byte>, dir: seq<Direntry>, maxSize: nat, offset: nat, k: nat)
    requires IsPage(enc, Answer(dir, offset), maxSize, k)
    ensures Packed(enc, Answer(dir, offset), k) == Encoded(enc, Page(enc, dir, maxSize, offset))
    ensures k == |Page(enc, dir, maxSize, offset)|
  {
    var rest := dir[Resume(dir, offset)..];
    var r := PageEnd(enc, rest, maxSize, 0);
    PageEndFits(enc, rest, maxSize, 0);
    EntriesOfPuts(dir, offset, r);
    PageIsUnique(enc, Answer(dir, offset), maxSize, k, r);
  }

  /** What the kernel reads: it asks from the start, then after the last entry of each page,
      until a page is empty. */
  function Listing(enc: Direntry -> seq<Byte>, dir: seq<Direntry>, maxSize: nat, offset: nat): (pages: seq<seq<Direntry>>)
    requires Resumable(dir)
    decreases |dir| - Resume(dir, offset)
  {
    var page := Page(enc, dir, maxSize, offset);
    if page == [] then [page]
    else
      AfterEntry(dir, Resume(dir, offset) + |page| - 1, 0);
      [page] + Listing(enc, dir, maxSize, page[|page| - 1].next)
  }

  function Flat(pages: seq<seq<Direntry>>): seq<Direntry> {
    if pages == [] then [] else pages[0] + Flat(pages[1..])
  }

  /** The first position, from `from` on, of an entry that fits no page. */
  function Stuck(enc: Direntry -> seq<Byte>, dir: seq<Direntry>, maxSize: nat, from: nat): (r: nat)
    requires from <= |dir|
    ensures from <= r <= |dir|
    ensures forall i :: from <= i < r ==> |enc(dir[i])| <= maxSize
    ensures r < |dir| ==> |enc(dir[r])| > maxSize
    decreases |dir| - from
  {
    if from == |dir| || |enc(dir[from])| > maxSize then from else Stuck(enc, dir, maxSize, from + 1)
  }

  lemma {:induction false} StuckLater(enc: Direntry -> seq<Byte>, dir: seq<Direntry>, maxSize: nat, from: nat, to: nat)
    requires from <= to <= |dir|
    requires forall i :: from <= i < to ==> |enc(dir[i])| <= maxSize
    ensures Stuck(enc, dir, maxSize, from) == Stuck(enc, dir, maxSize, to)
  {
    if from < to {
      StuckLater(enc, dir, maxSize, from, to - 1);
    }
  }

  /** One page: the next entries, all of which fit, and none only when the next does not. */
  lemma PageFits(enc: Direntry -> seq<Byte>, dir: seq<Direntry>, maxSize: nat, offset: nat)
    ensures var p, page := Resume(dir, offset), Page(enc, dir, maxSize, offset);
            && p + |page| <= |dir| && page == dir[p..p + |page|]
            && (forall i :: p <= i < p + |page| ==> |enc(dir[i])| <= maxSize)
            && (page == [] && p < |dir| ==> |enc(dir[p])| > maxSize)
  {
    hide Resume;
    var p := Resume(dir, offset);
    var rest, page := dir[p..], Page(enc, dir, maxSize, offset);
    PageEndFits(enc, rest, maxSize, 0);
    assert Encoded(enc, rest[..0]) == [];
    forall i | p <= i < p + |page|
      ensures |enc(dir[i])| <= maxSize
    {
      assert dir[i] == rest[i - p];
    }
  }

  /** The request after a page starts where the page ended. */
  lemma PageAdvances(enc: Direntry -> seq<Byte>, dir: seq<Direntry>, maxSize: nat, offset: nat)
    requires Resumable(dir)
    ensures var p, page := Resume(dir, offset), Page(enc, dir, maxSize, offset);
            && p + |page| <= |dir| && page == dir[p..p + |page|]
            && (page == [] ==> Stuck(enc, dir, maxSize, p) == p)
            && (page != [] ==> Resume(dir, page[|page| - 1].next) == p + |page|)
            && Stuck(enc, dir, maxSize, p) == Stuck(enc, dir, maxSize, p + |page|)
  {
    hide Page;
    PageFits(enc, dir, maxSize, offset);
    var p, page := Resume(dir, offset), Page(enc, dir, maxSize, offset);
    StuckLater(enc, dir, maxSize, p, p + |page|);
    if page != [] {
      AfterEntry(dir, p + |page| - 1, 0);
    }
  }

  /** A listing delivers every entry up to the first that fits no page, once and in order, and
      takes at most one page more than that. */
  lemma {:induction false} ListingDelivers(enc: Direntry -> seq<Byte>, dir: seq<Direntry>, maxSize: nat, offset: nat)
    requires Resumable(dir)
    ensures var p, q := Resume(dir, offset), Stuck(enc, dir, maxSize, Resume(dir, offset));
            && Flat(Listing(enc, dir, maxSize, offset)) == dir[p..q]
            && |Listing(enc, dir, maxSize, offset)| <= q - p + 1
    decreases |dir| - Resume(dir, offset)
  {
    hide Page, Resume, Stuck, Resumable;
    PageAdvances(enc, dir, maxSize, offset);
    var p, page := Resume(dir, offset), Page(enc, dir, maxSize, offset);
    var pages := Listing(enc, dir, maxSize, offset);
    if page == [] {
      assert Flat(pages[1..]) == [];
    } else {
      var next := page[|page| - 1].next;
      ListingDelivers(enc, dir, maxSize, next);
      assert pages == [page] + Listing(enc, dir, maxSize, next);
      assert pages[1..] == Listing(enc, dir, maxSize, next);
    }
  }

  /** The whole directory is delivered exactly when each of its entries fits a page. */
  lemma ListingIsComplete(enc: Direntry -> seq<Byte>, dir: seq<Direntry>, maxSize: nat)
    requires Resumable(dir)
    ensures Flat(Listing(enc, dir, maxSize, 0)) == dir <==> forall i :: 0 <= i < |dir| ==> |enc(dir[i])| <= maxSize
    ensures |Listing(enc, dir, maxSize, 0)| <= |dir| + 1
  {
    ListingDelivers(enc, dir, maxSize, 0);
    var q := Stuck(enc, dir, maxSize, 0);
    assert |dir[0..q]| == q;
  }
}
