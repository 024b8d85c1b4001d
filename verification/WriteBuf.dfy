/** Handing the kernel's scattered write buffers to a handler: one copy for each buffer, or all
    of them flattened into one. Reads from a buffer's file descriptor may be short.
  */
module WriteBuf {
  import opened Basics

  const EIO := 5
  const ENOSYS := 38

  /** Where the bytes of a buffer are: in memory, if the pointer is set, or in an open file. */
  datatype Source =
    | Memory(mem: Option<seq<Byte>>)
    | Descriptor(contents: seq<Byte>, pos: nat)

  datatype Buf = Buf(size: nat, source: Source)

  /** What the caller owes: a pointer that is set points at `size` bytes. */
  ghost predicate WellFormed(bufs: seq<Buf>) {
    forall i :: 0 <= i < |bufs| && bufs[i].source.Memory? && bufs[i].source.mem.Some? ==>
      |bufs[i].source.mem.value| >= bufs[i].size
  }

  /** Its bytes are all there. */
  predicate Readable(b: Buf) {
    b.size == 0 || match b.source
                   case Memory(mem) => mem.Some? && |mem.value| >= b.size
                   case Descriptor(contents, pos) => pos + b.size <= |contents|
  }

  function Bytes(b: Buf): (r: seq<Byte>)
    requires Readable(b)
    ensures |r| == b.size
  {
    if b.size == 0 then []
    else
      match b.source
      case Memory(mem) => mem.value[..b.size]
      case Descriptor(contents, pos) => contents[pos..pos + b.size]
  }

  ghost predicate AllReadable(bufs: seq<Buf>) {
    forall i :: 0 <= i < |bufs| ==> Readable(bufs[i])
  }

  /** All bytes, in order. */
  function Flat(bufs: seq<Buf>): seq<Byte>
    requires AllReadable(bufs)
  {
    if bufs == [] then [] else Flat(bufs[..|bufs| - 1]) + Bytes(bufs[|bufs| - 1])
  }

  function TotalSize(bufs: seq<Buf>): nat {
    if bufs == [] then 0 else TotalSize(bufs[..|bufs| - 1]) + bufs[|bufs| - 1].size
  }

  lemma {:induction false} FlatLength(bufs: seq<Buf>)
    requires AllReadable(bufs)
    ensures |Flat(bufs)| == TotalSize(bufs)
  {
    if bufs != [] {
      FlatLength(bufs[..|bufs| - 1]);
    }
  }

  lemma {:induction false} TotalSizeIsSum(bufs: seq<Buf>)
    ensures TotalSize(bufs) == Sum(seq(|bufs|, i requires 0 <= i < |bufs| => bufs[i].size))
  {
    var sizes := seq(|bufs|, i requires 0 <= i < |bufs| => bufs[i].size);
    if bufs != [] {
      var init := bufs[..|bufs| - 1];
      TotalSizeIsSum(init);
      assert sizes[..|sizes| - 1] == seq(|init|, i requires 0 <= i < |init| => init[i].size);
    }
  }

  /** The bytes of buffer `j`, from memory or from its file, come after those of the buffers
      before it. */
  ghost predicate InPlace(bufs: seq<Buf>, j: nat, bytes: seq<Byte>)
    requires j < |bufs| && bufs[j].size > 0
  {
    var b, o := bufs[j], TotalSize(bufs[..j]);
    && o + b.size <= |bytes|
    && (b.source.Memory? ==>
          b.source.mem.Some? && |b.source.mem.value| >= b.size && bytes[o..o + b.size] == b.source.mem.value[..b.size])
    && (b.source.Descriptor? ==>
          b.source.pos + b.size <= |b.source.contents|
          && bytes[o..o + b.size] == b.source.contents[b.source.pos..b.source.pos + b.size])
  }

  lemma {:induction false} FlatInPlace(bufs: seq<Buf>, j: nat)
    requires AllReadable(bufs) && j < |bufs| && bufs[j].size > 0
    ensures InPlace(bufs, j, Flat(bufs))
  {
    var init, last := bufs[..|bufs| - 1], bufs[|bufs| - 1];
    assert Readable(last);
    FlatLength(init);
    assert Flat(bufs) == Flat(init) + Bytes(last);
    hide Flat, Readable;
    if j < |bufs| - 1 {
      FlatInPlace(init, j);
      StaysInPlace(bufs, j, Flat(init), Bytes(last));
    } else {
      assert bufs[..j] == init;
      LastInPlace(bufs, Flat(init));
    }
  }

  lemma StaysInPlace(bufs: seq<Buf>, j: nat, bytes: seq<Byte>, more: seq<Byte>)
    requires j < |bufs| - 1 && bufs[j].size > 0 && InPlace(bufs[..|bufs| - 1], j, bytes)
    ensures InPlace(bufs, j, bytes + more)
  {
    assert bufs[..|bufs| - 1][..j] == bufs[..j];
    var o := TotalSize(bufs[..j]);
    assert (bytes + more)[o..o + bufs[j].size] == bytes[o..o + bufs[j].size];
  }

  lemma LastInPlace(bufs: seq<Buf>, bytes: seq<Byte>)
    requires bufs != [] && bufs[|bufs| - 1].size > 0 && Readable(bufs[|bufs| - 1])
    requires |bytes| == TotalSize(bufs[..|bufs| - 1])
    ensures InPlace(bufs, |bufs| - 1, bytes + Bytes(bufs[|bufs| - 1]))
  {
    var last := bufs[|bufs| - 1];
    assert (bytes + Bytes(last))[|bytes|..|bytes| + last.size] == Bytes(last);
  }

  lemma EachInPlace(bufs: seq<Buf>)
    requires AllReadable(bufs)
    ensures forall j :: 0 <= j < |bufs| && bufs[j].size > 0 ==> InPlace(bufs, j, Flat(bufs))
  {
    forall j | 0 <= j < |bufs| && bufs[j].size > 0
      ensures InPlace(bufs, j, Flat(bufs))
    {
      FlatInPlace(bufs, j);
    }
  }

  /** Nothing else is needed: a pointer that is set, or a file that is long enough. */
  predicate IsThere(b: Buf) {
    if b.source.Memory? then b.source.mem.Some? else b.source.pos + b.size <= |b.source.contents|
  }

  lemma ReadableMeans(bufs: seq<Buf>)
    requires WellFormed(bufs)
    ensures AllReadable(bufs) <==> forall j :: 0 <= j < |bufs| && bufs[j].size > 0 ==> IsThere(bufs[j])
  {
    assert forall j :: 0 <= j < |bufs| ==> (Readable(bufs[j]) <==> bufs[j].size == 0 || IsThere(bufs[j]));
  }

  lemma FlatStep(bufs: seq<Buf>, i: nat)
    requires i < |bufs| && AllReadable(bufs[..i + 1])
    ensures AllReadable(bufs[..i]) && Flat(bufs[..i + 1]) == Flat(bufs[..i]) + Bytes(bufs[i])
  {
    assert bufs[..i + 1][..i] == bufs[..i];
    forall j | 0 <= j < i
      ensures Readable(bufs[..i][j])
    {
      assert bufs[..i][j] == bufs[..i + 1][j];
    }
  }

  /** How the copies of the buffers make up the same bytes. */
  function Join(copies: seq<seq<Byte>>): seq<Byte> {
    if copies == [] then [] else Join(copies[..|copies| - 1]) + copies[|copies| - 1]
  }

  lemma {:induction false} CopiesAreFlat(bufs: seq<Buf>, copies: seq<seq<Byte>>)
    requires AllReadable(bufs) && |copies| == |bufs|
    requires forall i :: 0 <= i < |bufs| ==> copies[i] == Bytes(bufs[i])
    ensures Join(copies) == Flat(bufs)
  {
    if bufs != [] {
      CopiesAreFlat(bufs[..|bufs| - 1], copies[..|bufs| - 1]);
    }
  }

  datatype Outcome =
    | Replied(code: int)                         // an error reply; no handler is called
    | DispatchedBuffers(copies: seq<seq<Byte>>)  // to the WRITE_BUF handler
    | DispatchedLinear(linear: seq<Byte>)        // to the WRITE handler

  ghost predicate HasDescriptor(bufs: seq<Buf>) {
    exists i :: 0 <= i < |bufs| && bufs[i].source.Descriptor?
  }

  /** The handler that a vector can go to: a vector with a descriptor needs the WRITE handler. */
  ghost predicate HasTaker(bufs: seq<Buf>, hasWriteBuf: bool, hasWrite: bool) {
    hasWrite || (hasWriteBuf && !HasDescriptor(bufs))
  }

  /** The answer to a vector while reads fail at the end of a file only. */
  ghost function Answer(bufs: seq<Buf>, hasWriteBuf: bool, hasWrite: bool): Outcome {
    if !hasWriteBuf && !hasWrite then Replied(ENOSYS)
    else if !AllReadable(bufs) then Replied(EIO)
    else if !HasTaker(bufs, hasWriteBuf, hasWrite) then Replied(ENOSYS)
    else if hasWriteBuf && !HasDescriptor(bufs) then
      DispatchedBuffers(seq(|bufs|, i requires 0 <= i < |bufs| => Bytes(bufs[i])))
    else DispatchedLinear(Flat(bufs))
  }

  ghost predicate Delivered(outcome: Outcome) {
    !outcome.Replied?
  }

  function Payload(outcome: Outcome): seq<Byte>
    requires !outcome.Replied?
  {
    if outcome.DispatchedLinear? then outcome.linear else Join(outcome.copies)
  }

  /** A vector is delivered exactly when it is readable and somebody takes it; what arrives is
      then all its bytes, whoever takes it. Else the code says what was missing. */
  lemma DeliveredExactly(bufs: seq<Buf>, hasWriteBuf: bool, hasWrite: bool)
    ensures var r := Answer(bufs, hasWriteBuf, hasWrite);
            && (Delivered(r) <==> AllReadable(bufs) && HasTaker(bufs, hasWriteBuf, hasWrite))
            && (Delivered(r) ==> Payload(r) == Flat(bufs) && |Payload(r)| == TotalSize(bufs))
            && (r == Replied(EIO) <==> (hasWriteBuf || hasWrite) && !AllReadable(bufs))
            && (r == Replied(ENOSYS) <==> !HasTaker(bufs, hasWriteBuf, hasWrite) && (AllReadable(bufs) || !hasWriteBuf))
  {
    var r := Answer(bufs, hasWriteBuf, hasWrite);
    if Delivered(r) {
      FlatLength(bufs);
      if r.DispatchedBuffers? {
        CopiesAreFlat(bufs, r.copies);
      }
    }
  }

  /** Only a WRITE_BUF handler, and one byte in a file: although a handler is there and the byte
      can be read, the answer is ENOSYS. The same byte in memory is delivered. */
  lemma DescriptorNeedsTheWriteHandler(x: Byte)
    ensures Answer([Buf(1, Descriptor([x], 0))], true, false) == Replied(ENOSYS)
    ensures Delivered(Answer([Buf(1, Memory(Some([x])))], true, false))
  {
    assert [Buf(1, Descriptor([x], 0))][0].source.Descriptor?;
    DeliveredExactly([Buf(1, Memory(Some([x])))], true, false);
  }

  lemma AnswerInPlace(bufs: seq<Buf>, hasWriteBuf: bool, hasWrite: bool)
    requires WellFormed(bufs)
    ensures var r := Answer(bufs, hasWriteBuf, hasWrite);
            && (Delivered(r) <==> AllReadable(bufs) && HasTaker(bufs, hasWriteBuf, hasWrite))
            && (Delivered(r) ==> Payload(r) == Flat(bufs) && |Payload(r)| == TotalSize(bufs))
            && (Delivered(r) ==> forall j :: 0 <= j < |bufs| && bufs[j].size > 0 ==> InPlace(bufs, j, Payload(r)))
            && (!Delivered(r) ==> r.code in {EIO, ENOSYS})
            && (r == Replied(EIO) <==> (hasWriteBuf || hasWrite) && !AllReadable(bufs))
    ensures AllReadable(bufs) <==> forall j :: 0 <= j < |bufs| && bufs[j].size > 0 ==> IsThere(bufs[j])
  {
    DeliveredExactly(bufs, hasWriteBuf, hasWrite);
    ReadableMeans(bufs);
    if AllReadable(bufs) {
      EachInPlace(bufs);
    }
  }

  lemma CopiesInPlace(bufs: seq<Buf>, hasWriteBuf: bool, hasWrite: bool)
    requires WellFormed(bufs)
    ensures var r := Answer(bufs, hasWriteBuf, hasWrite);
            r.DispatchedBuffers? ==> |r.copies| == |bufs| && forall j :: 0 <= j < |bufs| ==>
              if bufs[j].size == 0 then r.copies[j] == []
              else bufs[j].source.Memory? && bufs[j].source.mem.Some?
                   && |bufs[j].source.mem.value| >= bufs[j].size
                   && r.copies[j] == bufs[j].source.mem.value[..bufs[j].size]
  {
  }

  class System {
    const reliable: bool   // reads fail at or after the end of the file only

    constructor (reliable: bool)
      ensures this.reliable == reliable
    {
      this.reliable := reliable;
    }

    /** `pread`: some of the bytes, none at the end of the file, or a failure. */
    method Pread(contents: seq<Byte>, n: nat, offset: nat) returns (r: int, got: seq<Byte>)
      requires n > 0
      ensures r <= n && (r > 0 ==> offset + r <= |contents| && got == contents[offset..offset + r])
      ensures reliable && offset < |contents| ==> r > 0
    {
      var fails: bool := *;
      if offset >= |contents| || (fails && !reliable) {
        r, got := if fails then -1 else 0, [];
      } else {
        r :| 0 < r <= n && offset + r <= |contents|;
        got := contents[offset..offset + r];
      }
    }

    /** The inner loop: fill `sz` bytes from a file, over as many reads as it takes. */
    method Fill(contents: seq<Byte>, pos: nat, sz: nat) returns (ok: bool, bytes: seq<Byte>)
      ensures ok ==> pos + sz <= |contents| || sz == 0
      ensures ok && sz > 0 ==> bytes == contents[pos..pos + sz]
      ensures ok && sz == 0 ==> bytes == []
      ensures reliable && pos + sz <= |contents| ==> ok
    {
      bytes := [];
      var done := 0;
      while done < sz
        invariant done <= sz && (done > 0 ==> pos + done <= |contents|)
        invariant bytes == if done > 0 then contents[pos..pos + done] else []
      {
        var r, got := Pread(contents, sz - done, pos + done);
        if r <= 0 {
          return false, bytes;
        }
        bytes := bytes + got;
        done := done + r;
      }
      ok := true;
    }

    /** The fallback: everything in one piece, or an error and nothing dispatched. */
    method Linearise(bufs: seq<Buf>) returns (outcome: Outcome)
      requires WellFormed(bufs)
      ensures outcome.DispatchedLinear? || outcome == Replied(EIO)
      ensures outcome.DispatchedLinear? ==> AllReadable(bufs) && outcome.linear == Flat(bufs)
      ensures AllReadable(bufs) && reliable ==> outcome.DispatchedLinear?
      ensures outcome.DispatchedLinear? ==> |outcome.linear| == TotalSize(bufs)
      ensures outcome.DispatchedLinear? ==>
                forall j :: 0 <= j < |bufs| && bufs[j].size > 0 ==> InPlace(bufs, j, outcome.linear)
    {
      hide InPlace, TotalSize, Flat, AllReadable, WellFormed;
      outcome := Gather(bufs);
      if outcome.DispatchedLinear? {
        FlatLength(bufs);
        EachInPlace(bufs);
      }
    }

    /** Its loop. */
    method Gather(bufs: seq<Buf>) returns (outcome: Outcome)
      requires WellFormed(bufs)
      ensures outcome.DispatchedLinear? || outcome == Replied(EIO)
      ensures outcome.DispatchedLinear? ==> AllReadable(bufs) && outcome.linear == Flat(bufs)
      ensures AllReadable(bufs) && reliable ==> outcome.DispatchedLinear?
    {
      var linear: seq<Byte> := [];
      for i := 0 to |bufs|
        invariant AllReadable(bufs[..i]) && linear == Flat(bufs[..i])
      {
        var b := bufs[i];
        if b.size > 0 {
          match b.source
          case Descriptor(contents, pos) =>
            var ok, bytes := Fill(contents, pos, b.size);
            if !ok {
              return Replied(EIO);
            }
            linear := linear + bytes;
          case Memory(mem) =>
            if mem.None? {
              return Replied(EIO);
            }
            linear := linear + mem.value[..b.size];
        }
        FlatStep(bufs, i);
      }
      assert bufs[..|bufs|] == bufs;
      outcome := DispatchedLinear(linear);
    }

    /** A copy of each buffer; none of them is in a file. */
    method CopyBuffers(bufs: seq<Buf>) returns (outcome: Outcome)
      requires WellFormed(bufs) && forall i :: 0 <= i < |bufs| ==> bufs[i].source.Memory?
      ensures outcome.DispatchedBuffers? || outcome == Replied(EIO)
      ensures outcome.DispatchedBuffers? <==> AllReadable(bufs)
      ensures outcome.DispatchedBuffers? ==>
                |outcome.copies| == |bufs| && forall i :: 0 <= i < |bufs| ==> outcome.copies[i] == Bytes(bufs[i])
      // a buffer without bytes has an empty copy, any other the bytes at its pointer
      ensures outcome.DispatchedBuffers? ==> forall j :: 0 <= j < |bufs| ==>
                if bufs[j].size == 0 then outcome.copies[j] == []
                else bufs[j].source.mem.Some? && outcome.copies[j] == bufs[j].source.mem.value[..bufs[j].size]
      ensures outcome == Replied(EIO) <==> exists j :: 0 <= j < |bufs| && bufs[j].size > 0 && bufs[j].source.mem.None?
    {
      var copies: seq<seq<Byte>> := [];
      for i := 0 to |bufs|
        invariant |copies| == i
        invariant forall j :: 0 <= j < i ==> Readable(bufs[j]) && copies[j] == Bytes(bufs[j])
      {
        if bufs[i].size > 0 {
          if bufs[i].source.mem.None? {
            assert !Readable(bufs[i]);
            return Replied(EIO);
          }
          copies := copies + [bufs[i].source.mem.value[..bufs[i].size]];
        } else {
          copies := copies + [[]];
        }
      }
      outcome := DispatchedBuffers(copies);
    }

    /** `ProcessRequest` with the flattened bytes: refused unless there is a WRITE handler. */
    method DispatchWrite(linear: seq<Byte>, hasWrite: bool) returns (outcome: Outcome)
      ensures outcome == if hasWrite then DispatchedLinear(linear) else Replied(ENOSYS)
    {
      if !hasWrite {
        return Replied(ENOSYS);
      }
      outcome := DispatchedLinear(linear);
    }

    /** The answer is the one above; a read that fails early can only turn it into EIO, and only
        for a vector that goes through the fallback. */
    method AnswerWriteBuf(bufs: seq<Buf>, hasWriteBuf: bool, hasWrite: bool) returns (outcome: Outcome)
      requires WellFormed(bufs)
      ensures reliable ==> outcome == Answer(bufs, hasWriteBuf, hasWrite)
      ensures outcome == Answer(bufs, hasWriteBuf, hasWrite) || outcome == Replied(EIO)
      ensures !hasWriteBuf && !hasWrite ==> outcome == Replied(ENOSYS)
      ensures hasWriteBuf && !HasDescriptor(bufs) ==> outcome == Answer(bufs, hasWriteBuf, hasWrite)
      ensures Delivered(outcome) ==>
                && AllReadable(bufs) && HasTaker(bufs, hasWriteBuf, hasWrite)
                && Payload(outcome) == Flat(bufs) && |Payload(outcome)| == TotalSize(bufs)
      ensures outcome.DispatchedBuffers? ==> hasWriteBuf && forall i :: 0 <= i < |bufs| ==> bufs[i].source.Memory?
      ensures outcome.DispatchedLinear? ==> hasWrite && (hasWriteBuf ==> HasDescriptor(bufs))
    {
      DeliveredExactly(bufs, hasWriteBuf, hasWrite);
      if !hasWriteBuf && !hasWrite {
        return Replied(ENOSYS);
      }
      var containsFd := false;
      for i := 0 to |bufs|
        invariant !containsFd
        invariant forall j :: 0 <= j < i ==> bufs[j].source.Memory?
      {
        if bufs[i].source.Descriptor? {
          containsFd := true;
          break;
        }
      }
      assert containsFd <==> HasDescriptor(bufs);
      if hasWriteBuf && !containsFd {
        outcome := CopyBuffers(bufs);
        if outcome.DispatchedBuffers? {
          assert outcome.copies == Answer(bufs, hasWriteBuf, hasWrite).copies;
        }
        return;
      }
      outcome := Linearise(bufs);
      if outcome.DispatchedLinear? {
        outcome := DispatchWrite(outcome.linear, hasWrite);
      }
    }

    /** What comes of a vector, in terms of the buffers themselves. */
    method HandleWriteBuf(bufs: seq<Buf>, hasWriteBuf: bool, hasWrite: bool) returns (outcome: Outcome)
      requires WellFormed(bufs)
      ensures reliable ==> outcome == Answer(bufs, hasWriteBuf, hasWrite)
      ensures outcome == Answer(bufs, hasWriteBuf, hasWrite) || outcome == Replied(EIO)
      ensures Delivered(outcome) ==> |Payload(outcome)| == TotalSize(bufs)
      // the bytes of each buffer, from memory or from its file, after those of the buffers before it
      ensures Delivered(outcome) ==> forall j :: 0 <= j < |bufs| && bufs[j].size > 0 ==>
                var b, bytes, o := bufs[j], Payload(outcome), TotalSize(bufs[..j]);
                && o + b.size <= |bytes|
                && (b.source.Memory? ==>
                      b.source.mem.Some? && |b.source.mem.value| >= b.size && bytes[o..o + b.size] == b.source.mem.value[..b.size])
                && (b.source.Descriptor? ==>
                      b.source.pos + b.size <= |b.source.contents|
                      && bytes[o..o + b.size] == b.source.contents[b.source.pos..b.source.pos + b.size])
      ensures outcome.DispatchedBuffers? ==> |outcome.copies| == |bufs| && forall j :: 0 <= j < |bufs| ==>
                if bufs[j].size == 0 then outcome.copies[j] == []
                else bufs[j].source.Memory? && bufs[j].source.mem.Some?
                     && |bufs[j].source.mem.value| >= bufs[j].size
                     && outcome.copies[j] == bufs[j].source.mem.value[..bufs[j].size]
      // delivered exactly when all bytes are there and somebody takes them; else why not
      ensures reliable ==>
                (Delivered(outcome) <==>
                   && (hasWrite || (hasWriteBuf && forall j :: 0 <= j < |bufs| ==> bufs[j].source.Memory?))
                   && forall j :: 0 <= j < |bufs| && bufs[j].size > 0 ==>
                        if bufs[j].source.Memory? then bufs[j].source.mem.Some?
                        else bufs[j].source.pos + bufs[j].size <= |bufs[j].source.contents|)
      ensures !Delivered(outcome) ==> outcome.code in {EIO, ENOSYS}
      ensures reliable && (hasWriteBuf || hasWrite) ==>
                (outcome == Replied(EIO) <==>
                   exists j :: 0 <= j < |bufs| && bufs[j].size > 0
                               && if bufs[j].source.Memory? then bufs[j].source.mem.None?
                                  else bufs[j].source.pos + bufs[j].size > |bufs[j].source.contents|)
      ensures outcome.DispatchedBuffers? ==> hasWriteBuf && forall i :: 0 <= i < |bufs| ==> bufs[i].source.Memory?
      ensures outcome.DispatchedLinear? ==> hasWrite && (hasWriteBuf ==> HasDescriptor(bufs))
    {
      hide Answer, AllReadable, Flat, WellFormed;
      outcome := AnswerWriteBuf(bufs, hasWriteBuf, hasWrite);
      AnswerInPlace(bufs, hasWriteBuf, hasWrite);
      CopiesInPlace(bufs, hasWriteBuf, hasWrite);
    }
  }
}
