/** Copying a range of one open file into another, by the kernel or in chunks. System calls
    are methods that may do whatever their contracts allow: every pattern of short reads and
    writes, failures at any point, and finitely many interruptions.
  */
module CopyFileRange {
  import opened Basics

  const MIN_CHUNK_SIZE := 0x1_0000
  const MAX_CHUNK_SIZE := 0x80_0000
  const DEFAULT_CHUNK_SIZE := 0x40_0000

  const EINTR := 4
  const ENOMEM := 12
  const ENOSPC := 28
  const EXDEV := 18
  const ENOSYS := 38
  const EOPNOTSUPP := 95

  // ---------- Contents ----------

  /** `bytes` stored at `at`; a gap behind the old end reads as zeros. Storing nothing, or
      before the start of the file, changes nothing. */
  function Stored(s: seq<Byte>, at: int, bytes: seq<Byte>): (r: seq<Byte>) {
    if bytes == [] || at < 0 then s
    else
      seq(Max(|s|, at + |bytes|),
          i requires 0 <= i < Max(|s|, at + |bytes|) =>
            if at <= i < at + |bytes| then bytes[i - at] else if i < |s| then s[i] else 0)
  }

  /** The number of bytes from `at` to the end. */
  function Left(s: seq<Byte>, at: int): nat {
    if at < 0 || at >= |s| then 0 else |s| - at
  }

  /** The bytes from `at`, at most `n` of them. */
  function Slice(s: seq<Byte>, at: int, n: nat): (r: seq<Byte>)
    ensures |r| == Min(n, Left(s, at))
  {
    seq(Min(n, Left(s, at)), i requires 0 <= i < Min(n, Left(s, at)) => s[at + i])
  }

  /** `Stored` changes the written range and nothing else. */
  lemma StoredBytes(s: seq<Byte>, at: nat, bytes: seq<Byte>, i: nat)
    requires bytes != []
    ensures |Stored(s, at, bytes)| == if |s| < at + |bytes| then at + |bytes| else |s|
    ensures i < |Stored(s, at, bytes)| ==>
              Stored(s, at, bytes)[i] == if at <= i < at + |bytes| then bytes[i - at] else if i < |s| then s[i] else 0
  {
  }

  /** Two adjacent stores are one. */
  lemma StoredTwice(s: seq<Byte>, at: int, a: seq<Byte>, b: seq<Byte>)
    requires at >= 0
    ensures Stored(Stored(s, at, a), at + |a|, b) == Stored(s, at, a + b)
  {
    hide Stored;
    StoredNothing(s, at, a);
    StoredNothing(Stored(s, at, a), at + |a|, b);
    if a == [] {
      assert a + b == b;
    } else if b == [] {
      assert a + b == a;
    } else {
      StoredBothParts(s, at, a, b);
    }
  }

  lemma StoredNothing(s: seq<Byte>, at: int, bytes: seq<Byte>)
    ensures bytes == [] ==> Stored(s, at, bytes) == s
  {
  }

  lemma StoredBothParts(s: seq<Byte>, at: nat, a: seq<Byte>, b: seq<Byte>)
    requires a != [] && b != []
    ensures Stored(Stored(s, at, a), at + |a|, b) == Stored(s, at, a + b)
  {
    hide Stored;
    var l, r := Stored(Stored(s, at, a), at + |a|, b), Stored(s, at, a + b);
    StoredBytes(s, at, a, 0);
    StoredBytes(Stored(s, at, a), at + |a|, b, 0);
    StoredBytes(s, at, a + b, 0);
    forall i | 0 <= i < |r|
      ensures l[i] == r[i]
    {
      StoredTwiceAt(s, at, a, b, i);
    }
  }

  lemma StoredTwiceAt(s: seq<Byte>, at: nat, a: seq<Byte>, b: seq<Byte>, i: nat)
    requires a != [] && b != []
    requires i < |Stored(s, at, a + b)| && i < |Stored(Stored(s, at, a), at + |a|, b)|
    ensures Stored(Stored(s, at, a), at + |a|, b)[i] == Stored(s, at, a + b)[i]
  {
    var x, c := Stored(s, at, a), a + b;
    StoredBytes(s, at, c, i);
    StoredBytes(x, at + |a|, b, i);
    if at + |a| <= i < at + |a| + |b| {
      assert c[i - at] == b[i - (at + |a|)];
    } else if i < |x| {
      StoredBytes(s, at, a, i);
      assert at <= i < at + |a| ==> c[i - at] == a[i - at];
    }
  }

  /** Two adjacent slices are one. */
  lemma SliceTwice(s: seq<Byte>, at: int, n: nat, m: nat)
    requires |Slice(s, at, n)| == n
    ensures Slice(s, at, n) + Slice(s, at + n, m) == Slice(s, at, n + m)
  {
  }

  lemma SlicePrefix(s: seq<Byte>, at: int, n: nat, m: nat)
    requires m <= n && |Slice(s, at, n)| == n
    ensures Slice(s, at, n)[..m] == Slice(s, at, m)
  {
  }

  /** One more write of consecutive bytes. */
  lemma WriteStep(s: seq<Byte>, at: int, bytes: seq<Byte>, i: nat, j: nat)
    requires i <= j <= |bytes| && at >= 0
    ensures Stored(Stored(s, at, bytes[..i]), at + i, bytes[i..j]) == Stored(s, at, bytes[..j])
  {
    StoredTwice(s, at, bytes[..i], bytes[i..j]);
    assert bytes[..i] + bytes[i..j] == bytes[..j];
  }

  /** One more chunk of the source. */
  lemma ChunkStep(s: seq<Byte>, at: int, src: seq<Byte>, from: int, n: nat, m: nat)
    requires at >= 0 && |Slice(src, from, n)| == n && |Slice(src, from + n, m)| == m
    ensures Stored(Stored(s, at, Slice(src, from, n)), at + n, Slice(src, from + n, m)) == Stored(s, at, Slice(src, from, n + m))
    ensures |Slice(src, from, n + m)| == n + m
  {
    StoredTwice(s, at, Slice(src, from, n), Slice(src, from + n, m));
    SliceTwice(src, from, n, m);
  }

  /** `now` is `was` with the first `n` bytes of the source range stored over it. */
  ghost predicate Copied(was: seq<Byte>, at: int, src: seq<Byte>, from: int, n: nat, now: seq<Byte>) {
    && |Slice(src, from, n)| == n
    && (n > 0 ==> at >= 0)
    && now == Stored(was, at, Slice(src, from, n))
  }

  /** A copy followed by the copy of the next `n` bytes is one copy. */
  lemma CopiedTwice(was: seq<Byte>, before: seq<Byte>, now: seq<Byte>, at: int, src: seq<Byte>, from: int, total: nat, n: nat)
    requires Copied(was, at, src, from, total, before)
    requires Copied(before, at + total, src, from + total, n, now)
    ensures Copied(was, at, src, from, total + n, now)
  {
    SliceTwice(src, from, total, n);
    if n == 0 {
      assert Slice(src, from + total, n) == [];
    } else {
      ChunkStep(was, at, src, from, total, n);
    }
  }

  /** A copy stays within the source; what follows it there. */
  lemma CopiedWithin(was: seq<Byte>, at: int, src: seq<Byte>, from: int, total: nat, now: seq<Byte>, n: nat)
    requires Copied(was, at, src, from, total, now)
    ensures total <= Left(src, from)
    ensures total + |Slice(src, from + total, n)| == Min(total + n, Left(src, from))
  {
  }

  lemma NothingCopied(s: seq<Byte>, at: int, src: seq<Byte>, from: int)
    ensures Copied(s, at, src, from, 0, s)
  {
    assert Slice(src, from, 0) == [];
  }

  lemma CopiedNothing(was: seq<Byte>, at: int, src: seq<Byte>, from: int, now: seq<Byte>)
    requires Copied(was, at, src, from, 0, now)
    ensures now == was
  {
    assert Slice(src, from, 0) == [];
  }

  /** Byte for byte: `n` bytes of the source are in the destination, which is as long as it has to
      be, has its old bytes everywhere else, and zeros in a gap behind its old end. */
  predicate BytesCopied(was: seq<Byte>, at: int, src: seq<Byte>, from: int, n: nat, now: seq<Byte>) {
    if n == 0 then now == was
    else
      && at >= 0 && from >= 0 && from + n <= |src| && |now| == Max(|was|, at + n)
      && now[at..at + n] == src[from..from + n]
      && (forall i :: 0 <= i < |was| && !(at <= i < at + n) ==> now[i] == was[i])
      && (forall i :: |was| <= i < at ==> now[i] == 0)
  }

  lemma CopiedByteForByte(was: seq<Byte>, at: int, src: seq<Byte>, from: int, n: nat, now: seq<Byte>)
    requires Copied(was, at, src, from, n, now)
    ensures BytesCopied(was, at, src, from, n, now)
  {
    if n > 0 {
      var bytes := Slice(src, from, n);
      assert src[from..from + n] == bytes && now[at..at + n] == bytes;
    } else {
      CopiedNothing(was, at, src, from, now);
    }
  }

  lemma LeftMeans(s: seq<Byte>, at: int)
    ensures Left(s, at) == if 0 <= at < |s| then |s| - at else 0
  {
  }

  lemma NoBytesCopied(s: seq<Byte>, at: int, src: seq<Byte>, from: int)
    ensures BytesCopied(s, at, src, from, 0, s)
  {
  }

  // ---------- System calls ----------

  class File {
    var data: seq<Byte>
    var pos: nat

    constructor (data: seq<Byte>)
      ensures this.data == data && pos == 0
    {
      this.data, pos := data, 0;
    }
  }

  /** The offset at which a call works: an explicit one, or the file position. */
  function Where(offset: Option<int>, pos: nat): int {
    if offset.Some? then offset.value else pos
  }

  /** What a call does to the file position. */
  function Moved(offset: Option<int>, pos: nat, n: nat): nat {
    if offset.Some? then pos else pos + n
  }

  function Advanced(offset: Option<int>, n: nat): Option<int> {
    if offset.Some? then Some(offset.value + n) else None
  }

  /** The number of bytes that a call's result reports. */
  function Count(r: int): nat {
    if r < 0 then 0 else r
  }

  /** One call of `copy_file_range`: its result, and its errno if it was refused. */
  datatype KernelCopy = KernelCopy(result: int, refusal: int)

  /** The kernel, and what may go wrong in it. `steady` calls fail only when the destination's
      device is full, or are interrupted; `eager` reads are short only at the end of the file.
      The ghost fields record what did go wrong. */
  class Kernel {
    var errno: int
    var interrupts: nat      // how often it will still interrupt a write
    var room: nat            // what a steady device still takes
    const eager: bool
    const steady: bool
    ghost var early: bool    // some read was short before the end of the file
    ghost var failed: bool   // some call failed for good, or wrote nothing
    ghost var copies: seq<KernelCopy>   // the calls of `copy_file_range`

    constructor (interrupts: nat, room: nat, eager: bool, steady: bool)
      ensures this.interrupts == interrupts && this.room == room && this.eager == eager && this.steady == steady
      ensures !early && !failed && copies == []
    {
      errno := 0;
      this.interrupts, this.room := interrupts, room;
      this.eager, this.steady := eager, steady;
      early, failed, copies := false, false, [];
    }

    /** `aligned_alloc`. */
    method Allocate(n: nat) returns (buffer: array?<Byte>)
      modifies `failed
      ensures buffer != null ==> fresh(buffer) && buffer.Length == n
      ensures failed == (old(failed) || buffer == null) && (steady ==> buffer != null)
    {
      var fails: bool := *;
      if fails && !steady {
        failed := true;
        return null;
      }
      buffer := new Byte[n];
    }

    /** `pread` with an offset, `read` without: up to `n` bytes to the start of the buffer. */
    method Read(f: File, buffer: array<Byte>, n: nat, offset: Option<int>) returns (r: int)
      requires 0 < n <= buffer.Length
      modifies this`errno, this`early, this`failed, buffer, f`pos
      ensures -1 <= r <= n
      ensures r >= 0 ==> buffer[..r] == Slice(f.data, Where(offset, old(f.pos)), r)
      ensures r == 0 ==> Slice(f.data, Where(offset, old(f.pos)), n) == []
      ensures r >= 0 && eager ==> r == |Slice(f.data, Where(offset, old(f.pos)), n)|
      ensures r >= 0 ==> f.pos == Moved(offset, old(f.pos), r)
      ensures r < 0 ==> f.pos == old(f.pos)
      ensures steady && Where(offset, old(f.pos)) >= 0 ==> r >= 0
      ensures failed == (old(failed) || r < 0)
      ensures early == (old(early) || 0 <= r < |Slice(f.data, Where(offset, old(f.pos)), n)|)
    {
      var at := Where(offset, f.pos);
      var fails: bool := *;
      if (fails && !steady) || at < 0 {
        errno := *;
        failed := true;
        return -1;
      }
      var got := Slice(f.data, at, n);
      r := |got|;
      if r > 0 && !eager {
        r :| 1 <= r <= |got|;
      }
      forall i | 0 <= i < r {
        buffer[i] := got[i];
      }
      f.pos := Moved(offset, f.pos, r);
      early := early || r < |got|;
    }

    /** `pwrite` or `write` of up to `n` bytes of the buffer, from `start` on. */
    method Write(f: File, buffer: array<Byte>, start: nat, n: nat, offset: Option<int>) returns (r: int)
      requires 0 < n && start + n <= buffer.Length
      modifies this`errno, this`interrupts, this`room, this`failed, f
      ensures -1 <= r <= n
      ensures r >= 0 ==> Where(offset, old(f.pos)) >= 0
      ensures r >= 0 ==> f.data == Stored(old(f.data), Where(offset, old(f.pos)), buffer[start..start + r])
      ensures r >= 0 ==> f.pos == Moved(offset, old(f.pos), r)
      ensures r < 0 ==> f.data == old(f.data) && f.pos == old(f.pos)
      ensures r < 0 && errno == EINTR ==> interrupts < old(interrupts)
      ensures interrupts <= old(interrupts)
      ensures steady && Where(offset, old(f.pos)) >= 0 ==>
                if r < 0 then room == old(room) && (errno == EINTR || room == 0)
                else r > 0 && room == old(room) - r
      ensures failed == (old(failed) || r == 0 || (r < 0 && errno != EINTR))
    {
      var at := Where(offset, f.pos);
      var fails: bool := *;
      if interrupts > 0 && fails {
        errno, interrupts := EINTR, interrupts - 1;
        return -1;
      }
      fails := *;
      if at < 0 || (steady && room == 0) || (!steady && fails) {
        errno := *;
        if steady || errno == EINTR {
          errno := ENOSPC;
        }
        failed := true;
        return -1;
      }
      if steady {
        r :| 1 <= r <= n && r <= room;
        room := room - r;
      } else {
        r :| 0 <= r <= n;
      }
      f.data := Stored(f.data, at, buffer[start..start + r]);
      f.pos := Moved(offset, f.pos, r);
      failed := failed || r == 0;
    }

    /** The `copy_file_range` call: it copies as many bytes as it likes, or none and fails. */
    method CopyFileRange(fIn: File, offsetIn: Option<int>, fOut: File, offsetOut: Option<int>, n: nat)
        returns (r: int, newIn: Option<int>, newOut: Option<int>)
      requires fIn != fOut
      modifies this`errno, this`copies, fIn`pos, fOut
      ensures -1 <= r <= n
      ensures r < 0 ==> errno != 0
      ensures copies == old(copies) + [KernelCopy(r, if r < 0 then errno else 0)]
      ensures Copied(old(fOut.data), Where(offsetOut, old(fOut.pos)), fIn.data, Where(offsetIn, old(fIn.pos)), Count(r), fOut.data)
      ensures fIn.pos == Moved(offsetIn, old(fIn.pos), Count(r)) && fOut.pos == Moved(offsetOut, old(fOut.pos), Count(r))
      ensures newIn == Advanced(offsetIn, Count(r)) && newOut == Advanced(offsetOut, Count(r))
    {
      var from, at := Where(offsetIn, fIn.pos), Where(offsetOut, fOut.pos);
      NothingCopied(fOut.data, at, fIn.data, from);
      var fails: bool := *;
      if fails || from < 0 || at < 0 {
        errno := *;
        if errno == 0 {
          errno := ENOSYS;
        }
        copies := copies + [KernelCopy(-1, errno)];
        return -1, offsetIn, offsetOut;
      }
      var available := Min(n, Left(fIn.data, from));
      r :| 0 <= r <= available;
      copies := copies + [KernelCopy(r, 0)];
      fOut.data := Stored(fOut.data, at, Slice(fIn.data, from, r));
      fIn.pos, fOut.pos := Moved(offsetIn, fIn.pos, r), Moved(offsetOut, fOut.pos, r);
      newIn, newOut := Advanced(offsetIn, r), Advanced(offsetOut, r);
    }
  }

  // ---------- The copier ----------

  /** What a copy did, besides its result: whether it left its loop normally, how many bytes
      it stored, and how many it took from the source. */
  datatype Trace = Trace(finished: bool, stored: nat, taken: nat)

  /** The size of a chunk: no more than asked for, within the configured bound. */
  function ActualChunkSize(length: nat, chunkSize: nat): nat {
    Min(Max(length, MIN_CHUNK_SIZE), chunkSize)
  }

  /** What a copy reports of `room` bytes stored before a failure: the whole chunks, if any. */
  function Reported(room: nat, chunk: nat): int
    requires chunk > 0
  {
    if room < chunk then -1 else room / chunk * chunk
  }

  lemma ReportedOf(room: nat, chunk: nat)
    requires chunk > 0
    ensures Reported(room, chunk) == if room / chunk * chunk > 0 then room / chunk * chunk else -1
  {
    if room < chunk {
      QuotientIsUnique(room, 0, room, chunk);
    } else {
      assert room == chunk * (room / chunk) + room % chunk;
    }
  }

  /** The largest multiple of the chunk within the room, or an error if that is none; a chunk is the
      configured one, or the length if that is less, but never less than the smallest. */
  lemma ReportedMeans(room: nat, length: nat, chunkSize: nat)
    requires chunkSize >= MIN_CHUNK_SIZE
    ensures var c, r := ActualChunkSize(length, chunkSize), Reported(room, ActualChunkSize(length, chunkSize));
            && c == (if length >= chunkSize then chunkSize else if length < MIN_CHUNK_SIZE then MIN_CHUNK_SIZE else length)
            && (room < c ==> r == -1) && (room >= c ==> r > 0 && r % c == 0 && r <= room < r + c)
  {
    var c := ActualChunkSize(length, chunkSize);
    ReportedOf(room, c);
    assert room == c * (room / c) + room % c;
    if room >= c {
      QuotientIsUnique(room / c * c, room / c, 0, c);
    } else {
      QuotientIsUnique(room, 0, room, c);
    }
  }

  /** After `rounds` whole chunks, with no room for another. */
  lemma WholeChunks(rounds: nat, total: nat, room: nat, chunk: nat)
    requires chunk > 0 && total == chunk * rounds && total <= room < total + chunk
    ensures room / chunk * chunk == total
  {
    QuotientIsUnique(room, rounds, room - total, chunk);
  }

  /** Where a copy began: what the destination held, the file positions, the device's room. */
  datatype Start = Start(data: seq<Byte>, posIn: nat, posOut: nat, room: nat)

  /** Neither end is before the start of its file. */
  predicate Seekable(st: Start, offsetIn: Option<int>, offsetOut: Option<int>) {
    Where(offsetIn, st.posIn) >= 0 && Where(offsetOut, st.posOut) >= 0
  }

  /** Since then `taken` bytes were read, and the first `stored` of them written. */
  ghost predicate Since(st: Start, k: Kernel, fIn: File, offsetIn: Option<int>, fOut: File, offsetOut: Option<int>, taken: nat, stored: nat)
    reads k, fIn, fOut
  {
    && Copied(st.data, Where(offsetOut, st.posOut), fIn.data, Where(offsetIn, st.posIn), stored, fOut.data)
    && fIn.pos == Moved(offsetIn, st.posIn, taken) && fOut.pos == Moved(offsetOut, st.posOut, stored)
    && (k.steady && Seekable(st, offsetIn, offsetOut) ==> k.room == st.room - stored)
  }

  class Copier {
    var chunkSize: nat
    var useKernelCopy: bool

    ghost predicate Valid()
      reads this
    {
      MIN_CHUNK_SIZE <= chunkSize <= MAX_CHUNK_SIZE
    }

    constructor (supported: bool)
      ensures Valid() && chunkSize == DEFAULT_CHUNK_SIZE && useKernelCopy == supported
    {
      chunkSize, useKernelCopy := DEFAULT_CHUNK_SIZE, supported;
    }

    /** The nearest size in the allowed range. */
    method SetChunkSize(n: nat)
      modifies `chunkSize
      ensures Valid()
      ensures MIN_CHUNK_SIZE <= n <= MAX_CHUNK_SIZE ==> chunkSize == n
      ensures n < MIN_CHUNK_SIZE ==> chunkSize == MIN_CHUNK_SIZE
      ensures n > MAX_CHUNK_SIZE ==> chunkSize == MAX_CHUNK_SIZE
    {
      chunkSize := Min(Max(n, MIN_CHUNK_SIZE), MAX_CHUNK_SIZE);
    }

    /** The inner loop: write the first `n` bytes of the buffer, whatever it takes, unless a
        call fails for good or makes no progress. */
    method WriteAll(k: Kernel, f: File, buffer: array<Byte>, n: nat, offset: Option<int>) returns (written: nat, ok: bool)
      requires 0 < n <= buffer.Length
      modifies k`errno, k`interrupts, k`room, k`failed, f
      ensures written <= n && (ok ==> written == n)
      ensures written > 0 ==> Where(offset, old(f.pos)) >= 0
      ensures f.data == Stored(old(f.data), Where(offset, old(f.pos)), buffer[..written])
      ensures f.pos == Moved(offset, old(f.pos), written)
      ensures if ok then k.failed == old(k.failed) else k.failed
      ensures k.steady && Where(offset, old(f.pos)) >= 0 ==>
                ok == (n <= old(k.room)) && written == Min(n, old(k.room)) && k.room == old(k.room) - written
    {
      hide Stored;
      written := 0;
      ghost var bytes, at, data := buffer[..], Where(offset, f.pos), f.data;
      StoredNothing(data, at, bytes[..0]);
      while written < n
        invariant written <= n && buffer[..] == bytes
        invariant written > 0 ==> at >= 0
        invariant f.data == Stored(data, at, bytes[..written])
        invariant f.pos == Moved(offset, old(f.pos), written)
        invariant k.failed == old(k.failed)
        invariant k.steady && at >= 0 ==> k.room == old(k.room) - written && written <= old(k.room)
        decreases n - written, k.interrupts
      {
        ghost var before := f.data;
        var w := k.Write(f, buffer, written, n - written, Advanced(offset, written));
        if w == -1 {
          if k.errno == EINTR {
            continue;
          }
          assert buffer[..written] == bytes[..written];
          return written, false;
        }
        if w == 0 {
          k.errno := ENOSPC;
          StoredNothing(before, Where(offset, old(f.pos)) + written, buffer[written..written]);
          assert buffer[..written] == bytes[..written];
          return written, false;
        }
        assert buffer[written..written + w] == bytes[written..written + w];
        WriteStep(data, at, bytes, written, written + w);
        written := written + w;
      }
      ok := true;
    }

    /** One round of the outer loop: read up to `n` bytes, then write them all. */
    method CopyChunk(k: Kernel, fIn: File, offsetIn: Option<int>, fOut: File, offsetOut: Option<int>, buffer: array<Byte>, n: nat)
        returns (bytesRead: int, written: nat, ok: bool)
      requires fIn != fOut && 0 < n <= buffer.Length
      modifies k`errno, k`interrupts, k`room, k`early, k`failed, buffer, fIn`pos, fOut
      ensures -1 <= bytesRead <= n
      ensures written <= Count(bytesRead) && (ok ==> written == bytesRead > 0)
      ensures bytesRead >= 0 ==> |Slice(fIn.data, Where(offsetIn, old(fIn.pos)), bytesRead)| == bytesRead
      ensures bytesRead == 0 || (bytesRead > 0 && k.eager) ==> bytesRead == |Slice(fIn.data, Where(offsetIn, old(fIn.pos)), n)|
      ensures Copied(old(fOut.data), Where(offsetOut, old(fOut.pos)), fIn.data, Where(offsetIn, old(fIn.pos)), written, fOut.data)
      ensures fIn.pos == Moved(offsetIn, old(fIn.pos), Count(bytesRead)) && fOut.pos == Moved(offsetOut, old(fOut.pos), written)
      // it fails only with a call, and is short of the source only with a read
      ensures if bytesRead == 0 || ok then k.failed == old(k.failed) else k.failed
      ensures k.early == (old(k.early) || 0 <= bytesRead < |Slice(fIn.data, Where(offsetIn, old(fIn.pos)), n)|)
      ensures k.steady && Where(offsetIn, old(fIn.pos)) >= 0 && Where(offsetOut, old(fOut.pos)) >= 0 ==>
                && bytesRead >= 0 && ok == (0 < bytesRead <= old(k.room))
                && written == Min(bytesRead, old(k.room)) && k.room == old(k.room) - written
    {
      bytesRead := k.Read(fIn, buffer, n, offsetIn);
      if bytesRead <= 0 {
        return bytesRead, 0, false;
      }
      ghost var bytes := buffer[..bytesRead];
      written, ok := WriteAll(k, fOut, buffer, bytesRead, offsetOut);
      assert buffer[..written] == bytes[..written];
      SlicePrefix(fIn.data, Where(offsetIn, old(fIn.pos)), bytesRead, written);
    }

    /** The round after `total` bytes. */
    method CopyNext(k: Kernel, fIn: File, offsetIn: Option<int>, fOut: File, offsetOut: Option<int>, buffer: array<Byte>, n: nat,
                    total: nat, ghost st: Start)
        returns (bytesRead: int, written: nat, ok: bool)
      requires fIn != fOut && 0 < n <= buffer.Length
      requires Since(st, k, fIn, offsetIn, fOut, offsetOut, total, total)
      modifies k`errno, k`interrupts, k`room, k`early, k`failed, buffer, fIn`pos, fOut
      ensures -1 <= bytesRead <= n && written <= Count(bytesRead) && (ok ==> written == bytesRead > 0)
      ensures Since(st, k, fIn, offsetIn, fOut, offsetOut, total + Count(bytesRead), total + written)
      ensures if bytesRead == 0 || ok then k.failed == old(k.failed) else k.failed
      ensures total <= Left(fIn.data, Where(offsetIn, st.posIn))
      ensures bytesRead >= 0 ==> total + bytesRead <= Min(total + n, Left(fIn.data, Where(offsetIn, st.posIn)))
      ensures bytesRead == 0 ==> total == Min(total + n, Left(fIn.data, Where(offsetIn, st.posIn)))
      ensures k.early == (old(k.early) || total <= total + bytesRead < Min(total + n, Left(fIn.data, Where(offsetIn, st.posIn))))
      ensures k.eager ==> k.early == old(k.early)
      ensures k.steady && Seekable(st, offsetIn, offsetOut) ==>
                && bytesRead >= 0 && ok == (0 < bytesRead <= old(k.room)) && written == Min(bytesRead, old(k.room))
    {
      hide Copied, Stored, Slice;
      ghost var before, at, from := fOut.data, Where(offsetOut, st.posOut), Where(offsetIn, st.posIn);
      CopiedWithin(st.data, at, fIn.data, from, total, before, n);
      bytesRead, written, ok := CopyChunk(k, fIn, Advanced(offsetIn, total), fOut, Advanced(offsetOut, total), buffer, n);
      assert Copied(before, at + total, fIn.data, from + total, written, fOut.data);
      CopiedTwice(st.data, before, fOut.data, at, fIn.data, from, total, written);
    }

    /** The outer loop. */
    method CopyChunks(k: Kernel, fIn: File, offsetIn: Option<int>, fOut: File, offsetOut: Option<int>,
                      buffer: array<Byte>, actualChunkSize: nat, length: nat, ghost st: Start)
        returns (total: nat, finished: bool, ghost t: Trace)
      requires fIn != fOut && 0 < actualChunkSize <= buffer.Length
      requires Since(st, k, fIn, offsetIn, fOut, offsetOut, 0, 0) && st.room == k.room
      modifies k`errno, k`interrupts, k`room, k`early, k`failed, buffer, fIn`pos, fOut
      ensures Since(st, k, fIn, offsetIn, fOut, offsetOut, t.taken, t.stored)
      ensures finished == t.finished && (finished ==> total == t.stored == t.taken)
      ensures total <= t.stored <= t.taken <= length && t.taken <= total + actualChunkSize
      ensures if finished then k.failed == old(k.failed) else k.failed
      ensures finished && !old(k.early) ==> (total == Min(length, Left(fIn.data, Where(offsetIn, st.posIn))) <==> !k.early)
      ensures k.eager ==> k.early == old(k.early)
      ensures k.steady && Seekable(st, offsetIn, offsetOut) ==>
                if finished then t.stored <= st.room
                else t.stored == st.room && total == st.room / actualChunkSize * actualChunkSize
      ensures k.steady && Seekable(st, offsetIn, offsetOut) && !finished ==>
                st.room < Min(length, Left(fIn.data, Where(offsetIn, st.posIn)))
    {
      hide Since, Seekable, Left, Where;
      total := 0;
      ghost var rounds: nat := 0;
      while total < length
        invariant total <= length && (total == length || total == actualChunkSize * rounds)
        invariant Since(st, k, fIn, offsetIn, fOut, offsetOut, total, total)
        invariant k.failed == old(k.failed) && k.early == old(k.early)
        invariant k.steady && Seekable(st, offsetIn, offsetOut) ==> k.room == st.room - total
        invariant total <= Left(fIn.data, Where(offsetIn, st.posIn))
        decreases length - total
      {
        var chunkToCopy := Min(length - total, actualChunkSize);
        ghost var room := k.room;
        var bytesRead, written, ok := CopyNext(k, fIn, offsetIn, fOut, offsetOut, buffer, chunkToCopy, total, st);
        if bytesRead == 0 {
          break;
        }
        if !ok {
          if k.steady && Seekable(st, offsetIn, offsetOut) {
            WholeChunks(rounds, total, st.room, actualChunkSize);
          }
          return total, false, Trace(false, total + written, total + Count(bytesRead));
        }
        RoomLeft(st, k, fIn, offsetIn, fOut, offsetOut, total + bytesRead);
        total, rounds := total + bytesRead, rounds + 1;
        if bytesRead < chunkToCopy {
          break;
        }
      }
      finished, t := true, Trace(true, total, total);
    }

    lemma RoomLeft(st: Start, k: Kernel, fIn: File, offsetIn: Option<int>, fOut: File, offsetOut: Option<int>, stored: nat)
      requires Since(st, k, fIn, offsetIn, fOut, offsetOut, stored, stored)
      ensures k.steady && Seekable(st, offsetIn, offsetOut) ==> k.room == st.room - stored
    {
    }

    /** Allocate the buffer, and copy. */
    method CopyThroughBuffer(k: Kernel, fIn: File, offsetIn: Option<int>, fOut: File, offsetOut: Option<int>,
                             actualChunkSize: nat, length: nat, ghost st: Start)
        returns (r: int, finished: bool, ghost t: Trace)
      requires fIn != fOut && 0 < actualChunkSize && 0 < length
      requires Since(st, k, fIn, offsetIn, fOut, offsetOut, 0, 0) && st.room == k.room
      modifies k`errno, k`interrupts, k`room, k`early, k`failed, fIn`pos, fOut
      ensures Since(st, k, fIn, offsetIn, fOut, offsetOut, t.taken, t.stored)
      ensures finished == t.finished && (if finished then r == t.stored == t.taken else r != 0)
      ensures -1 <= r && Count(r) <= t.stored <= t.taken <= length && t.taken <= Count(r) + actualChunkSize
      ensures if finished then k.failed == old(k.failed) else k.failed
      ensures finished && !old(k.early) ==> (r == Min(length, Left(fIn.data, Where(offsetIn, st.posIn))) <==> !k.early)
      ensures k.eager ==> k.early == old(k.early)
      ensures k.steady && Seekable(st, offsetIn, offsetOut) ==>
                if finished then t.stored <= st.room else t.stored == st.room && r == Reported(st.room, actualChunkSize)
      ensures k.steady && Seekable(st, offsetIn, offsetOut) && !finished ==>
                st.room < Min(length, Left(fIn.data, Where(offsetIn, st.posIn)))
    {
      hide Copied, Stored, Slice, Left, Reported;
      var buffer := k.Allocate((actualChunkSize + 4095) / 4096 * 4096);
      if buffer == null {
        k.errno := ENOMEM;
        return -1, false, Trace(false, 0, 0);
      }
      var total;
      total, finished, t := CopyChunks(k, fIn, offsetIn, fOut, offsetOut, buffer, actualChunkSize, length, st);
      if !finished {
        ReportedOf(st.room, actualChunkSize);
      }
      r := if finished || total > 0 then total else -1;
    }

    /** `offsetIn` and `offsetOut` are the caller's offset variables, or none; `newIn` and
        `newOut` are their values on return. */
    method ChunkedCopyFileRange(k: Kernel, fIn: File, offsetIn: Option<int>, fOut: File, offsetOut: Option<int>, length: nat)
        returns (r: int, newIn: Option<int>, newOut: Option<int>, ghost t: Trace)
      requires Valid() && fIn != fOut
      modifies k`errno, k`interrupts, k`room, k`early, k`failed, fIn`pos, fOut
      // the bytes stored are the bytes of the source, and nothing else changes
      ensures Copied(old(fOut.data), Where(offsetOut, old(fOut.pos)), fIn.data, Where(offsetIn, old(fIn.pos)), t.stored, fOut.data)
      ensures fIn.pos == Moved(offsetIn, old(fIn.pos), t.taken) && fOut.pos == Moved(offsetOut, old(fOut.pos), t.stored)
      ensures -1 <= r && Count(r) <= t.stored <= t.taken <= length && t.taken <= Count(r) + chunkSize
      ensures BytesCopied(old(fOut.data), if offsetOut.Some? then offsetOut.value else old(fOut.pos),
                          fIn.data, if offsetIn.Some? then offsetIn.value else old(fIn.pos), t.stored, fOut.data)
      ensures fIn.pos == if offsetIn.Some? then old(fIn.pos) else old(fIn.pos) + t.taken
      ensures fOut.pos == if offsetOut.Some? then old(fOut.pos) else old(fOut.pos) + t.stored
      // it ends normally exactly when no call failed for good
      ensures if t.finished then k.failed == old(k.failed) else k.failed
      // a normal end reports exactly what was done, in the result and in both cursors
      ensures t.finished ==> r == t.stored == t.taken
      ensures t.finished ==> newIn == Advanced(offsetIn, r) && newOut == Advanced(offsetOut, r)
      ensures t.finished ==> newIn == (if offsetIn.Some? then Some(offsetIn.value + r) else None)
                             && newOut == (if offsetOut.Some? then Some(offsetOut.value + r) else None)
      // a failure reports whole chunks only, and leaves the caller's offsets alone, so that a
      // positive count and the offsets agree exactly after a normal end
      ensures !t.finished ==> newIn == offsetIn && newOut == offsetOut && r != 0
      ensures r > 0 && offsetIn.Some? ==> (newIn == Advanced(offsetIn, r) <==> t.finished)
      ensures r > 0 && offsetOut.Some? ==> (newOut == Advanced(offsetOut, r) <==> t.finished)
      // the copy is complete exactly when no read was short before the end of the file
      ensures t.finished && !old(k.early) ==>
                var from := if offsetIn.Some? then offsetIn.value else old(fIn.pos);
                (r == Min(length, if 0 <= from < |fIn.data| then |fIn.data| - from else 0) <==> !k.early)
      ensures k.eager ==> k.early == old(k.early)
      // with steady calls, it fails only when the device fills up: then all its room is used,
      // and the whole chunks in it are reported
      ensures k.steady && Where(offsetIn, old(fIn.pos)) >= 0 && Where(offsetOut, old(fOut.pos)) >= 0 ==>
                if t.finished then t.stored <= old(k.room)
                else
                  var c := if length >= chunkSize then chunkSize else if length < MIN_CHUNK_SIZE then MIN_CHUNK_SIZE else length;
                  && t.stored == old(k.room)
                  && (old(k.room) < c ==> r == -1) && (old(k.room) >= c ==> r > 0 && r % c == 0 && r <= old(k.room) < r + c)
      ensures k.steady && k.eager && Where(offsetIn, old(fIn.pos)) >= 0 && Where(offsetOut, old(fOut.pos)) >= 0 && !old(k.early) ==>
                var from := if offsetIn.Some? then offsetIn.value else old(fIn.pos);
                (t.finished <==> Min(length, if 0 <= from < |fIn.data| then |fIn.data| - from else 0) <= old(k.room))
    {
      hide Copied, Stored, Slice, Left, Reported, ActualChunkSize, BytesCopied;
      ghost var st := Start(fOut.data, fIn.pos, fOut.pos, k.room);
      NothingCopied(fOut.data, Where(offsetOut, fOut.pos), fIn.data, Where(offsetIn, fIn.pos));
      NoBytesCopied(fOut.data, Where(offsetOut, fOut.pos), fIn.data, Where(offsetIn, fIn.pos));
      if length == 0 {
        return 0, offsetIn, offsetOut, Trace(true, 0, 0);
      }
      newIn, newOut := offsetIn, offsetOut;
      ReportedMeans(k.room, length, chunkSize);
      LeftMeans(fIn.data, Where(offsetIn, fIn.pos));
      var finished;
      r, finished, t := CopyThroughBuffer(k, fIn, offsetIn, fOut, offsetOut, ActualChunkSize(length, chunkSize), length, st);
      CopiedByteForByte(old(fOut.data), Where(offsetOut, old(fOut.pos)), fIn.data, Where(offsetIn, old(fIn.pos)), t.stored, fOut.data);
      if finished {
        newIn, newOut := Advanced(offsetIn, r), Advanced(offsetOut, r);
      }
    }

    /** One call of the kernel; two refusals switch it off. `done` unless the fallback is to copy. */
    method AskKernel(k: Kernel, fIn: File, offsetIn: Option<int>, fOut: File, offsetOut: Option<int>, length: nat)
        returns (done: bool, r: int, newIn: Option<int>, newOut: Option<int>, ghost kernelErrno: int)
      requires fIn != fOut && useKernelCopy
      modifies this`useKernelCopy, k`errno, k`copies, fIn`pos, fOut
      ensures k.copies == old(k.copies) + [KernelCopy(r, kernelErrno)]
      ensures -1 <= r <= length && (kernelErrno == 0 <==> r >= 0) && (kernelErrno != 0 ==> k.errno == kernelErrno)
      ensures done <==> kernelErrno !in {ENOSYS, EOPNOTSUPP, EXDEV}
      ensures useKernelCopy <==> kernelErrno !in {ENOSYS, EOPNOTSUPP}
      ensures Copied(old(fOut.data), Where(offsetOut, old(fOut.pos)), fIn.data, Where(offsetIn, old(fIn.pos)), Count(r), fOut.data)
      ensures BytesCopied(old(fOut.data), Where(offsetOut, old(fOut.pos)), fIn.data, Where(offsetIn, old(fIn.pos)), Count(r), fOut.data)
      ensures fIn.pos == Moved(offsetIn, old(fIn.pos), Count(r)) && fOut.pos == Moved(offsetOut, old(fOut.pos), Count(r))
      ensures newIn == Advanced(offsetIn, Count(r)) && newOut == Advanced(offsetOut, Count(r))
      ensures kernelErrno != 0 ==> fOut.data == old(fOut.data)
    {
      hide Copied, Stored, Slice, BytesCopied;
      r, newIn, newOut := k.CopyFileRange(fIn, offsetIn, fOut, offsetOut, length);
      kernelErrno := if r < 0 then k.errno else 0;
      CopiedByteForByte(old(fOut.data), Where(offsetOut, old(fOut.pos)), fIn.data, Where(offsetIn, old(fIn.pos)), Count(r), fOut.data);
      done := r >= 0 || (k.errno != ENOSYS && k.errno != EOPNOTSUPP && k.errno != EXDEV);
      if r < 0 {
        CopiedNothing(old(fOut.data), Where(offsetOut, old(fOut.pos)), fIn.data, Where(offsetIn, old(fIn.pos)), fOut.data);
        if k.errno == ENOSYS || k.errno == EOPNOTSUPP {
          useKernelCopy := false;
        }
      }
    }

    /** By the kernel where it can, else in chunks. `kernelErrno` is the kernel's refusal, or 0. The
        kernel is asked once, exactly if it has not been given up; what it copies is the result. */
    method CopyFileRange(k: Kernel, fIn: File, offsetIn: Option<int>, fOut: File, offsetOut: Option<int>, length: nat)
        returns (r: int, newIn: Option<int>, newOut: Option<int>, ghost t: Trace, ghost kernelErrno: int)
      requires Valid() && fIn != fOut
      modifies this`useKernelCopy, k`errno, k`interrupts, k`room, k`early, k`failed, k`copies, fIn`pos, fOut
      // the kernel is tried first
      ensures if length > 0 && old(useKernelCopy)
              then exists c: KernelCopy :: k.copies == old(k.copies) + [c] && c.refusal == kernelErrno && (kernelErrno == 0 ==> r == c.result)
              else k.copies == old(k.copies) && kernelErrno == 0
      ensures length > 0 && old(useKernelCopy) && kernelErrno == 0 ==>
                t.finished && k.early == old(k.early) && k.room == old(k.room) && k.interrupts == old(k.interrupts)
      ensures Copied(old(fOut.data), Where(offsetOut, old(fOut.pos)), fIn.data, Where(offsetIn, old(fIn.pos)), t.stored, fOut.data)
      ensures fIn.pos == Moved(offsetIn, old(fIn.pos), t.taken) && fOut.pos == Moved(offsetOut, old(fOut.pos), t.stored)
      ensures BytesCopied(old(fOut.data), if offsetOut.Some? then offsetOut.value else old(fOut.pos),
                          fIn.data, if offsetIn.Some? then offsetIn.value else old(fIn.pos), t.stored, fOut.data)
      ensures -1 <= r && Count(r) <= t.stored <= t.taken <= length && t.taken <= Count(r) + chunkSize
      ensures t.finished ==> r == t.stored == t.taken && newIn == Advanced(offsetIn, r) && newOut == Advanced(offsetOut, r)
      ensures !t.finished ==> newIn == offsetIn && newOut == offsetOut && r != 0
      // only two refusals end the use of the kernel; one more is worked around; others are final
      ensures useKernelCopy <==> old(useKernelCopy) && kernelErrno !in {ENOSYS, EOPNOTSUPP}
      ensures kernelErrno != 0 ==> old(useKernelCopy)
      ensures kernelErrno !in {0, ENOSYS, EOPNOTSUPP, EXDEV} ==> r == -1 && t.stored == t.taken == 0 && k.errno == kernelErrno
      // without a final refusal, it ends normally exactly when no call of the fallback failed
      ensures kernelErrno in {0, ENOSYS, EOPNOTSUPP, EXDEV} ==> if t.finished then k.failed == old(k.failed) else k.failed
      // when the fallback copies, it is complete exactly when no read was short too early
      ensures Fallback(old(useKernelCopy), kernelErrno) && t.finished && !old(k.early) ==>
                var from := if offsetIn.Some? then offsetIn.value else old(fIn.pos);
                (r == Min(length, if 0 <= from < |fIn.data| then |fIn.data| - from else 0) <==> !k.early)
      ensures k.eager ==> k.early == old(k.early)
      ensures Fallback(old(useKernelCopy), kernelErrno) && k.steady && k.eager && !old(k.early)
              && Where(offsetIn, old(fIn.pos)) >= 0 && Where(offsetOut, old(fOut.pos)) >= 0 ==>
                var from := if offsetIn.Some? then offsetIn.value else old(fIn.pos);
                (t.finished <==> Min(length, if 0 <= from < |fIn.data| then |fIn.data| - from else 0) <= old(k.room))
    {
      hide Copied, Stored, Slice, BytesCopied, Left;
      kernelErrno := 0;
      NothingCopied(fOut.data, Where(offsetOut, fOut.pos), fIn.data, Where(offsetIn, fIn.pos));
      NoBytesCopied(fOut.data, Where(offsetOut, fOut.pos), fIn.data, Where(offsetIn, fIn.pos));
      if length == 0 {
        return 0, offsetIn, offsetOut, Trace(true, 0, 0), 0;
      }
      if useKernelCopy {
        var done;
        done, r, newIn, newOut, kernelErrno := AskKernel(k, fIn, offsetIn, fOut, offsetOut, length);
        if done {
          t := Trace(r >= 0, Count(r), Count(r));
          return;
        }
      }
      r, newIn, newOut, t := ChunkedCopyFileRange(k, fIn, offsetIn, fOut, offsetOut, length);
    }
  }

  /** The chunked copy runs when the kernel is not used, or refuses in one of three ways. */
  predicate Fallback(useKernelCopy: bool, kernelErrno: int) {
    !useKernelCopy || kernelErrno in {ENOSYS, EOPNOTSUPP, EXDEV}
  }

  /** A device that fills up in the second chunk: the call reports one chunk and no error, but
      stored one byte more, and leaves both offsets where they were. */
  method OffsetsStayAfterAPartialCopy() returns (r: int, newIn: Option<int>, newOut: Option<int>)
    ensures r == MIN_CHUNK_SIZE && newIn == Some(0) && newOut == Some(0)
  {
    var k := new Kernel(0, MIN_CHUNK_SIZE + 1, true, true);
    var copier := new Copier(false);
    copier.SetChunkSize(MIN_CHUNK_SIZE);
    var fIn := new File(seq(2 * MIN_CHUNK_SIZE, _ => 0));
    var fOut := new File([]);
    ghost var t;
    r, newIn, newOut, t := copier.ChunkedCopyFileRange(k, fIn, Some(0), fOut, Some(0), 2 * MIN_CHUNK_SIZE);
    assert t.stored == MIN_CHUNK_SIZE + 1;
  }
}
