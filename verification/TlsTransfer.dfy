/**
  The `send` and `receive` loops of the TLS socket. Both hand the caller's whole buffer to every
  `write_some` / `read_some`, never the part still to be transferred, and stop when the byte counts add
  up to the buffer's size.
 */
module TlsTransfer {
  import opened Common

  /** One `write_some`: how many leading bytes of the buffer went out, and the error code. */
  datatype Write = Write(count: nat, error: Code)

  /** One `read_some`: the bytes that were stored at the front of the buffer, and the error code. */
  datatype Read = Read(bytes: seq<byte>, error: Code)

  /** How far a loop has come: still running, or returned with a byte count and an error code. */
  datatype Progress = Running(transferred: nat) | Returned(transferred: nat, error: Code)

  // ------------------------------------------------------------------------------------------
  // send

  /** A write puts out between one byte and the whole buffer, or fails. */
  ghost predicate ValidWrites(size: nat, writes: seq<Write>) {
    forall i :: 0 <= i < |writes| ==> writes[i].count <= size && (writes[i].count == 0 ==> writes[i].error != 0)
  }

  /** What the writes put on the wire: each one a prefix of the same buffer. */
  function Wire(buf: seq<byte>, writes: seq<Write>): seq<byte>
    requires ValidWrites(|buf|, writes)
  {
    if writes == [] then []
    else
      var n := |writes| - 1;
      Wire(buf, writes[..n]) + buf[..writes[n].count]
  }

  function Sent(writes: seq<Write>): nat {
    if writes == [] then 0 else var n := |writes| - 1; Sent(writes[..n]) + writes[n].count
  }

  /**
    The loop of `send` over the first outcomes of `write_some`: what it puts on the wire is a
    concatenation of prefixes of the buffer, and it returns without an error exactly when their lengths
    first add up to the size.
   */
  method Send(buf: seq<byte>, writes: seq<Write>) returns (progress: Progress, wire: seq<byte>, used: nat)
    requires ValidWrites(|buf|, writes)
    ensures used <= |writes|
    ensures wire == Wire(buf, writes[..used])
    ensures progress.transferred == Sent(writes[..used]) == |wire|
    ensures progress.Returned? && progress.error == 0 ==> progress.transferred == |buf|
    ensures progress.Returned? && progress.error != 0 ==> 0 < used && progress.error == writes[used - 1].error
    ensures 0 < used && writes[used - 1].error != 0 ==>
      progress == Returned(progress.transferred, writes[used - 1].error)
    ensures progress.Running? ==> used == |writes| && progress.transferred != |buf|
    ensures forall i :: 0 <= i < used ==> Sent(writes[..i]) != |buf|
    ensures forall i :: 0 <= i < used - 1 ==> writes[i].error == 0
  {
    var transferred := 0;
    wire, used := [], 0;
    while transferred != |buf| && used < |writes|
      invariant used <= |writes|
      invariant wire == Wire(buf, writes[..used])
      invariant transferred == Sent(writes[..used]) == |wire|
      invariant forall i :: 0 <= i < used ==> Sent(writes[..i]) != |buf|
      invariant forall i :: 0 <= i < used ==> writes[i].error == 0
      decreases |writes| - used
    {
      assert writes[..used + 1][..used] == writes[..used];
      wire := wire + buf[..writes[used].count];
      transferred := transferred + writes[used].count;
      used := used + 1;
      if writes[used - 1].error != 0 {
        return Returned(transferred, writes[used - 1].error), wire, used;
      }
    }
    progress := if transferred == |buf| then Returned(transferred, 0) else Running(transferred);
  }

  /** Outcomes that take `send` through without an error. */
  ghost predicate Completes(size: nat, writes: seq<Write>) {
    && ValidWrites(size, writes)
    && (forall i :: 0 <= i < |writes| ==> writes[i].error == 0)
    && Sent(writes) == size
  }

  /** Write `k` puts out the bytes that were due at its position. */
  ghost predicate Due(buf: seq<byte>, writes: seq<Write>, k: nat)
    requires k < |writes|
  {
    var from, count := Sent(writes[..k]), writes[k].count;
    from + count <= |buf| && buf[from..from + count] == buf[..count]
  }

  lemma {:induction false} WireLength(buf: seq<byte>, writes: seq<Write>)
    requires ValidWrites(|buf|, writes)
    ensures |Wire(buf, writes)| == Sent(writes)
  {
    if writes != [] {
      WireLength(buf, writes[..|writes| - 1]);
    }
  }

  /** Write by write: the bytes that write `i` adds to the wire are the first ones of the buffer. */
  lemma {:induction false} WireByWrites(buf: seq<byte>, writes: seq<Write>, i: nat)
    requires ValidWrites(|buf|, writes) && i < |writes|
    ensures Sent([]) == 0 && |Wire(buf, writes)| == Sent(writes)
    ensures var from, to := Sent(writes[..i]), Sent(writes[..i + 1]);
      && to == from + writes[i].count <= |Wire(buf, writes)|
      && Wire(buf, writes)[from..to] == buf[..writes[i].count]
  {
    WireLength(buf, writes);
    hide Wire;
    var n := |writes| - 1;
    WireExtends(buf, writes);
    WireLength(buf, writes[..n]);
    if i == n {
      assert writes[..i + 1] == writes;
    } else {
      WireByWrites(buf, writes[..n], i);
      assert writes[..n][..i] == writes[..i] && writes[..n][..i + 1] == writes[..i + 1];
      var from, to := Sent(writes[..i]), Sent(writes[..i + 1]);
      assert Wire(buf, writes)[from..to] == Wire(buf, writes[..n])[from..to];
    }
  }

  ghost predicate AllDue(buf: seq<byte>, writes: seq<Write>) {
    forall k :: 0 <= k < |writes| ==> Due(buf, writes, k)
  }

  lemma AllDueStep(buf: seq<byte>, writes: seq<Write>)
    requires writes != []
    ensures AllDue(buf, writes) <==> AllDue(buf, writes[..|writes| - 1]) && Due(buf, writes, |writes| - 1)
  {
    var init := writes[..|writes| - 1];
    forall k | 0 <= k < |init|
      ensures Due(buf, writes, k) <==> Due(buf, init, k)
    {
      assert init[..k] == writes[..k];
    }
  }

  lemma ConcatEqual(a: seq<byte>, b: seq<byte>, c: seq<byte>, d: seq<byte>)
    requires |a| == |c|
    ensures a + b == c + d <==> a == c && b == d
  {
    if a + b == c + d {
      assert a == (a + b)[..|a|] == c;
      assert b == (a + b)[|a|..] == d;
    }
  }

  /** Exactly which schedules deliver what was due so far. */
  lemma {:induction false} WireIsPrefixIff(buf: seq<byte>, writes: seq<Write>)
    requires ValidWrites(|buf|, writes) && Sent(writes) <= |buf|
    ensures Wire(buf, writes) == buf[..Sent(writes)] <==> AllDue(buf, writes)
  {
    hide AllDue, ValidWrites;
    if writes != [] {
      var n := |writes| - 1;
      var from, count := Sent(writes[..n]), writes[n].count;
      ValidPrefix(|buf|, writes, n);
      WireIsPrefixIff(buf, writes[..n]);
      WireLength(buf, writes[..n]);
      AllDueStep(buf, writes);
      assert buf[..from + count] == buf[..from] + buf[from..from + count];
      ConcatEqual(Wire(buf, writes[..n]), buf[..count], buf[..from], buf[from..from + count]);
    } else {
      NoneDue(buf);
    }
  }

  lemma ValidPrefix(size: nat, writes: seq<Write>, n: nat)
    requires ValidWrites(size, writes) && n <= |writes|
    ensures ValidWrites(size, writes[..n])
    ensures n < |writes| ==> writes[n].count <= size
  {
  }

  lemma NoneDue(buf: seq<byte>)
    ensures AllDue(buf, [])
  {
  }

  /** `send` delivers the buffer under a completing schedule iff every write put out what was due. */
  lemma SendDeliversIff(buf: seq<byte>, writes: seq<Write>)
    requires Completes(|buf|, writes)
    ensures Wire(buf, writes) == buf <==> AllDue(buf, writes)
  {
    WireIsPrefixIff(buf, writes);
    assert buf[..|buf|] == buf;
  }

  ghost predicate Uniform(buf: seq<byte>) {
    forall i, j :: 0 <= i < |buf| && 0 <= j < |buf| ==> buf[i] == buf[j]
  }

  lemma {:induction false} UniformDelivers(buf: seq<byte>, writes: seq<Write>)
    requires ValidWrites(|buf|, writes) && Uniform(buf)
    ensures buf == [] ==> Wire(buf, writes) == []
    ensures forall i :: 0 <= i < |Wire(buf, writes)| ==> Wire(buf, writes)[i] == buf[0]
  {
    if writes != [] {
      var n := |writes| - 1;
      UniformDelivers(buf, writes[..n]);
      var init, last := Wire(buf, writes[..n]), buf[..writes[n].count];
      assert Wire(buf, writes) == init + last;
      forall i | 0 <= i < |Wire(buf, writes)|
        ensures Wire(buf, writes)[i] == buf[0]
      {
        if i < |init| {
          assert (init + last)[i] == init[i];
        } else {
          assert (init + last)[i] == buf[i - |init|];
        }
      }
    }
  }

  /** Two writes, of one byte and of the rest. */
  function Split(size: nat): seq<Write>
    requires 2 <= size
  {
    [Write(1, 0), Write(size - 1, 0)]
  }

  lemma OneWrite(buf: seq<byte>, w: Write)
    requires ValidWrites(|buf|, [w])
    ensures Sent([w]) == w.count && Wire(buf, [w]) == buf[..w.count]
  {
    assert [w][..0] == [];
  }

  lemma SplitShifts(buf: seq<byte>)
    requires 2 <= |buf|
    ensures Completes(|buf|, Split(|buf|))
    ensures Wire(buf, Split(|buf|)) == buf[..1] + buf[..|buf| - 1]
  {
    hide Wire, Sent;
    var writes := Split(|buf|);
    assert writes[..|writes| - 1] == [Write(1, 0)];
    OneWrite(buf, Write(1, 0));
    WireExtends(buf, writes);
  }

  lemma WireExtends(buf: seq<byte>, writes: seq<Write>)
    requires ValidWrites(|buf|, writes) && writes != []
    ensures var n := |writes| - 1;
      && Wire(buf, writes) == Wire(buf, writes[..n]) + buf[..writes[n].count]
      && Sent(writes) == Sent(writes[..n]) + writes[n].count
  {
  }

  lemma {:induction false} ShiftedIsUniform(buf: seq<byte>, i: nat)
    requires i < |buf| && forall j :: 0 < j < |buf| ==> buf[j] == buf[j - 1]
    ensures buf[i] == buf[0]
  {
    if i != 0 {
      ShiftedIsUniform(buf, i - 1);
    }
  }

  /**
    Half of the promise: whenever `send` returns without an error, all of the buffer has been written.
    That is true under every schedule of short writes if and only if all bytes of the buffer are the same.
   */
  lemma SendIsCorrectIff(buf: seq<byte>)
    ensures (forall writes :: Completes(|buf|, writes) ==> Wire(buf, writes) == buf) <==> Uniform(buf)
  {
    if Uniform(buf) {
      forall writes | Completes(|buf|, writes)
        ensures Wire(buf, writes) == buf
      {
        WireLength(buf, writes);
        UniformDelivers(buf, writes);
      }
    } else {
      SplitShifts(buf);
      if Wire(buf, Split(|buf|)) == buf {
        forall j | 0 < j < |buf|
          ensures buf[j] == buf[j - 1]
        {
          assert (buf[..1] + buf[..|buf| - 1])[j] == buf[j - 1];
        }
        forall i | 0 <= i < |buf|
          ensures buf[i] == buf[0]
        {
          ShiftedIsUniform(buf, i);
        }
        assert false;
      }
    }
  }

  /** What the network does to a `send` that never meets an error: the length of every write. */
  type Schedule = nat -> nat

  /** Each write takes something, and no more than it is given: the whole buffer, unless that is empty. */
  ghost predicate ErrorFree(size: nat, schedule: Schedule) {
    size == 0 || forall i: nat :: 1 <= schedule(i) <= size
  }

  function First(schedule: Schedule, n: nat): seq<Write> {
    seq(n, i requires 0 <= i < n => Write(schedule(i), 0))
  }

  /** After `n` writes `send` leaves its loop. */
  ghost predicate ReturnsAfter(size: nat, schedule: Schedule, n: nat) {
    Sent(First(schedule, n)) == size
  }

  /** Write number `n` takes the count past the size without meeting it. */
  ghost predicate Overshoots(size: nat, schedule: Schedule, n: nat) {
    Sent(First(schedule, n)) < size < Sent(First(schedule, n + 1))
  }

  lemma SentNext(schedule: Schedule, n: nat)
    ensures Sent(First(schedule, 0)) == 0
    ensures Sent(First(schedule, n + 1)) == Sent(First(schedule, n)) + schedule(n)
  {
    assert First(schedule, n + 1)[..n] == First(schedule, n);
  }

  lemma {:induction false} SentGrows(size: nat, schedule: Schedule, m: nat, n: nat)
    requires 0 < size && ErrorFree(size, schedule) && m <= n
    ensures Sent(First(schedule, m)) + (n - m) <= Sent(First(schedule, n))
  {
    if m < n {
      SentGrows(size, schedule, m, n - 1);
      SentNext(schedule, n - 1);
    }
  }

  /** The count meets the size or jumps past it within as many writes as the buffer has bytes. */
  lemma {:induction false} MeetsOrJumps(size: nat, schedule: Schedule, n: nat) returns (k: nat)
    requires ErrorFree(size, schedule) && size <= Sent(First(schedule, n))
    ensures ReturnsAfter(size, schedule, k) || Overshoots(size, schedule, k)
  {
    SentNext(schedule, 0);
    if n == 0 || Sent(First(schedule, n - 1)) < size {
      k := if Sent(First(schedule, n)) == size then n else n - 1;
    } else {
      k := MeetsOrJumps(size, schedule, n - 1);
    }
  }

  /**
    An error-free `send` returns if and only if no write takes its count past the size; once one does,
    the loop goes on for as long as no error ends it.
   */
  lemma ReturnsUnlessOvershoots(size: nat, schedule: Schedule)
    requires ErrorFree(size, schedule)
    ensures (exists n: nat :: ReturnsAfter(size, schedule, n)) <==> !exists n: nat :: Overshoots(size, schedule, n)
  {
    hide Sent;
    SentNext(schedule, 0);
    if size == 0 {
      assert ReturnsAfter(size, schedule, 0);
      return;
    }
    SentGrows(size, schedule, 0, size);
    var k := MeetsOrJumps(size, schedule, size);
    forall m: nat, n: nat | ReturnsAfter(size, schedule, m) && Overshoots(size, schedule, n)
      ensures false
    {
      if m <= n {
        SentGrows(size, schedule, m, n);
      } else {
        SentGrows(size, schedule, n + 1, m);
      }
    }
  }

  /** `send` returns after some write, having put exactly the buffer on the wire. */
  ghost predicate Delivers(buf: seq<byte>, schedule: Schedule) {
    exists n: nat :: ReturnsAfter(|buf|, schedule, n)
      && ValidWrites(|buf|, First(schedule, n)) && Wire(buf, First(schedule, n)) == buf
  }

  /** One byte first, then buffers full: the count never meets a size above one. */
  function Jumping(size: nat): Schedule {
    n => if n == 0 then 1 else size
  }

  lemma JumpingOvershoots(size: nat)
    requires 2 <= size
    ensures ErrorFree(size, Jumping(size)) && Overshoots(size, Jumping(size), 1)
  {
    SentNext(Jumping(size), 0);
    SentNext(Jumping(size), 1);
  }

  /**
    The whole promise: `send` blocks until all of the buffer has been written or an error occurs. So it
    does on every error-free schedule if and only if the buffer has at most one byte: in a longer one, a
    short write followed by a full one takes the count past the size, equal bytes or not.
   */
  lemma SendKeepsPromiseIff(buf: seq<byte>)
    ensures (forall schedule: Schedule :: ErrorFree(|buf|, schedule) ==> Delivers(buf, schedule)) <==> |buf| <= 1
  {
    if |buf| <= 1 {
      forall schedule: Schedule | ErrorFree(|buf|, schedule)
        ensures Delivers(buf, schedule)
      {
        if buf == [] {
          assert First(schedule, 0) == [];
          assert ReturnsAfter(|buf|, schedule, 0);
        } else {
          assert 1 <= schedule(0) <= |buf|;
          OneWrite(buf, Write(1, 0));
          assert First(schedule, 1) == [Write(1, 0)];
          assert ReturnsAfter(|buf|, schedule, 1);
        }
      }
    } else {
      hide Sent;
      JumpingOvershoots(|buf|);
      ReturnsUnlessOvershoots(|buf|, Jumping(|buf|));
      assert !Delivers(buf, Jumping(|buf|));
    }
  }

  // ------------------------------------------------------------------------------------------
  // receive

  /** A read stores between one byte and a buffer full, or fails. */
  ghost predicate ValidReads(size: nat, arrivals: seq<Read>) {
    forall i :: 0 <= i < |arrivals| ==>
      |arrivals[i].bytes| <= size && (arrivals[i].bytes == [] ==> arrivals[i].error != 0)
  }

  /** The stream, as far as it has been read. */
  function Stream(arrivals: seq<Read>): seq<byte> {
    if arrivals == [] then [] else var n := |arrivals| - 1; Stream(arrivals[..n]) + arrivals[n].bytes
  }

  /** The caller's buffer after the arrivals: each one overwrites its front. */
  function Stored(buf: seq<byte>, arrivals: seq<Read>): (r: seq<byte>)
    requires ValidReads(|buf|, arrivals)
    ensures |r| == |buf|
  {
    if arrivals == [] then buf
    else
      var n := |arrivals| - 1;
      arrivals[n].bytes + Stored(buf, arrivals[..n])[|arrivals[n].bytes|..]
  }

  method Receive(buf: array<byte>, arrivals: seq<Read>) returns (progress: Progress, used: nat)
    requires ValidReads(buf.Length, arrivals)
    modifies buf
    ensures used <= |arrivals|
    ensures buf[..] == Stored(old(buf[..]), arrivals[..used])
    ensures progress.transferred == |Stream(arrivals[..used])|
    ensures progress.Returned? && progress.error == 0 ==> progress.transferred == buf.Length
    ensures progress.Returned? && progress.error != 0 ==> 0 < used && progress.error == arrivals[used - 1].error
    ensures 0 < used && arrivals[used - 1].error != 0 ==>
      progress == Returned(progress.transferred, arrivals[used - 1].error)
    ensures progress.Running? ==> used == |arrivals| && progress.transferred != buf.Length
    ensures forall i :: 0 <= i < used ==> |Stream(arrivals[..i])| != buf.Length
    ensures forall i :: 0 <= i < used - 1 ==> arrivals[i].error == 0
  {
    ghost var before := buf[..];
    var transferred := 0;
    used := 0;
    while transferred != buf.Length && used < |arrivals|
      invariant used <= |arrivals|
      invariant buf[..] == Stored(before, arrivals[..used])
      invariant transferred == |Stream(arrivals[..used])|
      invariant forall i :: 0 <= i < used ==> |Stream(arrivals[..i])| != buf.Length
      invariant forall i :: 0 <= i < used ==> arrivals[i].error == 0
      decreases |arrivals| - used
    {
      assert arrivals[..used + 1][..used] == arrivals[..used];
      StoreFront(buf, arrivals[used].bytes);
      transferred := transferred + |arrivals[used].bytes|;
      used := used + 1;
      if arrivals[used - 1].error != 0 {
        return Returned(transferred, arrivals[used - 1].error), used;
      }
    }
    progress := if transferred == buf.Length then Returned(transferred, 0) else Running(transferred);
  }

  method StoreFront(buf: array<byte>, bytes: seq<byte>)
    requires |bytes| <= buf.Length
    modifies buf
    ensures buf[..] == bytes + old(buf[..])[|bytes|..]
  {
    for i := 0 to |bytes|
      invariant forall j :: 0 <= j < i ==> buf[j] == bytes[j]
      invariant forall j :: i <= j < buf.Length ==> buf[j] == old(buf[j])
    {
      buf[i] := bytes[i];
    }
  }

  /** Read `i` has stored a byte at position `j`, and no later one has. */
  ghost predicate LastToReach(arrivals: seq<Read>, i: nat, j: nat)
    requires i < |arrivals|
  {
    j < |arrivals[i].bytes| && forall k :: i < k < |arrivals| ==> |arrivals[k].bytes| <= j
  }

  lemma StoredStep(buf: seq<byte>, arrivals: seq<Read>, j: nat)
    requires ValidReads(|buf|, arrivals) && arrivals != [] && j < |buf|
    ensures var n := |arrivals| - 1;
      Stored(buf, arrivals)[j]
      == if j < |arrivals[n].bytes| then arrivals[n].bytes[j] else Stored(buf, arrivals[..n])[j]
  {
  }

  /** What is in the buffer, byte by byte: at each position the byte of the last read that reached it. */
  lemma {:induction false} StoredByLast(buf: seq<byte>, arrivals: seq<Read>, i: nat, j: nat)
    requires ValidReads(|buf|, arrivals) && i < |arrivals| && j < |buf| && LastToReach(arrivals, i, j)
    ensures Stored(buf, arrivals)[j] == arrivals[i].bytes[j]
  {
    hide Stored;
    StoredStep(buf, arrivals, j);
    if i < |arrivals| - 1 {
      StoredByLast(buf, arrivals[..|arrivals| - 1], i, j);
    }
  }

  /** And where no read reached, what was there before. */
  lemma {:induction false} StoredBefore(buf: seq<byte>, arrivals: seq<Read>, j: nat)
    requires ValidReads(|buf|, arrivals) && j < |buf|
    requires forall i :: 0 <= i < |arrivals| ==> |arrivals[i].bytes| <= j
    ensures Stored(buf, arrivals)[j] == buf[j]
  {
    if arrivals != [] {
      StoredStep(buf, arrivals, j);
      StoredBefore(buf, arrivals[..|arrivals| - 1], j);
    }
  }

  /** Outcomes that take `receive` through without an error. */
  ghost predicate Fills(size: nat, arrivals: seq<Read>) {
    && ValidReads(size, arrivals)
    && (forall i :: 0 <= i < |arrivals| ==> arrivals[i].error == 0)
    && |Stream(arrivals)| == size
  }

  lemma OneByteArrives(buf: seq<byte>, arrivals: seq<Read>)
    requires |buf| <= 1 && Fills(|buf|, arrivals)
    ensures Stored(buf, arrivals) == Stream(arrivals)
  {
    if arrivals != [] {
      var n := |arrivals| - 1;
      assert 1 <= |arrivals[n].bytes|;
    }
  }

  lemma SplitReadLost(size: nat) returns (buf: seq<byte>, arrivals: seq<Read>)
    requires 2 <= size
    ensures |buf| == size && Fills(size, arrivals) && Stored(buf, arrivals) != Stream(arrivals)
  {
    var rest: seq<byte> := seq(size - 1, _ => 1);
    buf := seq(size, _ => 0);
    arrivals := [Read([0], 0), Read(rest, 0)];
    assert arrivals[..1] == [Read([0], 0)];
    assert arrivals[..1][..0] == [];
    assert Stream(arrivals[..1]) == [0];
    assert Stored(buf, arrivals)[0] == rest[0] == 1;
    assert Stream(arrivals)[0] == 0;
  }

  /** Whenever `receive` returns without an error, the buffer holds the stream's next bytes. */
  ghost predicate StoresStream(size: nat) {
    forall buf: seq<byte>, arrivals | |buf| == size && Fills(size, arrivals) ::
      Stored(buf, arrivals) == Stream(arrivals)
  }

  /**
    Half of the promise: whenever `receive` returns without an error, the buffer holds the stream's next
    bytes. That is true for every way they may arrive in pieces if and only if it has at most one byte.
   */
  lemma ReceiveIsCorrectIff(size: nat)
    ensures StoresStream(size) <==> size <= 1
  {
    if size <= 1 {
      forall buf: seq<byte>, arrivals | |buf| == size && Fills(size, arrivals)
        ensures Stored(buf, arrivals) == Stream(arrivals)
      {
        OneByteArrives(buf, arrivals);
      }
    } else {
      var buf, arrivals := SplitReadLost(size);
    }
  }

  /** The stream in pieces, as the reads of a `receive` that never meets an error find them. */
  type Pieces = nat -> seq<byte>

  ghost predicate ErrorFreeReads(size: nat, pieces: Pieces) {
    size == 0 || forall i: nat :: 1 <= |pieces(i)| <= size
  }

  function FirstReads(pieces: Pieces, n: nat): seq<Read> {
    seq(n, i requires 0 <= i < n => Read(pieces(i), 0))
  }

  /** `receive` returns after some read, the buffer being full of the stream's next bytes. */
  ghost predicate Fetches(buf: seq<byte>, pieces: Pieces) {
    exists n: nat :: Fills(|buf|, FirstReads(pieces, n))
      && Stored(buf, FirstReads(pieces, n)) == Stream(FirstReads(pieces, n))
  }

  lemma {:induction false} StreamLength(pieces: Pieces, n: nat)
    ensures |Stream(FirstReads(pieces, n))| == Sent(First(i => |pieces(i)|, n))
  {
    if n != 0 {
      StreamLength(pieces, n - 1);
      assert FirstReads(pieces, n)[..n - 1] == FirstReads(pieces, n - 1);
      SentNext(i => |pieces(i)|, n - 1);
    }
  }

  function JumpingReads(size: nat): Pieces {
    n => seq(if n == 0 then 1 else size, _ => 0)
  }

  /** On this stream `receive` never returns: its reads are as long as the writes of `Jumping`. */
  lemma JumpingNeverFills(size: nat, n: nat)
    requires 2 <= size
    ensures |Stream(FirstReads(JumpingReads(size), n))| != size
  {
    hide Sent, Stream;
    StreamLength(JumpingReads(size), n);
    var lengths: Schedule := i => |JumpingReads(size)(i)|;
    assert First(lengths, n) == First(Jumping(size), n);
    JumpingOvershoots(size);
    ReturnsUnlessOvershoots(size, Jumping(size));
    assert !ReturnsAfter(size, Jumping(size), n);
  }

  /**
    The whole promise: `receive` blocks until the buffer is full or an error occurs. On every error-free
    stream it returns with the stream's next bytes if and only if the buffer has at most one byte.
   */
  lemma ReceiveKeepsPromiseIff(buf: seq<byte>)
    ensures (forall pieces: Pieces :: ErrorFreeReads(|buf|, pieces) ==> Fetches(buf, pieces)) <==> |buf| <= 1
  {
    if |buf| <= 1 {
      forall pieces: Pieces | ErrorFreeReads(|buf|, pieces)
        ensures Fetches(buf, pieces)
      {
        if buf == [] {
          assert FirstReads(pieces, 0) == [];
          assert Fills(|buf|, FirstReads(pieces, 0));
        } else {
          assert 1 <= |pieces(0)| <= |buf|;
          assert FirstReads(pieces, 1) == [Read(pieces(0), 0)];
          WholeReadArrives(buf, Read(pieces(0), 0));
        }
      }
    } else {
      var pieces := JumpingReads(|buf|);
      forall n: nat
        ensures !Fills(|buf|, FirstReads(pieces, n))
      {
        JumpingNeverFills(|buf|, n);
      }
      assert ErrorFreeReads(|buf|, pieces);
      assert !Fetches(buf, pieces);
    }
  }

  /** What does arrive: a first read that fills the buffer. */
  lemma WholeReadArrives(buf: seq<byte>, read: Read)
    requires |read.bytes| == |buf| && read.error == 0 && ValidReads(|buf|, [read])
    ensures Fills(|buf|, [read]) && Stored(buf, [read]) == Stream([read]) == read.bytes
  {
    assert [read][..0] == [];
  }
}
