/**
 The ramdisk as a value: what a request does to the disk and to the buffer
 shared with the client, and what a run of requests does.
 */
module Ramdisks {
  import opened Base

  /** `clientVaddr` is where the client sees the first byte of `buffer`. */
  datatype Disk = Disk(data: seq<u8>, buffer: seq<u8>, blockSize: u32, clientVaddr: u64)

  /** `Fault`: a division by zero, or a copy from or to memory outside the disk or the buffer. */
  datatype Outcome = Done(res: int) | Rejected(error: Error) | Fault

  function Capacity(d: Disk): nat
    requires d.blockSize > 0
  {
    |d.data| / d.blockSize
  }

  /** Where in the shared buffer a client address points, by the driver's own (wrapping) check. */
  function Place(d: Disk, r: Sqe): Option<nat> {
    if r.addr < d.clientVaddr || Wrap64(r.addr + r.len) > Wrap64(d.clientVaddr + |d.buffer|) then None
    else Some(r.addr - d.clientVaddr)
  }

  function ByteOffset(d: Disk, r: Sqe): nat {
    Wrap64(r.off * d.blockSize)
  }

  /** The driver's check of the disk range. */
  predicate PassesRangeCheck(d: Disk, r: Sqe) {
    Wrap64(ByteOffset(d, r) + r.len) <= |d.data|
  }

  function Splice(s: seq<u8>, at: nat, bytes: seq<u8>): (t: seq<u8>)
    requires at + |bytes| <= |s|
    ensures |t| == |s|
  {
    s[..at] + bytes + s[at + |bytes|..]
  }

  function Process(d: Disk, r: Sqe): (Disk, Outcome) {
    if d.blockSize == 0 then (d, Fault)
    else if r.len % d.blockSize != 0 || Place(d, r).None? || !PassesRangeCheck(d, r) then
      (d, Rejected(InvalidArgs))
    else if r.opcode.OpSync? then (d, Done(0))
    else if !r.opcode.OpRead? && !r.opcode.OpWrite? then (d, Rejected(NotSupported))
    else Transfer(d, r.opcode.OpRead?, ByteOffset(d, r), Place(d, r).value, r.len)
  }

  function Transfer(d: Disk, toBuffer: bool, from: nat, at: nat, len: u32): (Disk, Outcome) {
    if from + len > |d.data| || at + len > |d.buffer| then (d, Fault)
    else if toBuffer then
      (d.(buffer := Splice(d.buffer, at, d.data[from..from + len])), Done(ToI32(len)))
    else
      (d.(data := Splice(d.data, from, d.buffer[at..at + len])), Done(ToI32(len)))
  }

  /** A run of requests: it ends early only at a fault. */
  datatype Run = Run(disk: Disk, replies: seq<Outcome>, faulted: bool)

  function Serve(d: Disk, rs: seq<Sqe>): Run
    decreases |rs|
  {
    if rs == [] then Run(d, [], false) else
    var (d', o) := Process(d, rs[0]);
    if o.Fault? then Run(d', [], true) else
    var rest := Serve(d', rs[1..]);
    rest.(replies := [o] + rest.replies)
  }

  /** Answered requests are those before a fault, in order; without a fault all are. */
  lemma {:induction false} ServeAnswersInOrder(d: Disk, rs: seq<Sqe>)
    ensures var run := Serve(d, rs);
            |run.replies| <= |rs| && (run.faulted <==> |run.replies| < |rs|)
            && (forall i :: 0 <= i < |run.replies| ==>
                  run.replies[i] == Process(Serve(d, rs[..i]).disk, rs[i]).1 && !run.replies[i].Fault?)
            && (run.faulted ==> Process(run.disk, rs[|run.replies|]).1 == Fault)
    decreases |rs|
  {
    if rs != [] {
      var d', rest := Process(d, rs[0]).0, rs[1..];
      if !Process(d, rs[0]).1.Fault? {
        ServeAnswersInOrder(d', rest);
        var run := Serve(d, rs);
        forall i | 0 <= i < |run.replies|
          ensures run.replies[i] == Process(Serve(d, rs[..i]).disk, rs[i]).1 && !run.replies[i].Fault?
        {
          if i > 0 {
            assert rs[..i][1..] == rest[..i - 1];
          }
        }
      }
    }
  }

  // ---- One request ----

  /** A request that is accepted and moves bytes. */
  predicate Accepted(d: Disk, r: Sqe) {
    Process(d, r).1.Done?
  }

  predicate Supported(op: Opcode) {
    op.OpRead? || op.OpWrite? || op.OpSync?
  }

  /** No sum or product of the request's numbers leaves 64 bits. */
  predicate Fits64(d: Disk, r: Sqe) {
    r.addr + r.len < TWO64 && d.clientVaddr + |d.buffer| < TWO64 && r.off * d.blockSize + r.len < TWO64
  }

  lemma Wraps(x: nat)
    ensures x < TWO64 ==> Wrap64(x) == x
    ensures Wrap64(x) <= x
  {
  }

  /** A whole number of blocks fits the disk in bytes exactly when it fits in blocks. */
  lemma BytesAreBlocks(off: nat, n: nat, bs: nat, size: nat)
    requires bs > 0
    ensures off * bs + n * bs <= size <==> off + n <= size / bs
  {
    var cap := size / bs;
    assert size == cap * bs + size % bs;
    assert off * bs + n * bs == (off + n) * bs;
    if off + n <= cap {
      MulMono(off + n, cap, bs);
    } else {
      MulMono(cap + 1, off + n, bs);
      assert (cap + 1) * bs == cap * bs + bs;
    }
  }

  lemma MulMono(a: nat, b: nat, c: nat)
    requires a <= b
    ensures a * c <= b * c
  {
  }

  /**
   A well-addressed, aligned, supported request is rejected if and only if
   its blocks are not all on the disk.  This is true exactly when the range
   check is not deceived by wrap-around; within 64 bits the others are
   carried out.
   */
  lemma RejectedIffOffDisk(d: Disk, r: Sqe)
    requires d.blockSize > 0 && r.len % d.blockSize == 0 && Supported(r.opcode)
    requires Place(d, r).Some? && |d.data| < TWO64
    ensures (Process(d, r).1 == Rejected(InvalidArgs) <==> r.off + r.len / d.blockSize > Capacity(d))
            <==> (r.off * d.blockSize + r.len < TWO64 || !PassesRangeCheck(d, r))
    ensures r.off * d.blockSize + r.len < TWO64 && !EndWraps(d, r) ==>
              (Accepted(d, r) <==> r.off + r.len / d.blockSize <= Capacity(d))
  {
    var n := r.len / d.blockSize;
    assert r.len == n * d.blockSize;
    BytesAreBlocks(r.off, n, d.blockSize, |d.data|);
    Wraps(r.off * d.blockSize);
    Wraps(ByteOffset(d, r) + r.len);
    PlaceIsInBuffer(d, r);
  }

  /** The end of the client's range wraps round while that of its window does not. */
  predicate EndWraps(d: Disk, r: Sqe) {
    r.addr + r.len >= TWO64 && d.clientVaddr + |d.buffer| < TWO64
  }

  /** What passes the window check lies in the buffer, unless its end wraps. */
  lemma PlaceIsInBuffer(d: Disk, r: Sqe)
    requires Place(d, r).Some?
    ensures Place(d, r).value + r.len <= |d.buffer| <==> !EndWraps(d, r)
  {
    WrapsOnce(r.addr + r.len);
    if d.clientVaddr + |d.buffer| < 2 * TWO64 {
      WrapsOnce(d.clientVaddr + |d.buffer|);
    }
  }

  lemma WrapsOnce(x: nat)
    requires x < 2 * TWO64
    ensures Wrap64(x) == if x < TWO64 then x else x - TWO64
  {
  }

  /** A sector number far past the end that the wrapped product brings back to sector 0. */
  lemma WrapDeceivesRangeCheck()
    ensures var d := Disk(seq(512, _ => 0), seq(512, _ => 1), 512, 0);
            var r := Sqe(OpWrite, 0, 512, TWO64 / 512, 0);
            r.off + r.len / d.blockSize > Capacity(d) && Accepted(d, r)
            && Process(d, r).0.data == d.buffer
  {
    var d := Disk(seq(512, _ => 0), seq(512, _ => 1), 512, 0);
    var r := Sqe(OpWrite, 0, 512, TWO64 / 512, 0);
    assert r.off * d.blockSize == TWO64;
    assert ByteOffset(d, r) == 0 && Place(d, r) == Some(0);
    assert Splice(d.data, 0, d.buffer[0..512]) == d.buffer;
  }

  /**
   The driver leaves the disk or the buffer exactly on a zero block size, and
   on transfers that pass every check although the end of the client's range
   or of the disk range wraps round.
   */
  lemma FaultsExactly(d: Disk, r: Sqe)
    requires |d.data| < TWO64
    ensures Process(d, r).1.Fault? <==>
            (|| d.blockSize == 0
             || (&& (r.opcode.OpRead? || r.opcode.OpWrite?) && Process(d, r).1 != Rejected(InvalidArgs)
                 && (|| (r.addr + r.len >= TWO64 && d.clientVaddr + |d.buffer| < TWO64)
                     || r.off * d.blockSize % TWO64 + r.len >= TWO64)))
  {
    if d.blockSize > 0 && Place(d, r).Some? {
      PlaceIsInBuffer(d, r);
      WrapsOnce(ByteOffset(d, r) + r.len);
    }
  }

  /** A client address just below 2^64 passes the window check, and the copy starts outside the buffer. */
  lemma WrappedAddressFaults()
    ensures var d := Disk(seq(1024, _ => 0), seq(4096, _ => 0), 512, 0x1000);
            Process(d, Sqe(OpWrite, TWO64 - 512, 1024, 0, 0)).1 == Fault
  {
  }

  /** Faults come from a zero block size or from wrap-around only. */
  lemma NoFaultWithin64Bits(d: Disk, r: Sqe)
    requires d.blockSize > 0 && Fits64(d, r)
    ensures !Process(d, r).1.Fault?
  {
    ChecksWithin64Bits(d, r);
    Wraps(r.off * d.blockSize);
  }

  /** An accepted transfer reports its length, except that 2 GiB and more turn negative. */
  lemma ReplyIsLength(d: Disk, r: Sqe)
    requires Accepted(d, r) && !r.opcode.OpSync?
    ensures Process(d, r).1 == Done(if r.len < 0x8000_0000 then r.len else r.len - 0x1_0000_0000)
    ensures Process(d, r).1.res >= 0 <==> r.len < 0x8000_0000
  {
  }

  /** The byte range a request writes on the disk; nothing unless it is an accepted write. */
  predicate Writes(d: Disk, r: Sqe, i: nat) {
    Accepted(d, r) && r.opcode.OpWrite? && var from := r.off * d.blockSize % TWO64; from <= i < from + r.len
  }

  /**
   Every byte after a request.  An accepted read puts the disk's bytes from
   block `off` on where the client's address points, and an accepted write puts
   the client's bytes there; every other byte is as before.  The disk offset is
   taken modulo 2^64.
   */
  lemma EveryByte(d: Disk, r: Sqe)
    ensures var d', at, from := Process(d, r).0, r.addr - d.clientVaddr, r.off * d.blockSize % TWO64;
            && |d'.data| == |d.data| && |d'.buffer| == |d.buffer|
            && d'.blockSize == d.blockSize && d'.clientVaddr == d.clientVaddr
            && (Accepted(d, r) && !r.opcode.OpSync? ==>
                  && (r.opcode.OpRead? || r.opcode.OpWrite?)
                  && 0 <= at && at + r.len <= |d.buffer| && from + r.len <= |d.data|)
            && (Accepted(d, r) && r.opcode.OpRead? ==>
                  && d'.data == d.data && d'.buffer[at..at + r.len] == d.data[from..from + r.len]
                  && d'.buffer[..at] == d.buffer[..at] && d'.buffer[at + r.len..] == d.buffer[at + r.len..])
            && (Accepted(d, r) && r.opcode.OpWrite? ==>
                  && d'.buffer == d.buffer && d'.data[from..from + r.len] == d.buffer[at..at + r.len]
                  && d'.data[..from] == d.data[..from] && d'.data[from + r.len..] == d.data[from + r.len..])
            && (!Accepted(d, r) || r.opcode.OpSync? ==> d' == d)
  {
  }

  /** A byte of the disk changes only where an accepted write goes. */
  lemma UnwrittenByteStays(d: Disk, r: Sqe, i: nat)
    requires i < |d.data| && !Writes(d, r, i)
    ensures |Process(d, r).0.data| == |d.data| && Process(d, r).0.data[i] == d.data[i]
  {
    EveryByte(d, r);
    var d', from := Process(d, r).0, r.off * d.blockSize % TWO64;
    if Accepted(d, r) && r.opcode.OpWrite? {
      if i < from {
        assert d'.data[..from][i] == d.data[..from][i];
      } else {
        var k := i - (from + r.len);
        assert d'.data[from + r.len..][k] == d.data[from + r.len..][k];
      }
    }
  }

  /** The range the client names lies in its window, in unbounded arithmetic. */
  predicate InWindow(d: Disk, r: Sqe) {
    d.clientVaddr <= r.addr && r.addr + r.len <= d.clientVaddr + |d.buffer|
  }

  predicate OnDisk(d: Disk, r: Sqe) {
    r.off * d.blockSize + r.len <= |d.data|
  }

  /**
   Within 64 bits the outcome of every request: whole blocks inside the window
   and on the disk are transferred, or do nothing for a sync; a request of
   another kind is not supported; anything else is an invalid argument.
   */
  lemma OutcomeWithin64Bits(d: Disk, r: Sqe)
    requires d.blockSize > 0 && Fits64(d, r)
    ensures var o, proper := Process(d, r).1, r.len % d.blockSize == 0 && InWindow(d, r) && OnDisk(d, r);
            && (o == Rejected(InvalidArgs) <==> !proper)
            && (o == Rejected(NotSupported) <==> proper && !Supported(r.opcode))
            && (o.Done? <==> proper && Supported(r.opcode))
            && (proper && r.opcode.OpSync? ==> o == Done(0))
            && (proper && (r.opcode.OpRead? || r.opcode.OpWrite?) && r.len < 0x8000_0000 ==> o == Done(r.len))
  {
    ChecksWithin64Bits(d, r);
    NoFaultWithin64Bits(d, r);
  }

  lemma ChecksWithin64Bits(d: Disk, r: Sqe)
    requires Fits64(d, r)
    ensures (Place(d, r).Some? <==> InWindow(d, r)) && (PassesRangeCheck(d, r) <==> OnDisk(d, r))
  {
    Wraps(r.off * d.blockSize);
    Wraps(r.off * d.blockSize + r.len);
    Wraps(r.addr + r.len);
    Wraps(d.clientVaddr + |d.buffer|);
  }

  /** For all numbers, wrapped or not: exactly which requests pass the driver's checks. */
  lemma RejectedExactly(d: Disk, r: Sqe)
    requires d.blockSize > 0
    ensures var from := r.off * d.blockSize % TWO64;
            Process(d, r).1 == Rejected(InvalidArgs) <==>
            (|| r.len % d.blockSize != 0 || r.addr < d.clientVaddr
             || (r.addr + r.len) % TWO64 > (d.clientVaddr + |d.buffer|) % TWO64 || (from + r.len) % TWO64 > |d.data|)
  {
  }

  /** A rejected request, a sync and a request that faults change nothing. */
  lemma OthersChangeNothing(d: Disk, r: Sqe)
    requires !Accepted(d, r) || r.opcode.OpSync?
    ensures Process(d, r).0 == d
  {
  }

  // ---- Runs ----

  /** No request of the run writes byte `i` of the disk, at the time it is served. */
  predicate Spares(d: Disk, rs: seq<Sqe>, i: nat)
    decreases |rs|
  {
    rs == [] || (!Writes(d, rs[0], i)
                 && (Process(d, rs[0]).1.Fault? || Spares(Process(d, rs[0]).0, rs[1..], i)))
  }

  lemma {:induction false} SparedByteStays(d: Disk, rs: seq<Sqe>, i: nat)
    requires i < |d.data| && Spares(d, rs, i)
    ensures var d' := Serve(d, rs).disk; |d'.data| == |d.data| && d'.data[i] == d.data[i]
    decreases |rs|
  {
    if rs != [] {
      UnwrittenByteStays(d, rs[0], i);
      if !Process(d, rs[0]).1.Fault? {
        SparedByteStays(Process(d, rs[0]).0, rs[1..], i);
      }
    }
  }

  lemma {:induction false} ServeAppend(d: Disk, rs: seq<Sqe>, more: seq<Sqe>)
    requires !Serve(d, rs).faulted
    ensures Serve(d, rs + more)
            == var run := Serve(d, rs);
               var next := Serve(run.disk, more);
               next.(replies := run.replies + next.replies)
    decreases |rs|
  {
    if rs == [] {
      assert rs + more == more;
      assert [] + Serve(d, more).replies == Serve(d, more).replies;
    } else {
      assert (rs + more)[1..] == rs[1..] + more;
      ServeAppend(Process(d, rs[0]).0, rs[1..], more);
      var o, run := Process(d, rs[0]).1, Serve(Process(d, rs[0]).0, rs[1..]);
      var next := Serve(run.disk, more);
      assert [o] + (run.replies + next.replies) == ([o] + run.replies) + next.replies;
    }
  }

  /**
   What a write stored is what a later read of the same blocks delivers, at
   the place the reader names, if nothing between them wrote those blocks.
   */
  lemma ReadReturnsLastWrite(d: Disk, w: Sqe, between: seq<Sqe>, r: Sqe)
    requires Accepted(d, w) && w.opcode.OpWrite?
    requires !Serve(Process(d, w).0, between).faulted
    requires var from := w.off * d.blockSize % TWO64;
             forall i :: from <= i < from + w.len ==> Spares(Process(d, w).0, between, i)
    requires r.opcode.OpRead? && r.off == w.off && r.len == w.len
    requires Accepted(Serve(Process(d, w).0, between).disk, r)
    ensures var d', from, to := Serve(d, [w] + between + [r]).disk, w.addr - d.clientVaddr, r.addr - d.clientVaddr;
            && 0 <= from && 0 <= to && from + w.len <= |d.buffer| && to + r.len <= |d'.buffer|
            && d'.buffer[to..to + r.len] == d.buffer[from..from + w.len]
  {
    var d1 := Process(d, w).0;
    var d2 := Serve(d1, between).disk;
    var lo := w.off * d.blockSize % TWO64;
    WriteStores(d, w);
    SparedRangeStays(d1, between, lo, lo + w.len);
    ServeFrame(d1, between);
    ReadDelivers(d2, r);
    ServeThree(d, w, between, r);
  }

  lemma WriteStores(d: Disk, w: Sqe)
    requires Accepted(d, w) && w.opcode.OpWrite?
    ensures var d', lo, from := Process(d, w).0, w.off * d.blockSize % TWO64, w.addr - d.clientVaddr;
            lo + w.len <= |d'.data| == |d.data| && 0 <= from && from + w.len <= |d.buffer|
            && d'.data[lo..lo + w.len] == d.buffer[from..from + w.len]
            && d'.blockSize == d.blockSize && d'.clientVaddr == d.clientVaddr
  {
    EveryByte(d, w);
  }

  lemma ReadDelivers(d: Disk, r: Sqe)
    requires Accepted(d, r) && r.opcode.OpRead?
    ensures var d', lo, to := Process(d, r).0, r.off * d.blockSize % TWO64, r.addr - d.clientVaddr;
            lo + r.len <= |d.data| && 0 <= to && to + r.len <= |d'.buffer|
            && d'.buffer[to..to + r.len] == d.data[lo..lo + r.len]
  {
    EveryByte(d, r);
  }

  lemma SparedRangeStays(d: Disk, rs: seq<Sqe>, lo: nat, hi: nat)
    requires lo <= hi <= |d.data| && forall i :: lo <= i < hi ==> Spares(d, rs, i)
    ensures var d' := Serve(d, rs).disk; |d'.data| == |d.data| && d'.data[lo..hi] == d.data[lo..hi]
  {
    ServeFrame(d, rs);
    var d' := Serve(d, rs).disk;
    forall i | lo <= i < hi ensures d'.data[i] == d.data[i] {
      SparedByteStays(d, rs, i);
    }
  }

  lemma ServeThree(d: Disk, w: Sqe, between: seq<Sqe>, r: Sqe)
    requires !Process(d, w).1.Fault? && !Serve(Process(d, w).0, between).faulted
    requires !Process(Serve(Process(d, w).0, between).disk, r).1.Fault?
    ensures Serve(d, [w] + between + [r]).disk == Process(Serve(Process(d, w).0, between).disk, r).0
  {
    var d1 := Process(d, w).0;
    var d2 := Serve(d1, between).disk;
    assert ([w] + between + [r])[1..] == between + [r];
    ServeAppend(d1, between, [r]);
    assert [r][1..] == [];
    assert Serve(d2, [r]).disk == Process(d2, r).0;
  }

  /** Sizes and addresses stay as they are over a run. */
  lemma {:induction false} ServeFrame(d: Disk, rs: seq<Sqe>)
    ensures var d' := Serve(d, rs).disk;
            |d'.data| == |d.data| && |d'.buffer| == |d.buffer|
            && d'.blockSize == d.blockSize && d'.clientVaddr == d.clientVaddr
    decreases |rs|
  {
    if rs != [] {
      EveryByte(d, rs[0]);
      if !Process(d, rs[0]).1.Fault? {
        ServeFrame(Process(d, rs[0]).0, rs[1..]);
      }
    }
  }
}
