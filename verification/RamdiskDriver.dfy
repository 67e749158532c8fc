/** The ramdisk driver: the requests of Ramdisks.dfy, served in place. */
module RamdiskDriver {
  import opened Base
  import opened IoUring
  import opened Ramdisks

  /** What is posted for a request; the numbers of the error codes live in the system library. */
  function Code(o: Outcome, errorCode: Error -> int): int {
    match o
    case Done(res) => res
    case Rejected(error) => -errorCode(error)
    case Fault => 0
  }

  /** One completion for each answered request, in order and under its own user data. */
  function Completions(rs: seq<Sqe>, replies: seq<Outcome>, errorCode: Error -> int): (cs: seq<Cqe>)
    requires |replies| <= |rs|
    ensures |cs| == |replies|
    ensures forall i :: 0 <= i < |cs| ==> cs[i] == Cqe(rs[i].ud, Code(replies[i], errorCode))
    ensures forall i :: 0 <= i < |cs| ==>
              match replies[i]
              case Done(res) => cs[i] == Cqe(rs[i].ud, res)
              case Rejected(error) => cs[i] == Cqe(rs[i].ud, -errorCode(error))
              case Fault => true
  {
    if replies == [] then []
    else [Cqe(rs[0].ud, Code(replies[0], errorCode))] + Completions(rs[1..], replies[1..], errorCode)
  }

  class Ramdisk {
    const data: array<u8>
    const buffer: array<u8>
    const clientVaddr: u64
    const errorCode: Error -> int
    const ring: IoUringServer
    var blockSize: u32

    ghost predicate Valid()
      reads this
    {
      data != buffer
    }

    function View(): Disk
      reads this, data, buffer
    {
      Disk(data[..], buffer[..], blockSize, clientVaddr)
    }

    constructor (data: array<u8>, buffer: array<u8>, clientVaddr: u64, ring: IoUringServer, errorCode: Error -> int)
      requires data != buffer
      ensures Valid() && this.data == data && this.buffer == buffer && this.ring == ring
      ensures this.errorCode == errorCode
      ensures View() == Disk(data[..], buffer[..], 512, clientVaddr)
    {
      this.data, this.buffer, this.clientVaddr := data, buffer, clientVaddr;
      this.ring, this.errorCode := ring, errorCode;
      blockSize := 512;
    }

    method SetBlockSize(blockSize: u32)
      modifies this
      ensures View() == old(View()).(blockSize := blockSize)
    {
      this.blockSize := blockSize;
    }

    method ProcessSqe(sqe: Sqe) returns (o: Outcome)
      requires Valid()
      modifies data, buffer
      ensures (View(), o) == Process(old(View()), sqe)
    {
      ghost var d := View();
      if blockSize == 0 {
        return Fault;
      }
      if sqe.len % blockSize != 0 {
        return Rejected(InvalidArgs);
      }
      var len: int := sqe.len;
      if sqe.addr < clientVaddr || Wrap64(sqe.addr + len) > Wrap64(clientVaddr + buffer.Length) {
        return Rejected(InvalidArgs);
      }
      var at := sqe.addr - clientVaddr;
      var from: int := Wrap64(sqe.off * blockSize);
      if Wrap64(from + len) > data.Length {
        return Rejected(InvalidArgs);
      }
      match sqe.opcode {
        case OpRead =>
          o := Move(true, from, at, len);
        case OpWrite =>
          o := Move(false, from, at, len);
        case OpSync =>
          o := Done(0);
        case _ =>
          o := Rejected(NotSupported);
      }
    }

    /** The copy between disk and buffer. */
    method Move(toBuffer: bool, from: nat, at: nat, len: u32) returns (o: Outcome)
      requires Valid()
      modifies data, buffer
      ensures (View(), o) == Transfer(old(View()), toBuffer, from, at, len)
    {
      if from + len > data.Length || at + len > buffer.Length {
        return Fault;
      }
      if toBuffer {
        Copy(data, from, buffer, at, len);
      } else {
        Copy(buffer, at, data, from, len);
      }
      o := Done(ToI32(len));
    }

    /** copy_nonoverlapping */
    static method Copy(src: array<u8>, from: nat, dst: array<u8>, at: nat, len: nat)
      requires src != dst && from + len <= src.Length && at + len <= dst.Length
      modifies dst
      ensures dst[..] == Splice(old(dst[..]), at, src[from..from + len])
    {
      forall i | at <= i < at + len {
        dst[i] := src[from + (i - at)];
      }
    }

    /** Serves what is queued; a fault ends the driver, with the request that caused it unanswered. */
    method HandleIo() returns (ok: bool)
      requires Valid()
      modifies data, buffer, ring
      ensures var rs, run := old(ring.sq), Serve(old(View()), old(ring.sq));
              View() == run.disk && ok == !run.faulted && |run.replies| <= |rs|
              && ring.cq == old(ring.cq) + Completions(rs, run.replies, errorCode)
              && (ok ==> ring.sq == [])
    {
      ghost var d0, rs, cq0 := View(), ring.sq, ring.cq;
      ServeAnswersInOrder(d0, rs);
      assert rs[0..] == rs;
      ghost var replies: seq<Outcome> := [];
      while true
        invariant Underway(d0, rs, cq0, replies)
        modifies data, buffer, ring
        decreases |ring.sq|
      {
        var more;
        ok, more, replies := ServeNext(d0, rs, cq0, replies);
        if !ok || !more {
          return ok;
        }
      }
    }

    /** What was answered so far, and what is still to be served. */
    ghost predicate Underway(d0: Disk, rs: seq<Sqe>, cq0: seq<Cqe>, replies: seq<Outcome>)
      reads this, data, buffer, ring
    {
      && |replies| <= |rs| && ring.sq == rs[|replies|..]
      && Serve(d0, rs) == Prefixed(replies, Serve(View(), rs[|replies|..]))
      && ring.cq == cq0 + Completions(rs, replies, errorCode)
    }

    /** One round of the loop: nothing left, one more request served, or a fault. */
    method ServeNext(ghost d0: Disk, ghost rs: seq<Sqe>, ghost cq0: seq<Cqe>, ghost before: seq<Outcome>)
      returns (ok: bool, more: bool, ghost replies: seq<Outcome>)
      requires Valid() && Underway(d0, rs, cq0, before)
      modifies data, buffer, ring
      ensures ok ==> Underway(d0, rs, cq0, replies)
      ensures ok && more ==> |ring.sq| < |old(ring.sq)|
      ensures ok && !more ==> ring.sq == [] && Serve(d0, rs) == Run(View(), replies, false)
      ensures !ok ==> Serve(d0, rs) == Run(View(), replies, true) && |replies| <= |rs|
                      && ring.cq == cq0 + Completions(rs, replies, errorCode)
    {
      ghost var d := View();
      replies := before;
      var sqe := ring.NextRequest();
      if sqe.None? {
        return true, false, before;
      }
      ghost var o;
      ok, o := ServeOne(sqe.value);
      RunStep(d0, rs, before, d, errorCode);
      more := true;
      if ok {
        ghost var done := [Cqe(sqe.value.ud, Code(o, errorCode))];
        assert cq0 + (Completions(rs, before, errorCode) + done) == cq0 + Completions(rs, before, errorCode) + done;
        replies := before + [o];
      }
    }

    /** Process one request and post its result. */
    method ServeOne(sqe: Sqe) returns (ok: bool, ghost outcome: Outcome)
      requires Valid()
      modifies data, buffer, ring
      ensures (View(), outcome) == Process(old(View()), sqe) && ok == !outcome.Fault?
      ensures ring.sq == old(ring.sq)
      ensures ring.cq == old(ring.cq) + if ok then [Cqe(sqe.ud, Code(outcome, errorCode))] else []
    {
      var o := ProcessSqe(sqe);
      outcome := o;
      ok := !o.Fault?;
      if ok {
        ring.Complete(sqe.ud, Code(o, errorCode));
      }
    }
  }

  /** A run with the answers given before it. */
  function Prefixed(replies: seq<Outcome>, run: Run): Run {
    run.(replies := replies + run.replies)
  }

  lemma PrefixedStep(d: Disk, rs: seq<Sqe>, replies: seq<Outcome>)
    requires rs != []
    ensures var (d', o) := Process(d, rs[0]);
            Prefixed(replies, Serve(d, rs))
            == if o.Fault? then Run(d', replies, true) else Prefixed(replies + [o], Serve(d', rs[1..]))
  {
    var (d', o) := Process(d, rs[0]);
    if o.Fault? {
      assert replies + [] == replies;
    } else {
      var rest := Serve(d', rs[1..]).replies;
      assert replies + ([o] + rest) == (replies + [o]) + rest;
    }
  }

  /** One request further, for run and completions. */
  lemma RunStep(d0: Disk, rs: seq<Sqe>, replies: seq<Outcome>, d: Disk, errorCode: Error -> int)
    requires |replies| < |rs| && Serve(d0, rs) == Prefixed(replies, Serve(d, rs[|replies|..]))
    ensures var (d', o) := Process(d, rs[|replies|]);
            && rs[|replies|..][1..] == rs[|replies| + 1..]
            && Serve(d0, rs) == (if o.Fault? then Run(d', replies, true)
                                 else Prefixed(replies + [o], Serve(d', rs[|replies| + 1..])))
            && Completions(rs, replies + [o], errorCode)
               == Completions(rs, replies, errorCode) + [Cqe(rs[|replies|].ud, Code(o, errorCode))]
  {
    PrefixedStep(d, rs[|replies|..], replies);
    CompletionsStep(rs, replies, Process(d, rs[|replies|]).1, errorCode);
    assert rs[|replies|..][1..] == rs[|replies| + 1..];
  }

  lemma CompletionsStep(rs: seq<Sqe>, replies: seq<Outcome>, o: Outcome, errorCode: Error -> int)
    requires |replies| < |rs|
    ensures Completions(rs, replies + [o], errorCode)
            == Completions(rs, replies, errorCode) + [Cqe(rs[|replies|].ud, Code(o, errorCode))]
  {
  }
}
