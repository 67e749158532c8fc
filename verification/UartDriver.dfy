/**
 The NS16550A driver object.  Its hardware delivers a finite stream of bytes
 at arbitrary moments and raises arbitrary interrupts; every method is a run
 of the actions in Uarts, recorded in a ghost log.
 */
module UartDriver {
  import opened Base
  import opened Uarts

  datatype Lsr = Lsr(dataReady: bool, overrun: bool, thrEmpty: bool)

  const IIR_NO_INTERRUPT := 1
  const IIR_RX_DATA_READY := 0x04
  const IIR_TIMEOUT := 0x0C
  const IIR_RLS := 0x06
  const IIR_THR_EMPTY := 0x02

  /** The chip: bytes still to arrive, the receive FIFO, and the transmitter. */
  class Hardware {
    var incoming: seq<u8>
    var fifo: seq<u8>
    var busy: nat
    var thrReady: bool
    // Everything read from RBR and everything written to THR.
    ghost var read: seq<u8>
    var sent: seq<u8>

    ghost function Remaining(): nat
      reads this
    {
      |fifo| + |incoming|
    }

    /** Any number of bytes may have arrived; the transmitter is ready once it is no longer busy. */
    method ReadLsr() returns (lsr: Lsr)
      modifies this
      ensures fifo + incoming == old(fifo + incoming) && read == old(read) && sent == old(sent)
      ensures lsr.dataReady <==> fifo != []
      ensures lsr.thrEmpty <==> old(busy) == 0
      ensures busy == (if old(busy) == 0 then 0 else old(busy) - 1) && (thrReady <==> lsr.thrEmpty)
    {
      var k: nat :| k <= |incoming|;
      fifo, incoming := fifo + incoming[..k], incoming[k..];
      thrReady := busy == 0;
      busy := if busy == 0 then 0 else busy - 1;
      var overrun: bool := *;
      lsr := Lsr(|fifo| > 0, overrun, thrReady);
    }

    method ReadRbr() returns (c: u8)
      requires fifo != []
      modifies this
      ensures c == old(fifo)[0] && fifo == old(fifo)[1..] && incoming == old(incoming)
      ensures read == old(read) + [c] && sent == old(sent) && busy == old(busy) && thrReady == old(thrReady)
    {
      c := fifo[0];
      fifo, read := fifo[1..], read + [c];
    }

    /** A byte may be written only after THR was seen empty. */
    method WriteThr(c: u8)
      requires thrReady
      modifies this
      ensures sent == old(sent) + [c] && read == old(read) && fifo == old(fifo) && incoming == old(incoming)
    {
      sent := sent + [c];
      busy, thrReady := *, false;
    }
  }

  /** The chip's interrupt identification register, and everything ever read from it. */
  class Identification {
    ghost var ids: seq<u8>

    method Read() returns (iir: u8)
      modifies this
      ensures ids == old(ids) + [iir]
    {
      iir := *;
      ids := ids + [iir];
    }
  }

  /** A byte ring in shared memory. */
  class ShmRing {
    var cap: nat
    var data: seq<u8>

    /** Push the longest prefix that fits. */
    method PushSlice(bytes: seq<u8>) returns (n: nat)
      requires |data| <= cap
      modifies this
      ensures n == Min(|bytes|, old(cap - |data|)) && data == old(data) + bytes[..n] && cap == old(cap)
    {
      n := if |bytes| <= cap - |data| then |bytes| else cap - |data|;
      data := data + bytes[..n];
    }

    /** Pop up to `max` bytes. */
    method PopSlice(max: nat) returns (bytes: seq<u8>)
      modifies this
      ensures bytes == old(data)[..Min(max, |old(data)|)] && data == old(data)[|bytes|..] && cap == old(cap)
    {
      var n := if max <= |data| then max else |data|;
      bytes, data := data[..n], data[n..];
    }
  }

  /** The request ring; results are logged with the kind of request they answer. */
  class RequestRing {
    var sq: seq<Sqe>
    var posted: seq<Posted>

    method NextRequest() returns (r: Option<Sqe>)
      modifies this
      ensures posted == old(posted)
      ensures old(sq) == [] ==> r == None && sq == []
      ensures old(sq) != [] ==> r == Some(old(sq)[0]) && sq == old(sq)[1..]
    {
      if |sq| == 0 {
        return None;
      }
      r, sq := Some(sq[0]), sq[1..];
    }

    method Complete(p: Posted)
      modifies this
      ensures sq == old(sq) && posted == old(posted) + [p]
    {
      posted := posted + [p];
    }
  }

  ghost function Chars(history: seq<Received>): seq<u8> {
    seq(|history|, i requires 0 <= i < |history| => history[i].c)
  }

  ghost function Receipts(bytes: seq<u8>): seq<Action> {
    seq(|bytes|, i requires 0 <= i < |bytes| => Receive(bytes[i]))
  }

  /** What only the client or a request can change. */
  ghost predicate Settled(u: Uart, u': Uart) {
    && u'.hasRing == u.hasRing && u'.hasShm == u.hasShm && u'.pendingRead == u.pendingRead
    && u'.sq == u.sq && u'.written == u.written && u'.readFrom == u.readFrom
    && Answers(u'.posted) == Answers(u.posted)
  }

  /** iir & IIR_ID_MASK */
  function EventId(iir: u8): int {
    iir / 2 % 8 * 2
  }

  /** The mask 0x0E leaves what bits 0 to 3 say, once bit 0 is clear. */
  lemma EventIds(iir: u8)
    requires iir % 2 == 0
    ensures EventId(iir) == iir % 16
  {
  }

  predicate IsReceive(id: int) {
    id == IIR_RX_DATA_READY || id == IIR_TIMEOUT || id == IIR_RLS
  }

  lemma MovesOn(sent: seq<u8>, ring: seq<u8>, total: nat, n: nat)
    requires total + n <= |ring|
    ensures sent + ring[..total] + ring[total..][..n] == sent + ring[..total + n]
    ensures ring[total..][n..] == ring[total + n..]
  {
    assert ring[..total] + ring[total..][..n] == ring[..total + n];
  }

  lemma LogGrows(start: Uart, log: seq<Action>, u: Uart, a: Action)
    requires Run(start, log, u) && Enabled(u, a)
    ensures Run(start, log + [a], Do(u, a))
  {
    RunOne(u, a);
    RunsCompose(start, log, u, [a], Do(u, a));
  }

  /** The state is where the logged actions lead from a start with nothing set up. */
  ghost predicate Logged(start: Uart, log: seq<Action>, u: Uart) {
    Initial(start) && Run(start, log, u) && Inv(u)
  }

  lemma ReceiveLogs(start: Uart, log: seq<Action>, u: Uart, c: u8)
    requires Logged(start, log, u)
    ensures Logged(start, log + [Receive(c)], ReceiveByte(u, c))
  {
    assert Do(u, Receive(c)) == ReceiveByte(u, c);
    LogGrows(start, log, u, Receive(c));
    ActionKeeps(u, Receive(c));
  }

  lemma FlushLogs(start: Uart, log: seq<Action>, u: Uart)
    requires Logged(start, log, u)
    ensures Logged(start, log + [FlushRx], Flush(u))
  {
    assert Do(u, FlushRx) == Flush(u);
    LogGrows(start, log, u, FlushRx);
    ActionKeeps(u, FlushRx);
  }

  lemma TransmitLogs(start: Uart, log: seq<Action>, u: Uart, n: nat, u': Uart)
    requires Logged(start, log, u) && u.hasShm && n <= |u.txRing|
    requires u' == u.(txRing := u.txRing[n..], sent := u.sent + u.txRing[..n], irqTxBytes := u.irqTxBytes + n)
    ensures Logged(start, log + [Transmit(n)], u')
  {
    assert Do(u, Transmit(n)) == u';
    LogGrows(start, log, u, Transmit(n));
    ActionKeeps(u, Transmit(n));
  }

  lemma OneMoreDrained(read0: seq<u8>, read: seq<u8>, log0: seq<Action>, log: seq<Action>, u0: Uart, u: Uart, c: u8)
    requires read0 <= read && log == log0 + Receipts(read[|read0|..]) && u == ReceiveAll(u0, read[|read0|..])
    ensures read0 <= read + [c] && log + [Receive(c)] == log0 + Receipts((read + [c])[|read0|..])
    ensures ReceiveByte(u, c) == ReceiveAll(u0, (read + [c])[|read0|..])
  {
    var news := read[|read0|..];
    assert (read + [c])[|read0|..] == news + [c];
    assert Receipts(news + [c]) == Receipts(news) + [Receive(c)];
    ReceiveOneMore(u0, news, c);
  }

  lemma CharsGrow(history: seq<Received>, r: Received)
    ensures Chars(history + [r]) == Chars(history) + [r.c]
  {
  }

  class Ns16550a {
    const hw: Hardware
    const identification: Identification
    const ring: RequestRing
    const rxShm: ShmRing
    const txShm: ShmRing
    var hasRing: bool
    var hasShm: bool
    var rxBuffer: seq<u8>
    var pendingRead: Option<u64>
    var irqRxBytes: nat
    var rxSwDrop: nat
    var irqTxBytes: nat
    var rxHwLsrOverrun: nat
    var rxBudgetHit: nat

    ghost var history: seq<Received>
    ghost var pushed: seq<u8>
    ghost var written: seq<u8>
    ghost var readFrom: nat
    ghost const start: Uart
    ghost var log: seq<Action>

    ghost function View(): Uart
      reads this, hw, ring, rxShm, txShm
    {
      Uart(hasRing, hasShm, rxShm.cap, rxBuffer, rxShm.data, txShm.data, pendingRead, ring.sq, ring.posted,
           irqRxBytes, rxSwDrop, irqTxBytes, history, pushed, written, hw.sent, readFrom)
    }

    /** The state is where the logged actions lead, and the log contains the bytes the chip delivered. */
    ghost predicate Valid()
      reads this, hw, ring, rxShm, txShm
    {
      && rxShm != txShm
      && Logged(start, log, View())
      && Chars(history) == hw.read
    }

    constructor (hw: Hardware, identification: Identification, ring: RequestRing, rxShm: ShmRing, txShm: ShmRing)
      requires rxShm != txShm && hw.read == [] && hw.sent == [] && ring.posted == []
      requires rxShm.data == [] && txShm.data == []
      ensures Valid() && this.hw == hw && this.ring == ring && this.rxShm == rxShm && this.txShm == txShm
      ensures !hasRing && !hasShm && log == [] && this.identification == identification
    {
      this.identification := identification;
      this.hw, this.ring, this.rxShm, this.txShm := hw, ring, rxShm, txShm;
      hasRing, hasShm, rxBuffer, pendingRead := false, false, [], None;
      irqRxBytes, rxSwDrop, irqTxBytes, rxHwLsrOverrun, rxBudgetHit := 0, 0, 0, 0, 0;
      history, pushed, written, readFrom, log := [], [], [], 0, [];
      start := Uart(false, false, rxShm.cap, [], [], [], None, ring.sq, [], 0, 0, 0, [], [], [], [], 0);
      new;
      InitialKeeps(View());
    }

    method SetRingServer()
      requires Valid() && !hasRing
      modifies this`hasRing, this`log
      ensures Valid() && View() == Do(old(View()), SetRing) && log == old(log) + [SetRing]
    {
      ghost var u := View();
      hasRing := true;
      LogGrows(start, log, u, SetRing);
      ActionKeeps(u, SetRing);
      log := log + [SetRing];
    }

    /** The shared page: one empty ring for each direction, `cap` bytes usable for reception; again at any time. */
    method SetupBuffers(cap: nat)
      requires Valid()
      modifies this`hasShm, this`written, this`log, rxShm, txShm
      ensures Valid() && View() == Do(old(View()), SetupShm(cap)) && log == old(log) + [SetupShm(cap)]
    {
      ghost var u := View();
      hasShm, written := true, hw.sent;
      rxShm.cap, rxShm.data, txShm.data := cap, [], [];
      assert View() == Do(u, SetupShm(cap));
      LogGrows(start, log, u, SetupShm(cap));
      ActionKeeps(u, SetupShm(cap));
      log := log + [SetupShm(cap)];
    }

    /** What the client does to the shared rings between two calls. */
    method ClientActs(a: Action)
      requires Valid() && Enabled(View(), a) && (a.ClientSubmits? || a.ClientReads? || a.ClientWrites?)
      modifies this`written, this`log, ring, rxShm, txShm
      ensures Valid() && View() == Do(old(View()), a) && log == old(log) + [a]
    {
      ghost var u := View();
      match a {
        case ClientSubmits(sqe) => ring.sq := ring.sq + [sqe];
        case ClientReads(n) => rxShm.data := rxShm.data[n..];
        case ClientWrites(bytes) =>
          txShm.data := txShm.data + bytes;
          written := written + bytes;
      }
      LogGrows(start, log, u, a);
      ActionKeeps(u, a);
      log := log + [a];
    }

    method RecordLsrErrors()
      requires Valid()
      modifies this`rxHwLsrOverrun, hw
      ensures Valid() && View() == old(View()) && log == old(log) && hw.Remaining() == old(hw.Remaining())
    {
      var lsr := hw.ReadLsr();
      if lsr.overrun {
        rxHwLsrOverrun := rxHwLsrOverrun + 1;
      }
    }

    method GetChar() returns (c: Option<u8>)
      modifies hw
      ensures hw.sent == old(hw.sent)
      ensures c.None? ==> hw.fifo == [] && hw.read == old(hw.read) && hw.Remaining() == old(hw.Remaining())
      ensures c.Some? ==> hw.read == old(hw.read) + [c.value] && hw.Remaining() == old(hw.Remaining()) - 1
    {
      var lsr := hw.ReadLsr();
      if lsr.dataReady {
        var b := hw.ReadRbr();
        return Some(b);
      }
      return None;
    }

    /** Wait for the transmitter, then hand it a byte. */
    method PutChar(c: u8)
      modifies hw
      ensures hw.sent == old(hw.sent) + [c] && hw.read == old(hw.read) && hw.Remaining() == old(hw.Remaining())
    {
      var lsr := hw.ReadLsr();
      while !lsr.thrEmpty
        invariant hw.thrReady <==> lsr.thrEmpty
        invariant hw.sent == old(hw.sent) && hw.read == old(hw.read) && hw.Remaining() == old(hw.Remaining())
        decreases hw.busy, !lsr.thrEmpty
      {
        lsr := hw.ReadLsr();
      }
      hw.WriteThr(c);
    }

    /** Buffer one hardware byte, or count it as dropped. */
    method Accept(c: u8) returns (kept: bool)
      requires rxShm != txShm && Logged(start, log, View())
      modifies this`rxBuffer, this`irqRxBytes, this`rxSwDrop, this`history, this`log
      ensures Logged(start, log, View()) && View() == ReceiveByte(old(View()), c)
      ensures log == old(log) + [Receive(c)] && kept == (|old(rxBuffer)| < RX_BUFFER_SOFT_LIMIT)
      ensures Chars(history) == Chars(old(history)) + [c]
    {
      ReceiveLogs(start, log, View(), c);
      kept := Buffer(c);
      log := log + [Receive(c)];
    }

    /** The byte itself, and the counters. */
    method Buffer(c: u8) returns (kept: bool)
      modifies this`rxBuffer, this`irqRxBytes, this`rxSwDrop, this`history
      ensures View() == ReceiveByte(old(View()), c) && kept == (|old(rxBuffer)| < RX_BUFFER_SOFT_LIMIT)
      ensures Chars(history) == Chars(old(history)) + [c]
    {
      kept := |rxBuffer| < RX_BUFFER_SOFT_LIMIT;
      CharsGrow(history, Received(c, |rxBuffer|, !kept));
      history := history + [Received(c, |rxBuffer|, !kept)];
      if kept {
        rxBuffer := rxBuffer + [c];
        irqRxBytes := irqRxBytes + 1;
      } else {
        rxSwDrop := rxSwDrop + 1;
      }
    }

    /**
     Read hardware bytes until none is ready or `budget` bytes were kept.
     Dropped bytes do not count against the budget: only the finite input
     bounds the loop.
     */
    method DrainRxFifo(budget: nat) returns (drained: nat)
      requires Valid()
      modifies this`rxBuffer, this`irqRxBytes, this`rxSwDrop, this`history, this`log
      modifies this`rxHwLsrOverrun, this`rxBudgetHit, hw
      ensures Valid() && drained <= budget && (drained == budget || hw.fifo == [])
      ensures old(hw.read) <= hw.read && log == old(log) + Receipts(hw.read[|old(hw.read)|..])
      ensures irqRxBytes == old(irqRxBytes) + drained && hw.sent == old(hw.sent)
      ensures hw.Remaining() + |hw.read| == old(hw.Remaining() + |hw.read|)
      ensures View() == ReceiveAll(old(View()), hw.read[|old(hw.read)|..])
    {
      ghost var read0, log0, u0 := hw.read, log, View();
      drained := 0;
      assert Receipts([]) == [] && ReceiveAll(u0, []) == u0 && read0[|read0|..] == [];
      if budget == 0 {
        return;
      }
      RecordLsrErrors();
      while drained < budget
        invariant Valid() && drained <= budget && hw.sent == old(hw.sent)
        invariant Drained(read0, log0, u0, drained)
        invariant hw.Remaining() + |hw.read| == old(hw.Remaining() + |hw.read|)
        decreases hw.Remaining()
      {
        var some, kept := DrainOne(read0, log0, u0, drained);
        if !some {
          break;
        }
        if kept {
          drained := drained + 1;
        }
      }
      if drained >= budget {
        var lsr := hw.ReadLsr();
        if lsr.dataReady {
          rxBudgetHit := rxBudgetHit + 1;
        }
      }
    }

    /** Every byte read since `read0` is logged, and `drained` of them were kept. */
    ghost predicate Drained(read0: seq<u8>, log0: seq<Action>, u0: Uart, drained: nat)
      reads this, hw, ring, rxShm, txShm
    {
      && read0 <= hw.read && log == log0 + Receipts(hw.read[|read0|..]) && irqRxBytes == u0.irqRxBytes + drained
      && View() == ReceiveAll(u0, hw.read[|read0|..])
    }

    /** One byte, if there is one. */
    method DrainOne(ghost read0: seq<u8>, ghost log0: seq<Action>, ghost u0: Uart, ghost drained: nat)
      returns (some: bool, kept: bool)
      requires Valid() && Drained(read0, log0, u0, drained)
      modifies this`rxBuffer, this`irqRxBytes, this`rxSwDrop, this`history, this`log, hw
      ensures Valid() && hw.sent == old(hw.sent) && (!some ==> hw.fifo == [] && !kept)
      ensures Drained(read0, log0, u0, if kept then drained + 1 else drained)
      ensures hw.Remaining() + |hw.read| == old(hw.Remaining() + |hw.read|)
      ensures some ==> hw.Remaining() < old(hw.Remaining())
    {
      ghost var read, u := hw.read, View();
      var c := GetChar();
      some, kept := c.Some?, false;
      if some {
        OneMoreDrained(read0, read, log0, log, u0, u, c.value);
        kept := Accept(c.value);
      }
    }

    /** Push the buffer into the receive ring, slice by slice; report what went to a waiting reader. */
    method MoveToRing() returns (pushedTotal: nat)
      requires rxShm != txShm && hasShm && |rxShm.data| <= rxShm.cap
      modifies this`rxBuffer, this`pushed, rxShm
      ensures pushedTotal == Movable(old(View())) && rxShm.cap == old(rxShm.cap)
      ensures rxBuffer == old(rxBuffer)[pushedTotal..] && rxShm.data == old(rxShm.data) + old(rxBuffer)[..pushedTotal]
      ensures pushed == old(pushed) + old(rxBuffer)[..pushedTotal]
    {
      ghost var bytes := rxBuffer;
      pushedTotal := 0;
      while |rxBuffer| != 0
        invariant pushedTotal <= |bytes| && rxBuffer == bytes[pushedTotal..]
        invariant rxShm.cap == old(rxShm.cap) && |rxShm.data| <= rxShm.cap
        invariant rxShm.data == old(rxShm.data) + bytes[..pushedTotal]
        invariant pushed == old(pushed) + bytes[..pushedTotal]
        decreases |rxBuffer|
      {
        // The front slice of the deque is some non-empty prefix of its contents.
        var k: nat :| 1 <= k <= |rxBuffer|;
        var n := rxShm.PushSlice(rxBuffer[..k]);
        assert bytes[..pushedTotal + n] == bytes[..pushedTotal] + rxBuffer[..n];
        if n == 0 {
          break;
        }
        pushed := pushed + rxBuffer[..n];
        rxBuffer := rxBuffer[n..];
        pushedTotal := pushedTotal + n;
        if n < k {
          break;
        }
      }
    }

    method ProcessRxRing()
      requires Valid()
      modifies this`rxBuffer, this`pushed, this`log, rxShm, ring
      ensures Valid() && View() == Flush(old(View())) && log == old(log) + [FlushRx]
    {
      ghost var u := View();
      if hasShm {
        var pushedTotal := MoveToRing();
        if pushedTotal > 0 && pendingRead.Some? && hasRing {
          ring.Complete(ReadDone(pendingRead.value, pushedTotal));
        }
      }
      assert View() == Flush(u);
      FlushLogs(start, log, u);
      log := log + [FlushRx];
    }

    /** Hand up to `max` bytes of the transmit ring to the transmitter. */
    method SendChunk(max: nat) returns (n: nat)
      requires Valid()
      modifies this`irqTxBytes, this`log, txShm, hw
      ensures Valid() && old(log) <= log && hw.read == old(hw.read) && Settled(old(View()), View())
      ensures n == if hasShm then Min(max, |old(txShm.data)|) else 0
      ensures n == 0 ==> hw.fifo == old(hw.fifo)
      ensures hw.sent == old(hw.sent) + old(txShm.data)[..n] && txShm.data == old(txShm.data)[n..]
      ensures hw.Remaining() == old(hw.Remaining())
    {
      ghost var u := View();
      if !hasShm {
        return 0;
      }
      var chunk := txShm.PopSlice(max);
      n := |chunk|;
      for i := 0 to n
        modifies hw
        invariant hw.sent == old(hw.sent) + chunk[..i] && hw.read == old(hw.read)
                  && hw.Remaining() == old(hw.Remaining()) && (i == 0 ==> hw.fifo == old(hw.fifo))
      {
        PutChar(chunk[i]);
      }
      irqTxBytes := irqTxBytes + n;
      assert chunk[..n] == chunk;
      TransmitLogs(start, log, u, n, View());
      log := log + [Transmit(n)];
    }

    /**
     Send from the transmit ring within a budget.  With the client quiet, what
     goes out is exactly the first min(budget, length) bytes of the ring, in
     order, whatever arrives on the receive side meanwhile.  After each chunk the
     receive side had its chance: the FIFO is empty or 64 more bytes were kept.
     */
    method ProcessTxRing(budget: nat) returns (total: nat)
      requires Valid()
      modifies this`rxBuffer, this`pushed, this`irqRxBytes, this`rxSwDrop, this`irqTxBytes, this`history, this`log
      modifies this`rxHwLsrOverrun, this`rxBudgetHit, hw, ring, rxShm, txShm
      ensures Valid() && old(log) <= log && Settled(old(View()), View())
      ensures total == if hasShm then Min(budget, |old(txShm.data)|) else 0
      ensures hw.sent == old(hw.sent) + old(txShm.data)[..total] && txShm.data == old(txShm.data)[total..]
      ensures hw.Remaining() <= old(hw.Remaining())
      ensures total > 0 ==> hw.fifo == [] || irqRxBytes >= old(irqRxBytes) + 64
    {
      ghost var sent0, ring0 := hw.sent, txShm.data;
      assert !hasShm ==> ring0 == [];
      assert sent0 + ring0[..0] == sent0 && ring0[0..] == ring0;
      total := 0;
      var remaining := budget;
      while remaining > 0
        invariant Valid() && old(log) <= log && Settled(old(View()), View())
        invariant 0 <= remaining && remaining + total == budget
        invariant Moved(sent0, ring0, total)
        invariant hw.Remaining() <= old(hw.Remaining()) && irqRxBytes >= old(irqRxBytes)
        invariant total > 0 ==> hw.fifo == [] || irqRxBytes >= old(irqRxBytes) + 64
      {
        var chunkLen := if TX_RING_CHUNK <= remaining then TX_RING_CHUNK else remaining;
        var n := SendRound(chunkLen, sent0, ring0, total);
        if n == 0 {
          break;
        }
        total, remaining := total + n, remaining - n;
      }
    }

    /** The first `total` bytes of the ring went to the transmitter, the rest is still there. */
    ghost predicate Moved(sent0: seq<u8>, ring0: seq<u8>, total: nat)
      reads this, hw, txShm
    {
      total <= |ring0| && hw.sent == sent0 + ring0[..total] && txShm.data == ring0[total..]
    }

    /** One chunk of output, and a chance for the receive side after it. */
    method SendRound(max: nat, ghost sent0: seq<u8>, ghost ring0: seq<u8>, ghost total: nat) returns (n: nat)
      requires Valid() && Moved(sent0, ring0, total)
      modifies this`rxBuffer, this`pushed, this`irqRxBytes, this`rxSwDrop, this`irqTxBytes, this`history, this`log
      modifies this`rxHwLsrOverrun, this`rxBudgetHit, hw, ring, rxShm, txShm
      ensures Valid() && old(log) <= log && Settled(old(View()), View())
      ensures n == Min(max, |ring0| - total) && Moved(sent0, ring0, total + n)
      ensures hw.Remaining() <= old(hw.Remaining()) && irqRxBytes >= old(irqRxBytes)
      ensures if n == 0 then hw.fifo == old(hw.fifo) else hw.fifo == [] || irqRxBytes == old(irqRxBytes) + 64
    {
      assert !hasShm ==> txShm.data == [];
      n := SendChunk(max);
      MovesOn(sent0, ring0, total, n);
      if n != 0 {
        GiveRxAChance();
      }
    }

    /** Between chunks of output: a short drain, forwarded if it kept anything. */
    method GiveRxAChance()
      requires Valid()
      modifies this`rxBuffer, this`pushed, this`irqRxBytes, this`rxSwDrop, this`history, this`log
      modifies this`rxHwLsrOverrun, this`rxBudgetHit, hw, ring, rxShm
      ensures Valid() && old(log) <= log && Settled(old(View()), View())
      ensures hw.sent == old(hw.sent) && hw.Remaining() <= old(hw.Remaining()) && old(hw.read) <= hw.read
      ensures irqRxBytes == old(irqRxBytes) + 64 || (hw.fifo == [] && irqRxBytes >= old(irqRxBytes))
      ensures var u := ReceiveAll(old(View()), hw.read[|old(hw.read)|..]);
              View() == if irqRxBytes > old(irqRxBytes) then Flush(u) else u
    {
      var drained := DrainRxFifo(RX_TX_INTERLEAVE_BUDGET_BYTES);
      if drained > 0 {
        FlushAnswersNothing(View());
        ProcessRxRing();
      }
    }

    /** One interrupt event, by its identification. */
    method HandleEvent(iir: u8) returns (gotData: bool, ghost e: Event)
      requires Valid() && iir % 2 == 0
      modifies this`rxBuffer, this`pushed, this`irqRxBytes, this`rxSwDrop, this`irqTxBytes, this`history, this`log
      modifies this`rxHwLsrOverrun, this`rxBudgetHit, hw, ring, rxShm, txShm
      ensures Valid() && old(log) <= log && Settled(old(View()), View())
      ensures e == Event(iir, old(View()), View(), e.drained, hw.fifo) && Handled(e)
      ensures iir % 16 in {4, 6, 12} ==>
                && hw.read == old(hw.read) + e.drained && View() == ReceiveAll(old(View()), e.drained)
                && (irqRxBytes == old(irqRxBytes) + 512 || (hw.fifo == [] && irqRxBytes >= old(irqRxBytes)))
      ensures iir % 16 == 2 ==> SentFirst(old(View()), Min(512, |old(txShm.data)|), View())
      ensures iir % 16 !in {2, 4, 6, 12} ==> View() == old(View())
      ensures gotData <==> iir % 16 in {4, 6, 12} && irqRxBytes > old(irqRxBytes)
    {
      gotData := false;
      ghost var u, drained: seq<u8> := View(), [];
      var id := EventId(iir);
      EventIds(iir);
      if IsReceive(id) {
        gotData, drained := HandleReceive();
      } else if id == IIR_THR_EMPTY {
        HandleTransmit();
      } else {
        RecordLsrErrors();
      }
      e := Event(iir, u, View(), drained, hw.fifo);
    }

    method HandleReceive() returns (gotData: bool, ghost drained: seq<u8>)
      requires Valid()
      modifies this`rxBuffer, this`irqRxBytes, this`rxSwDrop, this`history, this`log
      modifies this`rxHwLsrOverrun, this`rxBudgetHit, hw
      ensures Valid() && old(log) <= log && Settled(old(View()), View())
      ensures hw.read == old(hw.read) + drained && View() == ReceiveAll(old(View()), drained)
      ensures old(irqRxBytes) <= irqRxBytes <= old(irqRxBytes) + 512
      ensures irqRxBytes < old(irqRxBytes) + 512 ==> hw.fifo == []
      ensures gotData == (irqRxBytes > old(irqRxBytes))
    {
      ghost var read0 := hw.read;
      var kept := DrainRxFifo(RX_IRQ_BUDGET_BYTES);
      gotData := kept > 0;
      drained := hw.read[|read0|..];
    }

    method HandleTransmit()
      requires Valid()
      modifies this`rxBuffer, this`pushed, this`irqRxBytes, this`rxSwDrop, this`irqTxBytes, this`history, this`log
      modifies this`rxHwLsrOverrun, this`rxBudgetHit, hw, ring, rxShm, txShm
      ensures Valid() && old(log) <= log && Settled(old(View()), View())
      ensures SentFirst(old(View()), Min(512, |old(txShm.data)|), View())
    {
      assert !hasShm ==> txShm.data == [];
      var written := ProcessTxRing(TX_IRQ_BUDGET_BYTES);
    }

    /** Ask the chip for an event and handle it, if there is one. */
    method NextEvent() returns (more: bool, gotData: bool, ghost e: Event)
      requires Valid()
      modifies this`rxBuffer, this`pushed, this`irqRxBytes, this`rxSwDrop, this`irqTxBytes, this`history, this`log
      modifies this`rxHwLsrOverrun, this`rxBudgetHit, hw, identification, ring, rxShm, txShm
      ensures Valid() && old(log) <= log && Settled(old(View()), View())
      ensures identification.ids == old(identification.ids) + [e.iir] && more == (e.iir % 2 == 0)
      ensures if more then Handled(e) && e.before == old(View()) && e.after == View() else View() == old(View())
    {
      var iir := identification.Read();
      if iir % 2 == IIR_NO_INTERRUPT {
        e := Event(iir, View(), View(), [], hw.fifo);
        return false, false, e;
      }
      gotData, e := HandleEvent(iir);
      more := true;
    }

    /**
     Interrupt events until the chip reports none, at most 64 of them: every
     identification read is handled as its event, in order, and only a last one
     may say that there is none.
     */
    method HandleEvents() returns (hasData: bool, ghost events: seq<Event>, ghost last: seq<u8>)
      requires Valid()
      modifies this`rxBuffer, this`pushed, this`irqRxBytes, this`rxSwDrop, this`irqTxBytes, this`history, this`log
      modifies this`rxHwLsrOverrun, this`rxBudgetHit, hw, identification, ring, rxShm, txShm
      ensures Valid() && old(log) <= log && Settled(old(View()), View())
      ensures Happened(old(View()), events, View())
      ensures identification.ids == old(identification.ids) + Iirs(events) + last
      ensures |events| <= 64 && if |events| == 64 then last == [] else |last| == 1 && last[0] % 2 == 1
    {
      hasData, events, last := false, [], [];
      ghost var u0, ids0 := View(), identification.ids;
      var irqEvents := 0;
      assert Iirs([]) == [];
      while irqEvents < IRQ_EVENT_BUDGET
        invariant 0 <= irqEvents <= IRQ_EVENT_BUDGET && |events| == irqEvents
        invariant Valid() && old(log) <= log && Settled(u0, View())
        invariant Happened(u0, events, View()) && identification.ids == ids0 + Iirs(events)
      {
        var more, got, e := NextEvent();
        if !more {
          last := [e.iir];
          break;
        }
        OneMoreEvent(u0, events, e);
        events := events + [e];
        irqEvents, hasData := irqEvents + 1, hasData || got;
      }
    }

    /** Forward the buffer if there is anything in it, or if asked to. */
    method ForwardBuffered(asked: bool)
      requires Valid()
      modifies this`rxBuffer, this`pushed, this`log, rxShm, ring
      ensures Valid() && old(log) <= log
      ensures View() == Flush(old(View())) && Settled(old(View()), View())
      ensures hasShm ==> rxBuffer == [] || |rxShm.data| == rxShm.cap
    {
      if asked || |rxBuffer| != 0 {
        FlushAnswersNothing(View());
        if hasShm {
          FlushLeaves(View());
        }
        ProcessRxRing();
      } else {
        FlushNothing(View());
      }
    }

    /**
     One interrupt: at most 64 events, each handled by its identification, up
     to the first that says there is none.  So for each transmit event read 512
     bytes go out, as far as the transmit ring has them, from its front and in
     order; at the end the buffer is forwarded and is empty or the client's
     ring is full.
     */
    method HandleIrq() returns (ghost events: seq<Event>, ghost last: seq<u8>, ghost u: Uart)
      requires Valid()
      modifies this`rxBuffer, this`pushed, this`irqRxBytes, this`rxSwDrop, this`irqTxBytes, this`history, this`log
      modifies this`rxHwLsrOverrun, this`rxBudgetHit, hw, identification, ring, rxShm, txShm
      ensures Valid() && old(log) <= log && Settled(old(View()), View())
      ensures Happened(old(View()), events, u) && View() == Flush(u)
      ensures identification.ids == old(identification.ids) + Iirs(events) + last
      ensures |events| <= 64 && if |events| == 64 then last == [] else |last| == 1 && last[0] % 2 == 1
      ensures SentFirst(old(View()), Min(512 * Transmits(Iirs(events)), |old(txShm.data)|), View())
      ensures hasShm ==> rxBuffer == [] || |rxShm.data| == rxShm.cap
    {
      ghost var u0 := View();
      var hasData;
      hasData, events, last := HandleEvents();
      u := View();
      EventsSend(u0, events, u);
      ForwardRest(hasData);
    }

    /** Forwarding at the end of a handler leaves the buffer empty or the client's ring full. */
    method ForwardRest(asked: bool)
      requires Valid()
      modifies this`rxBuffer, this`pushed, this`log, rxShm, ring
      ensures Valid() && old(log) <= log && Settled(old(View()), View()) && View() == Flush(old(View()))
      ensures hasShm ==> rxBuffer == [] || |rxShm.data| == rxShm.cap
    {
      ForwardBuffered(asked);
    }

    /** Wake-up for the completion side: the client has taken something. */
    method HandleCq()
      requires Valid()
      modifies this`rxBuffer, this`pushed, this`log, rxShm, ring
      ensures Valid() && View() == Flush(old(View()))
      ensures hasShm ==> rxBuffer == [] || |rxShm.data| == rxShm.cap
    {
      ForwardBuffered(false);
    }

    /** Post a result to the request ring. */
    method Post(p: Posted, ghost a: Action)
      requires Valid() && hasRing
      requires match p
               case ReadDone(ud, n) => n == 0 && a == PostRead(ud)
               case WriteDone(ud, res) => a == PostWrite(ud, res)
               case Refused(ud) => a == PostRefused(ud)
      modifies this`log, ring
      ensures Valid() && log == old(log) + [a] && old(log) <= log
      ensures View() == old(View()).(posted := old(ring.posted) + [p])
    {
      ghost var u := View();
      ring.Complete(p);
      assert View() == Do(u, a);
      LogGrows(start, log, u, a);
      ActionKeeps(u, a);
      log := log + [a];
    }

    method TakeNext() returns (r: Option<Sqe>)
      requires Valid()
      modifies this`log, ring
      ensures Valid() && old(log) <= log
      ensures r.Some? == (hasRing && old(ring.sq) != [])
      ensures r.Some? ==> r.value == old(ring.sq)[0] && ring.sq == old(ring.sq)[1..]
      ensures View() == if r.Some? then old(View()).(sq := old(ring.sq)[1..]) else old(View())
    {
      if !hasRing {
        return None;
      }
      ghost var u := View();
      r := ring.NextRequest();
      if r.Some? {
        assert View() == Do(u, TakeRequest);
        LogGrows(start, log, u, TakeRequest);
        ActionKeeps(u, TakeRequest);
        log := log + [TakeRequest];
      }
    }

    /** Remember the reader. */
    method Register(ud: u64)
      requires Valid() && hasRing
      modifies this`pendingRead, this`readFrom, this`log
      ensures Valid() && View() == Do(old(View()), RegisterRead(ud)) && log == old(log) + [RegisterRead(ud)]
    {
      ghost var u := View();
      readFrom := if pendingRead.None? then |pushed| else readFrom;
      pendingRead := Some(ud);
      LogGrows(start, log, u, RegisterRead(ud));
      ActionKeeps(u, RegisterRead(ud));
      log := log + [RegisterRead(ud)];
    }

    method ServeWrite(sqe: Sqe)
      requires Valid() && hasRing && sqe.opcode.OpWrite?
      modifies this, hw, ring, rxShm, txShm
      ensures Valid() && old(log) <= log && hasRing && hasShm == old(hasShm) && ring.sq == old(ring.sq)
      ensures pendingRead == old(pendingRead)
      ensures Served(sqe, old(View()), View())
    {
      ghost var avail := |txShm.data|;
      assert !hasShm ==> txShm.data == [];
      var written := ProcessTxRing(TX_SQ_BUDGET_BYTES);
      var res := if sqe.addr == 0 then written else ToI32(sqe.len);
      MoreAnswers(ring.posted, WriteDone(sqe.ud, res));
      Post(WriteDone(sqe.ud, res), PostWrite(sqe.ud, res));
    }

    method ServeRead(sqe: Sqe)
      requires Valid() && hasRing && sqe.opcode.OpRead?
      modifies this, ring, rxShm
      ensures Valid() && old(log) <= log && hasRing && hasShm == old(hasShm) && ring.sq == old(ring.sq)
      ensures pendingRead == Some(sqe.ud)
      ensures Served(sqe, old(View()), View())
      ensures var u := Flush(Do(old(View()), RegisterRead(sqe.ud)));
              View() == u.(posted := u.posted + [ReadDone(sqe.ud, 0)])
    {
      RegisterAndForward(sqe.ud);
      MoreAnswers(ring.posted, ReadDone(sqe.ud, 0));
      Post(ReadDone(sqe.ud, 0), PostRead(sqe.ud));
    }

    /** Remember the reader and forward what is there already. */
    method RegisterAndForward(ud: u64)
      requires Valid() && hasRing
      modifies this`pendingRead, this`readFrom, this`log, this`rxBuffer, this`pushed, ring, rxShm
      ensures Valid() && View() == Flush(Do(old(View()), RegisterRead(ud)))
      ensures log == old(log) + [RegisterRead(ud), FlushRx] && old(log) <= log
      ensures pendingRead == Some(ud) && ring.sq == old(ring.sq) && Answers(ring.posted) == Answers(old(ring.posted))
    {
      Register(ud);
      FlushAnswersNothing(View());
      ProcessRxRing();
    }

    /** Serve one request: one answer, and a write sends its share of the transmit ring. */
    method Serve(sqe: Sqe)
      requires Valid() && hasRing
      modifies this, hw, ring, rxShm, txShm
      ensures Valid() && old(log) <= log && hasRing && hasShm == old(hasShm) && ring.sq == old(ring.sq)
      ensures pendingRead == (if sqe.opcode.OpRead? then Some(sqe.ud) else old(pendingRead))
      ensures Served(sqe, old(View()), View())
    {
      if sqe.opcode.OpWrite? {
        ServeWrite(sqe);
      } else if sqe.opcode.OpRead? {
        ServeRead(sqe);
      } else {
        ghost var u := View();
        ServeOther(sqe);
        OtherIsServed(sqe, u, View());
      }
    }

    /** Refuse a request of another kind. */
    method ServeOther(sqe: Sqe)
      requires Valid() && hasRing
      modifies this, ring
      ensures Valid() && old(log) <= log
      ensures View() == old(View()).(posted := old(ring.posted) + [Refused(sqe.ud)])
    {
      Post(Refused(sqe.ud), PostRefused(sqe.ud));
    }

    /** Take one request and serve it. */
    method ServeNext() returns (more: bool)
      requires Valid() && hasRing
      modifies this, hw, ring, rxShm, txShm
      ensures Valid() && old(log) <= log && hasRing && hasShm == old(hasShm)
      ensures more == (old(ring.sq) != []) && ring.sq == if more then old(ring.sq)[1..] else []
      ensures GoalOf(View()) == GoalOf(old(View()))
    {
      ghost var u := View();
      var sqe := TakeNext();
      more := sqe.Some?;
      if more {
        ghost var taken := View();
        Serve(sqe.value);
        ghost var u' := View();
        ServedLeaves(u, taken, u', sqe.value);
      }
    }

    method ServeAll()
      requires Valid() && hasRing
      modifies this, hw, ring, rxShm, txShm
      ensures Valid() && old(log) <= log && hasRing && hasShm == old(hasShm)
      ensures ring.sq == [] && GoalOf(View()) == GoalOf(old(View()))
    {
      ghost var goal := GoalOf(View());
      while true
        invariant Valid() && old(log) <= log && hasRing && hasShm == old(hasShm)
        invariant GoalOf(View()) == goal
        decreases |ring.sq|
      {
        var more := ServeNext();
        if !more {
          break;
        }
      }
    }

    /**
     Wake-up for the submission side: every request is answered, in order; the
     writes send what they may from the front of the transmit ring; then what
     is buffered is forwarded.
     */
    method HandleSq()
      requires Valid()
      modifies this, hw, ring, rxShm, txShm
      ensures Valid() && old(log) <= log && hasRing == old(hasRing) && hasShm == old(hasShm)
      ensures hasRing ==> AllServed(old(View()), View())
      ensures !hasRing ==> Settled(old(View()), View()) && hw.sent == old(hw.sent) && txShm.data == old(txShm.data)
      ensures hasShm ==> rxBuffer == [] || |rxShm.data| == rxShm.cap
    {
      ghost var u0 := View();
      if hasRing {
        ServeAll();
      }
      ghost var u := View();
      ForwardRest(false);
      ghost var u' := View();
      if hasRing {
        NoneRemain(u0, u, u');
      }
    }
  }

  /** One request is answered, and the transmitter got what it may send. */
  ghost predicate Served(sqe: Sqe, u: Uart, u': Uart) {
    var n := Spent(sqe, |u.txRing|);
    && Answers(u'.posted) == Answers(u.posted) + [AnswerTo(sqe, |u.txRing|)]
    && u'.sent == u.sent + u.txRing[..n] && u'.txRing == u.txRing[n..]
  }

  /** All queued requests are answered. */
  ghost predicate AllServed(u: Uart, u': Uart) {
    var n := SpentOn(u.sq, |u.txRing|);
    && u'.sq == [] && Answers(u'.posted) == Answers(u.posted) + AnswersTo(u.sq, |u.txRing|)
    && u'.sent == u.sent + u.txRing[..n] && u'.txRing == u.txRing[n..]
    && u'.pendingRead == Reader(u.sq, u.pendingRead)
  }

  /** What will have been answered and sent, and who will be waiting, once all queued requests are served. */
  datatype Goal = Goal(answers: seq<Posted>, sent: seq<u8>, txRing: seq<u8>, reader: Option<u64>)

  ghost function GoalOf(u: Uart): Goal {
    var n := SpentOn(u.sq, |u.txRing|);
    Goal(Answers(u.posted) + AnswersTo(u.sq, |u.txRing|), u.sent + u.txRing[..n], u.txRing[n..],
         Reader(u.sq, u.pendingRead))
  }

  lemma OtherIsServed(sqe: Sqe, u: Uart, u': Uart)
    requires !sqe.opcode.OpRead? && !sqe.opcode.OpWrite? && u' == u.(posted := u.posted + [Refused(sqe.ud)])
    ensures Served(sqe, u, u')
  {
    MoreAnswers(u.posted, Refused(sqe.ud));
    assert AnswerTo(sqe, |u.txRing|) == Refused(sqe.ud) && Spent(sqe, |u.txRing|) == 0;
  }

  lemma NoneRemain(u0: Uart, u: Uart, u': Uart)
    requires GoalOf(u) == GoalOf(u0) && u.sq == []
    requires Settled(u, u') && u'.sent == u.sent && u'.txRing == u.txRing
    ensures AllServed(u0, u')
  {
    assert Answers(u.posted) + AnswersTo(u.sq, |u.txRing|) == Answers(u.posted);
    assert u.sent + u.txRing[..0] == u.sent && u.txRing[0..] == u.txRing;
  }

  lemma ServedLeaves(u: Uart, taken: Uart, u': Uart, sqe: Sqe)
    requires u.sq != [] && sqe == u.sq[0] && taken == u.(sq := u.sq[1..])
    requires Served(sqe, taken, u') && u'.sq == taken.sq
    requires u'.pendingRead == if sqe.opcode.OpRead? then Some(sqe.ud) else taken.pendingRead
    ensures GoalOf(u') == GoalOf(u)
  {
    var avail, n := |u.txRing|, Spent(sqe, |u.txRing|);
    var rest := SpentOn(u.sq[1..], avail - n);
    assert AnswersTo(u.sq, avail) == [AnswerTo(sqe, avail)] + AnswersTo(u.sq[1..], avail - n);
    assert u.txRing[..n] + u.txRing[n..][..rest] == u.txRing[..n + rest];
    assert u.txRing[n..][rest..] == u.txRing[n + rest..];
    var a, x, t := Answers(u.posted), AnswerTo(sqe, avail), AnswersTo(u.sq[1..], avail - n);
    assert a + ([x] + t) == (a + [x]) + t;
    assert u.sent + (u.txRing[..n] + u'.txRing[..rest]) == (u.sent + u.txRing[..n]) + u'.txRing[..rest];
  }
}
