/**
 The NS16550A byte pipeline as a value: hardware bytes into a bounded software
 buffer, from there into the client's receive ring; bytes of the client's
 transmit ring to the transmitter.  A run is a list of actions.
 */
module Uarts {
  import opened Base

  const RX_BUFFER_SOFT_LIMIT := 4096
  const TX_RING_CHUNK := 128
  const RX_IRQ_BUDGET_BYTES := 512
  const RX_TX_INTERLEAVE_BUDGET_BYTES := 64
  const TX_IRQ_BUDGET_BYTES := 512
  const TX_SQ_BUDGET_BYTES := 1024
  const IRQ_EVENT_BUDGET := 64

  /** What the driver has posted to the client, by the kind of request. */
  datatype Posted = ReadDone(ud: u64, bytes: nat) | WriteDone(ud: u64, res: int) | Refused(ud: u64)

  /** A byte read from the hardware, how many bytes were buffered then, and whether it was dropped. */
  datatype Received = Received(c: u8, level: nat, dropped: bool)

  /**
   The driver's state.  `history` is every byte read from the hardware,
   `pushed` every byte given to the client, `written` every byte the client
   has put into the transmit ring except those lost with a ring that was
   replaced, `sent` every byte handed to the
   transmitter, and `readFrom` how many bytes had been pushed when a READ was
   first registered.
   */
  datatype Uart = Uart(
    hasRing: bool, hasShm: bool, rxCap: nat,
    rxBuffer: seq<u8>, rxRing: seq<u8>, txRing: seq<u8>,
    pendingRead: Option<u64>, sq: seq<Sqe>, posted: seq<Posted>,
    irqRxBytes: nat, rxSwDrop: nat, irqTxBytes: nat,
    history: seq<Received>, pushed: seq<u8>, written: seq<u8>, sent: seq<u8>, readFrom: nat)

  datatype Action =
    | SetRing
    | SetupShm(cap: nat)
    | Receive(c: u8)
    | FlushRx
    | Transmit(n: nat)
    | TakeRequest
    | RegisterRead(ud: u64)
    | PostRead(ud: u64)
    | PostWrite(ud: u64, res: int)
    | PostRefused(ud: u64)
    | ClientSubmits(sqe: Sqe)
    | ClientReads(n: nat)
    | ClientWrites(bytes: seq<u8>)

  /** A byte from the hardware: kept below the soft limit, dropped at it. */
  function ReceiveByte(u: Uart, c: u8): Uart {
    var kept := |u.rxBuffer| < RX_BUFFER_SOFT_LIMIT;
    var seen := u.(history := u.history + [Received(c, |u.rxBuffer|, !kept)]);
    if kept
    then seen.(rxBuffer := u.rxBuffer + [c], irqRxBytes := u.irqRxBytes + 1)
    else seen.(rxSwDrop := u.rxSwDrop + 1)
  }

  /** Bytes from the hardware, one after the other. */
  function ReceiveAll(u: Uart, bytes: seq<u8>): (u': Uart)
    ensures u' == u.(history := u'.history, rxBuffer := u'.rxBuffer, irqRxBytes := u'.irqRxBytes,
                     rxSwDrop := u'.rxSwDrop)
  {
    if bytes == [] then u
    else var n := |bytes| - 1; ReceiveByte(ReceiveAll(u, bytes[..n]), bytes[n])
  }

  lemma ReceiveOneMore(u: Uart, bytes: seq<u8>, c: u8)
    ensures ReceiveAll(u, bytes + [c]) == ReceiveByte(ReceiveAll(u, bytes), c)
  {
    assert (bytes + [c])[..|bytes|] == bytes;
  }

  /** How many buffered bytes the receive ring takes now. */
  function Movable(u: Uart): nat {
    if u.hasShm && |u.rxRing| <= u.rxCap then Min(|u.rxBuffer|, u.rxCap - |u.rxRing|) else 0
  }

  /** Move what fits from the buffer to the ring, and report it to a waiting reader. */
  function Flush(u: Uart): Uart {
    var n := Movable(u);
    var bytes := u.rxBuffer[..n];
    var moved := u.(rxBuffer := u.rxBuffer[n..], rxRing := u.rxRing + bytes, pushed := u.pushed + bytes);
    if n > 0 && u.pendingRead.Some? && u.hasRing
    then moved.(posted := u.posted + [ReadDone(u.pendingRead.value, n)])
    else moved
  }

  predicate Enabled(u: Uart, a: Action) {
    match a
    case SetRing => !u.hasRing
    case Transmit(n) => u.hasShm && n <= |u.txRing|
    case TakeRequest => u.hasRing && u.sq != []
    case RegisterRead(_) => u.hasRing
    case PostRead(_) => u.hasRing
    case PostWrite(_, _) => u.hasRing
    case PostRefused(_) => u.hasRing
    case ClientSubmits(_) => u.hasRing
    case ClientReads(n) => n <= |u.rxRing|
    case ClientWrites(_) => u.hasShm
    case _ => true
  }

  function Do(u: Uart, a: Action): Uart
    requires Enabled(u, a)
  {
    match a
    case SetRing => u.(hasRing := true)
    case SetupShm(cap) => u.(hasShm := true, rxCap := cap, rxRing := [], txRing := [], written := u.sent)
    case Receive(c) => ReceiveByte(u, c)
    case FlushRx => Flush(u)
    case Transmit(n) => u.(txRing := u.txRing[n..], sent := u.sent + u.txRing[..n], irqTxBytes := u.irqTxBytes + n)
    case TakeRequest => u.(sq := u.sq[1..])
    case RegisterRead(ud) =>
      u.(pendingRead := Some(ud), readFrom := if u.pendingRead.None? then |u.pushed| else u.readFrom)
    case PostRead(ud) => u.(posted := u.posted + [ReadDone(ud, 0)])
    case PostWrite(ud, res) => u.(posted := u.posted + [WriteDone(ud, res)])
    case PostRefused(ud) => u.(posted := u.posted + [Refused(ud)])
    case ClientSubmits(sqe) => u.(sq := u.sq + [sqe])
    case ClientReads(n) => u.(rxRing := u.rxRing[n..])
    case ClientWrites(bytes) => u.(txRing := u.txRing + bytes, written := u.written + bytes)
  }

  /** Nothing set up, nothing received, nothing asked for. */
  ghost predicate Initial(u: Uart) {
    && !u.hasRing && !u.hasShm && u.rxBuffer == [] && u.rxRing == [] && u.txRing == []
    && u.pendingRead == None && u.posted == [] && u.irqRxBytes == 0 && u.rxSwDrop == 0 && u.irqTxBytes == 0
    && u.history == [] && u.pushed == [] && u.written == [] && u.sent == []
  }

  ghost predicate Run(u: Uart, actions: seq<Action>, u': Uart)
    decreases |actions|
  {
    if actions == [] then u' == u
    else Enabled(u, actions[0]) && Run(Do(u, actions[0]), actions[1..], u')
  }

  // ---- What every run keeps ----

  /** The bytes that were kept, in order. */
  function Kept(history: seq<Received>): seq<u8> {
    if history == [] then []
    else var n := |history| - 1;
      Kept(history[..n]) + (if history[n].dropped then [] else [history[n].c])
  }

  /** The sum of all results of read completions. */
  function ReadTotal(posted: seq<Posted>): nat {
    if posted == [] then 0
    else var n := |posted| - 1;
      ReadTotal(posted[..n]) + (if posted[n].ReadDone? then posted[n].bytes else 0)
  }

  ghost predicate RxInv(u: Uart) {
    && (forall i :: 0 <= i < |u.history| ==>
          u.history[i].level <= 4096 && (u.history[i].dropped <==> u.history[i].level == 4096))
    && u.pushed + u.rxBuffer == Kept(u.history)
    && u.irqRxBytes == |u.pushed| + |u.rxBuffer|
    && |u.history| == u.irqRxBytes + u.rxSwDrop
    && |u.rxBuffer| <= 4096
    && (u.hasShm ==> |u.rxRing| <= u.rxCap)
  }

  /** What the client wrote is what was sent and what is still in the ring. */
  ghost predicate TxInv(u: Uart) {
    && u.written == u.sent + u.txRing
    && u.irqTxBytes == |u.sent|
    && (!u.hasShm ==> u.txRing == [])
  }

  /** Once a READ is registered, its ring exists and read results account for every byte pushed since. */
  ghost predicate ReadInv(u: Uart) {
    if u.pendingRead.Some?
    then u.hasRing && u.readFrom <= |u.pushed| && ReadTotal(u.posted) == |u.pushed| - u.readFrom
    else ReadTotal(u.posted) == 0
  }

  ghost predicate Inv(u: Uart) {
    RxInv(u) && TxInv(u) && ReadInv(u)
  }

  lemma MorePosted(posted: seq<Posted>, p: Posted)
    ensures ReadTotal(posted + [p]) == ReadTotal(posted) + (if p.ReadDone? then p.bytes else 0)
  {
    assert (posted + [p])[..|posted|] == posted;
  }

  lemma MoreKept(history: seq<Received>, r: Received)
    ensures Kept(history + [r]) == Kept(history) + (if r.dropped then [] else [r.c])
  {
    assert (history + [r])[..|history|] == history;
  }

  /** After a flush the buffer is empty or the ring is full, unless there is no ring. */
  lemma FlushLeaves(u: Uart)
    requires Inv(u) && u.hasShm
    ensures Flush(u).rxBuffer == [] || |Flush(u).rxRing| == u.rxCap
    ensures Flush(u).pushed + Flush(u).rxBuffer == u.pushed + u.rxBuffer
  {
  }

  /** As much moves as the ring has room for, in order, and that many bytes are reported to whoever waits for them. */
  lemma FlushMoves(u: Uart)
    requires u.hasShm ==> |u.rxRing| <= u.rxCap
    ensures var u', n := Flush(u), |u.rxBuffer| - |Flush(u).rxBuffer|;
            && n == (if u.hasShm then Min(|u.rxBuffer|, u.rxCap - |u.rxRing|) else 0)
            && u'.rxRing == u.rxRing + u.rxBuffer[..n] && u'.rxBuffer == u.rxBuffer[n..]
            && u'.pushed == u.pushed + u.rxBuffer[..n]
            && u'.posted == u.posted + (if n > 0 && u.pendingRead.Some? && u.hasRing
                                        then [ReadDone(u.pendingRead.value, n)] else [])
            && u' == u.(rxBuffer := u'.rxBuffer, rxRing := u'.rxRing, pushed := u'.pushed, posted := u'.posted)
  {
  }

  lemma FlushKeeps(u: Uart)
    requires Inv(u)
    ensures Inv(Flush(u))
  {
    var n := Movable(u);
    assert u.rxBuffer == u.rxBuffer[..n] + u.rxBuffer[n..];
    assert (u.pushed + u.rxBuffer[..n]) + u.rxBuffer[n..] == u.pushed + u.rxBuffer;
    if u.pendingRead.Some? {
      MorePosted(u.posted, ReadDone(u.pendingRead.value, n));
    }
  }

  lemma ReceiveKeeps(u: Uart, c: u8)
    requires RxInv(u)
    ensures RxInv(ReceiveByte(u, c))
  {
    MoreKept(u.history, Received(c, |u.rxBuffer|, |u.rxBuffer| >= RX_BUFFER_SOFT_LIMIT));
    assert u.pushed + (u.rxBuffer + [c]) == (u.pushed + u.rxBuffer) + [c];
  }

  lemma TransmitKeeps(u: Uart, n: nat)
    requires TxInv(u) && Enabled(u, Transmit(n))
    ensures TxInv(Do(u, Transmit(n)))
  {
    assert (u.sent + u.txRing[..n]) + u.txRing[n..] == u.sent + u.txRing;
  }

  lemma PostKeeps(u: Uart, a: Action)
    requires Inv(u) && Enabled(u, a) && (a.PostRead? || a.PostWrite? || a.PostRefused?)
    ensures Inv(Do(u, a))
  {
    match a {
      case PostRead(ud) => MorePosted(u.posted, ReadDone(ud, 0));
      case PostWrite(ud, res) => MorePosted(u.posted, WriteDone(ud, res));
      case PostRefused(ud) => MorePosted(u.posted, Refused(ud));
    }
  }

  lemma ActionKeeps(u: Uart, a: Action)
    requires Inv(u) && Enabled(u, a)
    ensures Inv(Do(u, a))
  {
    if a.Receive? || a.FlushRx? {
      ReceptionKeeps(u, a);
    } else if a.Transmit? || a.ClientWrites? {
      TransmissionKeeps(u, a);
    } else if a.PostRead? || a.PostWrite? || a.PostRefused? {
      PostKeeps(u, a);
    } else {
      OthersKeep(u, a);
    }
  }

  lemma ReceptionKeeps(u: Uart, a: Action)
    requires Inv(u) && Enabled(u, a) && (a.Receive? || a.FlushRx?)
    ensures Inv(Do(u, a))
  {
    if a.Receive? {
      ReceiveKeeps(u, a.c);
    } else {
      FlushKeeps(u);
    }
  }

  lemma TransmissionKeeps(u: Uart, a: Action)
    requires Inv(u) && Enabled(u, a) && (a.Transmit? || a.ClientWrites?)
    ensures Inv(Do(u, a))
  {
    if a.Transmit? {
      TransmitKeeps(u, a.n);
    } else {
      assert u.written + a.bytes == u.sent + (u.txRing + a.bytes);
    }
  }

  lemma OthersKeep(u: Uart, a: Action)
    requires Inv(u) && Enabled(u, a)
    requires a.SetRing? || a.SetupShm? || a.TakeRequest? || a.RegisterRead? || a.ClientSubmits? || a.ClientReads?
    ensures Inv(Do(u, a))
  {
  }

  /** The logs only grow. */
  ghost predicate Extends(u: Uart, u': Uart) {
    u.pushed <= u'.pushed && u.sent <= u'.sent && u.history <= u'.history
  }

  lemma ActionExtends(u: Uart, a: Action)
    requires Enabled(u, a)
    ensures Extends(u, Do(u, a))
  {
  }

  /**
   Order and conservation over every run.  What the client has been given
   followed by what is buffered is what the hardware delivered with the
   dropped bytes deleted; the counters agree; the buffer never exceeds its
   limit, and a byte is dropped exactly when the buffer is at it; read
   completions add up to the bytes pushed since the first READ.
   */
  lemma {:induction false} EveryRun(u: Uart, actions: seq<Action>, u': Uart)
    requires Inv(u) && Run(u, actions, u')
    ensures Inv(u')
    ensures Extends(u, u')
    decreases |actions|
  {
    if actions != [] {
      ActionKeeps(u, actions[0]);
      ActionExtends(u, actions[0]);
      EveryRun(Do(u, actions[0]), actions[1..], u');
    }
  }

  lemma InitialKeeps(u: Uart)
    requires Initial(u)
    ensures Inv(u)
  {
  }

  lemma {:induction false} RunsCompose(a: Uart, s: seq<Action>, b: Uart, t: seq<Action>, c: Uart)
    requires Run(a, s, b) && Run(b, t, c)
    ensures Run(a, s + t, c)
    decreases |s|
  {
    if s == [] {
      assert s + t == t;
    } else {
      RunsCompose(Do(a, s[0]), s[1..], b, t, c);
      assert (s + t)[0] == s[0] && (s + t)[1..] == s[1..] + t;
    }
  }

  lemma RunOne(u: Uart, a: Action)
    requires Enabled(u, a)
    ensures Run(u, [a], Do(u, a))
  {
    assert [a][1..] == [];
  }

  /** With nothing buffered there is nothing to forward. */
  lemma FlushNothing(u: Uart)
    requires u.rxBuffer == []
    ensures Flush(u) == u
  {
    assert u.rxRing + [] == u.rxRing && u.pushed + [] == u.pushed;
  }

  // ---- Interrupt events ----

  /**
   One interrupt event: the identification read, the driver before and after,
   the bytes a receive event took from the FIFO, and what that held then.
   */
  datatype Event = Event(iir: u8, before: Uart, after: Uart, drained: seq<u8>, fifo: seq<u8>)

  /** The transmitter got the first `n` bytes of the ring, and the ring lost exactly those. */
  ghost predicate SentFirst(u: Uart, n: nat, u': Uart) {
    n <= |u.txRing| && u'.sent == u.sent + u.txRing[..n] && u'.txRing == u.txRing[n..]
  }

  /**
   What an event means, by bits 0 to 3 of its identification: a receive event
   (data ready, timeout, line status) takes bytes until 512 were kept or the
   FIFO is empty; a transmit event sends the first 512 bytes of the ring, or
   all of it; any other changes nothing.
   */
  ghost predicate Handled(e: Event) {
    var id := e.iir % 16;
    && id % 2 == 0
    && (id == 4 || id == 12 || id == 6 ==>
          && e.after == ReceiveAll(e.before, e.drained)
          && e.before.irqRxBytes <= e.after.irqRxBytes <= e.before.irqRxBytes + 512
          && (e.after.irqRxBytes < e.before.irqRxBytes + 512 ==> e.fifo == []))
    && (id == 2 ==> SentFirst(e.before, Min(512, |e.before.txRing|), e.after))
    && (id != 2 && id != 4 && id != 6 && id != 12 ==> e.after == e.before)
  }

  /** The events lead from one state to the other, each handled. */
  ghost predicate Happened(u: Uart, events: seq<Event>, u': Uart) {
    if events == [] then u' == u
    else
      var n := |events| - 1;
      Happened(u, events[..n], events[n].before) && Handled(events[n]) && events[n].after == u'
  }

  function Iirs(events: seq<Event>): seq<u8> {
    seq(|events|, i requires 0 <= i < |events| => events[i].iir)
  }

  /** How many of the identifications announce an empty transmitter. */
  function Transmits(iirs: seq<u8>): nat {
    if iirs == [] then 0
    else var n := |iirs| - 1; Transmits(iirs[..n]) + (if iirs[n] % 16 == 2 then 1 else 0)
  }

  lemma OneMoreEvent(u: Uart, events: seq<Event>, e: Event)
    requires Happened(u, events, e.before) && Handled(e)
    ensures Happened(u, events + [e], e.after) && Iirs(events + [e]) == Iirs(events) + [e.iir]
  {
    assert (events + [e])[..|events|] == events;
  }

  lemma SentMore(u: Uart, k: nat, u1: Uart, n: nat, u': Uart)
    requires SentFirst(u, k, u1) && SentFirst(u1, n, u')
    ensures SentFirst(u, k + n, u')
  {
    assert u.txRing[..k] + u.txRing[k..][..n] == u.txRing[..k + n];
    assert u.txRing[k..][n..] == u.txRing[k + n..];
    assert u.sent + (u.txRing[..k] + u.txRing[k..][..n]) == (u.sent + u.txRing[..k]) + u.txRing[k..][..n];
  }

  /** Exactly what goes out: 512 bytes for each transmit event read, as far as the ring has them, in order. */
  lemma {:induction false} EventsSend(u: Uart, events: seq<Event>, u': Uart)
    requires Happened(u, events, u')
    ensures SentFirst(u, Min(512 * Transmits(Iirs(events)), |u.txRing|), u')
    decreases |events|
  {
    if events == [] {
      assert u.sent + u.txRing[..0] == u.sent && u.txRing[0..] == u.txRing;
    } else {
      var n := |events| - 1;
      var e, front := events[n], events[..n];
      var k := Min(512 * Transmits(Iirs(front)), |u.txRing|);
      EventsSend(u, front, e.before);
      assert Iirs(events)[..n] == Iirs(front) && Iirs(events)[n] == e.iir;
      if e.iir % 16 == 2 {
        SentMore(u, k, e.before, Min(512, |e.before.txRing|), u');
      }
    }
  }

  // ---- Answers to requests ----

  /** The completions that answer a request; the others announce forwarded bytes to a waiting reader. */
  function Answers(posted: seq<Posted>): seq<Posted> {
    if posted == [] then []
    else var n := |posted| - 1;
      Answers(posted[..n]) + (if posted[n].ReadDone? && posted[n].bytes > 0 then [] else [posted[n]])
  }

  /** How many of `avail` bytes in the transmit ring a request sends. */
  function Spent(sqe: Sqe, avail: nat): nat {
    if sqe.opcode.OpWrite? then Min(TX_SQ_BUDGET_BYTES, avail) else 0
  }

  function AnswerTo(sqe: Sqe, avail: nat): Posted {
    match sqe.opcode
    case OpWrite => WriteDone(sqe.ud, if sqe.addr == 0 then Spent(sqe, avail) else ToI32(sqe.len))
    case OpRead => ReadDone(sqe.ud, 0)
    case _ => Refused(sqe.ud)
  }

  /** What a list of requests is to be answered, sends in all, and whom it leaves waiting. */
  function AnswersTo(sqes: seq<Sqe>, avail: nat): seq<Posted> {
    if sqes == [] then []
    else [AnswerTo(sqes[0], avail)] + AnswersTo(sqes[1..], avail - Spent(sqes[0], avail))
  }

  function SpentOn(sqes: seq<Sqe>, avail: nat): (n: nat)
    ensures n <= avail
  {
    if sqes == [] then 0
    else Spent(sqes[0], avail) + SpentOn(sqes[1..], avail - Spent(sqes[0], avail))
  }

  function Reader(sqes: seq<Sqe>, pendingRead: Option<u64>): Option<u64> {
    if sqes == [] then pendingRead
    else Reader(sqes[1..], if sqes[0].opcode.OpRead? then Some(sqes[0].ud) else pendingRead)
  }

  function Writes(sqes: seq<Sqe>): nat {
    if sqes == [] then 0 else (if sqes[0].opcode.OpWrite? then 1 else 0) + Writes(sqes[1..])
  }

  lemma MoreAnswers(posted: seq<Posted>, p: Posted)
    ensures Answers(posted + [p]) == Answers(posted) + (if p.ReadDone? && p.bytes > 0 then [] else [p])
  {
    assert (posted + [p])[..|posted|] == posted;
  }

  lemma FlushAnswersNothing(u: Uart)
    ensures Answers(Flush(u).posted) == Answers(u.posted)
  {
    var n := Movable(u);
    if n > 0 && u.pendingRead.Some? {
      MoreAnswers(u.posted, ReadDone(u.pendingRead.value, n));
    }
  }

  /**
   Each request is answered once, under its own tag and in order.  The writes
   share the ring's bytes, 1024 each as far as there are any; a write without
   an address reports how many it sent, one with an address its length.
   */
  lemma {:induction false} AnswersMatchRequests(sqes: seq<Sqe>, avail: nat)
    ensures |AnswersTo(sqes, avail)| == |sqes|
    ensures forall i :: 0 <= i < |sqes| ==>
              var a := AnswersTo(sqes, avail)[i];
              match sqes[i].opcode
              case OpWrite =>
                var left := avail - Min(avail, 1024 * Writes(sqes[..i]));
                a == WriteDone(sqes[i].ud, if sqes[i].addr == 0 then Min(1024, left) else ToI32(sqes[i].len))
              case OpRead => a == ReadDone(sqes[i].ud, 0)
              case _ => a == Refused(sqes[i].ud)
    ensures SpentOn(sqes, avail) == Min(avail, 1024 * Writes(sqes))
    decreases |sqes|
  {
    if sqes != [] {
      var rest, avail1 := sqes[1..], avail - Spent(sqes[0], avail);
      AnswersMatchRequests(rest, avail1);
      forall i | 1 <= i < |sqes|
        ensures AnswersTo(sqes, avail)[i] == AnswersTo(rest, avail1)[i - 1] && rest[i - 1] == sqes[i]
        ensures avail1 - Min(avail1, 1024 * Writes(rest[..i - 1])) == avail - Min(avail, 1024 * Writes(sqes[..i]))
      {
        assert sqes[..i][0] == sqes[0] && sqes[..i][1..] == rest[..i - 1];
      }
    }
  }

  /** Whoever asked last is told about what arrives; without any READ that stays as it was. */
  lemma {:induction false} ReaderIsLast(sqes: seq<Sqe>, e: Sqe, before: Option<u64>)
    ensures Reader([], before) == before
    ensures Reader(sqes + [e], before) == if e.opcode.OpRead? then Some(e.ud) else Reader(sqes, before)
    decreases |sqes|
  {
    if sqes == [] {
      assert [] + [e] == [e] && [e][1..] == [];
    } else {
      assert (sqes + [e])[1..] == sqes[1..] + [e];
      ReaderIsLast(sqes[1..], e, if sqes[0].opcode.OpRead? then Some(sqes[0].ud) else before);
    }
  }
}
