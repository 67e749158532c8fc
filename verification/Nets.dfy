/**
 The virtio-net driver as a value: a receive and a transmit queue, each with a
 pending table indexed by chain head, and what every run of it keeps.
 */
module Nets {
  import opened Base
  import opened PendingTable
  import opened VirtQueues
  import opened Windows
  import Rings

  const QUEUE_SIZE := 128
  const BATCH := 16
  /** `VirtioNetHdr` as the driver declares it. */
  const HEADER_BYTES := 10
  const HEADER_STRIDE := 16
  const PAGE := 4096
  /** Descriptors in the chain of one request. */
  const CHAIN := 2

  datatype Side = Rx | Tx

  /**
   One queue with its pending table.  `rejected` counts the requests whose
   buffer lay outside the shared window.
   */
  datatype Port = Port(q: VQ, pending: seq<Option<Pending>>, rejected: nat) {
    predicate Wf() {
      q.Wf() && q.num == QUEUE_SIZE && |pending| == QUEUE_SIZE
    }
  }

  /** `crashed`: the device published an id that is no index of the pending table. */
  datatype Net = Net(rx: Port, tx: Port, dma: u64, shm: Option<Shm>, crashed: bool,
                     sq: seq<Sqe>, batch: seq<Sqe>, fetched: seq<Sqe>, cq: seq<Cqe>)
  {
    predicate Wf() {
      rx.Wf() && tx.Wf() && dma + 4 * PAGE <= TWO64
    }
  }

  function HeaderAddr(dma: u64, side: Side, head: u16): (a: int) {
    dma + (if side == Rx then 0 else PAGE) + head * HEADER_STRIDE
  }

  /** Both descriptors are allocated before the buffer is checked. */
  function SubmitTo(p: Port, side: Side, dma: u64, shm: Option<Shm>, sqe: Sqe): (r: (Outcome, Port))
    requires p.Wf() && dma + 4 * PAGE <= TWO64
    ensures r.1.Wf()
  {
    var (d1, q1) := Alloc(p.q);
    if d1.None? then (Failed(OutOfMemory), p.(q := q1)) else
    var (d2, q2) := Alloc(q1);
    if d2.None? then (Failed(OutOfMemory), p.(q := q2)) else
    match BufferAddr(shm, sqe.addr, sqe.len)
    case None => (Failed(InvalidArgs), p.(q := q2, rejected := p.rejected + 1))
    case Some(data) =>
      var w := if side == Rx then DESC_F_WRITE else 0;
      var header := Descriptor(HeaderAddr(dma, side, d1.value), HEADER_BYTES, DESC_F_NEXT + w, d2.value);
      var q3 := Write(q2, d1.value, header);
      var q4 := Write(q3, d2.value, Descriptor(data, sqe.len, w, 0));
      (Submitted,
       Port(VirtQueues.Submit(q4, d1.value), p.pending[d1.value := Some(Pending(sqe.ud, d1.value))], p.rejected))
  }

  /** Reads go to the receive queue, writes to the transmit queue. */
  function SideOf(op: Opcode): Option<Side> {
    match op
    case OpRead => Some(Rx)
    case OpWrite => Some(Tx)
    case _ => None
  }

  function PortOf(n: Net, side: Side): Port {
    if side == Rx then n.rx else n.tx
  }

  function WithPort(n: Net, side: Side, p: Port): (n': Net)
    ensures PortOf(n', side) == p
  {
    if side == Rx then n.(rx := p) else n.(tx := p)
  }

  function SubmitRequest(n: Net, sqe: Sqe): (r: (Outcome, Net))
    requires n.Wf()
    ensures r.1.Wf()
  {
    match SideOf(sqe.opcode)
    case None => (Failed(NotSupported), n)
    case Some(side) =>
      var (r, p) := SubmitTo(PortOf(n, side), side, n.dma, n.shm, sqe);
      (r, WithPort(n, side, p))
  }

  function FetchOne(n: Net): Net
    requires n.sq != []
  {
    n.(sq := n.sq[1..], batch := n.batch + [n.sq[0]], fetched := n.fetched + [n.sq[0]])
  }

  function Fetch(n: Net, k: nat): (n': Net)
    ensures n.Wf() ==> n'.Wf()
    decreases |n.sq|
  {
    if k == 0 || n.sq == [] then n else Fetch(FetchOne(n), k - 1)
  }

  /** The first `m` requests taken, all at once. */
  function Take(n: Net, m: nat): Net
    requires m <= |n.sq|
  {
    n.(sq := n.sq[m..], batch := n.batch + n.sq[..m], fetched := n.fetched + n.sq[..m])
  }

  lemma TakeNone(n: Net)
    ensures Take(n, 0) == n
  {
  }

  lemma TakeOneMore(n: Net, m: nat)
    requires m < |n.sq|
    ensures FetchOne(Take(n, m)) == Take(n, m + 1)
  {
    assert n.sq[..m + 1] == n.sq[..m] + [n.sq[m]];
  }

  /** Taking requests one by one takes as many as there are, up to `k`. */
  lemma {:induction false} FetchTakes(n: Net, k: nat)
    ensures Fetch(n, k) == Take(n, Min(k, |n.sq|))
    decreases |n.sq|
  {
    if k > 0 && n.sq != [] {
      var m := Min(k, |n.sq|);
      FetchTakes(FetchOne(n), k - 1);
      assert n.sq[..m] == [n.sq[0]] + n.sq[1..][..m - 1];
      assert n.sq[1..][m - 1..] == n.sq[m..];
    }
  }

  function SubmitNext(n: Net): (n': Net)
    requires n.Wf() && n.batch != []
    ensures n'.Wf() && |n'.batch| == |n.batch| - 1
  {
    var sqe := n.batch[0];
    var (r, n') := SubmitRequest(n.(batch := n.batch[1..]), sqe);
    if r.Failed? then n'.(cq := n'.cq + [Cqe(sqe.ud, -1)]) else n'
  }

  function SubmitBatch(n: Net): (n': Net)
    requires n.Wf()
    ensures n'.Wf()
    decreases |n.batch|
  {
    if n.batch == [] then n else SubmitBatch(SubmitNext(n))
  }

  function HandleRing(n: Net): (n': Net)
    requires n.Wf()
    ensures n'.Wf()
  {
    SubmitBatch(Fetch(n, BATCH))
  }

  // ---- Completion ----

  /** Received bytes without the header; nothing for a transmission. */
  function ResultOf(side: Side, len: u32): int {
    if side == Tx then 0 else if len > HEADER_BYTES then ToI32(len - HEADER_BYTES) else 0
  }

  /**
   What the number posted for a received packet says.  The client can recover
   the used length from it whenever the device counted a whole header; it is
   the packet's length up to 2 GiB and negative from there on.
   */
  lemma PostedLengthReadsBack(len: u32)
    ensures ResultOf(Rx, len) % TWO32 + HEADER_BYTES == len <==> len >= HEADER_BYTES
    ensures ResultOf(Rx, len) + HEADER_BYTES == len <==> HEADER_BYTES <= len < HEADER_BYTES + 0x8000_0000
    ensures ResultOf(Rx, len) < 0 <==> len >= HEADER_BYTES + 0x8000_0000
  {
    var n := len - HEADER_BYTES;
    assert n >= 0x8000_0000 ==> ToI32(n) % TWO32 == n;
  }

  /** Take the entry at `id` out of the pending table and free its chain. */
  function Finish(p: Port, id: nat): (p': Port)
    requires p.Wf() && id < QUEUE_SIZE && p.pending[id].Some?
    ensures p'.Wf()
  {
    p.(q := FreeAll(p.q, Walk(p.q.descs, p.pending[id].value.head, |p.q.descs|)), pending := p.pending[id := None])
  }

  /** What one used-ring entry means to the driver. */
  datatype Popped = Empty | Ignored | Crash | Done(cqe: Cqe)

  /** Take one used-ring entry of one queue. */
  function PopEntry(p: Port, side: Side): (r: (Popped, Port))
    requires p.Wf()
    ensures r.1.Wf()
  {
    match Pop(p.q)
    case (None, _) => (Empty, p)
    case (Some(elem), q) =>
      var p1 := p.(q := q);
      if elem.id >= QUEUE_SIZE then (Crash, p1)
      else if p.pending[elem.id].None? then (Ignored, p1)
      else (Done(Cqe(p.pending[elem.id].value.ud, ResultOf(side, elem.len))), Finish(p1, elem.id))
  }

  /** What the driver makes of it: the end, or a completion. */
  function Post(n: Net, r: Popped): (n': Net)
    ensures n.Wf() ==> n'.Wf()
  {
    match r
    case Crash => n.(crashed := true)
    case Done(cqe) => n.(cq := n.cq + [cqe])
    case _ => n
  }

  function PopOne(n: Net, side: Side): (n': Net)
    requires n.Wf()
    ensures n'.Wf()
  {
    var (r, p) := PopEntry(PortOf(n, side), side);
    Post(WithPort(n, side, p), r)
  }

  lemma PopOneAdvances(n: Net, side: Side)
    requires n.Wf() && CanPop(PortOf(n, side).q)
    ensures var q, q' := PortOf(n, side).q, PortOf(PopOne(n, side), side).q;
            && q'.usedIdx == q.usedIdx
            && Rings.Outstanding(q'.lastUsed, q'.usedIdx) == Rings.Outstanding(q.lastUsed, q.usedIdx) - 1
  {
    var q := PortOf(n, side).q;
    Rings.AheadIsSlot(q.lastUsed, q.usedIdx);
    PopTakesOne(n, side);
  }

  lemma PopTakesOne(n: Net, side: Side)
    requires n.Wf() && CanPop(PortOf(n, side).q)
    ensures var q, q' := PortOf(n, side).q, PortOf(PopOne(n, side), side).q;
            q'.usedIdx == q.usedIdx && q'.lastUsed == Rings.Succ(q.lastUsed)
  {
  }

  /** Drain one used ring, up to its end or to the first id that crashes the driver. */
  function PopAll(n: Net, side: Side): (n': Net)
    requires n.Wf()
    ensures n'.Wf() && (n'.crashed || !CanPop(PortOf(n', side).q))
    decreases Rings.Outstanding(PortOf(n, side).q.lastUsed, PortOf(n, side).q.usedIdx)
  {
    if n.crashed || !CanPop(PortOf(n, side).q) then n
    else
      PopOneAdvances(n, side);
      PopAll(PopOne(n, side), side)
  }

  lemma NothingPops(n: Net, side: Side)
    requires n.Wf() && !CanPop(PortOf(n, side).q)
    ensures PopOne(n, side) == n
  {
  }

  lemma PopAllStep(n: Net, side: Side)
    requires n.Wf()
    ensures n.crashed || !CanPop(PortOf(n, side).q) ==> PopAll(n, side) == n
    ensures !n.crashed && CanPop(PortOf(n, side).q) ==> PopAll(n, side) == PopAll(PopOne(n, side), side)
  {
  }

  /** An acknowledged interrupt drains the receive queue and then the transmit queue. */
  function HandleIrq(n: Net, acknowledged: bool): (n': Net)
    requires n.Wf()
    ensures n'.Wf()
  {
    if acknowledged then PopAll(PopAll(n, Rx), Tx) else n
  }

  // ---- The account of one queue ----

  /** Slots are occupied while their index heads a chain, and hold that index. */
  ghost predicate SlotsMatch(pending: seq<Option<Pending>>, chains: map<int, seq<int>>) {
    && (forall i :: 0 <= i < |pending| ==> (pending[i].Some? <==> i in chains))
    && (forall i :: 0 <= i < |pending| && pending[i].Some? ==> pending[i].value.head == i)
  }

  /**
   A slot is occupied exactly while its index heads a chain in flight, and
   each rejection has cost two descriptors.
   */
  ghost predicate Sound(p: Port, l: Ledger) {
    && p.Wf()
    && Owned(p.q, CHAIN, l)
    && SlotsMatch(p.pending, l.chains)
    && |l.chains| == Count(p.pending)
    && |l.lost| == 2 * p.rejected
  }

  lemma TwoPerChain(p: Port, l: Ledger)
    requires Sound(p, l)
    ensures p.q.numFree + 2 * Count(p.pending) + 2 * p.rejected == QUEUE_SIZE
  {
    GroupsMultiply(CHAIN, |l.chains|);
  }

  lemma WalkIsOwnChain(p: Port, l: Ledger, id: nat)
    requires Sound(p, l) && id < QUEUE_SIZE && p.pending[id].Some?
    ensures id in l.chains && IsChain(p.q.descs, l.chains[id]) && Distinct(l.chains[id]) && l.chains[id][0] == id
    ensures Walk(p.q.descs, p.pending[id].value.head, |p.q.descs|) == l.chains[id] && |l.chains[id]| == CHAIN
    ensures p.q.numFree + CHAIN <= QUEUE_SIZE
  {
    OwnersAreDisjoint(QUEUE_SIZE, CHAIN, l);
    WalkVisitsChain(p.q.descs, l.chains[id], |p.q.descs|);
    SetSlotCount(p.pending, id, None);
    TwoPerChain(p, l);
  }

  lemma FinishKeepsSound(p: Port, l: Ledger, id: nat)
    requires Sound(p, l) && id < QUEUE_SIZE && p.pending[id].Some?
    ensures id in l.chains && Sound(Finish(p, id), Retire(l, id))
  {
    WalkIsOwnChain(p, l, id);
    RetireKeepsOwned(p.q, CHAIN, l, id);
    MapShrinks(l.chains, id);
    SetSlotCount(p.pending, id, None);
  }

  /** The queue after a request was accepted: `ids` are the two descriptors it took. */
  function Launched(p: Port, side: Side, dma: u64, data: u64, len: u32, ids: seq<int>): VQ
    requires p.Wf() && |ids| == 2 && 0 <= ids[0] < QUEUE_SIZE && 0 <= ids[1] < QUEUE_SIZE && dma + 4 * PAGE <= TWO64
  {
    var w := if side == Rx then DESC_F_WRITE else 0;
    var x0 := Descriptor(HeaderAddr(dma, side, ids[0]), HEADER_BYTES, DESC_F_NEXT + w, ids[1]);
    var x1 := Descriptor(data, len, w, 0);
    VirtQueues.Submit(Alloc(Alloc(p.q).1).1.(descs := p.q.descs[ids[0] := x0][ids[1] := x1]), ids[0])
  }

  lemma SubmitTakesTop(p: Port, side: Side, dma: u64, shm: Option<Shm>, sqe: Sqe, free: seq<int>)
    requires p.Wf() && dma + 4 * PAGE <= TWO64 && FreeListIs(p.q, free) && |free| >= 2
    ensures var (r, p') := SubmitTo(p, side, dma, shm, sqe);
            var ids := Top(free, 2);
            match BufferAddr(shm, sqe.addr, sqe.len)
            case None => r == Failed(InvalidArgs) && p' == p.(q := Alloc(Alloc(p.q).1).1, rejected := p.rejected + 1)
            case Some(data) =>
              r == Submitted && p' == Port(Launched(p, side, dma, data, sqe.len, ids),
                                           p.pending[ids[0] := Some(Pending(sqe.ud, ids[0]))], p.rejected)
  {
    AllocPair(p.q, free);
  }

  lemma LaunchedIsOwned(p: Port, l: Ledger, side: Side, dma: u64, data: u64, len: u32)
    requires p.Wf() && Owned(p.q, CHAIN, l) && |l.free| >= 2 && dma + 4 * PAGE <= TWO64
    ensures var ids := Top(l.free, 2);
            && 0 <= ids[0] < QUEUE_SIZE && 0 <= ids[1] < QUEUE_SIZE && ids[0] !in l.chains
            && Owned(Launched(p, side, dma, data, len, ids), CHAIN, Launch(l, CHAIN))
  {
    var ids := Top(l.free, 2);
    var w := if side == Rx then DESC_F_WRITE else 0;
    var x0 := Descriptor(HeaderAddr(dma, side, ids[0]), HEADER_BYTES, DESC_F_NEXT + w, ids[1]);
    var x1 := Descriptor(data, len, w, 0);
    LaunchPair(p.q, l, x0, x1);
    SubmitKeepsOwned(Alloc(Alloc(p.q).1).1.(descs := p.q.descs[ids[0] := x0][ids[1] := x1]), 2, Launch(l, 2), ids[0]);
  }

  lemma SlotFills(pending: seq<Option<Pending>>, chains: map<int, seq<int>>, head: u16, ud: u64, ids: seq<int>)
    requires SlotsMatch(pending, chains) && head !in chains && head < |pending|
    ensures pending[head].None? && SlotsMatch(pending[head := Some(Pending(ud, head))], chains[head := ids])
    ensures Count(pending[head := Some(Pending(ud, head))]) == Count(pending) + 1
    ensures |chains[head := ids]| == |chains| + 1
  {
    SetSlotCount(pending, head, Some(Pending(ud, head)));
    MapGrows(chains, head, ids);
  }

  lemma LaunchKeepsSound(p: Port, q': VQ, l: Ledger, ud: u64)
    requires Sound(p, l) && |l.free| >= 2 && Top(l.free, 2)[0] !in l.chains && 0 <= Top(l.free, 2)[0] < QUEUE_SIZE
    requires q'.num == QUEUE_SIZE && Owned(q', CHAIN, Launch(l, CHAIN))
    ensures var head := Top(l.free, 2)[0];
            p.pending[head].None?
            && Sound(Port(q', p.pending[head := Some(Pending(ud, head))], p.rejected), Launch(l, CHAIN))
  {
    var ids := Top(l.free, 2);
    SlotFills(p.pending, l.chains, ids[0], ud, ids);
    var l', pending' := Launch(l, CHAIN), p.pending[ids[0] := Some(Pending(ud, ids[0]))];
    assert l'.chains == l.chains[ids[0] := ids] && l'.lost == l.lost;
    assert SlotsMatch(pending', l'.chains);
  }

  /** Whatever a submission does, the account of the queue balances afterwards. */
  lemma SubmitKeepsSound(p: Port, l: Ledger, side: Side, dma: u64, shm: Option<Shm>, sqe: Sqe) returns (l': Ledger)
    requires Sound(p, l) && dma + 4 * PAGE <= TWO64
    ensures Sound(SubmitTo(p, side, dma, shm, sqe).1, l')
  {
    TwoPerChain(p, l);
    l' := l;
    if |l.free| >= 2 {
      SubmitTakesTop(p, side, dma, shm, sqe, l.free);
      var data := BufferAddr(shm, sqe.addr, sqe.len);
      if data.None? {
        RejectKeepsSound(p, l);
        l' := Abandon(l, 2);
      } else {
        LaunchedIsOwned(p, l, side, dma, data.value, sqe.len);
        LaunchKeepsSound(p, Launched(p, side, dma, data.value, sqe.len, Top(l.free, 2)), l, sqe.ud);
        l' := Launch(l, CHAIN);
      }
    }
  }

  lemma RejectKeepsSound(p: Port, l: Ledger)
    requires Sound(p, l) && |l.free| >= 2
    ensures Sound(p.(q := Alloc(Alloc(p.q).1).1, rejected := p.rejected + 1), Abandon(l, 2))
  {
    AllocPair(p.q, l.free);
    AbandonKeepsOwned(p.q, Alloc(Alloc(p.q).1).1, CHAIN, l, 2);
  }

  /**
   What a submission reports, exactly.  The free count is even, so a second
   allocation never fails after a first; an accepted request goes into an
   empty slot; a refused one leaves ring and table alone, and costs two
   descriptors when its address was the reason.
   */
  lemma SubmitOutcome(p: Port, l: Ledger, side: Side, dma: u64, shm: Option<Shm>, sqe: Sqe)
    requires Sound(p, l) && dma + 4 * PAGE <= TWO64
    ensures p.q.numFree % 2 == 0
    ensures var (r, p') := SubmitTo(p, side, dma, shm, sqe);
            var room, valid := Count(p.pending) + p.rejected < 64, BufferAddr(shm, sqe.addr, sqe.len).Some?;
            && (r == Failed(OutOfMemory) <==> !room)
            && (r == Failed(InvalidArgs) <==> room && !valid)
            && (r == Submitted <==> room && valid)
            && p'.rejected == p.rejected + (if r == Failed(InvalidArgs) then 1 else 0)
            && (r.Failed? ==> p'.pending == p.pending && p'.q.avail == p.q.avail && p'.q.availIdx == p.q.availIdx)
            && (r == Submitted ==>
                  var head := p.q.freeHead;
                  && p.pending[head].None? && p'.pending == p.pending[head := Some(Pending(sqe.ud, head))]
                  && p'.q.avail == VirtQueues.Submit(p.q, head).avail && p'.q.availIdx == Rings.Succ(p.q.availIdx))
  {
    TwoPerChain(p, l);
    if |l.free| >= 2 {
      SubmitTakesTop(p, side, dma, shm, sqe, l.free);
      AllocPair(p.q, l.free);
      FreeIsNoHead(CHAIN, l, |l.free| - 1);
    }
  }

  /** With room left and sums within 64 bits, exactly the requests inside the window are accepted. */
  lemma SubmitInWindow(p: Port, l: Ledger, side: Side, dma: u64, w: Shm, sqe: Sqe)
    requires Sound(p, l) && dma + 4 * PAGE <= TWO64 && Count(p.pending) + p.rejected < 64
    requires Regular(w) && sqe.addr + sqe.len < TWO64
    ensures SubmitTo(p, side, dma, Some(w), sqe).0 == Submitted <==> Inside(w, sqe.addr, sqe.len)
    ensures SubmitTo(p, side, dma, Some(w), sqe).0 == Failed(InvalidArgs) <==> !Inside(w, sqe.addr, sqe.len)
  {
    SubmitOutcome(p, l, side, dma, Some(w), sqe);
    RegularCheck(w, sqe.addr, sqe.len);
  }

  /** The payload descriptor of the chain announced last. */
  function PayloadOf(q: VQ): Option<Descriptor>
    requires q.Wf()
  {
    var head := q.avail[(q.availIdx - 1) % TWO16 % q.num];
    if head < q.num then Some(q.descs[q.descs[head].next]) else None
  }

  lemma BackOne(i: u16)
    ensures (Rings.Succ(i) - 1) % TWO16 == i
  {
  }

  lemma LaunchedPayload(p: Port, side: Side, dma: u64, data: u64, len: u32, ids: seq<int>)
    requires p.Wf() && dma + 4 * PAGE <= TWO64
    requires |ids| == 2 && 0 <= ids[0] < QUEUE_SIZE && 0 <= ids[1] < QUEUE_SIZE && ids[0] != ids[1]
    ensures var q := Launched(p, side, dma, data, len, ids);
            q.Wf() ==> PayloadOf(q) == Some(Descriptor(data, len, if side == Rx then DESC_F_WRITE else 0, 0))
  {
    BackOne(p.q.availIdx);
    var q := Launched(p, side, dma, data, len, ids);
    assert q.avail[p.q.availIdx % QUEUE_SIZE] == ids[0];
    assert q.descs[ids[0]].next == ids[1];
  }

  /** The payload descriptor of an accepted request names the buffer and length it asked for. */
  lemma PayloadIsBuffer(p: Port, l: Ledger, side: Side, dma: u64, shm: Option<Shm>, sqe: Sqe)
    requires Sound(p, l) && dma + 4 * PAGE <= TWO64
    requires SubmitTo(p, side, dma, shm, sqe).0 == Submitted
    ensures var d := PayloadOf(SubmitTo(p, side, dma, shm, sqe).1.q);
            d.Some? && d.value.len == sqe.len && Some(d.value.addr) == BufferAddr(shm, sqe.addr, sqe.len)
  {
    SubmitOutcome(p, l, side, dma, shm, sqe);
    TwoPerChain(p, l);
    SubmitTakesTop(p, side, dma, shm, sqe, l.free);
    TopIsDistinct(CHAIN, l, 2);
    var data := BufferAddr(shm, sqe.addr, sqe.len).value;
    LaunchedPayload(p, side, dma, data, sqe.len, Top(l.free, 2));
  }

  /**
   The first descriptor of an accepted request is its packet header: ten bytes,
   sixteen apart by head, from the first page on for receiving and from the
   second for sending; it links on to the payload, which ends the chain.  The
   device may write both exactly when receiving.
   */
  lemma HeaderIsAnnounced(p: Port, l: Ledger, side: Side, dma: u64, shm: Option<Shm>, sqe: Sqe)
    requires Sound(p, l) && dma + 4 * PAGE <= TWO64
    requires SubmitTo(p, side, dma, shm, sqe).0 == Submitted
    ensures var head, q := p.q.freeHead, SubmitTo(p, side, dma, shm, sqe).1.q;
            var header := q.descs[head];
            var payload := q.descs[header.next];
            && q.avail[p.q.availIdx % 128] == head && q.availIdx == (p.q.availIdx + 1) % 0x1_0000
            && header.addr == dma + (if side == Rx then 0 else 4096) + 16 * head && header.len == 10
            && header.HasNext() && !payload.HasNext()
            && (header.DeviceWrites() <==> side == Rx) && (payload.DeviceWrites() <==> side == Rx)
  {
    var ids, data := AcceptedTakesTop(p, l, side, dma, shm, sqe);
    LaunchedHeader(p, side, dma, data, sqe.len, ids);
  }

  /** The queue of an accepted request is one with two descriptors launched, the top of the free list first. */
  lemma AcceptedTakesTop(p: Port, l: Ledger, side: Side, dma: u64, shm: Option<Shm>, sqe: Sqe)
      returns (ids: seq<int>, data: u64)
    requires Sound(p, l) && dma + 4 * PAGE <= TWO64
    requires SubmitTo(p, side, dma, shm, sqe).0 == Submitted
    ensures |ids| == 2 && ids[0] == p.q.freeHead && 0 <= ids[1] < QUEUE_SIZE && ids[0] != ids[1]
    ensures SubmitTo(p, side, dma, shm, sqe).1.q == Launched(p, side, dma, data, sqe.len, ids)
    ensures Some(data) == BufferAddr(shm, sqe.addr, sqe.len)
  {
    SubmitOutcome(p, l, side, dma, shm, sqe);
    TwoPerChain(p, l);
    SubmitTakesTop(p, side, dma, shm, sqe, l.free);
    TopIsDistinct(CHAIN, l, 2);
    ids, data := Top(l.free, 2), BufferAddr(shm, sqe.addr, sqe.len).value;
  }

  lemma LaunchedHeader(p: Port, side: Side, dma: u64, data: u64, len: u32, ids: seq<int>)
    requires p.Wf() && dma + 4 * PAGE <= TWO64
    requires |ids| == 2 && 0 <= ids[0] < QUEUE_SIZE && 0 <= ids[1] < QUEUE_SIZE && ids[0] != ids[1]
    ensures var q, w := Launched(p, side, dma, data, len, ids), if side == Rx then 2 else 0;
            && q.descs[ids[0]] ==
               Descriptor(dma + (if side == Rx then 0 else 4096) + 16 * ids[0], 10, 1 + w, ids[1])
            && q.descs[ids[1]] == Descriptor(data, len, w, 0)
            && q.avail[p.q.availIdx % 128] == ids[0] && q.availIdx == (p.q.availIdx + 1) % 0x1_0000
  {
  }

  /** It lies in the memory behind the window if the request lies in the window. */
  lemma PayloadIsInWindow(p: Port, l: Ledger, side: Side, dma: u64, w: Shm, sqe: Sqe)
    requires Sound(p, l) && dma + 4 * PAGE <= TWO64
    requires Regular(w) && Inside(w, sqe.addr, sqe.len) && sqe.len > 0
    requires SubmitTo(p, side, dma, Some(w), sqe).0 == Submitted
    ensures var d := PayloadOf(SubmitTo(p, side, dma, Some(w), sqe).1.q);
            d.Some? && InsideMemory(w, d.value.addr, d.value.len)
  {
    PayloadIsBuffer(p, l, side, dma, Some(w), sqe);
    TranslationStaysInside(w, sqe.addr, sqe.len);
  }

  /** A range far outside the window is accepted when its end wraps round. */
  lemma WrappedRequestIsAccepted(p: Port, l: Ledger, side: Side, dma: u64, ud: u64, op: Opcode)
    requires Sound(p, l) && dma + 4 * PAGE <= TWO64 && Count(p.pending) + p.rejected < 64
    ensures var sqe := Sqe(op, WRAPPING_ADDR, WRAPPING_LEN, 0, ud);
            SubmitTo(p, side, dma, Some(SMALL_WINDOW), sqe).0 == Submitted
            && !Inside(SMALL_WINDOW, sqe.addr, sqe.len)
            && var d := PayloadOf(SubmitTo(p, side, dma, Some(SMALL_WINDOW), sqe).1.q);
               d.Some? && !InsideMemory(SMALL_WINDOW, d.value.addr, d.value.len)
  {
    var sqe := Sqe(op, WRAPPING_ADDR, WRAPPING_LEN, 0, ud);
    WrapDeceivesCheck();
    SubmitOutcome(p, l, side, dma, Some(SMALL_WINDOW), sqe);
    PayloadIsBuffer(p, l, side, dma, Some(SMALL_WINDOW), sqe);
  }

  // ---- Steps and runs ----

  /**
   One atomic step of the client, the driver, or a device that puts what it
   likes into a used ring and its index.  What it writes into the clients'
   buffers is the subject of NetPayloads.dfy.
   */
  datatype Step =
    | Arrive(sqe: Sqe)
    | TakeRequest
    | SubmitTaken
    | PopUsed(side: Side)
    | DeviceWrites(side: Side, used: seq<UsedElem>, usedIdx: u16)

  predicate Enabled(n: Net, step: Step) {
    && !n.crashed
    && match step
       case Arrive(_) => true
       case TakeRequest => n.sq != []
       case SubmitTaken => n.batch != []
       case PopUsed(_) => true
       case DeviceWrites(_, used, _) => |used| == QUEUE_SIZE
  }

  function Do(n: Net, step: Step): (n': Net)
    requires n.Wf() && Enabled(n, step)
    ensures n'.Wf()
  {
    match step
    case Arrive(sqe) => n.(sq := n.sq + [sqe])
    case TakeRequest => FetchOne(n)
    case SubmitTaken => SubmitNext(n)
    case PopUsed(side) => PopOne(n, side)
    case DeviceWrites(side, used, usedIdx) =>
      var p := PortOf(n, side);
      WithPort(n, side, p.(q := p.q.(used := used, usedIdx := usedIdx)))
  }

  ghost predicate Run(n: Net, steps: seq<Step>, n': Net)
    requires n.Wf()
    decreases |steps|
  {
    if steps == [] then n' == n else Enabled(n, steps[0]) && Run(Do(n, steps[0]), steps[1..], n')
  }

  ghost predicate EachOnce(n: Net) {
    multiset(TagsOf(n.fetched)) ==
      multiset(DoneTags(n.cq)) + (PendingTags(n.rx.pending) + PendingTags(n.tx.pending)) + multiset(TagsOf(n.batch))
  }

  ghost predicate Inv(n: Net, rx: Ledger, tx: Ledger) {
    n.Wf() && Sound(n.rx, rx) && Sound(n.tx, tx) && EachOnce(n)
  }

  ghost predicate InitialPort(p: Port) {
    && p.Wf() && p.q.descs == Linked(p.q.descs) && p.q.freeHead == 0 && p.q.numFree == QUEUE_SIZE && p.rejected == 0
    && forall i :: 0 <= i < QUEUE_SIZE ==> p.pending[i].None?
  }

  ghost predicate Initial(n: Net) {
    n.Wf() && InitialPort(n.rx) && InitialPort(n.tx) && n.batch == [] && n.fetched == [] && n.cq == []
  }

  lemma InitialPortSound(p: Port)
    requires InitialPort(p)
    ensures Sound(p, FreshLedger(QUEUE_SIZE)) && PendingTags(p.pending) == multiset{}
  {
    FreshIsOwned(p.q, p.q.descs, CHAIN);
    EmptyTable(p.pending);
  }

  /** The tags of both tables, with the table of `side` first. */
  lemma TagsOfSides(n: Net, side: Side)
    ensures PendingTags(n.rx.pending) + PendingTags(n.tx.pending)
         == PendingTags(PortOf(n, side).pending) + PendingTags(PortOf(n, if side == Rx then Tx else Rx).pending)
  {
  }

  /** What one submission does to the two tables. */
  lemma SubmitTables(n: Net, rx: Ledger, tx: Ledger, sqe: Sqe)
    requires n.Wf() && Sound(n.rx, rx) && Sound(n.tx, tx)
    ensures var (r, n') := SubmitRequest(n, sqe);
            && n'.cq == n.cq && n'.batch == n.batch && n'.fetched == n.fetched
            && (r != Submitted ==> n'.rx.pending == n.rx.pending && n'.tx.pending == n.tx.pending)
            && (r == Submitted ==>
                  PendingTags(n'.rx.pending) + PendingTags(n'.tx.pending)
                  == PendingTags(n.rx.pending) + PendingTags(n.tx.pending) + multiset{sqe.ud})
  {
    if SideOf(sqe.opcode).Some? {
      var side := SideOf(sqe.opcode).value;
      var p, other := PortOf(n, side), PortOf(n, if side == Rx then Tx else Rx);
      SubmitTags(p, if side == Rx then rx else tx, side, n.dma, n.shm, sqe);
      TagsOfSides(n, side);
      TagsOfSides(SubmitRequest(n, sqe).1, side);
      AddMiddle(PendingTags(p.pending), multiset{sqe.ud}, PendingTags(other.pending));
    }
  }

  /** What one submission does to the table of its own queue. */
  lemma SubmitTags(p: Port, l: Ledger, side: Side, dma: u64, shm: Option<Shm>, sqe: Sqe)
    requires Sound(p, l) && dma + 4 * PAGE <= TWO64
    ensures var (r, p') := SubmitTo(p, side, dma, shm, sqe);
            && (r != Submitted ==> p'.pending == p.pending)
            && (r == Submitted ==> PendingTags(p'.pending) == PendingTags(p.pending) + multiset{sqe.ud})
  {
    SubmitOutcome(p, l, side, dma, shm, sqe);
    if SubmitTo(p, side, dma, shm, sqe).0 == Submitted {
      SetSlotTags(p.pending, p.q.freeHead, Some(Pending(sqe.ud, p.q.freeHead)));
    }
  }

  lemma AddMiddle(a: multiset<u64>, x: multiset<u64>, b: multiset<u64>)
    ensures (a + x) + b == (a + b) + x
  {
  }

  lemma SubmitNextTags(n: Net, rx: Ledger, tx: Ledger)
    requires Inv(n, rx, tx) && n.batch != []
    ensures EachOnce(SubmitNext(n))
  {
    var sqe, n0 := n.batch[0], n.(batch := n.batch[1..]);
    assert n.batch == [sqe] + n0.batch;
    MoreTags(n0.batch, sqe);
    MoreDone(n.cq, Cqe(sqe.ud, -1));
    SubmitTables(n0, rx, tx, sqe);
    Regroup(multiset(DoneTags(n.cq)), PendingTags(n.rx.pending) + PendingTags(n.tx.pending), multiset{sqe.ud},
            multiset(TagsOf(n0.batch)));
  }

  lemma Regroup(done: multiset<u64>, tables: multiset<u64>, x: multiset<u64>, rest: multiset<u64>)
    ensures done + tables + (rest + x) == (done + x) + tables + rest
    ensures done + tables + (rest + x) == done + (tables + x) + rest
  {
  }

  lemma SubmitNextKeeps(n: Net, rx: Ledger, tx: Ledger) returns (rx': Ledger, tx': Ledger)
    requires Inv(n, rx, tx) && n.batch != []
    ensures Inv(SubmitNext(n), rx', tx')
  {
    var sqe := n.batch[0];
    rx', tx' := rx, tx;
    SubmitNextTags(n, rx, tx);
    match SideOf(sqe.opcode) {
      case None =>
      case Some(Rx) => rx' := SubmitKeepsSound(n.rx, rx, Rx, n.dma, n.shm, sqe);
      case Some(Tx) => tx' := SubmitKeepsSound(n.tx, tx, Tx, n.dma, n.shm, sqe);
    }
  }

  lemma FinishTags(n: Net, n': Net, side: Side, id: nat, cqe: Cqe)
    requires n.Wf() && EachOnce(n) && id < QUEUE_SIZE && PortOf(n, side).pending[id].Some?
    requires PortOf(n', side).pending == PortOf(n, side).pending[id := None]
    requires PortOf(n', if side == Rx then Tx else Rx) == PortOf(n, if side == Rx then Tx else Rx)
    requires n'.cq == n.cq + [cqe] && cqe.ud == PortOf(n, side).pending[id].value.ud
    requires n'.batch == n.batch && n'.fetched == n.fetched
    ensures EachOnce(n')
  {
    var p, other := PortOf(n, side), PortOf(n, if side == Rx then Tx else Rx);
    SetSlotTags(p.pending, id, None);
    MoreDone(n.cq, cqe);
    TagsOfSides(n, side);
    TagsOfSides(n', side);
    assert PendingTags(p.pending[id := None]) + multiset{cqe.ud} == PendingTags(p.pending);
    AddMiddle(PendingTags(p.pending[id := None]), multiset{cqe.ud}, PendingTags(other.pending));
    MoveTag(multiset(DoneTags(n.cq)), PendingTags(p.pending[id := None]) + PendingTags(other.pending), multiset{cqe.ud},
            multiset(TagsOf(n.batch)));
  }

  /**
   One used element keeps the account of its queue, whatever it names: a
   completion empties the request's own slot and frees its own chain, anything
   else changes neither.
   */
  lemma PopEntryKeeps(p: Port, side: Side, l: Ledger) returns (l': Ledger)
    requires Sound(p, l)
    ensures Sound(PopEntry(p, side).1, l')
    ensures PopEntry(p, side).0.Done? ==>
              var id := Pop(p.q).0.value.id as int;
              id in l.chains && l' == Retire(l, id) && PopEntry(p, side).1.pending == p.pending[id := None]
    ensures !PopEntry(p, side).0.Done? ==> l' == l && PopEntry(p, side).1.pending == p.pending
  {
    l' := l;
    if CanPop(p.q) {
      var id, p1 := Pop(p.q).0.value.id, p.(q := Pop(p.q).1);
      assert Sound(p1, l);
      if id < QUEUE_SIZE && p.pending[id].Some? {
        FinishKeepsSound(p1, l, id);
        l' := Retire(l, id);
      }
    }
  }

  /** What one used element does to the pending table. */
  lemma PopEntryTable(p: Port, side: Side)
    requires p.Wf()
    ensures var (r, p') := PopEntry(p, side);
            if r.Done?
            then CanPop(p.q) && var id := Pop(p.q).0.value.id;
                 id < QUEUE_SIZE && p.pending[id].Some? && p'.pending == p.pending[id := None]
                 && r.cqe.ud == p.pending[id].value.ud
            else p'.pending == p.pending
  {
  }

  lemma PopOneTags(n: Net, side: Side)
    requires n.Wf() && EachOnce(n)
    ensures EachOnce(PopOne(n, side))
  {
    var p, n' := PortOf(n, side), PopOne(n, side);
    var r := PopEntry(p, side).0;
    PopEntryTable(p, side);
    if r.Done? {
      FinishTags(n, n', side, Pop(p.q).0.value.id, r.cqe);
    } else {
      assert n'.rx.pending == n.rx.pending && n'.tx.pending == n.tx.pending;
    }
  }

  lemma PopOneKeeps(n: Net, side: Side, rx: Ledger, tx: Ledger) returns (rx': Ledger, tx': Ledger)
    requires Inv(n, rx, tx)
    ensures Inv(PopOne(n, side), rx', tx')
  {
    rx', tx' := rx, tx;
    PopOneTags(n, side);
    if side == Rx {
      rx' := PopEntryKeeps(n.rx, Rx, rx);
    } else {
      tx' := PopEntryKeeps(n.tx, Tx, tx);
    }
  }

  /** No invariant depends on the memory the device writes. */
  lemma DeviceKeeps(n: Net, step: Step, rx: Ledger, tx: Ledger)
    requires Inv(n, rx, tx) && Enabled(n, step) && step.DeviceWrites?
    ensures Inv(Do(n, step), rx, tx)
  {
    var p := PortOf(n, step.side);
    assert Sound(PortOf(Do(n, step), step.side), if step.side == Rx then rx else tx);
  }

  lemma FetchOneKeeps(n: Net, rx: Ledger, tx: Ledger)
    requires Inv(n, rx, tx) && n.sq != []
    ensures Inv(FetchOne(n), rx, tx)
  {
    MoreTags(n.batch, n.sq[0]);
    MoreTags(n.fetched, n.sq[0]);
  }

  lemma QueueKeeps(n: Net, step: Step, rx: Ledger, tx: Ledger)
    requires Inv(n, rx, tx) && Enabled(n, step) && (step.Arrive? || step.TakeRequest?)
    ensures Inv(Do(n, step), rx, tx)
  {
    if step.TakeRequest? {
      FetchOneKeeps(n, rx, tx);
    }
  }

  lemma StepKeeps(n: Net, step: Step, rx: Ledger, tx: Ledger) returns (rx': Ledger, tx': Ledger)
    requires Inv(n, rx, tx) && Enabled(n, step)
    ensures Inv(Do(n, step), rx', tx')
  {
    rx', tx' := rx, tx;
    if step.SubmitTaken? {
      rx', tx' := SubmitNextKeeps(n, rx, tx);
    } else if step.PopUsed? {
      rx', tx' := PopOneKeeps(n, step.side, rx, tx);
    } else if step.DeviceWrites? {
      DeviceKeeps(n, step, rx, tx);
    } else {
      QueueKeeps(n, step, rx, tx);
    }
  }

  /** If the next used element completes a request, `ids` is the chain of that request. */
  ghost predicate PopReady(p: Port, ids: seq<int>)
    requires p.Wf()
  {
    CanPop(p.q) ==>
      var id := Pop(p.q).0.value.id;
      id < QUEUE_SIZE && p.pending[id].Some? ==>
        && IsChain(p.q.descs, ids) && Distinct(ids) && ids[0] == p.pending[id].value.head
        && Walk(p.q.descs, ids[0], QUEUE_SIZE) == ids && p.q.numFree + |ids| < TWO16
  }

  lemma PopFacts(n: Net, side: Side, rx: Ledger, tx: Ledger) returns (ids: seq<int>, rx': Ledger, tx': Ledger)
    requires Inv(n, rx, tx)
    ensures PopReady(PortOf(n, side), ids) && Inv(PopOne(n, side), rx', tx')
  {
    rx', tx' := PopOneKeeps(n, side, rx, tx);
    ids := [];
    var p, l := PortOf(n, side), if side == Rx then rx else tx;
    if CanPop(p.q) {
      var id := Pop(p.q).0.value.id;
      if id < QUEUE_SIZE && p.pending[id].Some? {
        WalkIsOwnChain(p, l, id);
        ids := l.chains[id];
      }
    }
  }

  lemma {:induction false} FetchKeeps(n: Net, k: nat, rx: Ledger, tx: Ledger)
    requires Inv(n, rx, tx)
    ensures Inv(Fetch(n, k), rx, tx)
    decreases |n.sq|
  {
    if k > 0 && n.sq != [] {
      FetchOneKeeps(n, rx, tx);
      FetchKeeps(FetchOne(n), k - 1, rx, tx);
    }
  }

  lemma {:induction false} SubmitBatchKeeps(n: Net, rx: Ledger, tx: Ledger) returns (rx': Ledger, tx': Ledger)
    requires Inv(n, rx, tx)
    ensures Inv(SubmitBatch(n), rx', tx')
    decreases |n.batch|
  {
    rx', tx' := rx, tx;
    if n.batch != [] {
      rx', tx' := SubmitNextKeeps(n, rx, tx);
      rx', tx' := SubmitBatchKeeps(SubmitNext(n), rx', tx');
    }
  }

  lemma HandleRingKeeps(n: Net, rx: Ledger, tx: Ledger) returns (rx': Ledger, tx': Ledger)
    requires Inv(n, rx, tx)
    ensures Inv(HandleRing(n), rx', tx')
  {
    FetchKeeps(n, BATCH, rx, tx);
    rx', tx' := SubmitBatchKeeps(Fetch(n, BATCH), rx, tx);
  }

  lemma {:induction false} RunKeeps(n: Net, steps: seq<Step>, n': Net, rx: Ledger, tx: Ledger)
      returns (rx': Ledger, tx': Ledger)
    requires Inv(n, rx, tx) && Run(n, steps, n')
    ensures Inv(n', rx', tx')
    decreases |steps|
  {
    rx', tx' := rx, tx;
    if steps != [] {
      rx', tx' := StepKeeps(n, steps[0], rx, tx);
      rx', tx' := RunKeeps(Do(n, steps[0]), steps[1..], n', rx', tx');
    }
  }

  /**
   The law of every reachable state, whatever the device writes into the used
   rings: on each queue free, in flight and rejected requests account for all
   128 descriptors, two by two, and every request fetched is completed, in
   flight on one queue, or still to be submitted, exactly once.
   */
  lemma EveryRun(n: Net, steps: seq<Step>, n': Net) returns (rx: Ledger, tx: Ledger)
    requires Initial(n) && Run(n, steps, n')
    ensures Inv(n', rx, tx)
    ensures n'.rx.q.numFree + 2 * Count(n'.rx.pending) + 2 * n'.rx.rejected == 128
    ensures n'.tx.q.numFree + 2 * Count(n'.tx.pending) + 2 * n'.tx.rejected == 128
  {
    InitialPortSound(n.rx);
    InitialPortSound(n.tx);
    rx, tx := RunKeeps(n, steps, n', FreshLedger(QUEUE_SIZE), FreshLedger(QUEUE_SIZE));
    TwoPerChain(n'.rx, rx);
    TwoPerChain(n'.tx, tx);
  }

  // ---- Wake-ups and interrupts are runs ----

  lemma RunCons(a: Net, step: Step, rest: seq<Step>, c: Net)
    requires a.Wf() && Enabled(a, step) && Run(Do(a, step), rest, c)
    ensures Run(a, [step] + rest, c)
  {
    assert ([step] + rest)[1..] == rest;
  }

  lemma {:induction false} RunsCompose(a: Net, s: seq<Step>, b: Net, t: seq<Step>, c: Net)
    requires a.Wf() && Run(a, s, b) && b.Wf() && Run(b, t, c)
    ensures Run(a, s + t, c)
    decreases |s|
  {
    if s == [] {
      assert s + t == t;
    } else {
      var next := FirstOf(a, s, b);
      RunsCompose(next, s[1..], b, t, c);
      FirstThen(a, s[0], next, s[1..] + t, c);
      assert s + t == [s[0]] + (s[1..] + t);
    }
  }

  lemma FirstOf(a: Net, s: seq<Step>, b: Net) returns (next: Net)
    requires a.Wf() && s != [] && Run(a, s, b)
    ensures Enabled(a, s[0]) && next == Do(a, s[0]) && next.Wf() && Run(next, s[1..], b)
  {
    next := Do(a, s[0]);
  }

  lemma FirstThen(a: Net, step: Step, next: Net, rest: seq<Step>, c: Net)
    requires a.Wf() && Enabled(a, step) && next == Do(a, step) && Run(next, rest, c)
    ensures Run(a, [step] + rest, c)
  {
    RunCons(a, step, rest, c);
  }

  /** The driver's own steps, one after the other. */
  predicate DriverOnly(steps: seq<Step>) {
    forall i :: 0 <= i < |steps| ==> steps[i].TakeRequest? || steps[i].SubmitTaken? || steps[i].PopUsed?
  }

  lemma {:induction false} PopAllIsRun(n: Net, side: Side) returns (steps: seq<Step>)
    requires n.Wf()
    ensures Run(n, steps, PopAll(n, side)) && forall i :: 0 <= i < |steps| ==> steps[i] == PopUsed(side)
    decreases Rings.Outstanding(PortOf(n, side).q.lastUsed, PortOf(n, side).q.usedIdx)
  {
    steps := [];
    PopAllStep(n, side);
    if !n.crashed && CanPop(PortOf(n, side).q) {
      PopOneAdvances(n, side);
      var rest := PopAllIsRun(PopOne(n, side), side);
      RunCons(n, PopUsed(side), rest, PopAll(n, side));
      steps := [PopUsed(side)] + rest;
    }
  }

  lemma {:induction false} FetchIsRun(n: Net, k: nat) returns (steps: seq<Step>)
    requires n.Wf() && !n.crashed
    ensures Run(n, steps, Fetch(n, k)) && DriverOnly(steps) && !Fetch(n, k).crashed
    decreases |n.sq|
  {
    steps := [];
    if k > 0 && n.sq != [] {
      var rest := FetchIsRun(FetchOne(n), k - 1);
      RunCons(n, TakeRequest, rest, Fetch(n, k));
      steps := [TakeRequest] + rest;
    }
  }

  lemma {:induction false} SubmitBatchIsRun(n: Net) returns (steps: seq<Step>)
    requires n.Wf() && !n.crashed
    ensures Run(n, steps, SubmitBatch(n)) && DriverOnly(steps)
    decreases |n.batch|
  {
    steps := [];
    if n.batch != [] {
      SubmittingGoesOn(n);
      var rest := SubmitBatchIsRun(SubmitNext(n));
      RunCons(n, SubmitTaken, rest, SubmitBatch(n));
      steps := [SubmitTaken] + rest;
    }
  }

  lemma SubmittingGoesOn(n: Net)
    requires n.Wf() && n.batch != []
    ensures SubmitNext(n).crashed == n.crashed
  {
  }

  /** A wake-up by the client is a run of the driver alone. */
  lemma HandleRingIsRun(n: Net) returns (steps: seq<Step>)
    requires n.Wf() && n.batch == [] && !n.crashed
    ensures Run(n, steps, HandleRing(n)) && DriverOnly(steps)
  {
    var fetch := FetchIsRun(n, BATCH);
    var submit := SubmitBatchIsRun(Fetch(n, BATCH));
    RunsCompose(n, fetch, Fetch(n, BATCH), submit, HandleRing(n));
    steps := fetch + submit;
  }

  /** So is an interrupt. */
  lemma HandleIrqIsRun(n: Net, acknowledged: bool) returns (steps: seq<Step>)
    requires n.Wf()
    ensures Run(n, steps, HandleIrq(n, acknowledged)) && DriverOnly(steps)
  {
    steps := [];
    if acknowledged {
      var rx := PopAllIsRun(n, Rx);
      var tx := PopAllIsRun(PopAll(n, Rx), Tx);
      RunsCompose(n, rx, PopAll(n, Rx), tx, HandleIrq(n, acknowledged));
      steps := rx + tx;
    }
  }

  // ---- What a wake-up does ----

  /** Reads go to the receive queue, writes to the transmit queue, anything else nowhere. */
  lemma OpcodePicksQueue(n: Net, sqe: Sqe)
    requires n.Wf()
    ensures var (r, n') := SubmitRequest(n, sqe);
            match sqe.opcode
            case OpRead => n' == n.(rx := n'.rx) && (r, n'.rx) == SubmitTo(n.rx, Rx, n.dma, n.shm, sqe)
            case OpWrite => n' == n.(tx := n'.tx) && (r, n'.tx) == SubmitTo(n.tx, Tx, n.dma, n.shm, sqe)
            case _ => r == Failed(NotSupported) && n' == n
  {
  }

  /** One submission takes the oldest request of the batch, and answers a refused one with -1 at once. */
  lemma SubmitNextTakes(n: Net)
    requires n.Wf() && n.batch != []
    ensures var n', sqe := SubmitNext(n), n.batch[0];
            var r := SubmitRequest(n.(batch := n.batch[1..]), sqe).0;
            && n'.batch == n.batch[1..] && n'.sq == n.sq && n'.fetched == n.fetched
            && n'.cq == if r == Submitted then n.cq else n.cq + [Cqe(sqe.ud, -1)]
  {
  }

  lemma {:induction false} SubmitBatchEmpties(n: Net)
    requires n.Wf()
    ensures var n' := SubmitBatch(n); n'.batch == [] && n'.sq == n.sq && n'.fetched == n.fetched
    decreases |n.batch|
  {
    if n.batch != [] {
      SubmitNextTakes(n);
      SubmitBatchEmpties(SubmitNext(n));
    }
  }

  /** One wake-up takes the first sixteen requests, or as many as there are, and submits them all. */
  lemma WakeUp(n: Net)
    requires n.Wf() && n.batch == []
    ensures var n', k := HandleRing(n), Min(16, |n.sq|);
            && n'.sq == n.sq[k..] && n'.fetched == n.fetched + n.sq[..k] && n'.batch == []
            && (k == 0 ==> n' == n)
  {
    FetchTakes(n, BATCH);
    SubmitBatchEmpties(Fetch(n, BATCH));
    assert n.batch + n.sq[..Min(16, |n.sq|)] == n.sq[..Min(16, |n.sq|)];
  }
}
