/**
 The virtio-blk driver as a value and its operations as functions: taking
 requests from the submission ring, building a three-descriptor chain for
 each, and turning used-ring entries into completions.  BlockDriver.dfy
 performs the same operations in place; BlockDisk.dfy adds the device.
 */
module Blocks {
  import opened Base
  import opened PendingTable
  import opened VirtQueues
  import opened Windows
  import Rings

  const SLOTS := 64
  const QUEUE_SIZE := 128
  const BATCH := 16
  const HEADER_BYTES := 16
  /** Descriptors in the chain of one request. */
  const CHAIN := 3

  const TYPE_IN: u32 := 0
  const TYPE_OUT: u32 := 1
  const STATUS_OK: u8 := 0

  /** The request header the device reads. */
  datatype Header = Header(ty: u32, reserved: u32, sector: u64)

  /**
   `fetched` records every request ever taken from the submission ring, and
   `batch` those taken and not yet submitted.
   */
  datatype Blk = Blk(q: VQ, pending: seq<Option<Pending>>, headers: seq<Header>, status: seq<u8>,
                     dma: u64, blkSize: u32, shm: Option<Shm>,
                     sq: seq<Sqe>, batch: seq<Sqe>, fetched: seq<Sqe>, cq: seq<Cqe>)
  {
    predicate Wf() {
      && q.Wf() && q.num == QUEUE_SIZE
      && |pending| == |headers| == |status| == SLOTS
      && blkSize > 0
      && dma + 4 * 4096 <= TWO64
    }

    function HeaderAddr(slot: nat): u64
      requires Wf() && slot < SLOTS
    {
      dma + slot * HEADER_BYTES
    }

    function StatusAddr(slot: nat): u64
      requires Wf() && slot < SLOTS
    {
      dma + SLOTS * HEADER_BYTES + slot
    }
  }

  // ---- Submission ----

  /** The first empty slot of the pending table. */
  function FirstEmpty(pending: seq<Option<Pending>>): (r: Option<nat>)
    ensures r.Some? ==> r.value < |pending| && pending[r.value].None?
    ensures r.Some? ==> forall i :: 0 <= i < r.value ==> pending[i].Some?
    ensures r.None? ==> forall i :: 0 <= i < |pending| ==> pending[i].Some?
  {
    if pending == [] then None
    else if pending[0].None? then Some(0)
    else match FirstEmpty(pending[1..])
         case None => None
         case Some(i) => Some(i + 1)
  }

  function TypeOf(op: Opcode): Option<u32> {
    match op
    case OpRead => Some(TYPE_IN)
    case OpWrite => Some(TYPE_OUT)
    case _ => None
  }

  /** Header and status byte of a slot, ready for the device. */
  function Prepare(b: Blk, slot: nat, ty: u32, sector: u64): (b': Blk)
    requires b.Wf() && slot < SLOTS
    ensures b'.Wf()
  {
    b.(headers := b.headers[slot := Header(ty, 0, sector)], status := b.status[slot := 0xFF])
  }

  /** The queue once `d1`, `d2`, `d3` describe the request and the device has been told. */
  function Enqueue(b: Blk, q: VQ, slot: nat, ty: u32, data: u64, len: u32, d1: u16, d2: u16, d3: u16): (q': VQ)
    requires b.Wf() && slot < SLOTS && q.Wf() && q.num == QUEUE_SIZE
    requires d1 < q.num && d2 < q.num && d3 < q.num
    ensures q'.Wf()
  {
    var flags := if ty == TYPE_OUT then DESC_F_NEXT else DESC_F_NEXT + DESC_F_WRITE;
    var q1 := Write(q, d1, Descriptor(b.HeaderAddr(slot), HEADER_BYTES, DESC_F_NEXT, d2));
    var q2 := Write(q1, d2, Descriptor(data, len, flags, d3));
    var q3 := Write(q2, d3, Descriptor(b.StatusAddr(slot), 1, DESC_F_WRITE, 0));
    VirtQueues.Submit(q3, d1)
  }

  function SubmitRequest(b: Blk, sqe: Sqe): (r: (Outcome, Blk))
    requires b.Wf()
    ensures r.1.Wf()
  {
    if sqe.len % b.blkSize != 0 then (Failed(InvalidArgs), b)
    else
      match FirstEmpty(b.pending)
      case None => (Failed(OutOfMemory), b)
      case Some(slot) =>
        match TypeOf(sqe.opcode)
        case None => (Failed(NotSupported), b)
        case Some(ty) =>
          var b1 := Prepare(b, slot, ty, sqe.off);
          match BufferAddr(b.shm, sqe.addr, sqe.len)
          case None => (Failed(InvalidArgs), b1)
          case Some(data) => Claim(b1, slot, ty, data, sqe)
  }

  /** Three allocations without roll-back, then the chain. */
  function Claim(b: Blk, slot: nat, ty: u32, data: u64, sqe: Sqe): (r: (Outcome, Blk))
    requires b.Wf() && slot < SLOTS
    ensures r.1.Wf()
  {
    var (d1, q1) := Alloc(b.q);
    if d1.None? then (Failed(OutOfMemory), b.(q := q1)) else
    var (d2, q2) := Alloc(q1);
    if d2.None? then (Failed(OutOfMemory), b.(q := q2)) else
    var (d3, q3) := Alloc(q2);
    if d3.None? then (Failed(OutOfMemory), b.(q := q3)) else
    (Submitted,
     b.(q := Enqueue(b, q3, slot, ty, data, sqe.len, d1.value, d2.value, d3.value),
        pending := b.pending[slot := Some(Pending(sqe.ud, d1.value))]))
  }

  // ---- The request loop ----

  function Push(b: Blk, sqe: Sqe): Blk {
    b.(sq := b.sq + [sqe])
  }

  function FetchOne(b: Blk): (b': Blk)
    requires b.sq != []
  {
    b.(sq := b.sq[1..], batch := b.batch + [b.sq[0]], fetched := b.fetched + [b.sq[0]])
  }

  /** Take up to `n` requests from the ring. */
  function Fetch(b: Blk, n: nat): (b': Blk)
    ensures b.Wf() ==> b'.Wf()
    decreases |b.sq|
  {
    if n == 0 || b.sq == [] then b else Fetch(FetchOne(b), n - 1)
  }

  /** The first `m` requests taken, all at once. */
  function Take(b: Blk, m: nat): Blk
    requires m <= |b.sq|
  {
    b.(sq := b.sq[m..], batch := b.batch + b.sq[..m], fetched := b.fetched + b.sq[..m])
  }

  lemma TakeNone(b: Blk)
    ensures Take(b, 0) == b
  {
  }

  lemma TakeOneMore(b: Blk, m: nat)
    requires m < |b.sq|
    ensures FetchOne(Take(b, m)) == Take(b, m + 1)
  {
    assert b.sq[..m + 1] == b.sq[..m] + [b.sq[m]];
  }

  /** Taking requests one by one takes as many as there are, up to `k`. */
  lemma {:induction false} FetchTakes(b: Blk, k: nat)
    ensures Fetch(b, k) == Take(b, Min(k, |b.sq|))
    decreases |b.sq|
  {
    if k > 0 && b.sq != [] {
      var m := Min(k, |b.sq|);
      FetchTakes(FetchOne(b), k - 1);
      assert b.sq[..m] == [b.sq[0]] + b.sq[1..][..m - 1];
      assert b.sq[1..][m - 1..] == b.sq[m..];
    }
  }

  /** Submit the next fetched request; a request that fails is completed with -1 at once. */
  function SubmitNext(b: Blk): (b': Blk)
    requires b.Wf() && b.batch != []
    ensures b'.Wf() && |b'.batch| == |b.batch| - 1
  {
    var sqe := b.batch[0];
    var (r, b') := SubmitRequest(b.(batch := b.batch[1..]), sqe);
    if r.Failed? then b'.(cq := b'.cq + [Cqe(sqe.ud, -1)]) else b'
  }

  function SubmitBatch(b: Blk): (b': Blk)
    requires b.Wf()
    ensures b'.Wf()
    decreases |b.batch|
  {
    if b.batch == [] then b else SubmitBatch(SubmitNext(b))
  }

  // ---- Completion ----

  /** The first slot whose chain starts at `head`. */
  function FindHead(pending: seq<Option<Pending>>, head: int): (r: Option<nat>)
    ensures r.Some? ==> r.value < |pending| && pending[r.value].Some? && pending[r.value].value.head == head
    ensures r.Some? ==> forall i :: 0 <= i < r.value && pending[i].Some? ==> pending[i].value.head != head
    ensures r.None? ==> forall i :: 0 <= i < |pending| ==> pending[i].Some? ==> pending[i].value.head != head
  {
    if pending == [] then None
    else if pending[0].Some? && pending[0].value.head == head then Some(0)
    else match FindHead(pending[1..], head)
         case None => None
         case Some(i) => Some(i + 1)
  }

  function ResultOf(status: u8): int {
    if status == STATUS_OK then 0 else -1
  }

  /** Release a slot and its chain and post the outcome. */
  function Finish(b: Blk, slot: nat): (b': Blk)
    requires b.Wf() && slot < SLOTS && b.pending[slot].Some?
    ensures b'.Wf()
  {
    var p := b.pending[slot].value;
    b.(q := FreeAll(b.q, Walk(b.q.descs, p.head, |b.q.descs|)),
       pending := b.pending[slot := None],
       cq := b.cq + [Cqe(p.ud, ResultOf(b.status[slot]))])
  }

  /** Take one used-ring entry; an id that heads no pending chain is ignored. */
  function PopOne(b: Blk): (b': Blk)
    requires b.Wf()
    ensures b'.Wf()
  {
    match Pop(b.q)
    case (None, _) => b
    case (Some(elem), q) =>
      match FindHead(b.pending, elem.id % TWO16)
      case None => b.(q := q)
      case Some(slot) => Finish(b.(q := q), slot)
  }

  lemma PopOneAdvances(b: Blk)
    requires b.Wf() && CanPop(b.q)
    ensures var b' := PopOne(b);
            b'.q.lastUsed == Rings.Succ(b.q.lastUsed) && b'.q.usedIdx == b.q.usedIdx && b'.q.used == b.q.used
    ensures Rings.Outstanding(PopOne(b).q.lastUsed, b.q.usedIdx) == Rings.Outstanding(b.q.lastUsed, b.q.usedIdx) - 1
  {
    Rings.AheadIsSlot(b.q.lastUsed, b.q.usedIdx);
  }

  /**
   What a pop posts: for the head of a request in flight its own tag, with 0
   exactly if its own status byte is 0 and -1 otherwise; for any other id nothing.
   */
  lemma PopPosts(b: Blk)
    requires b.Wf() && CanPop(b.q)
    ensures var head, b' := Pop(b.q).0.value.id % 0x1_0000, PopOne(b);
            match FindHead(b.pending, head)
            case None => b'.cq == b.cq && b'.pending == b.pending
            case Some(slot) =>
              && b'.cq == b.cq + [Cqe(b.pending[slot].value.ud, if b.status[slot] == 0 then 0 else -1)]
              && b'.pending == b.pending[slot := None]
  {
  }

  /** Take used-ring entries until there are none: at most 65535 of them. */
  function PopAll(b: Blk): (b': Blk)
    requires b.Wf()
    ensures b'.Wf() && !CanPop(b'.q)
    decreases Rings.Outstanding(b.q.lastUsed, b.q.usedIdx)
  {
    if !CanPop(b.q) then b
    else
      PopOneAdvances(b);
      PopAll(PopOne(b))
  }

  /** One wake-up by the client. */
  function HandleRing(b: Blk): (b': Blk)
    requires b.Wf() && b.batch == []
    ensures b'.Wf()
  {
    var b1 := Fetch(b, BATCH);
    var b2 := SubmitBatch(b1);
    if |b1.batch| > 0 then PopAll(b2) else b2
  }

  // ---- The invariant ----

  /** Occupied slots and chains in flight correspond one to one: `at` is the slot of each chain. */
  ghost predicate SlotsMatch(pending: seq<Option<Pending>>, l: Ledger, at: map<int, int>) {
    && at.Keys == l.chains.Keys
    && (forall i :: 0 <= i < |pending| && pending[i].Some? ==>
          pending[i].value.head in at && at[pending[i].value.head] == i)
    && (forall h :: h in at ==>
          0 <= at[h] < |pending| && pending[at[h]].Some? && pending[at[h]].value.head == h)
  }

  /** Every request fetched is completed, in flight, or about to be submitted; exactly one of these, exactly once. */
  ghost predicate EachOnce(b: Blk) {
    multiset(TagsOf(b.fetched)) == multiset(DoneTags(b.cq)) + PendingTags(b.pending) + multiset(TagsOf(b.batch))
  }

  /** The descriptors are accounted for, chain by chain and slot by slot. */
  ghost predicate Sound(b: Blk, l: Ledger, at: map<int, int>) {
    && b.Wf()
    && Owned(b.q, CHAIN, l)
    && SlotsMatch(b.pending, l, at)
    && |l.chains| == Count(b.pending)
    && (|l.lost| == 0 || |l.lost| == 2)
  }
}
