/**
 The virtio-blk driver object: the methods of `VirtIOBlk`, updating queue,
 pending table and DMA area in place.  What each one does is the function of
 the same name in Blocks, and every one of them keeps the account of the
 descriptors that the ghost fields record.
 */
module BlockDriver {
  import opened Base
  import V = VirtQueues
  import opened Blocks
  import opened Windows
  import opened PendingTable
  import B = BlockRuns
  import VirtQueueDriver
  import opened IoUring
  import Rings

  class VirtIOBlk {
    const queue: VirtQueueDriver.VirtQueue
    const pendingInfo: array<Option<Pending>>
    const headers: array<Header>
    const status: array<u8>
    const ringServer: IoUringServer
    const dmaPaddr: u64
    const blkSize: u32
    const buffer: Option<Shm>

    // Requests taken from the ring: all of them, and those not yet submitted.
    ghost var fetched: seq<Sqe>
    ghost var batch: seq<Sqe>
    // The account of the descriptors and the slot of every chain.
    ghost var ledger: V.Ledger
    ghost var at: map<int, int>

    ghost function Repr(): set<object> {
      {this, pendingInfo, headers, status, ringServer} + queue.Repr
    }

    /** The parts do not share memory and have the sizes `init` gave them. */
    ghost predicate Laid()
      reads Repr(), queue, queue.desc, queue.avail, queue.used
    {
      && queue.Valid()
      && {this as object, pendingInfo, headers, status, ringServer} !! queue.Repr
      && (pendingInfo as object) != headers && (pendingInfo as object) != status && (headers as object) != status
      && View().Wf()
    }

    ghost predicate Valid()
      reads Repr(), queue, queue.desc, queue.avail, queue.used
    {
      Laid() && B.Inv(View(), ledger, at)
    }

    /** The driver as a value. */
    ghost function View(): Blk
      reads this, queue, queue.desc, queue.avail, queue.used, pendingInfo, headers, status, ringServer
    {
      Blk(queue.View(), pendingInfo[..], headers[..], status[..], dmaPaddr, blkSize, buffer,
          ringServer.sq, batch, fetched, ringServer.cq)
    }

    /**
     Construction and `init`: an empty pending table and a fresh queue of 128
     in the driver's DMA area, whose ring indices the device starts from.
     */
    constructor (desc: array<V.Descriptor>, avail: array<u16>, used: array<V.UsedElem>, availIdx: u16, usedIdx: u16,
                 headers: array<Header>, status: array<u8>, dmaPaddr: u64, blkSize: u32, buffer: Option<Shm>,
                 ringServer: IoUringServer)
      requires desc.Length == avail.Length == used.Length == QUEUE_SIZE && headers.Length == status.Length == SLOTS
      requires {headers as object, status, ringServer} !! {desc as object, avail, used}
      requires (headers as object) != status && (desc as object) != avail && (desc as object) != used
               && (avail as object) != used
      requires dmaPaddr + 4 * 4096 <= TWO64 && ringServer.cq == []
      modifies desc
      ensures Valid() <==> blkSize > 0
      ensures blkSize > 0 ==> B.Initial(View())
      ensures View().q.availIdx == availIdx && View().q.usedIdx == usedIdx && View().q.lastUsed == 0
      ensures ringServer.sq == old(ringServer.sq) && this.ringServer == ringServer
    {
      pendingInfo := new Option<Pending>[SLOTS](_ => None);
      this.headers, this.status, this.ringServer := headers, status, ringServer;
      this.dmaPaddr, this.blkSize, this.buffer := dmaPaddr, blkSize, buffer;
      var q := new VirtQueueDriver.VirtQueue(QUEUE_SIZE, desc, avail, used, availIdx, usedIdx);
      queue := q;
      fetched, batch, ledger, at := [], [], V.FreshLedger(QUEUE_SIZE), map[];
      new;
      assert V.Linked(queue.desc[..]) == queue.desc[..];
      if blkSize > 0 {
        B.InitialKeeps(View());
      }
    }

    method BlockSize() returns (r: u32)
      ensures r == blkSize
    {
      r := blkSize;
    }

    /** The first empty slot of the pending table. */
    method FindEmpty() returns (r: Option<nat>)
      ensures r == FirstEmpty(pendingInfo[..])
    {
      var i := 0;
      while i < pendingInfo.Length
        invariant 0 <= i <= pendingInfo.Length
        invariant FirstEmpty(pendingInfo[..]) ==
                    match FirstEmpty(pendingInfo[i..]) case None => None case Some(k) => Some(i + k)
      {
        assert pendingInfo[i..][1..] == pendingInfo[i + 1..];
        if pendingInfo[i].None? {
          return Some(i);
        }
        i := i + 1;
      }
      return None;
    }

    /** The slot whose chain starts at `head`. */
    method FindPending(head: int) returns (r: Option<nat>)
      ensures r == FindHead(pendingInfo[..], head)
    {
      var i := 0;
      while i < pendingInfo.Length
        invariant 0 <= i <= pendingInfo.Length
        invariant FindHead(pendingInfo[..], head) ==
                    match FindHead(pendingInfo[i..], head) case None => None case Some(k) => Some(i + k)
      {
        assert pendingInfo[i..][1..] == pendingInfo[i + 1..];
        if pendingInfo[i].Some? && pendingInfo[i].value.head == head {
          return Some(i);
        }
        i := i + 1;
      }
      return None;
    }

    /** Describe the request in `d1`, `d2`, `d3` and announce it. */
    method EnqueueChain(slot: nat, ty: u32, data: u64, len: u32, d1: u16, d2: u16, d3: u16)
      requires Laid() && slot < SLOTS && d1 < QUEUE_SIZE && d2 < QUEUE_SIZE && d3 < QUEUE_SIZE
      modifies queue, queue.desc, queue.avail
      ensures queue.Valid() && queue.View() == Enqueue(old(View()), old(queue.View()), slot, ty, data, len, d1, d2, d3)
    {
      var headerAddr := dmaPaddr + slot * HEADER_BYTES;
      queue.WriteDesc(d1, V.Descriptor(headerAddr, HEADER_BYTES, V.DESC_F_NEXT, d2));
      var flags := if ty == TYPE_OUT then V.DESC_F_NEXT else V.DESC_F_NEXT + V.DESC_F_WRITE;
      queue.WriteDesc(d2, V.Descriptor(data, len, flags, d3));
      var statusAddr := dmaPaddr + SLOTS * HEADER_BYTES + slot;
      queue.WriteDesc(d3, V.Descriptor(statusAddr, 1, V.DESC_F_WRITE, 0));
      queue.Submit(d1);
    }

    /** Three allocations; if one fails, the earlier ones are not given back. */
    method AllocThree() returns (got: bool, d1: u16, d2: u16, d3: u16)
      requires queue.Valid()
      modifies queue
      ensures queue.Valid()
      ensures var (r1, q1) := V.Alloc(old(queue.View()));
              var (r2, q2) := V.Alloc(q1);
              var (r3, q3) := V.Alloc(q2);
              && got == (r1.Some? && r2.Some? && r3.Some?)
              && (got ==> r1 == Some(d1) && r2 == Some(d2) && r3 == Some(d3))
              && (got ==> d1 < queue.num && d2 < queue.num && d3 < queue.num)
              && queue.View() == if r1.None? then q1 else if r2.None? then q2 else q3
    {
      got, d1, d2, d3 := false, 0, 0, 0;
      var r1 := queue.AllocDesc();
      if r1.None? {
        return;
      }
      var r2 := queue.AllocDesc();
      if r2.None? {
        return;
      }
      var r3 := queue.AllocDesc();
      if r3.None? {
        return;
      }
      got, d1, d2, d3 := true, r1.value, r2.value, r3.value;
    }

    /** Allocate three descriptors, without roll-back, and describe the request in them. */
    method ClaimChain(slot: nat, ty: u32, data: u64, sqe: Sqe) returns (r: Outcome)
      requires Laid() && slot < SLOTS
      modifies queue, queue.desc, queue.avail, pendingInfo
      ensures Laid() && (r, View()) == Claim(old(View()), slot, ty, data, sqe)
    {
      ghost var b := View();
      var got, d1, d2, d3 := AllocThree();
      assert View() == b.(q := queue.View());
      if !got {
        return Failed(OutOfMemory);
      }
      EnqueueChain(slot, ty, data, sqe.len, d1, d2, d3);
      assert View() == b.(q := queue.View());
      pendingInfo[slot] := Some(Pending(sqe.ud, d1));
      return Submitted;
    }

    /** The device address of the client's buffer, if it lies in the shared window. */
    method TranslateAddr(sqe: Sqe) returns (r: Option<u64>)
      ensures r == BufferAddr(buffer, sqe.addr, sqe.len)
      ensures buffer.Some? && Regular(buffer.value) && sqe.addr + sqe.len < TWO64 && sqe.len > 0 ==>
                (r.Some? <==> Inside(buffer.value, sqe.addr, sqe.len))
                && (r.Some? ==> InsideMemory(buffer.value, r.value, sqe.len))
    {
      if buffer.Some? {
        var w := buffer.value;
        if sqe.addr < w.clientVaddr || Wrap64(sqe.addr + sqe.len) > Wrap64(w.clientVaddr + w.size) {
          return None;
        }
        return Some(Wrap64(w.paddr + (sqe.addr - w.clientVaddr)));
      }
      return Some(sqe.addr);
    }

    method SubmitVirtioRequest(sqe: Sqe) returns (r: Outcome)
      requires Laid()
      modifies queue, queue.desc, queue.avail, pendingInfo, headers, status
      ensures Laid() && (r, View()) == SubmitRequest(old(View()), sqe)
    {
      var blockSize := BlockSize();
      if sqe.len % blockSize != 0 {
        return Failed(InvalidArgs);
      }
      var idx := FindEmpty();
      if idx.None? {
        return Failed(OutOfMemory);
      }
      var slot := idx.value;
      var ty: u32;
      match sqe.opcode {
        case OpRead => ty := TYPE_IN;
        case OpWrite => ty := TYPE_OUT;
        case _ => return Failed(NotSupported);
      }
      headers[slot] := Header(ty, 0, sqe.off);
      status[slot] := 0xFF;
      assert View() == Prepare(old(View()), slot, ty, sqe.off);
      var data := TranslateAddr(sqe);
      if data.None? {
        return Failed(InvalidArgs);
      }
      r := ClaimChain(slot, ty, data.value, sqe);
    }

    /** Complete the request in `slot`: free its chain `ids`, read its status, post its result. */
    method FinishSlot(slot: nat, ghost ids: seq<int>)
      requires Laid() && slot < SLOTS && pendingInfo[slot].Some?
      requires V.IsChain(queue.desc[..], ids) && Distinct(ids) && ids[0] == pendingInfo[slot].value.head
      requires V.Walk(queue.desc[..], ids[0], QUEUE_SIZE) == ids && queue.numFree + |ids| < TWO16
      modifies queue, queue.desc, pendingInfo, ringServer
      ensures Laid() && View() == Finish(old(View()), slot)
      ensures View().cq == old(View().cq) +
                           [Cqe(old(pendingInfo[slot]).value.ud, if old(status[slot]) == 0 then 0 else -1)]
    {
      var p := pendingInfo[slot].value;
      pendingInfo[slot] := None;
      queue.FreeChain(p.head, ids);
      var result := if status[slot] == STATUS_OK then 0 else -1;
      ringServer.Complete(p.ud, result);
    }

    /** Take one used-ring entry, if there is one; `ids` is the chain it may complete. */
    method PopCompletion(ghost ids: seq<int>) returns (popped: bool)
      requires Laid() && B.PopReady(View(), ids)
      modifies queue, queue.desc, pendingInfo, ringServer
      ensures Laid() && View() == PopOne(old(View())) && popped == V.CanPop(old(View().q))
    {
      var elem := queue.Pop();
      if elem.None? {
        return false;
      }
      var pos := FindPending(elem.value.id % TWO16);
      if pos.Some? {
        FinishSlot(pos.value, ids);
      }
      return true;
    }

    /** Bring the account up to date. */
    ghost method Record(l': V.Ledger, at': map<int, int>)
      requires Laid() && B.Inv(View(), l', at')
      modifies this`ledger, this`at
      ensures Valid() && View() == old(View())
    {
      ledger, at := l', at';
    }

    method PopNext() returns (popped: bool)
      requires Valid()
      modifies this, queue, queue.desc, pendingInfo, ringServer
      ensures Valid() && View() == PopOne(old(View())) && batch == old(batch) && popped == V.CanPop(old(View().q))
    {
      ghost var ids, l', at' := B.PopFacts(View(), ledger, at);
      popped := PopCompletion(ids);
      Record(l', at');
    }

    /** Take used-ring entries until there are none. */
    method PopCompletions()
      requires Valid()
      modifies this, queue, queue.desc, pendingInfo, ringServer
      ensures Valid() && View() == PopAll(old(View())) && batch == old(batch)
    {
      while true
        invariant Valid() && batch == old(batch)
        invariant PopAll(View()) == PopAll(old(View()))
        decreases Rings.Outstanding(queue.lastUsedIdx, queue.usedIdx)
      {
        if V.CanPop(View().q) {
          PopOneAdvances(View());
        }
        var popped := PopNext();
        if !popped {
          break;
        }
      }
    }

    /** Take requests from the ring, at most sixteen, into `sqes`. */
    method FetchRequests(sqes: array<Sqe>) returns (count: nat)
      requires Laid() && batch == [] && sqes.Length == BATCH && sqes !in Repr()
      modifies this`fetched, this`batch, ringServer, sqes
      ensures Laid() && View() == Fetch(old(View()), BATCH)
      ensures count <= BATCH && batch == sqes[..count]
    {
      ghost var b := View();
      FetchTakes(b, BATCH);
      TakeNone(b);
      count := 0;
      while count < BATCH
        invariant Laid() && count <= BATCH && count <= |b.sq| && batch == sqes[..count]
        invariant View() == Take(b, count)
      {
        var more := FetchInto(sqes, count, b);
        if !more {
          break;
        }
        count := count + 1;
      }
    }

    /** Take one request, if there is one, after the first `i` of `b`. */
    method FetchInto(sqes: array<Sqe>, i: nat, ghost b: Blk) returns (more: bool)
      requires Laid() && i < sqes.Length && batch == sqes[..i] && sqes !in Repr()
      requires i <= |b.sq| && View() == Take(b, i)
      modifies this`fetched, this`batch, ringServer, sqes
      ensures Laid() && more == (i < |b.sq|) && batch == sqes[..if more then i + 1 else i]
      ensures View() == Take(b, if more then i + 1 else i)
    {
      if i < |b.sq| {
        TakeOneMore(b, i);
      }
      var sqe := ringServer.NextRequest();
      more := sqe.Some?;
      if more {
        sqes[i] := sqe.value;
        fetched, batch := fetched + [sqe.value], batch + [sqe.value];
      }
    }

    /** Submit one fetched request; complete it with -1 at once if that fails. */
    method SubmitFetched(sqe: Sqe)
      requires Laid() && batch != [] && sqe == batch[0]
      modifies this`batch, queue, queue.desc, queue.avail, pendingInfo, headers, status, ringServer
      ensures Laid() && View() == SubmitNext(old(View())) && batch == old(batch)[1..]
    {
      batch := batch[1..];
      var r := SubmitVirtioRequest(sqe);
      if r.Failed? {
        ringServer.Complete(sqe.ud, -1);
      }
    }

    method SubmitFetchedAll(sqes: array<Sqe>, count: nat)
      requires Laid() && count <= sqes.Length && batch == sqes[..count] && sqes !in Repr()
      modifies this`batch, queue, queue.desc, queue.avail, pendingInfo, headers, status, ringServer
      ensures Laid() && batch == [] && View() == SubmitBatch(old(View()))
    {
      ghost var goal := SubmitBatch(View());
      for i := 0 to count
        invariant Laid() && batch == sqes[i..count]
        invariant SubmitBatch(View()) == goal
      {
        assert batch[0] == sqes[i] && batch[1..] == sqes[i + 1..count];
        SubmitFetched(sqes[i]);
      }
    }

    method FetchAndSubmit() returns (count: nat)
      requires Laid() && batch == []
      modifies this`fetched, this`batch, queue, queue.desc, queue.avail, pendingInfo, headers, status, ringServer
      ensures Laid() && batch == [] && count == |Fetch(old(View()), BATCH).batch|
      ensures View() == SubmitBatch(Fetch(old(View()), BATCH))
    {
      var sqes := new Sqe[BATCH];
      count := FetchRequests(sqes);
      SubmitFetchedAll(sqes, count);
    }

    /** Take what the client has asked for, at most sixteen requests, and submit it. */
    method SubmitAvailable() returns (count: nat)
      requires Valid() && batch == []
      modifies this, queue, queue.desc, queue.avail, pendingInfo, headers, status, ringServer
      ensures Valid() && batch == [] && count == |Fetch(old(View()), BATCH).batch|
      ensures View() == SubmitBatch(Fetch(old(View()), BATCH))
    {
      ghost var l', at' := B.FetchAndSubmitKeeps(View(), BATCH, ledger, at);
      count := FetchAndSubmit();
      Record(l', at');
    }

    /** One wake-up by the client. */
    method HandleRing()
      requires Valid() && batch == []
      modifies this, queue, queue.desc, queue.avail, pendingInfo, headers, status, ringServer
      ensures Valid() && batch == [] && View() == Blocks.HandleRing(old(View()))
    {
      var count := SubmitAvailable();
      if count > 0 {
        PopCompletions();
      }
    }

    /** One interrupt; `acknowledged` is what the transport found pending. */
    method HandleIrq(acknowledged: bool)
      requires Valid()
      modifies this, queue, queue.desc, pendingInfo, ringServer
      ensures Valid() && View() == if acknowledged then PopAll(old(View())) else old(View())
    {
      if acknowledged {
        PopCompletions();
      }
    }
  }
}
