/**
 The virtio-net driver object: two queues with their pending tables, updated
 in place as the functions in Nets say.
 */
module NetDriver {
  import opened Base
  import opened IoUring
  import opened PendingTable
  import opened Nets
  import opened NetDrains
  import opened Windows
  import V = VirtQueues
  import VirtQueueDriver
  import Rings

  /** One queue and its pending table. */
  class NetPort {
    const queue: VirtQueueDriver.VirtQueue
    const pending: array<Option<Pending>>
    ghost var rejected: nat

    ghost const Repr: set<object>

    ghost predicate Laid()
      reads this, queue, queue.desc, queue.avail, queue.used, pending
    {
      && queue.Valid() && this !in queue.Repr && (pending as object) !in queue.Repr && (this as object) != pending
      && Repr == {this, pending} + queue.Repr
      && View().Wf()
    }

    ghost function View(): Port
      reads this, queue, queue.desc, queue.avail, queue.used, pending
    {
      Port(queue.View(), pending[..], rejected)
    }

    /** An empty table over a fresh queue of 128. */
    constructor (desc: array<V.Descriptor>, avail: array<u16>, used: array<V.UsedElem>, availIdx: u16, usedIdx: u16)
      requires desc.Length == avail.Length == used.Length == QUEUE_SIZE
      requires (desc as object) != avail && (desc as object) != used && (avail as object) != used
      modifies desc
      ensures Laid() && InitialPort(View()) && fresh(Repr - {desc as object, avail, used})
      ensures View().q.lastUsed == 0 && View().q.availIdx == availIdx && View().q.usedIdx == usedIdx
    {
      pending := new Option<Pending>[QUEUE_SIZE](_ => None);
      var q := new VirtQueueDriver.VirtQueue(QUEUE_SIZE, desc, avail, used, availIdx, usedIdx);
      queue := q;
      rejected := 0;
      Repr := {this, pending} + q.Repr;
      new;
      assert V.Linked(queue.desc[..]) == queue.desc[..];
    }

    /** Header and payload descriptors of a request. */
    method Describe(side: Side, dma: u64, data: u64, len: u32, d1: u16, d2: u16)
      requires queue.Valid() && queue.num == QUEUE_SIZE && d1 < QUEUE_SIZE && d2 < QUEUE_SIZE && dma + 4 * PAGE <= TWO64
      modifies queue.desc
      ensures queue.Valid()
      ensures var w := if side == Rx then V.DESC_F_WRITE else 0;
              var q := V.Write(old(queue.View()), d1,
                               V.Descriptor(HeaderAddr(dma, side, d1), HEADER_BYTES, V.DESC_F_NEXT + w, d2));
              queue.View() == V.Write(q, d2, V.Descriptor(data, len, w, 0))
    {
      var headerAddr := dma + (if side == Rx then 0 else PAGE) + d1 * HEADER_STRIDE;
      var w := if side == Rx then V.DESC_F_WRITE else 0;
      queue.WriteDesc(d1, V.Descriptor(headerAddr, HEADER_BYTES, V.DESC_F_NEXT + w, d2));
      queue.WriteDesc(d2, V.Descriptor(data, len, w, 0));
    }

    /** The device address of the client's buffer, if it passes the window check. */
    static method TranslateAddr(shm: Option<Shm>, sqe: Sqe) returns (r: Option<u64>)
      ensures r == BufferAddr(shm, sqe.addr, sqe.len)
      ensures shm.Some? && Regular(shm.value) && sqe.addr + sqe.len < TWO64 && sqe.len > 0 ==>
                (r.Some? <==> Inside(shm.value, sqe.addr, sqe.len))
                && (r.Some? ==> InsideMemory(shm.value, r.value, sqe.len))
    {
      if shm.Some? {
        var w := shm.value;
        if sqe.addr < w.clientVaddr || Wrap64(sqe.addr + sqe.len) > Wrap64(w.clientVaddr + w.size) {
          return None;
        }
        return Some(Wrap64(w.paddr + (sqe.addr - w.clientVaddr)));
      }
      return Some(sqe.addr);
    }

    method Submit(side: Side, dma: u64, shm: Option<Shm>, sqe: Sqe) returns (r: Outcome)
      requires Laid() && dma + 4 * PAGE <= TWO64
      modifies Repr
      ensures Laid() && (r, View()) == SubmitTo(old(View()), side, dma, shm, sqe)
    {
      var d1 := queue.AllocDesc();
      if d1.None? {
        return Failed(OutOfMemory);
      }
      var d2 := queue.AllocDesc();
      if d2.None? {
        return Failed(OutOfMemory);
      }
      var data := TranslateAddr(shm, sqe);
      if data.None? {
        rejected := rejected + 1;
        return Failed(InvalidArgs);
      }
      Describe(side, dma, data.value, sqe.len, d1.value, d2.value);
      pending[d1.value] := Some(Pending(sqe.ud, d1.value));
      queue.Submit(d1.value);
      return Submitted;
    }

    /** Empty the slot `id` and free its chain `ids`. */
    method Release(id: nat, ghost ids: seq<int>)
      requires Laid() && id < QUEUE_SIZE && pending[id].Some?
      requires V.IsChain(queue.desc[..], ids) && Distinct(ids) && ids[0] == pending[id].value.head
      requires V.Walk(queue.desc[..], ids[0], QUEUE_SIZE) == ids && queue.numFree + |ids| < TWO16
      modifies Repr
      ensures Laid() && View() == Finish(old(View()), id)
    {
      var head := pending[id].value.head;
      pending[id] := None;
      queue.FreeChain(head, ids);
    }

    /** Received bytes without the header; nothing for a transmission. */
    method ResultFor(side: Side, len: u32) returns (result: int)
      ensures result == ResultOf(side, len)
      ensures side == Rx && len >= HEADER_BYTES ==> result % TWO32 + HEADER_BYTES == len
      ensures side == Tx || len < HEADER_BYTES ==> result == 0
    {
      result := 0;
      if side == Rx && len > HEADER_BYTES {
        result := ToI32(len - HEADER_BYTES);
      }
    }

    /** Take one used-ring entry, if there is one; `ids` is the chain it may complete. */
    method PopEntry(side: Side, ghost ids: seq<int>) returns (r: Popped)
      requires Laid() && PopReady(View(), ids)
      modifies Repr
      ensures Laid() && (r, View()) == Nets.PopEntry(old(View()), side)
    {
      var elem := queue.Pop();
      if elem.None? {
        return Empty;
      }
      var id := elem.value.id;
      if id >= QUEUE_SIZE {
        return Crash;
      }
      if pending[id].None? {
        return Ignored;
      }
      var result := ResultFor(side, elem.value.len);
      r := Done(Cqe(pending[id].value.ud, result));
      Release(id, ids);
    }
  }

  class VirtIONet {
    const rx: NetPort
    const tx: NetPort
    const ringServer: IoUringServer
    const dma: u64
    const buffer: Option<Shm>
    // An index past the pending table has ended the driver.
    var crashed: bool

    ghost var fetched: seq<Sqe>
    ghost var batch: seq<Sqe>
    ghost var rxLedger: V.Ledger
    ghost var txLedger: V.Ledger

    ghost function View(): Net
      reads this, ringServer
      reads rx, rx.queue, rx.queue.desc, rx.queue.avail, rx.queue.used, rx.pending
      reads tx, tx.queue, tx.queue.desc, tx.queue.avail, tx.queue.used, tx.pending
    {
      Net(rx.View(), tx.View(), dma, buffer, crashed, ringServer.sq, batch, fetched, ringServer.cq)
    }

    ghost predicate Laid()
      reads this, ringServer
      reads rx, rx.queue, rx.queue.desc, rx.queue.avail, rx.queue.used, rx.pending
      reads tx, tx.queue, tx.queue.desc, tx.queue.avail, tx.queue.used, tx.pending
    {
      && rx.Laid() && tx.Laid() && rx.Repr !! tx.Repr
      && {this as object, ringServer} !! rx.Repr + tx.Repr
      && View().Wf()
    }

    ghost predicate Valid()
      reads this, ringServer
      reads rx, rx.queue, rx.queue.desc, rx.queue.avail, rx.queue.used, rx.pending
      reads tx, tx.queue, tx.queue.desc, tx.queue.avail, tx.queue.used, tx.pending
    {
      Laid() && Inv(View(), rxLedger, txLedger)
    }

    constructor (rx: NetPort, tx: NetPort, dma: u64, buffer: Option<Shm>, ringServer: IoUringServer)
      requires rx.Laid() && tx.Laid() && rx.Repr !! tx.Repr && ringServer !in rx.Repr + tx.Repr
      requires InitialPort(rx.View()) && InitialPort(tx.View()) && dma + 4 * PAGE <= TWO64 && ringServer.cq == []
      ensures Valid() && Initial(View()) && !crashed
      ensures View().rx == rx.View() && View().tx == tx.View() && View().sq == ringServer.sq
    {
      this.rx, this.tx, this.dma, this.buffer, this.ringServer := rx, tx, dma, buffer, ringServer;
      crashed := false;
      fetched, batch := [], [];
      rxLedger, txLedger := V.FreshLedger(QUEUE_SIZE), V.FreshLedger(QUEUE_SIZE);
      new;
      InitialPortSound(rx.View());
      InitialPortSound(tx.View());
    }

    method SubmitOne(sqe: Sqe) returns (r: Outcome)
      requires Laid()
      modifies rx.Repr, tx.Repr
      ensures Laid() && (r, View()) == SubmitRequest(old(View()), sqe)
    {
      match sqe.opcode {
        case OpRead => r := rx.Submit(Rx, dma, buffer, sqe);
        case OpWrite => r := tx.Submit(Tx, dma, buffer, sqe);
        case _ => r := Failed(NotSupported);
      }
    }

    /** Submit one fetched request; complete it with -1 at once if that fails. */
    method SubmitFetched(sqe: Sqe)
      requires Laid() && batch != [] && sqe == batch[0]
      modifies this`batch, ringServer, rx.Repr, tx.Repr
      ensures Laid() && View() == SubmitNext(old(View())) && batch == old(batch)[1..]
    {
      batch := batch[1..];
      var r := SubmitOne(sqe);
      if r.Failed? {
        ringServer.Complete(sqe.ud, -1);
      }
    }

    /** Take requests from the ring, at most sixteen, into `sqes`. */
    method FetchRequests(sqes: array<Sqe>) returns (count: nat)
      requires Laid() && batch == [] && sqes.Length == BATCH && sqes !in rx.Repr + tx.Repr
      modifies this`fetched, this`batch, ringServer, sqes
      ensures Laid() && View() == Fetch(old(View()), BATCH)
      ensures count <= BATCH && batch == sqes[..count]
    {
      ghost var n := View();
      FetchTakes(n, BATCH);
      TakeNone(n);
      count := FetchUpTo(sqes, n);
    }

    /** The loop that takes them. */
    method FetchUpTo(sqes: array<Sqe>, ghost n: Net) returns (count: nat)
      requires Laid() && sqes.Length == BATCH && batch == [] && View() == Take(n, 0) && sqes !in rx.Repr + tx.Repr
      modifies this`fetched, this`batch, ringServer, sqes
      ensures Laid() && count == Min(BATCH, |n.sq|) && batch == sqes[..count] && View() == Take(n, count)
    {
      count := 0;
      while count < BATCH
        invariant Laid() && count <= BATCH && count <= |n.sq| && batch == sqes[..count]
        invariant View() == Take(n, count)
      {
        var more := FetchInto(sqes, count, n);
        if !more {
          break;
        }
        count := count + 1;
      }
    }

    /** Take one request, if there is one, after the first `i` of `n`. */
    method FetchInto(sqes: array<Sqe>, i: nat, ghost n: Net) returns (more: bool)
      requires Laid() && i < sqes.Length && batch == sqes[..i] && sqes !in rx.Repr + tx.Repr
      requires i <= |n.sq| && View() == Take(n, i)
      modifies this`fetched, this`batch, ringServer, sqes
      ensures Laid() && more == (i < |n.sq|) && batch == sqes[..if more then i + 1 else i]
      ensures View() == Take(n, if more then i + 1 else i)
    {
      if i < |n.sq| {
        TakeOneMore(n, i);
      }
      var sqe := ringServer.NextRequest();
      more := sqe.Some?;
      if more {
        sqes[i] := sqe.value;
        fetched, batch := fetched + [sqe.value], batch + [sqe.value];
      }
    }

    method SubmitFetchedAll(sqes: array<Sqe>, count: nat)
      requires Laid() && count <= sqes.Length && batch == sqes[..count]
      requires sqes !in rx.Repr + tx.Repr && (sqes as object) != ringServer
      modifies this`batch, ringServer, rx.Repr, tx.Repr
      ensures Laid() && batch == [] && View() == SubmitBatch(old(View()))
    {
      ghost var goal := SubmitBatch(View());
      for i := 0 to count
        invariant Laid() && batch == sqes[i..count]
        invariant SubmitBatch(View()) == goal
      {
        assert batch[0] == sqes[i] && batch[1..] == sqes[i + 1..count];
        SubmitFetched(sqes[i]);
      }
    }

    method FetchAndSubmit()
      requires Laid() && batch == []
      modifies this`fetched, this`batch, ringServer, rx.Repr, tx.Repr
      ensures Laid() && batch == [] && View() == Nets.HandleRing(old(View()))
    {
      var sqes := new Sqe[BATCH];
      var count := FetchRequests(sqes);
      SubmitFetchedAll(sqes, count);
    }

    /** Bring the account up to date. */
    ghost method Record(rx': V.Ledger, tx': V.Ledger)
      requires Laid() && Inv(View(), rx', tx')
      modifies this`rxLedger, this`txLedger
      ensures Valid() && View() == old(View())
    {
      rxLedger, txLedger := rx', tx';
    }

    /** One wake-up by the client. */
    method HandleRing()
      requires Valid() && batch == []
      modifies this, ringServer, rx.Repr, tx.Repr
      ensures Valid() && batch == [] && View() == Nets.HandleRing(old(View()))
    {
      ghost var rx', tx' := HandleRingKeeps(View(), rxLedger, txLedger);
      FetchAndSubmit();
      Record(rx', tx');
    }

    /** Take one used-ring entry of one queue. */
    method PopSide(side: Side, ghost ids: seq<int>) returns (r: Popped)
      requires Laid() && PopReady(PortOf(View(), side), ids)
      modifies rx.Repr, tx.Repr
      ensures Laid()
      ensures (r, PortOf(View(), side)) == Nets.PopEntry(PortOf(old(View()), side), side)
      ensures View() == WithPort(old(View()), side, PortOf(View(), side))
    {
      if side == Rx {
        r := rx.PopEntry(Rx, ids);
      } else {
        r := tx.PopEntry(Tx, ids);
      }
    }

    /** Post what it completes. */
    method PostPopped(r: Popped)
      requires Laid()
      modifies this`crashed, ringServer
      ensures Laid() && View() == Post(old(View()), r)
    {
      if r.Crash? {
        crashed := true;
      } else if r.Done? {
        ringServer.Complete(r.cqe.ud, r.cqe.res);
      }
    }

    method PopPort(side: Side, ghost ids: seq<int>) returns (popped: bool)
      requires Laid() && PopReady(PortOf(View(), side), ids)
      modifies this`crashed, ringServer, rx.Repr, tx.Repr
      ensures Laid() && View() == PopOne(old(View()), side) && popped == V.CanPop(PortOf(old(View()), side).q)
    {
      var r := PopSide(side, ids);
      PostPopped(r);
      return !r.Empty?;
    }

    method PopNext(side: Side) returns (popped: bool)
      requires Valid()
      modifies this, ringServer, rx.Repr, tx.Repr
      ensures Valid() && View() == PopOne(old(View()), side) && batch == old(batch)
      ensures popped == V.CanPop(PortOf(old(View()), side).q)
    {
      ghost var ids, rx', tx' := PopFacts(View(), side, rxLedger, txLedger);
      popped := PopPort(side, ids);
      Record(rx', tx');
    }

    /** How far the driver is behind the device. */
    ghost function Behind(side: Side): nat
      requires Laid()
      reads this, ringServer
      reads rx, rx.queue, rx.queue.desc, rx.queue.avail, rx.queue.used, rx.pending
      reads tx, tx.queue, tx.queue.desc, tx.queue.avail, tx.queue.used, tx.pending
    {
      Rings.Outstanding(PortOf(View(), side).q.lastUsed, PortOf(View(), side).q.usedIdx)
    }

    /** One round of the drain. */
    method DrainOne(side: Side, ghost goal: Net) returns (popped: bool)
      requires Valid() && !crashed && PopAll(View(), side) == goal
      modifies this, ringServer, rx.Repr, tx.Repr
      ensures Valid() && batch == old(batch) && PopAll(View(), side) == goal
      ensures popped ==> Behind(side) < old(Behind(side))
      ensures !popped ==> View() == goal
    {
      ghost var n := View();
      PopAllStep(n, side);
      if V.CanPop(PortOf(n, side).q) {
        PopOneAdvances(n, side);
      } else {
        NothingPops(n, side);
      }
      popped := PopNext(side);
    }

    /** Drain one used ring. */
    method PopCompletions(side: Side)
      requires Valid()
      modifies this, ringServer, rx.Repr, tx.Repr
      ensures Valid() && View() == PopAll(old(View()), side) && batch == old(batch)
    {
      ghost var goal := PopAll(View(), side);
      while !crashed
        invariant Valid() && batch == old(batch) && PopAll(View(), side) == goal
        decreases Behind(side)
      {
        var popped := DrainOne(side, goal);
        if !popped {
          return;
        }
      }
      PopAllStep(View(), side);
    }

    /** One interrupt; `acknowledged` is what the transport found pending. */
    method HandleIrq(acknowledged: bool)
      requires Valid()
      modifies this, ringServer, rx.Repr, tx.Repr
      ensures Valid() && View() == Nets.HandleIrq(old(View()), acknowledged)
      ensures acknowledged && !old(crashed) ==>
                && View().cq == old(View().cq) + Posted(old(View()))
                && (!crashed ==> !V.CanPop(View().rx.q) && !V.CanPop(View().tx.q))
    {
      ghost var n := View();
      if acknowledged {
        PopCompletions(Rx);
        PopCompletions(Tx);
      }
      if acknowledged && !n.crashed {
        HandleIrqPosts(n, true);
        PostedAppends(n);
      }
    }
  }
}
