/**
 The block driver when the device also fills the buffers of the reads it
 serves.  A buffer may lie anywhere the client's request puts it: where it
 misses the driver's own memory the write does not show, so every theorem
 about runs applies; where it does not, the descriptors can be overwritten.
 */
module BlockPayloads {
  import opened Base
  import opened VirtQueues
  import opened Blocks
  import opened PendingTable
  import opened Windows
  import opened Layout
  import opened Payloads
  import opened BlockRuns
  import BlockLosses
  import Rings

  // ---- The driver's memory ----

  const QUEUE_OFFSET := 2 * PAGE

  /** The range misses headers, status bytes and queue. */
  ghost predicate MissesDriver(dma: nat, r: Area) {
    && (forall i :: 0 <= i < SLOTS ==> BlockHeader(dma, i).Apart(r) && BlockStatus(dma, i).Apart(r))
    && Misses(dma + QUEUE_OFFSET, QUEUE_SIZE, r)
  }

  ghost predicate Overwritten(b: Blk, b': Blk, r: Area)
    requires b.Wf()
  {
    && |b'.headers| == |b'.status| == SLOTS
    && b' == b.(q := b'.q, headers := b'.headers, status := b'.status)
    && Scribbled(b.q, b'.q, b.dma + QUEUE_OFFSET, r)
    && (forall i :: 0 <= i < SLOTS && BlockHeader(b.dma, i).Apart(r) ==> b'.headers[i] == b.headers[i])
    && (forall i :: 0 <= i < SLOTS && BlockStatus(b.dma, i).Apart(r) ==> b'.status[i] == b.status[i])
  }

  lemma MissedIsInvisible(b: Blk, b': Blk, r: Area)
    requires b.Wf() && MissesDriver(b.dma, r) && Overwritten(b, b', r)
    ensures b' == b
  {
    MissedIsUntouched(b.q, b'.q, b.dma + QUEUE_OFFSET, r);
    assert b'.headers == b.headers && b'.status == b.status;
  }

  lemma HitShows(b: Blk, r: Area) returns (b': Blk)
    requires b.Wf() && !MissesDriver(b.dma, r)
    ensures Overwritten(b, b', r) && b' != b && b'.Wf()
  {
    if !Misses(b.dma + QUEUE_OFFSET, QUEUE_SIZE, r) {
      var q' := HitCanChange(b.q, b.dma + QUEUE_OFFSET, r);
      b' := b.(q := q');
    } else {
      var i :| 0 <= i < SLOTS && !(BlockHeader(b.dma, i).Apart(r) && BlockStatus(b.dma, i).Apart(r));
      if !BlockHeader(b.dma, i).Apart(r) {
        var h := b.headers[i].(reserved := (b.headers[i].reserved + 1) % TWO32);
        b' := b.(headers := b.headers[i := h]);
        assert b'.headers[i] != b.headers[i];
      } else {
        b' := b.(status := b.status[i := if b.status[i] == 0 then 1 else 0]);
        assert b'.status[i] != b.status[i];
      }
    }
  }

  /** What the device writes into a buffer never shows in the driver exactly if the buffer misses its memory. */
  lemma InvisibleIffMissesDriver(b: Blk, r: Area)
    requires b.Wf()
    ensures (forall b' :: Overwritten(b, b', r) ==> b' == b) <==> MissesDriver(b.dma, r)
  {
    if MissesDriver(b.dma, r) {
      forall b' | Overwritten(b, b', r) ensures b' == b {
        MissedIsInvisible(b, b', r);
      }
    } else {
      var b' := HitShows(b, r);
    }
  }

  lemma OffPagesMissesDriver(dma: nat, r: Area)
    requires r.Apart(Pages(dma))
    ensures MissesDriver(dma, r)
  {
    forall i | 0 <= i < SLOTS ensures BlockHeader(dma, i).Apart(r) && BlockStatus(dma, i).Apart(r) {
      BlockAreasAreApart(dma, i, i);
    }
    BlockAreasAreApart(dma, 0, 0);
    OutsideMisses(dma + QUEUE_OFFSET, QUEUE_SIZE, r);
  }

  // ---- Requests that keep the device off the driver's memory ----

  /** If the request is a read the driver accepts, its buffer misses the driver's memory. */
  ghost predicate Harmless(b: Blk, sqe: Sqe) {
    sqe.opcode.OpRead? ==>
      match BufferAddr(b.shm, sqe.addr, sqe.len)
      case None => true
      case Some(data) => MissesDriver(b.dma, Area(data, sqe.len))
  }

  /** What a caller can ensure: a regular window apart from the driver's pages, and no request that wraps. */
  lemma WindowedIsHarmless(b: Blk, w: Shm, sqe: Sqe)
    requires b.shm == Some(w) && Regular(w) && Area(w.paddr, w.size).Apart(Pages(b.dma))
    requires sqe.addr + sqe.len < TWO64 && sqe.len > 0
    ensures Harmless(b, sqe)
  {
    WindowKeepsOffPages(w, sqe.addr, sqe.len, b.dma);
    var data := BufferAddr(b.shm, sqe.addr, sqe.len);
    if data.Some? {
      OffPagesMissesDriver(b.dma, Area(data.value, sqe.len));
    }
  }

  /** The data descriptor of the request in a slot. */
  function DataOf(b: Blk, slot: nat): Option<Descriptor>
    requires b.Wf() && slot < SLOTS
  {
    if b.pending[slot].None? || b.pending[slot].value.head >= QUEUE_SIZE then None
    else Some(b.q.descs[b.q.descs[b.pending[slot].value.head].next])
  }

  function AreaOf(d: Descriptor): Area {
    Area(d.addr, d.len)
  }

  /** A buffer the device may write misses the driver's memory. */
  ghost predicate DataMisses(b: Blk, slot: nat)
    requires b.Wf() && slot < SLOTS
  {
    var d := DataOf(b, slot);
    d.Some? && d.value.DeviceWrites() ==> MissesDriver(b.dma, AreaOf(d.value))
  }

  ghost predicate AllHarmless(b: Blk, sqes: seq<Sqe>) {
    forall i :: 0 <= i < |sqes| ==> Harmless(b, sqes[i])
  }

  ghost predicate Off(b: Blk)
    requires b.Wf()
  {
    && (forall slot :: 0 <= slot < SLOTS ==> DataMisses(b, slot))
    && AllHarmless(b, b.sq) && AllHarmless(b, b.batch)
  }

  // ---- Steps keep it ----

  lemma SameRequestSameData(b: Blk, b': Blk, l: Ledger, at: map<int, int>, slot: nat)
    requires Sound(b, l, at) && b'.Wf() && slot < SLOTS && b.pending[slot].Some? && SameRequest(b, b', l, slot)
    ensures DataOf(b', slot) == DataOf(b, slot)
  {
    SlotChain(b, l, at, slot);
    var ids := l.chains[b.pending[slot].value.head];
    assert IsChain(b.q.descs, ids);
    assert b.q.descs[ids[0]].next == ids[1];
  }

  /** The request just accepted: its descriptor names its own buffer, for the device to write in case of a read. */
  lemma AcceptedData(b: Blk, l: Ledger, at: map<int, int>, sqe: Sqe)
    requires Sound(b, l, at) && SubmitRequest(b, sqe).0 == Submitted
    ensures FirstEmpty(b.pending).Some?
    ensures var slot, b' := FirstEmpty(b.pending).value, SubmitRequest(b, sqe).1;
            && b'.dma == b.dma && (forall i :: 0 <= i < SLOTS && i != slot ==> b'.pending[i] == b.pending[i])
            && var d := DataOf(b', slot);
               && d.Some? && (d.value.DeviceWrites() <==> sqe.opcode.OpRead?)
               && BufferAddr(b.shm, sqe.addr, sqe.len) == Some(d.value.addr) && d.value.len == sqe.len
  {
    SubmitCases(b, l, at, sqe);
    SubmitOutcome(b, l, at, sqe);
    ThreePerChain(b, l, at);
    var slot, ty := FirstEmpty(b.pending).value, TypeOf(sqe.opcode).value;
    var data := BufferAddr(b.shm, sqe.addr, sqe.len).value;
    ClaimedData(Prepare(b, slot, ty, sqe.off), l, slot, ty, data, sqe);
  }

  /** The data descriptor of a new request. */
  lemma ClaimedData(b: Blk, l: Ledger, slot: nat, ty: u32, data: u64, sqe: Sqe)
    requires b.Wf() && Owned(b.q, CHAIN, l) && |l.free| >= 3 && slot < SLOTS
    ensures var b' := Claim(b, slot, ty, data, sqe).1;
            && b'.dma == b.dma && (forall i :: 0 <= i < SLOTS && i != slot ==> b'.pending[i] == b.pending[i])
            && var d := DataOf(b', slot);
               d.Some? && AreaOf(d.value) == Area(data, sqe.len) && (d.value.DeviceWrites() <==> ty != TYPE_OUT)
  {
    var ids := Top(l.free, 3);
    TopIsDistinct(CHAIN, l, 3);
    ClaimTakesTop(b, l.free, slot, ty, data, sqe);
    LaunchedData(b, slot, ty, data, sqe.len, ids);
  }

  lemma LaunchedData(b: Blk, slot: nat, ty: u32, data: u64, len: u32, ids: seq<int>)
    requires b.Wf() && slot < SLOTS && |ids| == 3 && Distinct(ids)
    requires forall i :: 0 <= i < 3 ==> 0 <= ids[i] < QUEUE_SIZE
    ensures var q := Launched(b, slot, ty, data, len, ids);
            && q.descs[ids[0]].next == ids[1]
            && q.descs[ids[1]].addr == data && q.descs[ids[1]].len == len
            && (q.descs[ids[1]].DeviceWrites() <==> ty != TYPE_OUT)
  {
  }

  lemma SubmitStaysOff(b: Blk, l: Ledger, at: map<int, int>, sqe: Sqe)
    requires Sound(b, l, at) && Off(b) && Harmless(b, sqe)
    ensures Off(SubmitRequest(b, sqe).1)
  {
    var b' := SubmitRequest(b, sqe).1;
    SubmitOutcome(b, l, at, sqe);
    SlotSearchNeverFails(b, l, at);
    if SubmitRequest(b, sqe).0 == Submitted {
      AcceptedData(b, l, at, sqe);
    }
    forall slot | 0 <= slot < SLOTS ensures DataMisses(b', slot) {
      assert DataMisses(b, slot);
      if b.pending[slot].Some? {
        SubmitLeavesOthers(b, l, at, sqe, slot);
        SameRequestSameData(b, b', l, at, slot);
      }
    }
  }

  lemma PopStaysOff(b: Blk, l: Ledger, at: map<int, int>)
    requires Inv(b, l, at) && Off(b)
    ensures Off(PopOne(b))
  {
    var b' := PopOne(b);
    if CanPop(b.q) {
      var b1 := b.(q := Pop(b.q).1);
      assert Sound(b1, l, at);
      var found := FindHead(b.pending, Pop(b.q).0.value.id % TWO16);
      forall slot | 0 <= slot < SLOTS ensures DataMisses(b', slot) {
        assert DataMisses(b, slot);
        if found.Some? && b.pending[slot].Some? && slot != found.value {
          FinishLeavesOthers(b1, l, at, found.value, slot);
          SameRequestSameData(b1, b', l, at, slot);
        }
      }
    }
  }

  /** Every step of client, driver and device stays off, if what the client asks for is harmless. */
  lemma StepStaysOff(b: Blk, step: Step, l: Ledger, at: map<int, int>)
    requires Inv(b, l, at) && Off(b) && Enabled(b, step)
    requires step.Arrive? ==> Harmless(b, step.sqe)
    ensures Off(Do(b, step))
    ensures Do(b, step).shm == b.shm && Do(b, step).dma == b.dma
  {
    match step {
      case SubmitTaken =>
        var b0 := b.(batch := b.batch[1..]);
        assert Off(b0) by {
          assert forall slot :: 0 <= slot < SLOTS ==> DataMisses(b, slot) && DataOf(b0, slot) == DataOf(b, slot);
        }
        SubmitOutcome(b0, l, at, b.batch[0]);
        SubmitStaysOff(b0, l, at, b.batch[0]);
        PostingStaysOff(SubmitRequest(b0, b.batch[0]).1, Do(b, step));
      case PopUsed =>
        PopStaysOff(b, l, at);
      case _ =>
        assert forall slot :: 0 <= slot < SLOTS ==> DataMisses(b, slot) && DataOf(Do(b, step), slot) == DataOf(b, slot);
    }
  }

  lemma PostingStaysOff(b: Blk, b': Blk)
    requires b.Wf() && b'.Wf() && Off(b) && b' == b.(cq := b'.cq)
    ensures Off(b')
  {
    assert forall slot :: 0 <= slot < SLOTS ==> DataMisses(b, slot) && DataOf(b', slot) == DataOf(b, slot);
  }

  // ---- Runs with payloads ----

  /**
   A step as before, or the device fills the buffer of a read in flight with
   anything.  `after` is the driver then; contents that turn a link into no
   index of the table would end the driver at once and are left aside.
   */
  datatype PStep = Plain(step: Step) | Fill(slot: nat, after: Blk)

  ghost predicate CanFill(b: Blk, slot: nat, after: Blk)
    requires b.Wf()
  {
    && slot < SLOTS && DataOf(b, slot).Some? && DataOf(b, slot).value.DeviceWrites()
    && Overwritten(b, after, AreaOf(DataOf(b, slot).value))
  }

  ghost predicate PEnabled(b: Blk, step: PStep)
    requires b.Wf()
  {
    match step
    case Plain(s) => Enabled(b, s)
    case Fill(slot, after) => CanFill(b, slot, after) && after.Wf()
  }

  ghost function PDo(b: Blk, step: PStep): (b': Blk)
    requires b.Wf() && PEnabled(b, step)
    ensures b'.Wf()
  {
    match step
    case Plain(s) => Do(b, s)
    case Fill(_, after) => after
  }

  ghost predicate PRun(b: Blk, steps: seq<PStep>, b': Blk)
    requires b.Wf()
    decreases |steps|
  {
    if steps == [] then b' == b else PEnabled(b, steps[0]) && PRun(PDo(b, steps[0]), steps[1..], b')
  }

  /** The run without the payloads. */
  function PlainSteps(steps: seq<PStep>): seq<Step> {
    if steps == [] then [] else PlainOf(steps[0]) + PlainSteps(steps[1..])
  }

  function PlainOf(step: PStep): seq<Step> {
    if step.Plain? then [step.step] else []
  }

  /** Whatever the client asks for during the run is harmless. */
  ghost predicate AsksHarmless(b: Blk, steps: seq<PStep>) {
    forall i :: 0 <= i < |steps| && steps[i].Plain? && steps[i].step.Arrive? ==> Harmless(b, steps[i].step.sqe)
  }

  /** Whatever the device writes into a buffer that misses the driver's memory, the driver does not change. */
  lemma FillIsInvisible(b: Blk, slot: nat, after: Blk)
    requires b.Wf() && Off(b) && CanFill(b, slot, after)
    ensures after == b
  {
    assert DataMisses(b, slot);
    MissedIsInvisible(b, after, AreaOf(DataOf(b, slot).value));
  }

  lemma HarmlessElsewhere(b: Blk, b': Blk, steps: seq<PStep>)
    requires AsksHarmless(b, steps) && b'.shm == b.shm && b'.dma == b.dma
    ensures AsksHarmless(b', steps)
  {
    forall i | 0 <= i < |steps| && steps[i].Plain? && steps[i].step.Arrive?
      ensures Harmless(b', steps[i].step.sqe)
    {
      assert Harmless(b, steps[i].step.sqe);
    }
  }

  /** A run with payloads is a run without them, if every read asked for is harmless. */
  lemma {:induction false} PayloadsAreInvisible(b: Blk, steps: seq<PStep>, b': Blk, l: Ledger, at: map<int, int>)
    requires Inv(b, l, at) && Off(b) && AsksHarmless(b, steps) && PRun(b, steps, b')
    ensures Run(b, PlainSteps(steps), b')
    decreases |steps|
  {
    if steps != [] {
      var next, l', at' := PStepKeeps(b, steps, l, at);
      PayloadsAreInvisible(next, steps[1..], b', l', at');
      PlainCons(steps);
      FirstIsPlain(b, steps[0], next, PlainSteps(steps[1..]), b');
    }
  }

  lemma PlainCons(steps: seq<PStep>)
    requires steps != []
    ensures PlainSteps(steps) == PlainOf(steps[0]) + PlainSteps(steps[1..])
  {
  }

  lemma PStepKeeps(b: Blk, steps: seq<PStep>, l: Ledger, at: map<int, int>)
    returns (next: Blk, l': Ledger, at': map<int, int>)
    requires Inv(b, l, at) && Off(b) && AsksHarmless(b, steps) && steps != [] && PEnabled(b, steps[0])
    ensures next == PDo(b, steps[0]) && Inv(next, l', at') && Off(next) && AsksHarmless(next, steps[1..])
    ensures steps[0].Fill? ==> next == b
  {
    var step := steps[0];
    next, l', at' := PDo(b, step), l, at;
    if step.Fill? {
      FillIsInvisible(b, step.slot, step.after);
    } else {
      StepStaysOff(b, step.step, l, at);
      l', at' := StepKeeps(b, step.step, l, at);
    }
    HarmlessElsewhere(b, next, steps[1..]);
  }

  lemma FirstIsPlain(b: Blk, step: PStep, next: Blk, rest: seq<Step>, b': Blk)
    requires b.Wf() && PEnabled(b, step) && next == PDo(b, step) && (step.Fill? ==> next == b)
    requires Run(next, rest, b')
    ensures Run(b, PlainOf(step) + rest, b')
  {
    if step.Plain? {
      RunCons(b, step.step, rest, b');
    } else {
      assert PlainOf(step) + rest == rest;
    }
  }

  /**
   Exactly which accepted reads are safe: whatever the device fills their
   buffer with, the driver does not change, if and only if they are harmless.
   */
  lemma AcceptedReadIsSafeExactly(b: Blk, l: Ledger, at: map<int, int>, sqe: Sqe)
    requires Sound(b, l, at) && sqe.opcode.OpRead? && SubmitRequest(b, sqe).0 == Submitted
    ensures FirstEmpty(b.pending).Some?
    ensures var slot, b' := FirstEmpty(b.pending).value, SubmitRequest(b, sqe).1;
            (forall after :: PEnabled(b', Fill(slot, after)) ==> after == b') <==> Harmless(b, sqe)
  {
    AcceptedData(b, l, at, sqe);
    FillsShowExactly(SubmitRequest(b, sqe).1, FirstEmpty(b.pending).value);
  }

  lemma FillsShowExactly(b: Blk, slot: nat)
    requires b.Wf() && slot < SLOTS && DataOf(b, slot).Some? && DataOf(b, slot).value.DeviceWrites()
    ensures (forall after :: PEnabled(b, Fill(slot, after)) ==> after == b)
            <==> MissesDriver(b.dma, AreaOf(DataOf(b, slot).value))
  {
    var r := AreaOf(DataOf(b, slot).value);
    if MissesDriver(b.dma, r) {
      forall after | PEnabled(b, Fill(slot, after)) ensures after == b {
        MissedIsInvisible(b, after, r);
      }
    } else {
      var after := HitShows(b, r);
      assert PEnabled(b, Fill(slot, after));
    }
  }

  lemma InitialIsOff(b: Blk)
    requires Fresh(b)
    ensures Off(b)
  {
  }

  /** A fresh driver whose client has asked for nothing that reaches the driver's memory. */
  ghost predicate Fresh(b: Blk) {
    Initial(b) && AllHarmless(b, b.sq)
  }

  /**
   The law of every reachable state, with a device that writes used ring,
   status bytes and the buffers it was given: under harmless requests the
   account of descriptors balances, and two are lost exactly if the driver
   once ran out.
   */
  lemma EveryRunWithPayloads(b: Blk, steps: seq<PStep>, b': Blk) returns (l: Ledger, at: map<int, int>)
    requires Fresh(b) && AsksHarmless(b, steps) && PRun(b, steps, b')
    ensures Run(b, PlainSteps(steps), b') && Inv(b', l, at)
    ensures b'.q.numFree + 3 * Count(b'.pending) + |l.lost| == 128 && Count(b'.pending) <= 42
    ensures |l.lost| == if BlockLosses.SomeRunsOut(b, PlainSteps(steps)) then 2 else 0
  {
    InitialKeeps(b);
    InitialIsOff(b);
    PayloadsAreInvisible(b, steps, b', FreshLedger(QUEUE_SIZE), map[]);
    l, at := EveryRun(b, PlainSteps(steps), b');
    var l2, at2 := BlockLosses.LossMeansRunOut(b, PlainSteps(steps), b');
    ThreePerChain(b', l, at);
    ThreePerChain(b', l2, at2);
  }

  // ---- Requests that are not harmless ----

  /** Without a window, a read onto the queue is accepted like any other. */
  lemma ReadOntoQueueIsAccepted(b: Blk, l: Ledger, at: map<int, int>, ud: u64)
    requires Sound(b, l, at) && b.shm == None && b.blkSize == 512 && Count(b.pending) < 42
    ensures var sqe := Sqe(OpRead, b.dma + QUEUE_OFFSET, 512, 0, ud);
            SubmitRequest(b, sqe).0 == Submitted && !Harmless(b, sqe)
            && !Area(sqe.addr, sqe.len).Apart(BlockQueue(b.dma))
  {
    var sqe := Sqe(OpRead, b.dma + QUEUE_OFFSET, 512, 0, ud);
    OntoQueueIsAcceptable(b, sqe);
    RoomMeansSubmitted(b, l, at, sqe);
    OntoQueueIsHarmful(b, sqe);
    StartIsHit(b.dma, 512);
  }

  lemma OntoQueueIsAcceptable(b: Blk, sqe: Sqe)
    requires b.Wf() && b.shm == None && b.blkSize == 512 && sqe.opcode.OpRead? && sqe.len == 512
    ensures Acceptable(b, sqe)
  {
  }

  lemma RoomMeansSubmitted(b: Blk, l: Ledger, at: map<int, int>, sqe: Sqe)
    requires Sound(b, l, at) && Acceptable(b, sqe) && Count(b.pending) < 42
    ensures SubmitRequest(b, sqe).0 == Submitted
  {
    SubmitOutcome(b, l, at, sqe);
  }

  lemma StartIsHit(dma: nat, len: nat)
    requires len > 0
    ensures !Area(dma + QUEUE_OFFSET, len).Apart(BlockQueue(dma))
  {
  }

  lemma OntoQueueIsHarmful(b: Blk, sqe: Sqe)
    requires sqe.opcode.OpRead? && sqe.len > 0
    requires BufferAddr(b.shm, sqe.addr, sqe.len) == Some(b.dma + QUEUE_OFFSET)
    ensures !Harmless(b, sqe)
  {
    assert !DescSlot(b.dma + QUEUE_OFFSET, 0).Apart(Area(b.dma + QUEUE_OFFSET, sqe.len));
  }

  /** Nor does a window that is apart from the pages help against an address whose end wraps. */
  lemma WrappedReadOntoQueueIsAccepted(b: Blk, l: Ledger, at: map<int, int>, ud: u64)
    requires Sound(b, l, at) && b.shm == Some(SMALL_WINDOW) && b.dma == 0x7FFF_C000 && b.blkSize == 512
    requires Count(b.pending) < 42
    ensures var sqe := Sqe(OpRead, TWO64 - 0x1000, 0x1000, 0, ud);
            SubmitRequest(b, sqe).0 == Submitted && !Harmless(b, sqe)
            && Regular(SMALL_WINDOW) && Area(SMALL_WINDOW.paddr, SMALL_WINDOW.size).Apart(Pages(b.dma))
            && BufferAddr(b.shm, sqe.addr, sqe.len) == Some(DescTable(b.dma + QUEUE_OFFSET, QUEUE_SIZE).at)
  {
    var sqe := Sqe(OpRead, TWO64 - 0x1000, 0x1000, 0, ud);
    WrapsOntoPages();
    RoomMeansSubmitted(b, l, at, sqe);
    OntoQueueIsHarmful(b, sqe);
  }

  /** A descriptor of zeros, as a device may well read them from its disk. */
  const ZEROS := Descriptor(0, 0, 0, 0)

  lemma HeadLinksOn(b: Blk, l: Ledger, at: map<int, int>, slot: nat)
    requires Sound(b, l, at) && slot < SLOTS && b.pending[slot].Some?
    ensures b.pending[slot].value.head < QUEUE_SIZE && b.q.descs[b.pending[slot].value.head].HasNext()
  {
    SlotChain(b, l, at, slot);
    var ids := l.chains[b.pending[slot].value.head];
    assert IsChain(b.q.descs, ids) && ids[0] == b.pending[slot].value.head;
  }

  /** With the head of a request overwritten by zeros, no account of the descriptors balances any more. */
  lemma ZeroedHeadBreaksAccount(b: Blk, slot: nat)
    requires b.Wf() && slot < SLOTS && b.pending[slot].Some? && b.pending[slot].value.head < QUEUE_SIZE
    requires b.q.descs[b.pending[slot].value.head] == ZEROS
    ensures forall l, at :: !Sound(b, l, at)
  {
    forall l, at ensures !Sound(b, l, at) {
      if Sound(b, l, at) {
        HeadLinksOn(b, l, at, slot);
      }
    }
  }

  /**
   It happens: one read onto the queue, from a fresh driver and served as the
   standard says, with zeros on the disk, breaks the account for good.
   */
  lemma ReadOntoQueueBreaksAccount(b: Blk, ud: u64) returns (steps: seq<PStep>, b': Blk)
    requires Initial(b) && b.sq == [] && b.shm == None && b.blkSize == 512
    ensures |steps| == 4 && PRun(b, steps, b') && steps[3].Fill?
    ensures forall l, at :: !Sound(b', l, at)
  {
    var sqe := Sqe(OpRead, b.dma + QUEUE_OFFSET, 512, 0, ud);
    var b3 := BlockLosses.AfterOne(b, sqe);
    var slot := FirstReadFacts(b, b3, sqe);
    b' := b3.(q := b3.q.(descs := b3.q.descs[0 := ZEROS]));
    ZeroedHeadBreaksAccount(b', slot);
    steps := [Plain(Arrive(sqe)), Plain(TakeRequest), Plain(SubmitTaken), Fill(slot, b')];
    FillFirst(b3, slot, b');
    FourSteps(b, sqe, b3, steps, b');
  }

  /** The first read of a fresh driver: its chain starts at descriptor 0. */
  lemma FirstReadFacts(b: Blk, b3: Blk, sqe: Sqe) returns (slot: nat)
    requires Initial(b) && b.sq == [] && sqe.opcode.OpRead? && Acceptable(b, sqe)
    requires b3 == BlockLosses.AfterOne(b, sqe)
    ensures slot < SLOTS && b3.pending[slot].Some? && b3.pending[slot].value.head == 0
    ensures b3.dma == b.dma && DataOf(b3, slot).Some? && DataOf(b3, slot).value.DeviceWrites()
    ensures Some(AreaOf(DataOf(b3, slot).value).at) == BufferAddr(b.shm, sqe.addr, sqe.len)
    ensures AreaOf(DataOf(b3, slot).value).len == sqe.len
  {
    var l := FreshLedger(QUEUE_SIZE);
    InitialKeeps(b);
    EmptyTable(b.pending);
    var b0 := b.(batch := [sqe], fetched := b.fetched + [sqe]).(batch := []);
    assert [sqe][1..] == [];
    SubmitCases(b0, l, map[], sqe);
    SubmitOutcome(b0, l, map[], sqe);
    slot := FirstEmpty(b0.pending).value;
    var b1, data := Prepare(b0, slot, TYPE_IN, sqe.off), BufferAddr(b.shm, sqe.addr, sqe.len).value;
    ClaimedData(b1, l, slot, TYPE_IN, data, sqe);
    ClaimTakesTop(b1, l.free, slot, TYPE_IN, data, sqe);
    assert Top(l.free, 3)[0] == 0;
  }

  /** Zeros in the first descriptor are something the device may put there. */
  lemma FillFirst(b: Blk, slot: nat, b': Blk)
    requires b.Wf() && slot < SLOTS && DataOf(b, slot).Some? && DataOf(b, slot).value.DeviceWrites()
    requires AreaOf(DataOf(b, slot).value) == Area(b.dma + QUEUE_OFFSET, 512)
    requires b' == b.(q := b.q.(descs := b.q.descs[0 := ZEROS]))
    ensures PEnabled(b, Fill(slot, b'))
  {
    assert !DescSlot(b.dma + QUEUE_OFFSET, 0).Apart(Area(b.dma + QUEUE_OFFSET, 512));
  }

  lemma FourSteps(b: Blk, sqe: Sqe, b3: Blk, steps: seq<PStep>, b': Blk)
    requires b.Wf() && b.sq == [] && b.batch == [] && b3 == BlockLosses.AfterOne(b, sqe) && |steps| == 4
    requires steps[..3] == [Plain(Arrive(sqe)), Plain(TakeRequest), Plain(SubmitTaken)]
    requires PEnabled(b3, steps[3]) && PDo(b3, steps[3]) == b'
    ensures PRun(b, steps, b')
  {
    var b1 := Push(b, sqe);
    var b2 := FetchOne(b1);
    assert b1.sq == [sqe] && b1.sq[1..] == [];
    assert b2 == b.(batch := [sqe], fetched := b.fetched + [sqe]);
    assert steps[0] == steps[..3][0] && steps[1] == steps[..3][1] && steps[2] == steps[..3][2];
    PRunOfFour(b, steps, b1, b2, b3, b');
  }

  lemma PRunOfFour(b: Blk, s: seq<PStep>, b1: Blk, b2: Blk, b3: Blk, b4: Blk)
    requires b.Wf() && |s| == 4 && PEnabled(b, s[0]) && PDo(b, s[0]) == b1 && PEnabled(b1, s[1]) && PDo(b1, s[1]) == b2
    requires PEnabled(b2, s[2]) && PDo(b2, s[2]) == b3 && PEnabled(b3, s[3]) && PDo(b3, s[3]) == b4
    ensures PRun(b, s, b4)
  {
    assert PRun(b4, s[1..][1..][1..][1..], b4);
    assert PRun(b3, s[1..][1..][1..], b4);
    assert PRun(b2, s[1..][1..], b4);
    assert PRun(b1, s[1..], b4);
  }
}
