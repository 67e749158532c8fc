/**
 The network driver when the device also fills the buffers it was given for
 receiving.  As for the block driver, a buffer that misses the driver's queues
 never shows; one that hits them can destroy the account of descriptors.
 */
module NetPayloads {
  import opened Base
  import opened PendingTable
  import opened VirtQueues
  import opened Nets
  import opened Windows
  import opened Payloads
  import D = NetDevices
  import NetLosses
  import L = Layout
  import Rings

  // ---- The driver's memory ----

  function QueueOffset(side: Side): nat {
    if side == Rx then 2 * PAGE else 3 * PAGE
  }

  /** The range misses both queues. */
  ghost predicate MissesDriver(dma: nat, r: L.Area) {
    Misses(dma + QueueOffset(Rx), QUEUE_SIZE, r) && Misses(dma + QueueOffset(Tx), QUEUE_SIZE, r)
  }

  ghost predicate Overwritten(n: Net, n': Net, r: L.Area)
    requires n.Wf()
  {
    && n' == n.(rx := n.rx.(q := n'.rx.q), tx := n.tx.(q := n'.tx.q))
    && Scribbled(n.rx.q, n'.rx.q, n.dma + QueueOffset(Rx), r)
    && Scribbled(n.tx.q, n'.tx.q, n.dma + QueueOffset(Tx), r)
  }

  lemma MissedIsInvisible(n: Net, n': Net, r: L.Area)
    requires n.Wf() && MissesDriver(n.dma, r) && Overwritten(n, n', r)
    ensures n' == n
  {
    MissedIsUntouched(n.rx.q, n'.rx.q, n.dma + QueueOffset(Rx), r);
    MissedIsUntouched(n.tx.q, n'.tx.q, n.dma + QueueOffset(Tx), r);
  }

  lemma HitShows(n: Net, r: L.Area) returns (n': Net)
    requires n.Wf() && !MissesDriver(n.dma, r)
    ensures Overwritten(n, n', r) && n' != n && n'.Wf()
  {
    if !Misses(n.dma + QueueOffset(Rx), QUEUE_SIZE, r) {
      var q' := HitCanChange(n.rx.q, n.dma + QueueOffset(Rx), r);
      n' := n.(rx := n.rx.(q := q'));
      assert n'.rx.q != n.rx.q;
    } else {
      var q' := HitCanChange(n.tx.q, n.dma + QueueOffset(Tx), r);
      n' := n.(tx := n.tx.(q := q'));
      assert n'.tx.q != n.tx.q;
    }
  }

  /** What the device writes into a buffer never shows in the driver exactly if the buffer misses its queues. */
  lemma InvisibleIffMissesDriver(n: Net, r: L.Area)
    requires n.Wf()
    ensures (forall n' :: Overwritten(n, n', r) ==> n' == n) <==> MissesDriver(n.dma, r)
  {
    if MissesDriver(n.dma, r) {
      forall n' | Overwritten(n, n', r) ensures n' == n {
        MissedIsInvisible(n, n', r);
      }
    } else {
      var n' := HitShows(n, r);
    }
  }

  lemma OffPagesMissesDriver(dma: u64, r: L.Area)
    requires dma + 4 * PAGE <= TWO64 && r.Apart(Pages(dma))
    ensures MissesDriver(dma, r)
  {
    L.NetAreasAreApart(dma, Rx, 0, Tx, 0);
    L.NetAreasAreApart(dma, Tx, 0, Rx, 0);
    OutsideMisses(dma + QueueOffset(Rx), QUEUE_SIZE, r);
    OutsideMisses(dma + QueueOffset(Tx), QUEUE_SIZE, r);
  }

  // ---- Requests that keep the device off the driver's memory ----

  ghost predicate HarmlessAt(dma: nat, shm: Option<Shm>, sqe: Sqe) {
    var data := BufferAddr(shm, sqe.addr, sqe.len);
    data.Some? ==> MissesDriver(dma, L.Area(data.value, sqe.len))
  }

  /** If the request is a receive the driver accepts, its buffer misses the driver's memory. */
  ghost predicate Harmless(n: Net, sqe: Sqe) {
    sqe.opcode.OpRead? ==> HarmlessAt(n.dma, n.shm, sqe)
  }

  /** What a caller can ensure: a regular window apart from the driver's pages, and no request that wraps. */
  lemma WindowedIsHarmless(n: Net, w: Shm, sqe: Sqe)
    requires n.Wf() && n.shm == Some(w) && Regular(w) && L.Area(w.paddr, w.size).Apart(Pages(n.dma))
    requires sqe.addr + sqe.len < TWO64 && sqe.len > 0
    ensures Harmless(n, sqe)
  {
    WindowKeepsOffPages(w, sqe.addr, sqe.len, n.dma);
    var data := BufferAddr(n.shm, sqe.addr, sqe.len);
    if data.Some? {
      OffPagesMissesDriver(n.dma, L.Area(data.value, sqe.len));
    }
  }

  /** The payload descriptor of the request pending at `id`. */
  function DataOf(p: Port, id: nat): Option<Descriptor>
    requires p.Wf() && id < QUEUE_SIZE
  {
    if p.pending[id].None? then None else Some(p.q.descs[p.q.descs[id].next])
  }

  function AreaOf(d: Descriptor): L.Area {
    L.Area(d.addr, d.len)
  }

  /** A buffer the device may write misses the driver's memory. */
  ghost predicate DataMisses(p: Port, id: nat, dma: nat)
    requires p.Wf() && id < QUEUE_SIZE
  {
    var d := DataOf(p, id);
    d.Some? && d.value.DeviceWrites() ==> MissesDriver(dma, AreaOf(d.value))
  }

  ghost predicate PortOff(p: Port, dma: nat)
    requires p.Wf()
  {
    forall id :: 0 <= id < QUEUE_SIZE ==> DataMisses(p, id, dma)
  }

  ghost predicate AllHarmless(n: Net, sqes: seq<Sqe>) {
    forall i :: 0 <= i < |sqes| ==> Harmless(n, sqes[i])
  }

  ghost predicate Off(n: Net)
    requires n.Wf()
  {
    PortOff(n.rx, n.dma) && PortOff(n.tx, n.dma) && AllHarmless(n, n.sq) && AllHarmless(n, n.batch)
  }

  // ---- A request in flight keeps its descriptors ----

  lemma ChainOf(p: Port, l: Ledger, id: nat)
    requires Sound(p, l) && id < QUEUE_SIZE && p.pending[id].Some?
    ensures id in l.chains && l.chains[id] == [id, p.q.descs[id].next]
    ensures |l.owner| == QUEUE_SIZE
    ensures l.owner[id] == InChain(id, 0) && l.owner[p.q.descs[id].next] == InChain(id, 1)
  {
    var ids := l.chains[id];
    assert IsChain(p.q.descs, ids);
    assert l.owner[ids[0]] == InChain(id, 0) && l.owner[ids[1]] == InChain(id, 1);
    assert p.q.descs[ids[0]].next == ids[1];
  }

  lemma LaunchLeavesOthers(p: Port, l: Ledger, side: Side, dma: u64, data: u64, len: u32, id: int)
    requires p.Wf() && Owned(p.q, CHAIN, l) && |l.free| >= 2 && dma + 4 * PAGE <= TWO64
    requires 0 <= id < QUEUE_SIZE && l.owner[id].InChain?
    ensures var ids := Top(l.free, 2);
            && 0 <= ids[0] < QUEUE_SIZE && 0 <= ids[1] < QUEUE_SIZE && id != ids[0] && id != ids[1]
            && Launched(p, side, dma, data, len, ids).descs[id] == p.q.descs[id]
  {
    TopIsDistinct(CHAIN, l, 2);
  }

  /** Submitting a request does not touch the descriptors of any request in flight on its queue. */
  lemma SubmitLeavesOthers(p: Port, l: Ledger, side: Side, dma: u64, shm: Option<Shm>, sqe: Sqe, id: nat)
    requires Sound(p, l) && dma + 4 * PAGE <= TWO64 && id < QUEUE_SIZE && p.pending[id].Some?
    ensures var p' := SubmitTo(p, side, dma, shm, sqe).1;
            && p'.pending[id] == p.pending[id] && p'.q.descs[id] == p.q.descs[id]
            && p'.q.descs[p.q.descs[id].next] == p.q.descs[p.q.descs[id].next]
  {
    ChainOf(p, l, id);
    TwoPerChain(p, l);
    if |l.free| >= 2 {
      SubmitTakesTop(p, side, dma, shm, sqe, l.free);
      AllocPair(p.q, l.free);
      var data := BufferAddr(shm, sqe.addr, sqe.len);
      if data.Some? {
        LaunchLeavesOthers(p, l, side, dma, data.value, sqe.len, id);
        LaunchLeavesOthers(p, l, side, dma, data.value, sqe.len, p.q.descs[id].next);
      }
    }
  }

  /** Nor does completing one. */
  lemma FinishLeavesOthers(p: Port, l: Ledger, done: nat, id: nat)
    requires Sound(p, l) && done < QUEUE_SIZE && p.pending[done].Some?
    requires id < QUEUE_SIZE && p.pending[id].Some? && id != done
    ensures var p' := Finish(p, done);
            && p'.pending[id] == p.pending[id] && p'.q.descs[id] == p.q.descs[id]
            && p'.q.descs[p.q.descs[id].next] == p.q.descs[p.q.descs[id].next]
  {
    WalkIsOwnChain(p, l, done);
    ChainOf(p, l, done);
    ChainOf(p, l, id);
    FreeAllFrame(p.q, l.chains[done], id);
    FreeAllFrame(p.q, l.chains[done], p.q.descs[id].next);
  }

  // ---- Steps keep buffers off the driver's memory ----

  lemma LaunchedData(p: Port, side: Side, dma: u64, data: u64, len: u32, ids: seq<int>)
    requires p.Wf() && dma + 4 * PAGE <= TWO64
    requires |ids| == 2 && 0 <= ids[0] < QUEUE_SIZE && 0 <= ids[1] < QUEUE_SIZE && ids[0] != ids[1]
    ensures var q := Launched(p, side, dma, data, len, ids);
            && q.descs[ids[0]].next == ids[1]
            && q.descs[ids[1]] == Descriptor(data, len, if side == Rx then DESC_F_WRITE else 0, 0)
  {
  }

  /** The request just accepted: its descriptor names its own buffer. */
  lemma AcceptedData(p: Port, l: Ledger, side: Side, dma: u64, shm: Option<Shm>, sqe: Sqe)
    requires Sound(p, l) && dma + 4 * PAGE <= TWO64 && SubmitTo(p, side, dma, shm, sqe).0 == Submitted
    ensures var d := DataOf(SubmitTo(p, side, dma, shm, sqe).1, p.q.freeHead);
            && d.Some? && Some(d.value.addr) == BufferAddr(shm, sqe.addr, sqe.len) && d.value.len == sqe.len
            && (d.value.DeviceWrites() <==> side == Rx)
  {
    SubmitOutcome(p, l, side, dma, shm, sqe);
    TwoPerChain(p, l);
    SubmitTakesTop(p, side, dma, shm, sqe, l.free);
    TopIsDistinct(CHAIN, l, 2);
    LaunchedData(p, side, dma, BufferAddr(shm, sqe.addr, sqe.len).value, sqe.len, Top(l.free, 2));
  }

  lemma SubmitStaysOff(p: Port, l: Ledger, side: Side, dma: u64, shm: Option<Shm>, sqe: Sqe)
    requires Sound(p, l) && dma + 4 * PAGE <= TWO64 && PortOff(p, dma) && (side == Rx ==> HarmlessAt(dma, shm, sqe))
    ensures PortOff(SubmitTo(p, side, dma, shm, sqe).1, dma)
  {
    var (r, p') := SubmitTo(p, side, dma, shm, sqe);
    SubmitOutcome(p, l, side, dma, shm, sqe);
    if r == Submitted {
      AcceptedData(p, l, side, dma, shm, sqe);
    }
    forall id | 0 <= id < QUEUE_SIZE ensures DataMisses(p', id, dma) {
      assert DataMisses(p, id, dma);
      if p.pending[id].Some? {
        SubmitLeavesOthers(p, l, side, dma, shm, sqe, id);
      }
    }
  }

  lemma PopStaysOff(p: Port, l: Ledger, side: Side, dma: nat)
    requires Sound(p, l) && PortOff(p, dma)
    ensures PortOff(PopEntry(p, side).1, dma)
  {
    var p' := PopEntry(p, side).1;
    if CanPop(p.q) {
      var done, p1 := Pop(p.q).0.value.id, p.(q := Pop(p.q).1);
      assert Sound(p1, l);
      forall id | 0 <= id < QUEUE_SIZE ensures DataMisses(p', id, dma) {
        assert DataMisses(p, id, dma);
        if done < QUEUE_SIZE && p.pending[done].Some? && p.pending[id].Some? && id != done {
          FinishLeavesOthers(p1, l, done, id);
        }
      }
    }
  }

  lemma SameHarmless(n: Net, n': Net, sqes: seq<Sqe>)
    requires AllHarmless(n, sqes) && n'.shm == n.shm && n'.dma == n.dma
    ensures AllHarmless(n', sqes)
  {
    forall i | 0 <= i < |sqes| ensures Harmless(n', sqes[i]) {
      assert Harmless(n, sqes[i]);
    }
  }

  lemma SubmitTakenStaysOff(n: Net, rx: Ledger, tx: Ledger)
    requires Inv(n, rx, tx) && Off(n) && n.batch != []
    ensures var n' := SubmitNext(n); Off(n') && n'.shm == n.shm && n'.dma == n.dma
  {
    var sqe, n' := n.batch[0], SubmitNext(n);
    assert Harmless(n, sqe);
    match SideOf(sqe.opcode) {
      case None =>
      case Some(Rx) => SubmitStaysOff(n.rx, rx, Rx, n.dma, n.shm, sqe);
      case Some(Tx) => SubmitStaysOff(n.tx, tx, Tx, n.dma, n.shm, sqe);
    }
    SameHarmless(n, n', n.sq);
    SameHarmless(n, n', n.batch[1..]);
  }

  lemma PopUsedStaysOff(n: Net, side: Side, rx: Ledger, tx: Ledger)
    requires Inv(n, rx, tx) && Off(n)
    ensures var n' := PopOne(n, side); Off(n') && n'.shm == n.shm && n'.dma == n.dma
  {
    PopStaysOff(PortOf(n, side), if side == Rx then rx else tx, side, n.dma);
    SameHarmless(n, PopOne(n, side), n.sq);
    SameHarmless(n, PopOne(n, side), n.batch);
  }

  /** Every step of client, driver and device stays off, if what the client asks for is harmless. */
  lemma StepStaysOff(n: Net, step: Step, rx: Ledger, tx: Ledger)
    requires Inv(n, rx, tx) && Off(n) && Enabled(n, step)
    requires step.Arrive? ==> Harmless(n, step.sqe)
    ensures var n' := Do(n, step); Off(n') && n'.shm == n.shm && n'.dma == n.dma
  {
    if step.SubmitTaken? {
      SubmitTakenStaysOff(n, rx, tx);
    } else if step.PopUsed? {
      PopUsedStaysOff(n, step.side, rx, tx);
    } else {
      OthersStayOff(n, step);
    }
  }

  lemma OthersStayOff(n: Net, step: Step)
    requires n.Wf() && Off(n) && Enabled(n, step) && !step.SubmitTaken? && !step.PopUsed?
    requires step.Arrive? ==> Harmless(n, step.sqe)
    ensures var n' := Do(n, step); Off(n') && n'.shm == n.shm && n'.dma == n.dma
  {
    var n' := Do(n, step);
    assert forall id :: 0 <= id < QUEUE_SIZE ==> DataMisses(n.rx, id, n.dma) && DataOf(n'.rx, id) == DataOf(n.rx, id);
    assert forall id :: 0 <= id < QUEUE_SIZE ==> DataMisses(n.tx, id, n.dma) && DataOf(n'.tx, id) == DataOf(n.tx, id);
    SameHarmless(n, n', n.sq);
    SameHarmless(n, n', n.batch);
  }

  // ---- Runs with payloads ----

  /**
   A step as before, or the device fills a receive buffer in flight with
   anything.  `after` is the driver then; contents that turn a link into no
   index of the table would end the driver at once and are left aside.
   */
  datatype PStep = Plain(step: Step) | Fill(side: Side, id: nat, after: Net)

  ghost predicate CanFill(n: Net, side: Side, id: nat, after: Net)
    requires n.Wf()
  {
    && id < QUEUE_SIZE && !n.crashed && after.Wf()
    && var d := DataOf(PortOf(n, side), id);
       d.Some? && d.value.DeviceWrites() && Overwritten(n, after, AreaOf(d.value))
  }

  ghost predicate PEnabled(n: Net, step: PStep)
    requires n.Wf()
  {
    match step
    case Plain(s) => Enabled(n, s)
    case Fill(side, id, after) => CanFill(n, side, id, after)
  }

  ghost function PDo(n: Net, step: PStep): (n': Net)
    requires n.Wf() && PEnabled(n, step)
    ensures n'.Wf()
  {
    match step
    case Plain(s) => Do(n, s)
    case Fill(_, _, after) => after
  }

  ghost predicate PRun(n: Net, steps: seq<PStep>, n': Net)
    requires n.Wf()
    decreases |steps|
  {
    if steps == [] then n' == n else PEnabled(n, steps[0]) && PRun(PDo(n, steps[0]), steps[1..], n')
  }

  function PlainOf(step: PStep): seq<Step> {
    if step.Plain? then [step.step] else []
  }

  /** The run without the payloads. */
  function PlainSteps(steps: seq<PStep>): seq<Step> {
    if steps == [] then [] else PlainOf(steps[0]) + PlainSteps(steps[1..])
  }

  lemma PlainCons(steps: seq<PStep>)
    requires steps != []
    ensures PlainSteps(steps) == PlainOf(steps[0]) + PlainSteps(steps[1..])
  {
  }

  /** The client's next request, if the step brings one. */
  function AskedBy(step: Step): seq<Sqe> {
    if step.Arrive? then [step.sqe] else []
  }

  function Asked(step: PStep): seq<Sqe> {
    if step.Plain? then AskedBy(step.step) else []
  }

  /** Whatever the client asks for during the run is harmless. */
  ghost predicate AsksHarmless(n: Net, steps: seq<PStep>) {
    forall i :: 0 <= i < |steps| ==> AllHarmless(n, Asked(steps[i]))
  }

  lemma HarmlessElsewhere(n: Net, n': Net, steps: seq<PStep>)
    requires AsksHarmless(n, steps) && n'.shm == n.shm && n'.dma == n.dma
    ensures AsksHarmless(n', steps)
  {
    forall i | 0 <= i < |steps| ensures AllHarmless(n', Asked(steps[i])) {
      SameHarmless(n, n', Asked(steps[i]));
    }
  }

  /** Whatever the device writes into a buffer that misses the driver's memory, the driver does not change. */
  lemma FillIsInvisible(n: Net, side: Side, id: nat, after: Net)
    requires n.Wf() && Off(n) && CanFill(n, side, id, after)
    ensures after == n
  {
    assert DataMisses(PortOf(n, side), id, n.dma);
    MissedIsInvisible(n, after, AreaOf(DataOf(PortOf(n, side), id).value));
  }

  /**
   Exactly which accepted receives are safe: whatever the device fills their
   buffer with, the driver does not change, if and only if they are harmless.
   */
  lemma AcceptedReceiveIsSafeExactly(n: Net, rx: Ledger, sqe: Sqe)
    requires n.Wf() && !n.crashed && Sound(n.rx, rx) && sqe.opcode.OpRead? && SubmitRequest(n, sqe).0 == Submitted
    ensures var id, n' := n.rx.q.freeHead, SubmitRequest(n, sqe).1;
            (forall after :: PEnabled(n', Fill(Rx, id, after)) ==> after == n') <==> Harmless(n, sqe)
  {
    AcceptedData(n.rx, rx, Rx, n.dma, n.shm, sqe);
    FillsShowExactly(SubmitRequest(n, sqe).1, Rx, n.rx.q.freeHead);
  }

  lemma FillsShowExactly(n: Net, side: Side, id: nat)
    requires n.Wf() && !n.crashed && id < QUEUE_SIZE
    requires DataOf(PortOf(n, side), id).Some? && DataOf(PortOf(n, side), id).value.DeviceWrites()
    ensures (forall after :: PEnabled(n, Fill(side, id, after)) ==> after == n)
            <==> MissesDriver(n.dma, AreaOf(DataOf(PortOf(n, side), id).value))
  {
    var r := AreaOf(DataOf(PortOf(n, side), id).value);
    if MissesDriver(n.dma, r) {
      forall after | PEnabled(n, Fill(side, id, after)) ensures after == n {
        MissedIsInvisible(n, after, r);
      }
    } else {
      var after := HitShows(n, r);
      assert PEnabled(n, Fill(side, id, after));
    }
  }

  lemma FirstStep(n: Net, steps: seq<PStep>, rx: Ledger, tx: Ledger) returns (next: Net, rx': Ledger, tx': Ledger)
    requires Inv(n, rx, tx) && Off(n) && AsksHarmless(n, steps) && steps != [] && PEnabled(n, steps[0])
    ensures next == PDo(n, steps[0]) && Inv(next, rx', tx') && Off(next) && AsksHarmless(next, steps[1..])
    ensures steps[0].Fill? ==> next == n
  {
    var step := steps[0];
    next, rx', tx' := PDo(n, step), rx, tx;
    if step.Fill? {
      FillIsInvisible(n, step.side, step.id, step.after);
    } else {
      assert AllHarmless(n, Asked(step));
      assert step.step.Arrive? ==> Asked(step)[0] == step.step.sqe;
      StepStaysOff(n, step.step, rx, tx);
      rx', tx' := StepKeeps(n, step.step, rx, tx);
    }
    HarmlessElsewhere(n, next, steps[1..]);
  }

  lemma FirstIsPlain(n: Net, step: PStep, next: Net, rest: seq<Step>, n': Net)
    requires n.Wf() && PEnabled(n, step) && next == PDo(n, step) && (step.Fill? ==> next == n)
    requires Run(next, rest, n')
    ensures Run(n, PlainOf(step) + rest, n')
  {
    if step.Plain? {
      RunCons(n, step.step, rest, n');
    } else {
      assert PlainOf(step) + rest == rest;
    }
  }

  /** A run with payloads is a run without them, if every receive asked for is harmless. */
  lemma {:induction false} PayloadsAreInvisible(n: Net, steps: seq<PStep>, n': Net, rx: Ledger, tx: Ledger)
    requires Inv(n, rx, tx) && Off(n) && AsksHarmless(n, steps) && PRun(n, steps, n')
    ensures Run(n, PlainSteps(steps), n')
    decreases |steps|
  {
    if steps != [] {
      var next, rx', tx' := FirstStep(n, steps, rx, tx);
      PayloadsAreInvisible(next, steps[1..], n', rx', tx');
      PlainCons(steps);
      FirstIsPlain(n, steps[0], next, PlainSteps(steps[1..]), n');
    }
  }

  lemma InitialIsOff(n: Net)
    requires Initial(n) && AllHarmless(n, n.sq)
    ensures Off(n)
  {
  }

  /**
   The law of every reachable state, with a device that writes used rings and
   the buffers it was given: under harmless requests both queues' accounts
   balance and every fetched request is somewhere, exactly once.
   */
  lemma EveryRunWithPayloads(n: Net, steps: seq<PStep>, n': Net) returns (rx: Ledger, tx: Ledger)
    requires Initial(n) && AllHarmless(n, n.sq) && AsksHarmless(n, steps) && PRun(n, steps, n')
    ensures Run(n, PlainSteps(steps), n') && Inv(n', rx, tx)
    ensures n'.rx.q.numFree + 2 * Count(n'.rx.pending) + 2 * n'.rx.rejected == 128
    ensures n'.tx.q.numFree + 2 * Count(n'.tx.pending) + 2 * n'.tx.rejected == 128
  {
    InitialPortSound(n.rx);
    InitialPortSound(n.tx);
    InitialIsOff(n);
    PayloadsAreInvisible(n, steps, n', FreshLedger(QUEUE_SIZE), FreshLedger(QUEUE_SIZE));
    rx, tx := EveryRun(n, PlainSteps(steps), n');
  }

  // ---- The device that keeps to its heads fills buffers, too ----

  /** A step of driver and device as before, or the device fills the buffer of a head it has taken. */
  datatype DStep = Tame(step: D.SysStep) | FillTaken(side: Side, head: nat, after: Net)

  ghost predicate DEnabled(s: D.Sys, step: DStep)
    requires s.net.Wf()
  {
    match step
    case Tame(t) => D.SysEnabled(s, t)
    case FillTaken(side, head, after) => head as int in D.ReaderOf(s, side).heads && CanFill(s.net, side, head, after)
  }

  ghost function DDo(s: D.Sys, step: DStep): (s': D.Sys)
    requires s.net.Wf() && DEnabled(s, step)
    ensures s'.net.Wf()
  {
    match step
    case Tame(t) => D.SysDo(s, t)
    case FillTaken(_, _, after) => s.(net := after)
  }

  ghost predicate DRun(s: D.Sys, steps: seq<DStep>, s': D.Sys)
    requires s.net.Wf()
    decreases |steps|
  {
    if steps == [] then s' == s else DEnabled(s, steps[0]) && DRun(DDo(s, steps[0]), steps[1..], s')
  }

  function DAsked(step: DStep): seq<Sqe> {
    if step.Tame? && step.step.Driver? then AskedBy(step.step.step) else []
  }

  ghost predicate DAsksHarmless(n: Net, steps: seq<DStep>) {
    forall i :: 0 <= i < |steps| ==> AllHarmless(n, DAsked(steps[i]))
  }

  /** To the driver, what the device publishes is a write to the used ring. */
  lemma PublishIsWrite(s: D.Sys, side: Side, head: int, len: u32, rx: Ledger, tx: Ledger)
    requires Inv(s.net, rx, tx) && !s.net.crashed && Off(s.net) && D.SysEnabled(s, D.Publish(side, head, len))
    ensures var n' := D.SysDo(s, D.Publish(side, head, len)).net;
            Inv(n', rx, tx) && Off(n') && n'.shm == s.net.shm && n'.dma == s.net.dma
  {
    var q := D.Published(PortOf(s.net, side).q, UsedElem(head, len));
    var w := DeviceWrites(side, q.used, q.usedIdx);
    assert Do(s.net, w) == D.SysDo(s, D.Publish(side, head, len)).net;
    StepStaysOff(s.net, w, rx, tx);
    DeviceKeeps(s.net, w, rx, tx);
  }

  lemma TameStaysOff(s: D.Sys, step: D.SysStep, rx: Ledger, tx: Ledger) returns (rx': Ledger, tx': Ledger)
    requires Inv(s.net, rx, tx) && !s.net.crashed && Off(s.net) && D.SysEnabled(s, step)
    requires AllHarmless(s.net, DAsked(Tame(step)))
    ensures var n' := D.SysDo(s, step).net;
            Inv(n', rx', tx') && Off(n') && n'.shm == s.net.shm && n'.dma == s.net.dma
  {
    rx', tx' := rx, tx;
    if step.Publish? {
      PublishIsWrite(s, step.side, step.head, step.len, rx, tx);
    } else if step.Driver? {
      assert step.step.Arrive? ==> DAsked(Tame(step))[0] == step.step.sqe;
      StepStaysOff(s.net, step.step, rx, tx);
      rx', tx' := StepKeeps(s.net, step.step, rx, tx);
    }
  }

  lemma DHarmlessElsewhere(n: Net, n': Net, steps: seq<DStep>)
    requires DAsksHarmless(n, steps) && n'.shm == n.shm && n'.dma == n.dma
    ensures DAsksHarmless(n', steps)
  {
    forall i | 0 <= i < |steps| ensures AllHarmless(n', DAsked(steps[i])) {
      SameHarmless(n, n', DAsked(steps[i]));
    }
  }

  lemma FirstTameStep(s: D.Sys, steps: seq<DStep>, rx: Ledger, tx: Ledger)
    returns (next: D.Sys, rx': Ledger, tx': Ledger)
    requires Inv(s.net, rx, tx) && Off(s.net) && D.SysInv(s) && DAsksHarmless(s.net, steps)
    requires steps != [] && DEnabled(s, steps[0])
    ensures next == DDo(s, steps[0]) && D.SysInv(next) && Inv(next.net, rx', tx') && Off(next.net)
    ensures DAsksHarmless(next.net, steps[1..])
  {
    var step := steps[0];
    next, rx', tx' := DDo(s, step), rx, tx;
    if step.FillTaken? {
      FillIsInvisible(s.net, step.side, step.head, step.after);
    } else {
      assert AllHarmless(s.net, DAsked(step));
      D.StepIsTame(s, step.step);
      rx', tx' := TameStaysOff(s, step.step, rx, tx);
    }
    DHarmlessElsewhere(s.net, next.net, steps[1..]);
  }

  lemma {:induction false} RunWithPayloadsIsTame(s: D.Sys, steps: seq<DStep>, s': D.Sys, rx: Ledger, tx: Ledger)
    requires Inv(s.net, rx, tx) && Off(s.net) && D.SysInv(s) && DAsksHarmless(s.net, steps) && DRun(s, steps, s')
    ensures D.SysInv(s')
    decreases |steps|
  {
    if steps != [] {
      var next, rx', tx' := FirstTameStep(s, steps, rx, tx);
      RunWithPayloadsIsTame(next, steps[1..], s', rx', tx');
    }
  }

  /**
   A device that publishes only heads it took, and fills their buffers with
   anything, never ends the driver, if what the client asks for is harmless.
   */
  lemma FillingBuffersNeverCrashes(s: D.Sys, steps: seq<DStep>, s': D.Sys)
    requires D.SysInitial(s) && AllHarmless(s.net, s.net.sq) && DAsksHarmless(s.net, steps) && DRun(s, steps, s')
    ensures !s'.net.crashed
  {
    InitialPortSound(s.net.rx);
    InitialPortSound(s.net.tx);
    InitialIsOff(s.net);
    RunWithPayloadsIsTame(s, steps, s', FreshLedger(QUEUE_SIZE), FreshLedger(QUEUE_SIZE));
  }

  // ---- Requests that are not harmless ----

  lemma OntoQueueIsHarmful(n: Net, sqe: Sqe)
    requires sqe.opcode.OpRead? && sqe.len > 0
    requires BufferAddr(n.shm, sqe.addr, sqe.len) == Some(n.dma + QueueOffset(Rx))
    ensures !Harmless(n, sqe)
  {
    assert !L.DescSlot(n.dma + QueueOffset(Rx), 0).Apart(L.Area(n.dma + QueueOffset(Rx), sqe.len));
  }

  lemma ReceiveIsAccepted(n: Net, rx: Ledger, sqe: Sqe)
    requires n.Wf() && Sound(n.rx, rx) && Count(n.rx.pending) + n.rx.rejected < 64
    requires sqe.opcode.OpRead? && BufferAddr(n.shm, sqe.addr, sqe.len).Some?
    ensures SubmitRequest(n, sqe).0 == Submitted
  {
    SubmitOutcome(n.rx, rx, Rx, n.dma, n.shm, sqe);
  }

  lemma StartIsHit(dma: nat, len: nat)
    requires len > 0
    ensures !L.Area(dma + QueueOffset(Rx), len).Apart(L.NetQueue(dma, Rx))
  {
  }

  /** Without a window, a receive onto the receive queue itself is accepted like any other. */
  lemma ReceiveOntoQueueIsAccepted(n: Net, rx: Ledger, len: u32, ud: u64)
    requires n.Wf() && Sound(n.rx, rx) && n.shm == None && Count(n.rx.pending) + n.rx.rejected < 64 && len > 0
    ensures var sqe := Sqe(OpRead, n.dma + QueueOffset(Rx), len, 0, ud);
            SubmitRequest(n, sqe).0 == Submitted && !Harmless(n, sqe)
            && !L.Area(sqe.addr, sqe.len).Apart(L.NetQueue(n.dma, Rx))
  {
    var sqe := Sqe(OpRead, n.dma + QueueOffset(Rx), len, 0, ud);
    ReceiveIsAccepted(n, rx, sqe);
    OntoQueueIsHarmful(n, sqe);
    StartIsHit(n.dma, len);
  }

  /** Nor does a window that is apart from the pages help against an address whose end wraps. */
  lemma WrappedReceiveOntoQueueIsAccepted(n: Net, rx: Ledger, ud: u64)
    requires n.Wf() && Sound(n.rx, rx) && n.shm == Some(SMALL_WINDOW) && n.dma == 0x7FFF_C000
    requires Count(n.rx.pending) + n.rx.rejected < 64
    ensures var sqe := Sqe(OpRead, TWO64 - 0x1000, 0x1000, 0, ud);
            SubmitRequest(n, sqe).0 == Submitted && !Harmless(n, sqe)
            && Regular(SMALL_WINDOW) && L.Area(SMALL_WINDOW.paddr, SMALL_WINDOW.size).Apart(Pages(n.dma))
            && BufferAddr(n.shm, sqe.addr, sqe.len) == Some(L.DescTable(n.dma + QueueOffset(Rx), QUEUE_SIZE).at)
  {
    var sqe := Sqe(OpRead, TWO64 - 0x1000, 0x1000, 0, ud);
    WrapsOntoPages();
    ReceiveIsAccepted(n, rx, sqe);
    OntoQueueIsHarmful(n, sqe);
  }

  const ZEROS := Descriptor(0, 0, 0, 0)

  /** With the head of a request overwritten by zeros, no account of the descriptors balances any more. */
  lemma ZeroedHeadBreaksAccount(p: Port, id: nat)
    requires p.Wf() && id < QUEUE_SIZE && p.pending[id].Some? && p.q.descs[id] == ZEROS
    ensures forall l :: !Sound(p, l)
  {
    forall l ensures !Sound(p, l) {
      if Sound(p, l) {
        HeadLinksOn(p, l, id);
      }
    }
  }

  lemma HeadLinksOn(p: Port, l: Ledger, id: nat)
    requires Sound(p, l) && id < QUEUE_SIZE && p.pending[id].Some?
    ensures p.q.descs[id].HasNext()
  {
    assert IsChain(p.q.descs, l.chains[id]) && l.chains[id][0] == id;
  }

  /** A fresh queue gives its first request the descriptors 0 and 1. */
  lemma FirstReceive(p: Port, dma: u64, shm: Option<Shm>, sqe: Sqe)
    requires InitialPort(p) && dma + 4 * PAGE <= TWO64 && BufferAddr(shm, sqe.addr, sqe.len).Some?
    ensures var (r, p') := SubmitTo(p, Rx, dma, shm, sqe);
            && r == Submitted && p'.pending[0].Some? && DataOf(p', 0).Some? && DataOf(p', 0).value.DeviceWrites()
            && Some(DataOf(p', 0).value.addr) == BufferAddr(shm, sqe.addr, sqe.len)
            && DataOf(p', 0).value.len == sqe.len
  {
    var l := FreshLedger(QUEUE_SIZE);
    InitialPortSound(p);
    EmptyTable(p.pending);
    SubmitOutcome(p, l, Rx, dma, shm, sqe);
    AcceptedData(p, l, Rx, dma, shm, sqe);
  }

  lemma FillFirst(n: Net, n': Net)
    requires n.Wf() && !n.crashed && DataOf(n.rx, 0).Some? && DataOf(n.rx, 0).value.DeviceWrites()
    requires DataOf(n.rx, 0).value.addr == n.dma + QueueOffset(Rx) && DataOf(n.rx, 0).value.len > 0
    requires n' == n.(rx := n.rx.(q := n.rx.q.(descs := n.rx.q.descs[0 := ZEROS])))
    ensures PEnabled(n, Fill(Rx, 0, n'))
  {
    var r := AreaOf(DataOf(n.rx, 0).value);
    assert !L.DescSlot(n.dma + QueueOffset(Rx), 0).Apart(r);
  }

  /** It happens: one receive onto the queue, filled with zeros, breaks the account for good. */
  lemma ReceiveOntoQueueBreaksAccount(n: Net, len: u32, ud: u64) returns (steps: seq<PStep>, n': Net)
    requires Initial(n) && !n.crashed && n.sq == [] && n.shm == None && len > 0
    ensures |steps| == 4 && PRun(n, steps, n') && steps[3].Fill?
    ensures forall rx, tx :: !Inv(n', rx, tx)
  {
    var sqe := Sqe(OpRead, n.dma + QueueOffset(Rx), len, 0, ud);
    FirstReceive(n.rx, n.dma, n.shm, sqe);
    var n3 := NetLosses.AfterOne(n, sqe);
    n' := n3.(rx := n3.rx.(q := n3.rx.q.(descs := n3.rx.q.descs[0 := ZEROS])));
    ZeroedHeadBreaksAccount(n'.rx, 0);
    steps := [Plain(Arrive(sqe)), Plain(TakeRequest), Plain(SubmitTaken), Fill(Rx, 0, n')];
    FillFirst(n3, n');
    FourSteps(n, sqe, n3, steps, n');
  }

  lemma FourSteps(n: Net, sqe: Sqe, n3: Net, steps: seq<PStep>, n': Net)
    requires n.Wf() && !n.crashed && n.sq == [] && n.batch == [] && n3 == NetLosses.AfterOne(n, sqe) && |steps| == 4
    requires steps[..3] == [Plain(Arrive(sqe)), Plain(TakeRequest), Plain(SubmitTaken)]
    requires PEnabled(n3, steps[3]) && PDo(n3, steps[3]) == n'
    ensures PRun(n, steps, n')
  {
    var n1 := n.(sq := n.sq + [sqe]);
    var n2 := FetchOne(n1);
    assert n1.sq == [sqe] && n1.sq[1..] == [];
    assert n2 == n.(batch := [sqe], fetched := n.fetched + [sqe]);
    assert steps[0] == steps[..3][0] && steps[1] == steps[..3][1] && steps[2] == steps[..3][2];
    PRunOfFour(n, steps, n1, n2, n3, n');
  }

  lemma PRunOfFour(n: Net, s: seq<PStep>, n1: Net, n2: Net, n3: Net, n4: Net)
    requires n.Wf() && |s| == 4 && PEnabled(n, s[0]) && PDo(n, s[0]) == n1 && PEnabled(n1, s[1]) && PDo(n1, s[1]) == n2
    requires PEnabled(n2, s[2]) && PDo(n2, s[2]) == n3 && PEnabled(n3, s[3]) && PDo(n3, s[3]) == n4
    ensures PRun(n, s, n4)
  {
    assert PRun(n4, s[1..][1..][1..][1..], n4);
    assert PRun(n3, s[1..][1..][1..], n4);
    assert PRun(n2, s[1..][1..], n4);
    assert PRun(n1, s[1..], n4);
  }
}
