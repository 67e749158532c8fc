/**
 What the network driver loses for good: each request outside the window costs
 its queue two descriptors, and the sixty-fourth closes the queue.
 */
module NetLosses {
  import opened Base
  import opened PendingTable
  import opened VirtQueues
  import opened Nets
  import opened Windows
  import Rings

  // ---- Rejections are never made up for ----

  lemma StepRejects(n: Net, step: Step, side: Side)
    requires n.Wf() && Enabled(n, step)
    ensures PortOf(Do(n, step), side).rejected >= PortOf(n, side).rejected
  {
  }

  lemma {:induction false} RunRejects(n: Net, steps: seq<Step>, n': Net, side: Side)
    requires n.Wf() && Run(n, steps, n')
    ensures PortOf(n', side).rejected >= PortOf(n, side).rejected
    decreases |steps|
  {
    if steps != [] {
      StepRejects(n, steps[0], side);
      RunRejects(Do(n, steps[0]), steps[1..], n', side);
    }
  }

  /** All descriptors of the queue are lost. */
  ghost predicate Closed(n: Net, side: Side)
    requires n.Wf()
  {
    PortOf(n, side).rejected == 64 && Count(PortOf(n, side).pending) == 0 && PortOf(n, side).q.numFree == 0
  }

  lemma AtMost64(p: Port, l: Ledger)
    requires Sound(p, l)
    ensures p.rejected <= 64 && (p.rejected == 64 ==> Count(p.pending) == 0 && p.q.numFree == 0)
  {
    TwoPerChain(p, l);
  }

  /** Every request for the queue is refused and changes nothing. */
  ghost predicate Refuses(n: Net, side: Side)
    requires n.Wf()
  {
    forall sqe: Sqe :: SideOf(sqe.opcode) == Some(side) ==> SubmitRequest(n, sqe) == (Failed(OutOfMemory), n)
  }

  lemma ClosedRefuses(n: Net, side: Side)
    requires n.Wf() && Closed(n, side)
    ensures Refuses(n, side)
  {
  }

  /** Once 64 requests of a queue have been rejected, nothing that client, driver or device do opens it again. */
  lemma ClosedForGood(n: Net, steps: seq<Step>, n': Net, side: Side, rx: Ledger, tx: Ledger)
    requires Inv(n, rx, tx) && PortOf(n, side).rejected >= 64 && Run(n, steps, n')
    ensures n'.Wf() && Closed(n', side) && Refuses(n', side)
  {
    RunRejects(n, steps, n', side);
    var rx', tx' := RunKeeps(n, steps, n', rx, tx);
    AtMost64(PortOf(n', side), if side == Rx then rx' else tx');
    ClosedRefuses(n', side);
  }

  // ---- A run that gets there ----

  /** The steps that bring in, take and submit one request. */
  function One(sqe: Sqe): seq<Step> {
    [Arrive(sqe), TakeRequest, SubmitTaken]
  }

  function Each(sqes: seq<Sqe>): seq<Step> {
    if sqes == [] then [] else One(sqes[0]) + Each(sqes[1..])
  }

  /** Nothing waits in front of the driver. */
  predicate Quiet(n: Net) {
    n.sq == [] && n.batch == [] && !n.crashed
  }

  function AfterOne(n: Net, sqe: Sqe): (n': Net)
    requires n.Wf()
    ensures n'.Wf()
  {
    SubmitNext(n.(batch := [sqe], fetched := n.fetched + [sqe]))
  }

  lemma OneIsRun(n: Net, sqe: Sqe)
    requires n.Wf() && Quiet(n)
    ensures Run(n, One(sqe), AfterOne(n, sqe))
  {
    var n1 := n.(sq := n.sq + [sqe]);
    var n2 := FetchOne(n1);
    assert n1.sq == [sqe] && n1.sq[1..] == [];
    assert n2 == n.(batch := [sqe], fetched := n.fetched + [sqe]);
    LastStep(n2, SubmitTaken, AfterOne(n, sqe));
    RunCons(n1, TakeRequest, [SubmitTaken], AfterOne(n, sqe));
    RunCons(n, Arrive(sqe), [TakeRequest] + [SubmitTaken], AfterOne(n, sqe));
    assert One(sqe) == [Arrive(sqe)] + ([TakeRequest] + [SubmitTaken]);
  }

  lemma LastStep(n: Net, step: Step, n': Net)
    requires n.Wf() && Enabled(n, step) && Do(n, step) == n'
    ensures Run(n, [step], n')
  {
    RunCons(n, step, [], n');
    assert [step] + [] == [step];
  }

  /** The request is for this queue, and its buffer outside the window. */
  predicate Outside(n: Net, side: Side, sqe: Sqe) {
    SideOf(sqe.opcode) == Some(side) && BufferAddr(n.shm, sqe.addr, sqe.len).None?
  }

  predicate AllOutside(n: Net, side: Side, sqes: seq<Sqe>) {
    forall i :: 0 <= i < |sqes| ==> Outside(n, side, sqes[i])
  }

  function LedgerOf(side: Side, rx: Ledger, tx: Ledger): Ledger {
    if side == Rx then rx else tx
  }

  lemma AfterOneFacts(n: Net, side: Side, sqe: Sqe, rx: Ledger, tx: Ledger)
    requires Inv(n, rx, tx) && Quiet(n) && Outside(n, side, sqe)
    requires Count(PortOf(n, side).pending) + PortOf(n, side).rejected < 64
    ensures var n', p := AfterOne(n, sqe), PortOf(n, side);
            && Quiet(n') && n'.shm == n.shm && n'.cq == n.cq + [Cqe(sqe.ud, -1)]
            && PortOf(n', side).rejected == p.rejected + 1 && PortOf(n', side).pending == p.pending
  {
    assert [sqe][1..] == [];
    SubmitOutcome(PortOf(n, side), LedgerOf(side, rx, tx), side, n.dma, n.shm, sqe);
  }

  lemma RejectOne(n: Net, side: Side, sqe: Sqe, rx: Ledger, tx: Ledger) returns (n': Net, rx': Ledger, tx': Ledger)
    requires Inv(n, rx, tx) && Quiet(n) && Outside(n, side, sqe)
    requires Count(PortOf(n, side).pending) + PortOf(n, side).rejected < 64
    ensures Run(n, One(sqe), n') && Inv(n', rx', tx') && Quiet(n') && n'.shm == n.shm
    ensures PortOf(n', side).rejected == PortOf(n, side).rejected + 1
    ensures PortOf(n', side).pending == PortOf(n, side).pending
  {
    n' := AfterOne(n, sqe);
    OneIsRun(n, sqe);
    AfterOneFacts(n, side, sqe, rx, tx);
    rx', tx' := RunKeeps(n, One(sqe), n', rx, tx);
  }

  lemma EachCons(n: Net, n1: Net, n': Net, sqes: seq<Sqe>)
    requires n.Wf() && sqes != [] && Run(n, One(sqes[0]), n1) && n1.Wf() && Run(n1, Each(sqes[1..]), n')
    ensures Run(n, Each(sqes), n')
  {
    RunsCompose(n, One(sqes[0]), n1, Each(sqes[1..]), n');
  }

  lemma {:induction false} RejectAll(n: Net, side: Side, sqes: seq<Sqe>, rx: Ledger, tx: Ledger)
      returns (n': Net, rx': Ledger, tx': Ledger)
    requires Inv(n, rx, tx) && Quiet(n) && AllOutside(n, side, sqes)
    requires Count(PortOf(n, side).pending) + PortOf(n, side).rejected + |sqes| <= 64
    ensures Run(n, Each(sqes), n') && Inv(n', rx', tx') && Quiet(n')
    ensures PortOf(n', side).rejected == PortOf(n, side).rejected + |sqes|
    decreases |sqes|
  {
    n', rx', tx' := n, rx, tx;
    if sqes != [] {
      var n1;
      n1, rx', tx' := RejectOne(n, side, sqes[0], rx, tx);
      n', rx', tx' := RejectAll(n1, side, sqes[1..], rx', tx');
      EachCons(n, n1, n', sqes);
    }
  }

  /**
   It happens: from the initial state, 64 requests outside the window close
   their queue, with nothing in flight, and it refuses every later request,
   whatever happens in between.
   */
  lemma SixtyFourRejectionsCloseQueue(n: Net, side: Side, sqes: seq<Sqe>) returns (n': Net)
    requires Initial(n) && Quiet(n) && |sqes| == 64 && AllOutside(n, side, sqes)
    ensures Run(n, Each(sqes), n') && n'.Wf() && Closed(n', side)
    ensures forall steps, later :: Run(n', steps, later) ==> later.Wf() && Closed(later, side) && Refuses(later, side)
  {
    var l := FreshLedger(QUEUE_SIZE);
    var rx, tx: Ledger;
    InitialPortSound(n.rx);
    InitialPortSound(n.tx);
    EmptyTable(PortOf(n, side).pending);
    n', rx, tx := RejectAll(n, side, sqes, l, l);
    AtMost64(PortOf(n', side), LedgerOf(side, rx, tx));
    forall steps, later | Run(n', steps, later) ensures later.Wf() && Closed(later, side) && Refuses(later, side) {
      ClosedForGood(n', steps, later, side, rx, tx);
    }
  }
}
