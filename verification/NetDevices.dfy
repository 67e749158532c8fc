/**
 The network driver and what its device publishes: exactly which used ids end
 the driver, and that a device which keeps to the heads it was given never does.
 */
module NetDevices {
  import opened Base
  import opened PendingTable
  import opened VirtQueues
  import opened Nets
  import Rings

  // ---- What ends the driver ----

  /** The step takes a used element whose id is no index of the pending table. */
  predicate PopsWildId(n: Net, step: Step)
    requires n.Wf()
  {
    step.PopUsed? && var q := PortOf(n, step.side).q; CanPop(q) && Pop(q).0.value.id >= QUEUE_SIZE
  }

  ghost predicate SomePopsWildId(n: Net, steps: seq<Step>)
    requires n.Wf()
    decreases |steps|
  {
    steps != [] && Enabled(n, steps[0])
    && (PopsWildId(n, steps[0]) || SomePopsWildId(Do(n, steps[0]), steps[1..]))
  }

  lemma StepCrashes(n: Net, step: Step)
    requires n.Wf() && Enabled(n, step)
    ensures Do(n, step).crashed <==> PopsWildId(n, step)
  {
    if step.SubmitTaken? {
      var sqe := n.batch[0];
      assert !SubmitRequest(n.(batch := n.batch[1..]), sqe).1.crashed;
    }
  }

  /** Over every run, the driver has ended if and only if it took a used element with an id of 128 or more. */
  lemma {:induction false} CrashMeansWildId(n: Net, steps: seq<Step>, n': Net)
    requires n.Wf() && !n.crashed && Run(n, steps, n')
    ensures n'.Wf()
    ensures n'.crashed <==> SomePopsWildId(n, steps)
    decreases |steps|
  {
    if steps != [] {
      StepCrashes(n, steps[0]);
      var next := Do(n, steps[0]);
      if next.crashed {
        CrashedStops(next, steps[1..], n');
      } else {
        CrashMeansWildId(next, steps[1..], n');
      }
    }
  }

  lemma CrashedStops(n: Net, steps: seq<Step>, n': Net)
    requires n.Wf() && n.crashed && Run(n, steps, n')
    ensures steps == [] && n' == n
  {
  }

  function WildElem(used: seq<UsedElem>, lastUsed: u16, id: u32): (used': seq<UsedElem>)
    requires |used| > 0
    ensures |used'| == |used|
  {
    used[lastUsed % |used| := UsedElem(id, 0)]
  }

  /** It happens, from every state: the device publishes one id, and the driver ends exactly if that is 128 or more. */
  lemma WildIdEndsDriver(n: Net, side: Side, id: u32) returns (steps: seq<Step>, n': Net)
    requires n.Wf() && !n.crashed
    ensures |steps| == 2 && steps[0].DeviceWrites? && steps[1] == PopUsed(side) && Run(n, steps, n')
    ensures n'.crashed <==> id >= QUEUE_SIZE
  {
    var q := PortOf(n, side).q;
    var write := DeviceWrites(side, WildElem(q.used, q.lastUsed, id), Rings.Succ(q.lastUsed));
    var n1 := Do(n, write);
    n' := Do(n1, PopUsed(side));
    StepCrashes(n1, PopUsed(side));
    steps := [write, PopUsed(side)];
    assert steps[1..] == [PopUsed(side)] && steps[1..][1..] == [];
    assert Run(n', steps[1..][1..], n');
    assert Run(n1, steps[1..], n');
  }

  // ---- A device that keeps to its heads ----

  /** The device's place in one avail ring, and every head it has taken from there. */
  datatype Reader = Reader(idx: u16, heads: set<int>)
  datatype Sys = Sys(net: Net, rx: Reader, tx: Reader)

  /** The device takes one head, or publishes any head it has ever taken, in any order and as often as it likes. */
  datatype SysStep =
    | Driver(step: Step)
    | Consume(side: Side)
    | Publish(side: Side, head: int, len: u32)

  function ReaderOf(s: Sys, side: Side): Reader {
    if side == Rx then s.rx else s.tx
  }

  function WithReader(s: Sys, side: Side, r: Reader): Sys {
    if side == Rx then s.(rx := r) else s.(tx := r)
  }

  predicate SysEnabled(s: Sys, step: SysStep)
    requires s.net.Wf()
  {
    match step
    case Driver(d) => !d.DeviceWrites? && Enabled(s.net, d)
    case Consume(side) => ReaderOf(s, side).idx != PortOf(s.net, side).q.availIdx
    case Publish(side, h, _) => h in ReaderOf(s, side).heads && 0 <= h < TWO32
  }

  function Published(q: VQ, e: UsedElem): VQ
    requires |q.used| > 0
  {
    q.(used := q.used[q.usedIdx % |q.used| := e], usedIdx := Rings.Succ(q.usedIdx))
  }

  function SysDo(s: Sys, step: SysStep): (s': Sys)
    requires s.net.Wf() && SysEnabled(s, step)
    ensures s'.net.Wf()
  {
    match step
    case Driver(d) => s.(net := Do(s.net, d))
    case Consume(side) =>
      var q, r := PortOf(s.net, side).q, ReaderOf(s, side);
      WithReader(s, side, Reader(Rings.Succ(r.idx), r.heads + {q.avail[r.idx % |q.avail|]}))
    case Publish(side, h, len) =>
      var p := PortOf(s.net, side);
      s.(net := WithPort(s.net, side, p.(q := Published(p.q, UsedElem(h, len)))))
  }

  ghost predicate SysRun(s: Sys, steps: seq<SysStep>, s': Sys)
    requires s.net.Wf()
    decreases |steps|
  {
    if steps == [] then s' == s
    else SysEnabled(s, steps[0]) && SysRun(SysDo(s, steps[0]), steps[1..], s')
  }

  /** Everything between the two indices of a ring is an index of the table. */
  ghost predicate InTable(ids: seq<int>, tail: u16, head: u16)
    requires |ids| > 0
  {
    forall i :: 0 <= i < Rings.Outstanding(tail, head) ==> 0 <= ids[Rings.Slot(|ids|, tail, i)] < QUEUE_SIZE
  }

  function Ids(used: seq<UsedElem>): (ids: seq<int>)
    ensures |ids| == |used| && forall i :: 0 <= i < |ids| ==> ids[i] == used[i].id
  {
    seq(|used|, i requires 0 <= i < |used| => used[i].id)
  }

  ghost predicate Tame(p: Port, r: Reader) {
    && p.Wf()
    && InTable(p.q.avail, r.idx, p.q.availIdx)
    && InTable(Ids(p.q.used), p.q.lastUsed, p.q.usedIdx)
    && forall h :: h in r.heads ==> 0 <= h < QUEUE_SIZE
  }

  ghost predicate SysInv(s: Sys) {
    s.net.Wf() && !s.net.crashed && Tame(s.net.rx, s.rx) && Tame(s.net.tx, s.tx)
  }

  /** One more entry, whether or not there is room for it. */
  lemma PutStaysInTable(ids: seq<int>, tail: u16, head: u16, id: int)
    requires |ids| > 0 && InTable(ids, tail, head) && 0 <= id < QUEUE_SIZE
    ensures InTable(ids[head % |ids| := id], tail, Rings.Succ(head))
  {
    Rings.AheadIsSlot(tail, head);
    var n, k, ids' := |ids|, Rings.Outstanding(tail, head), ids[head % |ids| := id];
    forall i | 0 <= i < Rings.Outstanding(tail, Rings.Succ(head))
      ensures 0 <= ids'[Rings.Slot(n, tail, i)] < QUEUE_SIZE
    {
      if i < k {
        assert 0 <= ids[Rings.Slot(n, tail, i)] < QUEUE_SIZE;
      } else {
        assert i == k && Rings.Slot(n, tail, k) == head % n;
      }
    }
  }

  lemma FirstIsInTable(ids: seq<int>, tail: u16, head: u16)
    requires |ids| > 0 && InTable(ids, tail, head) && tail != head
    ensures 0 <= ids[tail % |ids|] < QUEUE_SIZE && InTable(ids, Rings.Succ(tail), head)
  {
    Rings.AheadIsSlot(tail, head);
    assert Rings.Slot(|ids|, tail, 0) == tail % |ids|;
    forall i | 0 <= i < Rings.Outstanding(Rings.Succ(tail), head)
      ensures 0 <= ids[Rings.Slot(|ids|, Rings.Succ(tail), i)] < QUEUE_SIZE
    {
      Rings.SuccThen(|ids|, tail, i);
    }
  }

  lemma PublishIsTame(p: Port, r: Reader, h: int, len: u32)
    requires Tame(p, r) && h in r.heads
    ensures Tame(p.(q := Published(p.q, UsedElem(h, len))), r)
  {
    PutStaysInTable(Ids(p.q.used), p.q.lastUsed, p.q.usedIdx, h);
    assert Ids(Published(p.q, UsedElem(h, len)).used) == Ids(p.q.used)[p.q.usedIdx % |p.q.used| := h];
  }

  lemma ConsumeIsTame(p: Port, r: Reader)
    requires Tame(p, r) && r.idx != p.q.availIdx
    ensures Tame(p, Reader(Rings.Succ(r.idx), r.heads + {p.q.avail[r.idx % |p.q.avail|]}))
  {
    FirstIsInTable(p.q.avail, r.idx, p.q.availIdx);
  }

  lemma SubmitIsTame(p: Port, r: Reader, side: Side, dma: u64, shm: Option<Shm>, sqe: Sqe)
    requires Tame(p, r) && dma + 4 * PAGE <= TWO64
    ensures Tame(SubmitTo(p, side, dma, shm, sqe).1, r)
  {
    var p' := SubmitTo(p, side, dma, shm, sqe).1;
    assert p'.q.used == p.q.used && p'.q.lastUsed == p.q.lastUsed && p'.q.usedIdx == p.q.usedIdx;
    if p'.q.availIdx != p.q.availIdx {
      PutStaysInTable(p.q.avail, r.idx, p.q.availIdx, p.q.freeHead);
    }
  }

  lemma PopIsTame(p: Port, r: Reader, side: Side)
    requires Tame(p, r)
    ensures !PopEntry(p, side).0.Crash? && Tame(PopEntry(p, side).1, r)
  {
    if CanPop(p.q) {
      assert Ids(p.q.used)[p.q.lastUsed % |p.q.used|] == p.q.used[p.q.lastUsed % |p.q.used|].id;
      FirstIsInTable(Ids(p.q.used), p.q.lastUsed, p.q.usedIdx);
    }
  }

  lemma DriverIsTame(s: Sys, d: Step)
    requires SysInv(s) && SysEnabled(s, Driver(d))
    ensures SysInv(SysDo(s, Driver(d)))
  {
    if d.SubmitTaken? {
      var sqe := s.net.batch[0];
      SubmitIsTame(s.net.rx, s.rx, Rx, s.net.dma, s.net.shm, sqe);
      SubmitIsTame(s.net.tx, s.tx, Tx, s.net.dma, s.net.shm, sqe);
    } else if d.PopUsed? {
      PopIsTame(PortOf(s.net, d.side), ReaderOf(s, d.side), d.side);
    }
  }

  lemma StepIsTame(s: Sys, step: SysStep)
    requires SysInv(s) && SysEnabled(s, step)
    ensures SysInv(SysDo(s, step))
  {
    match step {
      case Driver(d) => DriverIsTame(s, d);
      case Consume(side) => ConsumeIsTame(PortOf(s.net, side), ReaderOf(s, side));
      case Publish(side, h, len) => PublishIsTame(PortOf(s.net, side), ReaderOf(s, side), h, len);
    }
  }

  ghost predicate SysInitial(s: Sys) {
    && Initial(s.net) && !s.net.crashed
    && s.rx == Reader(s.net.rx.q.availIdx, {}) && s.net.rx.q.usedIdx == s.net.rx.q.lastUsed
    && s.tx == Reader(s.net.tx.q.availIdx, {}) && s.net.tx.q.usedIdx == s.net.tx.q.lastUsed
  }

  lemma {:induction false} SysRunIsTame(s: Sys, steps: seq<SysStep>, s': Sys)
    requires SysInv(s) && SysRun(s, steps, s')
    ensures SysInv(s')
    decreases |steps|
  {
    if steps != [] {
      StepIsTame(s, steps[0]);
      SysRunIsTame(SysDo(s, steps[0]), steps[1..], s');
    }
  }

  /**
   A device that publishes only heads it took from the avail rings, in any
   order and as often as it likes, never ends the driver.  With buffers filled
   as well: `FillingBuffersNeverCrashes` in NetPayloads.dfy.
   */
  lemma KeepingToHeadsNeverCrashes(s: Sys, steps: seq<SysStep>, s': Sys)
    requires SysInitial(s) && SysRun(s, steps, s')
    ensures !s'.net.crashed
  {
    SysRunIsTame(s, steps, s');
  }
}
