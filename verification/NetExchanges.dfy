/**
 The network driver with a device that publishes each head it was given once:
 the rings never overflow, and every used element completes a request.
 */
module NetExchanges {
  import opened Base
  import opened PendingTable
  import opened VirtQueues
  import opened Nets
  import opened BD = BlockDisk
  import Rings

  // ---- One queue and its device ----

  /** The device's place in the avail ring, and the heads it took and has not published yet. */
  datatype Holder = Holder(idx: u16, held: set<int>)

  /** The heads announced and not yet taken. */
  function Waiting(q: VQ, idx: u16): seq<int>
    requires q.Wf()
  {
    Rings.Contents(q.avail, idx, q.availIdx)
  }

  /** Every head is in one place: the avail ring, the device's hands, or the used ring. */
  ghost predicate Placed(q: VQ, d: Holder, stages: map<int, Stage>)
    requires q.Wf()
  {
    && Lists(Waiting(q, d.idx), stages, InAvail)
    && Holds(d.held, stages, Taken)
    && Lists(BD.Published(q), stages, InUsed)
  }

  /** The heads that have a place are those of the requests in flight. */
  ghost predicate InFlight(pending: seq<Option<Pending>>, stages: map<int, Stage>) {
    && |stages| == Count(pending)
    && forall h :: h in stages <==> 0 <= h < |pending| && pending[h].Some?
  }

  ghost predicate Once(p: Port, d: Holder, stages: map<int, Stage>) {
    p.Wf() && Placed(p.q, d, stages) && InFlight(p.pending, stages)
  }

  /** Neither ring holds more heads than requests are in flight. */
  lemma RingsFit(p: Port, d: Holder, stages: map<int, Stage>)
    requires Once(p, d, stages)
    ensures |Waiting(p.q, d.idx)| <= Count(p.pending) && |BD.Published(p.q)| <= Count(p.pending)
  {
    ListsFits(Waiting(p.q, d.idx), stages, InAvail);
    ListsFits(BD.Published(p.q), stages, InUsed);
  }

  /** There are at most 64 of them, in rings of 128. */
  lemma RoomInRings(p: Port, l: Ledger, d: Holder, stages: map<int, Stage>)
    requires Sound(p, l) && Once(p, d, stages)
    ensures |Waiting(p.q, d.idx)| <= 64 && |BD.Published(p.q)| <= 64
  {
    RingsFit(p, d, stages);
    TwoPerChain(p, l);
  }

  lemma TakeKeeps(p: Port, d: Holder, stages: map<int, Stage>) returns (stages': map<int, Stage>)
    requires Once(p, d, stages) && d.idx != p.q.availIdx
    ensures Once(p, Holder(Rings.Succ(d.idx), d.held + {p.q.avail[d.idx % |p.q.avail|]}), stages')
  {
    var q, next := p.q, Rings.Succ(d.idx);
    var h: int := q.avail[d.idx % |q.avail|];
    Rings.TakeDropsFirst(q.avail, d.idx, q.availIdx);
    assert Waiting(q, d.idx) == [h] + Waiting(q, next);
    assert h == Waiting(q, d.idx)[0];
    stages' := stages[h := Taken];
    assert stages'.Keys == stages.Keys;
    ListsShrinks(Waiting(q, d.idx), Waiting(q, next), stages, stages', InAvail, h);
    ListsKept(BD.Published(q), stages, stages', InUsed, h);
  }

  function WithUsed(q: VQ, e: UsedElem): VQ
    requires |q.used| > 0
  {
    q.(used := q.used[q.usedIdx % |q.used| := e], usedIdx := Rings.Succ(q.usedIdx))
  }

  lemma PublishKeeps(p: Port, l: Ledger, d: Holder, stages: map<int, Stage>, h: u32, len: u32)
      returns (stages': map<int, Stage>)
    requires Sound(p, l) && Once(p, d, stages) && h as int in d.held
    ensures Once(p.(q := WithUsed(p.q, UsedElem(h, len))), Holder(d.idx, d.held - {h as int}), stages')
  {
    var q, e := p.q, UsedElem(h, len);
    RoomInRings(p, l, d, stages);
    Rings.PutExtends(q.used, q.lastUsed, q.usedIdx, e);
    IdsOfSum(Rings.Contents(q.used, q.lastUsed, q.usedIdx), [e]);
    assert BD.Published(WithUsed(q, e)) == BD.Published(q) + [h];
    stages' := stages[h as int := InUsed];
    assert stages'.Keys == stages.Keys;
    ListsGrows(BD.Published(q), stages, InUsed, h);
    ListsKept(Waiting(q, d.idx), stages, stages', InAvail, h);
  }

  lemma SameRings(p: Port, p': Port, d: Holder, stages: map<int, Stage>)
    requires Once(p, d, stages) && p'.Wf() && p'.pending == p.pending
    requires p'.q.avail == p.q.avail && p'.q.availIdx == p.q.availIdx
    requires p'.q.used == p.q.used && p'.q.usedIdx == p.q.usedIdx && p'.q.lastUsed == p.q.lastUsed
    ensures Once(p', d, stages)
  {
  }

  /** A new head goes to the end of the avail ring. */
  lemma AnnounceKeeps(p: Port, p': Port, d: Holder, stages: map<int, Stage>, h: u16, ud: u64)
    requires Once(p, d, stages) && h < QUEUE_SIZE && p.pending[h].None? && Count(p.pending) < 64
    requires p'.Wf() && p'.pending == p.pending[h := Some(Pending(ud, h))]
    requires p'.q.avail == VirtQueues.Submit(p.q, h).avail && p'.q.availIdx == Rings.Succ(p.q.availIdx)
    requires p'.q.used == p.q.used && p'.q.usedIdx == p.q.usedIdx && p'.q.lastUsed == p.q.lastUsed
    ensures Once(p', d, stages[h as int := InAvail])
  {
    RingsFit(p, d, stages);
    AvailGrows(p.q, d.idx, h);
    SetSlotCount(p.pending, h, Some(Pending(ud, h)));
    ListsGrows(Waiting(p.q, d.idx), stages, InAvail, h);
    ListsKept(BD.Published(p.q), stages, stages[h as int := InAvail], InUsed, h);
  }

  lemma SubmitKeeps(p: Port, l: Ledger, d: Holder, stages: map<int, Stage>, side: Side, dma: u64, shm: Option<Shm>,
                    sqe: Sqe)
      returns (stages': map<int, Stage>)
    requires Sound(p, l) && Once(p, d, stages) && dma + 4 * PAGE <= TWO64
    ensures Once(SubmitTo(p, side, dma, shm, sqe).1, d, stages')
  {
    var (r, p') := SubmitTo(p, side, dma, shm, sqe);
    SubmitOutcome(p, l, side, dma, shm, sqe);
    UsedRingStays(p, side, dma, shm, sqe);
    if r == Submitted {
      AnnounceKeeps(p, p', d, stages, p.q.freeHead, sqe.ud);
      stages' := stages[p.q.freeHead as int := InAvail];
    } else {
      SameRings(p, p', d, stages);
      stages' := stages;
    }
  }

  lemma UsedRingStays(p: Port, side: Side, dma: u64, shm: Option<Shm>, sqe: Sqe)
    requires p.Wf() && dma + 4 * PAGE <= TWO64
    ensures var q, q' := p.q, SubmitTo(p, side, dma, shm, sqe).1.q;
            q'.used == q.used && q'.usedIdx == q.usedIdx && q'.lastUsed == q.lastUsed
  {
  }

  /** The used element at the front names a request in flight. */
  lemma PopFinds(p: Port, d: Holder, stages: map<int, Stage>) returns (h: int)
    requires Once(p, d, stages) && CanPop(p.q)
    ensures Pop(p.q).0.value.id == h && 0 <= h < QUEUE_SIZE && p.pending[h].Some?
    ensures h in stages && stages[h] == InUsed
    ensures BD.Published(p.q) == [h] + BD.Published(Pop(p.q).1)
  {
    var q := p.q;
    var elem := Pop(q).0.value;
    h := elem.id;
    Rings.TakeDropsFirst(q.used, q.lastUsed, q.usedIdx);
    IdsOfSum([elem], Rings.Contents(q.used, Rings.Succ(q.lastUsed), q.usedIdx));
    assert IdsOf([elem]) == [h];
    assert BD.Published(q)[0] == h;
  }

  /** So it completes that request, with the request's own tag. */
  lemma PopCompletes(p: Port, d: Holder, stages: map<int, Stage>, side: Side)
    requires Once(p, d, stages)
    ensures PopEntry(p, side).0.Empty? <==> !CanPop(p.q)
    ensures CanPop(p.q) ==>
              var elem, (r, p') := Pop(p.q).0.value, PopEntry(p, side);
              && elem.id < QUEUE_SIZE && p.pending[elem.id].Some?
              && r == Done(Cqe(p.pending[elem.id].value.ud, ResultOf(side, elem.len)))
              && p'.pending == p.pending[elem.id := None]
  {
    if CanPop(p.q) {
      var h := PopFinds(p, d, stages);
    }
  }

  lemma PopRings(p: Port, side: Side)
    requires p.Wf()
    ensures var q, q' := p.q, PopEntry(p, side).1.q;
            && q'.avail == q.avail && q'.availIdx == q.availIdx && q'.used == q.used && q'.usedIdx == q.usedIdx
            && q'.lastUsed == Pop(q).1.lastUsed
  {
  }

  lemma PopPlaces(q: VQ, q': VQ, d: Holder, stages: map<int, Stage>, h: int)
    requires q.Wf() && q'.Wf() && Placed(q, d, stages) && h in stages && stages[h] == InUsed
    requires BD.Published(q) == [h] + BD.Published(q') && Waiting(q', d.idx) == Waiting(q, d.idx)
    ensures Placed(q', d, stages - {h})
  {
    ListsShrinks(BD.Published(q), BD.Published(q'), stages, stages - {h}, InUsed, h);
    ListsKept(Waiting(q, d.idx), stages, stages - {h}, InAvail, h);
  }

  lemma SlotEmpties(pending: seq<Option<Pending>>, stages: map<int, Stage>, h: nat)
    requires InFlight(pending, stages) && h < |pending| && pending[h].Some?
    ensures InFlight(pending[h := None], stages - {h as int})
  {
    SetSlotCount(pending, h, None);
    MapShrinks(stages, h);
  }

  lemma PopKeeps(p: Port, d: Holder, stages: map<int, Stage>, side: Side) returns (stages': map<int, Stage>)
    requires Once(p, d, stages)
    ensures Once(PopEntry(p, side).1, d, stages')
  {
    stages' := stages;
    if CanPop(p.q) {
      var h := PopFinds(p, d, stages);
      stages' := stages - {h};
      PopCompletes(p, d, stages, side);
      PopRings(p, side);
      PopPlaces(p.q, PopEntry(p, side).1.q, d, stages, h);
      SlotEmpties(p.pending, stages, h);
    }
  }

  // ---- Both queues, and runs ----

  datatype Link = Link(net: Net, rx: Holder, tx: Holder)

  datatype LinkStep =
    | Own(step: Nets.Step)
    | Take(side: Side)
    | GiveBack(side: Side, head: u32, len: u32)

  function HolderOf(s: Link, side: Side): Holder {
    if side == Rx then s.rx else s.tx
  }

  function WithHolder(s: Link, side: Side, d: Holder): Link {
    if side == Rx then s.(rx := d) else s.(tx := d)
  }

  predicate LinkEnabled(s: Link, step: LinkStep)
    requires s.net.Wf()
  {
    match step
    case Own(d) => !d.DeviceWrites? && Nets.Enabled(s.net, d)
    case Take(side) => HolderOf(s, side).idx != PortOf(s.net, side).q.availIdx
    case GiveBack(side, h, _) => h as int in HolderOf(s, side).held
  }

  function LinkDo(s: Link, step: LinkStep): (s': Link)
    requires s.net.Wf() && LinkEnabled(s, step)
    ensures s'.net.Wf()
  {
    match step
    case Own(d) => s.(net := Nets.Do(s.net, d))
    case Take(side) =>
      var q, d := PortOf(s.net, side).q, HolderOf(s, side);
      WithHolder(s, side, Holder(Rings.Succ(d.idx), d.held + {q.avail[d.idx % |q.avail|]}))
    case GiveBack(side, h, len) =>
      var p, d := PortOf(s.net, side), HolderOf(s, side);
      WithHolder(s.(net := WithPort(s.net, side, p.(q := WithUsed(p.q, UsedElem(h, len))))), side,
                 Holder(d.idx, d.held - {h as int}))
  }

  ghost predicate LinkRun(s: Link, steps: seq<LinkStep>, s': Link)
    requires s.net.Wf()
    decreases |steps|
  {
    if steps == [] then s' == s
    else LinkEnabled(s, steps[0]) && LinkRun(LinkDo(s, steps[0]), steps[1..], s')
  }

  ghost predicate LinkInitial(s: Link) {
    && Nets.Initial(s.net) && !s.net.crashed
    && s.rx == Holder(s.net.rx.q.availIdx, {}) && s.net.rx.q.usedIdx == s.net.rx.q.lastUsed
    && s.tx == Holder(s.net.tx.q.availIdx, {}) && s.net.tx.q.usedIdx == s.net.tx.q.lastUsed
  }

  /** The accounts of both queues, and the places of their heads. */
  datatype Books = Books(rx: Ledger, tx: Ledger, rxStages: map<int, Stage>, txStages: map<int, Stage>)

  ghost predicate LinkInv(s: Link, k: Books) {
    && Nets.Inv(s.net, k.rx, k.tx) && !s.net.crashed
    && Once(s.net.rx, s.rx, k.rxStages) && Once(s.net.tx, s.tx, k.txStages)
  }

  lemma SubmitTakenKeeps(s: Link, k: Books) returns (k': Books)
    requires LinkInv(s, k) && s.net.batch != []
    ensures LinkInv(s.(net := SubmitNext(s.net)), k')
  {
    var n, sqe := s.net, s.net.batch[0];
    var rx, tx := SubmitNextKeeps(n, k.rx, k.tx);
    k' := Books(rx, tx, k.rxStages, k.txStages);
    SubmittingGoesOn(n);
    match SideOf(sqe.opcode) {
      case None =>
      case Some(Rx) =>
        var stages := SubmitKeeps(n.rx, k.rx, s.rx, k.rxStages, Rx, n.dma, n.shm, sqe);
        k' := k'.(rxStages := stages);
      case Some(Tx) =>
        var stages := SubmitKeeps(n.tx, k.tx, s.tx, k.txStages, Tx, n.dma, n.shm, sqe);
        k' := k'.(txStages := stages);
    }
  }

  lemma PopUsedKeeps(s: Link, side: Side, k: Books) returns (k': Books)
    requires LinkInv(s, k)
    ensures LinkInv(s.(net := PopOne(s.net, side)), k')
  {
    var rx, tx := PopOneKeeps(s.net, side, k.rx, k.tx);
    k' := Books(rx, tx, k.rxStages, k.txStages);
    if side == Rx {
      PopCompletes(s.net.rx, s.rx, k.rxStages, Rx);
      var stages := PopKeeps(s.net.rx, s.rx, k.rxStages, Rx);
      k' := k'.(rxStages := stages);
    } else {
      PopCompletes(s.net.tx, s.tx, k.txStages, Tx);
      var stages := PopKeeps(s.net.tx, s.tx, k.txStages, Tx);
      k' := k'.(txStages := stages);
    }
  }

  lemma DriverKeeps(s: Link, d: Nets.Step, k: Books) returns (k': Books)
    requires LinkInv(s, k) && LinkEnabled(s, Own(d))
    ensures LinkInv(LinkDo(s, Own(d)), k')
  {
    if d.SubmitTaken? {
      k' := SubmitTakenKeeps(s, k);
    } else if d.PopUsed? {
      k' := PopUsedKeeps(s, d.side, k);
    } else {
      Nets.QueueKeeps(s.net, d, k.rx, k.tx);
      k' := k;
    }
  }

  lemma TakeStepKeeps(s: Link, side: Side, k: Books) returns (k': Books)
    requires LinkInv(s, k) && LinkEnabled(s, Take(side))
    ensures LinkInv(LinkDo(s, Take(side)), k')
  {
    if side == Rx {
      var stages := TakeKeeps(s.net.rx, s.rx, k.rxStages);
      k' := k.(rxStages := stages);
    } else {
      var stages := TakeKeeps(s.net.tx, s.tx, k.txStages);
      k' := k.(txStages := stages);
    }
  }

  lemma PublishStepKeeps(s: Link, side: Side, h: u32, len: u32, k: Books) returns (k': Books)
    requires LinkInv(s, k) && LinkEnabled(s, GiveBack(side, h, len))
    ensures LinkInv(LinkDo(s, GiveBack(side, h, len)), k')
  {
    var q' := WithUsed(PortOf(s.net, side).q, UsedElem(h, len));
    Nets.DeviceKeeps(s.net, DeviceWrites(side, q'.used, q'.usedIdx), k.rx, k.tx);
    if side == Rx {
      var stages := PublishKeeps(s.net.rx, k.rx, s.rx, k.rxStages, h, len);
      k' := k.(rxStages := stages);
    } else {
      var stages := PublishKeeps(s.net.tx, k.tx, s.tx, k.txStages, h, len);
      k' := k.(txStages := stages);
    }
  }

  lemma {:induction false} LinkRunKeeps(s: Link, steps: seq<LinkStep>, s': Link, k: Books) returns (k': Books)
    requires LinkInv(s, k) && LinkRun(s, steps, s')
    ensures LinkInv(s', k')
    decreases |steps|
  {
    k' := k;
    if steps != [] {
      match steps[0] {
        case Own(d) => k' := DriverKeeps(s, d, k);
        case Take(side) => k' := TakeStepKeeps(s, side, k);
        case GiveBack(side, h, len) => k' := PublishStepKeeps(s, side, h, len, k);
      }
      k' := LinkRunKeeps(LinkDo(s, steps[0]), steps[1..], s', k');
    }
  }

  lemma InitialIsOnce(p: Port)
    requires InitialPort(p) && p.q.usedIdx == p.q.lastUsed
    ensures Once(p, Holder(p.q.availIdx, {}), map[])
  {
    EmptyTable(p.pending);
    assert Waiting(p.q, p.q.availIdx) == [] && BD.Published(p.q) == [];
  }

  /**
   With a device that publishes each head once, in every reachable state and on
   both queues: at most 64 heads wait in either ring, so no entry overwrites
   another, and the next used element completes the request it names.
   */
  lemma EveryUseCompletes(s: Link, steps: seq<LinkStep>, s': Link, side: Side) returns (k: Books)
    requires LinkInitial(s) && LinkRun(s, steps, s')
    ensures LinkInv(s', k)
    ensures var p, d := PortOf(s'.net, side), HolderOf(s', side);
            && |Waiting(p.q, d.idx)| <= 64 && |BD.Published(p.q)| <= 64
            && (CanPop(p.q) ==>
                  var elem := Pop(p.q).0.value;
                  && elem.id < QUEUE_SIZE && p.pending[elem.id].Some?
                  && PopEntry(p, side).0 == Done(Cqe(p.pending[elem.id].value.ud, ResultOf(side, elem.len))))
  {
    InitialPortSound(s.net.rx);
    InitialPortSound(s.net.tx);
    InitialIsOnce(s.net.rx);
    InitialIsOnce(s.net.tx);
    var l := FreshLedger(QUEUE_SIZE);
    k := LinkRunKeeps(s, steps, s', Books(l, l, map[], map[]));
    var p, d := PortOf(s'.net, side), HolderOf(s', side);
    RoomInRings(p, if side == Rx then k.rx else k.tx, d, if side == Rx then k.rxStages else k.txStages);
    PopCompletes(p, d, if side == Rx then k.rxStages else k.txStages, side);
  }
}
