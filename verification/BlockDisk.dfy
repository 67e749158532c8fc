/**
 The virtio-blk driver together with a device that follows VirtIO 1.1: it
 takes heads from the avail ring in order, serves the chains it holds in any
 order, writes one status byte per chain, and publishes used elements in any
 order.  The two of them refine an asynchronous disk: a set of accepted
 requests, each performed once at some moment and then reported with its own
 status.
 */
module BlockDisk {
  import opened Base
  import opened VirtQueues
  import opened Blocks
  import opened Windows
  import opened PendingTable
  import B = BlockRuns
  import Rings

  /** What one chain asks of the device. */
  datatype DevReq = DevReq(ty: u32, sector: u64, data: u64, len: u32)

  /** How the device serves a request: any function of the request and of the disk with the buffers it fills. */
  type Server<!D(!new)> = (DevReq, D) -> (D, u8)

  /** Heads the device holds: taken from the avail ring, and served but not yet published. */
  datatype Sys<D> = Sys(b: Blk, devIdx: u16, taken: set<int>, served: set<int>, disk: D)

  datatype Step =
    | Driver(step: B.Step)
    | Consume
    | Serve(head: int)
    | Publish(head: int, len: u32)

  // ---- How the device reads a chain through memory ----

  /** The header cell at a device address. */
  function HeaderCell(b: Blk, addr: u64): (cell: Option<nat>)
    ensures cell.Some? ==> cell.value < SLOTS
  {
    var off := addr - b.dma;
    if 0 <= off < SLOTS * HEADER_BYTES && off % HEADER_BYTES == 0 then Some(off / HEADER_BYTES) else None
  }

  /** The status byte at a device address. */
  function StatusCell(b: Blk, addr: u64): (cell: Option<nat>)
    ensures cell.Some? ==> cell.value < SLOTS
  {
    var off := addr - b.dma - SLOTS * HEADER_BYTES;
    if 0 <= off < SLOTS then Some(off) else None
  }

  /**
   The request at `head` and the status byte to answer in, if the chain has
   the form of section 5.2.6 of VirtIO 1.1: a readable header of type 0 (read)
   or 1 (write), a data buffer the device may write exactly when it is to be
   filled, and one writable byte.
   */
  function ReadChain(b: Blk, head: int): (r: Option<(DevReq, nat)>)
    requires b.Wf()
    ensures r.Some? ==> r.value.1 < SLOTS
  {
    var ids := Walk(b.q.descs, head, QUEUE_SIZE);
    if |ids| != 3 then None else
    var hdr, data, st := b.q.descs[ids[0]], b.q.descs[ids[1]], b.q.descs[ids[2]];
    match (HeaderCell(b, hdr.addr), StatusCell(b, st.addr))
    case (Some(i), Some(j)) =>
      var h := b.headers[i];
      if && hdr.len == 16 && !hdr.DeviceWrites()
         && (h.ty == 0 || h.ty == 1) && (data.DeviceWrites() <==> h.ty == 0)
         && st.len == 1 && st.DeviceWrites()
      then Some((DevReq(h.ty, h.sector, data.addr, data.len), j))
      else None
    case _ => None
  }

  // ---- Steps ----

  ghost predicate Enabled<D>(s: Sys<D>, step: Step)
    requires s.b.Wf()
  {
    match step
    case Driver(d) => !d.DeviceWrites? && B.Enabled(s.b, d)
    case Consume => s.devIdx != s.b.q.availIdx
    case Serve(h) => h in s.taken && ReadChain(s.b, h).Some?
    case Publish(h, _) => h in s.served && 0 <= h < TWO16
  }

  function Do<D(!new)>(serve: Server<D>, s: Sys<D>, step: Step): (s': Sys<D>)
    requires s.b.Wf() && Enabled(s, step)
    ensures s'.b.Wf()
  {
    var q := s.b.q;
    match step
    case Driver(d) => s.(b := B.Do(s.b, d))
    case Consume => s.(devIdx := Rings.Succ(s.devIdx), taken := s.taken + {q.avail[s.devIdx % |q.avail|]})
    case Serve(h) =>
      var (req, cell) := ReadChain(s.b, h).value;
      var (disk', st) := serve(req, s.disk);
      s.(b := s.b.(status := s.b.status[cell := st]), disk := disk', taken := s.taken - {h}, served := s.served + {h})
    case Publish(h, len) =>
      s.(b := s.b.(q := q.(used := q.used[q.usedIdx % |q.used| := UsedElem(h, len)], usedIdx := Rings.Succ(q.usedIdx))),
         served := s.served - {h})
  }

  // ---- The asynchronous disk ----

  datatype AReq = AReq(ud: u64, req: DevReq, answer: Option<u8>)

  /** What decides whether a request can be served at all. */
  datatype Config = Config(shm: Option<Shm>, blkSize: u32)

  datatype ADisk<D> = ADisk(config: Config, disk: D, reqs: map<int, AReq>, log: seq<Cqe>)

  /** Aligned, of a supported kind, and its buffer accepted. */
  predicate Proper(c: Config, sqe: Sqe) {
    && c.blkSize > 0 && sqe.len % c.blkSize == 0
    && (sqe.opcode.OpRead? || sqe.opcode.OpWrite?) && BufferAddr(c.shm, sqe.addr, sqe.len).Some?
  }

  /** What a request asks of the disk: to read (type 0) or write (type 1) from sector `off` on. */
  function Meaning(c: Config, sqe: Sqe): DevReq
    requires Proper(c, sqe)
  {
    DevReq(if sqe.opcode.OpRead? then 0 else 1, sqe.off, BufferAddr(c.shm, sqe.addr, sqe.len).value, sqe.len)
  }

  /** As many requests as the disk serves at a time. */
  const CONCURRENCY := 42

  datatype AStep =
    | Stutter
    | Accept(slot: int, sqe: Sqe)
    | Refuse(sqe: Sqe)
    | Perform(slot: int)
    | Report(slot: int)

  ghost predicate ANext<D(!new)>(serve: Server<D>, a: ADisk<D>, step: AStep, a': ADisk<D>) {
    match step
    case Stutter => a' == a
    case Accept(i, sqe) =>
      && i !in a.reqs && |a.reqs| < CONCURRENCY && Proper(a.config, sqe)
      && a' == a.(reqs := a.reqs[i := AReq(sqe.ud, Meaning(a.config, sqe), None)])
    case Refuse(sqe) =>
      && (!Proper(a.config, sqe) || |a.reqs| == CONCURRENCY)
      && a' == a.(log := a.log + [Cqe(sqe.ud, -1)])
    case Perform(i) =>
      && i in a.reqs && a.reqs[i].answer.None?
      && var (disk', st) := serve(a.reqs[i].req, a.disk);
         a' == a.(disk := disk', reqs := a.reqs[i := a.reqs[i].(answer := Some(st))])
    case Report(i) =>
      && i in a.reqs && a.reqs[i].answer.Some?
      && var result := if a.reqs[i].answer.value == 0 then 0 else -1;
         a' == a.(reqs := a.reqs - {i}, log := a.log + [Cqe(a.reqs[i].ud, result)])
  }

  // ---- The abstraction ----

  function Queued<D>(s: Sys<D>): seq<int>
    requires s.b.Wf()
  {
    Rings.Contents(s.b.q.avail, s.devIdx, s.b.q.availIdx)
  }

  function IdsOf(elems: seq<UsedElem>): (ids: seq<int>) {
    seq(|elems|, i requires 0 <= i < |elems| => elems[i].id)
  }

  function Published(q: VQ): seq<int>
    requires q.Wf()
  {
    IdsOf(Rings.Contents(q.used, q.lastUsed, q.usedIdx))
  }

  /** The request in a slot, read from the header, the data descriptor and the status byte. */
  function RequestIn<D>(s: Sys<D>, slot: nat): AReq
    requires s.b.Wf() && slot < SLOTS && s.b.pending[slot].Some? && s.b.pending[slot].value.head < QUEUE_SIZE
  {
    var b, p := s.b, s.b.pending[slot].value;
    var data := b.q.descs[b.q.descs[p.head].next];
    AReq(p.ud, DevReq(b.headers[slot].ty, b.headers[slot].sector, data.addr, data.len),
         if p.head in s.served || p.head in Published(b.q) then Some(b.status[slot]) else None)
  }

  predicate Readable(b: Blk)
    requires b.Wf()
  {
    forall i :: 0 <= i < SLOTS && b.pending[i].Some? ==> b.pending[i].value.head < QUEUE_SIZE
  }

  function ConfigOf(b: Blk): Config {
    Config(b.shm, b.blkSize)
  }

  function Abs<D>(s: Sys<D>): (a: ADisk<D>)
    requires s.b.Wf() && Readable(s.b)
  {
    ADisk(ConfigOf(s.b), s.disk, map i: int | 0 <= i < SLOTS && s.b.pending[i].Some? :: RequestIn(s, i), s.b.cq)
  }

  /** The abstract step that a concrete step performs. */
  function Shadow<D>(s: Sys<D>, step: Step): AStep
    requires s.b.Wf()
  {
    match step
    case Driver(SubmitTaken) =>
      if s.b.batch == [] then Stutter else
      var sqe := s.b.batch[0];
      if SubmitRequest(s.b.(batch := s.b.batch[1..]), sqe).0 != Submitted then Refuse(sqe)
      else (match FirstEmpty(s.b.pending)
            case Some(i) => Accept(i, sqe)
            case None => Stutter)
    case Driver(PopUsed) =>
      if !CanPop(s.b.q) then Stutter
      else (match FindHead(s.b.pending, Pop(s.b.q).0.value.id % TWO16)
            case None => Stutter
            case Some(i) => Report(i))
    case Serve(h) => (match FindHead(s.b.pending, h) case None => Stutter case Some(i) => Perform(i))
    case _ => Stutter
  }

  // ---- The invariant of driver and device ----

  datatype Stage = InAvail | Taken | Served | InUsed

  /** The wiring of the chain `ids` of the request in `slot`. */
  ghost predicate WiredChain(b: Blk, ids: seq<int>, slot: int)
    requires b.Wf()
  {
    && 0 <= slot < SLOTS && |ids| == CHAIN
    && (forall j :: 0 <= j < CHAIN ==> 0 <= ids[j] < QUEUE_SIZE)
    && var header := b.headers[slot];
       && (header.ty == TYPE_IN || header.ty == TYPE_OUT)
       && b.q.descs[ids[0]] == Descriptor(b.HeaderAddr(slot), HEADER_BYTES, DESC_F_NEXT, ids[1])
       && b.q.descs[ids[1]].flags == (if header.ty == TYPE_OUT then 1 else 3)
       && b.q.descs[ids[2]] == Descriptor(b.StatusAddr(slot), 1, DESC_F_WRITE, 0)
  }

  /** The chain of each request in flight is wired to its own header and status byte. */
  ghost predicate Wired(b: Blk, l: Ledger, at: map<int, int>)
    requires b.Wf()
  {
    forall h :: h in l.chains ==> h in at && WiredChain(b, l.chains[h], at[h])
  }

  /** `heads` lists, once each, the chains in one stage. */
  ghost predicate Lists(heads: seq<int>, stages: map<int, Stage>, stage: Stage) {
    && Distinct(heads)
    && (forall i :: 0 <= i < |heads| ==> heads[i] in stages && stages[heads[i]] == stage)
    && (forall h :: h in stages && stages[h] == stage ==> h in heads)
  }

  ghost predicate Holds(heads: set<int>, stages: map<int, Stage>, stage: Stage) {
    forall h :: h in heads <==> h in stages && stages[h] == stage
  }

  /** Every chain in flight is in exactly one place between the two rings. */
  ghost predicate Staged<D>(s: Sys<D>, stages: map<int, Stage>)
    requires s.b.Wf()
  {
    && Lists(Queued(s), stages, InAvail)
    && Holds(s.taken, stages, Taken)
    && Holds(s.served, stages, Served)
    && Lists(Published(s.b.q), stages, InUsed)
  }

  ghost predicate Inv<D>(s: Sys<D>, l: Ledger, at: map<int, int>, stages: map<int, Stage>) {
    && B.Inv(s.b, l, at)
    && Wired(s.b, l, at)
    && stages.Keys == l.chains.Keys
    && Staged(s, stages)
  }

  // ---- Moving one head between stages ----

  lemma ListsGrows(heads: seq<int>, stages: map<int, Stage>, stage: Stage, h: int)
    requires Lists(heads, stages, stage)
    requires h in stages ==> stages[h] != stage
    ensures Lists(heads + [h], stages[h := stage], stage)
  {
    var heads', stages' := heads + [h], stages[h := stage];
    forall g | g in stages' && stages'[g] == stage ensures g in heads' {
      if g == h {
        assert heads'[|heads|] == h;
      } else {
        assert g in heads;
      }
    }
  }

  lemma ListsShrinks(heads: seq<int>, rest: seq<int>, stages: map<int, Stage>, stages': map<int, Stage>,
                     stage: Stage, h: int)
    requires Lists(heads, stages, stage) && heads == [h] + rest
    requires forall g :: g != h ==> (g in stages' <==> g in stages) && (g in stages ==> stages'[g] == stages[g])
    requires h in stages' ==> stages'[h] != stage
    ensures Lists(rest, stages', stage)
  {
    forall i | 0 <= i < |rest| ensures rest[i] in stages' && stages'[rest[i]] == stage {
      assert heads[i + 1] == rest[i] && heads[0] == h;
    }
    forall i, j | 0 <= i < j < |rest| ensures rest[i] != rest[j] {
      assert heads[i + 1] == rest[i] && heads[j + 1] == rest[j];
    }
    forall g | g in stages' && stages'[g] == stage ensures g in rest {
      assert g in heads;
    }
  }

  lemma ListsKept(heads: seq<int>, stages: map<int, Stage>, stages': map<int, Stage>, stage: Stage, h: int)
    requires Lists(heads, stages, stage)
    requires forall g :: g != h ==> (g in stages' <==> g in stages) && (g in stages ==> stages'[g] == stages[g])
    requires h in stages ==> stages[h] != stage
    requires h in stages' ==> stages'[h] != stage
    ensures Lists(heads, stages', stage)
  {
    forall g | g in stages' && stages'[g] == stage ensures g in heads {
      assert g != h && g in stages && stages[g] == stage;
    }
    forall i | 0 <= i < |heads| ensures heads[i] in stages' && stages'[heads[i]] == stage {
      assert heads[i] in stages && heads[i] != h;
    }
  }

  /** A stage holds at most as many heads as there are chains. */
  lemma ListsFits(heads: seq<int>, stages: map<int, Stage>, stage: Stage)
    requires Lists(heads, stages, stage)
    ensures |heads| <= |stages|
  {
    DistinctFits(heads, stages.Keys);
  }

  lemma IdsOfSum(a: seq<UsedElem>, b: seq<UsedElem>)
    ensures IdsOf(a + b) == IdsOf(a) + IdsOf(b)
  {
  }

  /** A ring of 128 always has room: at most 42 chains are in flight. */
  lemma RoomInRing(s: Sys, l: Ledger, at: map<int, int>, stages: map<int, Stage>)
    requires Inv(s, l, at, stages)
    ensures |Queued(s)| <= 42 && |Published(s.b.q)| <= 42
  {
    ListsFits(Queued(s), stages, InAvail);
    ListsFits(Published(s.b.q), stages, InUsed);
    B.SlotSearchNeverFails(s.b, l, at);
    assert |stages| == |stages.Keys| == |l.chains.Keys| == |l.chains|;
  }

  /** Announcing a head puts it at the end of what the device will take, and overwrites nothing. */
  lemma AvailGrows(q: VQ, devIdx: u16, h: u16)
    requires q.Wf() && q.num == QUEUE_SIZE && Rings.Outstanding(devIdx, q.availIdx) < QUEUE_SIZE
    ensures var q' := VirtQueues.Submit(q, h);
            Rings.Contents(q'.avail, devIdx, q'.availIdx) == Rings.Contents(q.avail, devIdx, q.availIdx) + [h]
  {
    Rings.PutExtends(q.avail, devIdx, q.availIdx, h);
  }

  // ---- Device steps keep the invariant ----

  lemma ConsumeKeeps<D(!new)>(serve: Server<D>, s: Sys<D>, l: Ledger, at: map<int, int>, stages: map<int, Stage>)
      returns (stages': map<int, Stage>)
    requires Inv(s, l, at, stages) && Enabled(s, Consume)
    ensures Inv(Do(serve, s, Consume), l, at, stages')
  {
    var q, s' := s.b.q, Do(serve, s, Consume);
    var h: int := q.avail[s.devIdx % |q.avail|];
    Rings.TakeDropsFirst(q.avail, s.devIdx, q.availIdx);
    assert Queued(s) == [h] + Queued(s');
    assert h == Queued(s)[0];
    stages' := stages[h := Taken];
    ListsShrinks(Queued(s), Queued(s'), stages, stages', InAvail, h);
    ListsKept(Published(q), stages, stages', InUsed, h);
  }

  /** The wiring is made of descriptors and headers, which only the driver writes. */
  lemma WiredKept(b: Blk, b': Blk, l: Ledger, at: map<int, int>)
    requires b.Wf() && b'.Wf() && Wired(b, l, at)
    requires b'.q.descs == b.q.descs && b'.headers == b.headers && b'.dma == b.dma
    ensures Wired(b', l, at)
  {
  }

  lemma ServeStages<D>(s: Sys<D>, s': Sys<D>, stages: map<int, Stage>, h: int)
    requires s.b.Wf() && s'.b.Wf() && s'.b.q == s.b.q && s'.devIdx == s.devIdx
    requires Staged(s, stages) && h in s.taken
    requires s'.taken == s.taken - {h} && s'.served == s.served + {h}
    ensures Staged(s', stages[h := Served])
  {
    var stages' := stages[h := Served];
    assert h in stages && stages[h] == Taken;
    ListsKept(Queued(s), stages, stages', InAvail, h);
    ListsKept(Published(s.b.q), stages, stages', InUsed, h);
  }

  lemma ServeKeeps<D(!new)>(serve: Server<D>, s: Sys<D>, l: Ledger, at: map<int, int>, stages: map<int, Stage>, h: int)
      returns (stages': map<int, Stage>)
    requires Inv(s, l, at, stages) && Enabled(s, Serve(h))
    ensures Inv(Do(serve, s, Serve(h)), l, at, stages')
  {
    var s' := Do(serve, s, Serve(h));
    stages' := stages[h := Served];
    B.DeviceKeeps(s.b, B.DeviceWrites(s.b.q.used, s.b.q.usedIdx, s'.b.status), l, at);
    WiredKept(s.b, s'.b, l, at);
    ServeStages(s, s', stages, h);
  }

  lemma PublishStages<D>(s: Sys<D>, s': Sys<D>, stages: map<int, Stage>, h: int, len: u32)
    requires s.b.Wf() && s'.b.Wf() && s.b.q.num == QUEUE_SIZE && s'.devIdx == s.devIdx && 0 <= h < TWO16
    requires var q := s.b.q;
             s'.b.q == q.(used := q.used[q.usedIdx % |q.used| := UsedElem(h, len)], usedIdx := Rings.Succ(q.usedIdx))
    requires Staged(s, stages) && h in s.served && |Published(s.b.q)| < QUEUE_SIZE
    requires s'.taken == s.taken && s'.served == s.served - {h}
    ensures Staged(s', stages[h := InUsed])
  {
    var q, stages' := s.b.q, stages[h := InUsed];
    Rings.PutExtends(q.used, q.lastUsed, q.usedIdx, UsedElem(h, len));
    IdsOfSum(Rings.Contents(q.used, q.lastUsed, q.usedIdx), [UsedElem(h, len)]);
    assert Published(s'.b.q) == Published(q) + [h];
    assert h in stages && stages[h] == Served;
    ListsGrows(Published(q), stages, InUsed, h);
    ListsKept(Queued(s), stages, stages', InAvail, h);
  }

  lemma PublishKeeps<D(!new)>(serve: Server<D>, s: Sys<D>, l: Ledger, at: map<int, int>, stages: map<int, Stage>,
                              h: int, len: u32)
      returns (stages': map<int, Stage>)
    requires Inv(s, l, at, stages) && Enabled(s, Publish(h, len))
    ensures Inv(Do(serve, s, Publish(h, len)), l, at, stages')
  {
    var s' := Do(serve, s, Publish(h, len));
    stages' := stages[h := InUsed];
    RoomInRing(s, l, at, stages);
    B.DeviceKeeps(s.b, B.DeviceWrites(s'.b.q.used, s'.b.q.usedIdx, s.b.status), l, at);
    WiredKept(s.b, s'.b, l, at);
    PublishStages(s, s', stages, h, len);
  }

  // ---- Driver steps keep the invariant ----

  lemma NewChainWired(b: Blk, l: Ledger, slot: nat, ty: u32, data: u64, sqe: Sqe)
    requires b.Wf() && Owned(b.q, CHAIN, l) && slot < SLOTS && |l.free| >= 3 && (ty == TYPE_IN || ty == TYPE_OUT)
    ensures WiredChain(Claim(Prepare(b, slot, ty, sqe.off), slot, ty, data, sqe).1, Top(l.free, 3), slot)
  {
    var ids, b1 := Top(l.free, 3), Prepare(b, slot, ty, sqe.off);
    TopIsDistinct(CHAIN, l, 3);
    B.ClaimTakesTop(b1, l.free, slot, ty, data, sqe);
    LaunchedIsWired(b1, slot, ty, data, sqe.len, ids);
  }

  lemma LaunchedIsWired(b: Blk, slot: nat, ty: u32, data: u64, len: u32, ids: seq<int>)
    requires b.Wf() && slot < SLOTS && |ids| == 3 && Distinct(ids)
    requires forall i :: 0 <= i < 3 ==> 0 <= ids[i] < QUEUE_SIZE
    ensures var q := B.Launched(b, slot, ty, data, len, ids);
            && q.descs[ids[0]] == Descriptor(b.HeaderAddr(slot), HEADER_BYTES, DESC_F_NEXT, ids[1])
            && q.descs[ids[1]].flags == (if ty == TYPE_OUT then 1 else 3)
            && q.descs[ids[2]] == Descriptor(b.StatusAddr(slot), 1, DESC_F_WRITE, 0)
  {
  }

  lemma OldChainWired(b: Blk, b': Blk, l: Ledger, at: map<int, int>, slot: nat)
    requires Sound(b, l, at) && b'.Wf() && b'.dma == b.dma && slot < SLOTS && b.pending[slot].Some?
    requires B.SameRequest(b, b', l, slot) && WiredChain(b, l.chains[b.pending[slot].value.head], slot)
    ensures WiredChain(b', l.chains[b.pending[slot].value.head], slot)
  {
  }

  lemma AcceptLeavesWiring(b: Blk, l: Ledger, at: map<int, int>, slot: nat, ty: u32, data: u64, sqe: Sqe, h: int)
    requires Sound(b, l, at) && slot < SLOTS && b.pending[slot].None? && |l.free| >= 3
    requires Wired(b, l, at) && h in l.chains
    ensures WiredChain(Claim(Prepare(b, slot, ty, sqe.off), slot, ty, data, sqe).1, l.chains[h], at[h])
  {
    var b1 := Prepare(b, slot, ty, sqe.off);
    B.LaunchLeavesOthers(b1, l, at, slot, ty, data, sqe, at[h]);
    OldChainWired(b, Claim(b1, slot, ty, data, sqe).1, l, at, at[h]);
  }

  lemma WiringExtends(b: Blk, l: Ledger, at: map<int, int>, slot: int)
    requires b.Wf() && |l.free| >= 3 && Wired(b, l, at)
    requires WiredChain(b, Top(l.free, 3), slot)
    requires Top(l.free, 3)[0] !in l.chains
    ensures Wired(b, Launch(l, CHAIN), at[Top(l.free, 3)[0] := slot])
  {
  }

  lemma AcceptWires(b: Blk, l: Ledger, at: map<int, int>, slot: nat, ty: u32, data: u64, sqe: Sqe)
    requires Sound(b, l, at) && slot < SLOTS && b.pending[slot].None? && |l.free| >= 3
    requires Wired(b, l, at) && (ty == TYPE_IN || ty == TYPE_OUT)
    ensures var ids := Top(l.free, 3);
            Wired(Claim(Prepare(b, slot, ty, sqe.off), slot, ty, data, sqe).1, Launch(l, CHAIN), at[ids[0] := slot])
  {
    var b' := Claim(Prepare(b, slot, ty, sqe.off), slot, ty, data, sqe).1;
    forall h | h in l.chains ensures WiredChain(b', l.chains[h], at[h]) {
      AcceptLeavesWiring(b, l, at, slot, ty, data, sqe, h);
    }
    FreeIsNoHead(CHAIN, l, |l.free| - 1);
    NewChainWired(b, l, slot, ty, data, sqe);
    WiringExtends(b', l, at, slot);
  }

  lemma SubmitStages<D>(s: Sys<D>, s': Sys<D>, stages: map<int, Stage>, h: u16)
    requires s.b.Wf() && s'.b.Wf() && s.b.q.num == QUEUE_SIZE
    requires Staged(s, stages) && h as int !in stages && |Queued(s)| < QUEUE_SIZE
    requires var q' := VirtQueues.Submit(s.b.q, h); s'.b.q.avail == q'.avail && s'.b.q.availIdx == q'.availIdx
    requires s'.b.q.used == s.b.q.used && s'.b.q.usedIdx == s.b.q.usedIdx && s'.b.q.lastUsed == s.b.q.lastUsed
    requires s'.devIdx == s.devIdx && s'.taken == s.taken && s'.served == s.served
    ensures Staged(s', stages[h as int := InAvail])
    ensures Queued(s') == Queued(s) + [h]
  {
    AvailGrows(s.b.q, s.devIdx, h);
    ListsGrows(Queued(s), stages, InAvail, h);
    ListsKept(Published(s.b.q), stages, stages[h as int := InAvail], InUsed, h);
  }

  /** The rings as one claim leaves them. */
  lemma ClaimRings(b: Blk, l: Ledger, at: map<int, int>, slot: nat, ty: u32, data: u64, sqe: Sqe)
    requires Sound(b, l, at) && slot < SLOTS
    ensures var (r, b') := Claim(b, slot, ty, data, sqe);
            && b'.q.used == b.q.used && b'.q.usedIdx == b.q.usedIdx && b'.q.lastUsed == b.q.lastUsed
            && (if r == Submitted
                then |l.free| >= 3
                     && b'.q.avail == VirtQueues.Submit(b.q, l.free[|l.free| - 1]).avail
                     && b'.q.availIdx == VirtQueues.Submit(b.q, l.free[|l.free| - 1]).availIdx
                else b'.q.avail == b.q.avail && b'.q.availIdx == b.q.availIdx)
  {
    if |l.free| >= 3 {
      B.ClaimTakesTop(b, l.free, slot, ty, data, sqe);
    } else {
      B.ClaimStrands(b, l, at, slot, ty, data, sqe);
    }
  }

  lemma RefuseLeavesWiring(b: Blk, l: Ledger, at: map<int, int>, sqe: Sqe, h: int)
    requires Sound(b, l, at) && Wired(b, l, at) && h in l.chains
    ensures WiredChain(SubmitRequest(b, sqe).1, l.chains[h], at[h])
  {
    B.SubmitLeavesOthers(b, l, at, sqe, at[h]);
    B.SubmitOutcome(b, l, at, sqe);
    OldChainWired(b, SubmitRequest(b, sqe).1, l, at, at[h]);
  }

  lemma RefuseWires(b: Blk, l: Ledger, at: map<int, int>, sqe: Sqe)
    requires Sound(b, l, at) && Wired(b, l, at)
    ensures Wired(SubmitRequest(b, sqe).1, l, at)
  {
    forall h | h in l.chains ensures WiredChain(SubmitRequest(b, sqe).1, l.chains[h], at[h]) {
      RefuseLeavesWiring(b, l, at, sqe, h);
    }
  }

  /** The rings as one submission leaves them. */
  lemma SubmitRings(b: Blk, l: Ledger, at: map<int, int>, sqe: Sqe)
    requires Sound(b, l, at)
    ensures var (r, b') := SubmitRequest(b, sqe);
            && b'.q.used == b.q.used && b'.q.usedIdx == b.q.usedIdx && b'.q.lastUsed == b.q.lastUsed
            && (if r == Submitted
                then |l.free| >= 3
                     && b'.q.avail == VirtQueues.Submit(b.q, l.free[|l.free| - 1]).avail
                     && b'.q.availIdx == VirtQueues.Submit(b.q, l.free[|l.free| - 1]).availIdx
                else b'.q.avail == b.q.avail && b'.q.availIdx == b.q.availIdx)
  {
    B.SubmitCases(b, l, at, sqe);
    if B.Acceptable(b, sqe) {
      var slot, ty := FirstEmpty(b.pending).value, TypeOf(sqe.opcode).value;
      ClaimRings(Prepare(b, slot, ty, sqe.off), l, at, slot, ty, BufferAddr(b.shm, sqe.addr, sqe.len).value, sqe);
    }
  }

  lemma RefuseKeeps<D>(s: Sys<D>, s': Sys<D>, l: Ledger, l': Ledger, at: map<int, int>, stages: map<int, Stage>)
    requires Inv(s, l, at, stages) && s.b.batch != [] && s' == s.(b := SubmitNext(s.b))
    requires var r := SubmitRequest(s.b.(batch := s.b.batch[1..]), s.b.batch[0]).0; r != Submitted
    requires B.Inv(s'.b, l', at) && l'.chains == l.chains
    ensures Inv(s', l', at, stages)
  {
    var sqe, b0 := s.b.batch[0], s.b.(batch := s.b.batch[1..]);
    WiredKept(s.b, b0, l, at);
    RefuseWires(b0, l, at, sqe);
    WiredKept(SubmitRequest(b0, sqe).1, s'.b, l, at);
    SubmitRings(b0, l, at, sqe);
    assert Queued(s') == Queued(s) && Published(s'.b.q) == Published(s.b.q);
  }

  lemma SubmitNextWires(b: Blk, l: Ledger, at: map<int, int>)
    requires Sound(b, l, at) && Wired(b, l, at) && b.batch != []
    requires SubmitRequest(b.(batch := b.batch[1..]), b.batch[0]).0 == Submitted
    requires |l.free| >= 3 && FirstEmpty(b.pending).Some?
    ensures Wired(SubmitNext(b), Launch(l, CHAIN), at[Top(l.free, 3)[0] := FirstEmpty(b.pending).value])
  {
    var sqe, b0 := b.batch[0], b.(batch := b.batch[1..]);
    B.SubmitCases(b0, l, at, sqe);
    WiredKept(b, b0, l, at);
    AcceptWires(b0, l, at, FirstEmpty(b0.pending).value, TypeOf(sqe.opcode).value,
                BufferAddr(b0.shm, sqe.addr, sqe.len).value, sqe);
  }

  lemma SubmitNextRings(b: Blk, l: Ledger, at: map<int, int>)
    requires Sound(b, l, at) && b.batch != []
    requires SubmitRequest(b.(batch := b.batch[1..]), b.batch[0]).0 == Submitted
    ensures |l.free| >= 3
    ensures var q, q', head := b.q, SubmitNext(b).q, l.free[|l.free| - 1];
            && q'.used == q.used && q'.usedIdx == q.usedIdx && q'.lastUsed == q.lastUsed
            && q'.avail == VirtQueues.Submit(q, head).avail && q'.availIdx == VirtQueues.Submit(q, head).availIdx
  {
    SubmitRings(b.(batch := b.batch[1..]), l, at, b.batch[0]);
  }

  lemma AcceptKeeps<D>(s: Sys<D>, s': Sys<D>, l: Ledger, at: map<int, int>, stages: map<int, Stage>, slot: nat)
    requires Inv(s, l, at, stages) && |l.free| >= 3 && s' == s.(b := s'.b)
    requires B.Inv(s'.b, Launch(l, CHAIN), at[Top(l.free, 3)[0] := slot])
    requires Wired(s'.b, Launch(l, CHAIN), at[Top(l.free, 3)[0] := slot])
    requires var q, q', head := s.b.q, s'.b.q, l.free[|l.free| - 1];
             && 0 <= head < TWO16
             && q'.used == q.used && q'.usedIdx == q.usedIdx && q'.lastUsed == q.lastUsed
             && q'.avail == VirtQueues.Submit(q, head).avail && q'.availIdx == VirtQueues.Submit(q, head).availIdx
    ensures var head := Top(l.free, 3)[0]; Inv(s', Launch(l, CHAIN), at[head := slot], stages[head := InAvail])
  {
    FreeIsNoHead(CHAIN, l, |l.free| - 1);
    RoomInRing(s, l, at, stages);
    SubmitStages(s, s', stages, Top(l.free, 3)[0]);
  }

  lemma SubmitKeeps<D(!new)>(serve: Server<D>, s: Sys<D>, l: Ledger, at: map<int, int>, stages: map<int, Stage>)
      returns (l': Ledger, at': map<int, int>, stages': map<int, Stage>)
    requires Inv(s, l, at, stages) && Enabled(s, Driver(B.SubmitTaken))
    ensures Inv(Do(serve, s, Driver(B.SubmitTaken)), l', at', stages')
  {
    var s' := s.(b := SubmitNext(s.b));
    l', at' := B.SubmitNextKeeps(s.b, l, at);
    B.SlotSearchNeverFails(s.b, l, at);
    if SubmitRequest(s.b.(batch := s.b.batch[1..]), s.b.batch[0]).0 == Submitted {
      SubmitNextWires(s.b, l, at);
      SubmitNextRings(s.b, l, at);
      AcceptKeeps(s, s', l, at, stages, FirstEmpty(s.b.pending).value);
      stages' := stages[Top(l.free, 3)[0] := InAvail];
    } else {
      RefuseKeeps(s, s', l, l', at, stages);
      stages' := stages;
    }
  }

  /** The used element at the front belongs to a request in flight, and the driver finds that request. */
  lemma PopFinds<D>(s: Sys<D>, l: Ledger, at: map<int, int>, stages: map<int, Stage>) returns (h: int)
    requires Inv(s, l, at, stages) && CanPop(s.b.q)
    ensures h in l.chains && stages[h] == InUsed && 0 <= h < QUEUE_SIZE
    ensures Pop(s.b.q).0.value.id % TWO16 == h
    ensures Published(s.b.q) == [h] + Published(Pop(s.b.q).1)
    ensures h in at && 0 <= at[h] < SLOTS && FindHead(s.b.pending, h) == Some(at[h])
    ensures s.b.pending[at[h]].Some? && s.b.pending[at[h]].value.head == h
  {
    var q := s.b.q;
    var elem := Pop(q).0.value;
    h := elem.id;
    Rings.TakeDropsFirst(q.used, q.lastUsed, q.usedIdx);
    IdsOfSum([elem], Rings.Contents(q.used, Rings.Succ(q.lastUsed), q.usedIdx));
    assert IdsOf([elem]) == [h];
    assert Published(q)[0] == h;
    assert h in l.chains && l.chains[h][0] == h;
    assert s.b.pending[at[h]].value.head == h;
  }

  lemma FinishLeavesWiring(b: Blk, l: Ledger, at: map<int, int>, slot: nat, h: int)
    requires Sound(b, l, at) && Wired(b, l, at) && slot < SLOTS && b.pending[slot].Some?
    requires h in l.chains && h != b.pending[slot].value.head
    ensures WiredChain(Finish(b, slot), l.chains[h], at[h])
  {
    assert b.pending[at[h]].Some? && b.pending[at[h]].value.head == h;
    B.FinishLeavesOthers(b, l, at, slot, at[h]);
    OldChainWired(b, Finish(b, slot), l, at, at[h]);
  }

  lemma FinishWires(b: Blk, l: Ledger, at: map<int, int>, slot: nat)
    requires Sound(b, l, at) && Wired(b, l, at) && slot < SLOTS && b.pending[slot].Some?
    requires b.pending[slot].value.head as int in l.chains
    ensures var h := b.pending[slot].value.head as int; Wired(Finish(b, slot), Retire(l, h), at - {h})
  {
    forall h | h in l.chains && h != b.pending[slot].value.head
      ensures WiredChain(Finish(b, slot), l.chains[h], at[h])
    {
      FinishLeavesWiring(b, l, at, slot, h);
    }
  }

  lemma PopStages<D>(s: Sys<D>, s': Sys<D>, stages: map<int, Stage>, h: int)
    requires s.b.Wf() && s'.b.Wf() && Staged(s, stages) && h in stages && stages[h] == InUsed
    requires Published(s.b.q) == [h] + Published(s'.b.q) && Queued(s') == Queued(s)
    requires s'.taken == s.taken && s'.served == s.served
    ensures Staged(s', stages - {h})
  {
    ListsShrinks(Published(s.b.q), Published(s'.b.q), stages, stages - {h}, InUsed, h);
    ListsKept(Queued(s), stages, stages - {h}, InAvail, h);
  }

  lemma PopRings(b: Blk)
    requires b.Wf()
    ensures var q, q' := b.q, PopOne(b).q;
            q'.avail == q.avail && q'.availIdx == q.availIdx && q'.used == q.used && q'.usedIdx == q.usedIdx
            && q'.lastUsed == Pop(q).1.lastUsed
  {
  }

  lemma PopWires(b: Blk, l: Ledger, at: map<int, int>, h: int)
    requires Sound(b, l, at) && Wired(b, l, at) && CanPop(b.q) && h in l.chains && h in at && 0 <= at[h] < SLOTS
    requires Pop(b.q).0.value.id % TWO16 == h && FindHead(b.pending, h) == Some(at[h])
    requires b.pending[at[h]].value.head == h
    ensures Wired(PopOne(b), Retire(l, h), at - {h})
  {
    var b1 := b.(q := Pop(b.q).1);
    WiredKept(b, b1, l, at);
    FinishWires(b1, l, at, at[h]);
  }

  lemma PopFound<D>(s: Sys<D>, s': Sys<D>, l: Ledger, at: map<int, int>, stages: map<int, Stage>, h: int)
    requires Inv(s, l, at, stages) && CanPop(s.b.q) && s' == s.(b := PopOne(s.b))
    requires h in l.chains && stages[h] == InUsed && Published(s.b.q) == [h] + Published(Pop(s.b.q).1)
    requires Pop(s.b.q).0.value.id % TWO16 == h && h in at && FindHead(s.b.pending, h) == Some(at[h])
    requires s.b.pending[at[h]].value.head == h && B.Inv(s'.b, Retire(l, h), at - {h})
    ensures Inv(s', Retire(l, h), at - {h}, stages - {h})
  {
    PopWires(s.b, l, at, h);
    PopRings(s.b);
    PopStages(s, s', stages, h);
  }

  lemma PopKeeps<D(!new)>(serve: Server<D>, s: Sys<D>, l: Ledger, at: map<int, int>, stages: map<int, Stage>)
      returns (l': Ledger, at': map<int, int>, stages': map<int, Stage>)
    requires Inv(s, l, at, stages)
    ensures Inv(Do(serve, s, Driver(B.PopUsed)), l', at', stages')
  {
    l', at', stages' := l, at, stages;
    if CanPop(s.b.q) {
      var h := PopFinds(s, l, at, stages);
      l', at' := B.PopOneKeeps(s.b, l, at);
      stages' := stages - {h};
      PopFound(s, Do(serve, s, Driver(B.PopUsed)), l, at, stages, h);
    }
  }

  lemma QueueKeeps<D>(s: Sys<D>, s': Sys<D>, d: B.Step, l: Ledger, at: map<int, int>, stages: map<int, Stage>)
    requires Inv(s, l, at, stages) && (d.Arrive? || d.TakeRequest?) && B.Enabled(s.b, d)
    requires s' == s.(b := B.Do(s.b, d))
    ensures Inv(s', l, at, stages)
  {
    B.QueueKeeps(s.b, d, l, at);
    WiredKept(s.b, s'.b, l, at);
    assert Queued(s') == Queued(s) && Published(s'.b.q) == Published(s.b.q);
  }

  lemma StepKeeps<D(!new)>(serve: Server<D>, s: Sys<D>, step: Step, l: Ledger, at: map<int, int>,
                    stages: map<int, Stage>)
      returns (l': Ledger, at': map<int, int>, stages': map<int, Stage>)
    requires Inv(s, l, at, stages) && Enabled(s, step)
    ensures Inv(Do(serve, s, step), l', at', stages')
  {
    l', at', stages' := l, at, stages;
    match step {
      case Driver(d) =>
        if d.SubmitTaken? {
          l', at', stages' := SubmitKeeps(serve, s, l, at, stages);
        } else if d.PopUsed? {
          l', at', stages' := PopKeeps(serve, s, l, at, stages);
        } else {
          QueueKeeps(s, Do(serve, s, step), d, l, at, stages);
        }
      case Consume =>
        stages' := ConsumeKeeps(serve, s, l, at, stages);
      case Serve(h) =>
        stages' := ServeKeeps(serve, s, l, at, stages, h);
      case Publish(h, len) =>
        stages' := PublishKeeps(serve, s, l, at, stages, h, len);
    }
  }

  // ---- Each step refines a step of the asynchronous disk ----

  lemma InvReadable<D>(s: Sys<D>, l: Ledger, at: map<int, int>, stages: map<int, Stage>)
    requires Inv(s, l, at, stages)
    ensures Readable(s.b)
  {
    forall i | 0 <= i < SLOTS && s.b.pending[i].Some? ensures s.b.pending[i].value.head < QUEUE_SIZE {
      B.SlotChain(s.b, l, at, i);
    }
  }

  predicate Answered<D>(s: Sys<D>, h: int)
    requires s.b.Wf()
  {
    h in s.served || h in Published(s.b.q)
  }

  /** The abstract request of a slot is the one its chain describes. */
  lemma RequestOf<D>(s: Sys<D>, l: Ledger, at: map<int, int>, stages: map<int, Stage>, i: nat)
    requires Inv(s, l, at, stages) && i < SLOTS && s.b.pending[i].Some?
    ensures var h := s.b.pending[i].value.head as int;
            && 0 <= h < QUEUE_SIZE && h in l.chains && at[h] == i && WiredChain(s.b, l.chains[h], i)
            && var data := s.b.q.descs[l.chains[h][1]];
               RequestIn(s, i) == AReq(s.b.pending[i].value.ud,
                                       DevReq(s.b.headers[i].ty, s.b.headers[i].sector, data.addr, data.len),
                                       if Answered(s, h) then Some(s.b.status[i]) else None)
  {
    B.SlotChain(s.b, l, at, i);
  }

  lemma RequestKept<D>(s: Sys<D>, s': Sys<D>, l: Ledger, at: map<int, int>, stages: map<int, Stage>, i: nat)
    requires Inv(s, l, at, stages) && i < SLOTS && s.b.pending[i].Some? && s'.b.Wf()
    requires B.SameRequest(s.b, s'.b, l, i)
    requires Answered(s', s.b.pending[i].value.head) == Answered(s, s.b.pending[i].value.head)
    ensures s.b.pending[i].value.head < QUEUE_SIZE && RequestIn(s', i) == RequestIn(s, i)
  {
    RequestOf(s, l, at, stages, i);
  }

  /** What the device reads through memory at a head is the request of the slot that owns the head. */
  lemma DeviceReadsRequest<D>(s: Sys<D>, l: Ledger, at: map<int, int>, stages: map<int, Stage>, h: int)
    requires Inv(s, l, at, stages) && h in l.chains
    ensures 0 <= at[h] < SLOTS && s.b.pending[at[h]].Some? && s.b.pending[at[h]].value.head == h
    ensures FindHead(s.b.pending, h) == Some(at[h]) && 0 <= h < QUEUE_SIZE
    ensures ReadChain(s.b, h) == Some((RequestIn(s, at[h]).req, at[h]))
  {
    var i := at[h];
    assert s.b.pending[i].value.head == h;
    RequestOf(s, l, at, stages, i);
    WalkVisitsChain(s.b.q.descs, l.chains[h], QUEUE_SIZE);
  }

  /** Steps that move a head between device and rings do not show. */
  lemma AbsUnchanged<D>(s: Sys<D>, s': Sys<D>)
    requires s.b.Wf() && s'.b.Wf() && Readable(s.b)
    requires s'.b.pending == s.b.pending && s'.b.headers == s.b.headers && s'.b.status == s.b.status
    requires s'.b.q.descs == s.b.q.descs && s'.b.cq == s.b.cq && s'.disk == s.disk && ConfigOf(s'.b) == ConfigOf(s.b)
    requires forall h :: Answered(s', h) == Answered(s, h)
    ensures Readable(s'.b) && Abs(s') == Abs(s)
  {
    forall i | 0 <= i < SLOTS && s.b.pending[i].Some? ensures RequestIn(s', i) == RequestIn(s, i) {
      assert Answered(s', s.b.pending[i].value.head) == Answered(s, s.b.pending[i].value.head);
    }
    assert Abs(s').reqs == Abs(s).reqs;
  }

  /** The device's answer shows in the one slot whose head it served. */
  lemma AbsAnswered<D>(s: Sys<D>, s': Sys<D>, slot: nat, h: int, st: u8)
    requires s.b.Wf() && s'.b.Wf() && Readable(s.b) && slot < SLOTS
    requires s'.b == s.b.(status := s.b.status[slot := st]) && s'.served == s.served + {h}
    requires forall i :: 0 <= i < SLOTS && s.b.pending[i].Some? ==> (s.b.pending[i].value.head == h <==> i == slot)
    requires s.b.pending[slot].Some?
    ensures Readable(s'.b)
    ensures Abs(s') == Abs(s).(disk := s'.disk, reqs := Abs(s).reqs[slot := RequestIn(s, slot).(answer := Some(st))])
  {
    forall i | 0 <= i < SLOTS && s.b.pending[i].Some?
      ensures RequestIn(s', i) == if i == slot then RequestIn(s, i).(answer := Some(st)) else RequestIn(s, i)
    {
    }
    assert Abs(s').reqs == Abs(s).reqs[slot := RequestIn(s, slot).(answer := Some(st))];
  }

  lemma DeviceRefines<D(!new)>(serve: Server<D>, s: Sys<D>, s': Sys<D>, step: Step, l: Ledger, at: map<int, int>,
                               stages: map<int, Stage>)
    requires Inv(s, l, at, stages) && Enabled(s, step) && (step.Consume? || step.Publish?)
    requires s' == Do(serve, s, step)
    ensures Readable(s.b) && Readable(s'.b) && Abs(s') == Abs(s)
  {
    InvReadable(s, l, at, stages);
    if step.Publish? {
      var q, e := s.b.q, UsedElem(step.head, step.len);
      RoomInRing(s, l, at, stages);
      Rings.PutExtends(q.used, q.lastUsed, q.usedIdx, e);
      IdsOfSum(Rings.Contents(q.used, q.lastUsed, q.usedIdx), [e]);
      assert Published(s'.b.q) == Published(q) + [step.head];
    }
    AbsUnchanged(s, s');
  }

  lemma ServeRefines<D(!new)>(serve: Server<D>, s: Sys<D>, s': Sys<D>, h: int, l: Ledger, at: map<int, int>,
                              stages: map<int, Stage>)
    requires Inv(s, l, at, stages) && Enabled(s, Serve(h)) && s' == Do(serve, s, Serve(h))
    ensures Readable(s.b) && Readable(s'.b)
    ensures Shadow(s, Serve(h)).Perform? && ANext(serve, Abs(s), Shadow(s, Serve(h)), Abs(s'))
  {
    InvReadable(s, l, at, stages);
    assert h in stages && stages[h] == Taken;
    DeviceReadsRequest(s, l, at, stages, h);
    assert !Answered(s, h);
    forall i | 0 <= i < SLOTS && s.b.pending[i].Some? ensures s.b.pending[i].value.head == h <==> i == at[h] {
      B.SlotChain(s.b, l, at, i);
    }
    AbsAnswered(s, s', at[h], h, serve(ReadChain(s.b, h).value.0, s.disk).1);
  }

  lemma QueueRefines<D>(s: Sys<D>, s': Sys<D>, d: B.Step, l: Ledger, at: map<int, int>, stages: map<int, Stage>)
    requires Inv(s, l, at, stages) && (d.Arrive? || d.TakeRequest?) && B.Enabled(s.b, d)
    requires s' == s.(b := B.Do(s.b, d))
    ensures Readable(s.b) && Readable(s'.b) && Abs(s') == Abs(s)
  {
    InvReadable(s, l, at, stages);
    AbsUnchanged(s, s');
  }

  /** The slots other than `slot` read the same in both states. */
  ghost predicate OthersRead<D>(s: Sys<D>, s': Sys<D>, slot: nat)
    requires s.b.Wf() && s'.b.Wf() && Readable(s.b) && Readable(s'.b)
  {
    forall i :: 0 <= i < SLOTS && i != slot ==>
      (s'.b.pending[i].Some? <==> s.b.pending[i].Some?)
      && (s.b.pending[i].Some? ==> RequestIn(s', i) == RequestIn(s, i))
  }

  lemma AbsAdds<D>(s: Sys<D>, s': Sys<D>, slot: nat)
    requires s.b.Wf() && s'.b.Wf() && Readable(s.b) && Readable(s'.b) && slot < SLOTS && OthersRead(s, s', slot)
    requires s.b.pending[slot].None? && s'.b.pending[slot].Some?
    requires s'.disk == s.disk && s'.b.cq == s.b.cq && ConfigOf(s'.b) == ConfigOf(s.b)
    ensures slot !in Abs(s).reqs && Abs(s') == Abs(s).(reqs := Abs(s).reqs[slot as int := RequestIn(s', slot)])
  {
    assert Abs(s').reqs == Abs(s).reqs[slot as int := RequestIn(s', slot)];
  }

  lemma AbsRemoves<D>(s: Sys<D>, s': Sys<D>, slot: nat)
    requires s.b.Wf() && s'.b.Wf() && Readable(s.b) && Readable(s'.b) && slot < SLOTS && OthersRead(s, s', slot)
    requires s'.b.pending[slot].None? && s'.disk == s.disk && ConfigOf(s'.b) == ConfigOf(s.b)
    ensures Abs(s') == Abs(s).(reqs := Abs(s).reqs - {slot}, log := s'.b.cq)
  {
    assert Abs(s').reqs == Abs(s).reqs - {slot};
  }

  lemma FinishKeepsRequest<D>(s: Sys<D>, s': Sys<D>, l: Ledger, at: map<int, int>, stages: map<int, Stage>, h: int,
                              i: nat)
    requires Inv(s, l, at, stages) && s'.b.Wf() && s'.served == s.served && h in at && 0 <= at[h] < SLOTS
    requires s.b.pending[at[h]].Some? && s.b.pending[at[h]].value.head == h
    requires s'.b == Finish(s.b.(q := Pop(s.b.q).1), at[h]) && Published(s.b.q) == [h] + Published(s'.b.q)
    requires i < SLOTS && i != at[h] && s.b.pending[i].Some?
    ensures s.b.pending[i].value.head < QUEUE_SIZE && s'.b.pending[i] == s.b.pending[i]
    ensures RequestIn(s', i) == RequestIn(s, i)
  {
    FinishLeavesSlot(s.b, s'.b, l, at, h, i);
    var g: int := s.b.pending[i].value.head;
    assert g in Published(s.b.q) <==> g in Published(s'.b.q);
    RequestKept(s, s', l, at, stages, i);
  }

  lemma FinishLeavesSlot(b: Blk, b': Blk, l: Ledger, at: map<int, int>, h: int, i: nat)
    requires Sound(b, l, at) && h in at && 0 <= at[h] < SLOTS
    requires b.pending[at[h]].Some? && b.pending[at[h]].value.head == h
    requires b' == Finish(b.(q := Pop(b.q).1), at[h]) && i < SLOTS && i != at[h] && b.pending[i].Some?
    ensures B.SameRequest(b, b', l, i) && b.pending[i].value.head != h
  {
    var b1 := b.(q := Pop(b.q).1);
    assert Sound(b1, l, at);
    B.FinishLeavesOthers(b1, l, at, at[h], i);
  }

  lemma ReportRefines<D>(s: Sys<D>, s': Sys<D>, l: Ledger, at: map<int, int>, stages: map<int, Stage>, h: int)
    requires Inv(s, l, at, stages) && CanPop(s.b.q) && s' == s.(b := PopOne(s.b))
    requires h in l.chains && stages[h] == InUsed && Published(s.b.q) == [h] + Published(Pop(s.b.q).1)
    requires Pop(s.b.q).0.value.id % TWO16 == h && h in at && 0 <= at[h] < SLOTS
             && FindHead(s.b.pending, h) == Some(at[h])
    requires s.b.pending[at[h]].Some? && s.b.pending[at[h]].value.head == h
    ensures Readable(s.b) && Readable(s'.b)
    ensures at[h] in Abs(s).reqs && Abs(s).reqs[at[h]].answer == Some(s.b.status[at[h]])
    ensures var result := if s.b.status[at[h]] == 0 then 0 else -1;
            Abs(s') == Abs(s).(reqs := Abs(s).reqs - {at[h]},
                               log := Abs(s).log + [Cqe(Abs(s).reqs[at[h]].ud, result)])
  {
    var slot := at[h];
    InvReadable(s, l, at, stages);
    assert h == Published(s.b.q)[0];
    PopRings(s.b);
    forall i | 0 <= i < SLOTS && s.b.pending[i].Some? && i != slot
      ensures s'.b.pending[i] == s.b.pending[i] && RequestIn(s', i) == RequestIn(s, i)
    {
      FinishKeepsRequest(s, s', l, at, stages, h, i);
    }
    AbsRemoves(s, s', slot);
  }

  lemma PopRefines<D(!new)>(serve: Server<D>, s: Sys<D>, s': Sys<D>, l: Ledger, at: map<int, int>,
                     stages: map<int, Stage>)
    requires Inv(s, l, at, stages) && s' == Do(serve, s, Driver(B.PopUsed))
    ensures Readable(s.b) && Readable(s'.b)
    ensures ANext(serve, Abs(s), Shadow(s, Driver(B.PopUsed)), Abs(s'))
  {
    InvReadable(s, l, at, stages);
    if CanPop(s.b.q) {
      var h := PopFinds(s, l, at, stages);
      ReportRefines(s, s', l, at, stages, h);
    }
  }

  /** A submission, whatever its outcome, does not change how another slot reads. */
  lemma SubmitKeepsRequest<D>(s: Sys<D>, s': Sys<D>, l: Ledger, at: map<int, int>, stages: map<int, Stage>, i: nat)
    requires Inv(s, l, at, stages) && s.b.batch != [] && s' == s.(b := SubmitNext(s.b))
    requires i < SLOTS && s.b.pending[i].Some?
    ensures s'.b.pending[i] == s.b.pending[i] && s.b.pending[i].value.head < QUEUE_SIZE
    ensures RequestIn(s', i) == RequestIn(s, i)
  {
    var b0 := s.b.(batch := s.b.batch[1..]);
    B.SubmitLeavesOthers(b0, l, at, s.b.batch[0], i);
    SubmitRings(b0, l, at, s.b.batch[0]);
    RequestKept(s, s', l, at, stages, i);
  }

  /** The abstract disk holds one request for each occupied slot. */
  lemma RequestsAreCounted<D>(s: Sys<D>)
    requires s.b.Wf() && Readable(s.b)
    ensures |Abs(s).reqs| == Count(s.b.pending)
  {
    OccupiedAreCounted(s.b.pending);
    assert Abs(s).reqs.Keys == Occupied(s.b.pending);
  }

  function Occupied(pending: seq<Option<Pending>>): set<int> {
    set i: int | 0 <= i < |pending| && pending[i].Some?
  }

  lemma {:induction false} OccupiedAreCounted(pending: seq<Option<Pending>>)
    ensures |Occupied(pending)| == Count(pending)
    decreases |pending|
  {
    if pending != [] {
      var n := |pending| - 1;
      var front := pending[..n];
      OccupiedAreCounted(front);
      CountSnoc(front, pending[n]);
      assert pending == front + [pending[n]];
      assert Occupied(pending) == Occupied(front) + (if pending[n].Some? then {n} else {});
    }
  }

  lemma {:induction false} CountSnoc(pending: seq<Option<Pending>>, p: Option<Pending>)
    ensures Count(pending + [p]) == Count(pending) + (if p.Some? then 1 else 0)
    decreases |pending|
  {
    if pending == [] {
      assert [] + [p] == [p];
    } else {
      assert (pending + [p])[1..] == pending[1..] + [p];
      CountSnoc(pending[1..], p);
    }
  }

  /** The driver accepts the next request exactly when it is proper and fewer than 42 are in flight. */
  lemma AcceptanceIsDue<D>(s: Sys<D>, l: Ledger, at: map<int, int>, stages: map<int, Stage>)
    requires Inv(s, l, at, stages) && s.b.batch != []
    ensures Readable(s.b)
    ensures SubmitRequest(s.b.(batch := s.b.batch[1..]), s.b.batch[0]).0 == Submitted <==>
            Proper(ConfigOf(s.b), s.b.batch[0]) && |Abs(s).reqs| < CONCURRENCY
    ensures |Abs(s).reqs| <= CONCURRENCY
  {
    InvReadable(s, l, at, stages);
    RequestsAreCounted(s);
    B.SubmitOutcome(s.b.(batch := s.b.batch[1..]), l, at, s.b.batch[0]);
    B.SlotSearchNeverFails(s.b, l, at);
  }

  lemma RefuseRefines<D>(s: Sys<D>, s': Sys<D>, l: Ledger, at: map<int, int>, stages: map<int, Stage>)
    requires Inv(s, l, at, stages) && s.b.batch != [] && s' == s.(b := SubmitNext(s.b))
    requires SubmitRequest(s.b.(batch := s.b.batch[1..]), s.b.batch[0]).0 != Submitted
    ensures Readable(s.b) && Readable(s'.b)
    ensures Abs(s') == Abs(s).(log := Abs(s).log + [Cqe(s.b.batch[0].ud, -1)])
  {
    InvReadable(s, l, at, stages);
    B.SubmitOutcome(s.b.(batch := s.b.batch[1..]), l, at, s.b.batch[0]);
    forall i | 0 <= i < SLOTS && s.b.pending[i].Some? ensures RequestIn(s', i) == RequestIn(s, i) {
      SubmitKeepsRequest(s, s', l, at, stages, i);
    }
    assert Abs(s').reqs == Abs(s).reqs;
  }

  /** What the new chain says. */
  lemma ClaimReads(b: Blk, l: Ledger, slot: nat, ty: u32, data: u64, sqe: Sqe)
    requires b.Wf() && Owned(b.q, CHAIN, l) && slot < SLOTS && |l.free| >= 3
    ensures var b', head := Claim(b, slot, ty, data, sqe).1, Top(l.free, 3)[0];
            && 0 <= head < QUEUE_SIZE && head !in l.chains
            && b'.pending == b.pending[slot := Some(Pending(sqe.ud, head))] && b'.cq == b.cq && b'.headers == b.headers
            && var d := b'.q.descs[b'.q.descs[head].next]; d.addr == data && d.len == sqe.len
  {
    TopIsDistinct(CHAIN, l, 3);
    FreeIsNoHead(CHAIN, l, |l.free| - 1);
    B.ClaimTakesTop(b, l.free, slot, ty, data, sqe);
  }

  /** The slot a request was accepted into reads as that very request, not yet answered. */
  lemma AcceptedReads<D>(s: Sys<D>, s': Sys<D>, l: Ledger, at: map<int, int>, stages: map<int, Stage>)
    requires Inv(s, l, at, stages) && s.b.batch != [] && s' == s.(b := SubmitNext(s.b))
    requires SubmitRequest(s.b.(batch := s.b.batch[1..]), s.b.batch[0]).0 == Submitted
    ensures var sqe := s.b.batch[0];
            && B.Acceptable(s.b, sqe) && FirstEmpty(s.b.pending).Some?
            && var slot, ty := FirstEmpty(s.b.pending).value, TypeOf(sqe.opcode).value;
               var data := BufferAddr(s.b.shm, sqe.addr, sqe.len).value;
               && (forall i :: 0 <= i < SLOTS && i != slot ==> s'.b.pending[i] == s.b.pending[i])
               && s'.b.pending[slot].Some? && s'.b.pending[slot].value.head < QUEUE_SIZE
               && RequestIn(s', slot) == AReq(sqe.ud, DevReq(ty, sqe.off, data, sqe.len), None)
               && s'.b.cq == s.b.cq
  {
    var sqe, b0 := s.b.batch[0], s.b.(batch := s.b.batch[1..]);
    B.SubmitCases(b0, l, at, sqe);
    B.SubmitOutcome(b0, l, at, sqe);
    SubmitRings(b0, l, at, sqe);
    var slot, ty := FirstEmpty(b0.pending).value, TypeOf(sqe.opcode).value;
    var data := BufferAddr(b0.shm, sqe.addr, sqe.len).value;
    ClaimReads(Prepare(b0, slot, ty, sqe.off), l, slot, ty, data, sqe);
    assert Published(s'.b.q) == Published(s.b.q);
    assert !Answered(s', Top(l.free, 3)[0]);
  }

  /** Its header's reserved field is zero, and its status byte one that no device answers with. */
  lemma AcceptedIsPrefilled(b: Blk, l: Ledger, at: map<int, int>)
    requires B.Inv(b, l, at) && b.batch != []
    requires SubmitRequest(b.(batch := b.batch[1..]), b.batch[0]).0 == Submitted
    ensures FirstEmpty(b.pending).Some?
    ensures var slot, b' := FirstEmpty(b.pending).value, SubmitNext(b);
            b'.status[slot] == 0xFF && b'.headers[slot].reserved == 0
  {
    var b0 := b.(batch := b.batch[1..]);
    B.SubmitCases(b0, l, at, b.batch[0]);
    B.SubmitOutcome(b0, l, at, b.batch[0]);
    ClaimLeavesBytes(b0, l, b.batch[0]);
  }

  lemma ClaimLeavesBytes(b: Blk, l: Ledger, sqe: Sqe)
    requires b.Wf() && B.Acceptable(b, sqe) && FirstEmpty(b.pending).Some?
    ensures var slot, b' := FirstEmpty(b.pending).value, SubmitRequest(b, sqe).1;
            b'.status[slot] == 0xFF && b'.headers[slot].reserved == 0
  {
  }

  lemma AcceptRefines<D>(s: Sys<D>, s': Sys<D>, l: Ledger, at: map<int, int>, stages: map<int, Stage>)
    requires Inv(s, l, at, stages) && s.b.batch != [] && s' == s.(b := SubmitNext(s.b))
    requires SubmitRequest(s.b.(batch := s.b.batch[1..]), s.b.batch[0]).0 == Submitted
    ensures Readable(s.b) && Readable(s'.b)
    ensures var sqe := s.b.batch[0];
            && B.Acceptable(s.b, sqe) && FirstEmpty(s.b.pending).Some?
            && var slot, ty := FirstEmpty(s.b.pending).value, TypeOf(sqe.opcode).value;
               var data := BufferAddr(s.b.shm, sqe.addr, sqe.len).value;
               && slot !in Abs(s).reqs
               && var req := AReq(sqe.ud, DevReq(ty, sqe.off, data, sqe.len), None);
                  Abs(s') == Abs(s).(reqs := Abs(s).reqs[slot := req])
  {
    InvReadable(s, l, at, stages);
    AcceptedReads(s, s', l, at, stages);
    forall i | 0 <= i < SLOTS && s.b.pending[i].Some? ensures RequestIn(s', i) == RequestIn(s, i) {
      SubmitKeepsRequest(s, s', l, at, stages, i);
    }
    AbsAdds(s, s', FirstEmpty(s.b.pending).value);
  }

  lemma SubmitRefines<D(!new)>(serve: Server<D>, s: Sys<D>, s': Sys<D>, l: Ledger, at: map<int, int>,
                               stages: map<int, Stage>)
    requires Inv(s, l, at, stages) && s.b.batch != [] && s' == s.(b := SubmitNext(s.b))
    ensures Readable(s.b) && Readable(s'.b)
    ensures ANext(serve, Abs(s), Shadow(s, Driver(B.SubmitTaken)), Abs(s'))
  {
    AcceptanceIsDue(s, l, at, stages);
    if SubmitRequest(s.b.(batch := s.b.batch[1..]), s.b.batch[0]).0 == Submitted {
      AcceptRefines(s, s', l, at, stages);
    } else {
      RefuseRefines(s, s', l, at, stages);
    }
  }

  /** Every step of driver and device is a step of the asynchronous disk, or invisible. */
  lemma StepRefines<D(!new)>(serve: Server<D>, s: Sys<D>, step: Step, l: Ledger, at: map<int, int>,
                      stages: map<int, Stage>)
    requires Inv(s, l, at, stages) && Enabled(s, step)
    ensures Readable(s.b) && Readable(Do(serve, s, step).b)
    ensures ANext(serve, Abs(s), Shadow(s, step), Abs(Do(serve, s, step)))
  {
    var s' := Do(serve, s, step);
    match step {
      case Driver(d) =>
        if d.SubmitTaken? {
          SubmitRefines(serve, s, s', l, at, stages);
        } else if d.PopUsed? {
          PopRefines(serve, s, s', l, at, stages);
        } else {
          QueueRefines(s, s', d, l, at, stages);
        }
      case Serve(h) => ServeRefines(serve, s, s', h, l, at, stages);
      case Consume => DeviceRefines(serve, s, s', step, l, at, stages);
      case Publish(_, _) => DeviceRefines(serve, s, s', step, l, at, stages);
    }
  }

  // ---- Whole runs ----

  ghost predicate Run<D(!new)>(serve: Server<D>, s: Sys<D>, steps: seq<Step>, s': Sys<D>)
    requires s.b.Wf()
    decreases |steps|
  {
    if steps == [] then s' == s
    else Enabled(s, steps[0]) && Run(serve, Do(serve, s, steps[0]), steps[1..], s')
  }

  ghost predicate ARun<D(!new)>(serve: Server<D>, a: ADisk<D>, steps: seq<AStep>, a': ADisk<D>)
    decreases |steps|
  {
    if steps == [] then a' == a
    else exists next :: ANext(serve, a, steps[0], next) && ARun(serve, next, steps[1..], a')
  }

  ghost predicate Initial<D>(s: Sys<D>) {
    && B.Initial(s.b)
    && s.devIdx == s.b.q.availIdx && s.b.q.usedIdx == s.b.q.lastUsed
    && s.taken == {} && s.served == {}
  }

  lemma InitialKeeps<D>(s: Sys<D>)
    requires Initial(s)
    ensures Inv(s, FreshLedger(QUEUE_SIZE), map[], map[])
    ensures Readable(s.b) && Abs(s) == ADisk(ConfigOf(s.b), s.disk, map[], [])
  {
    B.InitialKeeps(s.b);
    assert Queued(s) == [] && Published(s.b.q) == [];
    assert Abs(s).reqs == map[];
  }

  // ---- The disk decides on the client's requests ----

  /** The requests that the steps accept or refuse. */
  function Decided(steps: seq<AStep>): seq<Sqe> {
    if steps == [] then [] else DecidedBy(steps[0]) + Decided(steps[1..])
  }

  function DecidedBy(step: AStep): seq<Sqe> {
    match step
    case Accept(_, sqe) => [sqe]
    case Refuse(sqe) => [sqe]
    case _ => []
  }

  /** `now` moves from the requests fetched and waiting to those decided on. */
  ghost predicate Moves(b: Blk, b': Blk, now: seq<Sqe>) {
    && b'.shm == b.shm && b'.blkSize == b.blkSize
    && exists taken :: b'.fetched == b.fetched + taken && now + b'.batch == b.batch + taken
  }

  lemma NothingTaken(b: Blk, b': Blk, now: seq<Sqe>)
    requires b'.shm == b.shm && b'.blkSize == b.blkSize && b'.fetched == b.fetched && now + b'.batch == b.batch
    ensures Moves(b, b', now)
  {
    assert b'.fetched == b.fetched + [] && now + b'.batch == b.batch + [];
  }

  lemma SubmitMoves<D>(s: Sys<D>, l: Ledger, at: map<int, int>, stages: map<int, Stage>)
    requires Inv(s, l, at, stages) && s.b.batch != []
    ensures Moves(s.b, SubmitNext(s.b), [s.b.batch[0]])
  {
    B.SubmitOutcome(s.b.(batch := s.b.batch[1..]), l, at, s.b.batch[0]);
    NothingTaken(s.b, SubmitNext(s.b), [s.b.batch[0]]);
  }

  lemma SubmitDecides<D>(s: Sys<D>, l: Ledger, at: map<int, int>, stages: map<int, Stage>)
    requires Inv(s, l, at, stages) && s.b.batch != []
    ensures DecidedBy(Shadow(s, Driver(B.SubmitTaken))) == [s.b.batch[0]]
  {
    B.SlotSearchNeverFails(s.b, l, at);
  }

  lemma OthersMove<D(!new)>(serve: Server<D>, s: Sys<D>, step: Step)
    requires s.b.Wf() && Enabled(s, step) && step != Driver(B.SubmitTaken)
    ensures DecidedBy(Shadow(s, step)) == [] && Moves(s.b, Do(serve, s, step).b, [])
  {
    var b' := Do(serve, s, step).b;
    if step == Driver(B.TakeRequest) {
      assert b'.fetched == s.b.fetched + [s.b.sq[0]] && [] + b'.batch == s.b.batch + [s.b.sq[0]];
    } else {
      NothingTaken(s.b, b', []);
    }
  }

  /** Submitting decides on the oldest request fetched; no other step decides on anything. */
  lemma StepDecides<D(!new)>(serve: Server<D>, s: Sys<D>, step: Step, l: Ledger, at: map<int, int>,
                             stages: map<int, Stage>)
    requires Inv(s, l, at, stages) && Enabled(s, step)
    ensures Moves(s.b, Do(serve, s, step).b, DecidedBy(Shadow(s, step)))
  {
    if step == Driver(B.SubmitTaken) {
      SubmitMoves(s, l, at, stages);
      SubmitDecides(s, l, at, stages);
    } else {
      OthersMove(serve, s, step);
    }
  }

  lemma MovedOn(b: Blk, b': Blk, now: seq<Sqe>, done: seq<Sqe>)
    requires Moves(b, b', now) && b.fetched == done + b.batch
    ensures b'.fetched == done + now + b'.batch
  {
    var taken :| b'.fetched == b.fetched + taken && now + b'.batch == b.batch + taken;
    assert done + b.batch + taken == done + (b.batch + taken);
  }

  /** The disk's steps during a run. */
  ghost function Shadows<D(!new)>(serve: Server<D>, s: Sys<D>, steps: seq<Step>): seq<AStep>
    requires s.b.Wf()
    decreases |steps|
  {
    if steps == [] || !Enabled(s, steps[0]) then []
    else [Shadow(s, steps[0])] + Shadows(serve, Do(serve, s, steps[0]), steps[1..])
  }

  lemma {:induction false} RunRefines<D(!new)>(serve: Server<D>, s: Sys<D>, steps: seq<Step>, s': Sys<D>,
                                               l: Ledger, at: map<int, int>, stages: map<int, Stage>)
    requires Inv(s, l, at, stages) && Run(serve, s, steps, s')
    ensures Readable(s.b) && s'.b.Wf() && Readable(s'.b)
    ensures ARun(serve, Abs(s), Shadows(serve, s, steps), Abs(s'))
    decreases |steps|
  {
    InvReadable(s, l, at, stages);
    if steps != [] {
      var next := Do(serve, s, steps[0]);
      StepRefines(serve, s, steps[0], l, at, stages);
      var l', at', stages' := StepKeeps(serve, s, steps[0], l, at, stages);
      RunRefines(serve, next, steps[1..], s', l', at', stages');
      var rest := Shadows(serve, next, steps[1..]);
      assert ([Shadow(s, steps[0])] + rest)[1..] == rest;
    }
  }

  /** The first step of a run: its decision moves on, the invariant is kept, and the rest of the run follows. */
  lemma RunHead<D(!new)>(serve: Server<D>, s: Sys<D>, steps: seq<Step>, s': Sys<D>, done: seq<Sqe>,
                         l: Ledger, at: map<int, int>, stages: map<int, Stage>)
      returns (next: Sys<D>, a: AStep, l': Ledger, at': map<int, int>, stages': map<int, Stage>)
    requires steps != [] && Inv(s, l, at, stages) && Run(serve, s, steps, s') && s.b.fetched == done + s.b.batch
    ensures Inv(next, l', at', stages') && Run(serve, next, steps[1..], s')
    ensures next.b.fetched == done + DecidedBy(a) + next.b.batch && ConfigOf(next.b) == ConfigOf(s.b)
    ensures Shadows(serve, s, steps) == [a] + Shadows(serve, next, steps[1..])
  {
    next, a := Do(serve, s, steps[0]), Shadow(s, steps[0]);
    StepDecides(serve, s, steps[0], l, at, stages);
    MovedOn(s.b, next.b, DecidedBy(a), done);
    l', at', stages' := StepKeeps(serve, s, steps[0], l, at, stages);
  }

  /** Over a run, the disk decides on the requests that leave the batch, in the order they were fetched. */
  lemma {:induction false} RunDecides<D(!new)>(serve: Server<D>, s: Sys<D>, steps: seq<Step>, s': Sys<D>,
                                               done: seq<Sqe>, l: Ledger, at: map<int, int>,
                                               stages: map<int, Stage>) returns (asteps: seq<AStep>)
    requires Inv(s, l, at, stages) && Run(serve, s, steps, s') && s.b.fetched == done + s.b.batch
    ensures asteps == Shadows(serve, s, steps) && s'.b.fetched == done + Decided(asteps) + s'.b.batch
    ensures ConfigOf(s'.b) == ConfigOf(s.b)
    decreases |steps|
  {
    asteps := [];
    if steps != [] {
      var next, a, l', at', stages' := RunHead(serve, s, steps, s', done, l, at, stages);
      var rest := RunDecides(serve, next, steps[1..], s', done + DecidedBy(a), l', at', stages');
      asteps := DecideMore(s'.b, done, a, rest);
    }
  }

  lemma DecideMore(b': Blk, done: seq<Sqe>, a: AStep, rest: seq<AStep>) returns (asteps: seq<AStep>)
    requires b'.fetched == done + DecidedBy(a) + Decided(rest) + b'.batch
    ensures asteps == [a] + rest && b'.fetched == done + Decided(asteps) + b'.batch
  {
    asteps := [a] + rest;
    assert asteps[1..] == rest;
    assert done + DecidedBy(a) + Decided(rest) == done + (DecidedBy(a) + Decided(rest));
  }

  /** An accepted request whose sums stay within 64 bits lies in the window, and so does the memory it is served in. */
  ghost predicate InWindow(c: Config, step: AStep) {
    step.Accept? && c.shm.Some? && Regular(c.shm.value)
    && step.sqe.addr + step.sqe.len < TWO64 && step.sqe.len > 0 ==>
      Proper(c, step.sqe) && Inside(c.shm.value, step.sqe.addr, step.sqe.len)
      && InsideMemory(c.shm.value, Meaning(c, step.sqe).data, step.sqe.len)
  }

  lemma ProperIsInWindow(c: Config, step: AStep)
    requires step.Accept? ==> Proper(c, step.sqe)
    ensures InWindow(c, step)
  {
    if step.Accept? && c.shm.Some? && Regular(c.shm.value)
       && step.sqe.addr + step.sqe.len < TWO64 && step.sqe.len > 0 {
      RegularCheck(c.shm.value, step.sqe.addr, step.sqe.len);
      TranslationStaysInside(c.shm.value, step.sqe.addr, step.sqe.len);
    }
  }

  lemma {:induction false} ARunInWindow<D(!new)>(serve: Server<D>, a: ADisk<D>, steps: seq<AStep>, a': ADisk<D>)
    requires ARun(serve, a, steps, a')
    ensures forall i :: 0 <= i < |steps| ==> InWindow(a.config, steps[i])
    decreases |steps|
  {
    if steps != [] {
      var next :| ANext(serve, a, steps[0], next) && ARun(serve, next, steps[1..], a');
      ProperIsInWindow(a.config, steps[0]);
      ARunInWindow(serve, next, steps[1..], a');
      forall i | 0 <= i < |steps| ensures InWindow(a.config, steps[i]) {
        assert i > 0 ==> steps[i] == steps[1..][i - 1];
      }
    }
  }

  lemma RunIsDisk<D(!new)>(serve: Server<D>, s: Sys<D>, steps: seq<Step>, s': Sys<D>,
                           l: Ledger, at: map<int, int>, stages: map<int, Stage>) returns (asteps: seq<AStep>)
    requires Inv(s, l, at, stages) && Run(serve, s, steps, s') && s.b.fetched == [] && s.b.batch == []
    ensures Readable(s.b) && s'.b.Wf() && Readable(s'.b)
    ensures ARun(serve, Abs(s), asteps, Abs(s')) && s'.b.fetched == Decided(asteps) + s'.b.batch
    ensures forall i :: 0 <= i < |asteps| ==> InWindow(Abs(s).config, asteps[i])
  {
    RunRefines(serve, s, steps, s', l, at, stages);
    asteps := RunDecides(serve, s, steps, s', [], l, at, stages);
    ARunInWindow(serve, Abs(s), asteps, Abs(s'));
  }

  /**
   From the initial state on, for every interleaving of client, driver and
   device and every order of completion, what the client can observe is a run
   of the asynchronous disk, which decides on the client's requests one by one
   and in order.  That disk accepts a request as the very operation, sector,
   buffer and length it names; it refuses it only if it is improper or 42
   requests are in flight.  With sums within 64 bits, the disk works inside the
   client's window.  The buffers are part of the disk's own state here; the
   same with buffers that may lie anywhere, the driver's memory included, is
   `BlockRefinesDiskWithPayloads` in DiskPayloads.dfy.
   */
  lemma BlockRefinesDisk<D(!new)>(serve: Server<D>, s: Sys<D>, steps: seq<Step>, s': Sys<D>)
      returns (asteps: seq<AStep>)
    requires Initial(s) && Run(serve, s, steps, s')
    ensures s'.b.Wf() && Readable(s'.b)
    ensures ARun(serve, ADisk(ConfigOf(s.b), s.disk, map[], []), asteps, Abs(s'))
    ensures s'.b.fetched == Decided(asteps) + s'.b.batch
    ensures forall i :: 0 <= i < |asteps| ==> InWindow(ConfigOf(s.b), asteps[i])
  {
    InitialKeeps(s);
    asteps := RunIsDisk(serve, s, steps, s', FreshLedger(QUEUE_SIZE), map[], map[]);
  }
}
