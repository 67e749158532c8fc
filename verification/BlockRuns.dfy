/**
 What every run of the virtio-blk driver keeps, whatever the device writes
 into the used ring and the status bytes.
 */
module BlockRuns {
  import opened Base
  import opened VirtQueues
  import opened Blocks
  import opened Windows
  import opened PendingTable
  import Rings

  // ---- Single operations ----

  lemma ThreePerChain(b: Blk, l: Ledger, at: map<int, int>)
    requires Sound(b, l, at)
    ensures b.q.numFree + 3 * Count(b.pending) + |l.lost| == QUEUE_SIZE
  {
    GroupsMultiply(CHAIN, |l.chains|);
  }

  lemma FreeCountModThree(free: nat, count: nat, lost: nat)
    requires free + 3 * count + lost == 128 && (lost == 0 || lost == 2)
    ensures lost == 0 <==> free % 3 == 2
    ensures lost == 2 <==> free % 3 == 0
  {
  }

  /** The walk in the completion loop visits exactly the three descriptors of its own request. */
  lemma WalkIsOwnChain(b: Blk, l: Ledger, at: map<int, int>, slot: nat)
    requires Sound(b, l, at) && slot < SLOTS && b.pending[slot].Some?
    ensures b.pending[slot].value.head in l.chains
    ensures Walk(b.q.descs, b.pending[slot].value.head, |b.q.descs|) == l.chains[b.pending[slot].value.head]
  {
    WalkVisitsChain(b.q.descs, l.chains[b.pending[slot].value.head], |b.q.descs|);
  }

  lemma ChainIsDistinct(b: Blk, l: Ledger, at: map<int, int>, slot: nat)
    requires Sound(b, l, at) && slot < SLOTS && b.pending[slot].Some?
    ensures var h := b.pending[slot].value.head as int;
            h in l.chains && IsChain(b.q.descs, l.chains[h]) && l.chains[h][0] == h
            && |l.chains[h]| == CHAIN && Distinct(l.chains[h])
    ensures Count(b.pending) > 0
  {
    OwnersAreDisjoint(QUEUE_SIZE, CHAIN, l);
    SetSlotCount(b.pending, slot, None);
  }

  lemma FinishSlots(pending: seq<Option<Pending>>, l: Ledger, at: map<int, int>, slot: nat)
    requires SlotsMatch(pending, l, at) && slot < |pending| && pending[slot].Some?
    ensures var h := pending[slot].value.head; SlotsMatch(pending[slot := None], Retire(l, h), at - {h})
  {
  }

  lemma FinishKeepsSound(b: Blk, l: Ledger, at: map<int, int>, slot: nat)
    requires Sound(b, l, at) && slot < SLOTS && b.pending[slot].Some?
    ensures var h := b.pending[slot].value.head; Sound(Finish(b, slot), Retire(l, h), at - {h})
  {
    var h := b.pending[slot].value.head;
    WalkIsOwnChain(b, l, at, slot);
    RetireKeepsOwned(b.q, CHAIN, l, h);
    FinishSlots(b.pending, l, at, slot);
    MapShrinks(l.chains, h);
    SetSlotCount(b.pending, slot, None);
  }

  lemma LaunchSlots(pending: seq<Option<Pending>>, l: Ledger, at: map<int, int>, slot: nat, p: Pending)
    requires SlotsMatch(pending, l, at) && slot < |pending| && pending[slot].None?
    requires CHAIN <= |l.free| && l.free[|l.free| - 1] == p.head && p.head !in l.chains
    ensures SlotsMatch(pending[slot := Some(p)], Launch(l, CHAIN), at[p.head as int := slot])
  {
  }

  /** The three descriptors of a request. */
  function ChainOf(b: Blk, slot: nat, ty: u32, data: u64, len: u32, d2: u16, d3: u16)
    : (c: (Descriptor, Descriptor, Descriptor))
    requires b.Wf() && slot < SLOTS
  {
    (Descriptor(b.HeaderAddr(slot), HEADER_BYTES, DESC_F_NEXT, d2),
     Descriptor(data, len, if ty == TYPE_OUT then 1 else 3, d3),
     Descriptor(b.StatusAddr(slot), 1, DESC_F_WRITE, 0))
  }

  /** The queue after `Claim`: three descriptors gone from the top of the free list, linked, and announced. */
  function Launched(b: Blk, slot: nat, ty: u32, data: u64, len: u32, ids: seq<int>): VQ
    requires b.Wf() && slot < SLOTS && |ids| == 3 && forall i :: 0 <= i < 3 ==> 0 <= ids[i] < QUEUE_SIZE
  {
    var (x0, x1, x2) := ChainOf(b, slot, ty, data, len, ids[1], ids[2]);
    VirtQueues.Submit(Alloc(Alloc(Alloc(b.q).1).1).1.(
                        descs := b.q.descs[ids[0] := x0][ids[1] := x1][ids[2] := x2]), ids[0])
  }

  lemma ClaimTakesTop(b: Blk, free: seq<int>, slot: nat, ty: u32, data: u64, sqe: Sqe)
    requires b.Wf() && slot < SLOTS && FreeListIs(b.q, free) && |free| >= 3
    ensures var (r, b') := Claim(b, slot, ty, data, sqe); var ids := Top(free, 3);
            && r == Submitted
            && b' == b.(q := Launched(b, slot, ty, data, sqe.len, ids),
                        pending := b.pending[slot := Some(Pending(sqe.ud, ids[0]))])
  {
    AllocTriple(b.q, free);
  }

  lemma LaunchedIsOwned(b: Blk, l: Ledger, slot: nat, ty: u32, data: u64, len: u32)
    requires b.Wf() && Owned(b.q, CHAIN, l) && slot < SLOTS && |l.free| >= 3
    ensures var ids := Top(l.free, 3);
            && (forall i :: 0 <= i < 3 ==> 0 <= ids[i] < QUEUE_SIZE)
            && ids[0] !in l.chains
            && Owned(Launched(b, slot, ty, data, len, ids), CHAIN, Launch(l, CHAIN))
  {
    var ids := Top(l.free, 3);
    var (x0, x1, x2) := ChainOf(b, slot, ty, data, len, ids[1], ids[2]);
    LaunchTriple(b.q, l, x0, x1, x2);
    SubmitKeepsOwned(Alloc(Alloc(Alloc(b.q).1).1).1.(
                       descs := b.q.descs[ids[0] := x0][ids[1] := x1][ids[2] := x2]), 3, Launch(l, 3), ids[0]);
  }

  lemma LaunchKeepsSound(b: Blk, q': VQ, l: Ledger, at: map<int, int>, slot: nat, p: Pending)
    requires Sound(b, l, at) && slot < SLOTS && b.pending[slot].None? && |l.free| >= 3
    requires l.free[|l.free| - 1] == p.head && p.head !in l.chains
    requires q'.num == QUEUE_SIZE && Owned(q', CHAIN, Launch(l, CHAIN))
    ensures Sound(b.(q := q', pending := b.pending[slot := Some(p)]), Launch(l, CHAIN), at[p.head as int := slot])
  {
    LaunchSlots(b.pending, l, at, slot, p);
    SetSlotCount(b.pending, slot, Some(p));
    MapGrows(l.chains, p.head, Top(l.free, 3));
  }

  lemma ClaimKeepsSound(b: Blk, l: Ledger, at: map<int, int>, slot: nat, ty: u32, data: u64, sqe: Sqe)
    requires Sound(b, l, at) && slot < SLOTS && b.pending[slot].None? && |l.free| >= 3
    ensures Sound(Claim(b, slot, ty, data, sqe).1, Launch(l, CHAIN), at[Top(l.free, 3)[0] := slot])
  {
    var ids := Top(l.free, 3);
    LaunchedIsOwned(b, l, slot, ty, data, sqe.len);
    ClaimTakesTop(b, l.free, slot, ty, data, sqe);
    LaunchKeepsSound(b, Launched(b, slot, ty, data, sqe.len, ids), l, at, slot, Pending(sqe.ud, ids[0]));
  }

  /** Without three free descriptors nothing is queued; if two were free, those two are lost for good. */
  lemma ClaimStrands(b: Blk, l: Ledger, at: map<int, int>, slot: nat, ty: u32, data: u64, sqe: Sqe)
    requires Sound(b, l, at) && slot < SLOTS && |l.free| < 3
    ensures |l.free| == 0 || |l.free| == 2
    ensures var (r, b') := Claim(b, slot, ty, data, sqe);
            && r == Failed(OutOfMemory)
            && b' == b.(q := b.q.(freeHead := b'.q.freeHead, numFree := 0))
            && Sound(b', Abandon(l, |l.free|), at)
  {
    ThreePerChain(b, l, at);
    if |l.free| == 2 {
      TwoAreStranded(b, l, slot, ty, data, sqe);
    } else {
      AbandonKeepsOwned(b.q, b.q, CHAIN, l, 0);
    }
  }

  lemma TwoAreStranded(b: Blk, l: Ledger, slot: nat, ty: u32, data: u64, sqe: Sqe)
    requires b.Wf() && Owned(b.q, CHAIN, l) && |l.free| == 2 && slot < SLOTS
    ensures var (r, b') := Claim(b, slot, ty, data, sqe);
            && r == Failed(OutOfMemory) && Owned(b'.q, CHAIN, Abandon(l, 2))
            && b' == b.(q := b.q.(freeHead := b'.q.freeHead, numFree := 0))
  {
    AllocPair(b.q, l.free);
    AbandonKeepsOwned(b.q, Alloc(Alloc(b.q).1).1, CHAIN, l, 2);
  }

  /** The request passes every check that does not depend on what is in flight. */
  predicate Acceptable(b: Blk, sqe: Sqe)
    requires b.Wf()
  {
    sqe.len % b.blkSize == 0 && TypeOf(sqe.opcode).Some? && BufferAddr(b.shm, sqe.addr, sqe.len).Some?
  }

  /** The pending table has room for every request the descriptors have room for. */
  lemma SlotSearchNeverFails(b: Blk, l: Ledger, at: map<int, int>)
    requires Sound(b, l, at)
    ensures FirstEmpty(b.pending).Some? && Count(b.pending) <= 42
  {
    ThreePerChain(b, l, at);
    FullTableCount(b.pending);
  }

  lemma {:induction false} FullTableCount(pending: seq<Option<Pending>>)
    ensures FirstEmpty(pending).None? ==> Count(pending) == |pending|
  {
    if pending != [] {
      FullTableCount(pending[1..]);
    }
  }

  /** A submission either claims descriptors for an acceptable request or leaves the queue alone. */
  lemma SubmitCases(b: Blk, l: Ledger, at: map<int, int>, sqe: Sqe)
    requires Sound(b, l, at)
    ensures FirstEmpty(b.pending).Some?
    ensures !Acceptable(b, sqe) ==>
              SubmitRequest(b, sqe).0 != Submitted && SubmitRequest(b, sqe).1.q == b.q
              && SubmitRequest(b, sqe).1.pending == b.pending
    ensures Acceptable(b, sqe) ==>
              var slot, ty := FirstEmpty(b.pending).value, TypeOf(sqe.opcode).value;
              var data := BufferAddr(b.shm, sqe.addr, sqe.len).value;
              SubmitRequest(b, sqe) == Claim(Prepare(b, slot, ty, sqe.off), slot, ty, data, sqe)
  {
    SlotSearchNeverFails(b, l, at);
  }

  /** Whatever a submission does, the account of the descriptors balances afterwards. */
  lemma SubmitKeepsSound(b: Blk, l: Ledger, at: map<int, int>, sqe: Sqe) returns (l': Ledger, at': map<int, int>)
    requires Sound(b, l, at)
    ensures Sound(SubmitRequest(b, sqe).1, l', at')
    ensures SubmitRequest(b, sqe).0 == Submitted ==>
              |l.free| >= 3 && l' == Launch(l, CHAIN) && at' == at[Top(l.free, 3)[0] := FirstEmpty(b.pending).value]
    ensures SubmitRequest(b, sqe).0 != Submitted ==>
              l'.chains == l.chains && at' == at && SubmitRequest(b, sqe).1.q.descs == b.q.descs
  {
    l', at' := l, at;
    SlotSearchNeverFails(b, l, at);
    if Acceptable(b, sqe) {
      var slot, ty := FirstEmpty(b.pending).value, TypeOf(sqe.opcode).value;
      var data := BufferAddr(b.shm, sqe.addr, sqe.len).value;
      var b1 := Prepare(b, slot, ty, sqe.off);
      if |l.free| >= 3 {
        ClaimKeepsSound(b1, l, at, slot, ty, data, sqe);
        ClaimTakesTop(b1, l.free, slot, ty, data, sqe);
        l', at' := Launch(l, CHAIN), at[Top(l.free, 3)[0] := slot];
      } else {
        ClaimStrands(b1, l, at, slot, ty, data, sqe);
        l' := Abandon(l, |l.free|);
      }
    }
  }

  /**
   What a submission reports.  It is accepted exactly when the request is
   acceptable and fewer than 42 requests are in flight; a refused request
   leaves the rings and the pending table as they were.
   */
  lemma SubmitOutcome(b: Blk, l: Ledger, at: map<int, int>, sqe: Sqe)
    requires Sound(b, l, at)
    ensures var (r, b') := SubmitRequest(b, sqe);
            && (r == Submitted <==> Acceptable(b, sqe) && Count(b.pending) < 42)
            && (r == Failed(OutOfMemory) <==> Acceptable(b, sqe) && Count(b.pending) == 42)
            && (r == Failed(NotSupported) <==> sqe.len % b.blkSize == 0 && TypeOf(sqe.opcode).None?)
            && (r.Failed? ==> b'.pending == b.pending && b'.q.avail == b.q.avail && b'.q.availIdx == b.q.availIdx)
            && (r == Submitted ==>
                  && Count(b'.pending) == Count(b.pending) + 1
                  && b'.q.availIdx == Rings.Succ(b.q.availIdx)
                  && PendingTags(b'.pending) == PendingTags(b.pending) + multiset{sqe.ud})
            && b' == b.(q := b'.q, pending := b'.pending, headers := b'.headers, status := b'.status)
  {
    SlotSearchNeverFails(b, l, at);
    ThreePerChain(b, l, at);
    if Acceptable(b, sqe) {
      var slot, ty := FirstEmpty(b.pending).value, TypeOf(sqe.opcode).value;
      var data := BufferAddr(b.shm, sqe.addr, sqe.len).value;
      var b1 := Prepare(b, slot, ty, sqe.off);
      if |l.free| >= 3 {
        ClaimTakesTop(b1, l.free, slot, ty, data, sqe);
        AllocTriple(b.q, l.free);
        var p := Some(Pending(sqe.ud, Top(l.free, 3)[0]));
        SetSlotCount(b.pending, slot, p);
        SetSlotTags(b.pending, slot, p);
      } else {
        ClaimStrands(b1, l, at, slot, ty, data, sqe);
      }
    }
  }

  // ---- What the driver leaves alone ----

  /** Header, status byte and descriptors of the request in `slot` are the same in both states. */
  ghost predicate SameRequest(b: Blk, b': Blk, l: Ledger, slot: nat)
    requires b.Wf() && b'.Wf() && slot < SLOTS
  {
    && b'.pending[slot] == b.pending[slot] && b.pending[slot].Some?
    && b'.headers[slot] == b.headers[slot] && b'.status[slot] == b.status[slot]
    && var h := b.pending[slot].value.head as int;
       h in l.chains && |l.chains[h]| == CHAIN
       && forall j :: 0 <= j < CHAIN ==>
            0 <= l.chains[h][j] < QUEUE_SIZE && b'.q.descs[l.chains[h][j]] == b.q.descs[l.chains[h][j]]
  }

  lemma LaunchLeavesChains(b: Blk, l: Ledger, e: nat, ty: u32, data: u64, len: u32, id: int)
    requires b.Wf() && Owned(b.q, CHAIN, l) && |l.free| >= 3 && e < SLOTS
    requires 0 <= id < QUEUE_SIZE && l.owner[id].InChain?
    requires forall i :: 0 <= i < 3 ==> 0 <= Top(l.free, 3)[i] < QUEUE_SIZE
    ensures Launched(b, e, ty, data, len, Top(l.free, 3)).descs[id] == b.q.descs[id]
  {
    TopIsDistinct(CHAIN, l, 3);
    assert forall i :: 0 <= i < 3 ==> OnTop(l, 3, Top(l.free, 3)[i]);
  }

  /** The chain of an occupied slot. */
  lemma SlotChain(b: Blk, l: Ledger, at: map<int, int>, slot: nat)
    requires Sound(b, l, at) && slot < SLOTS && b.pending[slot].Some?
    ensures var h := b.pending[slot].value.head as int;
            && h in l.chains && at[h] == slot && |l.chains[h]| == CHAIN
            && forall j :: 0 <= j < CHAIN ==>
                 0 <= l.chains[h][j] < QUEUE_SIZE && l.owner[l.chains[h][j]] == InChain(h, j)
  {
  }

  lemma LaunchLeavesOthers(b: Blk, l: Ledger, at: map<int, int>, e: nat, ty: u32, data: u64, sqe: Sqe, slot: nat)
    requires Sound(b, l, at) && e < SLOTS && b.pending[e].None? && slot < SLOTS && b.pending[slot].Some?
    requires |l.free| >= 3
    ensures SameRequest(b, Claim(b, e, ty, data, sqe).1, l, slot)
  {
    SlotChain(b, l, at, slot);
    TopIsDistinct(CHAIN, l, 3);
    ClaimTakesTop(b, l.free, e, ty, data, sqe);
    LaunchLeavesChain(b, l, e, ty, data, sqe.len, l.chains[b.pending[slot].value.head]);
  }

  lemma LaunchLeavesChain(b: Blk, l: Ledger, e: nat, ty: u32, data: u64, len: u32, ids: seq<int>)
    requires b.Wf() && Owned(b.q, CHAIN, l) && |l.free| >= 3 && e < SLOTS && |ids| == CHAIN
    requires forall j :: 0 <= j < CHAIN ==> 0 <= ids[j] < QUEUE_SIZE && l.owner[ids[j]].InChain?
    requires forall i :: 0 <= i < 3 ==> 0 <= Top(l.free, 3)[i] < QUEUE_SIZE
    ensures forall j :: 0 <= j < CHAIN ==>
              Launched(b, e, ty, data, len, Top(l.free, 3)).descs[ids[j]] == b.q.descs[ids[j]]
  {
    LaunchLeavesChains(b, l, e, ty, data, len, ids[0]);
    LaunchLeavesChains(b, l, e, ty, data, len, ids[1]);
    LaunchLeavesChains(b, l, e, ty, data, len, ids[2]);
  }

  lemma ClaimLeavesOthers(b: Blk, l: Ledger, at: map<int, int>, e: nat, ty: u32, data: u64, sqe: Sqe, slot: nat)
    requires Sound(b, l, at) && e < SLOTS && b.pending[e].None? && slot < SLOTS && b.pending[slot].Some?
    ensures SameRequest(b, Claim(b, e, ty, data, sqe).1, l, slot)
  {
    if |l.free| >= 3 {
      LaunchLeavesOthers(b, l, at, e, ty, data, sqe, slot);
    } else {
      SlotChain(b, l, at, slot);
      ClaimStrands(b, l, at, e, ty, data, sqe);
    }
  }

  /** Submitting one request does not touch any other request in flight. */
  lemma SubmitLeavesOthers(b: Blk, l: Ledger, at: map<int, int>, sqe: Sqe, slot: nat)
    requires Sound(b, l, at) && slot < SLOTS && b.pending[slot].Some?
    ensures SameRequest(b, SubmitRequest(b, sqe).1, l, slot)
  {
    SlotChain(b, l, at, slot);
    SlotSearchNeverFails(b, l, at);
    if Acceptable(b, sqe) {
      var e, ty := FirstEmpty(b.pending).value, TypeOf(sqe.opcode).value;
      var data := BufferAddr(b.shm, sqe.addr, sqe.len).value;
      ClaimLeavesOthers(Prepare(b, e, ty, sqe.off), l, at, e, ty, data, sqe, slot);
    }
  }

  /** Completing one request does not touch any other request in flight. */
  lemma FinishLeavesOthers(b: Blk, l: Ledger, at: map<int, int>, done: nat, slot: nat)
    requires Sound(b, l, at) && done < SLOTS && b.pending[done].Some?
    requires slot < SLOTS && b.pending[slot].Some? && slot != done
    ensures SameRequest(b, Finish(b, done), l, slot)
  {
    var g, h := b.pending[done].value.head as int, b.pending[slot].value.head as int;
    WalkIsOwnChain(b, l, at, done);
    SlotChain(b, l, at, done);
    SlotChain(b, l, at, slot);
    forall j | 0 <= j < CHAIN
      ensures FreeAll(b.q, l.chains[g]).descs[l.chains[h][j]] == b.q.descs[l.chains[h][j]]
    {
      assert l.owner[l.chains[h][j]] == InChain(h, j);
      FreeAllFrame(b.q, l.chains[g], l.chains[h][j]);
    }
  }

  // ---- Steps and runs ----

  /** One atomic step of the client, of the driver, or of the device. */
  datatype Step =
    | Arrive(sqe: Sqe)
    | TakeRequest
    | SubmitTaken
    | PopUsed
    | DeviceWrites(used: seq<UsedElem>, usedIdx: u16, status: seq<u8>)

  /**
   The device may put anything at all into the used ring, its index and the
   status bytes.  What it writes into the clients' buffers is the subject of
   BlockPayloads.dfy.
   */
  predicate Enabled(b: Blk, step: Step) {
    match step
    case Arrive(_) => true
    case TakeRequest => b.sq != []
    case SubmitTaken => b.batch != []
    case PopUsed => true
    case DeviceWrites(used, _, status) => |used| == QUEUE_SIZE && |status| == SLOTS
  }

  function Do(b: Blk, step: Step): (b': Blk)
    requires b.Wf() && Enabled(b, step)
    ensures b'.Wf()
  {
    match step
    case Arrive(sqe) => Push(b, sqe)
    case TakeRequest => FetchOne(b)
    case SubmitTaken => SubmitNext(b)
    case PopUsed => PopOne(b)
    case DeviceWrites(used, usedIdx, status) => b.(q := b.q.(used := used, usedIdx := usedIdx), status := status)
  }

  ghost predicate Run(b: Blk, steps: seq<Step>, b': Blk)
    requires b.Wf()
    decreases |steps|
  {
    if steps == [] then b' == b else Enabled(b, steps[0]) && Run(Do(b, steps[0]), steps[1..], b')
  }

  ghost predicate Initial(b: Blk) {
    && b.Wf() && b.q.descs == Linked(b.q.descs) && b.q.freeHead == 0 && b.q.numFree == QUEUE_SIZE
    && (forall i :: 0 <= i < SLOTS ==> b.pending[i].None?)
    && b.batch == [] && b.fetched == [] && b.cq == []
  }

  ghost predicate Inv(b: Blk, l: Ledger, at: map<int, int>) {
    Sound(b, l, at) && EachOnce(b)
  }

  lemma InitialKeeps(b: Blk)
    requires Initial(b)
    ensures Inv(b, FreshLedger(QUEUE_SIZE), map[])
  {
    FreshIsOwned(b.q, b.q.descs, CHAIN);
    EmptyTable(b.pending);
  }

  lemma SubmitNextKeeps(b: Blk, l: Ledger, at: map<int, int>) returns (l': Ledger, at': map<int, int>)
    requires Inv(b, l, at) && b.batch != []
    ensures Inv(SubmitNext(b), l', at')
    ensures var r := SubmitRequest(b.(batch := b.batch[1..]), b.batch[0]).0;
            if r == Submitted
            then |l.free| >= 3 && l' == Launch(l, CHAIN) && at' == at[Top(l.free, 3)[0] := FirstEmpty(b.pending).value]
            else l'.chains == l.chains && at' == at && SubmitNext(b).q.descs == b.q.descs
  {
    var sqe, b0 := b.batch[0], b.(batch := b.batch[1..]);
    assert b.batch == [sqe] + b0.batch;
    MoreTags(b0.batch, sqe);
    l', at' := SubmitKeepsSound(b0, l, at, sqe);
    SubmitOutcome(b0, l, at, sqe);
    MoreDone(b.cq, Cqe(sqe.ud, -1));
  }

  /** What the completion loop relies on when it frees the chain of `slot`. */
  lemma FinishFacts(b: Blk, l: Ledger, at: map<int, int>, slot: nat)
    requires Inv(b, l, at) && slot < SLOTS && b.pending[slot].Some?
    ensures var h := b.pending[slot].value.head as int;
            && h in l.chains && IsChain(b.q.descs, l.chains[h]) && Distinct(l.chains[h])
            && l.chains[h][0] == h && |l.chains[h]| == CHAIN && b.q.numFree + CHAIN <= QUEUE_SIZE
            && Walk(b.q.descs, h, |b.q.descs|) == l.chains[h]
            && Inv(Finish(b, slot), Retire(l, h), at - {h})
  {
    WalkIsOwnChain(b, l, at, slot);
    FinishKeepsSound(b, l, at, slot);
    FinishTags(b, slot);
    ThreePerChain(b, l, at);
    ChainIsDistinct(b, l, at, slot);
  }

  lemma FinishTags(b: Blk, slot: nat)
    requires b.Wf() && slot < SLOTS && b.pending[slot].Some? && EachOnce(b)
    ensures EachOnce(Finish(b, slot))
  {
    var ud := b.pending[slot].value.ud;
    SetSlotTags(b.pending, slot, None);
    assert PendingTags(b.pending[slot := None]) + multiset{ud} == PendingTags(b.pending);
    MoreDone(b.cq, Cqe(ud, ResultOf(b.status[slot])));
    MoveTag(multiset(DoneTags(b.cq)), PendingTags(b.pending[slot := None]), multiset{ud}, multiset(TagsOf(b.batch)));
  }

  lemma PopOneKeeps(b: Blk, l: Ledger, at: map<int, int>) returns (l': Ledger, at': map<int, int>)
    requires Inv(b, l, at)
    ensures Inv(PopOne(b), l', at')
    ensures CanPop(b.q) ==>
              var found := FindHead(b.pending, Pop(b.q).0.value.id % TWO16);
              found.Some? ==> var h := b.pending[found.value].value.head as int;
                              h in l.chains && l' == Retire(l, h) && at' == at - {h}
  {
    l', at' := l, at;
    if CanPop(b.q) {
      var b1 := b.(q := Pop(b.q).1);
      var found := FindHead(b.pending, Pop(b.q).0.value.id % TWO16);
      assert Sound(b1, l, at);
      if found.Some? {
        var h := b.pending[found.value].value.head;
        FinishKeepsSound(b1, l, at, found.value);
        FinishTags(b1, found.value);
        l', at' := Retire(l, h), at - {h};
      }
    }
  }

  /** Requests may queue up at any time. */
  lemma QueueKeeps(b: Blk, step: Step, l: Ledger, at: map<int, int>)
    requires Inv(b, l, at) && (step.Arrive? || step.TakeRequest?) && Enabled(b, step)
    ensures Inv(Do(b, step), l, at)
  {
    if step.TakeRequest? {
      MoreTags(b.batch, b.sq[0]);
      MoreTags(b.fetched, b.sq[0]);
    }
  }

  /** No invariant depends on the memory the device writes. */
  lemma DeviceKeeps(b: Blk, step: Step, l: Ledger, at: map<int, int>)
    requires Inv(b, l, at) && step.DeviceWrites? && Enabled(b, step)
    ensures Inv(Do(b, step), l, at)
  {
  }

  lemma StepKeeps(b: Blk, step: Step, l: Ledger, at: map<int, int>) returns (l': Ledger, at': map<int, int>)
    requires Inv(b, l, at) && Enabled(b, step)
    ensures Inv(Do(b, step), l', at')
  {
    l', at' := l, at;
    match step {
      case Arrive(_) =>
        QueueKeeps(b, step, l, at);
      case TakeRequest =>
        QueueKeeps(b, step, l, at);
      case SubmitTaken =>
        l', at' := SubmitNextKeeps(b, l, at);
      case PopUsed =>
        l', at' := PopOneKeeps(b, l, at);
      case DeviceWrites(_, _, _) =>
        DeviceKeeps(b, step, l, at);
    }
  }

  /** If the next used element completes a request, `ids` is the chain of that request. */
  ghost predicate PopReady(b: Blk, ids: seq<int>)
    requires b.Wf()
  {
    CanPop(b.q) ==>
      var found := FindHead(b.pending, Pop(b.q).0.value.id % TWO16);
      found.Some? ==>
        && IsChain(b.q.descs, ids) && Distinct(ids) && ids[0] == b.pending[found.value].value.head
        && Walk(b.q.descs, ids[0], QUEUE_SIZE) == ids && b.q.numFree + |ids| < TWO16
  }

  lemma PopIsReady(b: Blk, l: Ledger, at: map<int, int>) returns (ids: seq<int>)
    requires Inv(b, l, at)
    ensures PopReady(b, ids)
  {
    ids := [];
    if CanPop(b.q) {
      var found := FindHead(b.pending, Pop(b.q).0.value.id % TWO16);
      if found.Some? {
        FinishFacts(b, l, at, found.value);
        ids := l.chains[b.pending[found.value].value.head];
      }
    }
  }

  lemma PopFacts(b: Blk, l: Ledger, at: map<int, int>) returns (ids: seq<int>, l': Ledger, at': map<int, int>)
    requires Inv(b, l, at)
    ensures PopReady(b, ids) && Inv(PopOne(b), l', at')
  {
    ids := PopIsReady(b, l, at);
    l', at' := PopOneKeeps(b, l, at);
  }

  lemma {:induction false} FetchKeeps(b: Blk, n: nat, l: Ledger, at: map<int, int>)
    requires Inv(b, l, at)
    ensures Inv(Fetch(b, n), l, at)
    decreases |b.sq|
  {
    if n > 0 && b.sq != [] {
      QueueKeeps(b, TakeRequest, l, at);
      FetchKeeps(FetchOne(b), n - 1, l, at);
    }
  }

  lemma {:induction false} SubmitBatchKeeps(b: Blk, l: Ledger, at: map<int, int>)
      returns (l': Ledger, at': map<int, int>)
    requires Inv(b, l, at)
    ensures Inv(SubmitBatch(b), l', at')
    decreases |b.batch|
  {
    l', at' := l, at;
    if b.batch != [] {
      l', at' := SubmitNextKeeps(b, l, at);
      l', at' := SubmitBatchKeeps(SubmitNext(b), l', at');
    }
  }

  lemma FetchAndSubmitKeeps(b: Blk, n: nat, l: Ledger, at: map<int, int>) returns (l': Ledger, at': map<int, int>)
    requires Inv(b, l, at)
    ensures Inv(SubmitBatch(Fetch(b, n)), l', at')
  {
    FetchKeeps(b, n, l, at);
    l', at' := SubmitBatchKeeps(Fetch(b, n), l, at);
  }

  lemma {:induction false} RunKeeps(b: Blk, steps: seq<Step>, b': Blk, l: Ledger, at: map<int, int>)
      returns (l': Ledger, at': map<int, int>)
    requires Inv(b, l, at) && Run(b, steps, b')
    ensures Inv(b', l', at')
    decreases |steps|
  {
    l', at' := l, at;
    if steps != [] {
      l', at' := StepKeeps(b, steps[0], l, at);
      l', at' := RunKeeps(Do(b, steps[0]), steps[1..], b', l', at');
    }
  }

  /**
   The law of every reachable state, whatever the device writes into used ring
   and status bytes: the 128 descriptors are the free list, one chain of three
   per occupied slot, and none or two lost ones; every request fetched is
   completed, in flight or still to be submitted, exactly once.
   */
  lemma EveryRun(b: Blk, steps: seq<Step>, b': Blk) returns (l: Ledger, at: map<int, int>)
    requires Initial(b) && Run(b, steps, b')
    ensures Inv(b', l, at)
    ensures b'.q.numFree + 3 * Count(b'.pending) + |l.lost| == 128
    ensures |l.lost| == 0 <==> b'.q.numFree % 3 == 2
    ensures |l.lost| == 2 <==> b'.q.numFree % 3 == 0
    ensures FirstEmpty(b'.pending).Some? && Count(b'.pending) <= 42
  {
    InitialKeeps(b);
    l, at := RunKeeps(b, steps, b', FreshLedger(QUEUE_SIZE), map[]);
    ThreePerChain(b', l, at);
    FreeCountModThree(b'.q.numFree, Count(b'.pending), |l.lost|);
    SlotSearchNeverFails(b', l, at);
  }

  // ---- The driver's entry points are runs of these steps ----

  lemma {:induction false} RunsCompose(a: Blk, s: seq<Step>, b: Blk, t: seq<Step>, c: Blk)
    requires a.Wf() && Run(a, s, b) && b.Wf() && Run(b, t, c)
    ensures Run(a, s + t, c)
    decreases |s|
  {
    if s == [] {
      assert s + t == t;
    } else {
      RunsCompose(Do(a, s[0]), s[1..], b, t, c);
      RunCons(a, s[0], s[1..] + t, c);
      assert s + t == [s[0]] + (s[1..] + t);
    }
  }

  lemma RunCons(a: Blk, step: Step, rest: seq<Step>, c: Blk)
    requires a.Wf() && Enabled(a, step) && Run(Do(a, step), rest, c)
    ensures Run(a, [step] + rest, c)
  {
    assert ([step] + rest)[1..] == rest;
  }

  /** The driver's own steps, one after the other. */
  predicate DriverOnly(steps: seq<Step>) {
    forall i :: 0 <= i < |steps| ==> steps[i].TakeRequest? || steps[i].SubmitTaken? || steps[i].PopUsed?
  }

  /** A whole drain of the used ring is a run of pops. */
  lemma {:induction false} PopAllIsRun(b: Blk) returns (steps: seq<Step>)
    requires b.Wf()
    ensures Run(b, steps, PopAll(b)) && forall i :: 0 <= i < |steps| ==> steps[i] == PopUsed
    decreases Rings.Outstanding(b.q.lastUsed, b.q.usedIdx)
  {
    steps := [];
    if CanPop(b.q) {
      PopOneAdvances(b);
      var rest := PopAllIsRun(PopOne(b));
      steps := [PopUsed] + rest;
      assert steps[1..] == rest;
    }
  }

  lemma {:induction false} FetchIsRun(b: Blk, n: nat) returns (steps: seq<Step>)
    requires b.Wf()
    ensures Run(b, steps, Fetch(b, n)) && DriverOnly(steps)
    decreases |b.sq|
  {
    steps := [];
    if n > 0 && b.sq != [] {
      var rest := FetchIsRun(FetchOne(b), n - 1);
      steps := [TakeRequest] + rest;
      assert steps[1..] == rest;
    }
  }

  lemma {:induction false} SubmitBatchIsRun(b: Blk) returns (steps: seq<Step>)
    requires b.Wf()
    ensures Run(b, steps, SubmitBatch(b)) && SubmitBatch(b).batch == [] && DriverOnly(steps)
    decreases |b.batch|
  {
    steps := [];
    if b.batch != [] {
      var rest := SubmitBatchIsRun(SubmitNext(b));
      steps := [SubmitTaken] + rest;
      assert steps[1..] == rest;
    }
  }

  lemma FetchAndSubmitIsRun(b: Blk) returns (steps: seq<Step>)
    requires b.Wf()
    ensures Run(b, steps, SubmitBatch(Fetch(b, BATCH))) && DriverOnly(steps)
  {
    var fetch := FetchIsRun(b, BATCH);
    var submit := SubmitBatchIsRun(Fetch(b, BATCH));
    RunsCompose(b, fetch, Fetch(b, BATCH), submit, SubmitBatch(Fetch(b, BATCH)));
    steps := fetch + submit;
  }

  /** A wake-up by the client is a run of the driver alone, so everything proved of runs holds after it. */
  lemma HandleRingIsRun(b: Blk) returns (steps: seq<Step>)
    requires b.Wf() && b.batch == []
    ensures Run(b, steps, HandleRing(b)) && DriverOnly(steps)
  {
    var b1 := Fetch(b, BATCH);
    var b2 := SubmitBatch(b1);
    steps := FetchAndSubmitIsRun(b);
    if |b1.batch| > 0 {
      var pop := PopAllIsRun(b2);
      RunsCompose(b, steps, b2, pop, PopAll(b2));
      steps := steps + pop;
    }
  }

  lemma {:induction false} SubmitBatchEmpties(b: Blk)
    requires b.Wf()
    ensures var b' := SubmitBatch(b);
            && b'.batch == [] && b'.sq == b.sq && b'.fetched == b.fetched
            && b'.q.used == b.q.used && b'.q.usedIdx == b.q.usedIdx && b'.q.lastUsed == b.q.lastUsed
    decreases |b.batch|
  {
    if b.batch != [] {
      SubmitNextTakes(b);
      SubmitBatchEmpties(SubmitNext(b));
    }
  }

  /** One submission takes the oldest request of the batch, and answers a refused one with -1 at once. */
  lemma SubmitNextTakes(b: Blk)
    requires b.Wf() && b.batch != []
    ensures var b', sqe := SubmitNext(b), b.batch[0];
            var r := SubmitRequest(b.(batch := b.batch[1..]), sqe).0;
            && b'.batch == b.batch[1..] && b'.sq == b.sq && b'.fetched == b.fetched
            && b'.q.used == b.q.used && b'.q.usedIdx == b.q.usedIdx && b'.q.lastUsed == b.q.lastUsed
            && b'.cq == if r == Submitted then b.cq else b.cq + [Cqe(sqe.ud, -1)]
  {
  }

  lemma {:induction false} PopAllLeavesRequests(b: Blk)
    requires b.Wf()
    ensures var b' := PopAll(b); b'.batch == b.batch && b'.sq == b.sq && b'.fetched == b.fetched
    decreases Rings.Outstanding(b.q.lastUsed, b.q.usedIdx)
  {
    if CanPop(b.q) {
      PopOneAdvances(b);
      PopAllLeavesRequests(PopOne(b));
    }
  }

  /**
   One wake-up takes the first sixteen requests, or as many as there are,
   submits them all, and, if there were any, drains the used ring.
   */
  lemma WakeUp(b: Blk)
    requires b.Wf() && b.batch == []
    ensures var b', n := HandleRing(b), Min(16, |b.sq|);
            && b'.sq == b.sq[n..] && b'.fetched == b.fetched + b.sq[..n] && b'.batch == []
            && (n > 0 ==> !CanPop(b'.q)) && (n == 0 ==> b' == b)
  {
    var b1 := Fetch(b, BATCH);
    FetchTakes(b, BATCH);
    SubmitBatchEmpties(b1);
    PopAllLeavesRequests(SubmitBatch(b1));
    assert b.batch + b.sq[..Min(16, |b.sq|)] == b.sq[..Min(16, |b.sq|)];
  }
}
