/**
 The driver's half of a split virtqueue (VirtIO 1.1, section 2.6) as a value:
 the descriptor table with the free list threaded through it, the two rings,
 and the operations of `VirtQueue` as functions.  The class in
 VirtQueueDriver.dfy updates the same state in place.
 */
module VirtQueues {
  import opened Base
  import Rings

  const DESC_F_NEXT: u16 := 1
  const DESC_F_WRITE: u16 := 2

  datatype Descriptor = Descriptor(addr: u64, len: u32, flags: u16, next: u16) {
    /** flags & DESC_F_NEXT */
    predicate HasNext() { flags % 2 == 1 }
    /** flags & DESC_F_WRITE */
    predicate DeviceWrites() { flags / 2 % 2 == 1 }
  }

  datatype UsedElem = UsedElem(id: u32, len: u32)

  datatype VQ = VQ(num: u16, descs: seq<Descriptor>, freeHead: u16, numFree: nat, lastUsed: u16,
                   avail: seq<u16>, availIdx: u16, used: seq<UsedElem>, usedIdx: u16)
  {
    /** The table and the rings have the queue's size, and every link is an index into the table. */
    predicate Wf() {
      && 0 < num && |descs| == |avail| == |used| == num
      && freeHead < num
      && forall i :: 0 <= i < num ==> descs[i].next < num
    }
  }

  /** The table after initialisation: every descriptor links to its neighbour, the last one ends the list. */
  function Linked(table: seq<Descriptor>): (descs: seq<Descriptor>)
    requires |table| < TWO16
  {
    seq(|table|, i requires 0 <= i < |table| =>
      if i + 1 < |table| then table[i].(next := i + 1, flags := DESC_F_NEXT)
      else table[i].(next := 0, flags := 0))
  }

  function Alloc(q: VQ): (r: (Option<u16>, VQ))
    requires q.Wf()
    ensures r.1.Wf()
  {
    if q.numFree == 0 then (None, q)
    else (Some(q.freeHead), q.(freeHead := q.descs[q.freeHead].next, numFree := q.numFree - 1))
  }

  function Free(q: VQ, id: int): (q': VQ)
    requires 0 <= id < |q.descs| < TWO16
    ensures q.Wf() ==> q'.Wf()
  {
    q.(descs := q.descs[id := q.descs[id].(next := q.freeHead, flags := DESC_F_NEXT)],
       freeHead := id, numFree := q.numFree + 1)
  }

  function Write(q: VQ, id: int, d: Descriptor): (q': VQ)
    requires 0 <= id < |q.descs|
    ensures q.Wf() && d.next < q.num ==> q'.Wf()
  {
    q.(descs := q.descs[id := d])
  }

  function Submit(q: VQ, head: u16): VQ
    requires |q.avail| > 0
  {
    q.(avail := q.avail[q.availIdx % |q.avail| := head], availIdx := Rings.Succ(q.availIdx))
  }

  predicate CanPop(q: VQ) {
    q.lastUsed != q.usedIdx
  }

  function Pop(q: VQ): (r: (Option<UsedElem>, VQ))
    requires |q.used| > 0
  {
    if !CanPop(q) then (None, q)
    else (Some(q.used[q.lastUsed % |q.used|]), q.(lastUsed := Rings.Succ(q.lastUsed)))
  }

  /** The ids a completion loop visits: follow `next` while the NEXT flag is set. */
  function Walk(descs: seq<Descriptor>, head: int, fuel: nat): (ids: seq<int>)
    ensures forall i :: 0 <= i < |ids| ==> 0 <= ids[i] < |descs|
    decreases fuel
  {
    if !(0 <= head < |descs|) then []
    else if descs[head].HasNext() && fuel > 0 then [head] + Walk(descs, descs[head].next, fuel - 1)
    else [head]
  }

  function FreeAll(q: VQ, ids: seq<int>): (q': VQ)
    requires |q.descs| < TWO16 && forall i :: 0 <= i < |ids| ==> 0 <= ids[i] < |q.descs|
    ensures |q'.descs| == |q.descs| && (q.Wf() ==> q'.Wf())
    ensures q' == q.(descs := q'.descs, freeHead := q'.freeHead, numFree := q.numFree + |ids|)
    decreases |ids|
  {
    if ids == [] then q else Free(FreeAll(q, ids[..|ids| - 1]), ids[|ids| - 1])
  }

  // ---- Who owns which descriptor ----

  /** The one place of a descriptor, with its position there. */
  datatype Owner = OnFreeList(depth: nat) | InChain(head: int, pos: nat) | Lost(index: nat)

  /**
   An account of all descriptors: the free list as a stack (its top is last),
   the chains handed to the device by their heads, and the descriptors that
   were allocated and then abandoned.
   */
  datatype Ledger = Ledger(free: seq<int>, chains: map<int, seq<int>>, lost: seq<int>, owner: seq<Owner>) {
    /** The recorded place of `id` is where it really is. */
    ghost predicate Placed(k: nat, id: int) {
      && 0 <= id < |owner|
      && match owner[id]
         case OnFreeList(i) => i < |free| && free[i] == id
         case InChain(h, i) => h in chains && i < k && |chains[h]| == k && chains[h][i] == id
         case Lost(i) => i < |lost| && lost[i] == id
    }
  }

  /** Walking `next` from `freeHead` for `numFree` steps visits `free` from its top down. */
  ghost predicate FreeListIs(q: VQ, free: seq<int>) {
    && |free| == q.numFree
    && (forall i :: 0 <= i < |free| ==> 0 <= free[i] < |q.descs|)
    && (free != [] ==> free[|free| - 1] == q.freeHead)
    && forall i {:trigger q.descs[free[i]]} :: 0 < i < |free| ==> q.descs[free[i]].next == free[i - 1]
  }

  /** `ids` is linked by NEXT flags, and its last descriptor ends the chain. */
  ghost predicate IsChain(descs: seq<Descriptor>, ids: seq<int>) {
    && ids != []
    && (forall i :: 0 <= i < |ids| ==> 0 <= ids[i] < |descs|)
    && (forall i {:trigger descs[ids[i]]} :: 0 <= i < |ids| - 1 ==>
          descs[ids[i]].HasNext() && descs[ids[i]].next == ids[i + 1])
    && !descs[ids[|ids| - 1]].HasNext()
  }

  /** What the account lists is recorded at its place. */
  ghost predicate Listed(k: nat, l: Ledger) {
    && (forall i :: 0 <= i < |l.free| ==> 0 <= l.free[i] < |l.owner| && l.owner[l.free[i]] == OnFreeList(i))
    && (forall i :: 0 <= i < |l.lost| ==> 0 <= l.lost[i] < |l.owner| && l.owner[l.lost[i]] == Lost(i))
    && (forall h :: h in l.chains ==> |l.chains[h]| == k && (k > 0 ==> l.chains[h][0] == h))
    && (forall h, i :: h in l.chains && 0 <= i < k ==>
          0 <= l.chains[h][i] < |l.owner| && l.owner[l.chains[h][i]] == InChain(h, i))
  }

  ghost predicate ChainsLinked(descs: seq<Descriptor>, l: Ledger) {
    forall h :: h in l.chains ==> IsChain(descs, l.chains[h])
  }

  /** Every descriptor is in the free list, in one chain of `k` descriptors, or lost; and they add up. */
  ghost predicate Account(num: int, k: nat, l: Ledger) {
    && |l.owner| == num
    && Listed(k, l)
    && (forall id :: 0 <= id < num ==> l.Placed(k, id))
    && |l.free| + Groups(k, |l.chains|) + |l.lost| == num
  }

  ghost predicate Owned(q: VQ, k: nat, l: Ledger) {
    q.Wf() && FreeListIs(q, l.free) && Account(q.num, k, l) && ChainsLinked(q.descs, l)
  }

  /** The free list, the chains and the lost descriptors share nothing. */
  lemma OwnersAreDisjoint(num: int, k: nat, l: Ledger)
    requires Account(num, k, l)
    ensures Distinct(l.free) && Distinct(l.lost)
    ensures forall h :: h in l.chains ==> |l.chains[h]| == k && Distinct(l.chains[h])
    ensures forall g, h :: g in l.chains && h in l.chains && g != h ==>
              forall id :: !(id in l.chains[g] && id in l.chains[h])
    ensures forall id :: !(id in l.free && id in l.lost)
    ensures forall h, id :: h in l.chains && id in l.chains[h] ==> id !in l.free && id !in l.lost
  {
  }

  /** Every descriptor is in one of them. */
  lemma OwnersCoverTable(num: int, k: nat, l: Ledger, id: int)
    requires Account(num, k, l) && 0 <= id < num
    ensures id in l.free || id in l.lost || exists h :: h in l.chains && id in l.chains[h]
  {
    assert l.Placed(k, id);
  }

  // ---- Single operations on the free list ----

  lemma AllocTakesTop(q: VQ, free: seq<int>)
    requires q.Wf() && FreeListIs(q, free)
    ensures free == [] ==> Alloc(q) == (None, q)
    ensures free != [] ==>
              var n := |free| - 1;
              Alloc(q).0 == Some(free[n]) && Alloc(q).1.Wf() && FreeListIs(Alloc(q).1, free[..n])
  {
    if |free| > 1 {
      assert q.descs[free[|free| - 1]].next == free[|free| - 2];
    }
  }

  lemma FreeListFrame(q: VQ, q': VQ, free: seq<int>)
    requires FreeListIs(q, free)
    requires |q'.descs| == |q.descs| && q'.freeHead == q.freeHead && q'.numFree == q.numFree
    requires forall i :: 0 <= i < |free| ==> q'.descs[free[i]] == q.descs[free[i]]
    ensures FreeListIs(q', free)
  {
  }

  lemma FreePutsTop(q: VQ, free: seq<int>, id: int)
    requires FreeListIs(q, free) && 0 <= id < |q.descs| < TWO16
    requires forall i :: 0 <= i < |free| ==> free[i] != id
    ensures FreeListIs(Free(q, id), free + [id])
  {
  }

  lemma {:induction false} FreeAllFrame(q: VQ, ids: seq<int>, id: int)
    requires forall i :: 0 <= i < |ids| ==> 0 <= ids[i] < |q.descs| && ids[i] != id
    requires 0 <= id < |q.descs| < TWO16
    ensures FreeAll(q, ids).descs[id] == q.descs[id]
    decreases |ids|
  {
    if ids != [] {
      FreeAllFrame(q, ids[..|ids| - 1], id);
    }
  }

  lemma FreeOneMore(q: VQ, free: seq<int>, ids: seq<int>, n: nat)
    requires |ids| == n + 1 && FreeListIs(q, free + ids[..n]) && 0 <= ids[n] < |q.descs| < TWO16
    requires Distinct(free + ids)
    ensures FreeListIs(Free(q, ids[n]), free + ids)
  {
    var all := free + ids;
    assert free + ids[..n] == all[..|free| + n] && ids[n] == all[|free| + n];
    DistinctPrefix(all, |free| + n);
    FreePutsTop(q, free + ids[..n], ids[n]);
    assert all == free + ids[..n] + [ids[n]];
  }

  lemma {:induction false} FreeAllPutsTop(q: VQ, free: seq<int>, ids: seq<int>)
    requires FreeListIs(q, free) && |q.descs| < TWO16
    requires forall i :: 0 <= i < |ids| ==> 0 <= ids[i] < |q.descs|
    requires Distinct(free + ids)
    ensures FreeListIs(FreeAll(q, ids), free + ids)
    decreases |ids|
  {
    if ids == [] {
      assert free + ids == free;
    } else {
      var n := |ids| - 1;
      assert Distinct(free + ids[..n]) by {
        assert free + ids[..n] == (free + ids)[..|free| + n];
      }
      FreeAllPutsTop(q, free, ids[..n]);
      FreeOneMore(FreeAll(q, ids[..n]), free, ids, n);
    }
  }

  lemma ChainFrame(descs: seq<Descriptor>, descs': seq<Descriptor>, ids: seq<int>)
    requires IsChain(descs, ids) && |descs'| == |descs|
    requires forall i :: 0 <= i < |ids| ==> descs'[ids[i]] == descs[ids[i]]
    ensures IsChain(descs', ids)
  {
  }

  /** On a proper chain the flag-following walk visits the chain, all of it and nothing else. */
  lemma {:induction false} WalkVisitsChain(descs: seq<Descriptor>, ids: seq<int>, fuel: nat)
    requires IsChain(descs, ids) && fuel >= |ids| - 1
    ensures Walk(descs, ids[0], fuel) == ids
    decreases |ids|
  {
    if |ids| > 1 {
      WalkVisitsChain(descs, ids[1..], fuel - 1);
    }
  }

  /** Two allocations in a row. */
  lemma AllocPair(q: VQ, free: seq<int>)
    requires q.Wf() && FreeListIs(q, free) && |free| >= 2
    ensures var n := |free|; var (d1, q1) := Alloc(q); var (d2, q2) := Alloc(q1);
            d1 == Some(free[n - 1]) && d2 == Some(free[n - 2]) && FreeListIs(q2, free[..n - 2])
  {
    AllocTakesTop(q, free);
    AllocTakesTop(Alloc(q).1, free[..|free| - 1]);
    assert free[..|free| - 1][..|free| - 2] == free[..|free| - 2];
  }

  /** Three allocations in a row. */
  lemma AllocTriple(q: VQ, free: seq<int>)
    requires q.Wf() && FreeListIs(q, free) && |free| >= 3
    ensures var n := |free|; var (d1, q1) := Alloc(q); var (d2, q2) := Alloc(q1); var (d3, q3) := Alloc(q2);
            d1 == Some(free[n - 1]) && d2 == Some(free[n - 2]) && d3 == Some(free[n - 3])
            && FreeListIs(q3, free[..n - 3])
  {
    AllocPair(q, free);
    AllocTakesTop(Alloc(Alloc(q).1).1, free[..|free| - 2]);
    assert free[..|free| - 2][..|free| - 3] == free[..|free| - 3];
  }

  // ---- Moving descriptors between the owners ----

  /** The next `k` descriptors that allocation will return, in that order. */
  ghost function Top(free: seq<int>, k: nat): seq<int>
    requires k <= |free|
  {
    seq(k, i requires 0 <= i < k => free[|free| - 1 - i])
  }

  ghost function Launch(l: Ledger, k: nat): Ledger
    requires 0 < k <= |l.free|
  {
    var n := |l.free|;
    var ids := Top(l.free, k);
    l.(free := l.free[..n - k], chains := l.chains[ids[0] := ids],
       owner := seq(|l.owner|, i requires 0 <= i < |l.owner| =>
         if l.owner[i].OnFreeList? && n - k <= l.owner[i].depth < n
         then InChain(ids[0], n - 1 - l.owner[i].depth) else l.owner[i]))
  }

  lemma FreeIsNoHead(k: nat, l: Ledger, i: nat)
    requires Listed(k, l) && k > 0 && i < |l.free|
    ensures l.free[i] !in l.chains
  {
    assert forall h :: h in l.chains ==> l.owner[l.chains[h][0]] == InChain(h, 0);
  }

  lemma LaunchLists(k: nat, l: Ledger)
    requires Listed(k, l) && 0 < k <= |l.free|
    ensures Listed(k, Launch(l, k))
  {
    var n, ids, l' := |l.free|, Top(l.free, k), Launch(l, k);
    FreeIsNoHead(k, l, n - 1);
    forall i | 0 <= i < k ensures l'.owner[ids[i]] == InChain(ids[0], i) {
      var depth := n - 1 - i;
      assert l.owner[l.free[depth]] == OnFreeList(depth);
    }
  }

  lemma LaunchPlaces(k: nat, l: Ledger, id: int)
    requires 0 < k <= |l.free| && l.Placed(k, id)
    requires l.free[|l.free| - 1] !in l.chains
    ensures Launch(l, k).Placed(k, id)
  {
  }

  lemma LaunchKeepsAccount(num: int, k: nat, l: Ledger)
    requires Account(num, k, l) && 0 < k <= |l.free|
    ensures l.free[|l.free| - 1] !in l.chains
    ensures Account(num, k, Launch(l, k))
  {
    var head := l.free[|l.free| - 1];
    FreeIsNoHead(k, l, |l.free| - 1);
    LaunchLists(k, l);
    forall id | 0 <= id < num ensures Launch(l, k).Placed(k, id) {
      LaunchPlaces(k, l, id);
    }
    MapGrows(l.chains, head, Top(l.free, k));
  }

  /** A chain keeps its links while no descriptor of a chain is written. */
  lemma ChainSurvives(descs: seq<Descriptor>, descs': seq<Descriptor>, k: nat, l: Ledger, h: int)
    requires Listed(k, l) && h in l.chains && IsChain(descs, l.chains[h])
    requires |descs'| == |descs| == |l.owner|
    requires forall id {:trigger descs'[id]} :: 0 <= id < |descs| && l.owner[id].InChain? ==> descs'[id] == descs[id]
    ensures IsChain(descs', l.chains[h])
  {
    var ids := l.chains[h];
    forall i | 0 <= i < k ensures descs'[ids[i]] == descs[ids[i]] {
      assert l.owner[ids[i]] == InChain(h, i);
    }
    ChainFrame(descs, descs', ids);
  }

  lemma LaunchLinks(descs: seq<Descriptor>, descs': seq<Descriptor>, k: nat, l: Ledger)
    requires Listed(k, l) && ChainsLinked(descs, l) && 0 < k <= |l.free|
    requires |descs'| == |descs| == |l.owner|
    requires forall id {:trigger descs'[id]} :: 0 <= id < |descs| && l.owner[id].InChain? ==> descs'[id] == descs[id]
    requires IsChain(descs', Top(l.free, k))
    ensures ChainsLinked(descs', Launch(l, k))
  {
    forall h | h in l.chains ensures IsChain(descs', l.chains[h]) {
      ChainSurvives(descs, descs', k, l, h);
    }
  }

  /** The first `k` free descriptors were allocated, written as a chain, and nothing else changed. */
  lemma LaunchKeepsOwned(q: VQ, q': VQ, k: nat, l: Ledger)
    requires Owned(q, k, l) && 0 < k <= |l.free|
    requires q'.Wf() && q'.num == q.num
    requires FreeListIs(q', l.free[..|l.free| - k])
    requires forall id {:trigger q'.descs[id]} :: 0 <= id < q.num && l.owner[id].InChain? ==>
               q'.descs[id] == q.descs[id]
    requires IsChain(q'.descs, Top(l.free, k))
    ensures q.freeHead !in l.chains
    ensures Owned(q', k, Launch(l, k))
  {
    LaunchKeepsAccount(q.num, k, l);
    LaunchLinks(q.descs, q'.descs, k, l);
  }

  /** `id` is one of the next `k` descriptors that allocation returns. */
  ghost predicate OnTop(l: Ledger, k: nat, id: int)
    requires 0 <= id < |l.owner|
  {
    l.owner[id].OnFreeList? && l.owner[id].depth >= |l.free| - k
  }

  /** Taking `k` descriptors, `qk`, and writing only them, as a chain. */
  lemma LaunchChain(q: VQ, qk: VQ, descs': seq<Descriptor>, k: nat, l: Ledger)
    requires Owned(q, k, l) && 0 < k <= |l.free|
    requires FreeListIs(qk, l.free[..|l.free| - k]) && qk.Wf() && qk.num == q.num && qk.descs == q.descs
    requires |descs'| == q.num && forall i :: 0 <= i < q.num ==> descs'[i].next < q.num
    requires forall id {:trigger descs'[id]} :: 0 <= id < q.num && !OnTop(l, k, id) ==> descs'[id] == q.descs[id]
    requires IsChain(descs', Top(l.free, k))
    ensures q.freeHead !in l.chains
    ensures Owned(qk.(descs := descs'), k, Launch(l, k))
  {
    var n, q' := |l.free|, qk.(descs := descs');
    forall i | 0 <= i < n - k ensures descs'[l.free[i]] == q.descs[l.free[i]] {
      assert l.owner[l.free[i]] == OnFreeList(i);
    }
    FreeListFrame(qk, q', l.free[..n - k]);
    LaunchKeepsOwned(q, q', k, l);
  }

  /** Writing two descriptors that link makes a chain and leaves the others alone. */
  lemma WritePair(descs: seq<Descriptor>, ids: seq<int>, x0: Descriptor, x1: Descriptor)
    requires |ids| == 2 && Distinct(ids) && forall i :: 0 <= i < 2 ==> 0 <= ids[i] < |descs|
    requires x0.HasNext() && x0.next == ids[1] && !x1.HasNext() && x1.next < |descs|
    requires forall i :: 0 <= i < |descs| ==> descs[i].next < |descs|
    ensures var descs' := descs[ids[0] := x0][ids[1] := x1];
            && IsChain(descs', ids)
            && (forall i :: 0 <= i < |descs| ==> descs'[i].next < |descs|)
            && (forall i {:trigger descs'[i]} :: 0 <= i < |descs| && i != ids[0] && i != ids[1] ==>
                  descs'[i] == descs[i])
  {
  }

  lemma WriteTriple(descs: seq<Descriptor>, ids: seq<int>, x0: Descriptor, x1: Descriptor, x2: Descriptor)
    requires |ids| == 3 && Distinct(ids) && forall i :: 0 <= i < 3 ==> 0 <= ids[i] < |descs|
    requires x0.HasNext() && x0.next == ids[1] && x1.HasNext() && x1.next == ids[2]
    requires !x2.HasNext() && x2.next < |descs|
    requires forall i :: 0 <= i < |descs| ==> descs[i].next < |descs|
    ensures var descs' := descs[ids[0] := x0][ids[1] := x1][ids[2] := x2];
            && IsChain(descs', ids)
            && (forall i :: 0 <= i < |descs| ==> descs'[i].next < |descs|)
            && (forall i {:trigger descs'[i]} :: 0 <= i < |descs| && i != ids[0] && i != ids[1] && i != ids[2] ==>
                  descs'[i] == descs[i])
  {
  }

  lemma TopIsDistinct(k: nat, l: Ledger, j: nat)
    requires Listed(k, l) && j <= |l.free|
    ensures Distinct(Top(l.free, j))
    ensures forall i :: 0 <= i < j ==> 0 <= Top(l.free, j)[i] < |l.owner| && OnTop(l, j, Top(l.free, j)[i])
  {
    var n := |l.free|;
    forall i | 0 <= i < j
      ensures 0 <= Top(l.free, j)[i] < |l.owner| && l.owner[Top(l.free, j)[i]] == OnFreeList(n - 1 - i)
    {
      var depth := n - 1 - i;
      assert l.owner[l.free[depth]] == OnFreeList(depth);
    }
  }

  /** A chain of two: allocate two, write both, link the first to the second. */
  lemma LaunchPair(q: VQ, l: Ledger, x0: Descriptor, x1: Descriptor)
    requires Owned(q, 2, l) && |l.free| >= 2
    requires x0.HasNext() && x0.next == l.free[|l.free| - 2] && !x1.HasNext() && x1.next < q.num
    ensures q.freeHead !in l.chains && l.free[|l.free| - 1] == q.freeHead
    ensures var q2 := Alloc(Alloc(q).1).1; var ids := Top(l.free, 2);
            Owned(q2.(descs := q.descs[ids[0] := x0][ids[1] := x1]), 2, Launch(l, 2))
  {
    var ids := Top(l.free, 2);
    AllocPair(q, l.free);
    TopIsDistinct(2, l, 2);
    WritePair(q.descs, ids, x0, x1);
    LaunchChain(q, Alloc(Alloc(q).1).1, q.descs[ids[0] := x0][ids[1] := x1], 2, l);
  }

  /** A chain of three. */
  lemma LaunchTriple(q: VQ, l: Ledger, x0: Descriptor, x1: Descriptor, x2: Descriptor)
    requires Owned(q, 3, l) && |l.free| >= 3
    requires x0.HasNext() && x0.next == l.free[|l.free| - 2]
    requires x1.HasNext() && x1.next == l.free[|l.free| - 3]
    requires !x2.HasNext() && x2.next < q.num
    ensures q.freeHead !in l.chains && l.free[|l.free| - 1] == q.freeHead
    ensures var q3 := Alloc(Alloc(Alloc(q).1).1).1; var ids := Top(l.free, 3);
            Owned(q3.(descs := q.descs[ids[0] := x0][ids[1] := x1][ids[2] := x2]), 3, Launch(l, 3))
  {
    var ids := Top(l.free, 3);
    AllocTriple(q, l.free);
    TopIsDistinct(3, l, 3);
    WriteTriple(q.descs, ids, x0, x1, x2);
    LaunchChain(q, Alloc(Alloc(Alloc(q).1).1).1, q.descs[ids[0] := x0][ids[1] := x1][ids[2] := x2], 3, l);
  }

  /** Telling the device about a head does not move any descriptor. */
  lemma SubmitKeepsOwned(q: VQ, k: nat, l: Ledger, head: u16)
    requires Owned(q, k, l)
    ensures Owned(Submit(q, head), k, l)
  {
    var q' := Submit(q, head);
    assert FreeListIs(q', l.free);
  }

  ghost function Abandon(l: Ledger, k: nat): Ledger
    requires k <= |l.free|
  {
    var n, m := |l.free|, |l.lost|;
    l.(free := l.free[..n - k], lost := l.lost + Top(l.free, k),
       owner := seq(|l.owner|, i requires 0 <= i < |l.owner| =>
         if l.owner[i].OnFreeList? && n - k <= l.owner[i].depth < n
         then Lost(m + n - 1 - l.owner[i].depth) else l.owner[i]))
  }

  lemma AbandonLists(k: nat, l: Ledger, j: nat)
    requires Listed(k, l) && j <= |l.free|
    ensures Listed(k, Abandon(l, j))
  {
    var n, m, l' := |l.free|, |l.lost|, Abandon(l, j);
    forall i | m <= i < m + j ensures l'.owner[l'.lost[i]] == Lost(i) {
      var depth := n - 1 - (i - m);
      assert l.owner[l.free[depth]] == OnFreeList(depth);
    }
  }

  lemma AbandonPlaces(k: nat, l: Ledger, j: nat, id: int)
    requires j <= |l.free| && l.Placed(k, id)
    ensures Abandon(l, j).Placed(k, id)
  {
  }

  lemma AbandonKeepsAccount(num: int, k: nat, l: Ledger, j: nat)
    requires Account(num, k, l) && j <= |l.free|
    ensures Account(num, k, Abandon(l, j))
  {
    AbandonLists(k, l, j);
    forall id | 0 <= id < num ensures Abandon(l, j).Placed(k, id) {
      AbandonPlaces(k, l, j, id);
    }
  }

  /** The first `j` free descriptors were allocated and then forgotten. */
  lemma AbandonKeepsOwned(q: VQ, q': VQ, k: nat, l: Ledger, j: nat)
    requires Owned(q, k, l) && j <= |l.free|
    requires q'.Wf() && q'.num == q.num && q'.descs == q.descs
    requires FreeListIs(q', l.free[..|l.free| - j])
    ensures Owned(q', k, Abandon(l, j))
  {
    AbandonKeepsAccount(q.num, k, l, j);
  }

  ghost function Retire(l: Ledger, head: int): Ledger
    requires head in l.chains
  {
    var n := |l.free|;
    l.(free := l.free + l.chains[head], chains := l.chains - {head},
       owner := seq(|l.owner|, i requires 0 <= i < |l.owner| =>
         if l.owner[i].InChain? && l.owner[i].head == head
         then OnFreeList(n + l.owner[i].pos) else l.owner[i]))
  }

  lemma RetireLists(k: nat, l: Ledger, head: int)
    requires Listed(k, l) && head in l.chains
    ensures Listed(k, Retire(l, head))
  {
    var n, ids, l' := |l.free|, l.chains[head], Retire(l, head);
    forall i | n <= i < n + k ensures l'.owner[l'.free[i]] == OnFreeList(i) {
      assert l.owner[ids[i - n]] == InChain(head, i - n);
    }
  }

  lemma RetirePlaces(k: nat, l: Ledger, head: int, id: int)
    requires head in l.chains && |l.chains[head]| == k && l.Placed(k, id)
    ensures Retire(l, head).Placed(k, id)
  {
  }

  lemma RetireKeepsAccount(num: int, k: nat, l: Ledger, head: int)
    requires Account(num, k, l) && head in l.chains
    ensures Account(num, k, Retire(l, head))
  {
    RetireLists(k, l, head);
    forall id | 0 <= id < num ensures Retire(l, head).Placed(k, id) {
      RetirePlaces(k, l, head, id);
    }
    MapShrinks(l.chains, head);
  }

  /** Freeing a chain returns exactly its own descriptors to the free list. */
  lemma RetireKeepsOwned(q: VQ, k: nat, l: Ledger, head: int)
    requires Owned(q, k, l) && head in l.chains && k > 0
    ensures Owned(FreeAll(q, l.chains[head]), k, Retire(l, head))
  {
    var ids, q' := l.chains[head], FreeAll(q, l.chains[head]);
    assert forall i :: 0 <= i < k ==> l.owner[ids[i]] == InChain(head, i);
    FreeAllPutsTop(q, l.free, ids);
    RetireKeepsAccount(q.num, k, l, head);
    forall h | h in l.chains && h != head ensures IsChain(q'.descs, l.chains[h]) {
      forall i | 0 <= i < k ensures q'.descs[l.chains[h][i]] == q.descs[l.chains[h][i]] {
        assert l.owner[l.chains[h][i]] == InChain(h, i);
        FreeAllFrame(q, ids, l.chains[h][i]);
      }
      ChainFrame(q.descs, q'.descs, l.chains[h]);
    }
  }

  // ---- Initialisation ----

  ghost function FreshLedger(num: nat): Ledger {
    Ledger(seq(num, i requires 0 <= i < num => num - 1 - i), map[], [],
           seq(num, i requires 0 <= i < num => OnFreeList(num - 1 - i)))
  }

  lemma FreshAccount(num: nat, k: nat)
    ensures Account(num, k, FreshLedger(num))
  {
    var l := FreshLedger(num);
    forall id | 0 <= id < num ensures l.Placed(k, id) {
      assert l.owner[id] == OnFreeList(num - 1 - id);
    }
  }

  /** After initialisation every descriptor is free, in table order. */
  lemma FreshIsOwned(q: VQ, table: seq<Descriptor>, k: nat)
    requires q.Wf() && |table| == q.num && q.descs == Linked(table)
    requires q.freeHead == 0 && q.numFree == q.num
    ensures Owned(q, k, FreshLedger(q.num))
  {
    FreshAccount(q.num, k);
    assert FreeListIs(q, FreshLedger(q.num).free);
  }
}
