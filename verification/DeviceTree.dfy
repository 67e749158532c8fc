/**
 Flattening of a device tree into a list whose entries name their parent by
 index, and the way back.  The blob decoder is an abstract ordered tree.
 */
module DeviceTree {
  import opened Base
  import opened UnitAddresses

  datatype Reg = Reg(start: u64, size: Option<u64>)
  datatype FdtNode = FdtNode(name: string, compatible: seq<string>, reg: seq<Reg>, interrupts: seq<u64>,
                             children: seq<FdtNode>)

  datatype Region = Region(base: u64, size: u64)
  datatype Desc = Desc(name: string, compatible: seq<string>, mmio: seq<Region>, irq: seq<u64>,
                       unitAddr: Option<u64>)
  datatype Entry = Entry(parent: nat, desc: Desc)

  /** The parent of the root: `usize::MAX`. */
  const NO_PARENT := TWO64 - 1

  // ---- The flattening ----

  /** The `reg` ranges that carry a size. */
  function Sized(reg: seq<Reg>): seq<Region> {
    if reg == [] then []
    else Sized(reg[..|reg| - 1])
         + (match reg[|reg| - 1] case Reg(start, Some(size)) => [Region(start, size)] case Reg(_, None) => [])
  }

  function WithSizes(regions: seq<Region>): seq<Reg> {
    seq(|regions|, i requires 0 <= i < |regions| => Reg(regions[i].base, Some(regions[i].size)))
  }

  /** Ranges with sizes come back as they are and in order; others are dropped, wherever they stand. */
  lemma {:induction false} SizedReadsBack(regions: seq<Region>, before: seq<Reg>, start: u64, after: seq<Reg>)
    ensures Sized(WithSizes(regions)) == regions
    ensures Sized(before + [Reg(start, None)] + after) == Sized(before + after) == Sized(before) + Sized(after)
    decreases |regions|
  {
    if regions != [] {
      var n := |regions| - 1;
      SizedReadsBack(regions[..n], before, start, after);
      assert WithSizes(regions)[..n] == WithSizes(regions[..n]);
      assert regions == regions[..n] + [regions[n]];
    }
    SizedOfSum(before, after);
    SizedOfSum(before + [Reg(start, None)], after);
    assert (before + [Reg(start, None)])[..|before|] == before;
  }

  lemma {:induction false} SizedOfSum(a: seq<Reg>, b: seq<Reg>)
    ensures Sized(a + b) == Sized(a) + Sized(b)
    decreases |b|
  {
    if b == [] {
      assert a + b == a;
    } else {
      var n := |b| - 1;
      SizedOfSum(a, b[..n]);
      assert (a + b)[..|a + b| - 1] == a + b[..n];
    }
  }

  function Describe(t: FdtNode): Desc {
    Desc(t.name, t.compatible, Sized(t.reg), t.interrupts, UnitAddr(t.name))
  }

  /** The number of nodes. */
  function Size(t: FdtNode): nat
    decreases t
  {
    1 + Count(t.children)
  }

  function Count(ts: seq<FdtNode>): nat
    decreases ts
  {
    if ts == [] then 0 else Size(ts[0]) + Count(ts[1..])
  }

  /** Preorder: a root, at index `base`, and then its children. */
  function Flatten(t: FdtNode, parent: nat, base: nat): (es: seq<Entry>)
    ensures |es| == Size(t)
    decreases t
  {
    [Entry(parent, Describe(t))] + FlattenAll(t.children, base, base + 1)
  }

  /** One tree after the other. */
  function FlattenAll(ts: seq<FdtNode>, parent: nat, base: nat): (es: seq<Entry>)
    ensures |es| == Count(ts)
    decreases ts
  {
    if ts == [] then [] else Flatten(ts[0], parent, base) + FlattenAll(ts[1..], parent, base + Size(ts[0]))
  }

  lemma SizedSnoc(reg: seq<Reg>, i: nat)
    requires i < |reg|
    ensures Sized(reg[..i + 1]) == Sized(reg[..i])
              + (match reg[i] case Reg(start, Some(size)) => [Region(start, size)] case Reg(_, None) => [])
  {
    assert reg[..i + 1][..i] == reg[..i];
  }

  /** The regions and interrupts of a node, collected one by one. */
  method ParseDesc(t: FdtNode) returns (desc: Desc)
    ensures desc == Describe(t)
  {
    var mmio: seq<Region> := [];
    for i := 0 to |t.reg|
      invariant mmio == Sized(t.reg[..i])
    {
      SizedSnoc(t.reg, i);
      match t.reg[i].size {
        case Some(size) => mmio := mmio + [Region(t.reg[i].start, size)];
        case None =>
      }
    }
    assert t.reg[..|t.reg|] == t.reg;
    var irqs: seq<u64> := [];
    for i := 0 to |t.interrupts|
      invariant irqs == t.interrupts[..i]
    {
      irqs := irqs + [t.interrupts[i]];
    }
    return Desc(t.name, t.compatible, mmio, irqs, UnitAddr(t.name));
  }

  lemma FlattenNode(before: seq<Entry>, t: FdtNode, parent: nat, after: seq<Entry>)
    requires after == before + [Entry(parent, Describe(t))] + FlattenAll(t.children, |before|, |before| + 1)
    ensures after == before + Flatten(t, parent, |before|)
  {
  }

  /** Appending the next child's block to those of the children before it. */
  lemma NextChild(own: seq<Entry>, kids: seq<FdtNode>, i: nat, current: nat)
    requires i < |kids| && |own| == current + 1
    ensures var nodes := own + FlattenAll(kids[..i], current, current + 1);
            nodes + Flatten(kids[i], current, |nodes|) == own + FlattenAll(kids[..i + 1], current, current + 1)
  {
    FlattenSnoc(kids[..i], kids[i], current, current + 1);
    assert kids[..i] + [kids[i]] == kids[..i + 1];
  }

  class DeviceList {
    var nodes: seq<Entry>

    constructor ()
      ensures nodes == []
    {
      nodes := [];
    }

    method ParseNode(t: FdtNode, parent: nat)
      modifies this
      ensures nodes == old(nodes) + Flatten(t, parent, |old(nodes)|)
      decreases t
    {
      var desc := ParseDesc(t);
      var current := |nodes|;
      nodes := nodes + [Entry(parent, desc)];
      ghost var own, kids := nodes, t.children;
      assert kids[..0] == [];
      for i := 0 to |t.children|
        invariant nodes == own + FlattenAll(kids[..i], current, current + 1)
      {
        NextChild(own, kids, i, current);
        ParseNode(t.children[i], current);
      }
      assert kids[..|kids|] == kids;
      FlattenNode(old(nodes), t, parent, nodes);
    }

    /** A blob the decoder rejects is an error; one without a root node gives no entries. */
    method ParseBlob(fdt: Option<Option<FdtNode>>) returns (ok: bool)
      requires nodes == []
      modifies this
      ensures ok == fdt.Some?
      ensures nodes == match fdt case Some(Some(root)) => Flatten(root, NO_PARENT, 0) case _ => []
    {
      match fdt {
        case None => return false;
        case Some(None) => return true;
        case Some(Some(root)) =>
          ParseNode(root, NO_PARENT);
          return true;
      }
    }
  }

  lemma {:induction false} FlattenSnoc(ts: seq<FdtNode>, t: FdtNode, parent: nat, base: nat)
    ensures Count(ts + [t]) == Count(ts) + Size(t)
    ensures FlattenAll(ts + [t], parent, base) == FlattenAll(ts, parent, base) + Flatten(t, parent, base + Count(ts))
    decreases |ts|
  {
    if ts == [] {
      assert ts + [t] == [t] + [];
      FlattenCons(t, [], ts + [t], parent, base);
    } else {
      var n, tail := Size(ts[0]), ts[1..] + [t];
      assert ts + [t] == [ts[0]] + tail;
      FlattenSnoc(ts[1..], t, parent, base + n);
      FlattenCons(ts[0], tail, ts + [t], parent, base);
      FlattenCons(ts[0], ts[1..], ts, parent, base);
      Associate(Flatten(ts[0], parent, base), FlattenAll(ts[1..], parent, base + n),
                Flatten(t, parent, base + n + Count(ts[1..])));
    }
  }

  lemma Associate(a: seq<Entry>, b: seq<Entry>, c: seq<Entry>)
    ensures a + (b + c) == a + b + c
  {
  }

  lemma FlattenCons(t: FdtNode, rest: seq<FdtNode>, ts: seq<FdtNode>, parent: nat, base: nat)
    requires ts == [t] + rest
    ensures FlattenAll(ts, parent, base) == Flatten(t, parent, base) + FlattenAll(rest, parent, base + Size(t))
    ensures Count(ts) == Size(t) + Count(rest)
  {
    assert ts[1..] == rest;
  }

  // ---- The list by itself ----

  /** A tree as a reader of the list sees it. */
  datatype Device = Device(desc: Desc, children: seq<Device>)

  /** Entry `i` with its subtree, from the parent indices alone. */
  function Rebuild(es: seq<Entry>, i: nat): Device
    requires i < |es|
    decreases |es| - i, 0
  {
    Device(es[i].desc, RebuildFrom(es, i, i + 1))
  }

  /** The children of `i` from index `j` on, in list order. */
  function RebuildFrom(es: seq<Entry>, i: nat, j: nat): seq<Device>
    requires i < j <= |es|
    decreases |es| - j, 1
  {
    if j == |es| then []
    else (if es[j].parent == i then [Rebuild(es, j)] else []) + RebuildFrom(es, i, j + 1)
  }

  /** `j` is `i` or a descendant of it. */
  predicate Under(es: seq<Entry>, i: nat, j: nat)
    requires j < |es|
  {
    j == i || (es[j].parent < j && Under(es, i, es[j].parent))
  }

  /** The tree itself, described. */
  function Described(t: FdtNode): Device
    decreases t
  {
    Device(Describe(t), DescribedAll(t.children))
  }

  function DescribedAll(ts: seq<FdtNode>): seq<Device>
    decreases ts
  {
    if ts == [] then [] else [Described(ts[0])] + DescribedAll(ts[1..])
  }

  // ---- Blocks ----

  /** Nothing behind the block has a parent inside it. */
  ghost predicate Closed(es: seq<Entry>, lo: nat, hi: nat) {
    forall k :: hi <= k < |es| ==> !(lo <= es[k].parent < hi)
  }

  ghost predicate Lies(es: seq<Entry>, t: FdtNode, parent: nat, base: nat) {
    base + Size(t) <= |es|
    && es[base..base + Size(t)] == Flatten(t, parent, base)
    && Closed(es, base, base + Size(t))
  }

  ghost predicate LiesAll(es: seq<Entry>, ts: seq<FdtNode>, parent: nat, base: nat) {
    base + Count(ts) <= |es|
    && es[base..base + Count(ts)] == FlattenAll(ts, parent, base)
    && Closed(es, base, base + Count(ts))
  }

  /** In a block, a parent is an earlier entry of the block, except for the roots. */
  lemma {:induction false} ParentsInTree(t: FdtNode, parent: nat, base: nat)
    ensures forall k :: 0 < k < Size(t) ==> base <= Flatten(t, parent, base)[k].parent < base + k
    decreases t
  {
    ParentsInForest(t.children, base, base + 1);
    var es := Flatten(t, parent, base);
    forall k | 0 < k < Size(t) ensures base <= es[k].parent < base + k {
      assert es[k] == FlattenAll(t.children, base, base + 1)[k - 1];
    }
  }

  lemma {:induction false} ParentsInForest(ts: seq<FdtNode>, parent: nat, base: nat)
    ensures forall k :: 0 <= k < Count(ts) ==>
              var p := FlattenAll(ts, parent, base)[k].parent; p == parent || base <= p < base + k
    decreases ts
  {
    if ts != [] {
      var n := Size(ts[0]);
      ParentsInTree(ts[0], parent, base);
      ParentsInForest(ts[1..], parent, base + n);
      var es := FlattenAll(ts, parent, base);
      forall k | 0 <= k < Count(ts) ensures es[k].parent == parent || base <= es[k].parent < base + k {
        if k < n {
          assert es[k] == Flatten(ts[0], parent, base)[k];
        } else {
          assert es[k] == FlattenAll(ts[1..], parent, base + n)[k - n];
        }
      }
    }
  }

  lemma ChildrenLie(es: seq<Entry>, t: FdtNode, parent: nat, base: nat)
    requires Lies(es, t, parent, base)
    ensures LiesAll(es, t.children, base, base + 1)
    ensures es[base] == Entry(parent, Describe(t))
  {
    var block := es[base..base + Size(t)];
    assert block[0] == es[base];
    assert es[base + 1..base + 1 + Count(t.children)] == block[1..];
  }

  lemma HeadAndTailLie(es: seq<Entry>, ts: seq<FdtNode>, parent: nat, base: nat)
    requires LiesAll(es, ts, parent, base) && ts != [] && parent < base
    ensures Lies(es, ts[0], parent, base)
    ensures LiesAll(es, ts[1..], parent, base + Size(ts[0]))
  {
    var mid, hi := base + Size(ts[0]), base + Count(ts);
    var block := es[base..hi];
    var tail := FlattenAll(ts[1..], parent, mid);
    assert es[base..mid] == block[..Size(ts[0])] == Flatten(ts[0], parent, base);
    assert es[mid..hi] == block[Size(ts[0])..] == tail;
    ParentsInForest(ts[1..], parent, mid);
    forall k | mid <= k < |es| ensures !(base <= es[k].parent < mid) {
      if k < hi {
        assert es[k] == es[mid..hi][k - mid] == tail[k - mid];
      }
    }
  }

  // ---- Rebuilding inverts flattening ----

  /** The search for children passes over entries that are none. */
  lemma {:induction false} Skip(es: seq<Entry>, i: nat, j: nat, k: nat)
    requires i < j <= k <= |es|
    requires forall x :: j <= x < k ==> es[x].parent != i
    ensures RebuildFrom(es, i, j) == RebuildFrom(es, i, k)
    decreases k - j
  {
    if j < k {
      Skip(es, i, j + 1, k);
    }
  }

  lemma {:induction false} RebuildTree(es: seq<Entry>, t: FdtNode, parent: nat, base: nat)
    requires Lies(es, t, parent, base)
    ensures Rebuild(es, base) == Described(t)
    decreases t
  {
    ChildrenLie(es, t, parent, base);
    RebuildForest(es, t.children, base, base + 1);
    Skip(es, base, base + Size(t), |es|);
  }

  lemma {:induction false} RebuildForest(es: seq<Entry>, ts: seq<FdtNode>, parent: nat, base: nat)
    requires LiesAll(es, ts, parent, base) && parent < base
    ensures RebuildFrom(es, parent, base) == DescribedAll(ts) + RebuildFrom(es, parent, base + Count(ts))
    decreases ts
  {
    if ts != [] {
      var mid := base + Size(ts[0]);
      HeadAndTailLie(es, ts, parent, base);
      RebuildTree(es, ts[0], parent, base);
      HeadIsChild(es, ts[0], parent, base);
      RebuildForest(es, ts[1..], parent, mid);
      DescribedCons(ts, RebuildFrom(es, parent, mid + Count(ts[1..])));
    }
  }

  lemma DescribedCons(ts: seq<FdtNode>, rest: seq<Device>)
    requires ts != []
    ensures DescribedAll(ts) + rest == [Described(ts[0])] + (DescribedAll(ts[1..]) + rest)
    ensures Count(ts) == Size(ts[0]) + Count(ts[1..])
  {
  }

  /** Of a block, the parent's search for children finds the head only. */
  lemma HeadIsChild(es: seq<Entry>, t: FdtNode, parent: nat, base: nat)
    requires Lies(es, t, parent, base) && parent < base
    ensures RebuildFrom(es, parent, base) == [Rebuild(es, base)] + RebuildFrom(es, parent, base + Size(t))
  {
    ChildrenLie(es, t, parent, base);
    RestIsNoChild(es, t, parent, base);
    Skip(es, parent, base + 1, base + Size(t));
  }

  lemma RestIsNoChild(es: seq<Entry>, t: FdtNode, parent: nat, base: nat)
    requires Lies(es, t, parent, base) && parent < base
    ensures forall x :: base < x < base + Size(t) ==> es[x].parent != parent
  {
    ParentsInTree(t, parent, base);
    var block := es[base..base + Size(t)];
    forall x | base < x < base + Size(t) ensures es[x].parent != parent {
      assert es[x] == block[x - base];
    }
  }

  // ---- Subtrees are contiguous ----

  /** Every entry of a block starts the block of a subtree. */
  lemma {:induction false} SubtreeAt(es: seq<Entry>, t: FdtNode, parent: nat, base: nat, i: nat) returns (sub: FdtNode)
    requires Lies(es, t, parent, base) && base <= i < base + Size(t)
    ensures Lies(es, sub, es[i].parent, i)
    decreases t
  {
    ChildrenLie(es, t, parent, base);
    if i == base {
      sub := t;
    } else {
      sub := SubtreeIn(es, t.children, base, base + 1, i);
    }
  }

  lemma {:induction false} SubtreeIn(es: seq<Entry>, ts: seq<FdtNode>, parent: nat, base: nat, i: nat)
    returns (sub: FdtNode)
    requires LiesAll(es, ts, parent, base) && parent < base <= i < base + Count(ts)
    ensures Lies(es, sub, es[i].parent, i)
    decreases ts
  {
    HeadAndTailLie(es, ts, parent, base);
    if i < base + Size(ts[0]) {
      sub := SubtreeAt(es, ts[0], parent, base, i);
    } else {
      sub := SubtreeIn(es, ts[1..], parent, base + Size(ts[0]), i);
    }
  }

  lemma {:induction false} DescendantsAreBlock(es: seq<Entry>, t: FdtNode, parent: nat, i: nat, j: nat)
    requires Lies(es, t, parent, i) && j < |es|
    ensures Under(es, i, j) <==> i <= j < i + Size(t)
    decreases j
  {
    if i < j < i + Size(t) {
      ParentsInTree(t, parent, i);
      assert es[j] == es[i..i + Size(t)][j - i];
      DescendantsAreBlock(es, t, parent, i, es[j].parent);
    } else if es[j].parent < j {
      DescendantsAreBlock(es, t, parent, i, es[j].parent);
    }
  }

  // ---- Main results ----

  /** The list of a device tree: one entry per node, parents in front, and the tree can be rebuilt from it. */
  lemma FlatteningIsInvertible(root: FdtNode)
    ensures var es := Flatten(root, NO_PARENT, 0);
            |es| == Size(root)
            && es[0].parent == 0xFFFF_FFFF_FFFF_FFFF
            && (forall i :: 0 < i < |es| ==> es[i].parent < i)
            && Rebuild(es, 0) == Described(root)
  {
    var es := Flatten(root, NO_PARENT, 0);
    assert es[0..Size(root)] == es;
    RebuildTree(es, root, NO_PARENT, 0);
    ParentsInTree(root, NO_PARENT, 0);
  }

  /** Each entry heads the block of one subtree: exactly the entry and its descendants, in preorder. */
  lemma SubtreesAreBlocks(root: FdtNode, i: nat) returns (sub: FdtNode)
    requires i < Size(root)
    ensures var es := Flatten(root, NO_PARENT, 0);
            i + Size(sub) <= |es|
            && es[i..i + Size(sub)] == Flatten(sub, es[i].parent, i)
            && Rebuild(es, i) == Described(sub)
            && es[i].desc.name == sub.name && es[i].desc.compatible == sub.compatible
            && es[i].desc.irq == sub.interrupts && es[i].desc.mmio == Sized(sub.reg)
            && es[i].desc.unitAddr == UnitAddr(sub.name)
            && forall j: nat :: j < |es| ==> (Under(es, i, j) <==> i <= j < i + Size(sub))
  {
    var es := Flatten(root, NO_PARENT, 0);
    assert es[0..Size(root)] == es;
    sub := SubtreeAt(es, root, NO_PARENT, 0, i);
    RebuildTree(es, sub, es[i].parent, i);
    forall j: nat | j < |es| ensures Under(es, i, j) <==> i <= j < i + Size(sub) {
      DescendantsAreBlock(es, sub, es[i].parent, i, j);
    }
  }
}
