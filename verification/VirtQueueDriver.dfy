/**
 `VirtQueue` as the drivers use it: descriptor table and rings updated in
 place.  Each method does to the memory what the function of the same name in
 VirtQueues does to the value.
 */
module VirtQueueDriver {
  import opened Base
  import V = VirtQueues
  import Rings

  class VirtQueue {
    const num: u16
    var freeHead: u16
    var numFree: u16
    var lastUsedIdx: u16

    // The queue's shared memory.  The device writes `used` and `usedIdx`.
    const desc: array<V.Descriptor>
    const avail: array<u16>
    var availIdx: u16
    const used: array<V.UsedElem>
    var usedIdx: u16

    ghost const Repr: set<object>

    ghost predicate Valid()
      reads this, desc, avail, used
    {
      && Repr == {this, desc, avail, used}
      && (desc as object) != avail && (desc as object) != used && (avail as object) != used
      && (this as object) != desc && (this as object) != avail && (this as object) != used
      && View().Wf()
    }

    /** The queue as a value. */
    ghost function View(): V.VQ
      reads this, desc, avail, used
    {
      V.VQ(num, desc[..], freeHead, numFree, lastUsedIdx, avail[..], availIdx, used[..], usedIdx)
    }

    /** Link the whole table into the free list.  The ring indices are left as the memory has them. */
    constructor (num: u16, desc: array<V.Descriptor>, avail: array<u16>, used: array<V.UsedElem>,
                 availIdx: u16, usedIdx: u16)
      requires num > 0 && desc.Length == avail.Length == used.Length == num
      requires (desc as object) != avail && (desc as object) != used && (avail as object) != used
      modifies desc
      ensures Valid() && this.desc == desc && this.avail == avail && this.used == used
      ensures View() == V.VQ(num, V.Linked(old(desc[..])), 0, num, 0, old(avail[..]), availIdx, old(used[..]), usedIdx)
    {
      this.num, this.desc, this.avail, this.used := num, desc, avail, used;
      this.availIdx, this.usedIdx := availIdx, usedIdx;
      freeHead, numFree, lastUsedIdx := 0, num, 0;
      Repr := {this, desc, avail, used};
      new;
      ghost var table := old(desc[..]);
      var i: u16 := 0;
      while i < num - 1
        modifies desc
        invariant 0 <= i <= num - 1
        invariant forall j :: 0 <= j < i ==> desc[j] == V.Linked(table)[j]
        invariant forall j :: i <= j < num ==> desc[j] == table[j]
        invariant avail[..] == old(avail[..]) && used[..] == old(used[..])
      {
        desc[i] := desc[i].(next := i + 1, flags := V.DESC_F_NEXT);
        i := i + 1;
      }
      desc[num - 1] := desc[num - 1].(next := 0, flags := 0);
      assert desc[..] == V.Linked(table);
    }

    method AllocDesc() returns (r: Option<u16>)
      requires Valid()
      modifies this
      ensures Valid() && (r, View()) == V.Alloc(old(View()))
    {
      if numFree == 0 {
        return None;
      }
      var id := freeHead;
      freeHead := desc[id].next;
      numFree := numFree - 1;
      return Some(id);
    }

    method FreeDesc(id: u16)
      requires Valid() && id < num && numFree < TWO16 - 1
      modifies this, desc
      ensures Valid() && View() == V.Free(old(View()), id)
    {
      desc[id] := desc[id].(next := freeHead, flags := V.DESC_F_NEXT);
      freeHead := id;
      numFree := numFree + 1;
    }

    method WriteDesc(id: u16, d: V.Descriptor)
      requires Valid() && id < num && d.next < num
      modifies desc
      ensures Valid() && View() == V.Write(old(View()), id, d)
    {
      desc[id] := d;
    }

    method Submit(head: u16)
      requires Valid()
      modifies this, avail
      ensures Valid() && View() == V.Submit(old(View()), head)
    {
      var idx := availIdx;
      avail[idx % num] := head;
      availIdx := Rings.Succ(idx);
    }

    method CanPop() returns (r: bool)
      requires Valid()
      ensures r == V.CanPop(View())
    {
      r := lastUsedIdx != usedIdx;
    }

    method Pop() returns (r: Option<V.UsedElem>)
      requires Valid()
      modifies this
      ensures Valid() && (r, View()) == V.Pop(old(View()))
    {
      var some := CanPop();
      if !some {
        return None;
      }
      var elem := used[lastUsedIdx % num];
      lastUsedIdx := Rings.Succ(lastUsedIdx);
      return Some(elem);
    }

    /**
     The loop that block and net completion share: follow the chain from
     `head`, reading each descriptor's link before freeing it.
     */
    method FreeChain(head: u16, ghost ids: seq<int>)
      requires Valid() && V.IsChain(desc[..], ids) && Distinct(ids) && ids[0] == head
      requires numFree + |ids| < TWO16
      modifies this, desc
      ensures Valid() && View() == V.FreeAll(old(View()), ids)
    {
      ghost var q, i := View(), 0;
      var curr := head;
      while true
        invariant Valid() && 0 <= i < |ids| && curr == ids[i]
        invariant View() == V.FreeAll(q, ids[..i])
        decreases |ids| - i
      {
        V.FreeAllFrame(q, ids[..i], curr);
        var next := desc[curr].next;
        var flags := desc[curr].flags;
        assert desc[curr] == q.descs[ids[i]];
        FreeDesc(curr);
        assert ids[..i + 1][..i] == ids[..i];
        if flags % 2 == 0 {
          assert ids[..i + 1] == ids;
          break;
        }
        curr := next;
        i := i + 1;
      }
    }
  }
}
