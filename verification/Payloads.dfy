/**
 What a device's write into a client's buffer does to a queue when the buffer
 overlaps the queue's memory: the cells it covers may hold anything
 afterwards, the others are untouched.
 */
module Payloads {
  import opened Base
  import opened VirtQueues
  import opened Layout
  import opened Windows

  /** Cell by cell: what `r` does not touch is as before. */
  ghost predicate Scribbled(q: VQ, q': VQ, base: nat, r: Area)
    requires q.Wf()
  {
    && |q'.descs| == |q'.avail| == |q'.used| == q.num
    && q' == q.(descs := q'.descs, avail := q'.avail, availIdx := q'.availIdx, used := q'.used, usedIdx := q'.usedIdx)
    && (forall i :: 0 <= i < q.num && DescSlot(base, i).Apart(r) ==> q'.descs[i] == q.descs[i])
    && (forall i :: 0 <= i < q.num && AvailSlot(base, q.num, i).Apart(r) ==> q'.avail[i] == q.avail[i])
    && (forall i :: 0 <= i < q.num && UsedSlot(base, q.num, i).Apart(r) ==> q'.used[i] == q.used[i])
    && (AvailIndex(base, q.num).Apart(r) ==> q'.availIdx == q.availIdx)
    && (UsedIndex(base, q.num).Apart(r) ==> q'.usedIdx == q.usedIdx)
  }

  /** The range misses every cell of the queue. */
  ghost predicate Misses(base: nat, num: u16, r: Area)
    requires num > 0
  {
    && (forall i :: 0 <= i < num ==>
          DescSlot(base, i).Apart(r) && AvailSlot(base, num, i).Apart(r) && UsedSlot(base, num, i).Apart(r))
    && AvailIndex(base, num).Apart(r) && UsedIndex(base, num).Apart(r)
  }

  /** A range that misses the queue leaves it as it was. */
  lemma MissedIsUntouched(q: VQ, q': VQ, base: nat, r: Area)
    requires q.Wf() && Misses(base, q.num, r) && Scribbled(q, q', base, r)
    ensures q' == q
  {
    assert q'.descs == q.descs && q'.avail == q.avail && q'.used == q.used;
  }

  /** A range that hits some cell can change the queue. */
  lemma HitCanChange(q: VQ, base: nat, r: Area) returns (q': VQ)
    requires q.Wf() && !Misses(base, q.num, r)
    ensures Scribbled(q, q', base, r) && q' != q && q'.Wf()
  {
    if !AvailIndex(base, q.num).Apart(r) {
      q' := q.(availIdx := (q.availIdx + 1) % TWO16);
    } else if !UsedIndex(base, q.num).Apart(r) {
      q' := q.(usedIdx := (q.usedIdx + 1) % TWO16);
    } else {
      var n := q.num;
      var i :| 0 <= i < n
               && !(DescSlot(base, i).Apart(r) && AvailSlot(base, n, i).Apart(r) && UsedSlot(base, n, i).Apart(r));
      if !DescSlot(base, i).Apart(r) {
        q' := ChangeDesc(q, base, r, i);
      } else if !AvailSlot(base, q.num, i).Apart(r) {
        q' := ChangeAvail(q, base, r, i);
      } else {
        q' := ChangeUsed(q, base, r, i);
      }
    }
  }

  lemma ChangeDesc(q: VQ, base: nat, r: Area, i: nat) returns (q': VQ)
    requires q.Wf() && i < q.num && !DescSlot(base, i).Apart(r)
    ensures Scribbled(q, q', base, r) && q' != q && q'.Wf()
  {
    var flags := q.descs[i].flags;
    q' := q.(descs := q.descs[i := q.descs[i].(flags := if flags == 0 then 1 else 0)]);
    assert q'.descs[i] != q.descs[i];
  }

  lemma ChangeAvail(q: VQ, base: nat, r: Area, i: nat) returns (q': VQ)
    requires q.Wf() && i < q.num && !AvailSlot(base, q.num, i).Apart(r)
    ensures Scribbled(q, q', base, r) && q' != q && q'.Wf()
  {
    q' := q.(avail := q.avail[i := if q.avail[i] == 0 then 1 else 0]);
    assert q'.avail[i] != q.avail[i];
  }

  lemma ChangeUsed(q: VQ, base: nat, r: Area, i: nat) returns (q': VQ)
    requires q.Wf() && i < q.num && !UsedSlot(base, q.num, i).Apart(r)
    ensures Scribbled(q, q', base, r) && q' != q && q'.Wf()
  {
    var len := q.used[i].len;
    q' := q.(used := q.used[i := q.used[i].(len := if len == 0 then 1 else 0)]);
    assert q'.used[i] != q.used[i];
  }

  /** A payload is invisible to the driver, whatever it contains, exactly if it misses the queue. */
  lemma InvisibleIffMissed(q: VQ, base: nat, r: Area)
    requires q.Wf()
    ensures (forall q' :: Scribbled(q, q', base, r) ==> q' == q) <==> Misses(base, q.num, r)
  {
    if Misses(base, q.num, r) {
      forall q' | Scribbled(q, q', base, r) ensures q' == q {
        MissedIsUntouched(q, q', base, r);
      }
    } else {
      var q' := HitCanChange(q, base, r);
    }
  }

  /** A range outside the queue's area misses it. */
  lemma OutsideMisses(base: nat, num: u16, r: Area)
    requires num > 0 && Queue(base, num).Apart(r)
    ensures Misses(base, num, r)
  {
    PartsAreApart(base, num);
    forall i | 0 <= i < num
      ensures DescSlot(base, i).Apart(r) && AvailSlot(base, num, i).Apart(r) && UsedSlot(base, num, i).Apart(r)
    {
      SlotsAreInTheirParts(base, num, i, i);
    }
    SlotsAreInTheirParts(base, num, 0, 0);
  }

  // ---- Which requests send the device there ----

  /** The four pages of a driver. */
  function Pages(dma: nat): Area {
    Area(dma, 4 * PAGE)
  }

  /**
   A regular window whose memory is apart from the driver's pages sends no
   request there whose sums stay within 64 bits.
   */
  lemma WindowKeepsOffPages(w: Shm, addr: u64, len: u32, dma: nat)
    requires Regular(w) && addr + len < TWO64 && len > 0 && Area(w.paddr, w.size).Apart(Pages(dma))
    ensures var data := BufferAddr(Some(w), addr, len);
            data.Some? ==> Area(data.value, len).Apart(Pages(dma))
  {
    RegularCheck(w, addr, len);
    if BufferAddr(Some(w), addr, len).Some? {
      TranslationStaysInside(w, addr, len);
    }
  }

  /** An address whose end wraps can leave the window for pages that are apart from its memory. */
  lemma WrapsOntoPages()
    ensures Regular(SMALL_WINDOW) && Area(SMALL_WINDOW.paddr, SMALL_WINDOW.size).Apart(Pages(0x7FFF_C000))
    ensures BufferAddr(Some(SMALL_WINDOW), TWO64 - 0x1000, 0x1000) == Some(0x7FFF_C000 + 2 * PAGE)
  {
  }

  /** Where the client would have to point for its request to start on the first byte of the pages. */
  function ImageOf(shm: Option<Shm>, dma: nat): int {
    match shm
    case None => dma
    case Some(w) => dma - w.paddr + w.clientVaddr
  }

  /**
   Exactly which accepted requests reach the pages: those that start on them,
   or less than their own length before them, counted from the pages' image in
   the client's addresses and modulo 2^64.
   */
  lemma HitsPagesExactly(shm: Option<Shm>, addr: u64, len: u32, dma: nat)
    requires BufferAddr(shm, addr, len).Some? && len > 0 && dma + 4 * PAGE <= TWO64
    requires BufferAddr(shm, addr, len).value + len <= TWO64
    ensures var data, image := BufferAddr(shm, addr, len).value, ImageOf(shm, dma);
            !Area(data, len).Apart(Pages(dma)) <==>
            (addr - image) % TWO64 < 4 * PAGE || (image - addr) % TWO64 < len
  {
    var data, image := BufferAddr(shm, addr, len).value, ImageOf(shm, dma);
    SameDistance(shm, addr, len, dma);
    Distance(data, dma);
    Distance(dma, data);
  }

  lemma Distance(x: u64, y: u64)
    ensures (x - y) % TWO64 == if x >= y then x - y else x - y + TWO64
  {
  }

  lemma SameDistance(shm: Option<Shm>, addr: u64, len: u32, dma: nat)
    requires BufferAddr(shm, addr, len).Some?
    ensures var data, image := BufferAddr(shm, addr, len).value, ImageOf(shm, dma);
            (addr - image) % TWO64 == (data - dma) % TWO64 && (image - addr) % TWO64 == (dma - data) % TWO64
  {
    if shm.Some? {
      var w := shm.value;
      WrapOnce(w.paddr + (addr - w.clientVaddr));
    }
  }
}
