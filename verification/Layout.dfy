/** Where the virtio structures lie in DMA memory, and who looks for them where. */
module Layout {
  import opened Base
  import Blocks
  import Nets
  import Gpu

  /** A range of bytes. */
  datatype Area = Area(at: nat, len: nat) {
    predicate Inside(a: Area) {
      a.at <= at && at + len <= a.at + a.len
    }

    predicate Before(a: Area) {
      at + len <= a.at
    }

    predicate Apart(a: Area) {
      Before(a) || a.Before(this)
    }
  }

  /** No two areas of a list share a byte. */
  ghost predicate AllApart(areas: seq<Area>) {
    forall i, j :: 0 <= i < j < |areas| ==> areas[i].Apart(areas[j])
  }

  /** x & !3 */
  function Down4(x: nat): nat {
    x / 4 * 4
  }

  // ---- One queue ----

  function AvailOffset(num: u16): nat {
    16 * num
  }

  function UsedOffset(num: u16): nat {
    Down4(16 * num + 6 + 2 * num + 3)
  }

  /** The table, then the available ring and the used ring, each with its flags, index and event field. */
  function DescTable(base: nat, num: u16): Area {
    Area(base, 16 * num)
  }

  function AvailRing(base: nat, num: u16): Area {
    Area(base + AvailOffset(num), 6 + 2 * num)
  }

  function UsedRing(base: nat, num: u16): Area {
    Area(base + UsedOffset(num), 6 + 8 * num)
  }

  function Queue(base: nat, num: u16): Area {
    Area(base, UsedOffset(num) + 6 + 8 * num)
  }

  /** The bytes the driver touches: a descriptor, a slot of either ring, the two indices. */
  function DescSlot(base: nat, i: u16): Area {
    Area(base + 16 * i, 16)
  }

  function AvailSlot(base: nat, num: u16, idx: u16): Area
    requires num > 0
  {
    Area(base + 16 * num + 4 + 2 * (idx % num), 2)
  }

  function UsedSlot(base: nat, num: u16, idx: u16): Area
    requires num > 0
  {
    Area(base + UsedOffset(num) + 4 + 8 * (idx % num), 8)
  }

  function AvailIndex(base: nat, num: u16): Area {
    Area(base + AvailOffset(num) + 2, 2)
  }

  function UsedIndex(base: nat, num: u16): Area {
    Area(base + UsedOffset(num) + 2, 2)
  }

  /**
   For every queue size the three parts lie one behind the other with at most
   three bytes of padding, inside the queue's area.
   */
  lemma PartsAreApart(base: nat, num: u16)
    ensures var d, a, u := DescTable(base, num), AvailRing(base, num), UsedRing(base, num);
            d.Before(a) && a.Before(u) && a.at == base + 16 * num && u.at <= a.at + a.len + 3
            && d.Inside(Queue(base, num)) && a.Inside(Queue(base, num)) && u.Inside(Queue(base, num))
  {
  }

  /** They are aligned to 16, 2 and 4 bytes, as section 2.6 of VirtIO 1.1 requires, if the queue is to 16. */
  lemma PartsAreAligned(base: nat, num: u16)
    requires base % 16 == 0
    ensures DescTable(base, num).at % 16 == 0 && AvailRing(base, num).at % 2 == 0 && UsedRing(base, num).at % 4 == 0
  {
    var q := base / 16;
    Multiples(8 * q + 8 * num);
    Multiples(4 * q + (16 * num + 6 + 2 * num + 3) / 4);
  }

  lemma Multiples(k: nat)
    ensures 2 * k % 2 == 0 && 4 * k % 4 == 0
  {
  }

  /** Whatever the ring indices, the driver stays inside the part it means, and off the index fields. */
  lemma SlotsAreInTheirParts(base: nat, num: u16, i: u16, idx: u16)
    requires i < num
    ensures DescSlot(base, i).Inside(DescTable(base, num))
    ensures AvailSlot(base, num, idx).Inside(AvailRing(base, num)) && AvailIndex(base, num).Inside(AvailRing(base, num))
    ensures UsedSlot(base, num, idx).Inside(UsedRing(base, num)) && UsedIndex(base, num).Inside(UsedRing(base, num))
    ensures AvailSlot(base, num, idx).Apart(AvailIndex(base, num))
            && UsedSlot(base, num, idx).Apart(UsedIndex(base, num))
  {
    var k := idx % num;
    assert 0 <= k < num;
  }

  /** Two slots of a ring share no byte unless they are the same slot. */
  lemma SlotsAreApart(base: nat, num: u16, idx: u16, idx': u16)
    requires num > 0
    ensures AvailSlot(base, num, idx).Apart(AvailSlot(base, num, idx')) <==> idx % num != idx' % num
    ensures UsedSlot(base, num, idx).Apart(UsedSlot(base, num, idx')) <==> idx % num != idx' % num
    ensures DescSlot(base, idx).Apart(DescSlot(base, idx')) <==> idx != idx'
  {
    var k, k' := idx % num, idx' % num;
    assert 0 <= k < num && 0 <= k' < num;
  }

  // ---- The four pages of each driver ----

  const PAGE := 4096

  /** Request headers and status bytes of the block driver, and its queue. */
  function BlockHeader(dma: nat, slot: nat): Area {
    Area(dma + slot * Blocks.HEADER_BYTES, Blocks.HEADER_BYTES)
  }

  function BlockStatus(dma: nat, slot: nat): Area {
    Area(dma + Blocks.SLOTS * Blocks.HEADER_BYTES + slot, 1)
  }

  function BlockQueue(dma: nat): Area {
    Queue(dma + 2 * PAGE, Blocks.QUEUE_SIZE)
  }

  /** No two slots share a header or status byte, and none shares one with the queue. */
  lemma BlockAreasAreApart(dma: nat, i: nat, j: nat)
    requires i < Blocks.SLOTS && j < Blocks.SLOTS
    ensures BlockHeader(dma, i).Apart(BlockHeader(dma, j)) <==> i != j
    ensures BlockStatus(dma, i).Apart(BlockStatus(dma, j)) <==> i != j
    ensures BlockHeader(dma, i).Apart(BlockStatus(dma, j))
    ensures BlockHeader(dma, i).Apart(BlockQueue(dma)) && BlockStatus(dma, i).Apart(BlockQueue(dma))
    ensures BlockHeader(dma, i).Inside(Area(dma, 4 * PAGE)) && BlockStatus(dma, i).Inside(Area(dma, 4 * PAGE))
    ensures BlockQueue(dma).Inside(Area(dma, 4 * PAGE))
  {
  }

  /** The areas above are where the driver's model puts its headers and status bytes. */
  lemma BlockModelUsesThem(b: Blocks.Blk, i: nat)
    requires b.Wf() && i < Blocks.SLOTS
    ensures b.HeaderAddr(i) == BlockHeader(b.dma, i).at && b.StatusAddr(i) == BlockStatus(b.dma, i).at
  {
  }

  function NetHeader(dma: u64, side: Nets.Side, head: nat): Area
    requires dma + 4 * PAGE <= TWO64 && head < Nets.QUEUE_SIZE
  {
    Area(Nets.HeaderAddr(dma, side, head), Nets.HEADER_BYTES)
  }

  function NetQueue(dma: nat, side: Nets.Side): Area {
    Queue(dma + (if side == Nets.Rx then 2 else 3) * PAGE, Nets.QUEUE_SIZE)
  }

  /** No two chains share a packet header, across both queues, and none shares a byte with a queue. */
  lemma NetAreasAreApart(dma: u64, side: Nets.Side, i: nat, side': Nets.Side, j: nat)
    requires dma + 4 * PAGE <= TWO64 && i < Nets.QUEUE_SIZE && j < Nets.QUEUE_SIZE
    ensures NetHeader(dma, side, i).Apart(NetHeader(dma, side', j)) <==> (side, i) != (side', j)
    ensures NetHeader(dma, side, i).Apart(NetQueue(dma, side'))
    ensures side != side' ==> NetQueue(dma, side).Apart(NetQueue(dma, side'))
    ensures NetHeader(dma, side, i).Inside(Area(dma, 4 * PAGE)) && NetQueue(dma, side).Inside(Area(dma, 4 * PAGE))
  {
  }

  /** Both queues of the GPU driver, and a page for command and response each. */
  lemma GpuAreasAreApart(pa: nat)
    ensures AllApart([Queue(pa, Gpu.QUEUE_SIZE), Queue(pa + PAGE, Gpu.QUEUE_SIZE),
                      Area(pa + Gpu.CMD_OFFSET, PAGE), Area(pa + Gpu.RESP_OFFSET, PAGE)])
  {
  }
}
