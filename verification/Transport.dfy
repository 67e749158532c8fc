/** The MMIO transport: telling the device where a queue lies. */
module Transport {
  import opened Base
  import opened Layout

  // Register offsets (section 4.2.2 of VirtIO 1.1).
  const QUEUE_SEL := 0x030
  const QUEUE_NUM := 0x038
  const QUEUE_READY := 0x044
  const QUEUE_DESC_LOW := 0x080
  const QUEUE_DESC_HIGH := 0x084
  const QUEUE_DRIVER_LOW := 0x090
  const QUEUE_DRIVER_HIGH := 0x094
  const QUEUE_DEVICE_LOW := 0x0a0
  const QUEUE_DEVICE_HIGH := 0x0a4

  /** What the device knows of one queue; each address arrives in two halves. */
  datatype QueueRegs = QueueRegs(num: u32, descLow: u32, descHigh: u32, driverLow: u32, driverHigh: u32,
                                 deviceLow: u32, deviceHigh: u32, ready: u32)
  {
    function Desc(): u64 { Joined(descLow, descHigh) }
    function Driver(): u64 { Joined(driverLow, driverHigh) }
    function Device(): u64 { Joined(deviceLow, deviceHigh) }
  }

  const RESET := QueueRegs(0, 0, 0, 0, 0, 0, 0, 0)

  function Joined(low: u32, high: u32): u64 {
    low + TWO32 * high
  }

  function LowHalf(x: u64): u32 {
    x % TWO32
  }

  function HighHalf(x: u64): u32 {
    x / TWO32
  }

  /** An address survives being written in two halves. */
  lemma HalvesJoin(x: u64)
    ensures Joined(LowHalf(x), HighHalf(x)) == x
  {
  }

  /** The device's side of a register write, by offset: the queue registers go to the selected queue. */
  function Written(q: QueueRegs, offset: int, val: u32): QueueRegs {
    if offset == 0x38 then q.(num := val)
    else if offset == 0x44 then q.(ready := val)
    else if offset == 0x80 then q.(descLow := val)
    else if offset == 0x84 then q.(descHigh := val)
    else if offset == 0x90 then q.(driverLow := val)
    else if offset == 0x94 then q.(driverHigh := val)
    else if offset == 0xa0 then q.(deviceLow := val)
    else if offset == 0xa4 then q.(deviceHigh := val)
    else q
  }

  class VirtIOTransport {
    var selected: u32
    var queues: map<u32, QueueRegs>

    function Known(index: u32): QueueRegs
      reads this
    {
      if index in queues then queues[index] else RESET
    }

    method WriteReg(offset: int, val: u32)
      modifies this
      ensures offset == 0x30 ==> selected == val && queues == old(queues)
      ensures offset != 0x30 ==>
                selected == old(selected)
                && queues == old(queues)[selected := Written(old(Known(selected)), offset, val)]
    {
      if offset == QUEUE_SEL {
        selected := val;
      } else {
        queues := queues[selected := Written(Known(selected), offset, val)];
      }
    }

    method WriteQueueDesc(addr: u64)
      modifies this
      ensures selected == old(selected)
      ensures var known := old(Known(selected));
              queues == old(queues)[selected := known.(descLow := LowHalf(addr), descHigh := HighHalf(addr))]
    {
      WriteReg(QUEUE_DESC_LOW, LowHalf(addr));
      WriteReg(QUEUE_DESC_HIGH, HighHalf(addr));
    }

    method WriteQueueDriver(addr: u64)
      modifies this
      ensures selected == old(selected)
      ensures var known := old(Known(selected));
              queues == old(queues)[selected := known.(driverLow := LowHalf(addr), driverHigh := HighHalf(addr))]
    {
      WriteReg(QUEUE_DRIVER_LOW, LowHalf(addr));
      WriteReg(QUEUE_DRIVER_HIGH, HighHalf(addr));
    }

    method WriteQueueDevice(addr: u64)
      modifies this
      ensures selected == old(selected)
      ensures var known := old(Known(selected));
              queues == old(queues)[selected := known.(deviceLow := LowHalf(addr), deviceHigh := HighHalf(addr))]
    {
      WriteReg(QUEUE_DEVICE_LOW, LowHalf(addr));
      WriteReg(QUEUE_DEVICE_HIGH, HighHalf(addr));
    }

    /**
     Afterwards the device looks for the three parts of the queue exactly
     where the driver keeps them, and the other queues are as before.
     */
    method SetupQueue(index: u32, num: u16, paddr: u64)
      requires paddr + Queue(paddr, num).len <= TWO64
      modifies this
      ensures Known(index).num == num && Known(index).ready == 1
      ensures Known(index).Desc() == DescTable(paddr, num).at
      ensures Known(index).Driver() == AvailRing(paddr, num).at
      ensures Known(index).Device() == UsedRing(paddr, num).at
      ensures queues.Keys == old(queues.Keys) + {index}
      ensures forall i :: i in old(queues) && i != index ==> queues[i] == old(queues[i])
    {
      WriteReg(QUEUE_SEL, index);
      WriteReg(QUEUE_NUM, num);
      WriteQueueDesc(paddr);
      var availOffset := 16 * num;
      WriteQueueDriver(paddr + availOffset);
      var usedOffset := Down4(16 * num + 6 + 2 * num + 3);
      WriteQueueDevice(paddr + usedOffset);
      WriteReg(QUEUE_READY, 1);
      HalvesJoin(paddr);
      HalvesJoin(paddr + availOffset);
      HalvesJoin(paddr + usedOffset);
    }
  }
}
