/**
 The window of memory a client shares with a driver: which client addresses
 the drivers accept, and where they send the device for them.
 */
module Windows {
  import opened Base

  /** Where the device finds the client's buffer; outside the shared window there is no such address. */
  function BufferAddr(shm: Option<Shm>, addr: u64, len: u32): Option<u64> {
    match shm
    case None => Some(addr)
    case Some(w) =>
      if addr < w.clientVaddr || Wrap64(addr + len) > Wrap64(w.clientVaddr + w.size) then None
      else Some(Wrap64(w.paddr + (addr - w.clientVaddr)))
  }

  /** The client's range lies in the window, in unbounded arithmetic. */
  predicate Inside(w: Shm, addr: u64, len: u32) {
    w.clientVaddr <= addr && addr + len <= w.clientVaddr + w.size
  }

  /** The range the device is sent to lies in the memory behind the window. */
  predicate InsideMemory(w: Shm, data: u64, len: u32) {
    w.paddr <= data && data + len <= w.paddr + w.size
  }

  /** The window's sums stay within 64 bits. */
  predicate Regular(w: Shm) {
    w.clientVaddr + w.size < TWO64 && w.paddr + w.size <= TWO64
  }

  lemma WrapOnce(x: nat)
    requires x < 2 * TWO64
    ensures Wrap64(x) == if x < TWO64 then x else x - TWO64
  {
  }

  /**
   The drivers' check accepts exactly the ranges inside the window, if and
   only if wrap-around does not deceive it: the address is below the window,
   both sums wrap or neither does, or the range's wrapped end is still behind
   the window's.
   */
  lemma CheckIsExact(w: Shm, addr: u64, len: u32)
    ensures (BufferAddr(Some(w), addr, len).Some? <==> Inside(w, addr, len)) <==>
            (|| addr < w.clientVaddr
             || (addr + len < TWO64 <==> w.clientVaddr + w.size < TWO64)
             || (w.clientVaddr + w.size < TWO64 && addr + len - TWO64 > w.clientVaddr + w.size))
  {
    WrapOnce(addr + len);
    WrapOnce(w.clientVaddr + w.size);
  }

  /** For a range whose end fits 64 bits, in a regular window, accepted means inside. */
  lemma RegularCheck(w: Shm, addr: u64, len: u32)
    requires Regular(w) && addr + len < TWO64
    ensures BufferAddr(Some(w), addr, len).Some? <==> Inside(w, addr, len)
  {
    CheckIsExact(w, addr, len);
  }

  /** A range inside the window is translated by a constant offset and stays inside the memory behind it. */
  lemma TranslationStaysInside(w: Shm, addr: u64, len: u32)
    requires Regular(w) && Inside(w, addr, len) && len > 0
    ensures var data := w.paddr + (addr - w.clientVaddr);
            BufferAddr(Some(w), addr, len) == Some(data) && InsideMemory(w, data, len)
  {
    WrapOnce(addr + len);
    WrapOnce(w.clientVaddr + w.size);
    WrapOnce(w.paddr + (addr - w.clientVaddr));
  }

  /**
   Where an accepted address is sent: without a window to the address itself,
   with one as far behind the start of its memory as the address is behind the
   client's, modulo 2^64.
   */
  lemma TranslationIsOffset(w: Shm, addr: u64, len: u32)
    ensures BufferAddr(None, addr, len) == Some(addr)
    ensures BufferAddr(Some(w), addr, len).Some? ==>
              w.clientVaddr <= addr && BufferAddr(Some(w), addr, len) == Some((w.paddr + addr - w.clientVaddr) % TWO64)
  {
  }

  /** An address far behind the window whose end wraps round to below it. */
  const WRAPPING_ADDR: u64 := TWO64 - 512
  const WRAPPING_LEN: u32 := 1024
  const SMALL_WINDOW := Shm(0x1000, 0x8000_0000, 0x1000)

  /** Such a range is accepted, and the device is sent outside the memory behind the window. */
  lemma WrapDeceivesCheck()
    ensures Regular(SMALL_WINDOW) && !Inside(SMALL_WINDOW, WRAPPING_ADDR, WRAPPING_LEN)
    ensures var data := BufferAddr(Some(SMALL_WINDOW), WRAPPING_ADDR, WRAPPING_LEN);
            data.Some? && !InsideMemory(SMALL_WINDOW, data.value, WRAPPING_LEN)
  {
  }
}
