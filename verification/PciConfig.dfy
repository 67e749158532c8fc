/**
 PCI configuration space behind an ECAM window: field access, base address
 registers, interrupt routing, and what a scan is to report.
 */
module PciConfig {
  import opened Base

  // ---- Offsets ----

  /** Function number `u` of the window: bus, device and function in one number. */
  function Unit(bus: nat, dev: nat, func: nat): nat {
    0x100 * bus + 8 * dev + func
  }

  /** reg & !3 */
  function Aligned(reg: nat): (a: nat)
    ensures a <= reg < a + 4 && a / 4 == reg / 4
  {
    4 * (reg / 4)
  }

  /** A register's word, by its byte offset. */
  lemma WordAt(bus: nat, dev: nat, func: nat, reg: nat)
    ensures CfgOff(bus, dev, func, reg) / 4 == 0x400 * Unit(bus, dev, func) + reg / 4
    ensures CfgOff(bus, dev, func, Aligned(reg)) / 4 == 0x400 * Unit(bus, dev, func) + reg / 4
  {
    Quarter(0x400 * Unit(bus, dev, func), reg);
    Quarter(0x400 * Unit(bus, dev, func), Aligned(reg));
  }

  lemma Quarter(k: nat, reg: nat)
    ensures (4 * k + reg) / 4 == k + reg / 4
  {
  }

  /** The byte offset of a register; the fields are disjoint, so adding them is or-ing them. */
  function CfgOff(bus: nat, dev: nat, func: nat, reg: nat): nat {
    0x10_0000 * bus + 0x8000 * dev + 0x1000 * func + reg
  }

  lemma FieldsDoNotOverlap(bus: bv64, dev: bv64, func: bv64, reg: bv64)
    requires bus < 0x100 && dev < 32 && func < 8 && reg < 0x1000
    ensures (bus << 20) | (dev << 15) | (func << 12) | reg == (bus << 20) + (dev << 15) + (func << 12) + reg
    ensures (bus << 8) | (dev << 3) | func == (bus << 8) + (dev << 3) + func
  {
  }

  predicate InRange(dev: nat, func: nat) {
    dev < 32 && func < 8
  }

  lemma UnitIsInjective(bus: nat, dev: nat, func: nat)
    requires InRange(dev, func)
    ensures var u := Unit(bus, dev, func); u / 0x100 == bus && u / 8 % 32 == dev && u % 8 == func
  {
  }

  /** Different registers of different functions are at different offsets. */
  lemma CfgOffIsInjective(bus: nat, dev: nat, func: nat, reg: nat, bus': nat, dev': nat, func': nat, reg': nat)
    requires InRange(dev, func) && reg < 0x1000
    requires InRange(dev', func') && reg' < 0x1000
    ensures CfgOff(bus, dev, func, reg) == CfgOff(bus', dev', func', reg') <==>
            (bus, dev, func, reg) == (bus', dev', func', reg')
    ensures CfgOff(bus, dev, func, reg) == 0x1000 * Unit(bus, dev, func) + reg
  {
  }

  // ---- Fields of a word ----

  /** The half-word or byte of an aligned word that register `reg` names. */
  function Low(w: bv32): bv16 {
    (w & 0xffff) as bv16
  }

  function High(w: bv32): bv16 {
    ((w >> 16) & 0xffff) as bv16
  }

  predicate InHigh(reg: nat) {
    reg / 2 % 2 == 1
  }

  function Half(w: bv32, reg: nat): bv16 {
    if InHigh(reg) then High(w) else Low(w)
  }

  function Byte(w: bv32, reg: nat): bv8 {
    var shift: bv32 := match reg % 4 case 0 => 0 case 1 => 8 case 2 => 16 case _ => 24;
    ((w >> shift) & 0xff) as bv8
  }

  function WithLow(w: bv32, val: bv16): bv32 {
    (w & !0xffff) | val as bv32
  }

  function WithHigh(w: bv32, val: bv16): bv32 {
    (w & !(0xffff << 16)) | ((val as bv32) << 16)
  }

  function WithHalf(w: bv32, reg: nat, val: bv16): bv32 {
    if InHigh(reg) then WithHigh(w, val) else WithLow(w, val)
  }

  lemma WithLowSplits(w: bv32, val: bv16)
    ensures Low(WithLow(w, val)) == val && High(WithLow(w, val)) == High(w)
  {
  }

  lemma WithHighSplits(w: bv32, val: bv16)
    ensures Low(WithHigh(w, val)) == Low(w) && High(WithHigh(w, val)) == val
  {
  }

  /** Writing a half-word changes that half-word and nothing else of its word. */
  lemma WriteChangesOnlyItsHalf(w: bv32, reg: nat, val: bv16, other: nat)
    ensures Half(WithHalf(w, reg, val), other) == if InHigh(reg) == InHigh(other) then val else Half(w, other)
  {
    WithLowSplits(w, val);
    WithHighSplits(w, val);
  }

  /** I/O decoding on and INTx not disabled, the rest of command and status as before. */
  function Enabled(w: bv32): bv32 {
    (w | 1) & !0x400
  }

  lemma EnableByHalf(w: bv32)
    ensures WithHalf(w, 4, (Half(w, 4) | 1) & !0x400) == Enabled(w)
    ensures Half(w, 4) == (Half(w, 4) | 1) & !0x400 ==> w == Enabled(w)
  {
  }

  // ---- Base address registers ----

  datatype Region = Region(base: bv64, size: bv64)

  predicate IsIo(v: bv32) {
    v & 1 != 0
  }

  predicate IsMem64(v: bv32) {
    v & 1 == 0 && (v >> 1) & 3 == 2
  }

  function IoPort(v: bv32): bv32 {
    v & 0xffff_fffc
  }

  function PortRegion(port: bv32, ioBase: Option<bv64>): seq<Region> {
    match ioBase
    case None => []
    case Some(base) => [Region(base + port as bv64, 0x100)]
  }

  function MemRegion(base: bv64): seq<Region> {
    if base == 0 then [] else [Region(base, 0x1000)]
  }

  function Base32(v: bv32): bv64 {
    (v & 0xffff_fff0) as bv64
  }

  function Base64(lo: bv32, hi: bv32): bv64 {
    ((hi as bv64) << 32) | ((lo as bv64) & 0xffff_fff0)
  }

  /** The registers from the front: a 64-bit one takes the next register with it. */
  function Decode(bars: seq<bv32>, ioBase: Option<bv64>): seq<Region> {
    if bars == [] then []
    else if bars[0] == 0 then Decode(bars[1..], ioBase)
    else if IsIo(bars[0]) then PortRegion(IoPort(bars[0]), ioBase) + Decode(bars[1..], ioBase)
    else if IsMem64(bars[0]) && |bars| > 1 then
      MemRegion(Base64(bars[0], bars[1])) + Decode(bars[2..], ioBase)
    else MemRegion(Base32(bars[0])) + Decode(bars[1..], ioBase)
  }

  /** One step of the decoder, inside a sequence. */
  lemma DecodeAt(bars: seq<bv32>, i: nat, ioBase: Option<bv64>)
    requires i < |bars|
    ensures var v := bars[i];
            Decode(bars[i..], ioBase)
            == if v == 0 then Decode(bars[i + 1..], ioBase)
               else if IsIo(v) then PortRegion(IoPort(v), ioBase) + Decode(bars[i + 1..], ioBase)
               else if IsMem64(v) && i + 1 < |bars| then
                 MemRegion(Base64(v, bars[i + 1])) + Decode(bars[i + 2..], ioBase)
               else MemRegion(Base32(v)) + Decode(bars[i + 1..], ioBase)
  {
    var rest := bars[i..];
    assert rest[1..] == bars[i + 1..];
    assert i + 1 < |bars| ==> rest[1] == bars[i + 1] && rest[2..] == bars[i + 2..];
  }

  /** Register `i` is the upper half of the one before it. */
  predicate IsHigh(bars: seq<bv32>, i: nat)
    requires i < |bars|
  {
    i > 0 && !IsHigh(bars, i - 1) && IsMem64(bars[i - 1])
  }

  /** What slot `i` contributes: nothing, or one region. */
  function AtSlot(bars: seq<bv32>, ioBase: Option<bv64>, i: nat): (rs: seq<Region>)
    requires i < |bars|
    ensures |rs| <= 1
    ensures IsHigh(bars, i) ==> rs == []
  {
    var v := bars[i];
    if IsHigh(bars, i) || v == 0 then []
    else if IsIo(v) then PortRegion(IoPort(v), ioBase)
    else if IsMem64(v) && i + 1 < |bars| then MemRegion(Base64(v, bars[i + 1]))
    else MemRegion(Base32(v))
  }

  function BySlot(bars: seq<bv32>, ioBase: Option<bv64>, i: nat): seq<Region>
    requires i <= |bars|
    decreases |bars| - i
  {
    if i == |bars| then [] else AtSlot(bars, ioBase, i) + BySlot(bars, ioBase, i + 1)
  }

  /**
   The sequential decoder gives the slots' regions in slot order, each slot
   judged by itself: none for the upper half of a 64-bit register, and 32
   bits for a 64-bit type in the last slot.
   */
  lemma {:induction false} DecodeIsBySlot(bars: seq<bv32>, ioBase: Option<bv64>, i: nat)
    requires i <= |bars| && (i < |bars| ==> !IsHigh(bars, i))
    ensures Decode(bars[i..], ioBase) == BySlot(bars, ioBase, i)
    decreases |bars| - i
  {
    if i < |bars| {
      var rest := bars[i..];
      assert rest[0] == bars[i] && rest[1..] == bars[i + 1..];
      if IsMem64(bars[i]) && i + 1 < |bars| {
        assert rest[1] == bars[i + 1] && rest[2..] == bars[i + 2..];
        assert IsHigh(bars, i + 1);
        DecodeIsBySlot(bars, ioBase, i + 2);
      } else {
        DecodeIsBySlot(bars, ioBase, i + 1);
      }
    }
  }

  /** A base address register as firmware programs it. */
  datatype Bar =
    | Unused
    | Io(port: bv32)
    | Mem32(base: bv32, prefetchable: bool)
    | Mem64(address: bv64, prefetchable: bool)

  predicate WellFormedBar(b: Bar) {
    match b
    case Unused => true
    case Io(port) => port & 3 == 0
    case Mem32(base, _) => base & 0xf == 0
    case Mem64(address, _) => address & 0xf == 0
  }

  function EncodeBar(b: Bar): seq<bv32> {
    match b
    case Unused => [0]
    case Io(port) => [port | 1]
    case Mem32(base, p) => [Mem32Word(base, p)]
    case Mem64(address, p) => [TypedWord(Low32(address), p), High32(address)]
  }

  function Mem32Word(base: bv32, prefetchable: bool): bv32 {
    if prefetchable then base | 8 else base
  }

  /** The low word of a 64-bit register. */
  function TypedWord(low: bv32, prefetchable: bool): bv32 {
    if prefetchable then low | 12 else low | 4
  }

  function EncodeBars(bs: seq<Bar>): seq<bv32> {
    if bs == [] then [] else EncodeBar(bs[0]) + EncodeBars(bs[1..])
  }

  function RegionOf(b: Bar, ioBase: Option<bv64>): seq<Region> {
    match b
    case Unused => []
    case Io(port) => PortRegion(port, ioBase)
    case Mem32(base, _) => if base == 0 then [] else [Region(base as bv64, 0x1000)]
    case Mem64(address, _) => if address == 0 then [] else [Region(address, 0x1000)]
  }

  function RegionsOf(bs: seq<Bar>, ioBase: Option<bv64>): seq<Region> {
    if bs == [] then [] else RegionOf(bs[0], ioBase) + RegionsOf(bs[1..], ioBase)
  }

  function Low32(address: bv64): bv32 {
    (address & 0xffff_ffff) as bv32
  }

  function High32(address: bv64): bv32 {
    (address >> 32) as bv32
  }

  lemma LowIsAligned(address: bv64)
    requires address & 0xf == 0
    ensures Low32(address) & 0xf == 0
  {
  }

  lemma TypeBits(low: bv32, p: bool, lo: bv32)
    requires low & 0xf == 0 && lo == TypedWord(low, p)
    ensures lo & 1 == 0 && (lo >> 1) & 3 == 2
    ensures lo != 0
    ensures lo & 0xffff_fff0 == low
  {
  }

  lemma MaskWidens(lo: bv32)
    ensures (lo as bv64) & 0xffff_fff0 == (lo & 0xffff_fff0) as bv64
  {
  }

  lemma HalvesMakeAddress(address: bv64)
    ensures ((High32(address) as bv64) << 32) | (Low32(address) as bv64) == address
  {
  }

  lemma Mem64WordFields(address: bv64, p: bool, lo: bv32, hi: bv32)
    requires address & 0xf == 0 && lo == TypedWord(Low32(address), p) && hi == High32(address)
    ensures lo != 0 && IsMem64(lo) && Base64(lo, hi) == address
  {
    LowIsAligned(address);
    TypeBits(Low32(address), p, lo);
    MaskWidens(lo);
    HalvesMakeAddress(address);
  }

  lemma Mem32WordFields(base: bv32, p: bool, v: bv32)
    requires base & 0xf == 0 && v == Mem32Word(base, p)
    ensures !IsIo(v) && !IsMem64(v) && v & 0xffff_fff0 == base && (v == 0 ==> base == 0)
  {
  }

  lemma IoWordFields(port: bv32, v: bv32)
    requires port & 3 == 0 && v == port | 1
    ensures v != 0 && IsIo(v) && !IsMem64(v) && IoPort(v) == port
  {
  }

  lemma Mem32Region(base: bv32, v: bv32)
    requires v & 0xffff_fff0 == base && (v == 0 ==> base == 0)
    ensures MemRegion(base as bv64) == if v == 0 then [] else MemRegion(Base32(v))
  {
  }

  lemma DecodeOne(v: bv32, rest: seq<bv32>, ioBase: Option<bv64>)
    requires !IsMem64(v)
    ensures Decode([v] + rest, ioBase)
            == (if v == 0 then [] else if IsIo(v) then PortRegion(IoPort(v), ioBase) else MemRegion(Base32(v)))
               + Decode(rest, ioBase)
  {
    assert ([v] + rest)[1..] == rest;
  }

  lemma DecodeTwo(lo: bv32, hi: bv32, rest: seq<bv32>, ioBase: Option<bv64>)
    requires lo != 0 && IsMem64(lo)
    ensures Decode([lo, hi] + rest, ioBase) == MemRegion(Base64(lo, hi)) + Decode(rest, ioBase)
  {
    assert ([lo, hi] + rest)[2..] == rest;
  }

  lemma DecodeIo(port: bv32, v: bv32, rest: seq<bv32>, ioBase: Option<bv64>)
    requires port & 3 == 0 && v == port | 1
    ensures Decode([v] + rest, ioBase) == PortRegion(port, ioBase) + Decode(rest, ioBase)
  {
    IoWordFields(port, v);
    DecodeOne(v, rest, ioBase);
  }

  lemma DecodeMem32(base: bv32, p: bool, v: bv32, rest: seq<bv32>, ioBase: Option<bv64>)
    requires base & 0xf == 0 && v == Mem32Word(base, p)
    ensures Decode([v] + rest, ioBase) == MemRegion(base as bv64) + Decode(rest, ioBase)
  {
    Mem32WordFields(base, p, v);
    Mem32Region(base, v);
    DecodeOne(v, rest, ioBase);
  }

  lemma DecodeMem64(address: bv64, p: bool, lo: bv32, hi: bv32, rest: seq<bv32>, ioBase: Option<bv64>)
    requires address & 0xf == 0 && lo == TypedWord(Low32(address), p) && hi == High32(address)
    ensures Decode([lo, hi] + rest, ioBase) == MemRegion(address) + Decode(rest, ioBase)
  {
    Mem64WordFields(address, p, lo, hi);
    DecodeTwo(lo, hi, rest, ioBase);
  }

  /** A port has 256 bytes of the I/O window, and no place without one. */
  lemma PortRegionIs(port: bv32, base: bv64)
    ensures PortRegion(port, None) == [] && |PortRegion(port, Some(base))| == 1
    ensures PortRegion(port, Some(base))[0].size == 0x100
  {
  }

  lemma PortRegionStarts(port: bv32, base: bv64)
    ensures |PortRegion(port, Some(base))| == 1 && PortRegion(port, Some(base))[0].base == base + port as bv64
  {
  }

  lemma MemRegions(base: bv32, address: bv64, p: bool, ioBase: Option<bv64>)
    ensures RegionOf(Mem32(base, p), ioBase) == MemRegion(base as bv64)
    ensures RegionOf(Mem64(address, p), ioBase) == MemRegion(address)
  {
  }

  lemma DecodeUnused(rest: seq<bv32>, ioBase: Option<bv64>)
    ensures Decode(EncodeBar(Unused) + rest, ioBase) == RegionOf(Unused, ioBase) + Decode(rest, ioBase)
  {
    DecodeOne(0, rest, ioBase);
  }

  lemma DecodeBar(b: Bar, rest: seq<bv32>, ioBase: Option<bv64>)
    requires WellFormedBar(b)
    ensures Decode(EncodeBar(b) + rest, ioBase) == RegionOf(b, ioBase) + Decode(rest, ioBase)
  {
    match b
    case Unused =>
      DecodeUnused(rest, ioBase);
    case Io(port) =>
      DecodeIo(port, port | 1, rest, ioBase);
    case Mem32(base, p) =>
      DecodeMem32(base, p, Mem32Word(base, p), rest, ioBase);
      MemRegions(base, 0, p, ioBase);
    case Mem64(address, p) =>
      DecodeMem64(address, p, TypedWord(Low32(address), p), High32(address), rest, ioBase);
      MemRegions(0, address, p, ioBase);
  }

  /** Decoding gives back the non-zero regions of the registers as programmed. */
  lemma {:induction false} DecodeInvertsEncoding(bs: seq<Bar>, ioBase: Option<bv64>)
    requires forall i :: 0 <= i < |bs| ==> WellFormedBar(bs[i])
    ensures Decode(EncodeBars(bs), ioBase) == RegionsOf(bs, ioBase)
    decreases |bs|
  {
    if bs != [] {
      assert WellFormedBar(bs[0]);
      DecodeBar(bs[0], EncodeBars(bs[1..]), ioBase);
      DecodeInvertsEncoding(bs[1..], ioBase);
    }
  }

  // ---- The fields, bit by bit ----

  lemma Narrow(v: bv32)
    ensures ((v & 0xff) as bv8) as bv32 == v & 0xff && ((v & 0xffff) as bv16) as bv32 == v & 0xffff
  {
  }

  lemma TopBits(w: bv32)
    ensures (w >> 24) & 0xff == w >> 24 && (w >> 16) & 0xffff == w >> 16 && w >> 0 == w
  {
  }

  /** The four bytes of a word, lowest first. */
  lemma BytesOfWord(w: bv32)
    ensures Byte(w, 0) as bv32 == w & 0xff && Byte(w, 1) as bv32 == (w >> 8) & 0xff
    ensures Byte(w, 2) as bv32 == (w >> 16) & 0xff && Byte(w, 3) as bv32 == w >> 24
  {
    Narrow(w >> 0);
    Narrow(w >> 8);
    Narrow(w >> 16);
    Narrow(w >> 24);
    TopBits(w);
  }

  /** Its two half-words. */
  lemma HalvesOfWord(w: bv32)
    ensures Half(w, 0) as bv32 == w & 0xffff && Half(w, 2) as bv32 == w >> 16
  {
    Narrow(w);
    Narrow(w >> 16);
    TopBits(w);
  }

  /** Of a register number only the place in its word matters. */
  lemma PlaceInWord(w: bv32, reg: nat)
    ensures Byte(w, reg) == Byte(w, reg % 4)
  {
  }

  lemma HalfInWord(w: bv32, reg: nat)
    ensures Half(w, reg) == Half(w, if reg % 4 < 2 then 0 else 2)
  {
  }
}
