/** The PCI bus driver: enumeration through a mapped ECAM window. */
module PciDriver {
  import opened Base
  import opened PciConfig
  import opened PciScan

  class PciBusDriver {
    const ecam: array<bv32>
    const platform: Platform
    const busLimit: nat

    /** The window, as words; the caller has mapped whole buses. */
    constructor (ecam: array<bv32>, ecamPhys: u64, ecamSize: nat)
      requires 4 * ecam.Length >= BusLimit(Detect(ecamPhys), ecamSize) * MIB
      ensures Valid() && this.ecam == ecam && platform == Detect(ecamPhys) && busLimit == BusLimit(platform, ecamSize)
    {
      this.ecam := ecam;
      platform := Detect(ecamPhys);
      busLimit := BusLimit(Detect(ecamPhys), ecamSize);
    }

    ghost predicate Valid() {
      busLimit <= 0x100 && 0x4_0000 * busLimit <= ecam.Length
    }

    /** The function's configuration space is inside the window. */
    ghost predicate Mapped(bus: nat, dev: nat, func: nat) {
      0x400 * Unit(bus, dev, func) + 0x400 <= ecam.Length
    }

    ghost function At(bus: nat, dev: nat, func: nat): Space
      requires Mapped(bus, dev, func)
      reads ecam
    {
      SpaceOf(ecam[..], Unit(bus, dev, func))
    }

    function ReadU32(bus: nat, dev: nat, func: nat, reg: nat): (w: bv32)
      requires Mapped(bus, dev, func) && reg < 0x1000
      reads ecam
      ensures w == At(bus, dev, func)[reg / 4]
    {
      WordAt(bus, dev, func, reg);
      ecam[CfgOff(bus, dev, func, reg) / 4]
    }

    /** The aligned word that register `reg` lies in. */
    function ReadAligned(bus: nat, dev: nat, func: nat, reg: nat): (w: bv32)
      requires Mapped(bus, dev, func) && reg < 0x1000
      reads ecam
      ensures w == At(bus, dev, func)[reg / 4]
    {
      ReadU32(bus, dev, func, Aligned(reg))
    }

    function ReadU16(bus: nat, dev: nat, func: nat, reg: nat): (w: bv16)
      requires Mapped(bus, dev, func) && reg < 0x1000
      reads ecam
      ensures w == Half(At(bus, dev, func)[reg / 4], reg)
    {
      Half(ReadAligned(bus, dev, func, reg), reg)
    }

    function ReadU8(bus: nat, dev: nat, func: nat, reg: nat): (w: bv8)
      requires Mapped(bus, dev, func) && reg < 0x1000
      reads ecam
      ensures w == Byte(At(bus, dev, func)[reg / 4], reg)
    {
      Byte(ReadAligned(bus, dev, func, reg), reg)
    }

    /** Read, replace the half-word, write back. */
    method WriteU16(bus: nat, dev: nat, func: nat, reg: nat, val: bv16)
      requires Mapped(bus, dev, func) && reg < 0x1000
      modifies ecam
      ensures var i := 0x400 * Unit(bus, dev, func) + reg / 4;
              ecam[..] == old(ecam[..])[i := WithHalf(old(ecam[i]), reg, val)]
    {
      var word := ReadAligned(bus, dev, func, reg);
      WordAt(bus, dev, func, reg);
      ecam[CfgOff(bus, dev, func, Aligned(reg)) / 4] := WithHalf(word, reg, val);
    }

    method EnsureSerialIntxEnabled(bus: nat, dev: nat, func: nat, vendor: bv16, device: bv16)
      requires Mapped(bus, dev, func)
      modifies ecam
      ensures var i := 0x400 * Unit(bus, dev, func) + 1;
              ecam[..] == if IsSerial(vendor, device) then old(ecam[..])[i := Enabled(old(ecam[i]))] else old(ecam[..])
    {
      if !IsSerial(vendor, device) {
        return;
      }
      ghost var i := 0x400 * Unit(bus, dev, func) + 1;
      EnableByHalf(ecam[i]);
      var before := ReadU16(bus, dev, func, 4);
      var after := (before | 1) & !0x400;
      if before != after {
        WriteU16(bus, dev, func, 4, after);
      } else {
        assert ecam[..] == old(ecam[..])[i := old(ecam[i])];
      }
    }

    predicate DevicePresent(bus: nat, dev: nat, func: nat)
      requires Mapped(bus, dev, func)
      reads ecam
      ensures DevicePresent(bus, dev, func) == Present(At(bus, dev, func))
    {
      ReadU16(bus, dev, func, 0) != 0xffff
    }

    predicate IsMultifunction(bus: nat, dev: nat)
      requires Mapped(bus, dev, 0)
      reads ecam
      ensures IsMultifunction(bus, dev) == Multifunction(At(bus, dev, 0))
    {
      ReadU8(bus, dev, 0, 0xe) & 0x80 != 0
    }

    method ParseBars(bus: nat, dev: nat, func: nat, headerType: bv8) returns (out: seq<Region>)
      requires Mapped(bus, dev, func)
      requires headerType == Byte(At(bus, dev, func)[3], 0xe)
      ensures out == Decode(Bars(At(bus, dev, func)), platform.ioBase)
    {
      var maxBars := if headerType & 0x7f == 0x01 then 2 else 6;
      ghost var bars := Bars(At(bus, dev, func));
      var bar := 0;
      out := [];
      assert bars[0..] == bars;
      while bar < maxBars
        invariant 0 <= bar <= maxBars == |bars|
        invariant Decode(bars, platform.ioBase) == out + Decode(bars[bar..], platform.ioBase)
      {
        var found, wide := ParseBar(bus, dev, func, bar, maxBars);
        ghost var rest := Decode(bars[if wide then bar + 2 else bar + 1..], platform.ioBase);
        assert out + (found + rest) == (out + found) + rest;
        out := out + found;
        bar := if wide then bar + 2 else bar + 1;
      }
    }

    /** One round of the loop: the region found, and whether it took two registers. */
    method ParseBar(bus: nat, dev: nat, func: nat, bar: nat, maxBars: nat) returns (found: seq<Region>, wide: bool)
      requires Mapped(bus, dev, func)
      requires maxBars == |Bars(At(bus, dev, func))| && bar < maxBars
      ensures wide ==> bar + 1 < maxBars
      ensures var bars := Bars(At(bus, dev, func));
              Decode(bars[bar..], platform.ioBase)
              == found + Decode(bars[if wide then bar + 2 else bar + 1..], platform.ioBase)
    {
      ghost var bars := Bars(At(bus, dev, func));
      DecodeAt(bars, bar, platform.ioBase);
      var v := ReadBar(bus, dev, func, bar);
      if v == 0 {
        return [], false;
      }
      if IsIo(v) {
        if platform.ioBase.Some? {
          return [Region(platform.ioBase.value + IoPort(v) as bv64, 0x100)], false;
        }
        return [], false;
      }
      wide := IsMem64(v) && bar + 1 < maxBars;
      var base;
      if wide {
        base := Base64(v, ReadBar(bus, dev, func, bar + 1));
      } else {
        base := Base32(v);
      }
      found := if base != 0 then [Region(base, 0x1000)] else [];
    }

    function ReadBar(bus: nat, dev: nat, func: nat, bar: nat): (v: bv32)
      requires Mapped(bus, dev, func) && bar < |Bars(At(bus, dev, func))|
      reads ecam
      ensures v == Bars(At(bus, dev, func))[bar]
    {
      assert (0x10 + 4 * bar) / 4 == 4 + bar;
      ReadU32(bus, dev, func, 0x10 + 4 * bar)
    }

    /** The fields read before anything is written. */
    method ReadHeader(bus: nat, dev: nat, func: nat) returns (node: Node)
      requires Mapped(bus, dev, func)
      ensures node == HeaderOf(At(bus, dev, func), Unit(bus, dev, func))
    {
      var vendor, device := ReadU16(bus, dev, func, 0), ReadU16(bus, dev, func, 2);
      var revision, progIf := ReadU8(bus, dev, func, 8), ReadU8(bus, dev, func, 9);
      var subclass, classCode := ReadU8(bus, dev, func, 0xa), ReadU8(bus, dev, func, 0xb);
      var headerType := ReadU8(bus, dev, func, 0xe);
      return Node(Unit(bus, dev, func), vendor, device, revision, progIf, subclass, classCode,
                  headerType & 0x7f, [], []);
    }

    /** The regions, with the fallback for an unassigned serial function. */
    method FindMmio(bus: nat, dev: nat, func: nat, headerType: bv8, serial: bool) returns (mmio: seq<Region>)
      requires Mapped(bus, dev, func)
      requires headerType == Byte(At(bus, dev, func)[3], 0xe)
      ensures mmio == Mmio(Decode(Bars(At(bus, dev, func)), platform.ioBase), serial, platform.ioBase)
    {
      mmio := ParseBars(bus, dev, func, headerType);
      if mmio == [] && serial && platform.ioBase.Some? {
        mmio := mmio + [Region(platform.ioBase.value, 0x100)];
      }
    }

    /** The interrupt: as configured, or as the platform routes the pin. */
    method FindIrq(bus: nat, dev: nat, line: bv8, pin: bv8) returns (irq: seq<nat>)
      ensures irq == Irq(platform, bus, dev, line, pin)
    {
      irq := [];
      if pin != 0 && line != 0 && line != 0xff {
        irq := irq + [line as nat];
      } else {
        var mapped := MapIntx(platform, bus, dev, pin as nat);
        if mapped.Some? {
          irq := irq + [mapped.value];
        }
      }
    }

    method BuildDescNode(bus: nat, dev: nat, func: nat) returns (node: Option<Node>)
      requires Mapped(bus, dev, func) && InRange(dev, func)
      modifies ecam
      ensures ecam[..] == Visit(old(ecam[..]), Unit(bus, dev, func))
      ensures var w := old(At(bus, dev, func));
              node == if Present(w) then Some(NodeOf(w, Unit(bus, dev, func), platform)) else None
    {
      ghost var c, u, w := ecam[..], Unit(bus, dev, func), At(bus, dev, func);
      if !DevicePresent(bus, dev, func) {
        return None;
      }
      var header := ReadHeader(bus, dev, func);
      var headerType := ReadU8(bus, dev, func, 0xe);
      var line, pin := ReadU8(bus, dev, func, 0x3c), ReadU8(bus, dev, func, 0x3d);
      EnsureSerialIntxEnabled(bus, dev, func, header.vendor, header.device);
      WriteIsLocal(c, u, 1, Enabled(w[1]));
      CommandDoesNotMatter(w, Enabled(w[1]), u, platform);
      var mmio := FindMmio(bus, dev, func, headerType, IsSerial(header.vendor, header.device));
      var irq := FindIrq(bus, dev, line, pin);
      UnitIsInjective(bus, dev, func);
      return Some(header.(mmio := mmio, irq := irq));
    }

    method Scan() returns (nodes: seq<Node>)
      requires Valid()
      modifies ecam
      ensures nodes == Report(old(ecam[..]), 0x100 * busLimit, platform)
      ensures Enables(old(ecam[..]), ecam[..], 0x100 * busLimit)
    {
      ghost var c := ecam[..];
      nodes := [];
      for bus := 0 to busLimit
        invariant nodes == Report(c, 0x100 * bus, platform) && Enables(c, ecam[..], 0x100 * bus)
      {
        for dev := 0 to 32
          invariant nodes == Report(c, Unit(bus, dev, 0), platform) && Enables(c, ecam[..], Unit(bus, dev, 0))
        {
          WindowHolds(bus, dev, busLimit, ecam.Length);
          nodes := ScanDevice(bus, dev, nodes, c);
          assert Unit(bus, dev, 8) == Unit(bus, dev + 1, 0);
        }
        assert Unit(bus, 32, 0) == 0x100 * (bus + 1);
      }
    }

    /** One round of the two outer loops. */
    method ScanDevice(bus: nat, dev: nat, before: seq<Node>, ghost c: seq<bv32>) returns (nodes: seq<Node>)
      requires dev < 32 && 0x400 * Unit(bus, dev, 8) <= |c| == ecam.Length
      requires before == Report(c, Unit(bus, dev, 0), platform) && Enables(c, ecam[..], Unit(bus, dev, 0))
      modifies ecam
      ensures nodes == Report(c, Unit(bus, dev, 8), platform) && Enables(c, ecam[..], Unit(bus, dev, 8))
    {
      ghost var u := Unit(bus, dev, 0);
      nodes := before;
      var present := ProbeDevice(bus, dev, c);
      if !present {
        return;
      }
      nodes := ScanFunction(bus, dev, 0, nodes, c);
      var multifunction := ProbeMultifunction(bus, dev, c);
      if multifunction {
        nodes := ScanOthers(bus, dev, nodes, c);
      }
    }

    /** Is there a device?  If not, none of its functions is to be reported. */
    method ProbeDevice(bus: nat, dev: nat, ghost c: seq<bv32>) returns (present: bool)
      requires dev < 32 && 0x400 * Unit(bus, dev, 8) <= |c| == ecam.Length
      requires Enables(c, ecam[..], Unit(bus, dev, 0))
      ensures present == Present(SpaceOf(c, Unit(bus, dev, 0)))
      ensures !present ==> Report(c, Unit(bus, dev, 8), platform) == Report(c, Unit(bus, dev, 0), platform)
                           && Enables(c, ecam[..], Unit(bus, dev, 8))
    {
      ghost var u, e := Unit(bus, dev, 0), ecam[..];
      DeviceStep(c, e, u, u, platform);
      assert At(bus, dev, 0) == SpaceOf(e, u);
      present := DevicePresent(bus, dev, 0);
    }

    /** Does it have more functions?  If not, function 0 was all there is to report. */
    method ProbeMultifunction(bus: nat, dev: nat, ghost c: seq<bv32>) returns (multifunction: bool)
      requires dev < 32 && 0x400 * Unit(bus, dev, 8) <= |c| == ecam.Length
      requires Enables(c, ecam[..], Unit(bus, dev, 1))
      ensures multifunction == Multifunction(SpaceOf(c, Unit(bus, dev, 0)))
      ensures !multifunction ==> Report(c, Unit(bus, dev, 8), platform) == Report(c, Unit(bus, dev, 1), platform)
                                 && Enables(c, ecam[..], Unit(bus, dev, 8))
    {
      ghost var u, e := Unit(bus, dev, 0), ecam[..];
      DeviceStep(c, e, u + 1, u, platform);
      assert At(bus, dev, 0) == SpaceOf(e, u);
      multifunction := IsMultifunction(bus, dev);
    }

    /** The loop over the functions behind function 0. */
    method ScanOthers(bus: nat, dev: nat, before: seq<Node>, ghost c: seq<bv32>) returns (nodes: seq<Node>)
      requires dev < 32 && 0x400 * Unit(bus, dev, 8) <= |c| == ecam.Length
      requires var w := SpaceOf(c, Unit(bus, dev, 0)); Present(w) && Multifunction(w)
      requires before == Report(c, Unit(bus, dev, 1), platform) && Enables(c, ecam[..], Unit(bus, dev, 1))
      modifies ecam
      ensures nodes == Report(c, Unit(bus, dev, 8), platform) && Enables(c, ecam[..], Unit(bus, dev, 8))
    {
      nodes := before;
      for func := 1 to 8
        invariant nodes == Report(c, Unit(bus, dev, func), platform) && Enables(c, ecam[..], Unit(bus, dev, func))
      {
        nodes := ScanFunction(bus, dev, func, nodes, c);
      }
    }

    /** Report one function if it is there. */
    method ScanFunction(bus: nat, dev: nat, func: nat, before: seq<Node>, ghost c: seq<bv32>)
      returns (nodes: seq<Node>)
      requires InRange(dev, func) && 0x400 * Unit(bus, dev, 8) <= |c| == ecam.Length
      requires var w := SpaceOf(c, Unit(bus, dev, 0)); Present(w) && (func == 0 || Multifunction(w))
      requires before == Report(c, Unit(bus, dev, func), platform) && Enables(c, ecam[..], Unit(bus, dev, func))
      modifies ecam
      ensures nodes == Report(c, Unit(bus, dev, func + 1), platform)
      ensures Enables(c, ecam[..], Unit(bus, dev, func + 1))
    {
      ghost var u := Unit(bus, dev, func);
      UnitIsInjective(bus, dev, func);
      assert First(u) == Unit(bus, dev, 0);
      assert Unit(bus, dev, func + 1) == u + 1 && Has(c, u);
      ghost var e := ecam[..];
      FunctionStep(c, e, u, platform);
      var node := BuildDescNode(bus, dev, func);
      assert ecam[..] == Visit(e, u);
      nodes := before;
      if node.Some? {
        nodes := nodes + [node.value];
      }
    }
  }
}
