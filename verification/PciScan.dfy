/** What a PCI scan reports, and which platform it runs on. */
module PciScan {
  import opened Base
  import opened PciConfig

  // ---- Platforms ----

  datatype Routing = NoRouting | Swizzle(expectedBus: nat, baseIrq: nat)
  datatype Platform = Platform(ioBase: Option<bv64>, maxWindow: nat, routing: Routing)

  const GENERIC := Platform(None, MIB, NoRouting)
  const MIB := 0x10_0000

  function Detect(ecamPhys: u64): Platform {
    if ecamPhys == 0x3000_0000 then Platform(Some(0x0300_0000), MIB, Swizzle(0, 32))
    else if ecamPhys == 0x1a00_0000 then Platform(Some(0x1800_8000), MIB, NoRouting)
    else GENERIC
  }

  function WindowBytes(p: Platform, ecamSize: nat): nat {
    Min(ecamSize, p.maxWindow)
  }

  /** The number of buses a scan visits. */
  function BusLimit(p: Platform, ecamSize: nat): nat {
    var buses := WindowBytes(p, ecamSize) / MIB;
    Min(if buses < 1 then 1 else buses, 256)
  }

  /**
   One bus is always scanned, even when the window is smaller than a bus:
   the scan stays inside what is mapped exactly when a whole bus fits.
   */
  lemma ScanStaysInWindow(p: Platform, ecamSize: nat)
    ensures BusLimit(p, ecamSize) * MIB <= WindowBytes(p, ecamSize) <==> ecamSize >= MIB && p.maxWindow >= MIB
  {
    var w := WindowBytes(p, ecamSize);
    if w >= MIB {
      assert w / MIB * MIB <= w;
      assert BusLimit(p, ecamSize) <= w / MIB;
    }
  }

  function MapIntx(p: Platform, bus: nat, dev: nat, pin: nat): Option<nat> {
    if !(1 <= pin <= 4) then None else
    match p.routing
    case NoRouting => None
    case Swizzle(expectedBus, baseIrq) => if bus != expectedBus then None else Some(baseIrq + (dev + pin - 1) % 4)
  }

  /** The four pins of a device go to four different lines, and one device further they rotate by one. */
  lemma SwizzleSpreadsPins(p: Platform, dev: nat, pin: nat, pin': nat)
    requires p.routing.Swizzle? && 1 <= pin <= 4 && 1 <= pin' <= 4
    ensures var b := p.routing.expectedBus;
            MapIntx(p, b, dev, pin).Some?
            && p.routing.baseIrq <= MapIntx(p, b, dev, pin).value < p.routing.baseIrq + 4
            && (MapIntx(p, b, dev, pin) == MapIntx(p, b, dev, pin') <==> pin == pin')
            && (MapIntx(p, b, dev + 1, pin) == MapIntx(p, b, dev, pin') <==> pin' == pin % 4 + 1)
  {
  }

  /** A window of whole buses holds all functions of every device on them. */
  lemma WindowHolds(bus: nat, dev: nat, buses: nat, words: nat)
    requires bus < buses && dev < 32 && 0x4_0000 * buses <= words
    ensures 0x400 * Unit(bus, dev, 8) <= words
  {
  }

  // ---- A function's report, from its configuration space ----

  /** The words of one function. */
  type Space = w: seq<bv32> | |w| == 0x400 witness seq(0x400, _ => 0)

  predicate Has(c: seq<bv32>, u: nat) {
    0x400 * u + 0x400 <= |c|
  }

  /** Function `u` of the window. */
  function SpaceOf(c: seq<bv32>, u: nat): Space
    requires Has(c, u)
  {
    c[0x400 * u..0x400 * u + 0x400]
  }

  predicate Present(w: Space) {
    Half(w[0], 0) != 0xffff
  }

  predicate Multifunction(w: Space) {
    Byte(w[3], 0xe) & 0x80 != 0
  }

  predicate IsSerial(vendor: bv16, device: bv16) {
    vendor == 0x1b36 && device == 0x0002
  }

  predicate Serial(w: Space) {
    IsSerial(Half(w[0], 0), Half(w[0], 2))
  }

  datatype Node = Node(
    unitAddr: nat, vendor: bv16, device: bv16, revision: bv8, progIf: bv8, subclass: bv8, classCode: bv8,
    headerType: bv8, mmio: seq<Region>, irq: seq<nat>)

  function BarCount(headerType: bv8): nat {
    if headerType & 0x7f == 0x01 then 2 else 6
  }

  /** The base address registers of a function. */
  function Bars(w: Space): seq<bv32> {
    w[4..4 + BarCount(Byte(w[3], 0xe))]
  }

  /** An unassigned serial function gets the start of the I/O window. */
  function Mmio(regions: seq<Region>, serial: bool, ioBase: Option<bv64>): seq<Region> {
    if regions == [] && serial && ioBase.Some? then [Region(ioBase.value, 0x100)] else regions
  }

  function Irq(p: Platform, bus: nat, dev: nat, line: bv8, pin: bv8): seq<nat> {
    if pin != 0 && line != 0 && line != 0xff then [line as nat]
    else
      match MapIntx(p, bus, dev, pin as nat)
      case Some(irq) => [irq]
      case None => []
  }

  /** The identification fields, without resources. */
  function HeaderOf(w: Space, u: nat): Node {
    Node(u, Half(w[0], 0), Half(w[0], 2), Byte(w[2], 8), Byte(w[2], 9), Byte(w[2], 0xa), Byte(w[2], 0xb),
         Byte(w[3], 0xe) & 0x7f, [], [])
  }

  function NodeOf(w: Space, u: nat, p: Platform): Node {
    HeaderOf(w, u).(
      mmio := Mmio(Decode(Bars(w), p.ioBase), Serial(w), p.ioBase),
      irq := Irq(p, u / 0x100, u / 8 % 32, Byte(w[0xf], 0x3c), Byte(w[0xf], 0x3d)))
  }

  /** A function with its command word as the scan leaves it. */
  function Enable(w: Space): Space {
    w[1 := Enabled(w[1])]
  }

  /** Nothing that is reported is in the command and status word. */
  lemma CommandDoesNotMatter(w: Space, command: bv32, u: nat, p: Platform)
    ensures var w' := w[1 := command];
            Present(w') == Present(w) && Multifunction(w') == Multifunction(w) && Serial(w') == Serial(w)
            && NodeOf(w', u, p) == NodeOf(w, u, p)
  {
    assert Bars(w[1 := command]) == Bars(w);
  }

  /** A write to one word is a write to one function. */
  lemma WriteIsLocal(c: seq<bv32>, u: nat, i: nat, word: bv32)
    requires Has(c, u) && i < 0x400
    ensures var c' := c[0x400 * u + i := word];
            SpaceOf(c', u) == SpaceOf(c, u)[i := word]
            && forall v: nat :: Has(c, v) && v != u ==> SpaceOf(c', v) == SpaceOf(c, v)
  {
    var c' := c[0x400 * u + i := word];
    forall v: nat | Has(c, v) && v != u ensures SpaceOf(c', v) == SpaceOf(c, v) {
      assert v < u || u < v;
    }
  }

  // ---- The report ----

  /** Function 0 of the same device. */
  function First(u: nat): nat {
    u / 8 * 8
  }

  /** What the scan is to report. */
  predicate Listed(c: seq<bv32>, u: nat)
    requires Has(c, u)
  {
    Present(SpaceOf(c, u)) && Present(SpaceOf(c, First(u))) && (u % 8 == 0 || Multifunction(SpaceOf(c, First(u))))
  }

  /** The report on functions below `k`. */
  function Report(c: seq<bv32>, k: nat, p: Platform): seq<Node>
    requires 0x400 * k <= |c|
  {
    if k == 0 then []
    else Report(c, k - 1, p) + (if Listed(c, k - 1) then [NodeOf(SpaceOf(c, k - 1), k - 1, p)] else [])
  }

  /** The node is that of a function below `k` which is to be listed. */
  predicate Belongs(c: seq<bv32>, k: nat, p: Platform, n: Node)
    requires 0x400 * k <= |c|
  {
    n.unitAddr < k && Listed(c, n.unitAddr) && n == NodeOf(SpaceOf(c, n.unitAddr), n.unitAddr, p)
  }

  lemma ReportStep(c: seq<bv32>, k: nat, p: Platform) returns (added: seq<Node>)
    requires 0 < k && 0x400 * k <= |c|
    ensures Report(c, k, p) == Report(c, k - 1, p) + added
    ensures |added| <= 1 && forall i :: 0 <= i < |added| ==> added[i].unitAddr == k - 1
    ensures forall n :: Belongs(c, k, p, n) <==> Belongs(c, k - 1, p, n) || n in added
  {
    added := if Listed(c, k - 1) then [NodeOf(SpaceOf(c, k - 1), k - 1, p)] else [];
    forall n ensures Belongs(c, k, p, n) <==> Belongs(c, k - 1, p, n) || n in added {
      BelongsBelow(c, k, p, n);
    }
  }

  lemma BelongsBelow(c: seq<bv32>, k: nat, p: Platform, n: Node)
    requires 0 < k && 0x400 * k <= |c|
    ensures Belongs(c, k, p, n) <==>
            Belongs(c, k - 1, p, n) || (Listed(c, k - 1) && n == NodeOf(SpaceOf(c, k - 1), k - 1, p))
  {
  }

  lemma {:induction false} ReportBelongs(c: seq<bv32>, k: nat, p: Platform, n: Node)
    requires 0x400 * k <= |c|
    ensures n in Report(c, k, p) <==> Belongs(c, k, p, n)
    decreases k
  {
    if k > 0 {
      ReportBelongs(c, k - 1, p, n);
      var added := ReportStep(c, k, p);
    }
  }

  /** The addresses in a list ascend, and stay below `k`. */
  predicate Ascending(nodes: seq<Node>, k: nat) {
    && (forall i, j :: 0 <= i < j < |nodes| ==> nodes[i].unitAddr < nodes[j].unitAddr)
    && (forall i :: 0 <= i < |nodes| ==> nodes[i].unitAddr < k)
  }

  lemma HighestLast(low: seq<Node>, added: seq<Node>, k: nat)
    requires Ascending(low, k) && |added| <= 1 && forall i :: 0 <= i < |added| ==> added[i].unitAddr == k
    ensures Ascending(low + added, k + 1)
  {
  }

  lemma {:induction false} ReportAscends(c: seq<bv32>, k: nat, p: Platform)
    requires 0x400 * k <= |c|
    ensures Ascending(Report(c, k, p), k)
    decreases k
  {
    if k > 0 {
      ReportAscends(c, k - 1, p);
      var added := ReportStep(c, k, p);
      HighestLast(Report(c, k - 1, p), added, k - 1);
    }
  }

  /** One node for each function to be listed, none for any other, addresses strictly ascending. */
  lemma ReportIsSoundAndComplete(c: seq<bv32>, k: nat, p: Platform)
    requires 0x400 * k <= |c|
    ensures var nodes := Report(c, k, p);
            (forall i, j :: 0 <= i < j < |nodes| ==> nodes[i].unitAddr < nodes[j].unitAddr)
            && (forall n :: n in nodes <==> n.unitAddr < k && Listed(c, n.unitAddr)
                                            && n == NodeOf(SpaceOf(c, n.unitAddr), n.unitAddr, p))
  {
    ReportAscends(c, k, p);
    forall n ensures n in Report(c, k, p) <==> Belongs(c, k, p, n) {
      ReportBelongs(c, k, p, n);
    }
  }

  /** Function `u` after a scan of the functions below `k`: enabled if it is a listed serial function. */
  function After(c: seq<bv32>, u: nat, k: nat): Space
    requires Has(c, u)
  {
    if u < k && Listed(c, u) && Serial(SpaceOf(c, u)) then Enable(SpaceOf(c, u)) else SpaceOf(c, u)
  }

  /** The window after a scan of the functions below `k`. */
  ghost predicate Enables(c: seq<bv32>, e: seq<bv32>, k: nat) {
    |c| == |e| && forall u: nat :: Has(c, u) ==> SpaceOf(e, u) == After(c, u, k)
  }

  /** What the scan sees of a function is what was there at the start. */
  lemma SeenAsBefore(c: seq<bv32>, e: seq<bv32>, k: nat, u: nat, p: Platform)
    requires Enables(c, e, k) && Has(c, u)
    ensures var w, w' := SpaceOf(c, u), SpaceOf(e, u);
            Present(w') == Present(w) && Multifunction(w') == Multifunction(w) && Serial(w') == Serial(w)
            && NodeOf(w', u, p) == NodeOf(w, u, p)
  {
    var w := SpaceOf(c, u);
    CommandDoesNotMatter(w, Enabled(w[1]), u, p);
    assert SpaceOf(e, u) == w || SpaceOf(e, u) == Enable(w);
  }

  /** Functions from `k` up to `k'` are not to be reported. */
  lemma {:induction false} ReportSkips(c: seq<bv32>, e: seq<bv32>, k: nat, k': nat, p: Platform)
    requires k <= k' && 0x400 * k' <= |c|
    requires forall u :: k <= u < k' ==> !Listed(c, u)
    requires Enables(c, e, k)
    ensures Report(c, k', p) == Report(c, k, p) && Enables(c, e, k')
    decreases k'
  {
    if k < k' {
      ReportSkips(c, e, k, k' - 1, p);
    }
  }

  /** What looking at function `u` does to the window. */
  function Visit(e: seq<bv32>, u: nat): seq<bv32>
    requires Has(e, u)
  {
    var w := SpaceOf(e, u);
    if Present(w) && Serial(w) then e[0x400 * u + 1 := Enabled(w[1])] else e
  }

  lemma VisitEnables(c: seq<bv32>, e: seq<bv32>, u: nat)
    requires Has(c, u) && Enables(c, e, u) && Listed(c, u)
    requires var w := SpaceOf(e, u); Present(w) && (Serial(w) == Serial(SpaceOf(c, u)))
    ensures Enables(c, Visit(e, u), u + 1)
  {
    var w, e' := SpaceOf(e, u), Visit(e, u);
    WriteIsLocal(e, u, 1, Enabled(w[1]));
    forall v: nat | Has(c, v) ensures SpaceOf(e', v) == After(c, v, u + 1) {
      assert SpaceOf(e, v) == After(c, v, u);
    }
  }

  /** One function of a device whose function 0 is there, and has others if `u` is one of those. */
  lemma FunctionStep(c: seq<bv32>, e: seq<bv32>, u: nat, p: Platform)
    requires Has(c, u) && Enables(c, e, u)
    requires Present(SpaceOf(c, First(u))) && (u % 8 == 0 || Multifunction(SpaceOf(c, First(u))))
    ensures Enables(c, Visit(e, u), u + 1)
    ensures var w := SpaceOf(e, u);
            Report(c, u + 1, p) == Report(c, u, p) + (if Present(w) then [NodeOf(w, u, p)] else [])
  {
    SeenAsBefore(c, e, u, u, p);
    if Present(SpaceOf(c, u)) {
      VisitEnables(c, e, u);
    } else {
      ReportSkips(c, e, u, u + 1, p);
    }
  }

  /** The scan decides on a device by its function 0, whatever it has enabled so far. */
  lemma DeviceStep(c: seq<bv32>, e: seq<bv32>, k: nat, u: nat, p: Platform)
    requires u % 8 == 0 && 0x400 * (u + 8) <= |c| && u <= k <= u + 1 && Enables(c, e, k)
    ensures var w, w' := SpaceOf(c, u), SpaceOf(e, u);
            Present(w') == Present(w) && Multifunction(w') == Multifunction(w)
    ensures var w := SpaceOf(e, u);
            !Present(w) || (k == u + 1 && !Multifunction(w)) ==>
              Report(c, u + 8, p) == Report(c, k, p) && Enables(c, e, u + 8)
  {
    SeenAsBefore(c, e, k, u, p);
    if !Present(SpaceOf(c, u)) || (k == u + 1 && !Multifunction(SpaceOf(c, u))) {
      NoneListed(c, k, u);
      ReportSkips(c, e, k, u + 8, p);
    }
  }

  lemma FirstOfDevice(u: nat, v: nat)
    requires u % 8 == 0 && u <= v < u + 8
    ensures First(v) == u && (v % 8 == 0 <==> v == u)
  {
  }

  lemma NoneListed(c: seq<bv32>, k: nat, u: nat)
    requires u % 8 == 0 && 0x400 * (u + 8) <= |c| && u <= k <= u + 1
    requires var w := SpaceOf(c, u); !Present(w) || (k == u + 1 && !Multifunction(w))
    ensures forall v :: k <= v < u + 8 ==> !Listed(c, v)
  {
    forall v | k <= v < u + 8 ensures !Listed(c, v) {
      FirstOfDevice(u, v);
    }
  }

  // ---- The report, bit by bit ----

  /** What identifies a function, by the bits of its first four words. */
  lemma IdentifiesBy(w: Space)
    ensures Present(w) <==> w[0] & 0xffff != 0xffff
    ensures Multifunction(w) <==> w[3] & 0x80_0000 != 0
    ensures Serial(w) <==> w[0] == 0x0002_1b36
  {
    HalvesOfWord(w[0]);
    Bit23(w[3]);
    BothHalves(w[0]);
  }

  lemma Bit23(v: bv32)
    ensures Byte(v, 0xe) & 0x80 != 0 <==> v & 0x80_0000 != 0
  {
  }

  lemma BothHalves(v: bv32)
    ensures v & 0xffff == 0x1b36 && v >> 16 == 2 <==> v == 0x0002_1b36
  {
  }

  /** The fields of a node, by the bits of the function's words. */
  lemma FieldsReported(w: Space, u: nat, p: Platform)
    ensures var n := NodeOf(w, u, p);
            && n.unitAddr == u && n.vendor as bv32 == w[0] & 0xffff && n.device as bv32 == w[0] >> 16
            && n.revision as bv32 == w[2] & 0xff && n.progIf as bv32 == (w[2] >> 8) & 0xff
            && n.subclass as bv32 == (w[2] >> 16) & 0xff && n.classCode as bv32 == w[2] >> 24
            && n.headerType as bv32 == (w[3] >> 16) & 0x7f
  {
    IdFields(w[0]);
    ClassFields(w[2]);
    TypeField(w[3]);
  }

  lemma IdFields(v: bv32)
    ensures Half(v, 0) as bv32 == v & 0xffff && Half(v, 2) as bv32 == v >> 16
  {
    HalvesOfWord(v);
  }

  lemma ClassFields(v: bv32)
    ensures Byte(v, 8) as bv32 == v & 0xff && Byte(v, 9) as bv32 == (v >> 8) & 0xff
    ensures Byte(v, 0xa) as bv32 == (v >> 16) & 0xff && Byte(v, 0xb) as bv32 == v >> 24
  {
    BytesOfWord(v);
    PlaceInWord(v, 8);
    PlaceInWord(v, 9);
    PlaceInWord(v, 0xa);
    PlaceInWord(v, 0xb);
  }

  lemma LineField(v: bv32)
    ensures Byte(v, 0x3c) as nat == (v & 0xff) as nat
  {
    BytesOfWord(v);
    PlaceInWord(v, 0x3c);
    SameNumber(Byte(v, 0x3c), v & 0xff);
  }

  lemma PinField(v: bv32)
    ensures Byte(v, 0x3d) as nat == ((v >> 8) & 0xff) as nat
  {
    BytesOfWord(v);
    PlaceInWord(v, 0x3d);
    SameNumber(Byte(v, 0x3d), (v >> 8) & 0xff);
  }

  lemma TypeField(v: bv32)
    ensures (Byte(v, 0xe) & 0x7f) as bv32 == (v >> 16) & 0x7f
  {
  }

  /**
   The interrupt of a node: the configured line if there are a pin and a line
   that is neither 0 nor 255; otherwise, on the bus of a platform that swizzles,
   the line of the device and its pin, and none elsewhere.
   */
  lemma InterruptReported(w: Space, bus: nat, dev: nat, func: nat, p: Platform)
    requires dev < 32 && func < 8
    ensures var n := NodeOf(w, 0x100 * bus + 8 * dev + func, p);
            var line, pin := (w[15] & 0xff) as nat, ((w[15] >> 8) & 0xff) as nat;
            n.irq == if pin != 0 && line != 0 && line != 255 then [line]
                     else if 1 <= pin <= 4 && p.routing.Swizzle? && bus == p.routing.expectedBus
                     then [p.routing.baseIrq + (dev + pin - 1) % 4] else []
  {
    LineField(w[15]);
    PinField(w[15]);
    UnitIsInjective(bus, dev, func);
    RoutedBy(p, bus, dev, Byte(w[15], 0x3c), Byte(w[15], 0x3d));
  }

  lemma RoutedBy(p: Platform, bus: nat, dev: nat, line: bv8, pin: bv8)
    ensures Irq(p, bus, dev, line, pin) ==
            if pin as nat != 0 && line as nat != 0 && line as nat != 255 then [line as nat]
            else if 1 <= pin as nat <= 4 && p.routing.Swizzle? && bus == p.routing.expectedBus
            then [p.routing.baseIrq + (dev + pin as nat - 1) % 4] else []
  {
  }

  lemma SameNumber(b: bv8, v: bv32)
    requires b as bv32 == v
    ensures b as nat == v as nat
  {
  }

  /**
   The regions of a node are those of its base address registers, each judged
   by itself: the six words from 0x10 on, or two for a bridge (type 1).  Without
   any, a serial function has the start of the I/O window.
   */
  lemma RegionsReported(w: Space, u: nat, p: Platform)
    ensures var bars := if (w[3] >> 16) & 0x7f != 1 then w[4..10] else w[4..6];
            var regions, mmio := BySlot(bars, p.ioBase, 0), NodeOf(w, u, p).mmio;
            if regions != [] then mmio == regions
            else if w[0] == 0x0002_1b36 && p.ioBase.Some? then mmio == [Region(p.ioBase.value, 0x100)]
            else mmio == []
  {
    TypeField(w[3]);
    IdentifiesBy(w);
    DecodeIsBySlot(Bars(w), p.ioBase, 0);
    assert Bars(w)[0..] == Bars(w);
  }

  /** An ordinary function whose registers were programmed with a list of regions is reported with these regions. */
  lemma ProgrammedRegionsReported(w: Space, u: nat, p: Platform, bs: seq<Bar>)
    requires (w[3] >> 16) & 0x7f != 1 && w[4..10] == EncodeBars(bs)
    requires forall i :: 0 <= i < |bs| ==> WellFormedBar(bs[i])
    ensures RegionsOf(bs, p.ioBase) != [] ==> NodeOf(w, u, p).mmio == RegionsOf(bs, p.ioBase)
  {
    TypeField(w[3]);
    DecodeInvertsEncoding(bs, p.ioBase);
  }

  /** What is listed, by the words of the window: a present function of a present device, others only of several. */
  lemma ListedBy(c: seq<bv32>, u: nat)
    requires Has(c, u)
    ensures var first := 0x400 * (u - u % 8);
            first + 0x400 <= |c|
            && (Listed(c, u) <==>
                  && c[0x400 * u] & 0xffff != 0xffff && c[first] & 0xffff != 0xffff
                  && (u % 8 == 0 || c[first + 3] & 0x80_0000 != 0))
  {
    IdentifiesBy(SpaceOf(c, u));
    IdentifiesBy(SpaceOf(c, First(u)));
  }

  /** What a scan leaves of every word: only the command words of listed serial functions change, in two bits. */
  lemma EveryWord(c: seq<bv32>, e: seq<bv32>, k: nat, u: nat, i: nat)
    requires Enables(c, e, k) && Has(c, u) && i < 0x400
    ensures var w, w' := c[0x400 * u + i], e[0x400 * u + i];
            w' == if i == 1 && u < k && Listed(c, u) && c[0x400 * u] == 0x0002_1b36 then (w | 1) & !0x400 else w
  {
    IdentifiesBy(SpaceOf(c, u));
    assert SpaceOf(e, u)[i] == e[0x400 * u + i] && SpaceOf(c, u)[i] == c[0x400 * u + i];
    assert SpaceOf(c, u)[0] == c[0x400 * u];
  }

  /** The platforms, by the address of the window. */
  lemma KnownPlatforms(ecamPhys: u64)
    ensures var p := Detect(ecamPhys);
            && p.maxWindow == 0x10_0000
            && (ecamPhys == 0x3000_0000 ==> p.ioBase == Some(0x0300_0000) && p.routing == Swizzle(0, 32))
            && (ecamPhys == 0x1a00_0000 ==> p.ioBase == Some(0x1800_8000) && p.routing == NoRouting)
            && (ecamPhys != 0x3000_0000 && ecamPhys != 0x1a00_0000 ==> p.ioBase == None && p.routing == NoRouting)
  {
  }

  /** The buses scanned: one at least, at most 256, and between these as many as fit the window. */
  lemma BusesScanned(p: Platform, ecamSize: nat)
    ensures var n, bytes := BusLimit(p, ecamSize), if ecamSize < p.maxWindow then ecamSize else p.maxWindow;
            && 1 <= n <= 256 && (n > 1 ==> n * 0x10_0000 <= bytes) && (n < 256 ==> bytes < (n + 1) * 0x10_0000)
  {
  }
}
