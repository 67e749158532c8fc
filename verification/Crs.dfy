/**
 Parsing of ACPI `_CRS` buffers: fixed 32-bit memory ranges (section 6.4.3.4
 of ACPI 6.4), interrupt masks (6.4.2.1) and the end tag (6.4.2.9); every
 other descriptor is stepped over.
 */
module Crs {
  import opened Base

  datatype Range = Range(base: u32, size: u32)

  /** `Crash`: the parser indexes past the data it has. */
  datatype Outcome = Done(mmio: seq<Range>, irq: seq<nat>) | Crash

  function Le16(lo: u8, hi: u8): u16 {
    lo + 0x100 * hi
  }

  function Le32(b0: u8, b1: u8, b2: u8, b3: u8): u32 {
    b0 + 0x100 * b1 + 0x1_0000 * b2 + 0x100_0000 * b3
  }

  /** Binary digit number `bit` of the mask: mask & (1 << bit) != 0. */
  predicate BitSet(mask: u16, bit: nat)
    decreases bit, mask
  {
    if bit == 0 then mask % 2 == 1 else BitSet(mask / 2, bit - 1)
  }

  /** The set bits of a mask below `n`, in ascending order. */
  function Bits(mask: u16, n: nat): (bits: seq<nat>)
    decreases n, mask
  {
    if n == 0 then [] else Bits(mask, n - 1) + (if BitSet(mask, n - 1) then [n - 1] else [])
  }

  /** An interrupt list has exactly the set bits of its mask, strictly ascending. */
  lemma {:induction false} BitsAreSetBits(mask: u16, n: nat)
    ensures forall b: nat :: b in Bits(mask, n) <==> b < n && BitSet(mask, b)
    ensures forall i, j :: 0 <= i < j < |Bits(mask, n)| ==> Bits(mask, n)[i] < Bits(mask, n)[j]
  {
    if n > 0 {
      BitsAreSetBits(mask, n - 1);
      var low, bits := Bits(mask, n - 1), Bits(mask, n);
      forall b: nat ensures b in bits <==> b < n && BitSet(mask, b) {
        assert b in bits <==> b in low || (b == n - 1 && BitSet(mask, b));
      }
      forall i, j | 0 <= i < j < |bits| ensures bits[i] < bits[j] {
        assert bits[i] in low;
        assert j < |low| ==> bits[j] == low[j];
      }
    }
  }

  function Pow2(n: nat): (p: nat)
    ensures p > 0
  {
    if n == 0 then 1 else 2 * Pow2(n - 1)
  }

  function SumOfPowers(bits: seq<nat>): nat {
    if bits == [] then 0 else SumOfPowers(bits[..|bits| - 1]) + Pow2(bits[|bits| - 1])
  }

  lemma {:induction false} BitIsDigit(mask: u16, bit: nat)
    ensures BitSet(mask, bit) <==> mask / Pow2(bit) % 2 == 1
    decreases bit
  {
    if bit > 0 {
      BitIsDigit(mask / 2, bit - 1);
      HalfFirst(mask, Pow2(bit - 1));
    }
  }

  lemma HalfFirst(x: nat, p: nat)
    requires p > 0
    ensures x / 2 / p == x / (2 * p)
  {
    var q, r := x / 2 / p, x / 2 % p;
    QuotientAndRest(x / 2, p, q, r);
    DoubleProduct(p, q);
    DivUnique(x, 2 * p, q, 2 * r + x % 2);
  }

  lemma QuotientAndRest(x: nat, p: nat, q: nat, r: nat)
    requires p > 0 && q == x / p && r == x % p
    ensures x == p * q + r && r < p
  {
  }

  lemma DoubleProduct(p: nat, q: nat)
    ensures 2 * p * q == 2 * (p * q)
  {
  }

  lemma DivUnique(x: nat, p: nat, q: nat, r: nat)
    requires p > 0 && x == p * q + r && r < p
    ensures x / p == q
  {
    var q', r' := x / p, x % p;
    assert p * (q' - q) == r - r' by {
      assert x == p * q' + r';
      assert p * (q' - q) == p * q' - p * q;
    }
    SmallMultiple(p, q' - q);
  }

  lemma SmallMultiple(p: int, d: int)
    requires p > 0 && -p < p * d < p
    ensures d == 0
  {
    Multiple(p, d);
  }

  lemma Multiple(p: int, d: int)
    requires p > 0
    ensures d >= 1 ==> p * d >= p
    ensures d <= -1 ==> p * d <= -p
  {
    if d >= 1 {
      assert p * d == p * (d - 1) + p;
    } else if d <= -1 {
      assert p * d == p * (d + 1) - p;
    }
  }

  /** One binary digit more. */
  lemma NextDigit(x: nat, p: nat)
    requires p > 0
    ensures x % (2 * p) == x % p + (if x / p % 2 == 1 then p else 0)
  {
    var q, r := x / p, x % p;
    assert x == p * q + r;
    var h, d := q / 2, q % 2;
    assert x == 2 * p * h + (p * d + r) by {
      assert q == 2 * h + d;
    }
    assert p * d + r < 2 * p;
    ModUnique(x, 2 * p, h, p * d + r);
  }

  lemma ModUnique(x: nat, p: nat, q: nat, r: nat)
    requires p > 0 && x == p * q + r && r < p
    ensures x % p == r
  {
    DivUnique(x, p, q, r);
  }

  /** The interrupts of a mask are those whose powers of two make up the mask. */
  lemma MaskIsSum(mask: u16)
    ensures SumOfPowers(Bits(mask, 16)) == mask
  {
    LowDigitsAreSum(mask, 16);
    SixteenDigits();
  }

  lemma {:induction false} LowDigitsAreSum(mask: u16, n: nat)
    ensures SumOfPowers(Bits(mask, n)) == mask % Pow2(n)
  {
    if n == 0 {
      assert Bits(mask, n) == [] && Pow2(n) == 1;
    } else {
      LowDigitsAreSum(mask, n - 1);
      MoreBits(mask, n);
      OneDigitMore(mask, n, Bits(mask, n - 1), Bits(mask, n));
    }
  }

  lemma OneDigitMore(mask: u16, n: nat, low: seq<nat>, bits: seq<nat>)
    requires n > 0 && bits == low + (if BitSet(mask, n - 1) then [n - 1] else [])
    requires SumOfPowers(low) == mask % Pow2(n - 1)
    ensures SumOfPowers(bits) == mask % (2 * Pow2(n - 1))
  {
    BitIsDigit(mask, n - 1);
    NextDigit(mask, Pow2(n - 1));
    SumGrows(low, n - 1);
    assert low + [] == low;
  }

  lemma MoreBits(mask: u16, n: nat)
    requires n > 0
    ensures Bits(mask, n) == Bits(mask, n - 1) + (if BitSet(mask, n - 1) then [n - 1] else [])
    ensures Pow2(n) == 2 * Pow2(n - 1)
    ensures Bits(mask, n - 1) + [] == Bits(mask, n - 1)
  {
  }

  lemma SumGrows(bits: seq<nat>, b: nat)
    ensures SumOfPowers(bits + [b]) == SumOfPowers(bits) + Pow2(b)
  {
    assert (bits + [b])[..|bits|] == bits;
  }

  lemma SixteenDigits()
    ensures Pow2(16) == 0x1_0000
  {
    assert Pow2(4) == 16;
    assert Pow2(8) == 256;
    assert Pow2(12) == 4096;
  }

  /** `o` with the findings of an earlier descriptor in front. */
  function After(mmio: seq<Range>, irq: seq<nat>, o: Outcome): Outcome {
    match o
    case Crash => Crash
    case Done(m, q) => Done(mmio + m, irq + q)
  }

  /** One round of the loop: stop, index out of bounds, or findings and the bytes to step over. */
  datatype Round = Stop | OutOfBounds | Step(mmio: seq<Range>, irq: seq<nat>, size: nat)

  function Next(b: seq<u8>): (r: Round)
    ensures r.Step? ==> r.size > 0
  {
    if b == [] then Stop else
    var tag := b[0];
    if tag >= 0x80 then
      if |b| < 3 then Stop else
      var len := Le16(b[1], b[2]);
      if |b| < 3 + len then Stop
      else if tag % 0x80 != 6 then Step([], [], 3 + len)
      else if len < 9 then OutOfBounds
      else Step([Range(Le32(b[4], b[5], b[6], b[7]), Le32(b[8], b[9], b[10], b[11]))], [], 3 + len)
    else
      var len, kind := tag % 8, tag / 8 % 16;
      if kind == 15 then Stop
      else if kind == 4 && len >= 2 then
        if |b| < 3 then OutOfBounds else Step([], Bits(Le16(b[1], b[2]), 16), 1 + len)
      else Step([], [], 1 + len)
  }

  /** What the parser makes of the bytes from the next descriptor on; the last step may overshoot. */
  function Parse(b: seq<u8>): Outcome
    decreases |b|
  {
    match Next(b)
    case Stop => Done([], [])
    case OutOfBounds => Crash
    case Step(mmio, irq, size) => After(mmio, irq, if size <= |b| then Parse(b[size..]) else Done([], []))
  }

  lemma AfterAfter(m: seq<Range>, q: seq<nat>, m': seq<Range>, q': seq<nat>, o: Outcome)
    ensures After(m, q, After(m', q', o)) == After(m + m', q + q', o)
  {
    if o.Done? {
      assert m + (m' + o.mmio) == m + m' + o.mmio;
      assert q + (q' + o.irq) == q + q' + o.irq;
    }
  }

  /** One round on the buffer. */
  method OneRound(buffer: array<u8>, i: nat) returns (r: Round)
    requires i < buffer.Length
    ensures r == Next(buffer[i..])
  {
    ghost var b := buffer[i..];
    var tag := buffer[i];
    if tag >= 0x80 {
      if i + 3 > buffer.Length {
        return Stop;
      }
      var len: int := Le16(buffer[i + 1], buffer[i + 2]);
      if i + 3 + len > buffer.Length {
        return Stop;
      }
      if tag % 0x80 != 6 {
        return Step([], [], 3 + len);
      }
      if len < 9 {
        return OutOfBounds;
      }
      var base := Le32(buffer[i + 4], buffer[i + 5], buffer[i + 6], buffer[i + 7]);
      var size := Le32(buffer[i + 8], buffer[i + 9], buffer[i + 10], buffer[i + 11]);
      return Step([Range(base, size)], [], 3 + len);
    }
    var len, kind := tag % 8, tag / 8 % 16;
    if kind == 15 {
      return Stop;
    }
    if kind == 4 && len >= 2 {
      if i + 2 >= buffer.Length {
        return OutOfBounds;
      }
      var bits := SetBits(Le16(buffer[i + 1], buffer[i + 2]));
      return Step([], bits, 1 + len);
    }
    return Step([], [], 1 + len);
  }

  /** What the parser finds from index `i` on; a step may have led past the end. */
  function From(b: seq<u8>, i: nat): Outcome {
    if i <= |b| then Parse(b[i..]) else Done([], [])
  }

  lemma RoundAt(b: seq<u8>, i: nat, r: Round)
    requires i < |b| && Next(b[i..]) == r
    ensures From(b, i) == match r
              case Stop => Done([], [])
              case OutOfBounds => Crash
              case Step(m, q, size) => After(m, q, From(b, i + size))
  {
    if r.Step? && i + r.size <= |b| {
      assert b[i..][r.size..] == b[i + r.size..];
    }
  }

  lemma RoundAfter(mmio: seq<Range>, irq: seq<nat>, b: seq<u8>, i: nat, r: Round)
    requires i < |b| && Next(b[i..]) == r && r.Step?
    ensures After(mmio, irq, From(b, i)) == After(mmio + r.mmio, irq + r.irq, From(b, i + r.size))
  {
    RoundAt(b, i, r);
    AfterAfter(mmio, irq, r.mmio, r.irq, From(b, i + r.size));
  }

  /** The loop over the buffer. */
  method ParseBuffer(buffer: array<u8>) returns (o: Outcome)
    ensures o == Parse(buffer[..])
  {
    ghost var b := buffer[..];
    var mmio: seq<Range>, irq: seq<nat> := [], [];
    var i := 0;
    assert b[0..] == b;
    AfterNothing(Parse(b));
    while i < buffer.Length
      invariant 0 <= i
      invariant Parse(b) == After(mmio, irq, From(b, i))
    {
      var r := OneRound(buffer, i);
      assert buffer[i..] == b[i..];
      if r.Stop? {
        RoundAt(b, i, r);
        return Done(mmio, irq);
      } else if r.OutOfBounds? {
        RoundAt(b, i, r);
        return Crash;
      }
      RoundAfter(mmio, irq, b, i, r);
      mmio, irq, i := mmio + r.mmio, irq + r.irq, i + r.size;
    }
    AfterDone(mmio, irq);
    return Done(mmio, irq);
  }

  /** The bits of an interrupt mask. */
  method SetBits(mask: u16) returns (bits: seq<nat>)
    ensures bits == Bits(mask, 16)
  {
    bits := [];
    for bit := 0 to 16
      invariant bits == Bits(mask, bit)
    {
      if BitSet(mask, bit) {
        bits := bits + [bit];
      }
    }
  }

  // ---- Encoding ----

  /** A resource descriptor; `Small` and `Large` are the kinds the parser has no use for. */
  datatype Resource =
    | Memory32(info: u8, range: Range, extra: seq<u8>)
    | Irq(mask: u16, extra: seq<u8>)
    | Small(kind: nat, data: seq<u8>)
    | Large(kind: nat, data: seq<u8>)

  predicate WellFormed(r: Resource) {
    match r
    case Memory32(_, _, extra) => |extra| <= 0xFFFF - 9
    case Irq(_, extra) => |extra| <= 5
    case Small(kind, data) => kind < 15 && |data| <= 7 && (kind == 4 ==> |data| < 2)
    case Large(kind, data) => kind < 0x80 && kind != 6 && |data| <= 0xFFFF
  }

  function ToLe16(x: u16): seq<u8> {
    [x % 0x100, x / 0x100]
  }

  function ToLe32(x: u32): seq<u8> {
    [x % 0x100, x / 0x100 % 0x100, x / 0x1_0000 % 0x100, x / 0x100_0000]
  }

  function Encode(r: Resource): (b: seq<u8>)
    requires WellFormed(r)
  {
    match r
    case Memory32(info, range, extra) =>
      var n, p, q := ToLe16(9 + |extra|), ToLe32(range.base), ToLe32(range.size);
      [0x86, n[0], n[1], info, p[0], p[1], p[2], p[3], q[0], q[1], q[2], q[3]] + extra
    case Irq(mask, extra) => [0x20 + 2 + |extra|, ToLe16(mask)[0], ToLe16(mask)[1]] + extra
    case Small(kind, data) => [8 * kind + |data|] + data
    case Large(kind, data) => [0x80 + kind, ToLe16(|data|)[0], ToLe16(|data|)[1]] + data
  }

  predicate AllWellFormed(rs: seq<Resource>) {
    forall i :: 0 <= i < |rs| ==> WellFormed(rs[i])
  }

  function EncodeAll(rs: seq<Resource>): seq<u8>
    requires AllWellFormed(rs)
  {
    if rs == [] then [] else Encode(rs[0]) + EncodeAll(rs[1..])
  }

  /** The memory ranges of a list, in order. */
  function Ranges(rs: seq<Resource>): seq<Range> {
    if rs == [] then [] else (if rs[0].Memory32? then [rs[0].range] else []) + Ranges(rs[1..])
  }

  /** The interrupts of a list: the set bits of each mask, mask by mask. */
  function Irqs(rs: seq<Resource>): seq<nat> {
    if rs == [] then [] else (if rs[0].Irq? then Bits(rs[0].mask, 16) else []) + Irqs(rs[1..])
  }

  lemma Le32RoundTrip(x: u32)
    ensures var b := ToLe32(x); Le32(b[0], b[1], b[2], b[3]) == x
  {
    var a := x / 0x100;
    var b := a / 0x100;
    assert x == x % 0x100 + 0x100 * a && a == a % 0x100 + 0x100 * b;
    assert b == x / 0x1_0000 && b / 0x100 == x / 0x100_0000;
  }

  lemma Le32Inverse(b0: u8, b1: u8, b2: u8, b3: u8)
    ensures ToLe32(Le32(b0, b1, b2, b3)) == [b0, b1, b2, b3]
  {
    var x := Le32(b0, b1, b2, b3);
    assert x / 0x100 == b1 + 0x100 * b2 + 0x1_0000 * b3;
    assert x / 0x1_0000 == b2 + 0x100 * b3;
    assert x / 0x100_0000 == b3;
  }

  lemma Memory32ReadsBack(info: u8, range: Range, extra: seq<u8>, rest: seq<u8>)
    requires |extra| <= 0xFFFF - 9
    ensures var e := Encode(Memory32(info, range, extra)); Next(e + rest) == Step([range], [], |e|)
  {
    var e := Encode(Memory32(info, range, extra));
    var b := e + rest;
    assert |e| == 12 + |extra|;
    assert b[..12] == e[..12];
    assert b[1] == e[1] && b[2] == e[2] && b[0] == 0x86;
    assert Le16(b[1], b[2]) == 9 + |extra|;
    Le32RoundTrip(range.base);
    Le32RoundTrip(range.size);
    assert b[4] == e[4] && b[5] == e[5] && b[6] == e[6] && b[7] == e[7];
    assert b[8] == e[8] && b[9] == e[9] && b[10] == e[10] && b[11] == e[11];
  }

  lemma SmallReadsBack(r: Resource, rest: seq<u8>)
    requires WellFormed(r) && (r.Small? || r.Irq?)
    ensures Next(Encode(r) + rest) == Step([], if r.Irq? then Bits(r.mask, 16) else [], |Encode(r)|)
  {
    var e := Encode(r);
    var b := e + rest;
    var kind, len := if r.Irq? then 4 else r.kind, |e| - 1;
    assert b[0] == 8 * kind + len;
    assert b[0] % 8 == len && b[0] / 8 % 16 == kind;
    if r.Irq? {
      assert b[1] == e[1] && b[2] == e[2];
      assert Le16(b[1], b[2]) == r.mask;
    }
  }

  lemma LargeReadsBack(kind: nat, data: seq<u8>, rest: seq<u8>)
    requires WellFormed(Large(kind, data))
    ensures Next(Encode(Large(kind, data)) + rest) == Step([], [], 3 + |data|)
    ensures |Encode(Large(kind, data))| == 3 + |data|
  {
    var e := Encode(Large(kind, data));
    var b := e + rest;
    assert b[0] == e[0] && b[1] == e[1] && b[2] == e[2];
    assert Le16(b[1], b[2]) == |data|;
  }

  /** The parser reads back a descriptor, whatever follows it. */
  lemma NextReadsBack(r: Resource, rest: seq<u8>)
    requires WellFormed(r)
    ensures Next(Encode(r) + rest) == Step(if r.Memory32? then [r.range] else [],
                                           if r.Irq? then Bits(r.mask, 16) else [], |Encode(r)|)
  {
    if r.Memory32? {
      Memory32ReadsBack(r.info, r.range, r.extra, rest);
    } else if r.Large? {
      LargeReadsBack(r.kind, r.data, rest);
    } else {
      SmallReadsBack(r, rest);
    }
  }

  /**
   Parsing inverts encoding: after any well-formed list the parser has its
   memory ranges in order and the set bits of its masks, and goes on with
   whatever follows.
   */
  lemma {:induction false} ParseInvertsEncoding(rs: seq<Resource>, rest: seq<u8>)
    requires AllWellFormed(rs)
    ensures Parse(EncodeAll(rs) + rest) == After(Ranges(rs), Irqs(rs), Parse(rest))
    decreases |rs|
  {
    if rs == [] {
      assert EncodeAll(rs) + rest == rest;
      AfterNothing(Parse(rest));
    } else {
      ParseInvertsEncoding(rs[1..], rest);
      ParsesFirst(rs[0], EncodeAll(rs[1..]) + rest);
      EncodeCons(rs, rest);
      AfterAfter(if rs[0].Memory32? then [rs[0].range] else [], if rs[0].Irq? then Bits(rs[0].mask, 16) else [],
                 Ranges(rs[1..]), Irqs(rs[1..]), Parse(rest));
    }
  }

  lemma EncodeCons(rs: seq<Resource>, rest: seq<u8>)
    requires AllWellFormed(rs) && rs != []
    ensures EncodeAll(rs) + rest == Encode(rs[0]) + (EncodeAll(rs[1..]) + rest)
    ensures Ranges(rs) == (if rs[0].Memory32? then [rs[0].range] else []) + Ranges(rs[1..])
    ensures Irqs(rs) == (if rs[0].Irq? then Bits(rs[0].mask, 16) else []) + Irqs(rs[1..])
  {
  }

  lemma ParsesFirst(d: Resource, tail: seq<u8>)
    requires WellFormed(d)
    ensures Parse(Encode(d) + tail) == After(if d.Memory32? then [d.range] else [],
                                             if d.Irq? then Bits(d.mask, 16) else [], Parse(tail))
  {
    var b := Encode(d) + tail;
    NextReadsBack(d, tail);
    assert b[|Encode(d)|..] == tail;
    ParseRound(b, Next(b));
  }

  lemma AfterNothing(o: Outcome)
    ensures After([], [], o) == o
  {
  }

  /** An end tag (any length bits) ends the list, and nothing behind it matters. */
  lemma EndTagEnds(rs: seq<Resource>, endAndJunk: seq<u8>)
    requires AllWellFormed(rs) && endAndJunk != [] && 0x78 <= endAndJunk[0] < 0x80
    ensures Parse(EncodeAll(rs) + endAndJunk) == Done(Ranges(rs), Irqs(rs))
  {
    ParseStops(endAndJunk, Stop);
    assert Parse(endAndJunk) == Done([], []);
    ParseInvertsEncoding(rs, endAndJunk);
    AfterDone(Ranges(rs), Irqs(rs));
  }

  lemma AfterDone(m: seq<Range>, q: seq<nat>)
    ensures After(m, q, Done([], [])) == Done(m, q)
  {
  }

  // ---- Every buffer ----

  /**
   No further descriptor at these bytes: the end, an end tag, a truncated
   descriptor, or a read past the data of one.
   */
  predicate StopsAt(rest: seq<u8>) {
    var r := Next(rest);
    r.Step? ==> r.size > |rest| && r.mmio == []
  }

  /** What the last round of the loop adds. */
  function Last(r: Round): Outcome {
    match r
    case Stop => Done([], [])
    case OutOfBounds => Crash
    case Step(mmio, irq, _) => Done(mmio, irq)
  }

  lemma Memory32IsResource(b: seq<u8>, len: nat) returns (d: Resource)
    requires |b| >= 3 + len && len >= 9 && b[0] == 0x86 && Le16(b[1], b[2]) == len
    ensures d.Memory32? && WellFormed(d) && b[..3 + len] == Encode(d)
    ensures d.range == Range(Le32(b[4], b[5], b[6], b[7]), Le32(b[8], b[9], b[10], b[11]))
  {
    assert ToLe16(len) == [b[1], b[2]];
    Le32Inverse(b[4], b[5], b[6], b[7]);
    Le32Inverse(b[8], b[9], b[10], b[11]);
    var base, size := Le32(b[4], b[5], b[6], b[7]), Le32(b[8], b[9], b[10], b[11]);
    var extra := b[12..3 + len];
    d := Memory32(b[3], Range(base, size), extra);
    var p := b[..12];
    assert p == [b[0], b[1], b[2], b[3], b[4], b[5], b[6], b[7], b[8], b[9], b[10], b[11]];
    assert b[..3 + len] == p + extra;
  }

  lemma OtherLargeIsResource(b: seq<u8>, len: nat) returns (d: Resource)
    requires |b| >= 3 + len && 0x80 <= b[0] && b[0] != 0x86 && Le16(b[1], b[2]) == len
    ensures d.Large? && WellFormed(d) && b[..3 + len] == Encode(d)
  {
    assert ToLe16(len) == [b[1], b[2]];
    var data := b[3..3 + len];
    d := Large(b[0] - 0x80, data);
    assert b[..3] == [b[0], b[1], b[2]];
    assert b[..3 + len] == b[..3] + data;
  }

  lemma LargeIsResource(b: seq<u8>, r: Round) returns (d: Resource)
    requires Next(b) == r && r.Step? && r.size <= |b| && b[0] >= 0x80
    ensures WellFormed(d) && b[..r.size] == Encode(d)
    ensures r.mmio == (if d.Memory32? then [d.range] else []) && r.irq == [] && !d.Irq?
  {
    var len: int := Le16(b[1], b[2]);
    if b[0] == 0x86 {
      d := Memory32IsResource(b, len);
    } else {
      d := OtherLargeIsResource(b, len);
    }
  }

  lemma SmallTag(tag: u8) returns (len: nat, kind: nat)
    requires tag < 0x80
    ensures len == tag % 8 && kind == tag / 8 % 16 && kind < 16 && len < 8 && tag == 8 * kind + len
  {
    len, kind := tag % 8, tag / 8;
  }

  lemma SmallIsResource(b: seq<u8>, r: Round) returns (d: Resource)
    requires Next(b) == r && r.Step? && r.size <= |b| && b[0] < 0x80
    ensures WellFormed(d) && b[..r.size] == Encode(d)
    ensures r.mmio == [] && !d.Memory32? && r.irq == (if d.Irq? then Bits(d.mask, 16) else [])
  {
    var len, kind := SmallTag(b[0]);
    assert r.size == 1 + len;
    if kind == 4 && len >= 2 {
      d := IrqIsResource(b, len);
    } else {
      d := Small(kind, b[1..r.size]);
      assert b[..r.size] == b[..1] + b[1..r.size];
    }
  }

  lemma IrqIsResource(b: seq<u8>, len: nat) returns (d: Resource)
    requires |b| >= 1+len && 2 <= len < 8 && b[0] == 0x20 + len
    ensures d.Irq? && WellFormed(d) && b[..1 + len] == Encode(d) && d.mask == Le16(b[1], b[2])
  {
    assert ToLe16(Le16(b[1], b[2])) == [b[1], b[2]];
    var e := b[3..1+len];
    d := Irq(Le16(b[1], b[2]), e);
    var p := b[..1+len];
    assert p == b[..3] + e;
    assert b[..3] == [b[0], b[1], b[2]];
  }

  /** The descriptor in front of a step that stays inside the buffer. */
  lemma StepIsResource(b: seq<u8>, r: Round) returns (d: Resource)
    requires Next(b) == r && r.Step? && r.size <= |b|
    ensures WellFormed(d) && b[..r.size] == Encode(d)
    ensures r.mmio == (if d.Memory32? then [d.range] else [])
    ensures r.irq == (if d.Irq? then Bits(d.mask, 16) else [])
  {
    if b[0] >= 0x80 {
      d := LargeIsResource(b, r);
    } else {
      d := SmallIsResource(b, r);
    }
  }

  /**
   For every buffer there is a well-formed list of descriptors at its front,
   followed by bytes at which the parser stops or runs out of bounds; it
   crashes in the second case only.  What it reports is the list, and the
   mask of an interrupt descriptor that is cut off after its mask.
   */
  lemma {:induction false} EveryBuffer(b: seq<u8>) returns (rs: seq<Resource>, rest: seq<u8>)
    ensures AllWellFormed(rs) && b == EncodeAll(rs) + rest && StopsAt(rest)
    ensures Parse(b) == After(Ranges(rs), Irqs(rs), Last(Next(rest)))
    decreases |b|
  {
    var r := Next(b);
    if r.Step? && r.size <= |b| {
      var d := StepIsResource(b, r);
      rs, rest := EveryBuffer(b[r.size..]);
      PrependStep(b, r, d, rs, rest, Last(Next(rest)));
      rs := [d] + rs;
    } else {
      rs, rest := [], b;
      ParseStops(b, r);
      AfterNothing(Last(r));
    }
  }

  /** One more descriptor in front. */
  lemma PrependStep(b: seq<u8>, r: Round, d: Resource, rs: seq<Resource>, rest: seq<u8>, last: Outcome)
    requires Next(b) == r && r.Step? && r.size <= |b|
    requires WellFormed(d) && b[..r.size] == Encode(d)
    requires r.mmio == (if d.Memory32? then [d.range] else []) && r.irq == (if d.Irq? then Bits(d.mask, 16) else [])
    requires AllWellFormed(rs) && b[r.size..] == EncodeAll(rs) + rest
    requires Parse(b[r.size..]) == After(Ranges(rs), Irqs(rs), last)
    ensures AllWellFormed([d] + rs) && b == EncodeAll([d] + rs) + rest
    ensures Parse(b) == After(Ranges([d] + rs), Irqs([d] + rs), last)
  {
    ParseRound(b, r);
    assert b == b[..r.size] + b[r.size..];
    Prepend(d, rs, rest, b);
    AfterAll(r, Ranges(rs), Irqs(rs), last, Ranges([d] + rs), Irqs([d] + rs));
  }

  lemma AfterAll(r: Round, mmio: seq<Range>, irq: seq<nat>, last: Outcome, allMmio: seq<Range>, allIrq: seq<nat>)
    requires r.Step? && allMmio == r.mmio + mmio && allIrq == r.irq + irq
    ensures After(r.mmio, r.irq, After(mmio, irq, last)) == After(allMmio, allIrq, last)
  {
    AfterAfter(r.mmio, r.irq, mmio, irq, last);
  }

  lemma ParseRound(b: seq<u8>, r: Round)
    requires Next(b) == r && r.Step?
    ensures Parse(b) == After(r.mmio, r.irq, if r.size <= |b| then Parse(b[r.size..]) else Done([], []))
  {
  }

  lemma ParseStops(b: seq<u8>, r: Round)
    requires Next(b) == r && (r.Step? ==> r.size > |b|)
    ensures StopsAt(b) && Parse(b) == Last(r)
  {
  }

  lemma Prepend(d: Resource, rs: seq<Resource>, rest: seq<u8>, b: seq<u8>)
    requires WellFormed(d) && AllWellFormed(rs)
    requires b == Encode(d) + (EncodeAll(rs) + rest)
    ensures AllWellFormed([d] + rs) && b == EncodeAll([d] + rs) + rest
    ensures Ranges([d] + rs) == (if d.Memory32? then [d.range] else []) + Ranges(rs)
    ensures Irqs([d] + rs) == (if d.Irq? then Bits(d.mask, 16) else []) + Irqs(rs)
  {
    assert ([d] + rs)[1..] == rs;
    assert Encode(d) + (EncodeAll(rs) + rest) == (Encode(d) + EncodeAll(rs)) + rest;
  }

  // ---- When the parser reads out of bounds ----

  /**
   At these bytes the parser reads what is not there: a complete memory range
   descriptor with fewer than nine bytes of data, or an interrupt descriptor
   that says it has a mask and ends before it does.
   */
  predicate ReadsPastEnd(b: seq<u8>) {
    || (|b| >= 3 && b[0] == 0x86 && Le16(b[1], b[2]) < 9 && |b| >= 3 + Le16(b[1], b[2]))
    || (1 <= |b| <= 2 && 0x22 <= b[0] <= 0x27)
  }

  lemma PastEndIsOutOfBounds(b: seq<u8>)
    ensures Next(b) == OutOfBounds <==> ReadsPastEnd(b)
  {
    if b != [] && b[0] < 0x80 {
      var len, kind := SmallTag(b[0]);
    }
  }

  /** The parser reads out of bounds exactly on a well-formed list followed by such bytes. */
  lemma CrashesExactly(b: seq<u8>)
    ensures Parse(b) == Crash <==>
            exists rs, rest :: AllWellFormed(rs) && b == EncodeAll(rs) + rest && ReadsPastEnd(rest)
  {
    if Parse(b) == Crash {
      var rs, rest := EveryBuffer(b);
      CrashComesLast(Ranges(rs), Irqs(rs), Next(rest));
      PastEndIsOutOfBounds(rest);
    }
    forall rs, rest | AllWellFormed(rs) && b == EncodeAll(rs) + rest && ReadsPastEnd(rest)
      ensures Parse(b) == Crash
    {
      ParseInvertsEncoding(rs, rest);
      PastEndIsOutOfBounds(rest);
      ParseStops(rest, OutOfBounds);
    }
  }

  lemma CrashComesLast(mmio: seq<Range>, irq: seq<nat>, r: Round)
    requires After(mmio, irq, Last(r)) == Crash
    ensures r == OutOfBounds
  {
  }

  /** An empty memory range descriptor, and an interrupt descriptor without its mask. */
  lemma ShortDescriptorsCrash()
    ensures Parse([0x86, 0, 0]) == Crash && Parse([0x22]) == Crash
  {
    PastEndIsOutOfBounds([0x86, 0, 0]);
    PastEndIsOutOfBounds([0x22]);
  }
}
