/**
 The two rings of a split virtqueue: a power-of-two buffer addressed by
 free-running 16-bit indices.  The live entries are the ones from the
 consumer's index up to the producer's index.
 */
module Rings {
  import opened Base

  /** How many entries the producer is ahead, as 16-bit subtraction computes it. */
  function Outstanding(tail: u16, head: u16): (n: nat)
    ensures n < TWO16
  {
    (head - tail) % TWO16
  }

  function Succ(i: u16): u16 {
    (i + 1) % TWO16
  }

  /** The live entries, oldest first. */
  function Contents<T>(buf: seq<T>, tail: u16, head: u16): (c: seq<T>)
    requires |buf| > 0
    ensures |c| == Outstanding(tail, head)
  {
    seq(Outstanding(tail, head), i requires 0 <= i < TWO16 => buf[(tail + i) % TWO16 % |buf|])
  }

  /** A ring size for which index wrap-around is harmless. */
  ghost predicate GoodSize(n: int) {
    0 < n < TWO16 && TWO16 % n == 0
  }

  lemma Multiple(m: int, k: int)
    requires m > 0
    ensures k >= 1 ==> m * k >= m
    ensures k <= -1 ==> m * k <= -m
  {
    if k >= 1 {
      assert m * k == m * (k - 1) + m;
    } else if k <= -1 {
      assert m * k == m * (k + 1) - m;
    }
  }

  lemma ModOfSum(m: int, q: int, r: int)
    requires m > 0
    ensures (m * q + r) % m == r % m
  {
    var a, b := (m * q + r) / m, (m * q + r) % m;
    var c, d := r / m, r % m;
    assert m * (a - q - c) == d - b by {
      assert m * a + b == m * q + (m * c + d);
      assert m * (a - q - c) == m * a - m * q - m * c;
    }
    Multiple(m, a - q - c);
  }

  /** Reducing an index modulo 65536 first does not change its slot. */
  lemma WrapKeepsSlot(x: int, n: int)
    requires GoodSize(n)
    ensures x % TWO16 % n == x % n
  {
    var k := TWO16 / n;
    assert TWO16 == n * k;
    var q := x / TWO16;
    assert x == n * (k * q) + x % TWO16 by {
      assert (n * k) * q == n * (k * q);
    }
    ModOfSum(n, k * q, x % TWO16);
  }

  /** Indices less than a ring apart use different slots. */
  lemma NearbySlotsDiffer(x: int, d: int, n: int)
    requires 0 < d < n
    ensures (x + d) % n != x % n
  {
    var a, b := (x + d) / n, x / n;
    assert n * (a - b) == d + x % n - (x + d) % n by {
      assert n * a - n * b == d + x % n - (x + d) % n;
    }
    Multiple(n, a - b);
  }

  /** Slot `i` places behind the consumer. */
  function Slot(n: nat, tail: u16, i: nat): nat
    requires n > 0
  {
    (tail + i) % TWO16 % n
  }

  lemma ContentsAt<T>(buf: seq<T>, tail: u16, head: u16, i: nat)
    requires |buf| > 0 && i < Outstanding(tail, head)
    ensures Slot(|buf|, tail, i) < |buf| && Contents(buf, tail, head)[i] == buf[Slot(|buf|, tail, i)]
  {
  }

  lemma SlotsDiffer(n: nat, tail: u16, i: nat, k: nat)
    requires GoodSize(n) && i < k < n
    ensures Slot(n, tail, i) != Slot(n, tail, k)
  {
    WrapKeepsSlot(tail + i, n);
    WrapKeepsSlot(tail + k, n);
    NearbySlotsDiffer(tail + i, k - i, n);
  }

  lemma AheadIsSlot(tail: u16, head: u16)
    ensures head == (tail + Outstanding(tail, head)) % TWO16
    ensures Outstanding(tail, head) + 1 < TWO16 ==> Outstanding(tail, Succ(head)) == Outstanding(tail, head) + 1
    ensures tail != head ==> Outstanding(Succ(tail), head) == Outstanding(tail, head) - 1
  {
    OutstandingByCases(tail, head);
    OutstandingByCases(tail, Succ(head));
    OutstandingByCases(Succ(tail), head);
    SuccByCases(tail);
    SuccByCases(head);
  }

  lemma OutstandingByCases(tail: u16, head: u16)
    ensures Outstanding(tail, head) == if head >= tail then head - tail else head - tail + TWO16
  {
  }

  lemma SuccByCases(i: u16)
    ensures Succ(i) == if i == TWO16 - 1 then 0 else i + 1
  {
  }

  lemma PutExtends<T>(buf: seq<T>, tail: u16, head: u16, x: T)
    requires GoodSize(|buf|)
    requires Outstanding(tail, head) < |buf|
    ensures Contents(buf[head % |buf| := x], tail, Succ(head)) == Contents(buf, tail, head) + [x]
  {
    AheadIsSlot(tail, head);
    var n, k, buf' := |buf|, Outstanding(tail, head), buf[head % |buf| := x];
    var c, c' := Contents(buf, tail, head), Contents(buf', tail, Succ(head));
    forall i | 0 <= i <= k ensures c'[i] == (c + [x])[i] {
      ContentsAt(buf', tail, Succ(head), i);
      if i < k {
        SlotsDiffer(n, tail, i, k);
        ContentsAt(buf, tail, head, i);
      }
    }
  }

  lemma SuccThen(n: nat, tail: u16, i: nat)
    requires n > 0
    ensures Slot(n, Succ(tail), i) == Slot(n, tail, i + 1)
  {
  }

  lemma TakeDropsFirst<T>(buf: seq<T>, tail: u16, head: u16)
    requires |buf| > 0
    requires tail != head
    ensures Contents(buf, tail, head) == [buf[tail % |buf|]] + Contents(buf, Succ(tail), head)
  {
    AheadIsSlot(tail, head);
    var c, c' := Contents(buf, tail, head), [buf[tail % |buf|]] + Contents(buf, Succ(tail), head);
    forall i | 0 <= i < |c| ensures c[i] == c'[i] {
      ContentsAt(buf, tail, head, i);
      if i > 0 {
        SuccThen(|buf|, tail, i - 1);
        ContentsAt(buf, Succ(tail), head, i - 1);
      }
    }
  }

  // ---- Whole runs: the wrapping ring is an unbounded FIFO queue ----

  datatype Op<T> = Put(x: T) | Take

  /** A ring with everything ever put in and everything ever taken out. */
  datatype Log<T> = Log(buf: seq<T>, tail: u16, head: u16, put: seq<T>, taken: seq<T>)

  /** A producer stays within the ring; a consumer takes only what is there. */
  ghost predicate Enabled<T>(l: Log<T>, op: Op<T>) {
    match op
    case Put(_) => Outstanding(l.tail, l.head) < |l.buf|
    case Take => l.tail != l.head
  }

  ghost function Do<T>(l: Log<T>, op: Op<T>): Log<T>
    requires |l.buf| > 0
  {
    match op
    case Put(x) => l.(buf := l.buf[l.head % |l.buf| := x], head := Succ(l.head), put := l.put + [x])
    case Take => l.(tail := Succ(l.tail), taken := l.taken + [l.buf[l.tail % |l.buf|]])
  }

  ghost predicate Run<T>(l: Log<T>, ops: seq<Op<T>>, l': Log<T>)
    requires |l.buf| > 0
    decreases |ops|
  {
    if ops == [] then l' == l else Enabled(l, ops[0]) && Run(Do(l, ops[0]), ops[1..], l')
  }

  ghost predicate Fifo<T>(l: Log<T>) {
    GoodSize(|l.buf|) && l.put == l.taken + Contents(l.buf, l.tail, l.head)
  }

  /**
   Over every run, across any number of index wrap-arounds, the consumer has
   taken exactly a prefix of what was put, in order, and the rest is in the ring.
   */
  lemma {:induction false} RingIsFifo<T>(l: Log<T>, ops: seq<Op<T>>, l': Log<T>)
    requires Fifo(l) && Run(l, ops, l')
    ensures Fifo(l')
    ensures |l'.buf| == |l.buf| && l.put <= l'.put && l.taken <= l'.taken <= l'.put
    decreases |ops|
  {
    if ops != [] {
      match ops[0] {
        case Put(x) =>
          PutExtends(l.buf, l.tail, l.head, x);
        case Take =>
          TakeDropsFirst(l.buf, l.tail, l.head);
      }
      RingIsFifo(Do(l, ops[0]), ops[1..], l');
    }
  }

  // ---- Which ring sizes keep the order ----

  ghost predicate InOrder<T>(l: Log<T>) {
    |l.buf| > 0 && l.put == l.taken + Contents(l.buf, l.tail, l.head)
  }

  /** On rings of `n` slots, every run keeps what was put in the order of what is taken and what is left. */
  ghost predicate KeepsOrder(n: int) {
    forall l: Log<int>, ops: seq<Op<int>>, l': Log<int> ::
      |l.buf| == n && InOrder(l) && Run(l, ops, l') ==> InOrder(l')
  }

  /** The ring as a fresh queue finds it, and the same after `k` entries have passed through it. */
  ghost function Start(n: nat): Log<int> {
    Log(seq(n, _ => 0), 0, 0, [], [])
  }

  ghost function Passed(n: nat, k: u16): Log<int> {
    Log(seq(n, _ => 0), k, k, Zeros(k), Zeros(k))
  }

  ghost function Zeros(k: nat): seq<int> {
    seq(k, _ => 0)
  }

  ghost predicate KeepsOrderFromStart(n: nat)
    requires n > 0
  {
    forall ops: seq<Op<int>>, l': Log<int> :: Run(Start(n), ops, l') ==> InOrder(l')
  }

  /** Put one entry and take it out again, `k` times. */
  ghost function Pairs(k: nat): seq<Op<int>> {
    if k == 0 then [] else Pairs(k - 1) + [Put(0)] + [Take]
  }

  /** Put 0, 1, 2 and so on. */
  ghost function CountUp(m: nat): seq<Op<int>> {
    seq(m, i => Put(i))
  }

  lemma {:induction false} RunSnoc<T>(l: Log<T>, ops: seq<Op<T>>, l1: Log<T>, op: Op<T>)
    requires |l.buf| > 0 && Run(l, ops, l1)
    ensures |l1.buf| == |l.buf|
    ensures Enabled(l1, op) ==> Run(l, ops + [op], Do(l1, op))
    decreases |ops|
  {
    if ops == [] {
      assert [] + [op] == [op] && [op][1..] == [];
    } else {
      RunSnoc(Do(l, ops[0]), ops[1..], l1, op);
      assert (ops + [op])[0] == ops[0] && (ops + [op])[1..] == ops[1..] + [op];
    }
  }

  lemma {:induction false} RunsCompose<T>(a: Log<T>, s: seq<Op<T>>, b: Log<T>, t: seq<Op<T>>, c: Log<T>)
    requires |a.buf| > 0 && Run(a, s, b) && |b.buf| > 0 && Run(b, t, c)
    ensures Run(a, s + t, c)
    decreases |s|
  {
    if s == [] {
      assert s + t == t;
    } else {
      RunsCompose(Do(a, s[0]), s[1..], b, t, c);
      assert (s + t)[0] == s[0] && (s + t)[1..] == s[1..] + t;
    }
  }

  /** An entry that passes through an empty ring of zeros. */
  lemma PassOne(n: nat, k: u16)
    requires 0 < n && k + 1 < TWO16
    ensures Enabled(Passed(n, k), Put(0)) && Enabled(Do(Passed(n, k), Put(0)), Take)
    ensures Do(Do(Passed(n, k), Put(0)), Take) == Passed(n, k + 1)
  {
    var l := Passed(n, k);
    assert l.buf[k % n := 0] == l.buf;
    assert Zeros(k) + [0] == Zeros(k + 1);
  }

  /** Any number of entries passes through. */
  lemma {:induction false} PairsRun(n: nat, k: u16)
    requires 0 < n
    ensures Run(Start(n), Pairs(k), Passed(n, k))
    decreases k
  {
    if k > 0 {
      PairsRun(n, k - 1);
      PassOne(n, k - 1);
      RunSnoc(Start(n), Pairs(k - 1), Passed(n, k - 1), Put(0));
      RunSnoc(Start(n), Pairs(k - 1) + [Put(0)], Do(Passed(n, k - 1), Put(0)), Take);
    } else {
      assert Passed(n, k) == Start(n);
    }
  }

  /** An empty ring just before its indices wrap. */
  ghost function BeforeWrap(n: nat): Log<int> {
    Passed(n, TWO16 - 1)
  }

  /** Up to `n` puts fit, and the last one is where its index says. */
  lemma {:induction false} CountUpRuns(n: nat, m: nat) returns (l: Log<int>)
    requires 0 < m <= n < TWO16
    ensures Run(BeforeWrap(n), CountUp(m), l) && |l.buf| == n
    ensures l.tail == TWO16 - 1 && l.head == m - 1 && l.taken == Zeros(TWO16 - 1)
    ensures |l.put| == TWO16 - 1 + m && l.put[TWO16 - 1] == 0
    ensures l.buf[(if m == 1 then TWO16 - 1 else m - 2) % n] == m - 1
    decreases m
  {
    var l0 := BeforeWrap(n);
    if m > 1 {
      l0 := CountUpRuns(n, m - 1);
    } else {
      assert CountUp(0) == [] && Run(l0, CountUp(0), l0);
    }
    RunSnoc(BeforeWrap(n), CountUp(m - 1), l0, Put(m - 1));
    assert CountUp(m - 1) + [Put(m - 1)] == CountUp(m);
    l := Do(l0, Put(m - 1));
    CountedHead(m - 1, l0.head);
  }

  /** The index after `k` puts from just before the wrap, and how far it is ahead. */
  lemma CountedHead(k: nat, head: u16)
    requires k + 1 < TWO16 && head == if k == 0 then TWO16 - 1 else k - 1
    ensures Outstanding(TWO16 - 1, head) == k && Succ(head) == k
  {
  }

  /** Just before the wrap and `r` entries after it the index picks the same slot, where r = 65536 mod n. */
  lemma SlotsCollide(n: nat, r: nat)
    requires 0 < n < TWO16 && r == TWO16 % n && r > 0
    ensures (TWO16 - 1) % n == r - 1 && (r - 1) % n == r - 1
  {
    assert TWO16 - 1 == n * (TWO16 / n) + (r - 1);
    ModOfSum(n, TWO16 / n, r - 1);
    SmallMod(r - 1, n);
  }

  lemma SmallMod(x: nat, n: nat)
    requires x < n
    ensures x % n == x
  {
  }

  /** The oldest entry reads as another one. */
  lemma FirstDiffers(l: Log<int>, x: int)
    requires |l.buf| > 0 && l.tail != l.head && |l.put| > |l.taken|
    requires Contents(l.buf, l.tail, l.head)[0] == x != l.put[|l.taken|]
    ensures !InOrder(l)
  {
    assert (l.taken + Contents(l.buf, l.tail, l.head))[|l.taken|] == x;
  }

  /**
   A ring whose size does not divide 65536 loses an entry: from the empty ring
   of a fresh queue, when the indices first wrap, while it is not yet full.
   */
  lemma UnalignedSizesBreakOrder(n: nat) returns (ops: seq<Op<int>>, l: Log<int>)
    requires 0 < n < TWO16 && TWO16 % n != 0
    ensures InOrder(Start(n)) && Run(Start(n), ops, l) && !InOrder(l)
  {
    var r := TWO16 % n;
    SlotsCollide(n, r);
    l := CountUpRuns(n, r + 1);
    ContentsAt(l.buf, l.tail, l.head, 0);
    assert Slot(n, l.tail, 0) == r - 1;
    FirstDiffers(l, r);
    PairsRun(n, TWO16 - 1);
    RunsCompose(Start(n), Pairs(TWO16 - 1), BeforeWrap(n), CountUp(r + 1), l);
    ops := Pairs(TWO16 - 1) + CountUp(r + 1);
  }

  /**
   The rings keep the order of their entries over every run if and only if
   their size divides 65536: over every run from the empty ring of a fresh
   queue, and over every run from any ring that is in order.
   */
  lemma OrderKeptIffSizeDivides(n: nat)
    requires 0 < n < TWO16
    ensures KeepsOrderFromStart(n) <==> TWO16 % n == 0
    ensures KeepsOrder(n) <==> TWO16 % n == 0
  {
    if TWO16 % n == 0 {
      forall l: Log<int>, ops: seq<Op<int>>, l': Log<int> | |l.buf| == n && InOrder(l) && Run(l, ops, l')
        ensures InOrder(l')
      {
        RingIsFifo(l, ops, l');
      }
      assert InOrder(Start(n));
    } else {
      var ops, l := UnalignedSizesBreakOrder(n);
    }
  }

  lemma TwoAtTheWrap(l0: Log<int>) returns (l: Log<int>)
    requires l0.buf == [0, 0, 0] && l0.tail == l0.head == TWO16 - 1 && l0.put == l0.taken
    ensures Enabled(l0, Put(7)) && Enabled(Do(l0, Put(7)), Put(8)) && l == Do(Do(l0, Put(7)), Put(8))
    ensures |l.buf| == 3 && Outstanding(l.tail, l.head) == 2
    ensures l.put == l.taken + [7, 8] && Contents(l.buf, l.tail, l.head) == [8, 8]
  {
    var l1 := Do(l0, Put(7));
    l := Do(l1, Put(8));
    assert l1.buf == [7, 0, 0] && l.buf == [8, 0, 0];
    assert l.put == l.taken + [7] + [8] == l.taken + [7, 8];
    assert Contents(l.buf, l.tail, l.head) == [8, 8];
  }

  /** For instance, a ring of three slots: the entries 7 and 8, put where the index wraps, read as 8 and 8. */
  lemma UnalignedSizeBreaksFifo() returns (ops: seq<Op<int>>, l: Log<int>)
    ensures !GoodSize(3) && Run(Start(3), ops, l) && |l.buf| == 3 && Outstanding(l.tail, l.head) == 2
    ensures l.put == l.taken + [7, 8] && Contents(l.buf, l.tail, l.head) == [8, 8]
  {
    var l0 := BeforeWrap(3);
    assert l0.buf == [0, 0, 0];
    l := TwoAtTheWrap(l0);
    PairsRun(3, TWO16 - 1);
    RunSnoc(Start(3), Pairs(TWO16 - 1), l0, Put(7));
    RunSnoc(Start(3), Pairs(TWO16 - 1) + [Put(7)], Do(l0, Put(7)), Put(8));
    ops := Pairs(TWO16 - 1) + [Put(7)] + [Put(8)];
  }
}
