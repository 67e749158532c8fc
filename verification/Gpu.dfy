/**
 The virtio-gpu driver: one command at a time through a control queue of
 sixteen descriptors, spinning until the device has answered.
 */
module Gpu {
  import opened Base
  import opened IoUring
  import V = VirtQueues
  import VirtQueueDriver
  import Rings

  const QUEUE_SIZE := 16
  const CMD_OFFSET := 8192
  const RESP_OFFSET := 12288
  const RESOURCE_ID: u32 := 1
  const FORMAT_B8G8R8A8: u32 := 1
  const RESP_OK_NO_DATA: u32 := 0x1100
  const RESP_OK_DISPLAY_INFO: u32 := 0x1101

  datatype Rect = Rect(x: u32, y: u32, width: u32, height: u32)

  datatype Command =
    | GetDisplayInfo
    | ResourceCreate2d(id: u32, format: u32, width: u32, height: u32)
    | ResourceAttachBacking(id: u32, addr: u64, length: u32)
    | SetScanout(r: Rect, scanout: u32, id: u32)
    | TransferToHost2d(r: Rect, offset: u64, id: u32)
    | ResourceFlush(r: Rect, id: u32)

  /** A reply header with, for display information, the first mode. */
  datatype Reply = Reply(ty: u32, mode: Rect)

  /** The bytes of a command and of the reply to it (section 5.7.6 of VirtIO 1.1). */
  function CommandBytes(c: Command): (n: u32)
    ensures 24 <= n <= 56
  {
    match c
    case GetDisplayInfo => 24
    case ResourceCreate2d(_, _, _, _) => 40
    case ResourceAttachBacking(_, _, _) => 48
    case SetScanout(_, _, _) => 48
    case TransferToHost2d(_, _, _) => 56
    case ResourceFlush(_, _) => 48
  }

  function ReplyBytes(c: Command): (n: u32) {
    if c.GetDisplayInfo? then 408 else 24
  }

  /** The reply buffer before a command is sent. */
  const CLEARED := Reply(0, Rect(0, 0, 0, 0))

  datatype Status = Good | IoError | NoMemory

  /** The two buffer cells that driver and device share, by device address. */
  class CommandBuffer {
    const pa: u64
    var cmd: Command
    var resp: Reply

    constructor (pa: u64)
      requires pa + 4 * 4096 <= TWO64
      ensures this.pa == pa
    {
      this.pa := pa;
      cmd := GetDisplayInfo;
      resp := Reply(0, Rect(0, 0, 0, 0));
    }
  }

  /**
   A device that answers each command once, after some delay, in any way:
   `react` gives its reply to the last command of a history.
   */
  class Device {
    const react: seq<Command> -> Reply
    var received: seq<Command>
    var availSeen: u16
    var delay: nat

    constructor (react: seq<Command> -> Reply)
      ensures this.react == react && received == [] && availSeen == 0
    {
      this.react := react;
      received, availSeen, delay := [], 0, 0;
    }

    method Notify()
      modifies this`delay
    {
      delay := *;
    }

    /** One look at the avail ring.  The device reads command and reply buffer through the chain. */
    method Poll(q: VirtQueueDriver.VirtQueue, buf: CommandBuffer)
      requires q.Valid() && this !in q.Repr && (buf as object) !in q.Repr
      modifies this, q`usedIdx, q.used, buf`resp
      ensures q.Valid()
      ensures q.View() == old(q.View()).(used := q.View().used, usedIdx := q.usedIdx)
      ensures old(delay) > 0 || !WaitingFor(old(q.View()), old(availSeen), buf.pa, buf.cmd) ==>
                q.View() == old(q.View()) && received == old(received) && availSeen == old(availSeen)
                && buf.resp == old(buf.resp)
      ensures old(delay) > 0 ==> delay == old(delay) - 1
      ensures old(delay) == 0 && WaitingFor(old(q.View()), old(availSeen), buf.pa, buf.cmd) ==>
                && received == old(received) + [buf.cmd] && buf.resp == react(received)
                && availSeen == Rings.Succ(old(availSeen)) && q.usedIdx == Rings.Succ(old(q.usedIdx))
                && q.View().used == old(q.View()).used[old(q.usedIdx) % q.num :=
                     V.UsedElem(old(q.View()).avail[old(availSeen) % q.num], RESPONSE_LEN)]
    {
      if delay > 0 {
        delay := delay - 1;
      } else if availSeen != q.availIdx {
        var head := q.avail[availSeen % q.num];
        if head < q.num {
          var d0 := q.desc[head];
          var d1 := q.desc[d0.next];
          if IsCommand(d0, buf.pa, CommandBytes(buf.cmd)) && IsReply(d1, buf.pa, ReplyBytes(buf.cmd)) {
            received := received + [buf.cmd];
            buf.resp := react(received);
            q.used[q.usedIdx % q.num] := V.UsedElem(head, RESPONSE_LEN);
            q.usedIdx := Rings.Succ(q.usedIdx);
            availSeen := Rings.Succ(availSeen);
          }
        }
      }
    }
  }

  const RESPONSE_LEN: u32 := 24

  /** The descriptor shows the device the command buffer on the third page, to be read, and links on. */
  predicate IsCommand(d: V.Descriptor, pa: u64, len: u32) {
    d.addr == pa + 8192 && d.len == len && d.HasNext() && !d.DeviceWrites()
  }

  /** The descriptor shows the device the reply buffer on the fourth page, to be written, and ends the chain. */
  predicate IsReply(d: V.Descriptor, pa: u64, len: u32) {
    d.addr == pa + 12288 && d.len == len && !d.HasNext() && d.DeviceWrites()
  }

  /** The avail ring holds a chain that leads to the command and the reply buffer. */
  ghost predicate WaitingAt(q: V.VQ, seen: u16, pa: u64, cmdLen: u32, respLen: u32) {
    && q.Wf() && seen != q.availIdx
    && var head := q.avail[seen % q.num];
       && head < q.num
       && IsCommand(q.descs[head], pa, cmdLen)
       && IsReply(q.descs[q.descs[head].next], pa, respLen)
  }

  ghost predicate WaitingFor(q: V.VQ, seen: u16, pa: u64, cmd: Command) {
    WaitingAt(q, seen, pa, CommandBytes(cmd), ReplyBytes(cmd))
  }

  /** Every descriptor is free, and the device has seen all that was announced. */
  ghost predicate Ready(q: V.VQ, availSeen: u16, l: V.Ledger) {
    q.num == QUEUE_SIZE && V.Owned(q, 2, l) && l.chains == map[] && l.lost == [] && availSeen == q.availIdx
  }

  /** Nothing in flight: the used ring is drained, too. */
  ghost predicate Idle(q: V.VQ, availSeen: u16, l: V.Ledger) {
    Ready(q, availSeen, l) && !V.CanPop(q)
  }

  /**
   On a fresh queue, which does not clear its memory, a command is waited for
   if and only if the used index was zero: with any other the driver takes
   what is in the reply buffer before the device has answered.  What
   `SendCommand` and `DetectDisplay` then return is in their contracts.
   */
  lemma StaleIndexSkipsWait(q: V.VQ, pa: u64, cmdLen: u32, respLen: u32)
    requires q.Wf() && pa + 4 * 4096 <= TWO64 && q.lastUsed == 0
    ensures V.CanPop(Announced(q, pa, cmdLen, respLen)) <==> q.usedIdx != 0
  {
  }

  lemma IdleIsAllFree(q: V.VQ, availSeen: u16, l: V.Ledger)
    requires Ready(q, availSeen, l)
    ensures q.numFree == QUEUE_SIZE
  {
  }

  /** The control queue once a command has been announced. */
  function Announced(q: V.VQ, pa: u64, cmdLen: u32, respLen: u32): (q': V.VQ)
    requires q.Wf() && pa + 4 * 4096 <= TWO64 && q.freeHead < q.num
  {
    var (d1, q1) := V.Alloc(q);
    var (d2, q2) := V.Alloc(q1);
    if d1.None? || d2.None? then q2 else
    var q3 := V.Write(q2, d1.value, V.Descriptor(pa + CMD_OFFSET, cmdLen, V.DESC_F_NEXT, d2.value));
    V.Submit(V.Write(q3, d2.value, V.Descriptor(pa + RESP_OFFSET, respLen, V.DESC_F_WRITE, 0)), d1.value)
  }

  lemma AnnounceKeeps(q: V.VQ, seen: u16, l: V.Ledger, pa: u64, cmdLen: u32, respLen: u32)
    requires Ready(q, seen, l) && pa + 4 * 4096 <= TWO64
    ensures var ids, q' := V.Top(l.free, 2), Announced(q, pa, cmdLen, respLen);
            && V.Alloc(q).0 == Some(ids[0]) && V.Alloc(V.Alloc(q).1).0 == Some(ids[1])
            && 0 <= ids[0] < QUEUE_SIZE && 0 <= ids[1] < QUEUE_SIZE && ids[0] !in l.chains
            && V.Owned(q', 2, V.Launch(l, 2))
            && q'.availIdx == Rings.Succ(q.availIdx) && q'.usedIdx == q.usedIdx && q'.lastUsed == q.lastUsed
            && q'.avail[seen % QUEUE_SIZE] == ids[0] && q'.num == QUEUE_SIZE
            && IsCommand(q'.descs[ids[0]], pa, cmdLen) && q'.descs[ids[0]].next == ids[1]
            && IsReply(q'.descs[ids[1]], pa, respLen)
  {
    var ids := V.Top(l.free, 2);
    var x0 := V.Descriptor(pa + CMD_OFFSET, cmdLen, V.DESC_F_NEXT, ids[1]);
    var x1 := V.Descriptor(pa + RESP_OFFSET, respLen, V.DESC_F_WRITE, 0);
    V.AllocPair(q, l.free);
    V.TopIsDistinct(2, l, 2);
    V.LaunchPair(q, l, x0, x1);
    var written := V.Alloc(V.Alloc(q).1).1.(descs := q.descs[ids[0] := x0][ids[1] := x1]);
    V.SubmitKeepsOwned(written, 2, V.Launch(l, 2), ids[0]);
  }

  /** Freeing head and reply descriptor after the answer makes the queue idle again. */
  lemma ReclaimKeeps(q: V.VQ, seen: u16, l: V.Ledger, head: int, other: int)
    requires q.num == QUEUE_SIZE && V.Owned(q, 2, l) && l.lost == [] && l.chains == map[head := [head, other]]
    requires seen == q.availIdx && q.lastUsed == q.usedIdx
    ensures 0 <= head < QUEUE_SIZE && 0 <= other < QUEUE_SIZE && q.numFree == 14
    ensures Idle(V.Free(V.Free(q, head), other), seen, V.Retire(l, head))
  {
    V.RetireKeepsOwned(q, 2, l, head);
    var ids := [head, other];
    assert l.chains[head] == ids && l.chains[head][0] == head && l.chains[head][1] == other;
    assert ids[..1] == [head] && [head][..0] == [];
    assert V.FreeAll(q, ids) == V.Free(V.FreeAll(q, ids[..1]), other);
    assert V.FreeAll(q, [head]) == V.Free(q, head);
    assert l.chains - {head} == map[];
    GroupsMultiply(2, |l.chains|);
    GroupsMultiply(2, |V.Retire(l, head).chains|);
  }

  /** The control queue after one exchange: announced, answered or not, popped, both descriptors freed. */
  function Exchanged(q: V.VQ, pa: u64, cmdLen: u32, respLen: u32, used: seq<V.UsedElem>, usedIdx: u16): V.VQ
    requires q.Wf() && pa + 4 * 4096 <= TWO64
  {
    var (d1, q1) := V.Alloc(q);
    var (d2, _) := V.Alloc(q1);
    var q' := Announced(q, pa, cmdLen, respLen).(
              used := used, usedIdx := usedIdx, lastUsed := Rings.Succ(q.lastUsed));
    if d1.None? || d2.None? || d1.value >= q.num || d2.value >= q.num then q'
    else V.Free(V.Free(q', d1.value), d2.value)
  }

  /** Two descriptors can be had, and they will lead the device to the buffers. */
  ghost predicate Exchangeable(q: V.VQ, seen: u16, pa: u64, cmdLen: u32, respLen: u32)
    requires q.Wf() && pa + 4 * 4096 <= TWO64
  {
    var (d1, q1) := V.Alloc(q);
    var (d2, _) := V.Alloc(q1);
    var q' := Announced(q, pa, cmdLen, respLen);
    && d1.Some? && d2.Some? && d1.value < q.num && d2.value < q.num && q'.numFree == 14 && q'.num == QUEUE_SIZE
    && WaitingAt(q', seen, pa, cmdLen, respLen)
  }

  lemma ReadyIsExchangeable(q: V.VQ, seen: u16, l: V.Ledger, pa: u64, cmdLen: u32, respLen: u32)
    requires Ready(q, seen, l) && pa + 4 * 4096 <= TWO64
    ensures Exchangeable(q, seen, pa, cmdLen, respLen)
  {
    AnnounceKeeps(q, seen, l, pa, cmdLen, respLen);
  }

  /** An idle queue is idle again after an exchange, whatever used element the device wrote. */
  lemma CommandLeavesIdle(q: V.VQ, seen: u16, l: V.Ledger, pa: u64, cmdLen: u32, respLen: u32, used: seq<V.UsedElem>)
      returns (l': V.Ledger)
    requires Idle(q, seen, l) && pa + 4 * 4096 <= TWO64 && |used| == QUEUE_SIZE
    ensures Idle(Exchanged(q, pa, cmdLen, respLen, used, Rings.Succ(q.usedIdx)), Rings.Succ(seen), l')
  {
    AnnounceKeeps(q, seen, l, pa, cmdLen, respLen);
    var ids := V.Top(l.free, 2);
    var announced, launched := Announced(q, pa, cmdLen, respLen), V.Launch(l, 2);
    AnswerKeepsOwned(announced, launched, used, Rings.Succ(q.usedIdx), Rings.Succ(q.lastUsed));
    assert ids == [ids[0], ids[1]];
    var q2 := announced.(used := used, usedIdx := Rings.Succ(q.usedIdx), lastUsed := Rings.Succ(q.lastUsed));
    ReclaimKeeps(q2, Rings.Succ(seen), launched, ids[0], ids[1]);
    l' := V.Retire(launched, ids[0]);
  }

  lemma ExchangeFreesBoth(q: V.VQ, seen: u16, l: V.Ledger, pa: u64, cmdLen: u32, respLen: u32,
                          used: seq<V.UsedElem>, usedIdx: u16)
    requires Ready(q, seen, l) && pa + 4 * 4096 <= TWO64
    ensures Exchanged(q, pa, cmdLen, respLen, used, usedIdx).numFree == QUEUE_SIZE
  {
    AnnounceKeeps(q, seen, l, pa, cmdLen, respLen);
  }

  /** The device's answer does not touch the descriptors. */
  lemma AnswerKeepsOwned(q: V.VQ, l: V.Ledger, used: seq<V.UsedElem>, usedIdx: u16, lastUsed: u16)
    requires V.Owned(q, 2, l) && |used| == |q.used|
    ensures V.Owned(q.(used := used, usedIdx := usedIdx, lastUsed := lastUsed), 2, l)
  {
    assert V.FreeListIs(q.(used := used, usedIdx := usedIdx, lastUsed := lastUsed), l.free);
  }

  /** The bytes of a frame, cast to `u32`. */
  function BackingLength(width: u32, height: u32): u32 {
    width * height * 4 % TWO32
  }

  /** The commands that `set_scanout` wants the device to run, in order. */
  function ScanoutScript(width: u32, height: u32, paddr: u64): (cs: seq<Command>)
    ensures |cs| == 5
  {
    var all := Rect(0, 0, width, height);
    [ResourceCreate2d(RESOURCE_ID, FORMAT_B8G8R8A8, width, height),
     ResourceAttachBacking(RESOURCE_ID, paddr, BackingLength(width, height)),
     SetScanout(all, 0, RESOURCE_ID),
     TransferToHost2d(all, 0, RESOURCE_ID),
     ResourceFlush(all, RESOURCE_ID)]
  }

  /** The commands of one flush of the rectangle at (x, y). */
  function FlushScript(width: u32, x: u32, y: u32, w: u32, h: u32): (cs: seq<Command>)
    ensures |cs| == 2
  {
    [TransferToHost2d(Rect(x, y, w, h), Wrap64((y * width + x) * 4), RESOURCE_ID),
     ResourceFlush(Rect(x, y, w, h), RESOURCE_ID)]
  }

  /** Every field of the five commands: resource 1 in format 1, four bytes for each pixel, and the whole frame. */
  lemma ScanoutCommands(width: u32, height: u32, paddr: u64)
    ensures var frame := Rect(0, 0, width, height);
            ScanoutScript(width, height, paddr)
            == [ResourceCreate2d(1, 1, width, height), ResourceAttachBacking(1, paddr, 4 * width * height % TWO32),
                SetScanout(frame, 0, 1), TransferToHost2d(frame, 0, 1), ResourceFlush(frame, 1)]
  {
    FourBytesEach(width, height);
  }

  lemma FourBytesEach(width: u32, height: u32)
    ensures BackingLength(width, height) == 4 * width * height % TWO32
  {
    assert width * height * 4 == 4 * width * height;
  }

  /** A flush transfers and shows its own rectangle, from the byte of its first pixel, modulo 2^64. */
  lemma FlushCommands(width: u32, x: u32, y: u32, w: u32, h: u32)
    ensures FlushScript(width, x, y, w, h)
            == [TransferToHost2d(Rect(x, y, w, h), (4 * y * width + 4 * x) % TWO64, 1),
                ResourceFlush(Rect(x, y, w, h), 1)]
  {
    assert (y * width + x) * 4 == 4 * y * width + 4 * x;
  }

  /** Pixels of a frame have four bytes of the backing each, and no two share one. */
  lemma PixelsHaveOwnBytes(width: u32, height: u32, x: u32, y: u32, x': u32, y': u32)
    requires x < width && y < height && x' < width && y' < height && 4 * width * height < TWO32
    ensures var o, o' := FlushScript(width, x, y, 1, 1)[0].offset, FlushScript(width, x', y', 1, 1)[0].offset;
            && o + 4 <= ScanoutScript(width, height, 0)[1].length
            && ((x, y) != (x', y') ==> o + 4 <= o' || o' + 4 <= o)
  {
    PixelInFrame(width, height, x, y);
    PixelInFrame(width, height, x', y');
    RowsDiffer(width, y * width, y' * width, x, y, x', y');
  }

  /** The offset of a pixel, without wrap-around, ends inside the backing. */
  lemma PixelInFrame(width: u32, height: u32, x: u32, y: u32)
    requires x < width && y < height && 4 * width * height < TWO32
    ensures FlushScript(width, x, y, 1, 1)[0].offset == 4 * (y * width + x)
    ensures 4 * (y * width + x) + 4 <= ScanoutScript(width, height, 0)[1].length
  {
    RowsInOrder(width, y, height);
    var row, frame := y * width, height * width;
    FlushCommands(width, x, y, 1, 1);
    ScanoutCommands(width, height, 0);
    Quadruple(width, y, x, row);
    Quadruple(width, height, 0, frame);
    SmallMod(4 * (row + x), TWO64);
    SmallMod(4 * frame, TWO32);
  }

  lemma Quadruple(width: nat, y: nat, x: nat, row: nat)
    requires row == y * width
    ensures 4 * y * width + 4 * x == 4 * (row + x) && 4 * width * y == 4 * row
  {
    assert 4 * y * width == 4 * (y * width);
    assert 4 * width * y == 4 * (width * y);
  }

  lemma SmallMod(x: nat, n: nat)
    requires x < n
    ensures x % n == x
  {
  }

  lemma RowsDiffer(width: nat, row: nat, row': nat, x: nat, y: nat, x': nat, y': nat)
    requires x < width && x' < width && row == y * width && row' == y' * width
    ensures (x, y) != (x', y') ==> row + x < row' + x' || row' + x' < row + x
  {
    if y < y' {
      RowsInOrder(width, y, y');
    } else if y' < y {
      RowsInOrder(width, y', y);
    }
  }

  lemma RowsInOrder(width: nat, y: nat, y': nat)
    requires y < y'
    ensures y * width + width <= y' * width
  {
    assert (y + 1) * width <= y' * width;
  }

  /** The device accepted the command that ends this history. */
  predicate Accepted(react: seq<Command> -> Reply, history: seq<Command>) {
    react(history).ty == RESP_OK_NO_DATA
  }

  /** The first `k` commands of the script have been issued, and the device accepted each of them. */
  ghost predicate IssuedUpTo(react: seq<Command> -> Reply, received: seq<Command>, before: seq<Command>,
                             script: seq<Command>, k: nat)
    requires k <= |script|
  {
    received == before + script[..k] && forall i :: 1 <= i <= k ==> Accepted(react, before + script[..i])
  }

  /** `n` commands of the script are issued: all of them, or up to the first refusal among the first three. */
  ghost predicate CutAt(react: seq<Command> -> Reply, before: seq<Command>, script: seq<Command>, n: nat) {
    && |script| == 5 && 1 <= n <= 5
    && (forall i :: 1 <= i < n && i <= 3 ==> Accepted(react, before + script[..i]))
    && (n < 5 ==> n <= 3 && !Accepted(react, before + script[..n]))
  }

  lemma CutsAt(react: seq<Command> -> Reply, before: seq<Command>, script: seq<Command>, n: nat)
    requires |script| == 5 && 1 <= n <= 3 && IssuedUpTo(react, before + script[..n - 1], before, script, n - 1)
    requires Accepted(react, before + script[..n]) ==> n == 3
    ensures CutAt(react, before, script, if Accepted(react, before + script[..n]) then 5 else n)
  {
  }

  /** The cut is determined by the device's replies. */
  lemma CutIsUnique(react: seq<Command> -> Reply, before: seq<Command>, script: seq<Command>, m: nat, n: nat)
    requires CutAt(react, before, script, m) && CutAt(react, before, script, n)
    ensures m == n
  {
    var first, second, third := script[..1], script[..2], script[..3];
  }

  /** A flush request carries its rectangle in the halves of `off` and `addr`. */
  function RequestScript(width: u32, e: Sqe): seq<Command> {
    if e.opcode == OpFbFlush
    then FlushScript(width, e.off / TWO32, e.off % TWO32, e.addr / TWO32, e.addr % TWO32)
    else []
  }

  function RequestResult(e: Sqe): Cqe {
    Cqe(e.ud, if e.opcode == OpFbFlush then 0 else -1)
  }

  /** What the requests of a ring ask the device to do, all together. */
  function RingScript(width: u32, sqes: seq<Sqe>): seq<Command> {
    if sqes == [] then [] else RequestScript(width, sqes[0]) + RingScript(width, sqes[1..])
  }

  function RingResults(sqes: seq<Sqe>): seq<Cqe> {
    seq(|sqes|, i requires 0 <= i < |sqes| => RequestResult(sqes[i]))
  }

  /** A flush request packs x and y into `off`, width and height into `addr`; the driver unpacks the same four. */
  lemma RequestUnpacks(frameWidth: u32, x: u32, y: u32, w: u32, h: u32, len: u32, ud: u64)
    ensures var e := Sqe(OpFbFlush, w * 0x1_0000_0000 + h, len, x * 0x1_0000_0000 + y, ud);
            && RequestScript(frameWidth, e) == FlushScript(frameWidth, x, y, w, h) && RequestResult(e) == Cqe(ud, 0)
  {
    Unpack(x, y);
    Unpack(w, h);
  }

  lemma Unpack(high: u32, low: u32)
    ensures (high * 0x1_0000_0000 + low) / 0x1_0000_0000 == high
    ensures (high * 0x1_0000_0000 + low) % 0x1_0000_0000 == low
  {
  }

  /** Any other request gets -1 and no command. */
  lemma OthersRefused(frameWidth: u32, e: Sqe)
    requires e.opcode != OpFbFlush
    ensures RequestScript(frameWidth, e) == [] && RequestResult(e) == Cqe(e.ud, -1)
  {
  }

  lemma RingStep(width: u32, all: seq<Sqe>, i: nat, before: seq<Command>)
    requires i < |all|
    ensures all[i..][1..] == all[i + 1..]
    ensures before + RequestScript(width, all[i]) + RingScript(width, all[i + 1..])
            == before + RingScript(width, all[i..])
    ensures RingResults(all[..i + 1]) == RingResults(all[..i]) + [RequestResult(all[i])]
  {
    assert all[i..][0] == all[i];
  }

  class VirtIOGpu {
    const queue: VirtQueueDriver.VirtQueue
    const buf: CommandBuffer
    const device: Device
    const ringServer: IoUringServer
    var width: u32
    var height: u32
    ghost var ledger: V.Ledger

    ghost const Repr: set<object>

    /** Between commands all sixteen descriptors are free and nothing is in flight. */
    ghost predicate Valid()
      reads this, queue, queue.desc, queue.avail, queue.used, buf, device, ringServer
    {
      && queue.Valid() && {this as object, buf, device, ringServer} !! queue.Repr
      && buf.pa + 4 * 4096 <= TWO64
      && Repr == {this, buf, device} + queue.Repr && ringServer !in Repr
      && Idle(queue.View(), device.availSeen, ledger)
    }

    /** The same, but for a used index that the driver never set. */
    ghost predicate SetUp()
      reads this, queue, queue.desc, queue.avail, queue.used, buf, device, ringServer
    {
      && queue.Valid() && {this as object, buf, device, ringServer} !! queue.Repr
      && buf.pa + 4 * 4096 <= TWO64
      && Repr == {this, buf, device} + queue.Repr && ringServer !in Repr
      && Ready(queue.View(), device.availSeen, ledger)
    }

    constructor (desc: array<V.Descriptor>, avail: array<u16>, used: array<V.UsedElem>, buf: CommandBuffer,
                 device: Device, ringServer: IoUringServer, availIdx: u16, usedIdx: u16)
      requires desc.Length == avail.Length == used.Length == QUEUE_SIZE
      requires (desc as object) != avail && (desc as object) != used && (avail as object) != used
      requires {buf as object, device, ringServer} !! {desc as object, avail, used} && buf.pa + 4 * 4096 <= TWO64
      modifies desc
      ensures Valid() <==> availIdx == device.availSeen && usedIdx == 0
      ensures SetUp() <==> availIdx == device.availSeen
      ensures this.device == device && this.buf == buf && this.ringServer == ringServer
      ensures width == 0 && height == 0
    {
      this.buf, this.device, this.ringServer := buf, device, ringServer;
      width, height := 0, 0;
      var q := new VirtQueueDriver.VirtQueue(QUEUE_SIZE, desc, avail, used, availIdx, usedIdx);
      queue := q;
      ledger := V.FreshLedger(QUEUE_SIZE);
      Repr := {this, buf, device} + q.Repr;
      new;
      assert V.Linked(queue.desc[..]) == queue.desc[..];
      V.FreshIsOwned(queue.View(), queue.desc[..], 2);
    }

    /** Allocate two descriptors, describe command and reply buffer, tell the device. */
    method Announce(cmdLen: u32, respLen: u32) returns (ok: bool, head: u16, other: u16)
      requires queue.Valid() && queue.num == QUEUE_SIZE && buf.pa + 4 * 4096 <= TWO64
      modifies queue, queue.desc, queue.avail
      ensures queue.Valid()
      ensures var (d1, q1) := V.Alloc(old(queue.View())); var (d2, q2) := V.Alloc(q1);
              ok == (d1.Some? && d2.Some?) && (ok ==> d1 == Some(head) && d2 == Some(other))
      ensures queue.View() == Announced(old(queue.View()), buf.pa, cmdLen, respLen)
    {
      head, other := 0, 0;
      var d1 := queue.AllocDesc();
      if d1.None? {
        return false, head, other;
      }
      var d2 := queue.AllocDesc();
      if d2.None? {
        return false, head, other;
      }
      head, other := d1.value, d2.value;
      queue.WriteDesc(head, V.Descriptor(buf.pa + CMD_OFFSET, cmdLen, V.DESC_F_NEXT, other));
      queue.WriteDesc(other, V.Descriptor(buf.pa + RESP_OFFSET, respLen, V.DESC_F_WRITE, 0));
      queue.Submit(head);
      return true, head, other;
    }

    /** Queue and device are still at `q`, `received` and `seen`. */
    ghost predicate Unanswered(q: V.VQ, received: seq<Command>, seen: u16)
      reads this, queue, queue.desc, queue.avail, queue.used, device
    {
      queue.View() == q && device.received == received && device.availSeen == seen
    }

    /** The device has received the command in the buffer and answered it. */
    ghost predicate Answered(q: V.VQ, received: seq<Command>, seen: u16)
      reads this, queue, queue.desc, queue.avail, queue.used, device, buf
    {
      && queue.View() == q.(used := queue.View().used, usedIdx := Rings.Succ(q.usedIdx))
      && device.received == received + [buf.cmd] && buf.resp == device.react(device.received)
      && device.availSeen == Rings.Succ(seen)
    }

    /** Spin until the used index moves, for as long as it has not.  The device takes its looks meanwhile. */
    method AwaitReply()
      requires queue.Valid() && {this as object, buf, device, ringServer} !! queue.Repr
      requires WaitingFor(queue.View(), device.availSeen, buf.pa, buf.cmd)
      modifies device, queue`usedIdx, queue.used, buf`resp
      ensures queue.Valid()
      ensures V.CanPop(old(queue.View())) ==>
                Unanswered(old(queue.View()), old(device.received), old(device.availSeen)) && buf.resp == old(buf.resp)
      ensures !V.CanPop(old(queue.View())) ==>
                Answered(old(queue.View()), old(device.received), old(device.availSeen))
    {
      ghost var q, received, seen, resp := queue.View(), device.received, device.availSeen, buf.resp;
      device.Notify();
      var answered := queue.CanPop();
      while !answered
        invariant queue.Valid() && answered == V.CanPop(queue.View())
        invariant V.CanPop(q) ==> answered && buf.resp == resp
        invariant V.CanPop(q) || !answered ==> Unanswered(q, received, seen)
        invariant answered && !V.CanPop(q) ==> Answered(q, received, seen)
        decreases !answered, device.delay
      {
        answered := Look(q, received, seen);
      }
    }

    /** The device takes one look, and the driver another. */
    method Look(ghost q: V.VQ, ghost received: seq<Command>, ghost seen: u16) returns (answered: bool)
      requires queue.Valid() && {this as object, buf, device, ringServer} !! queue.Repr
      requires Unanswered(q, received, seen) && !V.CanPop(q) && WaitingFor(q, seen, buf.pa, buf.cmd)
      modifies device, queue`usedIdx, queue.used, buf`resp
      ensures queue.Valid() && answered == V.CanPop(queue.View())
      ensures if answered then Answered(q, received, seen)
              else Unanswered(q, received, seen) && device.delay < old(device.delay)
    {
      device.Poll(queue, buf);
      answered := queue.CanPop();
    }

    /** Announce the command in the buffer, await the reply, and free the two descriptors. */
    method Exchange(cmdLen: u32, respLen: u32) returns (st: Status)
      requires queue.Valid() && queue.num == QUEUE_SIZE && buf.pa + 4 * 4096 <= TWO64
      requires {this as object, buf, device, ringServer} !! queue.Repr
      requires Exchangeable(queue.View(), device.availSeen, buf.pa, cmdLen, respLen)
      requires cmdLen == CommandBytes(buf.cmd) && respLen == ReplyBytes(buf.cmd)
      modifies queue.Repr, device, buf`resp
      ensures queue.Valid() && st == Good
      ensures queue.View() == Exchanged(old(queue.View()), buf.pa, cmdLen, respLen, queue.used[..], queue.usedIdx)
      ensures V.CanPop(old(queue.View())) ==> device.received == old(device.received) && buf.resp == old(buf.resp)
      ensures !V.CanPop(old(queue.View())) ==>
                && device.received == old(device.received) + [buf.cmd] && buf.resp == device.react(device.received)
                && device.availSeen == Rings.Succ(old(device.availSeen))
                && queue.usedIdx == Rings.Succ(old(queue.usedIdx))
    {
      st := NoMemory;
      var ok, head, other := Announce(cmdLen, respLen);
      if !ok {
        return;
      }
      AwaitReply();
      var elem := queue.Pop();
      queue.FreeDesc(head);
      queue.FreeDesc(other);
      st := Good;
    }

    /**
     One command.  It never runs out of descriptors, the device receives
     exactly this command, and the reply is the device's reply to it; unless the
     used index was stale, when the reply is the buffer as just cleared and the
     device has received nothing yet.
     */
    method SendCommand(cmd: Command, cmdLen: u32, respLen: u32) returns (st: Status, resp: Reply)
      requires SetUp() && cmdLen == CommandBytes(cmd) && respLen == ReplyBytes(cmd)
      modifies Repr
      ensures st == Good && queue.numFree == QUEUE_SIZE && width == old(width) && height == old(height)
      ensures old(Valid()) ==>
                Valid() && device.received == old(device.received) + [cmd] && resp == device.react(device.received)
      ensures !old(Valid()) ==> device.received == old(device.received) && resp == CLEARED
    {
      buf.cmd := cmd;
      buf.resp := CLEARED;
      ghost var q, seen, stale := queue.View(), device.availSeen, V.CanPop(queue.View());
      ReadyIsExchangeable(q, seen, ledger, buf.pa, cmdLen, respLen);
      st := Exchange(cmdLen, respLen);
      ExchangeFreesBoth(q, seen, ledger, buf.pa, cmdLen, respLen, queue.used[..], queue.usedIdx);
      if !stale {
        ledger := CommandLeavesIdle(q, seen, ledger, buf.pa, cmdLen, respLen, queue.used[..]);
      }
      resp := buf.resp;
    }

    /** Transfer and flush, whatever the device replies. */
    method Present(r: Rect, offset: u64) returns (st: Status)
      requires Valid()
      modifies Repr
      ensures Valid() && st == Good && queue.numFree == QUEUE_SIZE && width == old(width) && height == old(height)
      ensures device.received == old(device.received) +
                                 [TransferToHost2d(r, offset, RESOURCE_ID), ResourceFlush(r, RESOURCE_ID)]
    {
      var resp;
      st, resp := SendCommand(TransferToHost2d(r, offset, RESOURCE_ID), 56, RESPONSE_LEN);
      st, resp := SendCommand(ResourceFlush(r, RESOURCE_ID), 48, RESPONSE_LEN);
    }

    /** A command whose reply must be OK. */
    method SendChecked(cmd: Command, cmdLen: u32) returns (st: Status)
      requires Valid() && cmdLen == CommandBytes(cmd) && !cmd.GetDisplayInfo?
      modifies Repr
      ensures Valid() && queue.numFree == QUEUE_SIZE && width == old(width) && height == old(height)
      ensures device.received == old(device.received) + [cmd]
      ensures st == if device.react(device.received).ty == 0x1100 then Good else IoError
    {
      var resp;
      st, resp := SendCommand(cmd, cmdLen, RESPONSE_LEN);
      if resp.ty != RESP_OK_NO_DATA {
        st := IoError;
      }
    }

    /** The next command of a script, of which `k` have been issued and accepted. */
    method SendNext(cmd: Command, cmdLen: u32, ghost script: seq<Command>, ghost before: seq<Command>, ghost k: nat)
      returns (st: Status)
      requires Valid() && k < |script| && cmd == script[k] && cmdLen == CommandBytes(cmd) && !cmd.GetDisplayInfo?
      requires IssuedUpTo(device.react, device.received, before, script, k)
      modifies Repr
      ensures Valid() && queue.numFree == QUEUE_SIZE && width == old(width) && height == old(height)
      ensures device.received == before + script[..k + 1] && (st == Good || st == IoError)
      ensures st == Good <==> Accepted(device.react, before + script[..k + 1])
      ensures st == Good ==> IssuedUpTo(device.react, device.received, before, script, k + 1)
    {
      assert before + script[..k] + [cmd] == before + script[..k + 1];
      st := SendChecked(cmd, cmdLen);
    }

    /** Create the resource, attach its backing, make it the scanout; stop at the first refusal. */
    method PrepareScanout(paddr: u64) returns (st: Status, ghost n: nat)
      requires Valid()
      modifies Repr
      ensures Valid() && queue.numFree == QUEUE_SIZE && width == old(width) && height == old(height)
      ensures 1 <= n <= 3 && (st == Good || st == IoError) && (n < 3 ==> st == IoError)
      ensures var script, before := ScanoutScript(width, height, paddr), old(device.received);
              && device.received == before + script[..n]
              && IssuedUpTo(device.react, before + script[..n - 1], before, script, n - 1)
              && (st == Good <==> Accepted(device.react, before + script[..n]))
    {
      var w, h := width, height;
      ghost var script, before := ScanoutScript(w, h, paddr), device.received;
      n := 1;
      st := SendNext(ResourceCreate2d(RESOURCE_ID, FORMAT_B8G8R8A8, w, h), 40, script, before, 0);
      if st == Good {
        n := 2;
        st := SendNext(ResourceAttachBacking(RESOURCE_ID, paddr, BackingLength(w, h)), 48, script, before, 1);
        if st == Good {
          n := 3;
          st := SendNext(Command.SetScanout(Rect(0, 0, w, h), 0, RESOURCE_ID), 48, script, before, 2);
        }
      }
    }

    /**
     The five commands of `set_scanout`, issued in order; the first three stop
     the sequence at the first reply that is not OK, the last two do not.
     */
    method SetScanout(paddr: u64) returns (st: Status)
      requires Valid()
      modifies Repr
      ensures Valid() && queue.numFree == QUEUE_SIZE && width == old(width) && height == old(height)
      ensures st == Good || st == IoError
      ensures var script := ScanoutScript(width, height, paddr);
              exists n: nat :: CutAt(device.react, old(device.received), script, n) && (n == 5 <==> st == Good)
                               && device.received == old(device.received) + script[..n]
    {
      ghost var script, before := ScanoutScript(width, height, paddr), device.received;
      ghost var n: nat;
      st, n := PrepareScanout(paddr);
      if st != Good {
        CutsAt(device.react, before, script, n);
        return;
      }
      CutsAt(device.react, before, script, n);
      assert device.received == before + script[..3];
      st := Present(Rect(0, 0, width, height), 0);
      assert device.received == before + script[..5];
    }

    /** Flush the rectangle at (x, y). */
    method Flush(x: u32, y: u32, w: u32, h: u32) returns (st: Status)
      requires Valid()
      modifies Repr
      ensures Valid() && st == Good && queue.numFree == QUEUE_SIZE && width == old(width) && height == old(height)
      ensures device.received == old(device.received) + FlushScript(width, x, y, w, h)
    {
      st := Present(Rect(x, y, w, h), Wrap64((y * width + x) * 4));
    }

    method ServeRequest(e: Sqe)
      requires Valid()
      modifies Repr, ringServer
      ensures Valid() && width == old(width)
      ensures device.received == old(device.received) + RequestScript(width, e)
      ensures ringServer.sq == old(ringServer.sq) && ringServer.cq == old(ringServer.cq) + [RequestResult(e)]
    {
      if e.opcode == OpFbFlush {
        var st := Flush(e.off / TWO32, e.off % TWO32, e.addr / TWO32, e.addr % TWO32);
        ringServer.Complete(e.ud, if st == Good then 0 else -1);
      } else {
        ringServer.Complete(e.ud, -1);
      }
    }

    /** `done` of the requests `all` have been served; `commands` and `results` are what all of them come to. */
    ghost predicate Underway(all: seq<Sqe>, done: nat, w: u32, commands: seq<Command>, results: seq<Cqe>)
      reads this, queue, queue.desc, queue.avail, queue.used, buf, device, ringServer
    {
      && Valid() && width == w && done <= |all| && ringServer.sq == all[done..]
      && device.received + RingScript(w, ringServer.sq) == commands
      && ringServer.cq == results + RingResults(all[..done])
    }

    /** Serve the next request, if there is one. */
    method ServeNext(ghost all: seq<Sqe>, ghost done: nat, ghost w: u32, ghost commands: seq<Command>,
                     ghost results: seq<Cqe>)
      returns (more: bool)
      requires Underway(all, done, w, commands, results)
      modifies Repr, ringServer
      ensures Underway(all, if more then done + 1 else done, w, commands, results)
      ensures more == (old(ringServer.sq) != []) && (more ==> |ringServer.sq| < |old(ringServer.sq)|)
    {
      var sqe := ringServer.NextRequest();
      more := sqe.Some?;
      if more {
        ghost var before := device.received;
        ServeRequest(sqe.value);
        RingStep(w, all, done, before);
      }
    }

    /** Serve the submission ring until it is empty: one result per request, in order. */
    method HandleRing()
      requires Valid()
      modifies Repr, ringServer
      ensures Valid() && queue.numFree == QUEUE_SIZE && ringServer.sq == []
      ensures device.received == old(device.received) + RingScript(old(width), old(ringServer.sq))
      ensures ringServer.cq == old(ringServer.cq) + RingResults(old(ringServer.sq))
    {
      ghost var all, w, done := ringServer.sq, width, 0;
      ghost var commands, results := device.received + RingScript(w, all), ringServer.cq;
      var more := true;
      while more
        invariant Underway(all, done, w, commands, results) && (!more ==> ringServer.sq == [])
        decreases more, |ringServer.sq|
      {
        more := ServeNext(all, done, w, commands, results);
        done := if more then done + 1 else done;
      }
      assert all[..done] == all;
      IdleIsAllFree(queue.View(), device.availSeen, ledger);
    }

    /**
     Ask for the display size; 1280x720 when the device has no answer, and
     whatever it would answer when the used index was stale.
     */
    method DetectDisplay()
      requires SetUp()
      modifies Repr
      ensures queue.numFree == QUEUE_SIZE
      ensures !old(Valid()) ==> device.received == old(device.received) && width == 1280 && height == 720
      ensures old(Valid()) ==>
                && Valid() && device.received == old(device.received) + [GetDisplayInfo]
                && var r := device.react(device.received);
                   if r.ty == 0x1101 then width == r.mode.width && height == r.mode.height
                   else width == 1280 && height == 720
    {
      var st, info := SendCommand(GetDisplayInfo, 24, 408);
      if info.ty == RESP_OK_DISPLAY_INFO {
        width, height := info.mode.width, info.mode.height;
      } else {
        width, height := 1280, 720;
      }
    }
  }
}
