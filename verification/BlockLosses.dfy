/**
 What the block driver loses and when: the window check on its requests, the
 one moment at which two descriptors go missing, and a run that gets there.
 */
module BlockLosses {
  import opened Base
  import opened VirtQueues
  import opened Blocks
  import opened BlockRuns
  import opened PendingTable
  import opened Windows

  // ---- The window ----

  /** With sums within 64 bits, accepted means aligned, supported, inside the window, and fewer than 42 in flight. */
  lemma SubmitInWindow(b: Blk, l: Ledger, at: map<int, int>, w: Shm, sqe: Sqe)
    requires Sound(b, l, at) && b.shm == Some(w) && Regular(w) && sqe.addr + sqe.len < TWO64
    ensures SubmitRequest(b, sqe).0 == Submitted <==>
            sqe.len % b.blkSize == 0 && TypeOf(sqe.opcode).Some? && Inside(w, sqe.addr, sqe.len)
            && Count(b.pending) < 42
  {
    SubmitOutcome(b, l, at, sqe);
    RegularCheck(w, sqe.addr, sqe.len);
  }

  /** A range far outside the window is accepted when its end wraps round. */
  lemma WrappedRequestIsAccepted(b: Blk, l: Ledger, at: map<int, int>, ud: u64)
    requires Sound(b, l, at) && b.shm == Some(SMALL_WINDOW) && b.blkSize == 512 && Count(b.pending) < 42
    ensures var sqe := Sqe(OpWrite, WRAPPING_ADDR, WRAPPING_LEN, 0, ud);
            SubmitRequest(b, sqe).0 == Submitted && !Inside(SMALL_WINDOW, sqe.addr, sqe.len)
  {
    WrapDeceivesCheck();
    SubmitOutcome(b, l, at, Sqe(OpWrite, WRAPPING_ADDR, WRAPPING_LEN, 0, ud));
  }

  // ---- When descriptors are lost ----

  /** Descriptors that are neither free nor in the chain of a pending request. */
  function LostCount(b: Blk): int {
    QUEUE_SIZE - b.q.numFree - 3 * Count(b.pending)
  }

  /** An acceptable request is submitted while 42 are in flight. */
  predicate RunsOut(b: Blk, step: Step)
    requires b.Wf()
  {
    step.SubmitTaken? && b.batch != [] && Acceptable(b, b.batch[0]) && Count(b.pending) == 42
  }

  /** That is when a submission reports OutOfMemory. */
  lemma RunningOutIsReported(b: Blk, step: Step, l: Ledger, at: map<int, int>)
    requires Inv(b, l, at) && Enabled(b, step)
    ensures RunsOut(b, step) <==>
            step.SubmitTaken? && SubmitRequest(b.(batch := b.batch[1..]), b.batch[0]).0 == Failed(OutOfMemory)
  {
    if step.SubmitTaken? {
      SubmitOutcome(b.(batch := b.batch[1..]), l, at, b.batch[0]);
    }
  }

  /** Some step of the run does that. */
  ghost predicate SomeRunsOut(b: Blk, steps: seq<Step>)
    requires b.Wf()
    decreases |steps|
  {
    steps != [] && Enabled(b, steps[0])
    && (RunsOut(b, steps[0]) || SomeRunsOut(Do(b, steps[0]), steps[1..]))
  }

  lemma SubmitLoses(b: Blk, l: Ledger, at: map<int, int>, sqe: Sqe)
    requires Sound(b, l, at)
    ensures var (r, b') := SubmitRequest(b, sqe);
            LostCount(b') == if r == Failed(OutOfMemory) then 2 else LostCount(b)
  {
    SubmitCases(b, l, at, sqe);
    if Acceptable(b, sqe) {
      var slot, ty := FirstEmpty(b.pending).value, TypeOf(sqe.opcode).value;
      var b1, data := Prepare(b, slot, ty, sqe.off), BufferAddr(b.shm, sqe.addr, sqe.len).value;
      ClaimLoses(b1, l, at, slot, ty, data, sqe);
    }
  }

  lemma ClaimLoses(b: Blk, l: Ledger, at: map<int, int>, slot: nat, ty: u32, data: u64, sqe: Sqe)
    requires Sound(b, l, at) && slot < SLOTS && b.pending[slot].None?
    ensures var (r, b') := Claim(b, slot, ty, data, sqe);
            LostCount(b') == if r == Failed(OutOfMemory) then 2 else LostCount(b)
  {
    if |l.free| >= 3 {
      LaunchLosesNothing(b, l, slot, ty, data, sqe);
    } else {
      ThreePerChain(b, l, at);
      ClaimStrands(b, l, at, slot, ty, data, sqe);
    }
  }

  lemma LaunchLosesNothing(b: Blk, l: Ledger, slot: nat, ty: u32, data: u64, sqe: Sqe)
    requires b.Wf() && FreeListIs(b.q, l.free) && |l.free| >= 3 && slot < SLOTS && b.pending[slot].None?
    ensures var (r, b') := Claim(b, slot, ty, data, sqe); r == Submitted && LostCount(b') == LostCount(b)
  {
    ClaimTakesTop(b, l.free, slot, ty, data, sqe);
    AllocTriple(b.q, l.free);
    SetSlotCount(b.pending, slot, Some(Pending(sqe.ud, Top(l.free, 3)[0])));
  }

  lemma PopLosesNothing(b: Blk, l: Ledger, at: map<int, int>)
    requires Inv(b, l, at)
    ensures LostCount(PopOne(b)) == LostCount(b)
  {
    if CanPop(b.q) {
      var b1 := b.(q := Pop(b.q).1);
      var found := FindHead(b.pending, Pop(b.q).0.value.id % TWO16);
      assert Sound(b1, l, at);
      if found.Some? {
        WalkIsOwnChain(b1, l, at, found.value);
        ChainIsDistinct(b1, l, at, found.value);
        SetSlotCount(b.pending, found.value, None);
      }
    }
  }

  lemma StepLoses(b: Blk, step: Step, l: Ledger, at: map<int, int>)
    requires Inv(b, l, at) && Enabled(b, step)
    ensures LostCount(Do(b, step)) == if RunsOut(b, step) then 2 else LostCount(b)
  {
    if step.SubmitTaken? {
      RunningOutIsReported(b, step, l, at);
      SubmitLoses(b.(batch := b.batch[1..]), l, at, b.batch[0]);
    } else if step.PopUsed? {
      PopLosesNothing(b, l, at);
    }
  }

  lemma {:induction false} RunLoses(b: Blk, steps: seq<Step>, b': Blk, l: Ledger, at: map<int, int>)
    requires Inv(b, l, at) && Run(b, steps, b')
    ensures LostCount(b') == if SomeRunsOut(b, steps) then 2 else LostCount(b)
    decreases |steps|
  {
    if steps != [] {
      StepLoses(b, steps[0], l, at);
      var l', at' := StepKeeps(b, steps[0], l, at);
      RunLoses(Do(b, steps[0]), steps[1..], b', l', at');
    }
  }

  /** Over every run, two descriptors are lost if and only if an acceptable request met 42 in flight, none otherwise. */
  lemma LossMeansRunOut(b: Blk, steps: seq<Step>, b': Blk) returns (l: Ledger, at: map<int, int>)
    requires Initial(b) && Run(b, steps, b')
    ensures Inv(b', l, at)
    ensures |l.lost| == if SomeRunsOut(b, steps) then 2 else 0
  {
    InitialKeeps(b);
    EmptyTable(b.pending);
    RunLoses(b, steps, b', FreshLedger(QUEUE_SIZE), map[]);
    l, at := EveryRun(b, steps, b');
  }

  // ---- A run that gets there ----

  /** The steps that bring in, take and submit one request. */
  function One(sqe: Sqe): seq<Step> {
    [Arrive(sqe), TakeRequest, SubmitTaken]
  }

  function Each(sqes: seq<Sqe>): seq<Step> {
    if sqes == [] then [] else One(sqes[0]) + Each(sqes[1..])
  }

  /** Nothing waits in front of the driver. */
  predicate Quiet(b: Blk) {
    b.sq == [] && b.batch == []
  }

  /** The state after one request was brought in, taken and submitted. */
  function AfterOne(b: Blk, sqe: Sqe): (b': Blk)
    requires b.Wf()
    ensures b'.Wf()
  {
    SubmitNext(b.(batch := [sqe], fetched := b.fetched + [sqe]))
  }

  lemma OneIsRun(b: Blk, sqe: Sqe)
    requires b.Wf() && Quiet(b)
    ensures Run(b, One(sqe), AfterOne(b, sqe))
  {
    var b1 := Push(b, sqe);
    var b2 := FetchOne(b1);
    assert b1.sq == [sqe] && b1.sq[1..] == [];
    assert b2 == b.(batch := [sqe], fetched := b.fetched + [sqe]);
    var s := One(sqe);
    assert s[1..] == [TakeRequest, SubmitTaken] && s[1..][1..] == [SubmitTaken] && s[1..][1..][1..] == [];
    assert Do(b, s[0]) == b1 && Do(b1, s[1]) == b2 && Do(b2, s[2]) == AfterOne(b, sqe);
    RunOfThree(b, s, b1, b2, AfterOne(b, sqe));
  }

  lemma RunOfThree(b: Blk, s: seq<Step>, b1: Blk, b2: Blk, b3: Blk)
    requires b.Wf() && |s| == 3
    requires Enabled(b, s[0]) && Do(b, s[0]) == b1 && Enabled(b1, s[1]) && Do(b1, s[1]) == b2
    requires Enabled(b2, s[2]) && Do(b2, s[2]) == b3
    ensures Run(b, s, b3)
  {
    assert Run(b3, s[1..][1..][1..], b3);
    assert Run(b2, s[1..][1..], b3);
    assert Run(b1, s[1..], b3);
  }

  lemma AfterOneFacts(b: Blk, sqe: Sqe, l: Ledger, at: map<int, int>)
    requires Inv(b, l, at) && Quiet(b) && Acceptable(b, sqe)
    ensures var b', fits := AfterOne(b, sqe), Count(b.pending) < 42;
            && Quiet(b') && b'.shm == b.shm && b'.blkSize == b.blkSize
            && Count(b'.pending) == (if fits then Count(b.pending) + 1 else 42)
            && b'.cq == (if fits then b.cq else b.cq + [Cqe(sqe.ud, -1)])
            && LostCount(b') == (if fits then LostCount(b) else 2)
  {
    var b0 := b.(batch := [sqe], fetched := b.fetched + [sqe]).(batch := []);
    assert [sqe][1..] == [];
    SubmitOutcome(b0, l, at, sqe);
    SubmitLoses(b0, l, at, sqe);
    SlotSearchNeverFails(b0, l, at);
  }

  predicate AllAcceptable(b: Blk, sqes: seq<Sqe>)
    requires b.Wf()
  {
    forall i :: 0 <= i < |sqes| ==> Acceptable(b, sqes[i])
  }

  /** Acceptable requests one after the other, as many as go in flight. */
  lemma {:induction false} FillUp(b: Blk, sqes: seq<Sqe>, l: Ledger, at: map<int, int>)
      returns (b': Blk, l': Ledger, at': map<int, int>)
    requires Inv(b, l, at) && Quiet(b) && AllAcceptable(b, sqes) && Count(b.pending) + |sqes| <= 42
    ensures Run(b, Each(sqes), b') && Inv(b', l', at') && Quiet(b') && b'.shm == b.shm && b'.blkSize == b.blkSize
    ensures Count(b'.pending) == Count(b.pending) + |sqes| && b'.cq == b.cq && LostCount(b') == LostCount(b)
    decreases |sqes|
  {
    b', l', at' := b, l, at;
    if sqes != [] {
      var b1 := AfterOne(b, sqes[0]);
      OneIsRun(b, sqes[0]);
      AfterOneFacts(b, sqes[0], l, at);
      l', at' := RunKeeps(b, One(sqes[0]), b1, l, at);
      b', l', at' := FillUp(b1, sqes[1..], l', at');
      RunsCompose(b, One(sqes[0]), b1, Each(sqes[1..]), b');
    }
  }

  lemma {:induction false} EachOfSum(sqes: seq<Sqe>, more: seq<Sqe>)
    ensures Each(sqes + more) == Each(sqes) + Each(more)
    decreases |sqes|
  {
    if sqes == [] {
      assert sqes + more == more;
    } else {
      assert (sqes + more)[1..] == sqes[1..] + more;
      EachOfSum(sqes[1..], more);
      assert One(sqes[0]) + (Each(sqes[1..]) + Each(more)) == (One(sqes[0]) + Each(sqes[1..])) + Each(more);
    }
  }

  /**
   The loss happens: from the initial state, 43 acceptable requests leave 42 in
   flight, the last one refused for lack of memory, no descriptor free and two
   of them lost.
   */
  lemma FortyThreeRequestsLoseTwo(b: Blk, sqes: seq<Sqe>) returns (b': Blk, l: Ledger, at: map<int, int>)
    requires Initial(b) && b.sq == [] && |sqes| == 43 && AllAcceptable(b, sqes)
    ensures Run(b, Each(sqes), b') && Inv(b', l, at)
    ensures Count(b'.pending) == 42 && b'.cq == [Cqe(sqes[42].ud, -1)]
    ensures SomeRunsOut(b, Each(sqes)) && b'.q.numFree == 0 && |l.lost| == 2
  {
    InitialKeeps(b);
    EmptyTable(b.pending);
    var first, last := sqes[..42], sqes[42];
    var full, l1, at1 := FillUp(b, first, FreshLedger(QUEUE_SIZE), map[]);
    b' := OneTooMany(full, last, l1, at1);
    RunsCompose(b, Each(first), full, One(last), b');
    EachSnoc(sqes, first, last);
    RunLoses(b, Each(sqes), b', FreshLedger(QUEUE_SIZE), map[]);
    l, at := EveryRun(b, Each(sqes), b');
  }

  /** The next acceptable request with 42 in flight. */
  lemma OneTooMany(b: Blk, sqe: Sqe, l: Ledger, at: map<int, int>) returns (b': Blk)
    requires Inv(b, l, at) && Quiet(b) && Acceptable(b, sqe) && Count(b.pending) == 42
    ensures Run(b, One(sqe), b') && Count(b'.pending) == 42 && b'.cq == b.cq + [Cqe(sqe.ud, -1)]
    ensures LostCount(b') == 2
  {
    OneIsRun(b, sqe);
    AfterOneFacts(b, sqe, l, at);
    b' := AfterOne(b, sqe);
  }

  lemma EachSnoc(sqes: seq<Sqe>, first: seq<Sqe>, last: Sqe)
    requires sqes == first + [last]
    ensures Each(sqes) == Each(first) + One(last)
  {
    EachOfSum(first, [last]);
    assert One(last) + [] == One(last) && [last][1..] == [];
  }
}
