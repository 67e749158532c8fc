/**
 Driver and device of BlockDisk.dfy when serving a read also fills the
 client's buffer, wherever that lies: they refine the asynchronous disk as
 long as no buffer reaches the driver's own memory.
 */
module DiskPayloads {
  import opened Base
  import opened VirtQueues
  import opened Blocks
  import opened PendingTable
  import opened Windows
  import opened BlockDisk
  import B = BlockRuns
  import P = BlockPayloads
  import Rings

  /** A step as before, or the device fills the buffer of a read it holds. */
  datatype DStep = Plain(step: Step) | Fill(slot: nat, after: Blk)

  ghost predicate DEnabled<D>(s: Sys<D>, step: DStep)
    requires s.b.Wf()
  {
    match step
    case Plain(p) => Enabled(s, p)
    case Fill(slot, after) =>
      && P.CanFill(s.b, slot, after) && after.Wf()
      && s.b.pending[slot].Some? && s.b.pending[slot].value.head as int in s.taken
  }

  ghost function DDo<D(!new)>(serve: Server<D>, s: Sys<D>, step: DStep): (s': Sys<D>)
    requires s.b.Wf() && DEnabled(s, step)
    ensures s'.b.Wf()
  {
    match step
    case Plain(p) => Do(serve, s, p)
    case Fill(_, after) => s.(b := after)
  }

  ghost predicate DRun<D(!new)>(serve: Server<D>, s: Sys<D>, steps: seq<DStep>, s': Sys<D>)
    requires s.b.Wf()
    decreases |steps|
  {
    if steps == [] then s' == s
    else DEnabled(s, steps[0]) && DRun(serve, DDo(serve, s, steps[0]), steps[1..], s')
  }

  function PlainOf(step: DStep): seq<Step> {
    if step.Plain? then [step.step] else []
  }

  /** The run without the payloads. */
  function PlainSteps(steps: seq<DStep>): seq<Step> {
    if steps == [] then [] else PlainOf(steps[0]) + PlainSteps(steps[1..])
  }

  /** The client's next request, if the step brings one. */
  function Asked(step: DStep): seq<Sqe> {
    if step.Plain? && step.step.Driver? && step.step.step.Arrive? then [step.step.step.sqe] else []
  }

  /** Whatever the client asks for during the run is harmless. */
  ghost predicate AsksHarmless(b: Blk, steps: seq<DStep>) {
    forall i :: 0 <= i < |steps| ==> P.AllHarmless(b, Asked(steps[i]))
  }

  /** The steps of driver and device are steps of the driver with an arbitrary device. */
  lemma DeviceStepIsWrite<D(!new)>(serve: Server<D>, s: Sys<D>, step: Step) returns (w: B.Step)
    requires s.b.Wf() && Enabled(s, step) && !step.Driver?
    ensures w.DeviceWrites? && B.Enabled(s.b, w) && Do(serve, s, step).b == B.Do(s.b, w)
  {
    var b' := Do(serve, s, step).b;
    w := B.DeviceWrites(b'.q.used, b'.q.usedIdx, b'.status);
  }

  lemma PlainStaysOff<D(!new)>(serve: Server<D>, s: Sys<D>, step: Step, l: Ledger, at: map<int, int>,
                               stages: map<int, Stage>)
    requires Inv(s, l, at, stages) && P.Off(s.b) && Enabled(s, step)
    requires step.Driver? && step.step.Arrive? ==> P.Harmless(s.b, step.step.sqe)
    ensures var b' := Do(serve, s, step).b; P.Off(b') && b'.shm == s.b.shm && b'.dma == s.b.dma
  {
    if step.Driver? {
      P.StepStaysOff(s.b, step.step, l, at);
    } else {
      var w := DeviceStepIsWrite(serve, s, step);
      P.StepStaysOff(s.b, w, l, at);
    }
  }

  lemma HarmlessElsewhere(b: Blk, b': Blk, steps: seq<DStep>)
    requires AsksHarmless(b, steps) && b'.shm == b.shm && b'.dma == b.dma
    ensures AsksHarmless(b', steps)
  {
    forall i | 0 <= i < |steps| ensures P.AllHarmless(b', Asked(steps[i])) {
      assert P.AllHarmless(b, Asked(steps[i]));
      assert forall j :: 0 <= j < |Asked(steps[i])| ==> P.Harmless(b, Asked(steps[i])[j]);
    }
  }

  /** The first step of a run: it keeps the invariant, and a payload does not show. */
  lemma FirstStep<D(!new)>(serve: Server<D>, s: Sys<D>, steps: seq<DStep>, l: Ledger, at: map<int, int>,
                           stages: map<int, Stage>)
    returns (next: Sys<D>, l': Ledger, at': map<int, int>, stages': map<int, Stage>)
    requires Inv(s, l, at, stages) && P.Off(s.b) && AsksHarmless(s.b, steps)
    requires steps != [] && DEnabled(s, steps[0])
    ensures next == DDo(serve, s, steps[0]) && Inv(next, l', at', stages') && P.Off(next.b)
    ensures AsksHarmless(next.b, steps[1..]) && (steps[0].Fill? ==> next == s)
  {
    var step := steps[0];
    next, l', at', stages' := DDo(serve, s, step), l, at, stages;
    if step.Fill? {
      P.FillIsInvisible(s.b, step.slot, step.after);
    } else {
      assert P.AllHarmless(s.b, Asked(step));
      assert step.step.Driver? && step.step.step.Arrive? ==> Asked(step)[0] == step.step.step.sqe;
      PlainStaysOff(serve, s, step.step, l, at, stages);
      l', at', stages' := StepKeeps(serve, s, step.step, l, at, stages);
    }
    HarmlessElsewhere(s.b, next.b, steps[1..]);
  }

  lemma RunCons<D(!new)>(serve: Server<D>, s: Sys<D>, step: DStep, next: Sys<D>, rest: seq<Step>, s': Sys<D>)
    requires s.b.Wf() && DEnabled(s, step) && next == DDo(serve, s, step) && (step.Fill? ==> next == s)
    requires Run(serve, next, rest, s')
    ensures Run(serve, s, PlainOf(step) + rest, s')
  {
    if step.Plain? {
      assert ([step.step] + rest)[1..] == rest;
    } else {
      assert PlainOf(step) + rest == rest;
    }
  }

  lemma PlainCons(steps: seq<DStep>)
    requires steps != []
    ensures PlainSteps(steps) == PlainOf(steps[0]) + PlainSteps(steps[1..])
  {
  }

  /** A run with payloads is a run without them. */
  lemma {:induction false} PayloadsAreInvisible<D(!new)>(serve: Server<D>, s: Sys<D>, steps: seq<DStep>, s': Sys<D>,
                                                         l: Ledger, at: map<int, int>, stages: map<int, Stage>)
    requires Inv(s, l, at, stages) && P.Off(s.b) && AsksHarmless(s.b, steps) && DRun(serve, s, steps, s')
    ensures Run(serve, s, PlainSteps(steps), s')
    decreases |steps|
  {
    if steps != [] {
      var next, l', at', stages' := FirstStep(serve, s, steps, l, at, stages);
      PayloadsAreInvisible(serve, next, steps[1..], s', l', at', stages');
      PlainCons(steps);
      RunCons(serve, s, steps[0], next, PlainSteps(steps[1..]), s');
    }
  }

  /**
   Main theorem, payloads included: under requests that keep the device off
   the driver's memory, what the client can observe is a run of the
   asynchronous disk, which decides on the requests one by one and in order.
   */
  lemma BlockRefinesDiskWithPayloads<D(!new)>(serve: Server<D>, s: Sys<D>, steps: seq<DStep>, s': Sys<D>)
      returns (asteps: seq<AStep>)
    requires Initial(s) && P.AllHarmless(s.b, s.b.sq) && AsksHarmless(s.b, steps) && DRun(serve, s, steps, s')
    ensures Run(serve, s, PlainSteps(steps), s')
    ensures s'.b.Wf() && Readable(s'.b)
    ensures ARun(serve, ADisk(ConfigOf(s.b), s.disk, map[], []), asteps, Abs(s'))
    ensures s'.b.fetched == Decided(asteps) + s'.b.batch
    ensures forall i :: 0 <= i < |asteps| ==> InWindow(ConfigOf(s.b), asteps[i])
  {
    InitialKeeps(s);
    P.InitialIsOff(s.b);
    PayloadsAreInvisible(serve, s, steps, s', FreshLedger(QUEUE_SIZE), map[], map[]);
    asteps := BlockRefinesDisk(serve, s, PlainSteps(steps), s');
  }

  // ---- Wake-ups and interrupts as runs of this system ----

  /** A run of the driver alone is a run of driver and device in which the device is idle. */
  function DriverSteps(steps: seq<B.Step>): seq<Step> {
    seq(|steps|, i requires 0 <= i < |steps| => Driver(steps[i]))
  }

  lemma {:induction false} DriverRunLifts<D(!new)>(serve: Server<D>, s: Sys<D>, steps: seq<B.Step>, b': Blk)
    requires s.b.Wf() && B.Run(s.b, steps, b') && forall i :: 0 <= i < |steps| ==> !steps[i].DeviceWrites?
    ensures Run(serve, s, DriverSteps(steps), s.(b := b'))
    decreases |steps|
  {
    if steps == [] {
      assert DriverSteps(steps) == [];
    } else {
      var next := s.(b := B.Do(s.b, steps[0]));
      DriverRunLifts(serve, next, steps[1..], b');
      RunCons(serve, s, Plain(Driver(steps[0])), next, DriverSteps(steps[1..]), s.(b := b'));
      assert DriverSteps(steps) == [Driver(steps[0])] + DriverSteps(steps[1..]);
    }
  }

  /** A wake-up by the client, in the system of driver and device. */
  lemma HandleRingIsSystemRun<D(!new)>(serve: Server<D>, s: Sys<D>) returns (steps: seq<Step>)
    requires s.b.Wf() && s.b.batch == []
    ensures Run(serve, s, steps, s.(b := HandleRing(s.b)))
  {
    var own := B.HandleRingIsRun(s.b);
    DriverRunLifts(serve, s, own, HandleRing(s.b));
    steps := DriverSteps(own);
  }

  /** An acknowledged interrupt. */
  lemma DrainIsSystemRun<D(!new)>(serve: Server<D>, s: Sys<D>) returns (steps: seq<Step>)
    requires s.b.Wf()
    ensures Run(serve, s, steps, s.(b := PopAll(s.b)))
  {
    var own := B.PopAllIsRun(s.b);
    DriverRunLifts(serve, s, own, PopAll(s.b));
    steps := DriverSteps(own);
  }
}
