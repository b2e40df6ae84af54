/** capture.go, streamCapture, and main.go, handleCapture: how a live capture gets on
    and how it ends. */
module CaptureProgress {
  import opened CaptureStream

  // ── Progress ────────────────────────────────────────────────────────────

  predicate OfClient(step: Step) {
    step.Env? && (step.e.ClientStalls? || step.e.ClientResumes? || step.e.ClientLeaves?)
  }

  predicate TsharkWriting(step: Step) {
    step.Env? && step.e.TsharkWrites?
  }

  /** Some step of the program itself is enabled. */
  ghost predicate CanMove(s: State) {
    || (exists h :: HandlerEnabled(s, h))
    || (exists c :: CaptureEnabled(s, c))
    || (exists n :: ScannerEnabled(s, n))
  }

  predicate Terminal(s: State) {
    s.handler == Gone && s.capture == Finished
  }

  predicate WaitsForClient(s: State) {
    s.client == Stalled && (s.handler.Writing? || s.handler == Finishing)
  }

  /** tshark is alive and free to go on: killed and about to exit, or running with
      room in the pipe. */
  predicate WaitsForTshark(s: State) {
    s.tshark == Dying || (s.tshark == Running && |s.pipe| < s.pipeCap)
  }

  /** tshark is blocked on a full pipe that nobody will read again, and cmd.Wait is
      blocked on tshark. */
  predicate MutualWait(s: State) {
    s.capture == Reaping && s.tshark == Running && |s.pipe| >= s.pipeCap
  }

  /** No state is stuck, except waiting for tshark to go on or for the client to
      read, and except the deadlock of tshark with cmd.Wait that a line over the
      limit leads to. */
  lemma NoDeadlock(s: State)
    requires Inv(s) && !CanMove(s)
    ensures Terminal(s) || WaitsForTshark(s) || WaitsForClient(s) || MutualWait(s)
    ensures MutualWait(s) ==> HitOverlong(s)
  {
    hide Packets, Received, Delivery;
    if !WaitsForTshark(s) && !WaitsForClient(s) && !MutualWait(s) {
      ScannerStuck(s);
      CaptureStuck(s);
      assert !HandlerEnabled(s, Receive) && !HandlerEnabled(s, Forward) && !HandlerEnabled(s, SeeClosed);
      assert !HandlerEnabled(s, Finish) && !HandlerEnabled(s, CloseStop);
    }
  }

  /** The deadlock lasts through everything but an exit of tshark from outside. */
  lemma MutualWaitStays(s: State, step: Step)
    requires Control(s) && MutualWait(s) && Enabled(s, step)
    ensures MutualWait(Apply(s, step)) || step == Env(TsharkExits)
  {
    hide Packets, Received, Lines, Delivery;
  }

  lemma ScannerStuck(s: State)
    requires Control(s) && Lines(s) && !WaitsForTshark(s) && forall n :: !ScannerEnabled(s, n)
    ensures match s.scanner
            case Absent => true
            case Emitting(_) => |s.pkts| >= PKTS_CAP && !s.stopClosed
            case _ => s.scanner == Stopped
  {
    hide Packets;
    assert !ScannerEnabled(s, ReadLine) && !ScannerEnabled(s, ReadEof) && !ScannerEnabled(s, Send);
    assert !ScannerEnabled(s, Drop) && !ScannerEnabled(s, CloseDone);
  }

  lemma CaptureStuck(s: State)
    requires Control(s) && forall c :: !CaptureEnabled(s, c)
    ensures match s.capture
            case Selecting => !s.doneClosed && !s.stopClosed
            case Joining => !s.doneClosed
            case Reaping => Alive(s.tshark)
            case _ => s.capture == Finished
  {
    assert !CaptureEnabled(s, Start) && !CaptureEnabled(s, Count) && !CaptureEnabled(s, Spawn);
    assert !CaptureEnabled(s, SelectDone) && !CaptureEnabled(s, SelectStop) && !CaptureEnabled(s, Kill);
    assert !CaptureEnabled(s, Join) && !CaptureEnabled(s, Wait("")) && !CaptureEnabled(s, Uncount);
    assert !CaptureEnabled(s, Assign) && !CaptureEnabled(s, ClosePkts);
  }

  function HandlerRank(h: Handler): nat {
    match h
    case Streaming => 3
    case Writing(_) => 5
    case Finishing => 2
    case Leaving => 1
    case Gone => 0
  }

  function CaptureRank(c: Capture): nat {
    match c
    case Starting => 10
    case Launched => 9
    case Counted => 8
    case Selecting => 7
    case Killing => 6
    case Joining => 5
    case Reaping => 4
    case Reaped(_) => 3
    case Assigning(_) => 2
    case Closing => 1
    case Finished => 0
  }

  function ScannerRank(c: Scanner): nat {
    match c
    case Absent => 3
    case Reading => 2
    case Emitting(_) => 6
    case Quitting => 1
    case Stopped => 0
  }

  function TsharkRank(t: Tshark): nat {
    match t
    case Unborn => 3
    case Running => 2
    case Dying => 1
    case Exited => 0
  }

  /** Work left: every packet on its way counts for the moves it still takes. */
  function Measure(s: State): nat {
    HandlerRank(s.handler) + CaptureRank(s.capture) + ScannerRank(s.scanner) + TsharkRank(s.tshark)
    + 5 * |s.pipe| + 3 * |s.pkts|
  }

  /** Every step but tshark's writing and the client's moods uses up work. */
  lemma WorkShrinks(s: State, step: Step)
    requires Control(s) && Enabled(s, step) && !OfClient(step) && !TsharkWriting(step)
    ensures Measure(Apply(s, step)) < Measure(s)
  {
    match step
    case Env(_) =>
    case Hand(h) => HandlerWorks(s, h);
    case Capt(c) => CaptureWorks(s, c);
    case Scan(n) => ScannerWorks(s, n);
  }

  lemma HandlerWorks(s: State, h: HandlerStep)
    requires HandlerEnabled(s, h)
    ensures Measure(HandlerApply(s, h)) < Measure(s)
  {}

  lemma CaptureWorks(s: State, c: CaptureStep)
    requires Control(s) && CaptureEnabled(s, c)
    ensures Measure(CaptureApply(s, c)) < Measure(s)
  {}

  lemma ScannerWorks(s: State, n: ScannerStep)
    requires Control(s) && ScannerEnabled(s, n)
    ensures Measure(ScannerApply(s, n)) < Measure(s)
  {}

  predicate PastKill(s: State) {
    s.tshark == Dying || s.tshark == Exited
  }

  lemma StaysPastKill(s: State, step: Step)
    requires Control(s) && PastKill(s) && Enabled(s, step)
    ensures PastKill(Apply(s, step))
    ensures if OfClient(step) then Measure(Apply(s, step)) == Measure(s) else Measure(Apply(s, step)) < Measure(s)
  {
    hide Packets, Received, Lines, Delivery;
    if !OfClient(step) {
      WorkShrinks(s, step);
    }
  }

  function OwnSteps(steps: seq<Step>): nat {
    if steps == [] then 0 else (if OfClient(steps[0]) then 0 else 1) + OwnSteps(steps[1..])
  }

  /** Once tshark is killed or gone it stays so, and every run from there on has
      at most Measure(s) steps besides the client's. */
  lemma {:induction false} EndsAfterKill(s0: State, steps: seq<Step>, s: State)
    requires Inv(s0) && PastKill(s0) && Reaches(s0, steps, s)
    ensures PastKill(s) && OwnSteps(steps) + Measure(s) <= Measure(s0)
    decreases |steps|
  {
    if steps == [] {
    } else {
      StepKeeps(s0, steps[0]);
      StaysPastKill(s0, steps[0]);
      hide Apply, Inv, Measure, Enabled;
      EndsAfterKill(Apply(s0, steps[0]), steps[1..], s);
    }
  }

  /** When those runs end, with tshark gone and the client not stalling, every
      goroutine has ended: handler, capture goroutine and scanner. */
  lemma EndIsEnd(s: State)
    requires Inv(s) && PastKill(s) && !CanMove(s) && !EnvEnabled(s, TsharkExits) && !WaitsForClient(s)
    ensures Terminal(s) && s.scanner == Stopped && s.doneClosed && s.stopClosed && s.pktsClosed && s.active == 0
  {
    NoDeadlock(s);
  }
}
