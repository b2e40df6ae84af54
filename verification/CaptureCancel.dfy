/** capture.go and main.go: what becomes of tshark when the client goes away, and how
    a line over the scanner's limit can leave it behind. */
module CaptureCancel {
  import opened Prelude
  import opened CaptureStream
  import opened CaptureProgress

  // ── When closing the tab ends tshark ────────────────────────────────────

  /** The scan ended early, tshark still runs, and the goroutine is past the only
      point where it could kill it. */
  predicate Abandoned(s: State) {
    s.capture == Reaping && s.tshark == Running
  }

  /** Abandoned is where the program stops with tshark running, and an overlong line
      has been read by then. */
  lemma AbandonedIsStuck(s: State)
    requires Inv(s) && s.handler == Gone && s.tshark == Running
    ensures Abandoned(s) <==> !CanMove(s)
    ensures Abandoned(s) ==> HitOverlong(s)
  {
    hide Packets, Received, Delivery;
    if !CanMove(s) {
      CaptureStuck(s);
    }
    if s.capture in {Launched, Counted, Selecting, Killing} {
      assert CaptureEnabled(s, Count) || CaptureEnabled(s, Spawn) || CaptureEnabled(s, SelectStop) || CaptureEnabled(s, Kill);
    }
  }

  /** An overlong line has been read or is in the pipe, and the goroutine has not
      chosen the branch that kills. */
  predicate MayBeLeft(s: State) {
    Overlong in s.consumed + s.pipe && s.capture in {Launched, Counted, Selecting, Reaping}
  }

  /** tshark does not exit by itself and writes no overlong line. */
  predicate TameStep(step: Step) {
    step != Env(TsharkExits) && step != Env(TsharkWrites(Overlong))
  }

  predicate Tame(steps: seq<Step>) {
    forall step <- steps :: TameStep(step)
  }

  /** tshark writes nothing more at all, and does not exit by itself. */
  predicate Silent(steps: seq<Step>) {
    forall step <- steps :: TameStep(step) && !TsharkWriting(step)
  }

  ghost predicate LeadsToAbandoned(s: State, steps: seq<Step>, t: State) {
    Silent(steps) && Reaches(s, steps, t) && Abandoned(t)
  }

  ghost predicate MayReachAbandoned(s: State) {
    exists steps, t :: LeadsToAbandoned(s, steps, t)
  }

  /** From any moment with tshark running, whatever the handler and the client do:
      some way of scheduling what is left abandons tshark, without another line of
      its own, exactly when an overlong line was already written and the goroutine
      had not yet taken the branch that kills. */
  lemma LeftRunningExactly(s: State)
    requires Inv(s) && s.tshark == Running
    ensures MayReachAbandoned(s) <==> MayBeLeft(s)
  {
    if MayBeLeft(s) {
      var steps, t := WayToAbandon(s);
      assert LeadsToAbandoned(s, steps, t);
    }
    if MayReachAbandoned(s) {
      var steps, t :| LeadsToAbandoned(s, steps, t);
      TameRun(s, steps, t);
      AbandonedMayBeLeft(t);
    }
  }

  /** Once the handler has returned, every other run that comes to rest has killed
      tshark. */
  lemma OtherwiseKilled(s: State, steps: seq<Step>, t: State)
    requires Inv(s) && s.handler == Gone && s.tshark == Running && !MayBeLeft(s)
    requires Tame(steps) && Reaches(s, steps, t) && !CanMove(t)
    ensures t.tshark != Running
  {
    TameRun(s, steps, t);
    if t.tshark == Running {
      AbandonedIsStuck(t);
      AbandonedMayBeLeft(t);
    }
  }

  // ── The way there ───────────────────────────────────────────────────────

  /** Whoever stands in the way of a scanner with a packet in hand goes on: the
      handler makes room, or returns and lets the packet be dropped. */
  lemma NextOfHandler(s: State) returns (step: Step)
    requires Control(s) && s.capture == Selecting && s.scanner.Emitting? && |s.pkts| >= PKTS_CAP && !s.stopClosed
    ensures Enabled(s, step) && (step.Hand? || (step == Env(ClientResumes) && s.client == Stalled))
  {
    step := match s.handler
      case Streaming => Hand(Receive)
      case Writing(_) => if s.client == Stalled then Env(ClientResumes) else Hand(Forward)
      case _ => Hand(CloseStop);
  }

  /** The next step on the way: drain the scanner, and let `done` win. */
  lemma NextToAbandon(s: State) returns (step: Step)
    requires Inv(s) && s.tshark == Running && MayBeLeft(s) && !Abandoned(s)
    ensures Enabled(s, step) && (!step.Env? || (step == Env(ClientResumes) && s.client == Stalled))
    ensures var t := Apply(s, step); t.tshark == Running && t.capture in {Launched, Counted, Selecting, Reaping}
  {
    hide Packets, Received, Delivery;
    if s.capture == Selecting && s.scanner.Emitting? && |s.pkts| >= PKTS_CAP && !s.stopClosed {
      step := NextOfHandler(s);
    } else {
      step := match s.capture
        case Launched => Capt(Count)
        case Counted => Capt(Spawn)
        case _ =>
          match s.scanner
          case Reading => Scan(ReadLine)
          case Emitting(_) => if |s.pkts| < PKTS_CAP then Scan(Send) else Scan(Drop)
          case Quitting => Scan(CloseDone)
          case _ => Capt(SelectDone);
      if step == Scan(ReadLine) {
        StillToRead(s);
      }
    }
  }

  /** While the scanner reads, an overlong line is still in the pipe. */
  lemma StillToRead(s: State)
    requires Lines(s) && s.scanner == Reading && Overlong in s.consumed + s.pipe
    ensures s.pipe != []
  {
    hide Packets;
    assert !HitOverlong(s);
    assert forall l <- s.consumed :: l != Overlong;
  }

  lemma StillLeft(s: State, t: State)
    requires Lines(s) && Lines(t) && t.produced == s.produced
    requires MayBeLeft(s) && t.capture in {Launched, Counted, Selecting, Reaping}
    ensures MayBeLeft(t)
  {
    hide Packets, HitOverlong;
  }

  lemma Resumed(s: State)
    requires s.client == Stalled
    ensures var t := Apply(s, Env(ClientResumes)); Measure(t) == Measure(s) && t.client == Ready
  {}

  lemma NearerToAbandon(s: State) returns (step: Step, t: State)
    requires Inv(s) && s.tshark == Running && MayBeLeft(s) && !Abandoned(s)
    ensures Enabled(s, step) && t == Apply(s, step) && TameStep(step) && !TsharkWriting(step)
    ensures Inv(t) && t.tshark == Running && MayBeLeft(t)
    ensures Measure(t) < Measure(s) || (Measure(t) == Measure(s) && s.client == Stalled && t.client == Ready)
  {
    hide Apply, Enabled, Control, Lines, Delivery, Measure, MayBeLeft, Abandoned;
    step := NextToAbandon(s);
    t := Apply(s, step);
    StepKeeps(s, step);
    StepMoves(s, step);
    StillLeft(s, t);
    if step == Env(ClientResumes) {
      Resumed(s);
    } else {
      WorkShrinks(s, step);
    }
  }

  lemma {:induction false} WayToAbandon(s: State) returns (steps: seq<Step>, t: State)
    requires Inv(s) && s.tshark == Running && MayBeLeft(s)
    ensures LeadsToAbandoned(s, steps, t)
    decreases Measure(s), if s.client == Stalled then 1 else 0
  {
    hide Apply, Enabled, Inv, Measure, MayBeLeft, Abandoned;
    if Abandoned(s) {
      steps, t := [], s;
    } else {
      var step, next := NearerToAbandon(s);
      var rest;
      rest, t := WayToAbandon(next);
      steps := [step] + rest;
      assert steps[1..] == rest;
    }
  }

  lemma AbandonedMayBeLeft(s: State)
    requires Inv(s) && Abandoned(s)
    ensures MayBeLeft(s)
  {
    hide Packets, Received, Delivery;
    assert HitOverlong(s);
    assert s.consumed[|s.consumed| - 1] in s.consumed;
  }

  // ── No other way ────────────────────────────────────────────────────────

  lemma {:induction false} TameRun(s: State, steps: seq<Step>, t: State)
    requires Inv(s) && (PastKill(s) || s.tshark == Running)
    requires Tame(steps) && Reaches(s, steps, t)
    ensures Inv(t) && (s.handler == Gone ==> t.handler == Gone)
    ensures PastKill(t) || (s.tshark == t.tshark == Running && (MayBeLeft(t) ==> MayBeLeft(s)))
    decreases |steps|
  {
    hide Apply, Enabled, Inv, MayBeLeft, TameStep;
    if steps == [] {
    } else {
      assert steps[0] in steps;
      assert forall step <- steps[1..] :: step in steps;
      TameStepKeeps(s, steps[0]);
      TameRun(Apply(s, steps[0]), steps[1..], t);
    }
  }

  /** Without another overlong line and with tshark still running, nothing has changed
      that decides: what was written, and that the goroutine has not chosen to kill. */
  lemma TameStepKeeps(s: State, step: Step)
    requires Inv(s) && (PastKill(s) || s.tshark == Running)
    requires Enabled(s, step) && TameStep(step)
    ensures var t := Apply(s, step);
            && Inv(t) && (s.handler == Gone ==> t.handler == Gone)
            && (PastKill(t) || (s.tshark == t.tshark == Running && (MayBeLeft(t) ==> MayBeLeft(s))))
  {
    StepKeeps(s, step);
    StepMoves(s, step);
    if PastKill(s) {
      StaysPastKill(s, step);
    }
    hide Apply, Enabled, Delivery, Packets;
  }

  /** How the capture goroutine can have got where it is. */
  predicate Precedes(c: Capture, d: Capture) {
    && (d == Launched ==> c == Launched || c == Starting)
    && (d == Counted ==> c == Counted || c == Launched)
    && (d == Selecting ==> c == Selecting || c == Counted)
    && (d == Reaping ==> c == Reaping || c == Selecting || c == Joining)
  }

  lemma StepMoves(s: State, step: Step)
    requires Enabled(s, step)
    ensures var t := Apply(s, step);
            && (s.handler == Gone ==> t.handler == Gone)
            && (if TsharkWriting(step) then t.produced == s.produced + [step.e.line] else t.produced == s.produced)
            && (s.tshark == Running ==> t.tshark == Running || PastKill(t))
            && Precedes(s.capture, t.capture)
  {
    match step
    case Env(_) =>
    case Hand(h) => HandlerMoves(s, h);
    case Capt(c) => CaptureMoves(s, c);
    case Scan(n) => ScannerMoves(s, n);
  }

  lemma HandlerMoves(s: State, h: HandlerStep)
    requires HandlerEnabled(s, h)
    ensures var t := HandlerApply(s, h);
            && (s.handler != Gone || t.handler == Gone) && t.capture == s.capture
            && t.produced == s.produced && t.tshark == s.tshark
  {}

  lemma CaptureMoves(s: State, c: CaptureStep)
    requires CaptureEnabled(s, c)
    ensures var t := CaptureApply(s, c);
            && t.handler == s.handler && t.produced == s.produced && Precedes(s.capture, t.capture)
            && (t.tshark == s.tshark || t.tshark == Dying || s.capture == Starting)
            && (s.capture == Starting ==> t.tshark == s.tshark || t.tshark == Running)
  {}

  lemma ScannerMoves(s: State, n: ScannerStep)
    requires ScannerEnabled(s, n)
    ensures var t := ScannerApply(s, n);
            && t.handler == s.handler && t.capture == s.capture
            && t.produced == s.produced && t.tshark == s.tshark
  {}

  /** From there on nothing the program does changes it: it ends only with an exit of
      tshark. */
  lemma AbandonedStays(s: State, step: Step)
    requires Control(s) && Abandoned(s) && Enabled(s, step)
    ensures Abandoned(Apply(s, step)) || step == Env(TsharkExits)
  {
    hide Packets, Received, Lines, Delivery;
  }

  /** The situation is reachable: tshark writes one overlong line, the scan ends,
      the goroutine goes to Wait, and then the client leaves. */
  lemma AbandonedReachable(s0: State) returns (s: State)
    requires Init(s0) && s0.client == Ready
    ensures Reachable(s0, s) && Abandoned(s) && s.handler == Gone && HitOverlong(s)
  {
    assert Reaches(s0, [], s0);
    hide Reaches, Reachable, Packets;
    s := GiveUp(s0);
    s := Then(s0, s, Env(ClientLeaves));
    s := Then(s0, s, Hand(Cancel));
    s := Then(s0, s, Hand(CloseStop));
  }

  ghost predicate Reachable(s0: State, s: State) {
    exists steps :: Reaches(s0, steps, s)
  }

  lemma Launch(s0: State) returns (s: State)
    requires Init(s0) && Reaches(s0, [], s0)
    ensures Reachable(s0, s)
    ensures s == s0.(capture := Selecting, scanner := Reading, tshark := Running, active := 1)
  {
    s := Then(s0, s0, Capt(Start));
    s := Then(s0, s, Capt(Count));
    s := Then(s0, s, Capt(Spawn));
  }

  /** tshark writes one overlong line, the scan ends, and the goroutine goes to Wait. */
  lemma GiveUp(s0: State) returns (s: State)
    requires Init(s0) && Reaches(s0, [], s0)
    ensures Reachable(s0, s)
    ensures s == s0.(capture := Reaping, scanner := Stopped, tshark := Running, active := 1, doneClosed := true,
                     produced := [Overlong], consumed := [Overlong])
  {
    hide Reaches, Reachable, Packets;
    s := Launch(s0);
    s := Then(s0, s, Env(TsharkWrites(Overlong)));
    s := Then(s0, s, Scan(ReadLine));
    s := Then(s0, s, Scan(CloseDone));
    s := Then(s0, s, Capt(SelectDone));
  }

  lemma Then(s0: State, s: State, step: Step) returns (t: State)
    requires Reachable(s0, s) && Enabled(s, step)
    ensures t == Apply(s, step) && Reachable(s0, t)
  {
    t := Apply(s, step);
    var steps :| Reaches(s0, steps, s);
    Append(s0, steps, s, step);
  }

  lemma {:induction false} Append(s0: State, steps: seq<Step>, s: State, step: Step)
    requires Reaches(s0, steps, s) && Enabled(s, step)
    ensures Reaches(s0, steps + [step], Apply(s, step))
    decreases |steps|
  {
    hide Apply, Enabled;
    if steps == [] {
      assert Reaches(Apply(s, step), [], Apply(s, step));
      assert ([] + [step])[1..] == [];
    } else {
      Append(Apply(s0, steps[0]), steps[1..], s, step);
      assert (steps + [step])[1..] == steps[1..] + [step];
    }
  }

  // ── The deadlock ────────────────────────────────────────────────────────

  ghost predicate LeadsToMutualWait(s: State, steps: seq<Step>, t: State) {
    Tame(steps) && Reaches(s, steps, t) && MutualWait(t)
  }

  ghost predicate MayReachMutualWait(s: State) {
    exists steps, t :: LeadsToMutualWait(s, steps, t)
  }

  /** The deadlock of tshark with cmd.Wait, from any moment with tshark running: some
      run in which tshark writes no further overlong line and does not exit by itself
      ends in it exactly when an overlong line was already written and the goroutine
      had not yet taken the branch that kills. */
  lemma MutualWaitExactly(s: State)
    requires Inv(s) && s.tshark == Running
    ensures MayReachMutualWait(s) <==> MayBeLeft(s)
  {
    if MayBeLeft(s) {
      var steps, t := WayToMutualWait(s);
      assert LeadsToMutualWait(s, steps, t);
    }
    if MayReachMutualWait(s) {
      var steps, t :| LeadsToMutualWait(s, steps, t);
      TameRun(s, steps, t);
      AbandonedMayBeLeft(t);
    }
  }

  /** Abandoned with room in the pipe: tshark writes another line. */
  lemma OneMoreLine(s: State) returns (t: State)
    requires Inv(s) && Abandoned(s) && |s.pipe| < s.pipeCap
    ensures var step := Env(TsharkWrites(Text(None)));
            Enabled(s, step) && t == Apply(s, step) && Inv(t) && Abandoned(t)
    ensures t.pipeCap == s.pipeCap && |t.pipe| == |s.pipe| + 1
  {
    var step := Env(TsharkWrites(Text(None)));
    t := Apply(s, step);
    StepKeeps(s, step);
    hide Inv;
  }

  function RoomLeft(s: State): nat {
    if |s.pipe| < s.pipeCap then s.pipeCap - |s.pipe| else 0
  }

  lemma {:induction false} WayToMutualWait(s: State) returns (steps: seq<Step>, t: State)
    requires Inv(s) && s.tshark == Running && MayBeLeft(s)
    ensures LeadsToMutualWait(s, steps, t)
    decreases if Abandoned(s) then 0 else 1, if Abandoned(s) then RoomLeft(s) else Measure(s),
              if s.client == Stalled then 1 else 0
  {
    if MutualWait(s) {
      steps, t := [], s;
    } else {
      var step, next;
      if Abandoned(s) {
        step := Env(TsharkWrites(Text(None)));
        next := OneMoreLine(s);
        AbandonedMayBeLeft(next);
      } else {
        step, next := NearerToAbandon(s);
      }
      hide Apply, Enabled, Inv, Measure, MayBeLeft;
      var rest;
      rest, t := WayToMutualWait(next);
      steps := [step] + rest;
      assert steps[1..] == rest;
    }
  }

  /** It is reached with a client that is there and reading: one line over the limit,
      and then more lines than the pipe holds. */
  lemma MutualWaitReachable(s0: State) returns (s: State)
    requires Init(s0) && s0.client == Ready
    ensures Reachable(s0, s) && MutualWait(s) && !CanMove(s) && s.client == Ready && s.handler == Streaming
  {
    assert Reaches(s0, [], s0);
    hide Reaches, Reachable, Packets, CanMove;
    s := GiveUp(s0);
    while |s.pipe| < s.pipeCap
      invariant Reachable(s0, s)
      invariant s.capture == Reaping && s.tshark == Running && s.scanner == Stopped && s.pkts == []
      invariant s.handler == Streaming && s.client == Ready && !s.pktsClosed
      decreases s.pipeCap - |s.pipe|
    {
      s := Then(s0, s, Env(TsharkWrites(Text(None))));
    }
  }
}
