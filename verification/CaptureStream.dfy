/** capture.go, streamCapture, and main.go, handleCapture: one live capture as
    four parties taking turns in any order. The handler forwards packets to its
    client, the capture goroutine starts, kills and reaps tshark, the scanner
    goroutine parses tshark's lines, and tshark writes them to a pipe. Channels
    are modelled with their panics: sending on or closing a closed channel sets
    `panicked`. */
module CaptureStream {
  import opened Prelude

  type Packet = map<string, string>

  /** A line of tshark's output: parsePacket's answer, or a line over the
      scanner's 1 MiB limit, which ends the scan. */
  datatype Line = Text(packet: Option<Packet>) | Overlong

  datatype Frame = Data(packet: Packet) | Failed(msg: string) | Done

  datatype Handler =
    | Streaming             // select on pkts and the request's context
    | Writing(p: Packet)    // received, not yet written to the client
    | Finishing             // pkts seen closed: error and done frames next
    | Leaving               // returned; the deferred close(stop) is next
    | Gone

  datatype Capture =
    | Starting              // before cmd.Start
    | Launched              // tshark runs, not yet counted
    | Counted               // captureActive.Add(1) done, scanner not yet spawned
    | Selecting             // select on done and stop
    | Killing               // stop won
    | Joining               // <-done after the kill
    | Reaping               // cmd.Wait
    | Reaped(msg: string)   // the deferred captureActive.Add(-1) is next
    | Assigning(msg: string)
    | Closing               // close(pkts) is next
    | Finished

  datatype Scanner = Absent | Reading | Emitting(p: Packet) | Quitting | Stopped

  datatype Tshark = Unborn | Running | Dying | Exited

  predicate Alive(t: Tshark) {
    t == Running || t == Dying
  }

  datatype Client = Ready | Stalled | Lost

  datatype State = State(
    handler: Handler, capture: Capture, scanner: Scanner, tshark: Tshark, client: Client,
    pipe: seq<Line>, pipeCap: nat,
    pkts: seq<Packet>, pktsClosed: bool, stopClosed: bool, doneClosed: bool,
    errMsg: string, active: int, panicked: bool,
    // history: what tshark wrote, what the scanner read and parsed, what the client was sent
    produced: seq<Line>, consumed: seq<Line>, parsed: seq<Packet>, frames: seq<Frame>)

  const PKTS_CAP := 256

  predicate Init(s: State) {
    && s.handler == Streaming && s.capture == Starting && s.scanner == Absent && s.tshark == Unborn
    && s.pipe == [] && s.pipeCap >= 1 && s.pkts == []
    && !s.pktsClosed && !s.stopClosed && !s.doneClosed && !s.panicked
    && s.errMsg == "" && s.active == 0
    && s.produced == [] && s.consumed == [] && s.parsed == [] && s.frames == []
  }

  // The environment.
  datatype EnvStep = ClientStalls | ClientResumes | ClientLeaves | TsharkWrites(line: Line) | TsharkExits
  // handleCapture.
  datatype HandlerStep = Receive | Forward | SeeClosed | Cancel | Finish | CloseStop
  // The goroutine running streamCapture.
  datatype CaptureStep =
    | StartFails(msg: string) | Start | Count | Spawn | SelectDone | SelectStop | Kill | Join
    | Wait(msg: string) | Uncount | Assign | ClosePkts
  // The scanner goroutine.
  datatype ScannerStep = ReadLine | ReadEof | Send | Drop | CloseDone

  datatype Step = Env(e: EnvStep) | Hand(h: HandlerStep) | Capt(c: CaptureStep) | Scan(n: ScannerStep)

  predicate EnvEnabled(s: State, e: EnvStep) {
    match e
    case ClientStalls => s.client == Ready
    case ClientResumes => s.client == Stalled
    case ClientLeaves => s.client != Lost
    case TsharkWrites(_) => s.tshark == Running && |s.pipe| < s.pipeCap
    case TsharkExits => Alive(s.tshark)
  }

  function EnvApply(s: State, e: EnvStep): State
    requires EnvEnabled(s, e)
  {
    match e
    case ClientStalls => s.(client := Stalled)
    case ClientResumes => s.(client := Ready)
    case ClientLeaves => s.(client := Lost)
    case TsharkWrites(line) => s.(pipe := s.pipe + [line], produced := s.produced + [line])
    case TsharkExits => s.(tshark := Exited)
  }

  predicate HandlerEnabled(s: State, h: HandlerStep) {
    match h
    case Receive => s.handler == Streaming && s.pkts != []
    case Forward => s.handler.Writing? && s.client != Stalled
    case SeeClosed => s.handler == Streaming && s.pkts == [] && s.pktsClosed
    case Cancel => s.handler == Streaming && s.client == Lost
    case Finish => s.handler == Finishing && s.client != Stalled
    case CloseStop => s.handler == Leaving
  }

  function HandlerApply(s: State, h: HandlerStep): State
    requires HandlerEnabled(s, h)
  {
    match h
    case Receive => s.(handler := Writing(s.pkts[0]), pkts := s.pkts[1..])
    case Forward => s.(handler := Streaming, frames := s.frames + [Data(s.handler.p)])
    case SeeClosed => s.(handler := Finishing)
    case Cancel => s.(handler := Leaving)
    case Finish =>
      s.(handler := Leaving, frames := s.frames + (if s.errMsg != "" then [Failed(s.errMsg)] else []) + [Done])
    case CloseStop => s.(handler := Gone, stopClosed := true, panicked := s.panicked || s.stopClosed)
  }

  predicate CaptureEnabled(s: State, c: CaptureStep) {
    match c
    case StartFails(_) => s.capture == Starting
    case Start => s.capture == Starting
    case Count => s.capture == Launched
    case Spawn => s.capture == Counted
    case SelectDone => s.capture == Selecting && s.doneClosed
    case SelectStop => s.capture == Selecting && s.stopClosed
    case Kill => s.capture == Killing
    case Join => s.capture == Joining && s.doneClosed
    case Wait(_) => s.capture == Reaping && s.tshark == Exited
    case Uncount => s.capture.Reaped?
    case Assign => s.capture.Assigning?
    case ClosePkts => s.capture == Closing
  }

  function CaptureApply(s: State, c: CaptureStep): State
    requires CaptureEnabled(s, c)
  {
    match c
    case StartFails(msg) => s.(capture := Assigning(msg))
    case Start => s.(capture := Launched, tshark := Running)
    case Count => s.(capture := Counted, active := s.active + 1)
    case Spawn => s.(capture := Selecting, scanner := Reading)
    case SelectDone => s.(capture := Reaping)
    case SelectStop => s.(capture := Killing)
    case Kill => s.(capture := Joining, tshark := if s.tshark == Running then Dying else s.tshark)
    case Join => s.(capture := Reaping)
    case Wait(msg) => s.(capture := Reaped(msg))
    case Uncount => s.(capture := Assigning(s.capture.msg), active := s.active - 1)
    case Assign => s.(capture := Closing, errMsg := s.capture.msg)
    case ClosePkts => s.(capture := Finished, pktsClosed := true, panicked := s.panicked || s.pktsClosed)
  }

  predicate ScannerEnabled(s: State, n: ScannerStep) {
    match n
    case ReadLine => s.scanner == Reading && s.pipe != []
    case ReadEof => s.scanner == Reading && s.pipe == [] && s.tshark == Exited
    case Send => s.scanner.Emitting? && (|s.pkts| < PKTS_CAP || s.pktsClosed)
    case Drop => s.scanner.Emitting? && s.stopClosed
    case CloseDone => s.scanner == Quitting
  }

  function ScannerApply(s: State, n: ScannerStep): State
    requires ScannerEnabled(s, n)
  {
    match n
    case ReadLine =>
      var t := s.(pipe := s.pipe[1..], consumed := s.consumed + [s.pipe[0]]);
      (match s.pipe[0]
       case Overlong => t.(scanner := Quitting)
       case Text(None) => t
       case Text(Some(p)) => t.(scanner := Emitting(p), parsed := s.parsed + [p]))
    case ReadEof => s.(scanner := Quitting)
    case Send =>
      if s.pktsClosed then s.(panicked := true)
      else s.(scanner := Reading, pkts := s.pkts + [s.scanner.p])
    case Drop => s.(scanner := Reading)
    case CloseDone => s.(scanner := Stopped, doneClosed := true, panicked := s.panicked || s.doneClosed)
  }

  predicate Enabled(s: State, step: Step) {
    match step
    case Env(e) => EnvEnabled(s, e)
    case Hand(h) => HandlerEnabled(s, h)
    case Capt(c) => CaptureEnabled(s, c)
    case Scan(n) => ScannerEnabled(s, n)
  }

  function Apply(s: State, step: Step): State
    requires Enabled(s, step)
  {
    match step
    case Env(e) => EnvApply(s, e)
    case Hand(h) => HandlerApply(s, h)
    case Capt(c) => CaptureApply(s, c)
    case Scan(n) => ScannerApply(s, n)
  }

  // ── Invariant ───────────────────────────────────────────────────────────

  /** The packets of a list of lines. */
  function Packets(lines: seq<Line>): seq<Packet> {
    if lines == [] then []
    else Packets(lines[..|lines| - 1]) +
         (match lines[|lines| - 1]
          case Text(Some(p)) => [p]
          case _ => [])
  }

  /** The packets of the data frames sent to the client. */
  function Received(frames: seq<Frame>): seq<Packet> {
    if frames == [] then []
    else Received(frames[..|frames| - 1]) +
         (match frames[|frames| - 1]
          case Data(p) => [p]
          case _ => [])
  }

  predicate Started(s: State) {
    s.scanner != Absent
  }

  /** Which positions of the four parties go together; in particular no one can
      send on or close a channel that is already closed. */
  predicate Control(s: State) {
    && !s.panicked
    && (s.stopClosed <==> s.handler == Gone)
    && (s.doneClosed <==> s.scanner == Stopped)
    && (s.pktsClosed <==> s.capture == Finished)
    && (s.handler == Finishing ==> s.capture == Finished && s.pkts == [])
    && (match s.capture
        case Starting => !Started(s) && s.tshark == Unborn
        case Launched => !Started(s) && s.tshark in {Running, Exited}
        case Counted => !Started(s) && s.tshark in {Running, Exited}
        case Selecting => Started(s) && s.tshark in {Running, Exited}
        case Killing => Started(s) && s.tshark in {Running, Exited} && s.stopClosed
        case Joining => Started(s) && s.tshark in {Dying, Exited} && s.stopClosed
        case Reaping => s.scanner == Stopped && s.tshark != Unborn
        case _ => if Started(s) then s.scanner == Stopped && s.tshark == Exited else s.tshark == Unborn)
    && s.active == (if s.capture in {Counted, Selecting, Killing, Joining, Reaping} || s.capture.Reaped? then 1 else 0)
  }

  /** The lines: written = read then still in the pipe; an overlong line is only
      ever the last one read, and short of it the scanner stops at the end. */
  predicate Lines(s: State) {
    && s.produced == s.consumed + s.pipe
    && s.pipeCap >= 1
    && (!Started(s) && s.tshark == Unborn ==> s.produced == [])
    && (!Started(s) ==> s.consumed == [])
    && (forall i | 0 <= i < |s.consumed| - 1 :: s.consumed[i] != Overlong)
    && (s.scanner in {Quitting, Stopped} ==> HitOverlong(s) || (s.pipe == [] && s.tshark == Exited))
    && (HitOverlong(s) ==> s.scanner in {Quitting, Stopped})
    && s.parsed == Packets(s.consumed)
  }

  predicate HitOverlong(s: State) {
    s.consumed != [] && s.consumed[|s.consumed| - 1] == Overlong
  }

  function InHand(s: State): seq<Packet> {
    if s.handler.Writing? then [s.handler.p] else []
  }

  function InEmit(s: State): seq<Packet> {
    if s.scanner.Emitting? then [s.scanner.p] else []
  }

  predicate HasDone(s: State) {
    Done in s.frames
  }

  /** The packets: until stop is closed none is lost or reordered between the
      scanner and the client; a done frame says all of them arrived. */
  predicate Delivery(s: State) {
    && (s.handler != Gone ==> Received(s.frames) + InHand(s) + s.pkts + InEmit(s) == s.parsed)
    && Received(s.frames) <= s.parsed
    && (s.handler in {Streaming, Finishing} || s.handler.Writing? ==> forall f <- s.frames :: f.Data?)
    && (HasDone(s) ==>
          && s.handler in {Leaving, Gone} && s.capture == Finished
          && Received(s.frames) == s.parsed
          && s.frames[|s.frames| - 1] == Done
          && (s.errMsg != "" <==> Failed(s.errMsg) in s.frames)
          && forall f <- s.frames :: f.Failed? ==> f.msg == s.errMsg)
  }

  predicate Inv(s: State) {
    Control(s) && Lines(s) && Delivery(s)
  }

  lemma InitHolds(s: State)
    requires Init(s)
    ensures Inv(s)
  {}

  lemma EnvLines(s: State, e: EnvStep)
    requires Control(s) && Lines(s) && EnvEnabled(s, e)
    ensures Lines(EnvApply(s, e))
  {
    hide Packets, Delivery;
    if e.TsharkWrites? {
      assert s.consumed + (s.pipe + [e.line]) == s.consumed + s.pipe + [e.line];
    }
  }

  lemma EnvControl(s: State, e: EnvStep)
    requires Control(s) && EnvEnabled(s, e)
    ensures Control(EnvApply(s, e))
  {
    hide Packets, Delivery, Lines;
  }

  lemma EnvDelivery(s: State, e: EnvStep)
    requires Control(s) && Delivery(s) && EnvEnabled(s, e)
    ensures Delivery(EnvApply(s, e))
  {
    hide Packets, Received, Lines;
  }

  lemma EnvKeeps(s: State, e: EnvStep)
    requires Inv(s) && EnvEnabled(s, e)
    ensures Inv(EnvApply(s, e))
  {
    EnvControl(s, e);
    EnvLines(s, e);
    EnvDelivery(s, e);
    hide Control, Lines, Delivery, EnvApply;
  }

  lemma ReceivedAppend(frames: seq<Frame>, f: Frame)
    ensures Received(frames + [f]) == Received(frames) + if f.Data? then [f.packet] else []
  {
    assert (frames + [f])[..|frames|] == frames;
  }

  lemma ReceiveDelivers(s: State)
    requires Delivery(s) && HandlerEnabled(s, Receive)
    ensures Delivery(HandlerApply(s, Receive))
  {
    hide Packets, Received, Lines, Control;
    var t := HandlerApply(s, Receive);
    var r := Received(s.frames);
    assert r + [] == r && [s.pkts[0]] + s.pkts[1..] == s.pkts;
    assert r + [s.pkts[0]] + s.pkts[1..] + InEmit(s) == r + s.pkts + InEmit(s);
  }

  lemma ForwardDelivers(s: State)
    requires Control(s) && Delivery(s) && HandlerEnabled(s, Forward)
    ensures Delivery(HandlerApply(s, Forward))
  {
    hide Packets, Received, Lines, Control;
    var t := HandlerApply(s, Forward);
    ReceivedAppend(s.frames, Data(s.handler.p));
    assert Received(t.frames) + [] == Received(s.frames) + [s.handler.p];
    assert Received(t.frames) <= s.parsed;
  }

  lemma FinishDelivers(s: State)
    requires Control(s) && Delivery(s) && HandlerEnabled(s, Finish)
    ensures Delivery(HandlerApply(s, Finish))
  {
    hide Packets, Received, Lines;
    var t := HandlerApply(s, Finish);
    var r := Received(s.frames);
    var e := if s.errMsg != "" then [Failed(s.errMsg)] else [];
    assert Received(s.frames + e) == r by {
      if s.errMsg != "" {
        ReceivedAppend(s.frames, Failed(s.errMsg));
      } else {
        assert s.frames + e == s.frames;
      }
    }
    ReceivedAppend(s.frames + e, Done);
    assert r + [] + [] + [] == r;
    assert Failed(s.errMsg) !in s.frames;
    assert t.frames == s.frames + e + [Done];
  }

  lemma HandlerLines(s: State, h: HandlerStep)
    requires Control(s) && Lines(s) && HandlerEnabled(s, h)
    ensures Lines(HandlerApply(s, h))
  {
    hide Packets, Delivery;
  }

  lemma HandlerControl(s: State, h: HandlerStep)
    requires Control(s) && HandlerEnabled(s, h)
    ensures Control(HandlerApply(s, h))
  {
    hide Packets, Delivery, Lines;
  }

  lemma HandlerDelivery(s: State, h: HandlerStep)
    requires Control(s) && Delivery(s) && HandlerEnabled(s, h)
    ensures Delivery(HandlerApply(s, h))
  {
    hide Packets, Received, Lines;
    match h
    case Receive => ReceiveDelivers(s);
    case Forward => ForwardDelivers(s);
    case Finish => FinishDelivers(s);
    case _ =>
  }

  lemma HandlerKeeps(s: State, h: HandlerStep)
    requires Inv(s) && HandlerEnabled(s, h)
    ensures Inv(HandlerApply(s, h))
  {
    HandlerControl(s, h);
    HandlerLines(s, h);
    HandlerDelivery(s, h);
    hide Control, Lines, Delivery, HandlerApply;
  }

  lemma CaptureLines(s: State, c: CaptureStep)
    requires Control(s) && Lines(s) && CaptureEnabled(s, c)
    ensures Lines(CaptureApply(s, c))
  {
    hide Packets, Delivery;
  }

  lemma CaptureControl(s: State, c: CaptureStep)
    requires Control(s) && CaptureEnabled(s, c)
    ensures Control(CaptureApply(s, c))
  {
    hide Packets, Delivery, Lines;
  }

  lemma CaptureDelivery(s: State, c: CaptureStep)
    requires Control(s) && Delivery(s) && CaptureEnabled(s, c)
    ensures Delivery(CaptureApply(s, c))
  {
    hide Packets, Received, Lines;
  }

  lemma CaptureKeeps(s: State, c: CaptureStep)
    requires Inv(s) && CaptureEnabled(s, c)
    ensures Inv(CaptureApply(s, c))
  {
    CaptureControl(s, c);
    CaptureLines(s, c);
    CaptureDelivery(s, c);
    hide Control, Lines, Delivery, CaptureApply;
  }

  lemma PacketsAppend(lines: seq<Line>, l: Line)
    ensures Packets(lines + [l]) == Packets(lines) + (match l case Text(Some(p)) => [p] case _ => [])
  {
    assert (lines + [l])[..|lines|] == lines;
  }

  lemma ReadLineContents(s: State)
    requires Lines(s) && ScannerEnabled(s, ReadLine)
    ensures var t := ScannerApply(s, ReadLine);
            t.produced == t.consumed + t.pipe && t.parsed == Packets(t.consumed)
  {
    hide Packets;
    PacketsAppend(s.consumed, s.pipe[0]);
    assert s.consumed + s.pipe == s.consumed + [s.pipe[0]] + s.pipe[1..];
    assert Packets(s.consumed) + [] == Packets(s.consumed);
  }

  lemma ReadLineLines(s: State)
    requires Control(s) && Lines(s) && ScannerEnabled(s, ReadLine)
    ensures Lines(ScannerApply(s, ReadLine))
  {
    hide Packets, Control;
    ReadLineContents(s);
    assert forall i | 0 <= i < |s.consumed| :: s.consumed[i] != Overlong;
  }

  lemma ReadLineDelivers(s: State)
    requires Control(s) && Delivery(s) && ScannerEnabled(s, ReadLine)
    ensures Delivery(ScannerApply(s, ReadLine))
  {
    hide Received, Packets, Lines;
    var x := Received(s.frames) + InHand(s) + s.pkts;
    assert x + [] == x;
  }

  lemma SendKeeps(s: State)
    requires Control(s) && Delivery(s) && ScannerEnabled(s, Send)
    ensures Delivery(ScannerApply(s, Send))
  {
    hide Packets, Received, Lines;
    var x := Received(s.frames) + InHand(s);
    var p := [s.scanner.p];
    assert x + s.pkts + p == x + (s.pkts + p) + [];
  }

  lemma ScannerLines(s: State, n: ScannerStep)
    requires Control(s) && Lines(s) && ScannerEnabled(s, n)
    ensures Lines(ScannerApply(s, n))
  {
    hide Packets, Delivery;
    if n == ReadLine {
      ReadLineLines(s);
    }
  }

  lemma ScannerControl(s: State, n: ScannerStep)
    requires Control(s) && ScannerEnabled(s, n)
    ensures Control(ScannerApply(s, n))
  {
    hide Packets, Delivery, Lines;
  }

  lemma ScannerDelivery(s: State, n: ScannerStep)
    requires Control(s) && Delivery(s) && ScannerEnabled(s, n)
    ensures Delivery(ScannerApply(s, n))
  {
    hide Packets, Received, Lines;
    match n
    case ReadLine => ReadLineDelivers(s);
    case Send => SendKeeps(s);
    case _ =>
  }

  lemma ScannerKeeps(s: State, n: ScannerStep)
    requires Inv(s) && ScannerEnabled(s, n)
    ensures Inv(ScannerApply(s, n))
  {
    ScannerControl(s, n);
    ScannerLines(s, n);
    ScannerDelivery(s, n);
    hide Control, Lines, Delivery, ScannerApply;
  }

  /** Every step of every party keeps the invariant. */
  lemma StepKeeps(s: State, step: Step)
    requires Inv(s) && Enabled(s, step)
    ensures Inv(Apply(s, step))
  {
    match step
    case Env(e) => EnvKeeps(s, e);
    case Hand(h) => HandlerKeeps(s, h);
    case Capt(c) => CaptureKeeps(s, c);
    case Scan(n) => ScannerKeeps(s, n);
  }

  // ── Runs ────────────────────────────────────────────────────────────────

  /** `s` is reached from an initial state by some interleaving. */
  ghost predicate Reaches(s0: State, steps: seq<Step>, s: State)
    decreases |steps|
  {
    if steps == [] then s == s0
    else Enabled(s0, steps[0]) && Reaches(Apply(s0, steps[0]), steps[1..], s)
  }

  lemma {:induction false} RunKeeps(s0: State, steps: seq<Step>, s: State)
    requires Inv(s0) && Reaches(s0, steps, s)
    ensures Inv(s)
    decreases |steps|
  {
    if steps == [] {
    } else {
      StepKeeps(s0, steps[0]);
      RunKeeps(Apply(s0, steps[0]), steps[1..], s);
    }
  }

  /** Safety over whole runs: no channel operation ever panics (so nothing is sent
      on `pkts` after it is closed, and each channel is closed at most once), and
      the client has received an in-order prefix of the packets parsed. */
  lemma NeverPanics(s0: State, steps: seq<Step>, s: State)
    requires Init(s0) && Reaches(s0, steps, s)
    ensures !s.panicked
    ensures Received(s.frames) <= s.parsed == Packets(s.consumed)
    ensures s.consumed <= s.produced
  {
    InitHolds(s0);
    RunKeeps(s0, steps, s);
  }

  /** A done frame is the last frame, and with it the client has every packet
      parsed: all that tshark wrote, unless a line over the limit ended the scan.
      An error frame precedes it exactly when tshark reported an error. */
  lemma DoneMeansComplete(s0: State, steps: seq<Step>, s: State)
    requires Init(s0) && Reaches(s0, steps, s) && Done in s.frames
    ensures s.frames[|s.frames| - 1] == Done
    ensures Received(s.frames) == Packets(s.consumed)
    ensures s.consumed == s.produced || HitOverlong(s)
    ensures s.errMsg != "" <==> Failed(s.errMsg) in s.frames
  {
    InitHolds(s0);
    RunKeeps(s0, steps, s);
  }

  /** cmd.Wait is reached only after the scanner has read its last line. */
  lemma WaitAfterLastRead(s0: State, steps: seq<Step>, s: State)
    requires Init(s0) && Reaches(s0, steps, s) && s.capture == Reaping
    ensures s.scanner == Stopped
  {
    InitHolds(s0);
    RunKeeps(s0, steps, s);
  }

  // ── What the client is told ─────────────────────────────────────────────

  /** tshark, or its start, reported `msg`. */
  predicate Reported(steps: seq<Step>, msg: string) {
    Capt(Wait(msg)) in steps || Capt(StartFails(msg)) in steps
  }

  /** What the capture goroutine carries is what was reported, and nothing else was. */
  predicate Carries(s: State, past: seq<Step>, msg: string) {
    match s.capture
    case Reaped(m) => Reported(past, msg) <==> msg == m
    case Assigning(m) => Reported(past, msg) <==> msg == m
    case Closing => Reported(past, msg) <==> msg == s.errMsg
    case Finished => Reported(past, msg) <==> msg == s.errMsg
    case _ => !Reported(past, msg)
  }

  lemma CaptureCarries(s: State, past: seq<Step>, c: CaptureStep, msg: string)
    requires CaptureEnabled(s, c) && Carries(s, past, msg)
    ensures Carries(CaptureApply(s, c), past + [Capt(c)], msg)
  {
    assert Reported(past + [Capt(c)], msg) <==> Reported(past, msg) || c == Wait(msg) || c == StartFails(msg);
    hide Reported;
  }

  lemma ScannerSpares(s: State, n: ScannerStep)
    requires ScannerEnabled(s, n)
    ensures var t := ScannerApply(s, n);
            t.capture == s.capture && t.errMsg == s.errMsg && t.handler == s.handler && t.frames == s.frames
  {}

  lemma HandlerSpares(s: State, h: HandlerStep)
    requires HandlerEnabled(s, h)
    ensures HandlerApply(s, h).capture == s.capture && HandlerApply(s, h).errMsg == s.errMsg
  {}

  lemma CaptureSpares(s: State, c: CaptureStep)
    requires CaptureEnabled(s, c)
    ensures CaptureApply(s, c).handler == s.handler && CaptureApply(s, c).frames == s.frames
  {}

  lemma EnvSpares(s: State, e: EnvStep)
    requires EnvEnabled(s, e)
    ensures var t := EnvApply(s, e);
            t.capture == s.capture && t.errMsg == s.errMsg && t.handler == s.handler && t.frames == s.frames
  {}

  lemma OthersLeaveErr(s: State, step: Step)
    requires Enabled(s, step) && !step.Capt?
    ensures Apply(s, step).capture == s.capture && Apply(s, step).errMsg == s.errMsg
  {
    hide EnvEnabled, HandlerEnabled, ScannerEnabled, EnvApply, HandlerApply, ScannerApply;
    match step
    case Env(e) => EnvSpares(s, e);
    case Hand(h) => HandlerSpares(s, h);
    case Scan(n) => ScannerSpares(s, n);
    case _ =>
  }

  lemma StepCarries(s: State, past: seq<Step>, step: Step, msg: string)
    requires Enabled(s, step) && Carries(s, past, msg)
    ensures Carries(Apply(s, step), past + [step], msg)
  {
    hide CaptureEnabled, CaptureApply, HandlerApply, ScannerApply, EnvApply;
    if step.Capt? {
      CaptureCarries(s, past, step.c, msg);
    } else {
      OthersLeaveErr(s, step);
      assert Reported(past + [step], msg) <==> Reported(past, msg);
    }
    hide Enabled, Reported;
  }

  lemma {:induction false} RunCarries(s0: State, past: seq<Step>, steps: seq<Step>, s: State, msg: string)
    requires Carries(s0, past, msg) && Reaches(s0, steps, s)
    ensures Carries(s, past + steps, msg)
    decreases |steps|
  {
    hide Apply, Enabled, Carries;
    if steps == [] {
      assert past + [] == past;
    } else {
      StepCarries(s0, past, steps[0], msg);
      RunCarries(Apply(s0, steps[0]), past + [steps[0]], steps[1..], s, msg);
      assert past + [steps[0]] + steps[1..] == past + steps;
    }
  }

  /** With the done frame the client has been told of an error exactly when tshark or
      its start reported it, in the words reported. */
  lemma ErrorsAreTold(s0: State, steps: seq<Step>, s: State, msg: string)
    requires Init(s0) && Reaches(s0, steps, s) && Done in s.frames && msg != ""
    ensures Failed(msg) in s.frames <==> Capt(Wait(msg)) in steps || Capt(StartFails(msg)) in steps
  {
    InitHolds(s0);
    RunKeeps(s0, steps, s);
    RunCarries(s0, [], steps, s, msg);
    assert [] + steps == steps;
    hide Reaches, Lines, Packets, Received;
  }

  /** Where a handler that has not been cancelled has got to. */
  predicate Tells(s: State, past: seq<Step>) {
    s.handler in {Leaving, Gone} ==> (Done in s.frames <==> Hand(Cancel) !in past)
  }

  predicate NotYet(s: State, past: seq<Step>) {
    s.handler !in {Leaving, Gone} ==> Hand(Cancel) !in past && Done !in s.frames
  }

  lemma HandlerTells(s: State, past: seq<Step>, h: HandlerStep)
    requires HandlerEnabled(s, h) && Tells(s, past) && NotYet(s, past)
    ensures var t := HandlerApply(s, h); Tells(t, past + [Hand(h)]) && NotYet(t, past + [Hand(h)])
  {
    assert Hand(Cancel) in past + [Hand(h)] <==> Hand(Cancel) in past || h == Cancel;
  }

  lemma OthersLeaveFrames(s: State, step: Step)
    requires Enabled(s, step) && !step.Hand?
    ensures Apply(s, step).handler == s.handler && Apply(s, step).frames == s.frames
  {
    hide EnvEnabled, CaptureEnabled, ScannerEnabled, EnvApply, CaptureApply, ScannerApply;
    match step
    case Env(e) => EnvSpares(s, e);
    case Capt(c) => CaptureSpares(s, c);
    case Scan(n) => ScannerSpares(s, n);
    case _ =>
  }

  lemma {:induction false} RunTells(s0: State, past: seq<Step>, steps: seq<Step>, s: State)
    requires Tells(s0, past) && NotYet(s0, past) && Reaches(s0, steps, s)
    ensures Tells(s, past + steps) && NotYet(s, past + steps)
    decreases |steps|
  {
    hide Apply, Enabled, Tells, NotYet;
    if steps == [] {
      assert past + [] == past;
    } else {
      StepTells(s0, past, steps[0]);
      RunTells(Apply(s0, steps[0]), past + [steps[0]], steps[1..], s);
      assert past + [steps[0]] + steps[1..] == past + steps;
    }
  }

  lemma StepTells(s: State, past: seq<Step>, step: Step)
    requires Enabled(s, step) && Tells(s, past) && NotYet(s, past)
    ensures Tells(Apply(s, step), past + [step]) && NotYet(Apply(s, step), past + [step])
  {
    hide HandlerEnabled, CaptureApply, HandlerApply, ScannerApply, EnvApply;
    if step.Hand? {
      HandlerTells(s, past, step.h);
    } else {
      OthersLeaveFrames(s, step);
      assert Hand(Cancel) in past + [step] <==> Hand(Cancel) in past;
    }
    hide Enabled;
  }

  /** A handler that has returned has sent the done frame exactly when it was not
      cancelled. */
  lemma DoneUnlessCancelled(s0: State, steps: seq<Step>, s: State)
    requires Init(s0) && Reaches(s0, steps, s) && s.handler == Gone
    ensures Done in s.frames <==> Hand(Cancel) !in steps
  {
    RunTells(s0, [], steps, s);
    assert [] + steps == steps;
  }

  /** What is parsed and what is received, in the lines' and the frames' own terms:
      one packet for each line that has one, one for each data frame, in order. */
  lemma PacketsAre(lines: seq<Line>, frames: seq<Frame>, p: Packet, msg: string)
    ensures Packets([]) == [] && Packets(lines + [Text(Some(p))]) == Packets(lines) + [p]
    ensures Packets(lines + [Text(None)]) == Packets(lines + [Overlong]) == Packets(lines)
    ensures Received([]) == [] && Received(frames + [Data(p)]) == Received(frames) + [p]
    ensures Received(frames + [Failed(msg)]) == Received(frames + [Done]) == Received(frames)
  {
    PacketsAppend(lines, Text(Some(p)));
    PacketsAppend(lines, Text(None));
    PacketsAppend(lines, Overlong);
    ReceivedAppend(frames, Data(p));
    ReceivedAppend(frames, Failed(msg));
    ReceivedAppend(frames, Done);
  }
}
