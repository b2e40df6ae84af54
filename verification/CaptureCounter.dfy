/** capture.go, captureActive: the counter shared by every capture of the monitor. */
module CaptureCounter {
  import opened CaptureStream

  // ── captureActive over every capture of the monitor ─────────────────────

  /** Any number of captures at once, and the counter they share. */
  datatype Monitor = Monitor(captures: map<nat, State>, captureActive: int)

  function CountedCaptures(m: Monitor): set<nat> {
    set i | i in m.captures && m.captures[i].active == 1
  }

  predicate MonitorInv(m: Monitor) {
    && (forall i <- m.captures :: Inv(m.captures[i]))
    && m.captureActive == |CountedCaptures(m)|
  }

  datatype MonitorStep = Open(id: nat, s: State) | Move(id: nat, step: Step)

  predicate MonitorEnabled(m: Monitor, w: MonitorStep) {
    match w
    case Open(i, s) => i !in m.captures && Init(s)
    case Move(i, step) => i in m.captures && Enabled(m.captures[i], step)
  }

  function Added(step: Step): int {
    match step
    case Capt(Count) => 1
    case Capt(Uncount) => -1
    case _ => 0
  }

  /** A new request, or one step of one capture: only Add(1) and Add(-1) touch
      the counter. */
  function MonitorApply(m: Monitor, w: MonitorStep): Monitor
    requires MonitorEnabled(m, w)
  {
    match w
    case Open(i, s) => m.(captures := m.captures[i := s])
    case Move(i, step) => Monitor(m.captures[i := Apply(m.captures[i], step)], m.captureActive + Added(step))
  }

  lemma ActiveBounded(s: State)
    requires Control(s)
    ensures 0 <= s.active <= 1
  {}

  lemma CaptureAdds(s: State, c: CaptureStep)
    requires CaptureEnabled(s, c)
    ensures CaptureApply(s, c).active == s.active + Added(Capt(c))
  {}

  lemma ScannerAddsNothing(s: State, n: ScannerStep)
    requires ScannerEnabled(s, n)
    ensures ScannerApply(s, n).active == s.active
  {}

  lemma StepAdds(s: State, step: Step)
    requires Enabled(s, step)
    ensures Apply(s, step).active == s.active + Added(step)
  {
    hide CaptureApply, CaptureEnabled, ScannerApply, ScannerEnabled;
    match step
    case Env(_) =>
    case Hand(_) =>
    case Capt(c) => CaptureAdds(s, c);
    case Scan(n) => ScannerAddsNothing(s, n);
  }

  lemma ActiveChanges(s: State, step: Step)
    requires Inv(s) && Enabled(s, step)
    ensures Apply(s, step).active == s.active + Added(step)
    ensures 0 <= s.active <= 1 && 0 <= Apply(s, step).active <= 1
  {
    StepKeeps(s, step);
    ActiveBounded(s);
    ActiveBounded(Apply(s, step));
    StepAdds(s, step);
    hide *;
  }

  lemma FreshIsIdle(s: State)
    requires Init(s)
    ensures Inv(s) && s.active == 0
  {
    InitHolds(s);
  }

  lemma OneMember(before: set<nat>, after: set<nat>, i: nat)
    requires before - {i} == after - {i}
    ensures |after| - |before| == (if i in after then 1 else 0) - (if i in before then 1 else 0)
  {
    var others := before - {i};
    assert before == if i in before then others + {i} else others;
    assert after == if i in after then others + {i} else others;
  }

  lemma OpenKept(m: Monitor, id: nat, s: State)
    requires MonitorInv(m) && id !in m.captures && Init(s)
    ensures MonitorInv(m.(captures := m.captures[id := s]))
  {
    FreshIsIdle(s);
    hide Inv, Init;
    var m' := m.(captures := m.captures[id := s]);
    assert CountedCaptures(m) == CountedCaptures(m');
  }

  lemma MoveKept(m: Monitor, id: nat, t: State, added: int)
    requires MonitorInv(m) && id in m.captures && Inv(t)
    requires 0 <= m.captures[id].active <= 1 && 0 <= t.active <= 1 && t.active == m.captures[id].active + added
    ensures MonitorInv(Monitor(m.captures[id := t], m.captureActive + added))
  {
    hide Inv;
    var m' := Monitor(m.captures[id := t], m.captureActive + added);
    assert forall i: nat | i != id :: i in CountedCaptures(m) <==> i in CountedCaptures(m');
    assert id in CountedCaptures(m') <==> t.active == 1;
    assert CountedCaptures(m) - {id} == CountedCaptures(m') - {id};
    OneMember(CountedCaptures(m), CountedCaptures(m'), id);
  }

  /** The counter keeps counting exactly the captures between their Add(1) and
      Add(-1), however they interleave. */
  lemma CounterKept(m: Monitor, w: MonitorStep)
    requires MonitorInv(m) && MonitorEnabled(m, w)
    ensures MonitorInv(MonitorApply(m, w))
  {
    match w
    case Open(i, s) => OpenKept(m, i, s);
    case Move(i, step) =>
      StepKeeps(m.captures[i], step);
      ActiveChanges(m.captures[i], step);
      MoveKept(m, i, Apply(m.captures[i], step), Added(step));
  }

  /** The monitor as it starts. */
  const IDLE := Monitor(map[], 0)

  ghost predicate Reaches(m0: Monitor, ws: seq<MonitorStep>, m: Monitor)
    decreases |ws|
  {
    if ws == [] then m == m0
    else MonitorEnabled(m0, ws[0]) && Reaches(MonitorApply(m0, ws[0]), ws[1..], m)
  }

  lemma {:induction false} RunKeepsCounter(m0: Monitor, ws: seq<MonitorStep>, m: Monitor)
    requires MonitorInv(m0) && Reaches(m0, ws, m)
    ensures MonitorInv(m)
    decreases |ws|
  {
    hide MonitorInv, MonitorApply, MonitorEnabled;
    if ws == [] {
    } else {
      CounterKept(m0, ws[0]);
      RunKeepsCounter(MonitorApply(m0, ws[0]), ws[1..], m);
    }
  }

  /** Over every run of the monitor, with any number of captures opened and any
      interleaving of their steps: the counter is the number of captures between their
      Add(1) and Add(-1). It is zero only when no capture has a tshark running, bar the
      instant between its start and its Add(1), and zero again once every capture
      goroutine has ended. */
  lemma CounterCounts(ws: seq<MonitorStep>, m: Monitor)
    requires Reaches(IDLE, ws, m)
    ensures m.captureActive == |CountedCaptures(m)|
    ensures m.captureActive == 0 ==>
              forall i <- m.captures :: Alive(m.captures[i].tshark) ==> m.captures[i].capture == Launched
    ensures (forall i <- m.captures :: m.captures[i].capture == Finished) ==> m.captureActive == 0
  {
    assert CountedCaptures(IDLE) == {};
    RunKeepsCounter(IDLE, ws, m);
    CounterMeaning(m);
    hide Inv, Reaches;
  }

  /** So the counter is zero only when no capture has a tshark running, bar the
      instant between its start and its Add(1); and it is zero again once every
      capture goroutine has ended. */
  lemma CounterMeaning(m: Monitor)
    requires MonitorInv(m)
    ensures m.captureActive >= 0
    ensures m.captureActive == 0 ==>
              forall i <- m.captures :: Alive(m.captures[i].tshark) ==> m.captures[i].capture == Launched
    ensures (forall i <- m.captures :: m.captures[i].capture == Finished) ==> m.captureActive == 0
  {
    hide Lines, Delivery;
    if m.captureActive == 0 {
      forall i | i in m.captures && Alive(m.captures[i].tshark)
        ensures m.captures[i].capture == Launched
      {
        assert i !in CountedCaptures(m);
      }
    }
    if forall i <- m.captures :: m.captures[i].capture == Finished {
      assert CountedCaptures(m) == {};
    }
  }
}
