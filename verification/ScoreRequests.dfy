/** connections.go, recordScoreChange, as the requests of the web interface call it:
    any number at a time, with nothing that keeps one call's query and insertion
    together. */
module ScoreRequests {
  import opened Prelude
  import opened ScoreHistory
  import ThreatScore
  import Breakdown
  import Text

  /** A request that records a verdict. */
  type Caller = nat

  /** Between the query and the insertion: the row it is going to add, when it has
      taken the time for it, and the turn of its query. */
  datatype Call = Checked(v: Verdict, read: nat) | Stamped(v: Verdict, read: nat, epoch: int)

  /** When a row's call made its query and when the row was in. */
  datatype Span = Span(read: nat, saved: nat)

  /** Steps are counted in turns; `clock` is the last time taken for a row. `spans`
      is a history, by epoch. */
  datatype State = State(turn: nat, clock: int, rows: seq<Entry>, spans: map<int, Span>, calls: map<Caller, Call>)

  datatype Step =
    | Check(c: Caller, v: Verdict)     // dbLastScore and what is decided from it
    | Stamp(c: Caller, epoch: int)     // time.Now()
    | Save(c: Caller)                  // the insertion
    | Expire(cutoff: int)

  predicate Enabled(s: State, step: Step) {
    match step
    case Check(c, _) => c !in s.calls
    case Stamp(c, epoch) => c in s.calls && s.calls[c].Checked? && s.clock < epoch
    case Save(c) => c in s.calls && s.calls[c].Stamped?
    case Expire(_) => true
  }

  function Apply(s: State, step: Step): State
    requires Enabled(s, step)
  {
    var t := s.(turn := s.turn + 1);
    match step
    case Check(c, v) => if IsDue(s.rows, v) then t.(calls := s.calls[c := Checked(v, t.turn)]) else t
    case Stamp(c, epoch) =>
      t.(clock := epoch, calls := s.calls[c := Stamped(s.calls[c].v, s.calls[c].read, epoch)])
    case Save(c) =>
      var call := s.calls[c];
      t.(rows := Placed(s.rows, EntryOf(call.v, call.epoch)),
         spans := s.spans[call.epoch := Span(call.read, t.turn)], calls := s.calls - {c})
    case Expire(cutoff) => t.(rows := Pruned(s.rows, cutoff))
  }

  /** A table as it is found. */
  function Start(rows: seq<Entry>, clock: int): State {
    State(0, clock, rows, map e <- rows :: e.epoch := Span(0, 0), map[])
  }

  /** The query at turn `read` saw this row. */
  predicate Saw(s: State, read: nat, e: Entry) {
    e.epoch in s.spans && s.spans[e.epoch].saved <= read
  }

  /** The row's call made its query when its neighbour was not yet in. */
  predicate MissedBy(s: State, e: Entry, f: Entry) {
    f.epoch in s.spans && !Saw(s, s.spans[f.epoch].read, e)
  }

  predicate RowsOk(s: State) {
    && Ascending(s.rows)
    && forall e <- s.rows ::
         e.epoch <= s.clock && e.epoch in s.spans && s.spans[e.epoch].saved <= s.turn && s.spans[e.epoch].read <= s.turn
  }

  /** Two rows are not inserted in one turn, unless they were found at the start; and
      one that came in after a later row had made its query before that. */
  predicate SpansOk(s: State)
    requires RowsOk(s)
  {
    forall e <- s.rows, f <- s.rows | e.epoch < f.epoch ::
      var a, b := s.spans[e.epoch], s.spans[f.epoch];
      && (a.saved == b.saved ==> a.saved == 0)
      && (a.saved > b.saved ==> a.read < b.saved)
  }

  /** A call's row will come after every row it saw, and before no row that was in at
      its query. */
  predicate EpochOk(s: State, c: Caller)
    requires c in s.calls && s.calls[c].Stamped?
  {
    var call := s.calls[c];
    && call.epoch <= s.clock
    && (forall e <- s.rows :: e.epoch != call.epoch)
    && (forall e <- s.rows :: Saw(s, call.read, e) ==> e.epoch < call.epoch)
    && (forall e <- s.rows :: call.epoch < e.epoch ==> e.epoch in s.spans && call.read < s.spans[e.epoch].saved)
    && (forall d <- s.calls :: d != c && s.calls[d].Stamped? ==> s.calls[d].epoch != call.epoch)
  }

  /** The newest row that a call's query saw does not say what it is going to save. */
  predicate SeenOk(s: State, call: Call) {
    forall e <- s.rows :: NewestSeen(s, call, e) ==> Said(e) != StanceOf(call.v)
  }

  predicate CallOk(s: State, c: Caller)
    requires c in s.calls
  {
    s.calls[c].read <= s.turn && (s.calls[c].Stamped? ==> EpochOk(s, c)) && SeenOk(s, s.calls[c])
  }

  predicate NewestSeen(s: State, call: Call, e: Entry) {
    && e.pair == call.v.pair && Saw(s, call.read, e)
    && forall g <- s.rows :: g.pair == e.pair && Saw(s, call.read, g) ==> g.epoch <= e.epoch
  }

  predicate OnlyMissed(s: State) {
    forall e <- s.rows, f <- s.rows :: Follows(s.rows, e, f) && Said(e) == Said(f) ==> MissedBy(s, e, f)
  }

  ghost predicate Inv(s: State) {
    RowsOk(s) && SpansOk(s) && OnlyMissed(s) && forall c <- s.calls :: CallOk(s, c)
  }

  lemma StartHolds(rows: seq<Entry>, clock: int)
    requires Sane(rows, clock)
    ensures Inv(Start(rows, clock))
  {
    forall e <- rows, f <- rows
      ensures Follows(rows, e, f) ==> Said(e) != Said(f)
    {
      assert NoRepeats(LogOf(rows, e.pair));
      RepeatsAreNeighbours(rows, e.pair);
    }
    hide LogOf, Ascending, Follows, NoRepeats;
  }

  // ── Each step keeps it ──────────────────────────────────────────────────

  /** What a call saw depends on the rows and their spans alone. */
  lemma SameSeen(s: State, t: State, call: Call)
    requires t.rows == s.rows && t.spans == s.spans
    ensures SeenOk(t, call) <==> SeenOk(s, call)
  {
    assert forall e <- s.rows :: NewestSeen(t, call, e) <==> NewestSeen(s, call, e);
  }

  lemma NewCall(s: State, c: Caller, v: Verdict)
    requires RowsOk(s) && IsDue(s.rows, v)
    ensures SeenOk(s, Checked(v, s.turn + 1))
  {
    hide LogOf, Eligible;
    var call := Checked(v, s.turn + 1);
    forall e <- s.rows | NewestSeen(s, call, e)
      ensures Said(e) != StanceOf(v)
    {
      assert forall g <- s.rows :: Saw(s, call.read, g);
      NewestSays(s.rows, e);
    }
  }

  lemma CheckKeeps(s: State, c: Caller, v: Verdict)
    requires Inv(s) && Enabled(s, Check(c, v))
    ensures Inv(Apply(s, Check(c, v)))
  {
    var t := Apply(s, Check(c, v));
    hide LogOf, Follows, Ascending, SeenOk, IsDue;
    forall d <- t.calls
      ensures CallOk(t, d)
    {
      SameSeen(s, t, t.calls[d]);
      if d == c {
        NewCall(s, c, v);
      } else {
        assert CallOk(s, d);
      }
    }
  }

  /** A time just taken is later than every row and every other call's. */
  lemma NewEpoch(s: State, c: Caller, epoch: int)
    requires Inv(s) && Enabled(s, Stamp(c, epoch))
    ensures EpochOk(Apply(s, Stamp(c, epoch)), c)
  {
    hide LogOf, Follows, Ascending, SeenOk, OnlyMissed, SpansOk;
    forall d <- s.calls | s.calls[d].Stamped?
      ensures s.calls[d].epoch < epoch
    {
      assert CallOk(s, d);
    }
  }

  lemma OldEpoch(s: State, c: Caller, epoch: int, d: Caller)
    requires Inv(s) && Enabled(s, Stamp(c, epoch)) && d in s.calls && d != c && s.calls[d].Stamped?
    ensures EpochOk(Apply(s, Stamp(c, epoch)), d)
  {
    hide LogOf, Follows, Ascending, SeenOk, OnlyMissed, SpansOk;
    assert CallOk(s, d);
  }

  lemma StampKeeps(s: State, c: Caller, epoch: int)
    requires Inv(s) && Enabled(s, Stamp(c, epoch))
    ensures Inv(Apply(s, Stamp(c, epoch)))
  {
    var t := Apply(s, Stamp(c, epoch));
    hide LogOf, Follows, Ascending, SeenOk, EpochOk;
    forall d <- t.calls
      ensures CallOk(t, d)
    {
      assert CallOk(s, d);
      SameSeen(s, t, s.calls[d]);
      StampSeen(s, s.calls[d], t.calls[d]);
      if d == c {
        NewEpoch(s, c, epoch);
      } else if s.calls[d].Stamped? {
        OldEpoch(s, c, epoch, d);
      }
    }
    SameSpans(s, t);
    hide CallOk;
  }

  lemma StampSeen(s: State, was: Call, now: Call)
    requires was.v == now.v && was.read == now.read
    ensures SeenOk(s, was) ==> SeenOk(s, now)
  {
    assert forall e <- s.rows :: NewestSeen(s, now, e) <==> NewestSeen(s, was, e);
  }

  lemma SameSpans(s: State, t: State)
    requires RowsOk(s) && SpansOk(s) && OnlyMissed(s) && t.rows == s.rows && t.spans == s.spans
    requires s.turn <= t.turn && s.clock <= t.clock
    ensures RowsOk(t) && SpansOk(t) && OnlyMissed(t)
  {
    hide Ascending, Follows;
  }

  lemma PurgeRows(s: State, cutoff: int)
    requires Inv(s)
    ensures var t := Apply(s, Expire(cutoff));
            RowsOk(t) && forall e :: e in t.rows <==> e in s.rows && e.epoch >= cutoff
  {
    PrunedMembers(s.rows, cutoff);
    var k := PruneDropsTheOldest(s.rows, cutoff);
  }

  lemma PurgeKeeps(s: State, cutoff: int)
    requires Inv(s)
    ensures Inv(Apply(s, Expire(cutoff)))
  {
    hide Pruned, RowsOk, CallOk, OnlyMissed, SpansOk;
    var t := Apply(s, Expire(cutoff));
    PurgeRows(s, cutoff);
    PurgeSpans(s, t, cutoff);
    PurgeMissed(s, t, cutoff);
    forall d <- t.calls
      ensures CallOk(t, d)
    {
      PurgeCall(s, t, d, cutoff);
    }
  }

  /** The rows from the cut on, and nothing else changed. */
  ghost predicate Cut(s: State, t: State, cutoff: int) {
    t == s.(turn := s.turn + 1, rows := t.rows) && forall e :: e in t.rows <==> e in s.rows && e.epoch >= cutoff
  }

  lemma PurgeSpans(s: State, t: State, cutoff: int)
    requires Cut(s, t, cutoff) && RowsOk(s) && RowsOk(t) && SpansOk(s)
    ensures SpansOk(t)
  {
    hide Ascending;
  }

  lemma PurgeMissed(s: State, t: State, cutoff: int)
    requires Cut(s, t, cutoff) && OnlyMissed(s)
    ensures OnlyMissed(t)
  {
    assert forall e, f | Follows(t.rows, e, f) :: Follows(s.rows, e, f);
  }

  lemma PurgeCall(s: State, t: State, c: Caller, cutoff: int)
    requires Cut(s, t, cutoff) && c in s.calls && CallOk(s, c)
    ensures CallOk(t, c)
  {
    PurgeSeen(s, t, s.calls[c], cutoff);
    hide SeenOk;
  }

  lemma PurgeSeen(s: State, t: State, call: Call, cutoff: int)
    requires Cut(s, t, cutoff) && SeenOk(s, call)
    ensures SeenOk(t, call)
  {
    assert forall e <- t.rows :: NewestSeen(t, call, e) ==> NewestSeen(s, call, e);
  }

  lemma SaveRows(s: State, c: Caller)
    requires Inv(s) && Enabled(s, Save(c))
    ensures var call, t := s.calls[c], Apply(s, Save(c));
            RowsOk(t) && forall e :: e in t.rows <==> e in s.rows || e == EntryOf(call.v, call.epoch)
  {
    assert CallOk(s, c);
    PlacedMembers(s.rows, EntryOf(s.calls[c].v, s.calls[c].epoch));
    hide Ascending, Placed;
  }

  /** The new row and its neighbours: its call either missed the row before it, or
      saw it as the newest and would not have saved it again; and the call of the
      row after it made its query before the new row was in. */
  lemma SaveNeighbours(s: State, c: Caller, e: Entry, f: Entry)
    requires Inv(s) && Enabled(s, Save(c))
    requires var t := Apply(s, Save(c)); Follows(t.rows, e, f) && Said(e) == Said(f)
    ensures MissedBy(Apply(s, Save(c)), e, f)
  {
    var t, call := Apply(s, Save(c)), s.calls[c];
    var x := EntryOf(call.v, call.epoch);
    SaveRows(s, c);
    assert CallOk(s, c);
    hide Placed, Ascending, LogOf;
    if f == x {
      assert e in s.rows && e.epoch != x.epoch;
      assert Saw(s, call.read, e) ==> NewestSeen(s, call, e);
    } else if e == x {
      assert f in s.rows && f.epoch != x.epoch;
    } else {
      assert Follows(s.rows, e, f) && e.epoch != x.epoch && f.epoch != x.epoch;
    }
  }

  lemma SaveSeen(s: State, c: Caller, d: Caller)
    requires Inv(s) && Enabled(s, Save(c)) && d in s.calls && d != c
    ensures SeenOk(Apply(s, Save(c)), s.calls[d])
  {
    var t, call := Apply(s, Save(c)), s.calls[c];
    var x := EntryOf(call.v, call.epoch);
    SaveRows(s, c);
    assert CallOk(s, d) && CallOk(s, c);
    hide Placed, Ascending, LogOf, OnlyMissed, SpansOk;
    assert !Saw(t, s.calls[d].read, x);
    assert forall e <- s.rows :: Saw(t, s.calls[d].read, e) <==> Saw(s, s.calls[d].read, e);
    assert forall e <- t.rows :: NewestSeen(t, s.calls[d], e) ==> NewestSeen(s, s.calls[d], e);
  }

  lemma SaveEpoch(s: State, c: Caller, d: Caller)
    requires Inv(s) && Enabled(s, Save(c)) && d in s.calls && d != c && s.calls[d].Stamped?
    ensures EpochOk(Apply(s, Save(c)), d)
  {
    SaveRows(s, c);
    assert CallOk(s, d) && CallOk(s, c);
    hide Placed, Ascending, LogOf, OnlyMissed, SpansOk, SeenOk;
  }

  lemma SaveCall(s: State, c: Caller, d: Caller)
    requires Inv(s) && Enabled(s, Save(c)) && d in s.calls && d != c
    ensures CallOk(Apply(s, Save(c)), d)
  {
    assert CallOk(s, d);
    SaveSeen(s, c, d);
    if s.calls[d].Stamped? {
      SaveEpoch(s, c, d);
    }
    hide Placed, Ascending, LogOf, OnlyMissed, SpansOk, SeenOk, EpochOk, RowsOk;
  }

  lemma SaveSpans(s: State, c: Caller)
    requires Inv(s) && Enabled(s, Save(c)) && RowsOk(Apply(s, Save(c)))
    ensures SpansOk(Apply(s, Save(c)))
  {
    SaveRows(s, c);
    assert CallOk(s, c);
    hide Placed, Ascending, LogOf, OnlyMissed, NewestSeen;
  }

  lemma SaveKeeps(s: State, c: Caller)
    requires Inv(s) && Enabled(s, Save(c))
    ensures Inv(Apply(s, Save(c)))
  {
    var t := Apply(s, Save(c));
    SaveRows(s, c);
    SaveSpans(s, c);
    forall e <- t.rows, f <- t.rows | Follows(t.rows, e, f) && Said(e) == Said(f)
      ensures MissedBy(t, e, f)
    {
      SaveNeighbours(s, c, e, f);
    }
    forall d <- t.calls
      ensures CallOk(t, d)
    {
      SaveCall(s, c, d);
    }
    hide Follows, MissedBy, CallOk, RowsOk, SpansOk, Placed;
  }

  lemma StepKeeps(s: State, step: Step)
    requires Inv(s) && Enabled(s, step)
    ensures Inv(Apply(s, step))
  {
    hide Inv, Apply;
    match step
    case Check(c, v) => CheckKeeps(s, c, v);
    case Stamp(c, epoch) => StampKeeps(s, c, epoch);
    case Save(c) => SaveKeeps(s, c);
    case Expire(cutoff) => PurgeKeeps(s, cutoff);
  }

  ghost predicate Reaches(s0: State, steps: seq<Step>, s: State)
    decreases |steps|
  {
    if steps == [] then s == s0
    else Enabled(s0, steps[0]) && Reaches(Apply(s0, steps[0]), steps[1..], s)
  }

  lemma {:induction false} RunKeeps(s0: State, steps: seq<Step>, s: State)
    requires Inv(s0) && Reaches(s0, steps, s)
    ensures Inv(s)
    decreases |steps|
  {
    hide Inv, Apply, Enabled;
    if steps == [] {
    } else {
      StepKeeps(s0, steps[0]);
      RunKeeps(Apply(s0, steps[0]), steps[1..], s);
    }
  }

  // ── When a log repeats itself ───────────────────────────────────────────

  /** One of two rows came in between the other one's query and its insertion. */
  predicate FellBetween(s: State, e: Entry, f: Entry) {
    && e.epoch in s.spans && f.epoch in s.spans
    && var a, b := s.spans[e.epoch], s.spans[f.epoch];
       b.read < a.saved < b.saved || a.read < b.saved < a.saved
  }

  /** Two rows, one right after the other in their pair's log, say the same, and the
      insertion of one fell between the query and the insertion of the other. */
  predicate SavedBetween(s: State, e: Entry, f: Entry) {
    Follows(s.rows, e, f) && Said(e) == Said(f) && FellBetween(s, e, f)
  }

  lemma MissedFellBetween(s: State, e: Entry, f: Entry)
    requires RowsOk(s) && SpansOk(s) && e in s.rows && f in s.rows && e.epoch < f.epoch && MissedBy(s, e, f)
    ensures FellBetween(s, e, f)
  {
    hide Ascending;
  }

  /** Over every interleaving of any number of calls and purges, a pair's log shows
      no verdict twice in a row exactly when no save of the same verdict, with no
      other of the pair in between, fell between a call's query and its insertion. */
  lemma RepeatsExactly(rows: seq<Entry>, clock: int, steps: seq<Step>, s: State, p: Pair)
    requires Sane(rows, clock) && Reaches(Start(rows, clock), steps, s)
    ensures NoRepeats(LogOf(s.rows, p)) <==> forall e <- s.rows, f <- s.rows :: e.pair == p ==> !SavedBetween(s, e, f)
  {
    StartHolds(rows, clock);
    RunKeeps(Start(rows, clock), steps, s);
    hide Start, Reaches, Sane, LogOf, NoRepeats, OnlyMissed, SpansOk, SavedBetween, CallOk, NoEqualNeighbours;
    RepeatsAreNeighbours(s.rows, p);
    EqualFellBetween(s, p);
  }

  lemma EqualFellBetween(s: State, p: Pair)
    requires RowsOk(s) && SpansOk(s) && OnlyMissed(s)
    ensures NoEqualNeighbours(s.rows, p) <==> forall e <- s.rows, f <- s.rows :: e.pair == p ==> !SavedBetween(s, e, f)
  {
    forall e <- s.rows, f <- s.rows | Follows(s.rows, e, f) && Said(e) == Said(f)
      ensures FellBetween(s, e, f)
    {
      MissedFellBetween(s, e, f);
    }
    hide RowsOk, SpansOk, OnlyMissed, FellBetween, Follows;
  }

  // ── Both happen ─────────────────────────────────────────────────────────

  ghost predicate Reachable(s0: State, s: State) {
    exists steps :: Reaches(s0, steps, s)
  }

  lemma Then(s0: State, s: State, step: Step) returns (t: State)
    requires Reachable(s0, s) && Enabled(s, step)
    ensures t == Apply(s, step) && Reachable(s0, t)
  {
    t := Apply(s, step);
    var steps :| Reaches(s0, steps, s);
    Append(s0, steps, s, step);
  }

  lemma {:induction false} Append(s0: State, steps: seq<Step>, s: State, step: Step)
    requires Reaches(s0, steps, s) && Enabled(s, step)
    ensures Reaches(s0, steps + [step], Apply(s, step))
    decreases |steps|
  {
    hide Apply, Enabled;
    if steps == [] {
      assert Reaches(Apply(s, step), [], Apply(s, step));
      assert ([] + [step])[1..] == [];
    } else {
      Append(Apply(s0, steps[0]), steps[1..], s, step);
      assert (steps + [step])[1..] == steps[1..] + [step];
    }
  }

  /** Two requests query, and the first one's row is in. */
  lemma BothQueried(v: Verdict) returns (s: State)
    requires Eligible(v)
    ensures Reachable(Start([], 0), s) && s.rows == [EntryOf(v, 1)] && s.clock == 1 && s.turn == 4
    ensures s.calls == map[1 := Checked(v, 2)] && s.spans == map[1 := Span(1, 4)]
  {
    var s0 := Start([], 0);
    assert Reaches(s0, [], s0);
    hide Reachable, Eligible;
    s := Then(s0, s0, Check(0, v));
    s := Then(s0, s, Check(1, v));
    s := Then(s0, s, Stamp(0, 1));
    s := Then(s0, s, Save(0));
  }

  /** Two requests that both query before either inserts log the same verdict twice. */
  lemma RepeatReachable(v: Verdict) returns (s: State)
    requires Eligible(v)
    ensures Reachable(Start([], 0), s) && LogOf(s.rows, v.pair) == [StanceOf(v), StanceOf(v)]
  {
    s := BothQueried(v);
    hide Reachable, Eligible;
    s := Then(Start([], 0), s, Stamp(1, 2));
    s := Then(Start([], 0), s, Save(1));
    assert s.rows == [EntryOf(v, 1), EntryOf(v, 2)];
    TwoRows(v, v, 1, 2);
  }

  lemma TwoRows(v: Verdict, w: Verdict, i: int, j: int)
    requires v.pair == w.pair
    ensures LogOf([EntryOf(v, i), EntryOf(w, j)], v.pair) == [StanceOf(v), StanceOf(w)]
  {
    assert [EntryOf(v, i), EntryOf(w, j)] == [EntryOf(v, i)] + [EntryOf(w, j)];
    LogOfNext([], EntryOf(v, i), v.pair);
    assert [] + [EntryOf(v, i)] == [EntryOf(v, i)];
    LogOfNext([EntryOf(v, i)], EntryOf(w, j), v.pair);
  }

  /** A save of the same verdict in between is not enough: another verdict saved
      after it keeps the log free of repeats. */
  lemma OverlapWithoutRepeat(v: Verdict, w: Verdict) returns (s: State)
    requires Eligible(v) && Eligible(w) && v.pair == w.pair && StanceOf(v) != StanceOf(w)
    ensures Reachable(Start([], 0), s) && LogOf(s.rows, v.pair) == [StanceOf(v), StanceOf(w), StanceOf(v)]
    ensures {1, 3} <= s.spans.Keys && s.spans[3].read < s.spans[1].saved < s.spans[3].saved
  {
    var s0 := Start([], 0);
    s := OneIsLate(v, w);
    hide Reachable, Eligible;
    s := Then(s0, s, Stamp(1, 3));
    s := Then(s0, s, Save(1));
    assert s.rows == [EntryOf(v, 1), EntryOf(w, 2)] + [EntryOf(v, 3)];
    TwoRows(v, w, 1, 2);
    LogOfNext([EntryOf(v, 1), EntryOf(w, 2)], EntryOf(v, 3), v.pair);
  }

  lemma OneIsLate(v: Verdict, w: Verdict) returns (s: State)
    requires Eligible(v) && Eligible(w) && v.pair == w.pair && StanceOf(v) != StanceOf(w)
    ensures Reachable(Start([], 0), s) && s.rows == [EntryOf(v, 1), EntryOf(w, 2)] && s.clock == 2
    ensures s.calls == map[1 := Checked(v, 2)] && s.turn == 7 && 1 in s.spans && s.spans[1] == Span(1, 4)
  {
    s := BothQueried(v);
    LogOfNext([], EntryOf(v, 1), v.pair);
    assert [] + [EntryOf(v, 1)] == [EntryOf(v, 1)];
    hide Reachable, LogOf, Eligible;
    s := Then(Start([], 0), s, Check(2, w));
    s := Then(Start([], 0), s, Stamp(2, 2));
    s := Then(Start([], 0), s, Save(2));
  }

  // ── One call at a time ──────────────────────────────────────────────────

  /** The moments of a run: strictly increasing, and later than `start`. */
  predicate Timely(start: int, times: seq<int>) {
    && (forall i, j | 0 <= i < j < |times| :: times[i] < times[j])
    && (forall i | 0 <= i < |times| :: start < times[i])
  }

  function Latest(start: int, times: seq<int>): int {
    if times == [] then start else times[|times| - 1]
  }

  /** No call is under way, and each row was in before the next one's query. */
  predicate Orderly(s: State) {
    && s.calls == map[]
    && forall e <- s.rows, f <- s.rows :: e.epoch < f.epoch ==> !MissedBy(s, e, f)
  }

  ghost predicate AtRest(rows: seq<Entry>, clock: int, s: State, now: int) {
    Reachable(Start(rows, clock), s) && Orderly(s) && s.clock <= now
  }

  /** A due verdict, with nobody else about. */
  lemma SaveAlone(s0: State, s: State, now: int, v: Verdict) returns (t: State)
    requires Reachable(s0, s) && s.calls == map[] && s.clock < now && IsDue(s.rows, v)
    requires forall e <- s.rows :: e.epoch < now
    ensures Reachable(s0, t) && t.calls == map[] && t.clock == now && t.rows == s.rows + [EntryOf(v, now)]
    ensures t.spans == s.spans[now := Span(s.turn + 1, s.turn + 3)]
  {
    hide Reachable, IsDue;
    t := Then(s0, s, Check(0, v));
    t := Then(s0, t, Stamp(0, now));
    t := Then(s0, t, Save(0));
    PlacedLast(s.rows, EntryOf(v, now));
  }

  lemma SavedInTurn(s: State, t: State, e: Entry)
    requires RowsOk(s) && Orderly(s) && s.clock < e.epoch && t.calls == map[] && t.rows == s.rows + [e]
    requires t.spans == s.spans[e.epoch := Span(s.turn + 1, s.turn + 3)]
    ensures Orderly(t)
  {
    hide Ascending;
    assert forall x <- t.rows :: x in s.rows || x == e;
  }

  lemma SequentialRender(rows: seq<Entry>, clock: int, s: State, now: int, v: Verdict) returns (t: State)
    requires Sane(rows, clock) && AtRest(rows, clock, s, now - 1)
    ensures AtRest(rows, clock, t, now) && t.rows == Recorded(s.rows, now, v)
  {
    var s0 := Start(rows, clock);
    ReachableInv(rows, clock, s);
    hide Reachable, Ascending, IsDue, Follows, Sane, Orderly, SpansOk, OnlyMissed, CallOk;
    if IsDue(s.rows, v) {
      assert s.calls == map[] by { NobodyAbout(s); }
      t := SaveAlone(s0, s, now, v);
      SavedInTurn(s, t, EntryOf(v, now));
    } else {
      NobodyAbout(s);
      t := Then(s0, s, Check(0, v));
      StillOrderly(s, t);
    }
  }

  lemma NobodyAbout(s: State)
    requires Orderly(s)
    ensures s.calls == map[]
  {}

  lemma StillOrderly(s: State, t: State)
    requires Orderly(s) && t.rows == s.rows && t.spans == s.spans && t.calls == map[]
    ensures Orderly(t)
  {}

  lemma SequentialPurge(rows: seq<Entry>, clock: int, s: State, now: int, cutoff: int) returns (t: State)
    requires Sane(rows, clock) && AtRest(rows, clock, s, now)
    ensures AtRest(rows, clock, t, now) && t.rows == Pruned(s.rows, cutoff)
  {
    hide Reachable;
    t := Then(Start(rows, clock), s, Expire(cutoff));
    PrunedMembers(s.rows, cutoff);
  }

  lemma ReachableInv(rows: seq<Entry>, clock: int, s: State)
    requires Sane(rows, clock) && Reachable(Start(rows, clock), s)
    ensures Inv(s)
  {
    StartHolds(rows, clock);
    var steps :| Reaches(Start(rows, clock), steps, s);
    RunKeeps(Start(rows, clock), steps, s);
  }

  /** Calls one after the other are a run in which nobody misses a row. */
  lemma {:induction false} SequentialIsARun(rows: seq<Entry>, clock: int, events: seq<Event>, times: seq<int>) returns (s: State)
    requires Sane(rows, clock) && |events| == |times| && Timely(clock, times)
    ensures AtRest(rows, clock, s, Latest(clock, times)) && s.rows == After(rows, events, times)
    decreases |events|
  {
    if events == [] {
      s := Start(rows, clock);
      assert Reaches(s, [], s);
    } else {
      var n := |events| - 1;
      s := SequentialIsARun(rows, clock, events[..n], times[..n]);
      hide AtRest, Recorded, Pruned, Sane;
      Patient(rows, clock, s, Latest(clock, times[..n]), times[n] - 1);
      match events[n]
      case Render(v) => s := SequentialRender(rows, clock, s, times[n], v);
      case Purge(cutoff) =>
        Patient(rows, clock, s, times[n] - 1, times[n]);
        s := SequentialPurge(rows, clock, s, times[n], cutoff);
    }
  }

  lemma Patient(rows: seq<Entry>, clock: int, s: State, now: int, later: int)
    requires AtRest(rows, clock, s, now) && now <= later
    ensures AtRest(rows, clock, s, later)
  {}

  /** So when no two calls overlap, the table stays ascending and no log ever shows
      the same verdict twice in a row, through every purge. */
  lemma RunStaysSane(rows: seq<Entry>, clock: int, events: seq<Event>, times: seq<int>)
    requires Sane(rows, clock) && |events| == |times| && Timely(clock, times)
    ensures Sane(After(rows, events, times), Latest(clock, times))
  {
    var s := SequentialIsARun(rows, clock, events, times);
    ReachableInv(rows, clock, s);
    hide LogOf, After, Ascending, NoRepeats, Timely, Reachable;
    forall p
      ensures NoRepeats(LogOf(s.rows, p))
    {
      var steps :| Reaches(Start(rows, clock), steps, s);
      RepeatsExactly(rows, clock, steps, s, p);
    }
  }

  // ── Verdicts of threatScore ─────────────────────────────────────────────

  /** What recordScoreChange is given of a scored connection. */
  function VerdictOn(exe: string, row: ThreatScore.Row): Verdict {
    Verdict(Pair(exe, row.remoteIP), row.privateIP, ThreatScore.Unknown(row),
            ThreatScore.Score(row), Breakdown.Encode(ThreatScore.Why(row)))
  }

  /** The log compares codes, yet two verdicts are taken for the same one exactly
      when their reasons are the same ones. */
  lemma SameStance(exe: string, a: ThreatScore.Row, b: ThreatScore.Row)
    ensures var u, v := VerdictOn(exe, a), VerdictOn(exe, b);
            Stance(u.threat, u.code) == Stance(v.threat, v.code) <==> ThreatScore.Why(a) == ThreatScore.Why(b)
  {
    ThreatScore.SameCode(a, b);
  }

  function Reasoned(row: ThreatScore.Row): Stance {
    Stance(ThreatScore.Score(row), Breakdown.Encode(ThreatScore.Why(row)))
  }

  ghost predicate Scored(s: Stance) {
    exists row :: s == Reasoned(row)
  }

  ghost predicate AllScored(rows: seq<Entry>) {
    forall e <- rows :: Scored(Stance(e.threat, e.code))
  }

  lemma {:induction false} LogMembers(rows: seq<Entry>, p: Pair)
    requires AllScored(rows)
    ensures forall s <- LogOf(rows, p) :: Scored(s)
  {
    hide Scored;
    if rows == [] {
    } else {
      var init := rows[..|rows| - 1];
      assert forall e <- init :: e in rows;
      LogMembers(init, p);
      assert rows[|rows| - 1] in rows;
    }
  }

  /** The reasons a log entry stores. */
  function Stored(s: Stance): (rs: Option<seq<Breakdown.Reason>>) {
    if Breakdown.Matches(s.code) then Some(Breakdown.DecodeParts(Text.Split(s.code, ';'))) else None
  }

  lemma ScoredIsReadable(s: Stance)
    requires Scored(s)
    ensures Stored(s).Some? && s.threat == ThreatScore.AtMost100(ThreatScore.Points(Stored(s).value))
    ensures s.code == Breakdown.Encode(Stored(s).value)
  {
    var row :| s == Reasoned(row);
    ThreatScore.ScoreIsInTheCode(row);
    ThreatScore.WhyIsSound(row);
    Breakdown.DecodeEncode(ThreatScore.Why(row));
  }

  predicate AddsUp(s: Stance) {
    && Stored(s).Some?
    && s.threat == ThreatScore.AtMost100(ThreatScore.Points(Stored(s).value))
  }

  predicate NeighboursDiffer(log: seq<Stance>) {
    forall i | 0 < i < |log| :: Stored(log[i]) != Stored(log[i - 1])
  }

  lemma DifferentReasons(s: Stance, t: Stance)
    requires Scored(s) && Scored(t)
    ensures Stored(s) == Stored(t) <==> s == t
  {
    ScoredIsReadable(s);
    ScoredIsReadable(t);
    hide Scored, Stored;
  }

  lemma ScoredLog(log: seq<Stance>)
    requires forall s <- log :: Scored(s)
    ensures forall s <- log :: AddsUp(s)
    ensures NeighboursDiffer(log) <==> NoRepeats(log)
  {
    hide Scored, Stored;
    forall s <- log
      ensures AddsUp(s)
    {
      ScoredIsReadable(s);
    }
    forall i | 0 < i < |log|
      ensures Stored(log[i]) == Stored(log[i - 1]) <==> log[i] == log[i - 1]
    {
      assert log[i] in log && log[i - 1] in log;
      DifferentReasons(log[i], log[i - 1]);
    }
  }

  /** Every verdict given to a call is one of threatScore's. */
  ghost predicate FromRow(step: Step) {
    step.Check? ==> exists exe, row :: step.v == VerdictOn(exe, row)
  }

  ghost predicate ScoresOnly(s: State) {
    AllScored(s.rows) && forall c <- s.calls :: Scored(StanceOf(s.calls[c].v))
  }

  lemma StepScores(s: State, step: Step)
    requires Inv(s) && ScoresOnly(s) && Enabled(s, step) && FromRow(step)
    ensures ScoresOnly(Apply(s, step))
  {
    hide LogOf, Ascending, Eligible, Scored, CallOk, RowsOk;
    match step
    case Check(c, v) => VerdictScored(step);
    case Stamp(_, _) =>
    case Save(c) =>
      SaveRows(s, c);
      hide Placed;
    case Expire(cutoff) => PrunedMembers(s.rows, cutoff);
  }

  lemma VerdictScored(step: Step)
    requires FromRow(step) && step.Check?
    ensures Scored(StanceOf(step.v))
  {
    var exe, row :| step.v == VerdictOn(exe, row);
    assert StanceOf(step.v) == Reasoned(row);
  }

  lemma {:induction false} RunScores(s0: State, steps: seq<Step>, s: State)
    requires Inv(s0) && ScoresOnly(s0) && Reaches(s0, steps, s) && forall step <- steps :: FromRow(step)
    ensures ScoresOnly(s)
    decreases |steps|
  {
    hide Inv, Apply, Enabled, ScoresOnly, FromRow;
    if steps == [] {
    } else {
      assert FromRow(steps[0]);
      assert forall step <- steps[1..] :: step in steps;
      StepKeeps(s0, steps[0]);
      StepScores(s0, steps[0]);
      RunScores(Apply(s0, steps[0]), steps[1..], s);
    }
  }

  /** A history started empty, over every interleaving of requests with scored
      connections and purges: each entry reads back as reasons that add up to the
      score beside them, and neighbours give different reasons exactly when no save
      of the same verdict, with no other of the pair in between, fell between a
      call's query and its insertion. */
  lemma HistoryTellsReasons(clock: int, steps: seq<Step>, s: State, p: Pair)
    requires Reaches(Start([], clock), steps, s) && forall step <- steps :: FromRow(step)
    ensures forall t <- LogOf(s.rows, p) :: Scored(t) && AddsUp(t)
    ensures NeighboursDiffer(LogOf(s.rows, p)) <==>
            forall e <- s.rows, f <- s.rows :: e.pair == p ==> !SavedBetween(s, e, f)
  {
    assert Sane([], clock);
    StartHolds([], clock);
    RunScores(Start([], clock), steps, s);
    RepeatsExactly([], clock, steps, s, p);
    hide Scored, LogOf, AllScored, NoRepeats, NeighboursDiffer, AddsUp, SavedBetween, Reaches, Start, FromRow;
    LogMembers(s.rows, p);
    ScoredLog(LogOf(s.rows, p));
  }
}
