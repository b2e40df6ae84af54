/** connections.go, recordScoreChange, and the score_history table of db.go: the
    change log of the verdicts on each pair of a binary and a remote address. */
module ScoreHistory {
  import opened Prelude

  datatype Pair = Pair(exe: string, ip: string)

  /** What one rendering says of a connection. */
  datatype Verdict = Verdict(pair: Pair, privateIP: bool, partial: bool, threat: int, code: string)

  datatype Entry = Entry(epoch: int, pair: Pair, threat: int, code: string)

  /** What of an entry its successor is compared with. */
  datatype Stance = Stance(threat: int, code: string)

  /** A verdict the log is for: of a known binary, on a public address, complete. */
  predicate Eligible(v: Verdict) {
    && v.pair.exe !in {"", "N/A", "ACCESS_DENIED"}
    && v.pair.ip != "" && !v.privateIP
    && !v.partial
  }

  predicate Ascending(rows: seq<Entry>) {
    forall i, j | 0 <= i < j < |rows| :: rows[i].epoch < rows[j].epoch
  }

  /** A pair's log, oldest first. */
  function LogOf(rows: seq<Entry>, p: Pair): seq<Stance> {
    if rows == [] then []
    else
      var e := rows[|rows| - 1];
      LogOf(rows[..|rows| - 1], p) + if e.pair == p then [Stance(e.threat, e.code)] else []
  }

  // ── The table ───────────────────────────────────────────────────────────

  class Table {
    var rows: seq<Entry>

    constructor ()
      ensures rows == []
    {
      rows := [];
    }

    /** dbLastScore: the row of the pair with the greatest epoch. */
    method LastScore(p: Pair) returns (last: Option<Stance>)
      requires Ascending(rows)
      ensures last == Newest(LogOf(rows, p))
    {
      var best: Option<Entry> := None;
      var i := 0;
      while i < |rows|
        invariant i <= |rows|
        invariant best.Some? ==> exists k | 0 <= k < i :: best.value == rows[k]
        invariant Newest(LogOf(rows[..i], p)) ==
                  match best case Some(e) => Some(Stance(e.threat, e.code)) case None => None
      {
        assert rows[..i + 1][..i] == rows[..i];
        if rows[i].pair == p && (best.None? || rows[i].epoch > best.value.epoch) {
          best := Some(rows[i]);
        }
        i := i + 1;
      }
      assert rows[..i] == rows;
      last := match best case Some(e) => Some(Stance(e.threat, e.code)) case None => None;
    }

    /** dbSaveScoreChange, whose insertion succeeds: one row more, which takes the
        place of its epoch, the order every query asks for. The logs of other pairs
        are as they were, and the pair's own has the row at its end if it is the
        latest. */
    method SaveScoreChange(now: int, p: Pair, threat: int, code: string)
      modifies this
      ensures multiset(rows) == multiset(old(rows)) + multiset{Entry(now, p, threat, code)}
      ensures Ascending(old(rows)) && (forall e <- old(rows) :: e.epoch != now) ==> Ascending(rows)
      ensures forall q | q != p :: LogOf(rows, q) == LogOf(old(rows), q)
      ensures (forall e <- old(rows) :: e.epoch < now) ==>
                rows == old(rows) + [Entry(now, p, threat, code)] && LogOf(rows, p) == LogOf(old(rows), p) + [Stance(threat, code)]
    {
      var e := Entry(now, p, threat, code);
      PlacedContents(rows, e);
      LogOfNext(rows, e, p);
      if Ascending(rows) && forall x <- rows :: x.epoch != now {
        PlacedMembers(rows, e);
      }
      if forall x <- rows :: x.epoch < now {
        PlacedLast(rows, e);
      }
      forall q | q != p ensures LogOf(Placed(rows, e), q) == LogOf(rows, q) {
        PlacedLogs(rows, e, q);
      }
      hide Placed, LogOf, Ascending;
      rows := Placed(rows, e);
    }

    /** The first half of recordScoreChange: whether the verdict is to be saved. */
    method Due(v: Verdict) returns (due: bool)
      requires Ascending(rows)
      ensures due == IsDue(rows, v)
    {
      if v.pair.exe == "" || v.pair.exe == "N/A" || v.pair.exe == "ACCESS_DENIED" {
        return false;
      }
      if v.pair.ip == "" || v.privateIP {
        return false;
      }
      if v.partial {
        return false;
      }
      var last := LastScore(v.pair);
      if last.Some? && last.value.threat == v.threat && last.value.code == v.code {
        return false;
      }
      return true;
    }

    /** A call of recordScoreChange that no other overlaps, at a time later than
        every row. */
    method RecordScoreChange(now: int, v: Verdict)
      requires Ascending(rows) && forall e <- rows :: e.epoch < now
      modifies this
      ensures rows == Recorded(old(rows), now, v)
      ensures Ascending(rows) && forall e <- rows :: e.epoch <= now
    {
      var due := Due(v);
      if !due {
        return;
      }
      SaveScoreChange(now, v.pair, v.threat, v.code);
    }

    /** The retention purge, for rows before `cutoff`. */
    method Prune(cutoff: int)
      requires Ascending(rows)
      modifies this
      ensures rows == Pruned(old(rows), cutoff)
    {
      var kept: seq<Entry> := [];
      var i := 0;
      while i < |rows|
        invariant i <= |rows|
        invariant rows == old(rows)
        invariant kept == Pruned(rows[..i], cutoff)
      {
        assert rows[..i + 1][..i] == rows[..i];
        if rows[i].epoch >= cutoff {
          kept := kept + [rows[i]];
        }
        i := i + 1;
      }
      assert rows[..i] == rows;
      rows := kept;
    }
  }

  function Newest(log: seq<Stance>): Option<Stance> {
    if log == [] then None else Some(log[|log| - 1])
  }

  /** Eligible, and not what the pair's newest row says. */
  predicate IsDue(rows: seq<Entry>, v: Verdict) {
    Eligible(v) && Newest(LogOf(rows, v.pair)) != Some(StanceOf(v))
  }

  function StanceOf(v: Verdict): Stance {
    Stance(v.threat, v.code)
  }

  function EntryOf(v: Verdict, epoch: int): Entry {
    Entry(epoch, v.pair, v.threat, v.code)
  }

  function Recorded(rows: seq<Entry>, now: int, v: Verdict): seq<Entry> {
    if IsDue(rows, v) then rows + [EntryOf(v, now)] else rows
  }

  /** The pair's newest row, the last one in the table, says this. */
  predicate LastSays(rows: seq<Entry>, p: Pair, threat: int, code: string) {
    exists i | 0 <= i < |rows| ::
      && rows[i].pair == p && rows[i].threat == threat && rows[i].code == code
      && forall j | i < j < |rows| :: rows[j].pair != p
  }

  lemma {:induction false} NewestIsLast(rows: seq<Entry>, p: Pair, s: Stance)
    ensures Newest(LogOf(rows, p)) == Some(s) <==> LastSays(rows, p, s.threat, s.code)
    ensures LogOf(rows, p) == [] <==> forall e <- rows :: e.pair != p
  {
    if rows == [] {
    } else {
      var init, e := rows[..|rows| - 1], rows[|rows| - 1];
      assert rows == init + [e];
      NewestIsLast(init, p, s);
      hide LogOf, LastSays;
      LogOfNext(init, e, p);
      LastSaysNext(init, e, p, s);
    }
  }

  lemma LastSaysNext(init: seq<Entry>, e: Entry, p: Pair, s: Stance)
    ensures LastSays(init + [e], p, s.threat, s.code) <==>
            if e.pair == p then e.threat == s.threat && e.code == s.code else LastSays(init, p, s.threat, s.code)
  {
    var rows := init + [e];
    assert rows[|init|] == e;
    if e.pair != p {
      if LastSays(init, p, s.threat, s.code) {
        var i :| 0 <= i < |init| && init[i].pair == p && init[i].threat == s.threat && init[i].code == s.code
                 && forall j | i < j < |init| :: init[j].pair != p;
        assert rows[i] == init[i];
      }
      if LastSays(rows, p, s.threat, s.code) {
        var i :| 0 <= i < |rows| && rows[i].pair == p && rows[i].threat == s.threat && rows[i].code == s.code
                 && forall j | i < j < |rows| :: rows[j].pair != p;
        assert rows[i] == init[i] && forall j | i < j < |init| :: init[j] == rows[j];
      }
    }
  }

  /** One row is added for a complete verdict on a known binary and a public address,
      unless the pair's newest row says the same; nothing otherwise. */
  lemma RecordsExactly(rows: seq<Entry>, now: int, v: Verdict)
    ensures Recorded(rows, now, v) ==
            if v.pair.exe == "" || v.pair.exe == "N/A" || v.pair.exe == "ACCESS_DENIED" then rows
            else if v.pair.ip == "" || v.privateIP || v.partial then rows
            else if LastSays(rows, v.pair, v.threat, v.code) then rows
            else rows + [Entry(now, v.pair, v.threat, v.code)]
  {
    NewestIsLast(rows, v.pair, StanceOf(v));
    hide LogOf, LastSays;
  }

  /** The rows with one more, in the order of epochs. */
  function Placed(rows: seq<Entry>, e: Entry): seq<Entry> {
    if rows == [] || rows[|rows| - 1].epoch < e.epoch then rows + [e]
    else Placed(rows[..|rows| - 1], e) + [rows[|rows| - 1]]
  }

  lemma {:induction false} PlacedContents(rows: seq<Entry>, e: Entry)
    ensures multiset(Placed(rows, e)) == multiset(rows) + multiset{e}
  {
    if rows == [] || rows[|rows| - 1].epoch < e.epoch {
    } else {
      var init, l := rows[..|rows| - 1], rows[|rows| - 1];
      assert rows == init + [l];
      PlacedContents(init, e);
    }
  }

  lemma {:induction false} PlacedLogs(rows: seq<Entry>, e: Entry, q: Pair)
    requires q != e.pair
    ensures LogOf(Placed(rows, e), q) == LogOf(rows, q)
  {
    if rows == [] || rows[|rows| - 1].epoch < e.epoch {
      LogOfNext(rows, e, q);
    } else {
      var init, l := rows[..|rows| - 1], rows[|rows| - 1];
      PlacedLogs(init, e, q);
      LogOfNext(Placed(init, e), l, q);
    }
  }

  lemma PlacedLast(rows: seq<Entry>, e: Entry)
    requires forall x <- rows :: x.epoch < e.epoch
    ensures Placed(rows, e) == rows + [e]
  {}

  function Pruned(rows: seq<Entry>, cutoff: int): seq<Entry> {
    if rows == [] then []
    else
      var e := rows[|rows| - 1];
      Pruned(rows[..|rows| - 1], cutoff) + if e.epoch >= cutoff then [e] else []
  }

  // ── Runs ────────────────────────────────────────────────────────────────

  datatype Event = Render(v: Verdict) | Purge(cutoff: int)

  /** A run from a table: event i happens at times[i]. */
  function After(rows: seq<Entry>, events: seq<Event>, times: seq<int>): seq<Entry>
    requires |events| == |times|
  {
    if events == [] then rows
    else
      var n := |events| - 1;
      var before := After(rows, events[..n], times[..n]);
      match events[n]
      case Render(v) => Recorded(before, times[n], v)
      case Purge(cutoff) => Pruned(before, cutoff)
  }

  /** The complete public verdicts on a pair, in order. */
  function Heard(events: seq<Event>, p: Pair): seq<Stance> {
    if events == [] then []
    else
      var n := |events| - 1;
      Heard(events[..n], p) +
      if events[n].Render? && Eligible(events[n].v) && events[n].v.pair == p
      then [Stance(events[n].v.threat, events[n].v.code)] else []
  }

  /** `heard` without the entries that repeat what came just before, after `first`. */
  function WithoutRepeats(first: Option<Stance>, heard: seq<Stance>): seq<Stance> {
    if heard == [] then []
    else
      var n := |heard| - 1;
      var before := if n == 0 then first else Some(heard[n - 1]);
      WithoutRepeats(first, heard[..n]) + if before == Some(heard[n]) then [] else [heard[n]]
  }

  lemma LogOfNext(rows: seq<Entry>, e: Entry, p: Pair)
    ensures LogOf(rows + [e], p) == LogOf(rows, p) + if e.pair == p then [Stance(e.threat, e.code)] else []
  {
    assert (rows + [e])[..|rows|] == rows;
  }

  lemma {:induction false} NewestHeard(first: Option<Stance>, heard: seq<Stance>)
    ensures heard != [] && WithoutRepeats(first, heard) != [] ==>
              Newest(WithoutRepeats(first, heard)) == Newest(heard)
    ensures heard != [] && WithoutRepeats(first, heard) == [] ==> first == Newest(heard)
  {
    if |heard| <= 1 {
    } else {
      NewestHeard(first, heard[..|heard| - 1]);
    }
  }

  lemma WithoutRepeatsNext(first: Option<Stance>, heard: seq<Stance>, s: Stance)
    ensures WithoutRepeats(first, heard + [s]) ==
            WithoutRepeats(first, heard) +
            if (if heard == [] then first else Newest(heard)) == Some(s) then [] else [s]
  {
    assert (heard + [s])[..|heard|] == heard;
  }

  predicate NoPurge(events: seq<Event>) {
    forall e <- events :: e.Render?
  }

  /** Between purges each pair's log is exactly the sequence of its complete public
      verdicts, with adjacent repeats removed, after what the log already held. */
  lemma {:induction false} LogIsWithoutRepeats(rows: seq<Entry>, events: seq<Event>, times: seq<int>, p: Pair)
    requires |events| == |times| && NoPurge(events)
    ensures LogOf(After(rows, events, times), p) ==
            LogOf(rows, p) + WithoutRepeats(Newest(LogOf(rows, p)), Heard(events, p))
    decreases |events|
  {
    if events == [] {
    } else {
      var n := |events| - 1;
      assert NoPurge(events[..n]) by { assert forall e <- events[..n] :: e in events; }
      assert events[n] in events;
      LogIsWithoutRepeats(rows, events[..n], times[..n], p);
      RenderStep(rows, After(rows, events[..n], times[..n]), times[n], events[n].v, Heard(events[..n], p), p);
    }
  }

  lemma RenderStep(rows: seq<Entry>, before: seq<Entry>, now: int, v: Verdict, heard: seq<Stance>, p: Pair)
    requires LogOf(before, p) == LogOf(rows, p) + WithoutRepeats(Newest(LogOf(rows, p)), heard)
    ensures LogOf(Recorded(before, now, v), p) == LogOf(rows, p) + WithoutRepeats(Newest(LogOf(rows, p)),
              heard + if Eligible(v) && v.pair == p then [Stance(v.threat, v.code)] else [])
  {
    var first, s := Newest(LogOf(rows, p)), Stance(v.threat, v.code);
    LogOfNext(before, Entry(now, v.pair, v.threat, v.code), p);
    NewestHeard(first, heard);
    WithoutRepeatsNext(first, heard, s);
    NothingHeard(first);
    hide LogOf, WithoutRepeats, Eligible;
    if Eligible(v) && v.pair == p {
      assert Newest(LogOf(before, p)) == if heard == [] then first else Newest(heard);
    } else {
      assert heard + [] == heard;
    }
  }

  lemma NothingHeard(first: Option<Stance>)
    ensures WithoutRepeats(first, []) == []
  {}

  // ── Over any run, purges included ───────────────────────────────────────

  lemma {:induction false} PrunedMembers(rows: seq<Entry>, cutoff: int)
    ensures forall e :: e in Pruned(rows, cutoff) <==> e in rows && e.epoch >= cutoff
  {
    if rows == [] {
    } else {
      PrunedMembers(rows[..|rows| - 1], cutoff);
      assert rows == rows[..|rows| - 1] + [rows[|rows| - 1]];
    }
  }

  /** From the `k`th on, and only from there, the rows are kept. */
  predicate CutAt(rows: seq<Entry>, cutoff: int, k: nat) {
    && k <= |rows| && Pruned(rows, cutoff) == rows[k..]
    && forall i | 0 <= i < |rows| :: rows[i].epoch >= cutoff <==> k <= i
  }

  lemma CutKept(init: seq<Entry>, l: Entry, cutoff: int, k: nat)
    requires CutAt(init, cutoff, k) && l.epoch >= cutoff
    ensures CutAt(init + [l], cutoff, k)
  {
    var rows := init + [l];
    assert rows[..|init|] == init;
    assert rows[k..] == init[k..] + [l];
  }

  lemma CutGone(init: seq<Entry>, l: Entry, cutoff: int, k: nat)
    requires CutAt(init, cutoff, k) && l.epoch < cutoff && forall x <- init :: x.epoch < l.epoch
    ensures CutAt(init + [l], cutoff, |init| + 1)
  {
    var rows := init + [l];
    assert rows[..|init|] == init;
    assert forall i | 0 <= i < |init| :: init[i] in init;
    assert k == |init| && init[k..] == [];
  }

  lemma NothingToCut(cutoff: int)
    ensures CutAt([], cutoff, 0)
  {}

  /** A purge drops the oldest rows and only those: exactly the ones before the cut. */
  lemma {:induction false} PruneDropsTheOldest(rows: seq<Entry>, cutoff: int) returns (k: nat)
    requires Ascending(rows)
    ensures CutAt(rows, cutoff, k)
    decreases |rows|
  {
    hide CutAt;
    if rows == [] {
      NothingToCut(cutoff);
      k := 0;
    } else {
      var init, l := rows[..|rows| - 1], rows[|rows| - 1];
      assert rows == init + [l];
      k := PruneDropsTheOldest(init, cutoff);
      if l.epoch >= cutoff {
        CutKept(init, l, cutoff, k);
      } else {
        LastOnTop(init, l);
        CutGone(init, l, cutoff, k);
        k := |rows|;
      }
    }
  }

  lemma {:induction false} LogOfConcat(a: seq<Entry>, b: seq<Entry>, p: Pair)
    ensures LogOf(a + b, p) == LogOf(a, p) + LogOf(b, p)
    decreases |b|
  {
    if b == [] {
      assert a + b == a;
    } else {
      var n := |b| - 1;
      LogOfConcat(a, b[..n], p);
      assert a + b == (a + b[..n]) + [b[n]] && b == b[..n] + [b[n]];
      LogOfNext(a + b[..n], b[n], p);
      LogOfNext(b[..n], b[n], p);
    }
  }

  predicate NoRepeats(log: seq<Stance>) {
    forall i | 0 < i < |log| :: log[i] != log[i - 1]
  }

  /** What every table holds: ascending epochs up to `now`, and no pair's log with
      two equal verdicts next to each other. */
  ghost predicate Sane(rows: seq<Entry>, now: int) {
    && Ascending(rows)
    && (forall e <- rows :: e.epoch <= now)
    && forall p :: NoRepeats(LogOf(rows, p))
  }

  /** After an eligible verdict that no other call overlaps, the pair's log ends
      with it. */
  lemma LogIsCurrent(rows: seq<Entry>, now: int, v: Verdict)
    requires Eligible(v)
    ensures Newest(LogOf(Recorded(rows, now, v), v.pair)) == Some(StanceOf(v))
  {
    LogOfNext(rows, EntryOf(v, now), v.pair);
  }

  // ── Neighbours ──────────────────────────────────────────────────────────

  function Said(e: Entry): Stance {
    Stance(e.threat, e.code)
  }

  /** `f` comes right after `e` in their pair's log. */
  predicate Follows(rows: seq<Entry>, e: Entry, f: Entry) {
    && e in rows && f in rows && e.pair == f.pair && e.epoch < f.epoch
    && forall g <- rows :: g.pair == e.pair ==> !(e.epoch < g.epoch < f.epoch)
  }

  predicate IsNewest(rows: seq<Entry>, e: Entry) {
    e in rows && forall g <- rows :: g.pair == e.pair ==> g.epoch <= e.epoch
  }

  lemma NewestStays(init: seq<Entry>, l: Entry, e: Entry)
    requires IsNewest(init, e) && l.pair != e.pair
    ensures IsNewest(init + [l], e)
  {
    assert forall x :: x in init + [l] <==> x in init || x == l;
  }

  lemma {:induction false} NewestIs(rows: seq<Entry>, p: Pair)
    requires Ascending(rows)
    ensures NewestMeans(rows, p, Newest(LogOf(rows, p)))
    decreases |rows|
  {
    if rows == [] {
    } else {
      var init, l := rows[..|rows| - 1], rows[|rows| - 1];
      assert rows == init + [l];
      LastOnTop(init, l);
      LogOfNext(init, l, p);
      NewestIs(init, p);
      hide LogOf, Ascending, NewestMeans;
      if l.pair == p {
        NewestMine(init, l);
      } else {
        assert LogOf(init, p) + [] == LogOf(init, p);
        NewestOther(init, l, p, Newest(LogOf(init, p)));
      }
    }
  }

  /** No row of the pair, or what its newest row says. */
  ghost predicate NewestMeans(rows: seq<Entry>, p: Pair, newest: Option<Stance>) {
    match newest
    case None => forall e <- rows :: e.pair != p
    case Some(t) => exists e :: IsNewest(rows, e) && e.pair == p && Said(e) == t
  }

  lemma NewestMine(init: seq<Entry>, l: Entry)
    requires forall x <- init :: x.epoch < l.epoch
    ensures NewestMeans(init + [l], l.pair, Some(Stance(l.threat, l.code)))
  {
    assert forall x :: x in init + [l] <==> x in init || x == l;
    assert IsNewest(init + [l], l);
    hide IsNewest;
  }

  lemma NewestOther(init: seq<Entry>, l: Entry, p: Pair, newest: Option<Stance>)
    requires l.pair != p && NewestMeans(init, p, newest)
    ensures NewestMeans(init + [l], p, newest)
  {
    assert forall x :: x in init + [l] <==> x in init || x == l;
    if newest.Some? {
      var e :| IsNewest(init, e) && e.pair == p && Said(e) == newest.value;
      NewestStays(init, l, e);
      hide IsNewest;
    }
  }

  /** Epochs tell rows apart. */
  lemma OneEpoch(rows: seq<Entry>, e: Entry, f: Entry)
    requires Ascending(rows) && e in rows && f in rows && e.epoch == f.epoch
    ensures e == f
  {
    var i, j :| 0 <= i < |rows| && 0 <= j < |rows| && rows[i] == e && rows[j] == f;
    assert i < j ==> rows[i].epoch < rows[j].epoch;
    assert j < i ==> rows[j].epoch < rows[i].epoch;
  }

  lemma NewestSays(rows: seq<Entry>, e: Entry)
    requires Ascending(rows) && IsNewest(rows, e)
    ensures Newest(LogOf(rows, e.pair)) == Some(Said(e))
  {
    NewestIs(rows, e.pair);
    var f :| IsNewest(rows, f) && f.pair == e.pair && Some(Said(f)) == Newest(LogOf(rows, e.pair));
    OneEpoch(rows, e, f);
  }

  predicate NoEqualNeighbours(rows: seq<Entry>, p: Pair) {
    forall e <- rows, f <- rows :: e.pair == p && Follows(rows, e, f) ==> Said(e) != Said(f)
  }

  /** Repeats in a log are equal neighbours in the table. */
  lemma {:induction false} RepeatsAreNeighbours(rows: seq<Entry>, p: Pair)
    requires Ascending(rows)
    ensures NoRepeats(LogOf(rows, p)) <==> NoEqualNeighbours(rows, p)
    decreases |rows|
  {
    hide LogOf, NoEqualNeighbours, NoRepeats;
    if rows == [] {
      NoRows(p);
    } else {
      var init, l := rows[..|rows| - 1], rows[|rows| - 1];
      assert rows == init + [l];
      RepeatsAreNeighbours(init, p);
      LogOfNext(init, l, p);
      LastNeighbour(init, l, p);
      NoRepeatsNext(LogOf(init, p), Said(l));
      assert LogOf(init, p) + [] == LogOf(init, p);
    }
  }

  lemma NoRows(p: Pair)
    ensures NoRepeats(LogOf([], p)) && NoEqualNeighbours([], p)
  {}

  lemma NoRepeatsNext(log: seq<Stance>, t: Stance)
    ensures NoRepeats(log + [t]) <==> NoRepeats(log) && Newest(log) != Some(t)
  {
    var more := log + [t];
    assert forall i | 0 <= i < |log| :: more[i] == log[i];
    assert log != [] ==> more[|log|] == t && more[|log| - 1] == log[|log| - 1];
  }

  lemma LastNeighbour(init: seq<Entry>, l: Entry, p: Pair)
    requires Ascending(init + [l])
    ensures NoEqualNeighbours(init + [l], p) <==>
            NoEqualNeighbours(init, p) && (l.pair == p ==> Newest(LogOf(init, p)) != Some(Said(l)))
  {
    var rows := init + [l];
    assert Ascending(init) by { assert forall i | 0 <= i < |init| :: init[i] == rows[i]; }
    LastOnTop(init, l);
    assert forall x :: x in rows <==> x in init || x == l;
    NeighboursBefore(init, l);
    NeighboursOfLast(init, l);
    NewestEqual(init, p, Said(l));
    hide LogOf, Ascending, Follows, IsNewest;
    assert forall f :: !Follows(rows, l, f) by { LastHasNone(init, l); }
  }

  lemma NeighboursBefore(init: seq<Entry>, l: Entry)
    requires forall x <- init :: x.epoch < l.epoch
    ensures forall e, f | e in init && f in init :: Follows(init + [l], e, f) <==> Follows(init, e, f)
  {
    assert forall x :: x in init + [l] <==> x in init || x == l;
  }

  lemma NeighboursOfLast(init: seq<Entry>, l: Entry)
    requires forall x <- init :: x.epoch < l.epoch
    ensures forall e | e in init :: Follows(init + [l], e, l) <==> e.pair == l.pair && IsNewest(init, e)
  {
    assert forall x :: x in init + [l] <==> x in init || x == l;
  }

  lemma LastHasNone(init: seq<Entry>, l: Entry)
    requires forall x <- init :: x.epoch < l.epoch
    ensures forall f :: !Follows(init + [l], l, f)
  {}

  lemma NewestEqual(rows: seq<Entry>, p: Pair, t: Stance)
    requires Ascending(rows)
    ensures Newest(LogOf(rows, p)) == Some(t) <==> exists e <- rows :: IsNewest(rows, e) && e.pair == p && Said(e) == t
  {
    NewestIs(rows, p);
    hide LogOf, Ascending;
    if e :| e in rows && IsNewest(rows, e) && e.pair == p && Said(e) == t {
      NewestSays(rows, e);
    }
  }

  lemma {:induction false} PlacedMembers(rows: seq<Entry>, e: Entry)
    requires Ascending(rows) && forall x <- rows :: x.epoch != e.epoch
    ensures Ascending(Placed(rows, e))
    ensures forall x :: x in Placed(rows, e) <==> x in rows || x == e
    decreases |rows|
  {
    if rows == [] || rows[|rows| - 1].epoch < e.epoch {
    } else {
      var init, l := rows[..|rows| - 1], rows[|rows| - 1];
      assert rows == init + [l];
      PlacedMembers(init, e);
      assert l in rows;
      LastOnTop(init, l);
      AddOnTop(Placed(init, e), l);
    }
  }

  lemma LastOnTop(init: seq<Entry>, l: Entry)
    requires Ascending(init + [l])
    ensures forall x <- init :: x.epoch < l.epoch
  {
    var rows := init + [l];
    assert forall i | 0 <= i < |init| :: rows[i] == init[i] && rows[i].epoch < rows[|init|].epoch;
  }

  lemma AddOnTop(rows: seq<Entry>, l: Entry)
    requires Ascending(rows) && forall x <- rows :: x.epoch < l.epoch
    ensures Ascending(rows + [l])
  {
    forall i, j | 0 <= i < j < |rows + [l]|
      ensures (rows + [l])[i].epoch < (rows + [l])[j].epoch
    {
      assert rows[i] in rows;
    }
  }
}
