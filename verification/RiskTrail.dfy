/** From a score to the exported timeline: what connections.go scores, db.go keeps
    and timeline.go shows is one story. */
module RiskTrail {
  import Breakdown
  import ThreatScore
  import ScoreHistory
  import ScoreRequests
  import Timeline

  /** dbScoreHistory: the newest rows up to a limit, newest first. `at` is the text of
      a moment. */
  function NewestFirst(rows: seq<ScoreHistory.Entry>, limit: nat, at: int -> string): seq<Timeline.Change> {
    if rows == [] || limit == 0 then []
    else
      var e := rows[|rows| - 1];
      [Timeline.Change(at(e.epoch), e.pair.exe, e.pair.ip, e.threat, e.code)]
      + NewestFirst(rows[..|rows| - 1], limit - 1, at)
  }

  /** The rows within the limit. */
  function Recent(rows: seq<ScoreHistory.Entry>, limit: nat): seq<ScoreHistory.Entry> {
    if |rows| <= limit then rows else rows[|rows| - limit..]
  }

  /** A pair's log within the limit is the newest end of its log, and all of it while
      the table is no longer than the limit. */
  lemma RecentLog(rows: seq<ScoreHistory.Entry>, limit: nat, p: ScoreHistory.Pair)
    ensures var older := rows[..|rows| - |Recent(rows, limit)|];
            ScoreHistory.LogOf(rows, p) == ScoreHistory.LogOf(older, p) + ScoreHistory.LogOf(Recent(rows, limit), p)
    ensures |rows| <= limit ==> ScoreHistory.LogOf(Recent(rows, limit), p) == ScoreHistory.LogOf(rows, p)
  {
    var older := rows[..|rows| - |Recent(rows, limit)|];
    assert older + Recent(rows, limit) == rows;
    ScoreHistory.LogOfConcat(older, Recent(rows, limit), p);
  }

  function KeyOf(p: ScoreHistory.Pair): Timeline.Key {
    Timeline.Key(p.exe, p.ip)
  }

  lemma {:induction false} ScoresBefore(s: Timeline.Change, ss: seq<Timeline.Change>, k: Timeline.Key, c: Timeline.Context)
    ensures Timeline.ScoresOf([s] + ss, k, c) ==
            (if Timeline.KeyOfChange(s) == k then [c.Show(s)] else []) + Timeline.ScoresOf(ss, k, c)
    decreases |ss|
  {
    hide Timeline.ScoresOf, Timeline.Context.Show, Timeline.KeyOfChange;
    var first := if Timeline.KeyOfChange(s) == k then [c.Show(s)] else [];
    if ss == [] {
      NoScores(k, c);
      Timeline.ScoresNext([], s, k, c);
      assert [s] + ss == [] + [s];
    } else {
      var init, l := ss[..|ss| - 1], ss[|ss| - 1];
      ScoresBefore(s, init, k, c);
      Timeline.ScoresNext([s] + init, l, k, c);
      Timeline.ScoresNext(init, l, k, c);
      assert [s] + ss == [s] + init + [l] && ss == init + [l];
      assert first + (Timeline.ScoresOf(init, k, c) + [c.Show(l)]) == first + Timeline.ScoresOf(init, k, c) + [c.Show(l)];
    }
  }

  lemma NoScores(k: Timeline.Key, c: Timeline.Context)
    ensures Timeline.ScoresOf([], k, c) == []
  {}

  /** The scores of a record tell a log backwards. */
  predicate Mirrors(scores: seq<Timeline.Shown>, log: seq<ScoreHistory.Stance>, known: set<string>) {
    && |scores| == |log|
    && forall i | 0 <= i < |log| ::
         && scores[i].threat == log[|log| - 1 - i].threat
         && scores[i].breakdown == Breakdown.Localize(known, log[|log| - 1 - i].code)
  }

  lemma RecentNext(rows: seq<ScoreHistory.Entry>, limit: nat)
    requires rows != [] && limit > 0
    ensures Recent(rows, limit) == Recent(rows[..|rows| - 1], limit - 1) + [rows[|rows| - 1]]
  {}

  lemma NothingRecent(rows: seq<ScoreHistory.Entry>, limit: nat, at: int -> string,
                      p: ScoreHistory.Pair, c: Timeline.Context)
    requires rows == [] || limit == 0
    ensures Timeline.ScoresOf(NewestFirst(rows, limit, at), KeyOf(p), c) == []
    ensures ScoreHistory.LogOf(Recent(rows, limit), p) == []
  {}

  /** A record's scores are its pair's log within the limit, newest first. */
  lemma {:induction false} ScoresMirrorTheLog(rows: seq<ScoreHistory.Entry>, limit: nat, at: int -> string,
                                              p: ScoreHistory.Pair, c: Timeline.Context)
    ensures Mirrors(Timeline.ScoresOf(NewestFirst(rows, limit, at), KeyOf(p), c),
                    ScoreHistory.LogOf(Recent(rows, limit), p), c.known)
    decreases limit
  {
    hide Timeline.ScoresOf, ScoreHistory.LogOf, Breakdown.Localize, Recent;
    if rows == [] || limit == 0 {
      NothingRecent(rows, limit, at, p, c);
    } else {
      var init, e := rows[..|rows| - 1], rows[|rows| - 1];
      ScoresMirrorTheLog(init, limit - 1, at, p, c);
      hide Mirrors;
      RecentNext(rows, limit);
      var s := Timeline.Change(at(e.epoch), e.pair.exe, e.pair.ip, e.threat, e.code);
      ScoresBefore(s, NewestFirst(init, limit - 1, at), KeyOf(p), c);
      ScoreHistory.LogOfNext(Recent(init, limit - 1), e, p);
      var scores := Timeline.ScoresOf(NewestFirst(init, limit - 1, at), KeyOf(p), c);
      var log := ScoreHistory.LogOf(Recent(init, limit - 1), p);
      if e.pair == p {
      } else {
        assert [] + scores == scores && log + [] == log;
      }
    }
  }

  lemma ScoredShowsReasons(s: ScoreHistory.Stance)
    requires ScoreRequests.Scored(s)
    ensures var b := Breakdown.Localize(ThreatScore.KEYS, s.code);
            b.Reasons? && s.threat == ThreatScore.AtMost100(ThreatScore.Points(b.rs))
  {
    var row :| s == ScoreRequests.Reasoned(row);
    ThreatScore.TooltipShowsReasons(row);
    ThreatScore.WhyIsSound(row);
    hide Breakdown.Localize, ThreatScore.Why, ThreatScore.Points, ThreatScore.Score;
  }

  predicate AddsUp(s: Timeline.Shown) {
    s.breakdown.Reasons? && s.threat == ThreatScore.AtMost100(ThreatScore.Points(s.breakdown.rs))
  }

  lemma MirrorsAddUp(scores: seq<Timeline.Shown>, log: seq<ScoreHistory.Stance>)
    requires Mirrors(scores, log, ThreatScore.KEYS) && forall s <- log :: ScoreRequests.Scored(s)
    ensures forall s <- scores :: AddsUp(s)
  {
    hide Breakdown.Localize, ScoreRequests.Scored, ThreatScore.KEYS, ThreatScore.Points;
    forall i | 0 <= i < |scores|
      ensures AddsUp(scores[i])
    {
      assert log[|log| - 1 - i] in log;
      ScoredShowsReasons(log[|log| - 1 - i]);
    }
  }

  /** A record shows a log: all of it, newest first, the latest verdict as its own,
      and each verdict as reasons whose points add up to it. */
  predicate Tells(r: Timeline.Record, log: seq<ScoreHistory.Stance>) {
    && Mirrors(r.scores, log, ThreatScore.KEYS)
    && (log != [] ==> r.threat == log[|log| - 1].threat && r.breakdown == r.scores[0].breakdown)
    && forall s <- r.scores :: AddsUp(s)
  }

  /** For every interleaving of requests with scored connections and purges, every
      list of events and every limit of the query, the timeline's record of a pair
      tells that pair's log within the limit. */
  lemma TimelineTellsReasons(clock: int, steps: seq<ScoreRequests.Step>, s: ScoreRequests.State, limit: nat,
                             at: int -> string, es: seq<Timeline.Event>, p: ScoreHistory.Pair, c: Timeline.Context)
    requires ScoreRequests.Reaches(ScoreRequests.Start([], clock), steps, s)
    requires forall step <- steps :: ScoreRequests.FromRow(step)
    requires c.known == ThreatScore.KEYS
    ensures Tells(Timeline.RecordOf(KeyOf(p), NewestFirst(s.rows, limit, at), es, c),
                  ScoreHistory.LogOf(Recent(s.rows, limit), p))
  {
    hide AddsUp, Timeline.RecordOf, Timeline.ScoresOf, ScoreRequests.FromRow, ScoreRequests.Reaches,
         ScoreRequests.AddsUp, ScoreHistory.LogOf, ScoreRequests.Scored, NewestFirst, Recent, ThreatScore.KEYS;
    var log := ScoreHistory.LogOf(Recent(s.rows, limit), p);
    var scores := Timeline.ScoresOf(NewestFirst(s.rows, limit, at), KeyOf(p), c);
    ScoreRequests.HistoryTellsReasons(clock, steps, s, p);
    RecentLog(s.rows, limit, p);
    assert forall t <- log :: t in ScoreHistory.LogOf(s.rows, p);
    ScoresMirrorTheLog(s.rows, limit, at, p, c);
    MirrorsAddUp(scores, log);
    RecordScores(KeyOf(p), NewestFirst(s.rows, limit, at), es, c);
  }

  lemma RecordScores(k: Timeline.Key, ss: seq<Timeline.Change>, es: seq<Timeline.Event>, c: Timeline.Context)
    ensures var r := Timeline.RecordOf(k, ss, es, c);
            && r.scores == Timeline.ScoresOf(ss, k, c)
            && (r.scores != [] ==> r.threat == r.scores[0].threat && r.breakdown == r.scores[0].breakdown)
  {}
}
