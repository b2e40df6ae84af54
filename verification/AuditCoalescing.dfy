/** audit.go, auditCached: concurrent requests for an audit share scans. A scan
    runs under auditRunMu; the cached report and its time, one per language, are
    read and written under auditMu, one step each here. */
module AuditCoalescing {
  import opened Prelude

  type Lang(==, !new)
  type Check(==, !new)

  /** A finished scan: its language, its checks (never none: the process category
      always reports), and the time it was stored. */
  datatype Report = Report(lang: Lang, checks: seq<Check>, at: nat)

  const AUDIT_TTL := 60

  datatype Request = Request(lang: Lang, refresh: bool, began: nat, start: nat)

  /** How a request was answered. */
  datatype Source =
    | Fresh(served: nat)  // cached, younger than the TTL when served
    | Newer               // stored after the request's start
    | Own                 // by a scan of its own

  datatype Pc =
    | Reading(r: Request)     // the first look at the cache, without auditRunMu
    | Stamping(r: Request)    // start := time.Now() is next
    | Queued(r: Request)      // for auditRunMu
    | Holding(r: Request)     // the second look is next
    | Scanning(r: Request)
    | Scanned(r: Request, checks: seq<Check>)
    | Releasing(r: Request, report: Report, source: Source)
    | Done(r: Request, report: Report, source: Source)

  type Caller = nat

  datatype State = State(now: nat, cache: map<Lang, Report>, runMu: Option<Caller>,
                         callers: map<Caller, Pc>)

  const INIT := State(0, map[], None, map[])

  datatype Step =
    | Tick(n: nat)
    | Begin(c: Caller, lang: Lang, refresh: bool)
    | ReadFast(c: Caller)
    | Stamp(c: Caller)
    | Acquire(c: Caller)
    | Recheck(c: Caller)
    | ScanReturns(c: Caller, checks: seq<Check>)
    | Store(c: Caller)
    | Release(c: Caller)

  predicate Enabled(s: State, step: Step) {
    match step
    case Tick(_) => true
    case Begin(c, _, _) => c !in s.callers
    case ReadFast(c) => c in s.callers && s.callers[c].Reading?
    case Stamp(c) => c in s.callers && s.callers[c].Stamping?
    case Acquire(c) => c in s.callers && s.callers[c].Queued? && s.runMu.None?
    case Recheck(c) => c in s.callers && s.callers[c].Holding?
    case ScanReturns(c, checks) => c in s.callers && s.callers[c].Scanning? && checks != []
    case Store(c) => c in s.callers && s.callers[c].Scanned?
    case Release(c) => c in s.callers && s.callers[c].Releasing?
  }

  predicate Young(s: State, lang: Lang) {
    lang in s.cache && s.now - s.cache[lang].at < AUDIT_TTL
  }

  function Moved(s: State, c: Caller, pc: Pc): State {
    s.(callers := s.callers[c := pc])
  }

  /** The second look, holding auditRunMu. */
  function Rechecked(s: State, r: Request): Pc {
    if r.lang in s.cache && s.cache[r.lang].at > r.start then Releasing(r, s.cache[r.lang], Newer)
    else if !r.refresh && Young(s, r.lang) then Releasing(r, s.cache[r.lang], Fresh(s.now))
    else Scanning(r)
  }

  function Apply(s: State, step: Step): State
    requires Enabled(s, step)
  {
    match step
    case Tick(n) => s.(now := s.now + n)
    case Begin(c, lang, refresh) =>
      var r := Request(lang, refresh, s.now, 0);
      Moved(s, c, if refresh then Stamping(r) else Reading(r))
    case ReadFast(c) =>
      var r := s.callers[c].r;
      Moved(s, c, if Young(s, r.lang) then Done(r, s.cache[r.lang], Fresh(s.now)) else Stamping(r))
    case Stamp(c) => Moved(s, c, Queued(s.callers[c].r.(start := s.now)))
    case Acquire(c) => Moved(s, c, Holding(s.callers[c].r)).(runMu := Some(c))
    case Recheck(c) => Moved(s, c, Rechecked(s, s.callers[c].r))
    case ScanReturns(c, checks) => Moved(s, c, Scanned(s.callers[c].r, checks))
    case Store(c) =>
      var report := Report(s.callers[c].r.lang, s.callers[c].checks, s.now);
      Moved(s, c, Releasing(s.callers[c].r, report, Own)).(cache := s.cache[s.callers[c].r.lang := report])
    case Release(c) =>
      var pc := s.callers[c];
      Moved(s, c, Done(pc.r, pc.report, pc.source)).(runMu := None)
  }

  // ── Invariant ───────────────────────────────────────────────────────────

  predicate Holds(pc: Pc) {
    pc.Holding? || pc.Scanning? || pc.Scanned? || pc.Releasing?
  }

  predicate Stamped(pc: Pc) {
    pc.Queued? || Holds(pc)
  }

  /** What an answer owes its request. */
  predicate AnswerOk(now: nat, r: Request, report: Report, source: Source) {
    && report.at <= now && report.lang == r.lang && report.checks != []
    && (match source
        case Fresh(served) => !r.refresh && report.at <= served <= now && served - report.at < AUDIT_TTL
        case Newer => report.at > r.start >= r.began
        case Own => report.at >= r.start >= r.began)
  }

  predicate CallerOk(now: nat, runMu: Option<Caller>, c: Caller, pc: Pc) {
    && (Holds(pc) <==> runMu == Some(c))
    && pc.r.began <= now
    && (Stamped(pc) ==> pc.r.began <= pc.r.start <= now)
    && (pc.Reading? ==> !pc.r.refresh)
    && (pc.Scanned? ==> pc.checks != [])
    && (pc.Releasing? || pc.Done? ==> AnswerOk(now, pc.r, pc.report, pc.source))
  }

  ghost predicate Inv(s: State) {
    && (forall c <- s.callers :: CallerOk(s.now, s.runMu, c, s.callers[c]))
    && (s.runMu.Some? ==> s.runMu.value in s.callers)
    && (forall lang <- s.cache ::
          s.cache[lang].at <= s.now && s.cache[lang].lang == lang && s.cache[lang].checks != [])
  }

  function Mover(step: Step): Option<Caller> {
    match step
    case Tick(_) => None
    case Begin(c, _, _) => Some(c)
    case ReadFast(c) => Some(c)
    case Stamp(c) => Some(c)
    case Acquire(c) => Some(c)
    case Recheck(c) => Some(c)
    case ScanReturns(c, _) => Some(c)
    case Store(c) => Some(c)
    case Release(c) => Some(c)
  }

  lemma MoverKept(s: State, step: Step, c: Caller)
    requires Inv(s) && Enabled(s, step) && Mover(step) == Some(c)
    ensures var t := Apply(s, step);
            c in t.callers && CallerOk(t.now, t.runMu, c, t.callers[c])
  {
    if c in s.callers {
      assert CallerOk(s.now, s.runMu, c, s.callers[c]);
    }
  }

  lemma OtherKept(s: State, step: Step, x: Caller)
    requires Inv(s) && Enabled(s, step) && Mover(step) != Some(x) && x in s.callers
    ensures var t := Apply(s, step);
            x in t.callers && t.callers[x] == s.callers[x] && CallerOk(t.now, t.runMu, x, t.callers[x])
  {
    assert CallerOk(s.now, s.runMu, x, s.callers[x]);
    if step.Release? {
      assert CallerOk(s.now, s.runMu, step.c, s.callers[step.c]);
    }
  }

  lemma StepKeeps(s: State, step: Step)
    requires Inv(s) && Enabled(s, step)
    ensures Inv(Apply(s, step))
  {
    var t := Apply(s, step);
    forall c <- t.callers ensures CallerOk(t.now, t.runMu, c, t.callers[c]) {
      if Mover(step) == Some(c) {
        MoverKept(s, step, c);
      } else {
        OtherKept(s, step, c);
      }
    }
    hide CallerOk;
  }

  ghost predicate Reaches(s0: State, steps: seq<Step>, s: State)
    decreases |steps|
  {
    if steps == [] then s == s0
    else Enabled(s0, steps[0]) && Reaches(Apply(s0, steps[0]), steps[1..], s)
  }

  lemma {:induction false} RunKeeps(s0: State, steps: seq<Step>, s: State)
    requires Inv(s0) && Reaches(s0, steps, s)
    ensures Inv(s)
    decreases |steps|
  {
    hide Apply, Enabled, Inv;
    if steps == [] {
    } else {
      StepKeeps(s0, steps[0]);
      RunKeeps(Apply(s0, steps[0]), steps[1..], s);
    }
  }

  // ── Results ─────────────────────────────────────────────────────────────

  /** Scans never overlap, whatever their languages. */
  lemma ScansNeverOverlap(steps: seq<Step>, s: State, c1: Caller, c2: Caller)
    requires Reaches(INIT, steps, s)
    requires c1 in s.callers && c2 in s.callers && s.callers[c1].Scanning? && s.callers[c2].Scanning?
    ensures c1 == c2
  {
    RunKeeps(INIT, steps, s);
    assert CallerOk(s.now, s.runMu, c1, s.callers[c1]);
    assert CallerOk(s.now, s.runMu, c2, s.callers[c2]);
  }

  /** A refresh is never answered with a scan that finished before the request
      began; any other request gets that or a report under a minute old. */
  lemma AnswersAreFresh(steps: seq<Step>, s: State, c: Caller)
    requires Reaches(INIT, steps, s) && c in s.callers && s.callers[c].Done?
    ensures var pc := s.callers[c];
            && pc.report.lang == pc.r.lang && pc.report.checks != []
            && (pc.report.at >= pc.r.began || (!pc.r.refresh && pc.source.Fresh? && pc.source.served - pc.report.at < 60))
  {
    RunKeeps(INIT, steps, s);
    assert CallerOk(s.now, s.runMu, c, s.callers[c]);
  }

  /** The report a language has, and its age, from one step to the next. */
  lemma ReportsStay(s: State, step: Step, lang: Lang)
    requires Inv(s) && Enabled(s, step) && lang in s.cache
    ensures var t := Apply(s, step);
            lang in t.cache && t.cache[lang].at >= s.cache[lang].at && t.now >= s.now
  {}

  /** Where a request stands that need not scan: it has not looked yet, or has been
      answered at its first look. */
  predicate Spared(s: State, c: Caller, lang: Lang, t: nat) {
    c in s.callers && s.callers[c].r.lang == lang && !s.callers[c].r.refresh ==>
      || s.callers[c].Reading?
      || (s.callers[c].Done? && s.callers[c].source.Fresh? && s.callers[c].report.at >= t)
  }

  lemma SparedStays(s: State, step: Step, c: Caller, lang: Lang, t: nat)
    requires Inv(s) && Enabled(s, step) && Spared(s, c, lang, t)
    requires lang in s.cache && s.cache[lang].at >= t && s.now - s.cache[lang].at < 60
    ensures Spared(Apply(s, step), c, lang, t)
  {
    if Mover(step) != Some(c) && c in Apply(s, step).callers {
      assert c in s.callers && Apply(s, step).callers[c] == s.callers[c];
    }
    hide Inv;
  }

  lemma {:induction false} SparedLasts(s0: State, steps: seq<Step>, s: State, c: Caller, lang: Lang, t: nat)
    requires Inv(s0) && Reaches(s0, steps, s) && Spared(s0, c, lang, t)
    requires lang in s0.cache && s0.cache[lang].at >= t && s.now - t < 60
    ensures s0.now <= s.now && Spared(s, c, lang, t)
    decreases |steps|
  {
    hide Apply, Enabled, Inv, Spared;
    if steps == [] {
    } else {
      StepKeeps(s0, steps[0]);
      ReportsStay(s0, steps[0], lang);
      RunClock(Apply(s0, steps[0]), steps[1..], s);
      SparedStays(s0, steps[0], c, lang, t);
      SparedLasts(Apply(s0, steps[0]), steps[1..], s, c, lang, t);
    }
  }

  lemma {:induction false} RunClock(s0: State, steps: seq<Step>, s: State)
    requires Reaches(s0, steps, s)
    ensures s0.now <= s.now
    decreases |steps|
  {
    hide Apply, Enabled;
    if steps == [] {
    } else {
      StepClock(s0, steps[0]);
      RunClock(Apply(s0, steps[0]), steps[1..], s);
    }
  }

  lemma StepClock(s: State, step: Step)
    requires Enabled(s, step)
    ensures s.now <= Apply(s, step).now
  {}

  /** While the report of a language is under a minute old, no request for it that
      does not ask for a refresh waits for the lock or scans: its first look answers
      it with that report or a later one. */
  lemma YoungIsServed(before: seq<Step>, s0: State, steps: seq<Step>, s: State, c: Caller, lang: Lang)
    requires Reaches(INIT, before, s0) && Reaches(s0, steps, s)
    requires lang in s0.cache && s.now - s0.cache[lang].at < 60
    requires c !in s0.callers && c in s.callers && s.callers[c].r.lang == lang && !s.callers[c].r.refresh
    ensures || s.callers[c].Reading?
            || (s.callers[c].Done? && s.callers[c].source.Fresh? && s.callers[c].report.at >= s0.cache[lang].at)
  {
    RunKeeps(INIT, before, s0);
    hide Reaches, Inv;
    SparedLasts(s0, steps, s, c, lang, s0.cache[lang].at);
  }

  /** A request that has waited for the lock is spared too, unless it asks for a
      refresh: then it scans, except for a report stored after its start. */
  lemma SecondLook(s: State, c: Caller)
    requires Enabled(s, Recheck(c))
    ensures var r, pc := s.callers[c].r, Apply(s, Recheck(c)).callers[c];
            if r.lang in s.cache && (s.cache[r.lang].at > r.start || (!r.refresh && s.now - s.cache[r.lang].at < 60))
            then pc.Releasing? && pc.report == s.cache[r.lang]
            else pc == Scanning(r)
  {}

  /** A scan of the language has returned these checks. */
  ghost predicate ScanSaid(s: State, past: seq<Step>, report: Report) {
    exists l <- s.callers :: ScanReturns(l, report.checks) in past && s.callers[l].r.lang == report.lang
  }

  ghost predicate ReportsAreScans(s: State, past: seq<Step>) {
    && (forall lang <- s.cache :: s.cache[lang].lang == lang && ScanSaid(s, past, s.cache[lang]))
    && (forall c <- s.callers :: s.callers[c].Scanned? ==> ScanReturns(c, s.callers[c].checks) in past)
    && (forall c <- s.callers :: s.callers[c].Releasing? || s.callers[c].Done? ==> ScanSaid(s, past, s.callers[c].report))
  }

  lemma SaidStays(s: State, past: seq<Step>, step: Step, report: Report)
    requires Enabled(s, step) && ScanSaid(s, past, report)
    ensures ScanSaid(Apply(s, step), past + [step], report)
  {
    var l :| l in s.callers && ScanReturns(l, report.checks) in past && s.callers[l].r.lang == report.lang;
    assert ScanReturns(l, report.checks) in past + [step];
    assert l in Apply(s, step).callers && Apply(s, step).callers[l].r.lang == report.lang;
  }

  /** Where the report in a caller's hands comes from. */
  lemma ReportOrigin(s: State, past: seq<Step>, step: Step, c: Caller)
    requires Enabled(s, step) && ReportsAreScans(s, past) && c in Apply(s, step).callers
    ensures var pc := Apply(s, step).callers[c];
            && (pc.Scanned? ==> ScanReturns(c, pc.checks) in past + [step])
            && (pc.Releasing? || pc.Done? ==> ScanSaid(s, past, pc.report))
  {
    assert forall x <- past :: x in past + [step];
    assert step in past + [step];
  }

  lemma ScansReport(s: State, past: seq<Step>, step: Step)
    requires Enabled(s, step) && ReportsAreScans(s, past)
    ensures ReportsAreScans(Apply(s, step), past + [step])
  {
    var t := Apply(s, step);
    forall c <- t.callers
      ensures t.callers[c].Scanned? ==> ScanReturns(c, t.callers[c].checks) in past + [step]
      ensures t.callers[c].Releasing? || t.callers[c].Done? ==> ScanSaid(t, past + [step], t.callers[c].report)
    {
      ReportOrigin(s, past, step, c);
      if t.callers[c].Releasing? || t.callers[c].Done? {
        SaidStays(s, past, step, t.callers[c].report);
      }
    }
    forall lang <- t.cache
      ensures t.cache[lang].lang == lang && ScanSaid(t, past + [step], t.cache[lang])
    {
      CacheOrigin(s, past, step, lang);
      SaidStays(s, past, step, t.cache[lang]);
    }
    hide Apply, Enabled;
  }

  lemma CacheOrigin(s: State, past: seq<Step>, step: Step, lang: Lang)
    requires Enabled(s, step) && ReportsAreScans(s, past) && lang in Apply(s, step).cache
    ensures Apply(s, step).cache[lang].lang == lang && ScanSaid(s, past, Apply(s, step).cache[lang])
  {}

  lemma {:induction false} RunScansReport(s0: State, past: seq<Step>, steps: seq<Step>, s: State)
    requires ReportsAreScans(s0, past) && Reaches(s0, steps, s)
    ensures ReportsAreScans(s, past + steps)
    decreases |steps|
  {
    hide Apply, Enabled, ReportsAreScans;
    if steps == [] {
      assert past + [] == past;
    } else {
      ScansReport(s0, past, steps[0]);
      RunScansReport(Apply(s0, steps[0]), past + [steps[0]], steps[1..], s);
      assert past + [steps[0]] + steps[1..] == past + steps;
    }
  }

  /** Over every run the checks a request is answered with are those some scan of
      its language returned. */
  lemma AnswersAreScans(steps: seq<Step>, s: State, c: Caller)
    requires Reaches(INIT, steps, s) && c in s.callers && s.callers[c].Done?
    ensures var pc := s.callers[c];
            exists l <- s.callers :: ScanReturns(l, pc.report.checks) in steps && s.callers[l].r.lang == pc.r.lang
  {
    RunScansReport(INIT, [], steps, s);
    assert [] + steps == steps;
    AnswersAreFresh(steps, s, c);
    hide Reaches;
  }

  /** Since the request started, a scan of its language was stored, at `t` or
      later. */
  predicate Overtaken(s: State, c: Caller, t: nat) {
    c in s.callers &&
    match s.callers[c]
    case Queued(r) => r.lang in s.cache && s.cache[r.lang].at >= t > r.start
    case Holding(r) => r.lang in s.cache && s.cache[r.lang].at >= t > r.start
    case Releasing(_, report, source) => source == Newer && report.at >= t
    case Done(_, report, source) => source == Newer && report.at >= t
    case _ => false
  }

  lemma OvertakenStays(s: State, step: Step, c: Caller, t: nat)
    requires Inv(s) && Enabled(s, step) && Overtaken(s, c, t)
    ensures Overtaken(Apply(s, step), c, t)
  {
    assert CallerOk(s.now, s.runMu, c, s.callers[c]);
    hide CallerOk;
    if Mover(step) != Some(c) {
      assert Apply(s, step).callers[c] == s.callers[c];
    }
  }

  /** Coalescing: a queued request overtaken by a scan of its language never
      starts one, in any continuation, and is answered with that scan's report or
      a later one. */
  lemma {:induction false} OvertakenNeverScans(s0: State, steps: seq<Step>, s: State, c: Caller, t: nat)
    requires Inv(s0) && Overtaken(s0, c, t) && Reaches(s0, steps, s)
    ensures c in s.callers && !s.callers[c].Scanning? && !s.callers[c].Scanned?
    ensures s.callers[c].Done? ==> s.callers[c].source == Newer && s.callers[c].report.at >= t
    decreases |steps|
  {
    hide Apply, Inv;
    if steps == [] {
    } else {
      StepKeeps(s0, steps[0]);
      OvertakenStays(s0, steps[0], c, t);
      OvertakenNeverScans(Apply(s0, steps[0]), steps[1..], s, c, t);
    }
  }

  /** A scan that finishes overtakes every request of its language that started
      before, refresh or not: however many are queued, they cost that one scan. */
  lemma ScanOvertakesTheQueue(s: State, scanner: Caller, c: Caller)
    requires Inv(s) && Enabled(s, Store(scanner))
    requires c in s.callers && s.callers[c].Queued?
    requires s.callers[c].r.lang == s.callers[scanner].r.lang && s.callers[c].r.start < s.now
    ensures Overtaken(Apply(s, Store(scanner)), c, s.now)
  {}

  /** On a clock too coarse to tell the request's start from the scan's end, the
      request is not overtaken: a refresh scans again as soon as it holds the lock. */
  lemma TieScansAgain(s: State, scanner: Caller, c: Caller)
    requires Inv(s) && Enabled(s, Store(scanner))
    requires c in s.callers && s.callers[c].Queued? && s.callers[c].r.refresh
    requires s.callers[c].r.lang == s.callers[scanner].r.lang && s.callers[c].r.start == s.now
    ensures var s1 := Apply(s, Store(scanner));
            var s2 := Apply(s1, Release(scanner));
            var s3 := Apply(s2, Acquire(c));
            Apply(s3, Recheck(c)).callers[c].Scanning?
  {
    assert CallerOk(s.now, s.runMu, scanner, s.callers[scanner]);
  }

  function NextStep(c: Caller, pc: Pc, checks: seq<Check>): Option<Step> {
    match pc
    case Reading(_) => Some(ReadFast(c))
    case Stamping(_) => Some(Stamp(c))
    case Queued(_) => Some(Acquire(c))
    case Holding(_) => Some(Recheck(c))
    case Scanning(_) => Some(ScanReturns(c, checks))
    case Scanned(_, _) => Some(Store(c))
    case Releasing(_, _, _) => Some(Release(c))
    case Done(_, _, _) => None
  }

  /** The lock is never left held: some caller can always move until all are over. */
  lemma NoDeadlock(steps: seq<Step>, s: State, c: Caller, checks: seq<Check>)
    requires Reaches(INIT, steps, s) && c in s.callers && !s.callers[c].Done? && checks != []
    ensures exists step :: Mover(step).Some? && Enabled(s, step)
  {
    RunKeeps(INIT, steps, s);
    var d := if s.callers[c].Queued? && s.runMu.Some? then s.runMu.value else c;
    assert CallerOk(s.now, s.runMu, d, s.callers[d]);
    var step := NextStep(d, s.callers[d], checks);
    assert step.Some? && Mover(step.value) == Some(d) && Enabled(s, step.value);
  }
}
