/** intel.go, cachedIP, storeIP and enrichIP: a bounded cache with a time to live
    in front of a lookup that runs at most once per address at a time. */
module IpEnrichment {
  import opened Prelude

  type Ip(==, !new)

  /** What a lookup found; enrichIP never looks inside. */
  type Enrichment(==, !new)

  datatype Entry = Entry(at: nat, data: Enrichment, partial: bool)

  const IP_TTL := 3600        // seconds
  const PARTIAL_TTL := 300    // after a failed geo lookup
  const MAX_IP_CACHE := 4096

  function Ttl(e: Entry): nat {
    if e.partial then PARTIAL_TTL else IP_TTL
  }

  predicate Expired(e: Entry, now: int) {
    now - e.at >= Ttl(e)
  }

  // ── The cache ───────────────────────────────────────────────────────────

  type Cache = map<Ip, Entry>

  function Live(cache: Cache, now: int): Cache {
    map ip | ip in cache && !Expired(cache[ip], now) :: cache[ip]
  }

  /** What cachedIP answers, and the cache it leaves. */
  function Lookup(cache: Cache, ip: Ip, now: int): (Option<Enrichment>, Cache) {
    if ip !in cache then (None, cache)
    else if Expired(cache[ip], now) then (None, cache - {ip})
    else (Some(cache[ip].data), cache)
  }

  /** The cache storeIP leaves: a full one first sheds what has expired, and
      starts afresh if that was not enough. */
  function Stored(cache: Cache, ip: Ip, d: Enrichment, partial: bool, now: nat): Cache {
    var room :=
      if |cache| < MAX_IP_CACHE then cache
      else if |Live(cache, now)| < MAX_IP_CACHE then Live(cache, now)
      else map[];
    room[ip := Entry(now, d, partial)]
  }

  class IpCache {
    var entries: Cache

    constructor ()
      ensures entries == map[]
    {
      entries := map[];
    }

    method CachedIP(ip: Ip, now: nat) returns (data: Option<Enrichment>)
      modifies this
      ensures (data, entries) == Lookup(old(entries), ip, now)
    {
      if ip !in entries {
        return None;
      }
      var e := entries[ip];
      var ttl := if e.partial then PARTIAL_TTL else IP_TTL;
      if now - e.at >= ttl {
        entries := entries - {ip};
        return None;
      }
      return Some(e.data);
    }

    method StoreIP(ip: Ip, d: Enrichment, partial: bool, now: nat)
      modifies this
      ensures entries == Stored(old(entries), ip, d, partial, now)
    {
      if |entries| >= MAX_IP_CACHE {
        var keys := entries.Keys;
        while keys != {}
          invariant keys <= old(entries).Keys
          invariant entries == map k | k in old(entries) && (k in keys || !Expired(old(entries)[k], now)) :: old(entries)[k]
          decreases keys
        {
          var k :| k in keys;
          if Expired(entries[k], now) {
            entries := entries - {k};
          }
          keys := keys - {k};
        }
        assert entries == Live(old(entries), now);
        if |entries| >= MAX_IP_CACHE {
          entries := map[];
        }
      }
      entries := entries[ip := Entry(now, d, partial)];
    }
  }

  /** Storing never exceeds the bound, and leaves the new entry readable. */
  lemma StoredIsBounded(cache: Cache, ip: Ip, d: Enrichment, partial: bool, now: nat)
    requires |cache| <= MAX_IP_CACHE
    ensures var c := Stored(cache, ip, d, partial, now);
            && |c| <= MAX_IP_CACHE
            && Lookup(c, ip, now) == (Some(d), c)
            && (forall k | k in c && k != ip :: k in cache && c[k] == cache[k])
            && (|cache| < MAX_IP_CACHE ==> cache.Keys <= c.Keys)
  {
    var c := Stored(cache, ip, d, partial, now);
    var room :=
      if |cache| < MAX_IP_CACHE then cache
      else if |Live(cache, now)| < MAX_IP_CACHE then Live(cache, now)
      else map[];
    assert c == room[ip := Entry(now, d, partial)];
    assert c.Keys == room.Keys + {ip};
  }

  predicate Outlived(e: Entry, now: int) {
    now - e.at >= if e.partial then 5 * 60 else 60 * 60
  }

  /** With 4096 entries in it the cache keeps those still alive if any is not, and
      none otherwise. */
  lemma StoredByAge(cache: Cache, ip: Ip, d: Enrichment, partial: bool, now: nat)
    requires |cache| <= 4096
    ensures var c := Stored(cache, ip, d, partial, now);
            && ip in c && c[ip] == Entry(now, d, partial)
            && forall k | k != ip ::
                 k in c <==> && k in cache
                             && (|cache| < 4096 ||
                                 (!Outlived(cache[k], now) && exists x <- cache :: Outlived(cache[x], now)))
  {
    var live := Live(cache, now);
    assert live.Keys <= cache.Keys;
    if x :| x in cache && Outlived(cache[x], now) {
      assert x !in live.Keys;
      FewerKeys(live.Keys, cache.Keys, x);
    } else {
      assert live == cache;
    }
  }

  lemma FewerKeys(some: set<Ip>, all: set<Ip>, x: Ip)
    requires some <= all && x in all && x !in some
    ensures |some| < |all|
  {
    FewerOrSame(some, all - {x});
  }

  lemma {:induction false} FewerOrSame(some: set<Ip>, all: set<Ip>)
    requires some <= all
    ensures |some| <= |all|
  {
    if some == {} {
    } else {
      var x :| x in some;
      FewerOrSame(some - {x}, all - {x});
    }
  }

  lemma LookupShrinks(cache: Cache, ip: Ip, now: int)
    ensures |Lookup(cache, ip, now).1| <= |cache|
  {
    if ip in cache {
      assert (cache - {ip}).Keys == cache.Keys - {ip};
    }
  }

  // ── enrichIP by any number of callers ───────────────────────────────────

  type Caller = nat

  /** Where a caller of enrichIP stands. */
  datatype Pc =
    | Asked(ip: Ip)
    | Missed(ip: Ip)                                   // not in the cache
    | Waiting(ip: Ip, leader: Caller)                  // on the leader's done channel
    | Looking(ip: Ip)                                  // registered, lookup running
    | FoundIt(ip: Ip, d: Enrichment, partial: bool)    // f.data = d is next
    | Published(ip: Ip, d: Enrichment, partial: bool)  // storeIP is next
    | Unwinding(ip: Ip, result: Option<Enrichment>)    // deferred delete is next
    | Removed(ip: Ip, result: Option<Enrichment>)      // close(f.done) is next
    | Led(ip: Ip, result: Option<Enrichment>)          // over; None if its lookup panicked
    | Hit(ip: Ip, d: Enrichment, e: Entry, served: nat)
    | Joined(ip: Ip, leader: Caller, result: Option<Enrichment>)

  /** A flight is named by the caller that leads it. */
  datatype Flight = Flight(ip: Ip, data: Option<Enrichment>, done: bool)

  datatype State = State(now: nat, cache: Cache, inflight: map<Ip, Caller>,
                         flights: map<Caller, Flight>, callers: map<Caller, Pc>)

  const INIT := State(0, map[], map[], map[], map[])

  datatype Step =
    | Tick(seconds: nat)
    | Ask(c: Caller, ip: Ip)
    | CheckCache(c: Caller)
    | LeadOrJoin(c: Caller)
    | LookupReturns(c: Caller, d: Enrichment, partial: bool)
    | LookupPanics(c: Caller)
    | Publish(c: Caller)
    | Store(c: Caller)
    | Remove(c: Caller)
    | CloseDone(c: Caller)
    | Wake(c: Caller)

  predicate Enabled(s: State, step: Step) {
    match step
    case Tick(_) => true
    case Ask(c, _) => c !in s.callers
    case CheckCache(c) => c in s.callers && s.callers[c].Asked?
    case LeadOrJoin(c) => c in s.callers && s.callers[c].Missed?
    case LookupReturns(c, _, _) => c in s.callers && s.callers[c].Looking?
    case LookupPanics(c) => c in s.callers && s.callers[c].Looking?
    case Publish(c) => c in s.callers && s.callers[c].FoundIt?
    case Store(c) => c in s.callers && s.callers[c].Published?
    case Remove(c) => c in s.callers && s.callers[c].Unwinding?
    case CloseDone(c) => c in s.callers && s.callers[c].Removed?
    case Wake(c) =>
      && c in s.callers && s.callers[c].Waiting?
      && s.callers[c].leader in s.flights && s.flights[s.callers[c].leader].done
  }

  function Moved(s: State, c: Caller, pc: Pc): State {
    s.(callers := s.callers[c := pc])
  }

  function Fly(s: State, c: Caller, f: Flight): State {
    s.(flights := s.flights[c := f])
  }

  function Apply(s: State, step: Step): State
    requires Enabled(s, step)
  {
    match step
    case Tick(n) => s.(now := s.now + n)
    case Ask(c, ip) => Moved(s, c, Asked(ip))
    case CheckCache(c) =>
      var ip := s.callers[c].ip;
      var (data, cache) := Lookup(s.cache, ip, s.now);
      (match data
       case Some(d) => Moved(s, c, Hit(ip, d, s.cache[ip], s.now)).(cache := cache)
       case None => Moved(s, c, Missed(ip)).(cache := cache))
    case LeadOrJoin(c) =>
      var ip := s.callers[c].ip;
      if ip in s.inflight then Moved(s, c, Waiting(ip, s.inflight[ip]))
      else Fly(Moved(s, c, Looking(ip)), c, Flight(ip, None, false)).(inflight := s.inflight[ip := c])
    case LookupReturns(c, d, partial) => Moved(s, c, FoundIt(s.callers[c].ip, d, partial))
    case LookupPanics(c) => Moved(s, c, Unwinding(s.callers[c].ip, None))
    case Publish(c) =>
      var pc := s.callers[c];
      Fly(Moved(s, c, Published(pc.ip, pc.d, pc.partial)), c, Flight(pc.ip, Some(pc.d), false))
    case Store(c) =>
      var pc := s.callers[c];
      Moved(s, c, Unwinding(pc.ip, Some(pc.d))).(cache := Stored(s.cache, pc.ip, pc.d, pc.partial, s.now))
    case Remove(c) =>
      Moved(s, c, Removed(s.callers[c].ip, s.callers[c].result)).(inflight := s.inflight - {s.callers[c].ip})
    case CloseDone(c) =>
      var pc := s.callers[c];
      Fly(Moved(s, c, Led(pc.ip, pc.result)), c, Flight(pc.ip, pc.result, true))
    case Wake(c) =>
      var pc := s.callers[c];
      Moved(s, c, Joined(pc.ip, pc.leader, s.flights[pc.leader].data))
  }

  /** Between registering its in-flight entry and removing it. */
  predicate Leading(pc: Pc) {
    pc.Looking? || pc.FoundIt? || pc.Published? || pc.Unwinding?
  }

  /** What a leader's flight holds, by where the leader stands. */
  function LeaderData(pc: Pc): Option<Enrichment> {
    match pc
    case Published(_, d, _) => Some(d)
    case Unwinding(_, result) => result
    case Removed(_, result) => result
    case Led(_, result) => result
    case _ => None
  }

  predicate Leader(pc: Pc) {
    Leading(pc) || pc.Removed? || pc.Led?
  }

  predicate CallerOk(s: State, c: Caller)
    requires c in s.callers
  {
    var pc := s.callers[c];
    && (Leading(pc) ==> pc.ip in s.inflight && s.inflight[pc.ip] == c)
    && (Leader(pc) <==> c in s.flights)
    && (Leader(pc) ==> s.flights[c] == Flight(pc.ip, LeaderData(pc), pc.Led?))
    && (pc.Waiting? ==> pc.leader in s.flights && s.flights[pc.leader].ip == pc.ip)
    && (pc.Joined? ==> pc.leader in s.flights && s.flights[pc.leader] == Flight(pc.ip, pc.result, true))
    && (pc.Hit? ==> pc.e.data == pc.d && !Expired(pc.e, pc.served) && pc.served <= s.now)
  }

  /** A lookup for `ip` has answered `d`. */
  predicate Answered(s: State, ip: Ip, d: Enrichment) {
    exists l :: l in s.flights && s.flights[l].ip == ip && s.flights[l].data == Some(d)
  }

  ghost predicate Callers(s: State) {
    && (forall c <- s.callers :: CallerOk(s, c))
    && s.flights.Keys <= s.callers.Keys
    && (forall ip <- s.inflight ::
          s.inflight[ip] in s.callers && Leading(s.callers[s.inflight[ip]]) && s.callers[s.inflight[ip]].ip == ip)
  }

  ghost predicate CacheOk(s: State) {
    && |s.cache| <= MAX_IP_CACHE
    && (forall ip <- s.cache :: s.cache[ip].at <= s.now && Answered(s, ip, s.cache[ip].data))
    && (forall c <- s.callers :: s.callers[c].Hit? ==> Answered(s, s.callers[c].ip, s.callers[c].d))
  }

  ghost predicate Inv(s: State) {
    Callers(s) && CacheOk(s)
  }

  /** The caller a step belongs to. */
  function Mover(step: Step): Option<Caller> {
    match step
    case Tick(_) => None
    case Ask(c, _) => Some(c)
    case CheckCache(c) => Some(c)
    case LeadOrJoin(c) => Some(c)
    case LookupReturns(c, _, _) => Some(c)
    case LookupPanics(c) => Some(c)
    case Publish(c) => Some(c)
    case Store(c) => Some(c)
    case Remove(c) => Some(c)
    case CloseDone(c) => Some(c)
    case Wake(c) => Some(c)
  }

  predicate OfLeader(step: Step) {
    step.LookupReturns? || step.LookupPanics? || step.Publish? || step.Store? || step.Remove? || step.CloseDone?
  }

  lemma AskerKept(s: State, c: Caller, ip: Ip)
    requires Callers(s) && Enabled(s, Ask(c, ip))
    ensures var t := Apply(s, Ask(c, ip)); c in t.callers && CallerOk(t, c)
  {
    hide Answered, Stored, Lookup;
  }

  lemma CheckerKept(s: State, c: Caller)
    requires c in s.callers && CallerOk(s, c) && Enabled(s, CheckCache(c))
    ensures var t := Apply(s, CheckCache(c)); c in t.callers && CallerOk(t, c)
  {
    hide Answered, Stored;
  }

  lemma JoinerKept(s: State, c: Caller)
    requires Callers(s) && Enabled(s, LeadOrJoin(c))
    ensures var t := Apply(s, LeadOrJoin(c)); c in t.callers && CallerOk(t, c)
  {
    hide Answered, Stored, Lookup;
    assert CallerOk(s, c);
    if s.callers[c].ip in s.inflight {
      assert CallerOk(s, s.inflight[s.callers[c].ip]);
    }
    hide Callers;
  }

  lemma WakerKept(s: State, c: Caller)
    requires Callers(s) && Enabled(s, Wake(c))
    ensures var t := Apply(s, Wake(c)); c in t.callers && CallerOk(t, c)
  {
    hide Answered, Stored, Lookup;
    assert CallerOk(s, c);
    assert CallerOk(s, s.callers[c].leader);
    hide Callers;
  }

  lemma NewcomerKept(s: State, step: Step, c: Caller)
    requires Callers(s) && Enabled(s, step) && Mover(step) == Some(c) && !OfLeader(step)
    ensures c in Apply(s, step).callers && CallerOk(Apply(s, step), c)
  {
    assert !step.Ask? ==> CallerOk(s, c);
    hide CallerOk, Callers, Apply;
    match step
    case Ask(_, ip) => AskerKept(s, c, ip);
    case CheckCache(_) => CheckerKept(s, c);
    case LeadOrJoin(_) => JoinerKept(s, c);
    case Wake(_) => WakerKept(s, c);
    case _ =>
  }

  /** Leader steps that touch neither the in-flight table nor the flight. */
  predicate Quiet(step: Step) {
    step.LookupReturns? || step.LookupPanics? || step.Store?
  }

  lemma QuietLeaderKept(s: State, step: Step, c: Caller)
    requires Enabled(s, step) && Mover(step) == Some(c) && Quiet(step) && CallerOk(s, c)
    ensures c in Apply(s, step).callers && CallerOk(Apply(s, step), c)
  {
    hide Stored, Lookup;
  }

  lemma LoudLeaderKept(s: State, step: Step, c: Caller)
    requires Enabled(s, step) && Mover(step) == Some(c) && OfLeader(step) && !Quiet(step) && CallerOk(s, c)
    ensures c in Apply(s, step).callers && CallerOk(Apply(s, step), c)
  {
    hide Stored, Lookup;
  }

  lemma MoverKept(s: State, step: Step, c: Caller)
    requires Callers(s) && Enabled(s, step) && Mover(step) == Some(c)
    ensures c in Apply(s, step).callers && CallerOk(Apply(s, step), c)
  {
    if OfLeader(step) {
      assert CallerOk(s, c);
      hide CallerOk, Callers, Apply;
      if Quiet(step) {
        QuietLeaderKept(s, step, c);
      } else {
        LoudLeaderKept(s, step, c);
      }
    } else {
      NewcomerKept(s, step, c);
    }
    hide *;
  }

  /** Where a caller stands and what its flight holds, seen from the others' steps. */
  lemma OthersFlight(s: State, step: Step, x: Caller)
    requires Enabled(s, step) && Mover(step) != Some(x)
    ensures var t := Apply(s, step);
            && (x in t.flights <==> x in s.flights) && (x in s.flights ==> t.flights[x] == s.flights[x])
  {
    hide Stored, Lookup;
  }

  /** A flight belongs to one address and its answer, once there, stays. */
  lemma FlightStays(s: State, step: Step, l: Caller)
    requires Callers(s) && Enabled(s, step) && l in s.flights
    ensures var t := Apply(s, step);
            && l in t.flights && t.flights[l].ip == s.flights[l].ip
            && (s.flights[l].data.Some? || s.flights[l].done ==> t.flights[l].data == s.flights[l].data)
            && (s.flights[l].done ==> t.flights[l].done)
  {
    assert CallerOk(s, l);
    if Mover(step) != Some(l) {
      OthersFlight(s, step, l);
    }
    hide Stored, Lookup, Callers;
  }

  lemma OthersInflight(s: State, step: Step, x: Caller)
    requires Callers(s) && Enabled(s, step) && Mover(step) != Some(x) && x in s.callers && Leading(s.callers[x])
    ensures var t, ip := Apply(s, step), s.callers[x].ip;
            ip in t.inflight && t.inflight[ip] == x
  {
    assert CallerOk(s, x);
    if Mover(step).Some? && Mover(step).value in s.callers {
      assert CallerOk(s, Mover(step).value);
    }
    hide Stored, Lookup, Callers, Answered;
  }

  lemma OtherKept(s: State, step: Step, x: Caller)
    requires Callers(s) && Enabled(s, step) && Mover(step) != Some(x) && x in s.callers
    ensures x in Apply(s, step).callers && CallerOk(Apply(s, step), x)
  {
    OthersUnmoved(s, step, x);
    OthersFlight(s, step, x);
    Clock(s, step);
    assert CallerOk(s, x);
    var pc := s.callers[x];
    if Leading(pc) {
      OthersInflight(s, step, x);
    }
    if pc.Waiting? || pc.Joined? {
      FlightStays(s, step, pc.leader);
    }
    hide Apply, Callers, Enabled, Answered;
  }

  lemma Clock(s: State, step: Step)
    requires Enabled(s, step)
    ensures s.now <= Apply(s, step).now
  {
    hide Stored, Lookup;
  }

  /** An in-flight entry is an old one, or its leader has just registered it. */
  lemma InflightOrigin(s: State, step: Step, ip: Ip)
    requires Enabled(s, step) && ip in Apply(s, step).inflight
    ensures var l := Apply(s, step).inflight[ip];
            || (step == LeadOrJoin(l) && l in s.callers && s.callers[l].ip == ip && Apply(s, step).callers[l] == Looking(ip))
            || (ip in s.inflight && l == s.inflight[ip]
                && !(step.Remove? && s.callers[step.c].ip == ip))
  {
    hide Stored, Lookup;
  }

  lemma LeaderStays(s: State, step: Step, l: Caller)
    requires Enabled(s, step) && Mover(step) == Some(l) && l in s.callers && Leading(s.callers[l]) && !step.Remove?
    ensures var t := Apply(s, step); l in t.callers && Leading(t.callers[l]) && t.callers[l].ip == s.callers[l].ip
  {
    hide Stored, Lookup;
  }

  lemma InflightKept(s: State, step: Step, ip: Ip)
    requires Callers(s) && Enabled(s, step) && ip in Apply(s, step).inflight
    ensures var t := Apply(s, step);
            t.inflight[ip] in t.callers && Leading(t.callers[t.inflight[ip]]) && t.callers[t.inflight[ip]].ip == ip
  {
    InflightOrigin(s, step, ip);
    var l := Apply(s, step).inflight[ip];
    if step != LeadOrJoin(l) {
      if Mover(step) == Some(l) {
        LeaderStays(s, step, l);
      } else {
        OthersUnmoved(s, step, l);
      }
    } else {
      MoverThere(s, step, l);
    }
    hide Apply, CallerOk;
  }

  lemma MoverThere(s: State, step: Step, c: Caller)
    requires Enabled(s, step) && Mover(step) == Some(c)
    ensures c in Apply(s, step).callers
  {
    hide Stored, Lookup;
  }

  lemma CallersKept(s: State, step: Step)
    requires Callers(s) && Enabled(s, step)
    ensures Callers(Apply(s, step))
  {
    var t := Apply(s, step);
    assert t.flights.Keys <= t.callers.Keys && t.callers.Keys <= s.callers.Keys + match Mover(step) case Some(c) => {c} case None => {} by {
      hide Stored, Lookup;
    }
    forall x <- t.callers ensures CallerOk(t, x) {
      if Mover(step) == Some(x) {
        MoverKept(s, step, x);
      } else {
        OtherKept(s, step, x);
      }
    }
    forall ip <- t.inflight
      ensures t.inflight[ip] in t.callers && Leading(t.callers[t.inflight[ip]]) && t.callers[t.inflight[ip]].ip == ip
    {
      InflightKept(s, step, ip);
    }
    hide Apply, CallerOk, Enabled;
  }

  lemma AnsweredKept(s: State, step: Step, ip: Ip, d: Enrichment)
    requires Callers(s) && Enabled(s, step) && Answered(s, ip, d)
    ensures Answered(Apply(s, step), ip, d)
  {
    var l :| l in s.flights && s.flights[l].ip == ip && s.flights[l].data == Some(d);
    FlightStays(s, step, l);
    hide Apply, Callers;
    assert l in Apply(s, step).flights && Apply(s, step).flights[l].ip == ip && Apply(s, step).flights[l].data == Some(d);
  }

  /** An entry of the cache after a step was there before, or is what a leader
      stored just now. */
  lemma EntryOrigin(s: State, step: Step, ip: Ip)
    requires Callers(s) && Enabled(s, step) && ip in Apply(s, step).cache
    ensures var e := Apply(s, step).cache[ip];
            || (ip in s.cache && e == s.cache[ip])
            || (e.at == s.now && Answered(s, ip, e.data))
  {
    if step.Store? {
      var pc := s.callers[step.c];
      assert CallerOk(s, step.c);
      assert s.flights[step.c].ip == pc.ip && s.flights[step.c].data == Some(pc.d);
    }
  }

  lemma HitOrigin(s: State, step: Step, c: Caller)
    requires Callers(s) && Enabled(s, step) && c in Apply(s, step).callers && Apply(s, step).callers[c].Hit?
    ensures var pc := Apply(s, step).callers[c];
            || (c in s.callers && s.callers[c] == pc)
            || (pc.ip in s.cache && s.cache[pc.ip].data == pc.d)
  {
    hide Answered, Stored;
  }

  lemma CacheKept(s: State, step: Step)
    requires Inv(s) && Enabled(s, step)
    ensures CacheOk(Apply(s, step))
  {
    hide Answered, Callers, Stored, Lookup;
    var t := Apply(s, step);
    assert |t.cache| <= MAX_IP_CACHE by {
      if step.CheckCache? {
        LookupShrinks(s.cache, s.callers[step.c].ip, s.now);
      } else if step.Store? {
        var pc := s.callers[step.c];
        StoredIsBounded(s.cache, pc.ip, pc.d, pc.partial, s.now);
      }
    }
    forall ip <- t.cache ensures t.cache[ip].at <= t.now && Answered(t, ip, t.cache[ip].data) {
      EntryOrigin(s, step, ip);
      AnsweredKept(s, step, ip, t.cache[ip].data);
    }
    forall c <- t.callers | t.callers[c].Hit? ensures Answered(t, t.callers[c].ip, t.callers[c].d) {
      HitOrigin(s, step, c);
      AnsweredKept(s, step, t.callers[c].ip, t.callers[c].d);
    }
  }

  lemma StepKeeps(s: State, step: Step)
    requires Inv(s) && Enabled(s, step)
    ensures Inv(Apply(s, step))
  {
    CallersKept(s, step);
    CacheKept(s, step);
    hide Apply, Callers, CacheOk, Enabled;
  }

  ghost predicate Reaches(s0: State, steps: seq<Step>, s: State)
    decreases |steps|
  {
    if steps == [] then s == s0
    else Enabled(s0, steps[0]) && Reaches(Apply(s0, steps[0]), steps[1..], s)
  }

  lemma {:induction false} RunKeeps(s0: State, steps: seq<Step>, s: State)
    requires Inv(s0) && Reaches(s0, steps, s)
    ensures Inv(s)
    decreases |steps|
  {
    hide Apply, Enabled, Inv;
    if steps == [] {
    } else {
      StepKeeps(s0, steps[0]);
      RunKeeps(Apply(s0, steps[0]), steps[1..], s);
    }
  }

  /** Single flight, over every interleaving of any number of callers: two callers
      are never between registering and removing for the same address, so at most
      one lookup per address runs, and an in-flight entry exists exactly while its
      leader is there. */
  lemma SingleFlight(steps: seq<Step>, s: State, c1: Caller, c2: Caller)
    requires Reaches(INIT, steps, s)
    requires c1 in s.callers && Leading(s.callers[c1])
    ensures s.callers[c1].ip in s.inflight && s.inflight[s.callers[c1].ip] == c1
    ensures c2 in s.callers && Leading(s.callers[c2]) && s.callers[c2].ip == s.callers[c1].ip ==> c1 == c2
    ensures forall ip <- s.inflight :: s.inflight[ip] in s.callers && Leading(s.callers[s.inflight[ip]])
  {
    RunKeeps(INIT, steps, s);
    assert CallerOk(s, c1);
    if c2 in s.callers {
      assert CallerOk(s, c2);
    }
  }

  // ── A lookup that panics ────────────────────────────────────────────────

  /** What a caller's place says of its own lookup: past it, the result is nil
      exactly if it panicked; anywhere else it has not panicked. */
  predicate PanicShows(s: State, past: seq<Step>, c: Caller) {
    if c in s.callers && (s.callers[c].Unwinding? || s.callers[c].Removed? || s.callers[c].Led?)
    then s.callers[c].result.None? <==> LookupPanics(c) in past
    else LookupPanics(c) !in past
  }

  lemma PanicStep(s: State, past: seq<Step>, step: Step, c: Caller)
    requires Enabled(s, step) && PanicShows(s, past, c)
    ensures PanicShows(Apply(s, step), past + [step], c)
  {
    assert LookupPanics(c) in past + [step] <==> LookupPanics(c) in past || step == LookupPanics(c);
    if Mover(step) == Some(c) {
      OwnPanic(s, past, step, c);
    } else {
      OthersUnmoved(s, step, c);
    }
  }

  lemma OthersUnmoved(s: State, step: Step, c: Caller)
    requires Enabled(s, step) && Mover(step) != Some(c)
    ensures var t := Apply(s, step);
            (c in t.callers <==> c in s.callers) && (c in s.callers ==> t.callers[c] == s.callers[c])
  {
    hide Stored, Lookup;
  }

  lemma OwnPanic(s: State, past: seq<Step>, step: Step, c: Caller)
    requires Enabled(s, step) && Mover(step) == Some(c) && PanicShows(s, past, c)
    ensures PanicShows(Apply(s, step), past + [step], c)
  {
    hide Stored, Lookup;
    assert LookupPanics(c) in past + [step] <==> LookupPanics(c) in past || step == LookupPanics(c);
  }

  lemma {:induction false} PanicsShow(s0: State, past: seq<Step>, steps: seq<Step>, s: State, c: Caller)
    requires PanicShows(s0, past, c) && Reaches(s0, steps, s)
    ensures PanicShows(s, past + steps, c)
    decreases |steps|
  {
    hide Apply, Enabled, PanicShows;
    if steps == [] {
      assert past + [] == past;
    } else {
      PanicStep(s0, past, steps[0], c);
      PanicsShow(Apply(s0, steps[0]), past + [steps[0]], steps[1..], s, c);
      assert past + [steps[0]] + steps[1..] == past + steps;
    }
  }

  /** A caller that waited wakes with the result of the leader it joined, for its
      own address, and over every run that result is nil exactly when the leader's
      lookup panicked instead of returning. */
  lemma WaitersGetTheirLeadersResult(steps: seq<Step>, s: State, c: Caller)
    requires Reaches(INIT, steps, s) && c in s.callers && s.callers[c].Joined?
    ensures var pc := s.callers[c];
            && pc.leader in s.callers
            && s.callers[pc.leader] == Led(pc.ip, pc.result)
            && (pc.result.None? <==> LookupPanics(pc.leader) in steps)
  {
    RunKeeps(INIT, steps, s);
    assert CallerOk(s, c);
    assert CallerOk(s, s.callers[c].leader);
    PanicsShow(INIT, [], steps, s, s.callers[c].leader);
    assert [] + steps == steps;
  }

  ghost predicate Reachable(s: State) {
    exists steps :: Reaches(INIT, steps, s)
  }

  lemma Then(s: State, step: Step) returns (t: State)
    requires Reachable(s) && Enabled(s, step)
    ensures t == Apply(s, step) && Reachable(t)
  {
    t := Apply(s, step);
    var steps :| Reaches(INIT, steps, s);
    Append(INIT, steps, s, step);
  }

  lemma {:induction false} Append(s0: State, steps: seq<Step>, s: State, step: Step)
    requires Reaches(s0, steps, s) && Enabled(s, step)
    ensures Reaches(s0, steps + [step], Apply(s, step))
    decreases |steps|
  {
    hide Apply, Enabled;
    if steps == [] {
      assert Reaches(Apply(s, step), [], Apply(s, step));
      assert ([] + [step])[1..] == [];
    } else {
      Append(Apply(s0, steps[0]), steps[1..], s, step);
      assert (steps + [step])[1..] == steps[1..] + [step];
    }
  }

  lemma SecondJoins(ip: Ip) returns (s: State)
    ensures Reachable(s) && s.callers == map[0 := Looking(ip), 1 := Waiting(ip, 0)]
    ensures s.inflight == map[ip := 0] && s.flights == map[0 := Flight(ip, None, false)] && s.cache == map[]
  {
    assert Reaches(INIT, [], INIT);
    hide Reachable, Stored;
    s := Then(INIT, Ask(0, ip));
    s := Then(s, Ask(1, ip));
    s := Then(s, CheckCache(0));
    s := Then(s, CheckCache(1));
    s := Then(s, LeadOrJoin(0));
    s := Then(s, LeadOrJoin(1));
  }

  /** It happens: two callers ask for one address, the second joins the first, and
      when the first one's lookup panics the second wakes with nil. */
  lemma WaiterWakesWithNil(ip: Ip) returns (s: State)
    ensures Reachable(s) && 1 in s.callers && s.callers[1] == Joined(ip, 0, None)
  {
    s := SecondJoins(ip);
    hide Reachable, Stored, Lookup;
    s := Then(s, LookupPanics(0));
    s := Then(s, Remove(0));
    s := Then(s, CloseDone(0));
    s := Then(s, Wake(1));
  }

  /** The cache never outgrows its bound, no answer is served at or past its time
      to live, and every answer served is one a lookup of that address gave. */
  lemma CacheServesFreshAnswers(steps: seq<Step>, s: State, c: Caller)
    requires Reaches(INIT, steps, s)
    ensures |s.cache| <= 4096
    ensures c in s.callers && s.callers[c].Hit? ==>
              var pc := s.callers[c];
              && pc.served - pc.e.at < (if pc.e.partial then 300 else 3600) && pc.d == pc.e.data
              && Answered(s, pc.ip, pc.d)
  {
    RunKeeps(INIT, steps, s);
    if c in s.callers {
      assert CallerOk(s, c);
    }
  }

  // ── What is stored is served ────────────────────────────────────────────

  /** What a caller's place says of its past: whose address it asked for, what its
      lookup returned, and that it has stored what it returns. */
  ghost predicate PastShows(s: State, past: seq<Step>, c: Caller) {
    c in s.callers ==>
      var pc := s.callers[c];
      && Ask(c, pc.ip) in past
      && (pc.FoundIt? || pc.Published? ==> LookupReturns(c, pc.d, pc.partial) in past)
      && ((pc.Unwinding? || pc.Removed? || pc.Led?) && pc.result.Some? ==>
            Store(c) in past && exists partial :: LookupReturns(c, pc.result.value, partial) in past)
  }

  lemma PastStep(s: State, past: seq<Step>, step: Step, c: Caller)
    requires Enabled(s, step) && PastShows(s, past, c)
    ensures PastShows(Apply(s, step), past + [step], c)
  {
    PastGrows(s, past, step, c);
    if Mover(step) == Some(c) {
      OwnPast(s, past, step, c);
    } else {
      OthersUnmoved(s, step, c);
      hide Apply, Enabled;
    }
  }

  lemma PastGrows(s: State, past: seq<Step>, step: Step, c: Caller)
    requires PastShows(s, past, c)
    ensures PastShows(s, past + [step], c)
  {
    assert forall x <- past :: x in past + [step];
  }

  lemma OwnPast(s: State, past: seq<Step>, step: Step, c: Caller)
    requires Enabled(s, step) && Mover(step) == Some(c) && PastShows(s, past + [step], c)
    ensures PastShows(Apply(s, step), past + [step], c)
  {
    hide Stored, Lookup;
    assert step in past + [step];
  }

  lemma {:induction false} PastsShow(s0: State, past: seq<Step>, steps: seq<Step>, s: State, c: Caller)
    requires PastShows(s0, past, c) && Reaches(s0, steps, s)
    ensures PastShows(s, past + steps, c)
    decreases |steps|
  {
    hide Apply, Enabled, PastShows;
    if steps == [] {
      assert past + [] == past;
    } else {
      PastStep(s0, past, steps[0], c);
      PastsShow(Apply(s0, steps[0]), past + [steps[0]], steps[1..], s, c);
      assert past + [steps[0]] + steps[1..] == past + steps;
    }
  }

  /** Over every run a caller's result is for the address it asked for, and a leader
      returns what its own lookup returned, once it has stored it. */
  lemma LeadersStore(steps: seq<Step>, s: State, c: Caller)
    requires Reaches(INIT, steps, s) && c in s.callers
    ensures Ask(c, s.callers[c].ip) in steps
    ensures s.callers[c].Led? && s.callers[c].result.Some? ==>
              Store(c) in steps && exists partial :: LookupReturns(c, s.callers[c].result.value, partial) in steps
  {
    PastsShow(INIT, [], steps, s, c);
    assert [] + steps == steps;
  }

  /** Storing puts the answer of the leader's own lookup into the cache, marked as
      that lookup marked it and dated now. */
  lemma StoringIsCaching(steps: seq<Step>, s: State, c: Caller)
    requires Reaches(INIT, steps, s) && Enabled(s, Store(c))
    ensures var ip, t := s.callers[c].ip, Apply(s, Store(c));
            && ip in t.cache && t.cache[ip].at == s.now
            && LookupReturns(c, t.cache[ip].data, t.cache[ip].partial) in steps
  {
    PastsShow(INIT, [], steps, s, c);
    assert [] + steps == steps;
  }

  function Stores(steps: seq<Step>): nat {
    if steps == [] then 0 else (if steps[0].Store? then 1 else 0) + Stores(steps[1..])
  }

  lemma {:induction false} ClockOfRun(s0: State, steps: seq<Step>, s: State)
    requires Reaches(s0, steps, s)
    ensures s0.now <= s.now
    decreases |steps|
  {
    hide Apply, Enabled;
    if steps == [] {
    } else {
      Clock(s0, steps[0]);
      ClockOfRun(Apply(s0, steps[0]), steps[1..], s);
    }
  }

  /** One step keeps an entry that is not too old, or is a store of its address, and
      a store is the only step to add an entry. */
  lemma EntryStays(s: State, step: Step, ip: Ip)
    requires Enabled(s, step) && ip in s.cache && !Outlived(s.cache[ip], s.now)
    requires step.Store? ==> |s.cache| < 4096
    ensures var t := Apply(s, step);
            && ((ip in t.cache && t.cache[ip] == s.cache[ip]) || (step.Store? && s.callers[step.c].ip == ip))
            && |t.cache| <= |s.cache| + if step.Store? then 1 else 0
  {
    if step.CheckCache? {
      LookupShrinks(s.cache, s.callers[step.c].ip, s.now);
    } else if step.Store? {
      assert Apply(s, step).cache.Keys == s.cache.Keys + {s.callers[step.c].ip};
    }
  }

  lemma {:induction false} AddressStays(s0: State, steps: seq<Step>, s: State, c: Caller)
    requires Reaches(s0, steps, s) && c in s0.callers
    ensures c in s.callers && s.callers[c].ip == s0.callers[c].ip
    decreases |steps|
  {
    hide Apply, Enabled;
    if steps == [] {
    } else {
      OwnAddress(s0, steps[0], c);
      AddressStays(Apply(s0, steps[0]), steps[1..], s, c);
    }
  }

  lemma OwnAddress(s: State, step: Step, c: Caller)
    requires Enabled(s, step) && c in s.callers
    ensures var t := Apply(s, step); c in t.callers && t.callers[c].ip == s.callers[c].ip
  {
    hide Stored, Lookup;
  }

  /** Until it is too old, or another lookup of its address is stored, or the cache
      fills up, an entry stays through every run. */
  lemma {:induction false} EntryLasts(s0: State, steps: seq<Step>, s: State, ip: Ip)
    requires Reaches(s0, steps, s) && ip in s0.cache && |s0.cache| + Stores(steps) <= 4096
    requires !Outlived(s0.cache[ip], s.now)
    ensures || (ip in s.cache && s.cache[ip] == s0.cache[ip])
            || exists c <- s.callers :: Store(c) in steps && s.callers[c].ip == ip
    decreases |steps|
  {
    hide Apply, Enabled;
    if steps == [] {
    } else {
      var step, s1 := steps[0], Apply(s0, steps[0]);
      Clock(s0, step);
      ClockOfRun(s1, steps[1..], s);
      EntryStays(s0, step, ip);
      if ip in s1.cache && s1.cache[ip] == s0.cache[ip] {
        EntryLasts(s1, steps[1..], s, ip);
        assert forall x <- steps[1..] :: x in steps;
      } else {
        StorerThere(s0, step);
        AddressStays(s1, steps[1..], s, step.c);
        assert Store(step.c) == step && step in steps;
      }
    }
  }

  lemma StorerThere(s: State, step: Step)
    requires Enabled(s, step) && step.Store?
    ensures var t := Apply(s, step); step.c in s.callers && step.c in t.callers && t.callers[step.c].ip == s.callers[step.c].ip
  {
    hide Stored;
  }

  /** So whoever asks for the address meanwhile is answered from the cache. */
  lemma FreshIsServed(s0: State, steps: seq<Step>, s: State, ip: Ip, c: Caller)
    requires Reaches(s0, steps, s) && ip in s0.cache && |s0.cache| + Stores(steps) <= 4096
    requires s.now - s0.cache[ip].at < if s0.cache[ip].partial then 5 * 60 else 60 * 60
    requires forall x <- s.callers | Store(x) in steps :: s.callers[x].ip != ip
    requires c in s.callers && s.callers[c] == Asked(ip)
    ensures Apply(s, CheckCache(c)).callers[c] == Hit(ip, s0.cache[ip].data, s0.cache[ip], s.now)
  {
    EntryLasts(s0, steps, s, ip);
    hide Reaches, Stored;
  }

  /** The steps a caller still has to take, waking included. */
  function StepsLeft(pc: Pc): nat {
    match pc
    case Asked(_) => 7
    case Missed(_) => 6
    case Looking(_) => 5
    case FoundIt(_, _, _) => 4
    case Published(_, _, _) => 3
    case Unwinding(_, _) => 2
    case Removed(_, _) => 1
    case Waiting(_, _) => 1
    case _ => 0
  }

  /** Every step of a caller brings it nearer its end, and moves no other. */
  lemma OwnStepsShrink(s: State, step: Step, c: Caller)
    requires Enabled(s, step) && c in s.callers
    ensures if Mover(step) == Some(c) then StepsLeft(Apply(s, step).callers[c]) < StepsLeft(s.callers[c])
            else Apply(s, step).callers[c] == s.callers[c]
  {
    hide Stored;
  }

  /** No waiter waits in vain: its leader has closed the channel, so that the
      waiter can wake, or has a step of its own to take. */
  lemma LeaderComesThrough(steps: seq<Step>, s: State, c: Caller)
    requires Reaches(INIT, steps, s) && c in s.callers && s.callers[c].Waiting?
    ensures var l := s.callers[c].leader;
            Enabled(s, Wake(c)) || exists step :: Mover(step) == Some(l) && Enabled(s, step)
  {
    RunKeeps(INIT, steps, s);
    var l := s.callers[c].leader;
    assert CallerOk(s, c);
    assert CallerOk(s, l);
    hide Apply, Reaches, Callers, CacheOk, Lookup;
    if s.callers[l].Led? {
      assert Enabled(s, Wake(c));
    } else {
      var step := LeaderMoves(s, l);
    }
  }

  lemma LeaderMoves(s: State, l: Caller) returns (step: Step)
    requires l in s.callers && Leader(s.callers[l]) && !s.callers[l].Led?
    ensures Mover(step) == Some(l) && Enabled(s, step)
  {
    step := match s.callers[l]
      case Looking(_) => LookupPanics(l)
      case FoundIt(_, _, _) => Publish(l)
      case Published(_, _, _) => Store(l)
      case Unwinding(_, _) => Remove(l)
      case _ => CloseDone(l);
  }
}
