/** timeline.go: one record for each pair of a binary and a remote address, joined
    from the score changes and the events. */
module Timeline {
  import opened Prelude
  import opened Text
  import opened Breakdown

  // ── Remotes ─────────────────────────────────────────────────────────────

  /** The index of the last `c`, or None. */
  function FindLast(s: string, c: char): (i: Option<nat>)
    ensures i.Some? ==> i.value < |s| && s[i.value] == c && c !in s[i.value + 1..]
    ensures i.None? ==> c !in s
  {
    if s == "" then None
    else if s[|s| - 1] == c then Some(|s| - 1)
    else
      var i := FindLast(s[..|s| - 1], c);
      assert s == s[..|s| - 1] + [s[|s| - 1]];
      i
  }

  /** net.SplitHostPort, its host; None for each of its errors. */
  function SplitHost(s: string): Option<string> {
    match FindLast(s, ':')
    case None => None
    case Some(i) =>
      if s[0] == '[' then
        var end := Find(s, ']');
        if end == |s| || end + 1 == |s| || end + 1 != i then None
        else if '[' in s[1..] || ']' in s[end + 1..] then None
        else Some(s[1..end])
      else if ':' in s[..i] || '[' in s || ']' in s then None
      else Some(s[..i])
  }

  predicate IsBracket(c: char) {
    c == '[' || c == ']'
  }

  /** strings.Trim(h, "[]") */
  function Trim(s: string): string
    decreases |s|
  {
    if s == "" then ""
    else if IsBracket(s[0]) then Trim(s[1..])
    else if IsBracket(s[|s| - 1]) then Trim(s[..|s| - 1])
    else s
  }

  function RemoteHost(remote: string): string {
    match SplitHost(remote) case Some(h) => Trim(h) case None => remote
  }

  // ── Records ─────────────────────────────────────────────────────────────

  datatype Key = Key(exe: string, ip: string)

  /** `note` is everything else of an event. */
  datatype Event = Event(ts: string, exe: string, process: string, remote: string, note: string)

  datatype Change = Change(at: string, exe: string, ip: string, threat: int, breakdown: string)

  /** A score change with its breakdown in the reader's language. */
  datatype Shown = Shown(at: string, exe: string, ip: string, threat: int, breakdown: Localized)

  datatype Record = Record(
    key: Key, hostnames: seq<string>, blocked: bool, whitelisted: bool,
    process: string, firstSeen: string, lastSeen: string, threat: int, breakdown: Localized,
    scores: seq<Shown>, events: seq<Event>)
  {
    function WithScore(s: Shown): Record {
      var r := if scores == [] then this.(threat := s.threat, breakdown := s.breakdown) else this;
      r.(scores := scores + [s])
    }

    function WithEvent(ev: Event): Record {
      this.(process := if process == "" then ev.process else process, events := events + [ev])
    }

    function WithBounds(): Record {
      if events != [] then this.(lastSeen := events[0].ts, firstSeen := events[|events| - 1].ts)
      else if scores != [] then this.(lastSeen := scores[0].at, firstSeen := scores[|scores| - 1].at)
      else this
    }
  }

  /** What the join is given beside the two histories. */
  datatype Context = Context(
    known: set<string>, hosts: map<string, seq<string>>, blocked: set<string>,
    wlExe: set<string>, wlIP: set<string>, isPrivate: string -> bool)
  {
    function Show(s: Change): Shown {
      Shown(s.at, s.exe, s.ip, s.threat, Localize(known, s.breakdown))
    }

    function Blank(k: Key): Record {
      Record(k, if k.ip in hosts then hosts[k.ip] else [], k.ip in blocked,
             k.exe in wlExe || k.ip in wlIP, "", "", "", 0, AsIs(""), [], [])
    }

    predicate Included(ev: Event) {
      var ip := RemoteHost(ev.remote);
      ev.exe != "" && ip != "" && !isPrivate(ip)
    }
  }

  function KeyOfChange(s: Change): Key {
    Key(s.exe, s.ip)
  }

  function KeyOfEvent(ev: Event): Key {
    Key(ev.exe, RemoteHost(ev.remote))
  }

  // ── The join ────────────────────────────────────────────────────────────

  function KeysOf(ss: seq<Change>, es: seq<Event>, c: Context): set<Key> {
    (set s <- ss :: KeyOfChange(s)) + (set ev <- es | c.Included(ev) :: KeyOfEvent(ev))
  }

  function ScoresOf(ss: seq<Change>, k: Key, c: Context): seq<Shown> {
    if ss == [] then []
    else
      var s := ss[|ss| - 1];
      ScoresOf(ss[..|ss| - 1], k, c) + if KeyOfChange(s) == k then [c.Show(s)] else []
  }

  function EventsOf(es: seq<Event>, k: Key, c: Context): seq<Event> {
    if es == [] then []
    else
      var ev := es[|es| - 1];
      EventsOf(es[..|es| - 1], k, c) + if c.Included(ev) && KeyOfEvent(ev) == k then [ev] else []
  }

  /** The process of the newest event that names one. */
  function ProcessOf(es: seq<Event>): string {
    if es == [] then "" else if es[0].process != "" then es[0].process else ProcessOf(es[1..])
  }

  function Filled(k: Key, scores: seq<Shown>, events: seq<Event>, c: Context): Record {
    c.Blank(k).(
      process := ProcessOf(events),
      threat := if scores == [] then 0 else scores[0].threat,
      breakdown := if scores == [] then AsIs("") else scores[0].breakdown,
      scores := scores, events := events)
  }

  /** A pair's record before its bounds are set. */
  function Draft(k: Key, ss: seq<Change>, es: seq<Event>, c: Context): Record {
    Filled(k, ScoresOf(ss, k, c), EventsOf(es, k, c), c)
  }

  function RecordOf(k: Key, ss: seq<Change>, es: seq<Event>, c: Context): Record {
    Draft(k, ss, es, c).WithBounds()
  }

  // ── buildTimeline ───────────────────────────────────────────────────────

  class Entry {
    const base: Record
    var process: string
    var firstSeen: string
    var lastSeen: string
    var threat: int
    var breakdown: Localized
    var scores: seq<Shown>
    var events: seq<Event>

    function State(): Record
      reads this
    {
      base.(process := process, firstSeen := firstSeen, lastSeen := lastSeen, threat := threat,
            breakdown := breakdown, scores := scores, events := events)
    }

    constructor (r: Record)
      ensures State() == r
    {
      base := r;
      process, firstSeen, lastSeen := r.process, r.firstSeen, r.lastSeen;
      threat, breakdown, scores, events := r.threat, r.breakdown, r.scores, r.events;
    }

    method AddScore(s: Shown)
      modifies this
      ensures State() == old(State()).WithScore(s)
    {
      if scores == [] {
        threat, breakdown := s.threat, s.breakdown;
      }
      scores := scores + [s];
    }

    method AddEvent(ev: Event)
      modifies this
      ensures State() == old(State()).WithEvent(ev)
    {
      if process == "" {
        process := ev.process;
      }
      events := events + [ev];
    }

    method SetBounds()
      modifies this
      ensures State() == old(State()).WithBounds()
    {
      if |events| > 0 {
        lastSeen, firstSeen := events[0].ts, events[|events| - 1].ts;
      } else if |scores| > 0 {
        lastSeen, firstSeen := scores[0].at, scores[|scores| - 1].at;
      }
    }
  }

  /** The records of the input so far. */
  function Drafts(ss: seq<Change>, es: seq<Event>, c: Context): map<Key, Record> {
    map k <- KeysOf(ss, es, c) :: Draft(k, ss, es, c)
  }

  ghost function States(byKey: map<Key, Entry>): (m: map<Key, Record>)
    reads byKey.Values
  {
    map k <- byKey :: byKey[k].State()
  }

  /** One object for each key. */
  predicate Apart(byKey: map<Key, Entry>) {
    forall k <- byKey, l <- byKey :: k != l ==> byKey[k] != byKey[l]
  }

  function At(m: map<Key, Record>, k: Key, c: Context): Record {
    if k in m then m[k] else c.Blank(k)
  }

  method Get(byKey: map<Key, Entry>, k: Key, c: Context) returns (byKey': map<Key, Entry>, e: Entry)
    requires Apart(byKey)
    ensures Apart(byKey') && k in byKey' && e == byKey'[k]
    ensures fresh(byKey'.Values - byKey.Values)
    ensures k in byKey ==> byKey' == byKey
    ensures k !in byKey ==> byKey' == byKey[k := e] && fresh(e)
    ensures e.State() == At(States(byKey), k, c)
  {
    if k in byKey {
      byKey', e := byKey, byKey[k];
    } else {
      e := new Entry(c.Blank(k));
      byKey' := byKey[k := e];
    }
  }

  method PutScore(byKey: map<Key, Entry>, k: Key, s: Shown, c: Context) returns (byKey': map<Key, Entry>)
    requires Apart(byKey)
    modifies byKey.Values
    ensures Apart(byKey') && fresh(byKey'.Values - byKey.Values)
    ensures States(byKey') == old(States(byKey))[k := old(At(States(byKey), k, c)).WithScore(s)]
  {
    hide Entry.State, Record.WithScore, Context.Blank;
    var e: Entry;
    byKey', e := Get(byKey, k, c);
    e.AddScore(s);
    assert forall l <- byKey' | l != k :: byKey'[l] != e;
  }

  method PutEvent(byKey: map<Key, Entry>, k: Key, ev: Event, c: Context) returns (byKey': map<Key, Entry>)
    requires Apart(byKey)
    modifies byKey.Values
    ensures Apart(byKey') && fresh(byKey'.Values - byKey.Values)
    ensures States(byKey') == old(States(byKey))[k := old(At(States(byKey), k, c)).WithEvent(ev)]
  {
    hide Entry.State, Record.WithEvent, Context.Blank;
    var e: Entry;
    byKey', e := Get(byKey, k, c);
    e.AddEvent(ev);
    assert forall l <- byKey' | l != k :: byKey'[l] != e;
  }

  method JoinScores(scores: seq<Change>, c: Context) returns (byKey: map<Key, Entry>)
    ensures Apart(byKey) && fresh(byKey.Values)
    ensures States(byKey) == Drafts(scores, [], c)
  {
    hide Drafts, Localize;
    NothingJoined(c);
    byKey := map[];
    for i := 0 to |scores|
      invariant Apart(byKey) && fresh(byKey.Values)
      invariant States(byKey) == Drafts(scores[..i], [], c)
    {
      ScoreStep(scores, i, c);
      byKey := PutScore(byKey, KeyOfChange(scores[i]), c.Show(scores[i]), c);
    }
    assert scores[..|scores|] == scores;
  }

  method JoinEvents(byKey0: map<Key, Entry>, scores: seq<Change>, events: seq<Event>, c: Context)
    returns (byKey: map<Key, Entry>)
    requires Apart(byKey0) && States(byKey0) == Drafts(scores, [], c)
    modifies byKey0.Values
    ensures Apart(byKey) && fresh(byKey.Values - byKey0.Values)
    ensures States(byKey) == Drafts(scores, events, c)
  {
    hide Drafts, Localize, RemoteHost;
    byKey := byKey0;
    for i := 0 to |events|
      invariant Apart(byKey) && fresh(byKey.Values - byKey0.Values)
      invariant States(byKey) == Drafts(scores, events[..i], c)
    {
      var ev := events[i];
      var ip := RemoteHost(ev.remote);
      EventStep(scores, events, i, c);
      if ev.exe == "" || ip == "" || c.isPrivate(ip) {
        continue;
      }
      byKey := PutEvent(byKey, Key(ev.exe, ip), ev, c);
    }
    assert events[..|events|] == events;
  }

  lemma NothingJoined(c: Context)
    ensures Drafts([], [], c) == map[]
  {}

  lemma {:induction false} NoScores(ss: seq<Change>, k: Key, c: Context)
    ensures ScoresOf(ss, k, c) == [] <==> !exists s <- ss :: KeyOfChange(s) == k
  {
    hide KeyOfChange, Context.Show;
    if ss == [] {
    } else {
      var init, s := ss[..|ss| - 1], ss[|ss| - 1];
      assert ss == init + [s];
      NoScores(init, k, c);
      assert forall x :: x in ss <==> x in init || x == s;
    }
  }

  lemma {:induction false} NoEvents(es: seq<Event>, k: Key, c: Context)
    ensures EventsOf(es, k, c) == [] <==> !exists ev <- es :: c.Included(ev) && KeyOfEvent(ev) == k
  {
    hide RemoteHost, Context.Included, KeyOfEvent;
    if es == [] {
    } else {
      var init, ev := es[..|es| - 1], es[|es| - 1];
      assert es == init + [ev];
      NoEvents(init, k, c);
      assert forall x :: x in es <==> x in init || x == ev;
    }
  }

  lemma {:induction false} ProcessNext(es: seq<Event>, ev: Event)
    ensures ProcessOf(es + [ev]) == if ProcessOf(es) == "" then ev.process else ProcessOf(es)
  {
    if es == [] {
      assert es + [ev] == [ev];
    } else {
      assert (es + [ev])[1..] == es[1..] + [ev];
      ProcessNext(es[1..], ev);
    }
  }

  lemma FilledBlank(k: Key, c: Context)
    ensures Filled(k, [], [], c) == c.Blank(k)
  {}

  lemma FilledScore(k: Key, scores: seq<Shown>, events: seq<Event>, s: Shown, c: Context)
    ensures Filled(k, scores + [s], events, c) == Filled(k, scores, events, c).WithScore(s)
  {}

  lemma FilledEvent(k: Key, scores: seq<Shown>, events: seq<Event>, ev: Event, c: Context)
    ensures Filled(k, scores, events + [ev], c) == Filled(k, scores, events, c).WithEvent(ev)
  {
    ProcessNext(events, ev);
  }

  lemma ScoresNext(ss: seq<Change>, s: Change, k: Key, c: Context)
    ensures ScoresOf(ss + [s], k, c) ==
            if KeyOfChange(s) == k then ScoresOf(ss, k, c) + [c.Show(s)] else ScoresOf(ss, k, c)
  {
    assert (ss + [s])[..|ss|] == ss;
  }

  lemma EventsNext(es: seq<Event>, ev: Event, k: Key, c: Context)
    ensures EventsOf(es + [ev], k, c) ==
            if c.Included(ev) && KeyOfEvent(ev) == k then EventsOf(es, k, c) + [ev] else EventsOf(es, k, c)
  {
    assert (es + [ev])[..|es|] == es;
  }

  /** A pair not met yet has a blank record. */
  lemma AtDraft(ss: seq<Change>, es: seq<Event>, k: Key, c: Context)
    ensures At(Drafts(ss, es, c), k, c) == Draft(k, ss, es, c)
  {
    NoScores(ss, k, c);
    NoEvents(es, k, c);
    FilledBlank(k, c);
    hide Filled, ScoresOf, EventsOf;
  }

  lemma KeysScore(ss: seq<Change>, s: Change, es: seq<Event>, c: Context)
    ensures KeysOf(ss + [s], es, c) == KeysOf(ss, es, c) + {KeyOfChange(s)}
  {
    assert forall x :: x in ss + [s] <==> x in ss || x == s;
  }

  lemma KeysEvent(ss: seq<Change>, es: seq<Event>, ev: Event, c: Context)
    ensures KeysOf(ss, es + [ev], c) == KeysOf(ss, es, c) + if c.Included(ev) then {KeyOfEvent(ev)} else {}
  {
    hide KeyOfEvent;
    assert forall x :: x in es + [ev] <==> x in es || x == ev;
  }

  lemma ScoreDraft(l: Key, ss: seq<Change>, s: Change, c: Context)
    ensures Draft(l, ss + [s], [], c) ==
            if l == KeyOfChange(s) then Draft(l, ss, [], c).WithScore(c.Show(s)) else Draft(l, ss, [], c)
  {
    hide Filled, ScoresOf, EventsOf, Localize;
    ScoresNext(ss, s, l, c);
    FilledScore(l, ScoresOf(ss, l, c), EventsOf([], l, c), c.Show(s), c);
  }

  lemma EventDraft(l: Key, ss: seq<Change>, es: seq<Event>, ev: Event, c: Context)
    ensures Draft(l, ss, es + [ev], c) ==
            if c.Included(ev) && l == KeyOfEvent(ev) then Draft(l, ss, es, c).WithEvent(ev)
            else Draft(l, ss, es, c)
  {
    hide Filled, ScoresOf, EventsOf, RemoteHost;
    EventsNext(es, ev, l, c);
    FilledEvent(l, ScoresOf(ss, l, c), EventsOf(es, l, c), ev, c);
  }

  lemma ScoreStep(scores: seq<Change>, i: nat, c: Context)
    requires i < |scores|
    ensures var was, s := Drafts(scores[..i], [], c), scores[i];
            var k := KeyOfChange(s);
            Drafts(scores[..i + 1], [], c) == was[k := At(was, k, c).WithScore(c.Show(s))]
  {
    hide Draft, KeysOf, KeyOfChange, At, Record.WithScore, Context.Show;
    var ss, s := scores[..i], scores[i];
    assert scores[..i + 1] == ss + [s];
    KeysScore(ss, s, [], c);
    AtDraft(ss, [], KeyOfChange(s), c);
    forall l | l in KeysOf(ss + [s], [], c)
      ensures Draft(l, ss + [s], [], c) ==
              if l == KeyOfChange(s) then Draft(l, ss, [], c).WithScore(c.Show(s)) else Draft(l, ss, [], c)
    {
      ScoreDraft(l, ss, s, c);
    }
  }

  lemma EventStep(scores: seq<Change>, events: seq<Event>, i: nat, c: Context)
    requires i < |events|
    ensures var was, ev := Drafts(scores, events[..i], c), events[i];
            var k := KeyOfEvent(ev);
            Drafts(scores, events[..i + 1], c) ==
            if c.Included(ev) then was[k := At(was, k, c).WithEvent(ev)] else was
  {
    hide Draft, KeysOf, KeyOfEvent, At, Record.WithEvent, Context.Included;
    var es, ev := events[..i], events[i];
    assert events[..i + 1] == es + [ev];
    KeysEvent(scores, es, ev, c);
    AtDraft(scores, es, KeyOfEvent(ev), c);
    forall l | l in KeysOf(scores, es + [ev], c)
      ensures Draft(l, scores, es + [ev], c) ==
              if c.Included(ev) && l == KeyOfEvent(ev) then Draft(l, scores, es, c).WithEvent(ev)
              else Draft(l, scores, es, c)
    {
      EventDraft(l, scores, es, ev, c);
    }
  }

  // ── The order ───────────────────────────────────────────────────────────

  /** String comparison. */
  predicate LexLeq(a: string, b: string) {
    a == "" || (b != "" && (a[0] < b[0] || (a[0] == b[0] && LexLeq(a[1..], b[1..]))))
  }

  lemma {:induction false} LexTotal(a: string, b: string)
    ensures LexLeq(a, b) || LexLeq(b, a)
  {
    if a != "" && b != "" {
      LexTotal(a[1..], b[1..]);
    }
  }

  lemma {:induction false} LexTrans(a: string, b: string, c: string)
    requires LexLeq(a, b) && LexLeq(b, c)
    ensures LexLeq(a, c)
  {
    if a != "" && a[0] == b[0] == c[0] {
      LexTrans(a[1..], b[1..], c[1..]);
    }
  }

  /** By risk, then by how recently seen. */
  predicate Before(a: Record, b: Record) {
    a.threat > b.threat || (a.threat == b.threat && LexLeq(b.lastSeen, a.lastSeen))
  }

  predicate Sorted(out: seq<Record>) {
    forall i, j | 0 <= i < j < |out| :: Before(out[i], out[j])
  }

  predicate DistinctKeys(out: seq<Record>) {
    forall i, j | 0 <= i < j < |out| :: out[i].key != out[j].key
  }

  method Insert(ys: seq<Record>, r: Record) returns (zs: seq<Record>)
    requires Sorted(ys) && DistinctKeys(ys) && forall y <- ys :: y.key != r.key
    ensures Sorted(zs) && DistinctKeys(zs) && forall x :: x in zs <==> x in ys || x == r
  {
    hide LexLeq;
    var i := 0;
    while i < |ys| && Before(ys[i], r)
      invariant i <= |ys| && forall j | 0 <= j < i :: Before(ys[j], r)
    {
      i := i + 1;
    }
    zs := ys[..i] + [r] + ys[i..];
    InsertSorted(ys, r, i);
    InsertMembers(ys, r, i);
  }

  lemma InsertedAt(ys: seq<Record>, r: Record, i: nat, j: nat)
    requires i <= |ys| && j <= |ys|
    ensures (ys[..i] + [r] + ys[i..])[j] == if j < i then ys[j] else if j == i then r else ys[j - 1]
  {}

  lemma InsertMembers(ys: seq<Record>, r: Record, i: nat)
    requires i <= |ys| && DistinctKeys(ys) && forall y <- ys :: y.key != r.key
    ensures var zs := ys[..i] + [r] + ys[i..];
            DistinctKeys(zs) && forall x :: x in zs <==> x in ys || x == r
  {
    assert ys == ys[..i] + ys[i..];
    var zs := ys[..i] + [r] + ys[i..];
    forall p, q | 0 <= p < q < |zs|
      ensures zs[p].key != zs[q].key
    {
      InsertedAt(ys, r, i, p);
      InsertedAt(ys, r, i, q);
      hide *;
    }
  }

  lemma BeforeTrans(a: Record, b: Record, c: Record)
    requires Before(a, b) && Before(b, c)
    ensures Before(a, c)
  {
    if a.threat == c.threat {
      LexTrans(c.lastSeen, b.lastSeen, a.lastSeen);
    }
  }

  lemma BeforeTotal(a: Record, b: Record)
    ensures Before(a, b) || Before(b, a)
  {
    LexTotal(a.lastSeen, b.lastSeen);
  }

  lemma InsertSorted(ys: seq<Record>, r: Record, i: nat)
    requires Sorted(ys) && i <= |ys| && forall j | 0 <= j < i :: Before(ys[j], r)
    requires i < |ys| ==> !Before(ys[i], r)
    ensures Sorted(ys[..i] + [r] + ys[i..])
  {
    hide Before;
    forall j | i <= j < |ys|
      ensures Before(r, ys[j])
    {
      BeforeTotal(ys[i], r);
      if i < j {
        BeforeTrans(r, ys[i], ys[j]);
      }
    }
    var zs := ys[..i] + [r] + ys[i..];
    assert forall j | 0 <= j < |zs| :: zs[j] == if j < i then ys[j] else if j == i then r else ys[j - 1];
  }

  method Sort(xs: seq<Record>) returns (ys: seq<Record>)
    requires DistinctKeys(xs)
    ensures Sorted(ys) && DistinctKeys(ys) && forall x :: x in ys <==> x in xs
  {
    hide Before;
    ys := [];
    for i := 0 to |xs|
      invariant Sorted(ys) && DistinctKeys(ys) && forall x :: x in ys <==> x in xs[..i]
    {
      ys := Insert(ys, xs[i]);
      assert xs[..i + 1] == xs[..i] + [xs[i]];
    }
    assert xs[..|xs|] == xs;
  }

  /** The records of some of the pairs, once each. */
  predicate Collected(out: seq<Record>, keys: set<Key>, ss: seq<Change>, es: seq<Event>, c: Context) {
    && DistinctKeys(out) && (set r <- out :: r.key) == keys
    && forall r <- out :: r == RecordOf(r.key, ss, es, c)
  }

  /** The join: one record for each pair met, each the record of its pair, by risk
      and then by how recently seen. */
  predicate IsTimeline(out: seq<Record>, ss: seq<Change>, es: seq<Event>, c: Context) {
    Collected(out, KeysOf(ss, es, c), ss, es, c) && Sorted(out)
  }

  method BuildTimeline(events: seq<Event>, scores: seq<Change>, c: Context) returns (out: seq<Record>)
    ensures IsTimeline(out, scores, events, c)
  {
    hide Record.WithBounds, Draft, Before;
    var byKey := JoinScores(scores, c);
    byKey := JoinEvents(byKey, scores, events, c);
    out := Collect(byKey, scores, events, c);
    ghost var all := out;
    out := Sort(out);
    assert (set r <- out :: r.key) == (set r <- all :: r.key);
  }

  /** The records out of the map, in whatever order it gives them. */
  method Collect(byKey: map<Key, Entry>, ghost ss: seq<Change>, ghost es: seq<Event>, ghost c: Context)
    returns (out: seq<Record>)
    requires Apart(byKey) && States(byKey) == Drafts(ss, es, c)
    modifies byKey.Values
    ensures Collected(out, KeysOf(ss, es, c), ss, es, c)
  {
    hide Record.WithBounds, Draft, Drafts, States, Entry.State, KeysOf, Collected;
    out := [];
    var todo := byKey.Keys;
    EachState(byKey, ss, es, c);
    NoneCollected(ss, es, c);
    assert byKey.Keys - todo == {};
    while todo != {}
      invariant todo <= byKey.Keys
      invariant forall k <- todo :: byKey[k].State() == Draft(k, ss, es, c)
      invariant Collected(out, byKey.Keys - todo, ss, es, c)
      decreases |todo|
    {
      var k :| k in todo;
      var e := byKey[k];
      e.SetBounds();
      CollectedNext(out, k, byKey.Keys - todo, ss, es, c);
      out := out + [e.State()];
      assert byKey.Keys - (todo - {k}) == byKey.Keys - todo + {k};
      todo := todo - {k};
    }
    assert byKey.Keys - todo == byKey.Keys;
  }

  lemma EachState(byKey: map<Key, Entry>, ss: seq<Change>, es: seq<Event>, c: Context)
    requires States(byKey) == Drafts(ss, es, c)
    ensures byKey.Keys == KeysOf(ss, es, c)
    ensures forall k <- byKey :: byKey[k].State() == Draft(k, ss, es, c)
  {
    hide Draft, Entry.State, KeysOf;
    assert States(byKey).Keys == byKey.Keys;
    forall k <- byKey
      ensures byKey[k].State() == Draft(k, ss, es, c)
    {
      assert States(byKey)[k] == Drafts(ss, es, c)[k];
    }
  }

  lemma NoneCollected(ss: seq<Change>, es: seq<Event>, c: Context)
    ensures Collected([], {}, ss, es, c)
  {}

  lemma CollectedNext(out: seq<Record>, k: Key, keys: set<Key>, ss: seq<Change>, es: seq<Event>, c: Context)
    requires Collected(out, keys, ss, es, c) && k !in keys
    ensures Collected(out + [RecordOf(k, ss, es, c)], keys + {k}, ss, es, c)
  {
    RecordKey(k, ss, es, c);
    hide RecordOf;
    OneMoreRecord(out, RecordOf(k, ss, es, c), keys);
  }

  lemma RecordKey(k: Key, ss: seq<Change>, es: seq<Event>, c: Context)
    ensures RecordOf(k, ss, es, c).key == k
  {}

  lemma OneMoreRecord(out: seq<Record>, r: Record, keys: set<Key>)
    requires DistinctKeys(out) && (set x <- out :: x.key) == keys && r.key !in keys
    ensures DistinctKeys(out + [r]) && (set x <- out + [r] :: x.key) == keys + {r.key}
  {
    assert forall x <- out :: x.key in keys;
    assert forall x :: x in out + [r] <==> x in out || x == r;
  }

  // ── A partition ─────────────────────────────────────────────────────────

  function AllScores(out: seq<Record>): seq<Shown> {
    if out == [] then [] else AllScores(out[..|out| - 1]) + out[|out| - 1].scores
  }

  function AllEvents(out: seq<Record>): seq<Event> {
    if out == [] then [] else AllEvents(out[..|out| - 1]) + out[|out| - 1].events
  }

  function ScoresIn(ss: seq<Change>, keys: set<Key>, c: Context): seq<Shown> {
    if ss == [] then []
    else
      var s := ss[|ss| - 1];
      ScoresIn(ss[..|ss| - 1], keys, c) + if KeyOfChange(s) in keys then [c.Show(s)] else []
  }

  function EventsIn(es: seq<Event>, keys: set<Key>, c: Context): seq<Event> {
    if es == [] then []
    else
      var ev := es[|es| - 1];
      EventsIn(es[..|es| - 1], keys, c) + if c.Included(ev) && KeyOfEvent(ev) in keys then [ev] else []
  }

  /** Every score change, as it is shown. */
  function Shows(ss: seq<Change>, c: Context): seq<Shown> {
    if ss == [] then [] else Shows(ss[..|ss| - 1], c) + [c.Show(ss[|ss| - 1])]
  }

  /** The events with a binary and a public remote. */
  function Includes(es: seq<Event>, c: Context): seq<Event> {
    if es == [] then []
    else Includes(es[..|es| - 1], c) + if c.Included(es[|es| - 1]) then [es[|es| - 1]] else []
  }

  lemma ScoresInStep(ss: seq<Change>, keys: set<Key>, c: Context)
    requires ss != []
    ensures var init, s := ss[..|ss| - 1], ss[|ss| - 1];
            ScoresIn(ss, keys, c) == ScoresIn(init, keys, c) + if KeyOfChange(s) in keys then [c.Show(s)] else []
  {}

  lemma ScoresOfStep(ss: seq<Change>, k: Key, c: Context)
    requires ss != []
    ensures var init, s := ss[..|ss| - 1], ss[|ss| - 1];
            ScoresOf(ss, k, c) == ScoresOf(init, k, c) + if KeyOfChange(s) == k then [c.Show(s)] else []
  {}

  lemma NoScoresYet(keys: set<Key>, k: Key, c: Context)
    ensures ScoresIn([], keys, c) == [] && ScoresOf([], k, c) == []
  {}

  lemma {:induction false} ScoresInMore(ss: seq<Change>, keys: set<Key>, k: Key, c: Context)
    requires k !in keys
    ensures multiset(ScoresIn(ss, keys + {k}, c)) == multiset(ScoresIn(ss, keys, c)) + multiset(ScoresOf(ss, k, c))
  {
    hide Context.Show, KeyOfChange, ScoresIn, ScoresOf;
    if ss == [] {
      NoScoresYet(keys, k, c);
      NoScoresYet(keys + {k}, k, c);
    } else {
      ScoresInMore(ss[..|ss| - 1], keys, k, c);
      ScoresInStep(ss, keys, c);
      ScoresInStep(ss, keys + {k}, c);
      ScoresOfStep(ss, k, c);
    }
  }

  lemma EventsInStep(es: seq<Event>, keys: set<Key>, c: Context)
    requires es != []
    ensures var init, ev := es[..|es| - 1], es[|es| - 1];
            EventsIn(es, keys, c) ==
            EventsIn(init, keys, c) + if c.Included(ev) && KeyOfEvent(ev) in keys then [ev] else []
  {}

  lemma EventsOfStep(es: seq<Event>, k: Key, c: Context)
    requires es != []
    ensures var init, ev := es[..|es| - 1], es[|es| - 1];
            EventsOf(es, k, c) == EventsOf(init, k, c) + if c.Included(ev) && KeyOfEvent(ev) == k then [ev] else []
  {}

  lemma NoEventsYet(keys: set<Key>, k: Key, c: Context)
    ensures EventsIn([], keys, c) == [] && EventsOf([], k, c) == []
  {}

  lemma {:induction false} EventsInMore(es: seq<Event>, keys: set<Key>, k: Key, c: Context)
    requires k !in keys
    ensures multiset(EventsIn(es, keys + {k}, c)) == multiset(EventsIn(es, keys, c)) + multiset(EventsOf(es, k, c))
  {
    hide RemoteHost, Context.Included, KeyOfEvent, EventsIn, EventsOf;
    if es == [] {
      NoEventsYet(keys, k, c);
      NoEventsYet(keys + {k}, k, c);
    } else {
      EventsInMore(es[..|es| - 1], keys, k, c);
      EventsInStep(es, keys, c);
      EventsInStep(es, keys + {k}, c);
      EventsOfStep(es, k, c);
    }
  }

  lemma {:induction false} NothingIn(ss: seq<Change>, es: seq<Event>, c: Context)
    ensures ScoresIn(ss, {}, c) == [] && EventsIn(es, {}, c) == []
    decreases |ss| + |es|
  {
    if ss != [] {
      NothingIn(ss[..|ss| - 1], es, c);
    } else if es != [] {
      NothingIn(ss, es[..|es| - 1], c);
    }
  }

  lemma {:induction false} AllScoresIn(ss: seq<Change>, keys: set<Key>, c: Context)
    requires forall s <- ss :: KeyOfChange(s) in keys
    ensures ScoresIn(ss, keys, c) == Shows(ss, c)
  {
    hide Context.Show, KeyOfChange;
    if ss == [] {
    } else {
      assert ss[|ss| - 1] in ss;
      AllScoresIn(ss[..|ss| - 1], keys, c);
    }
  }

  lemma {:induction false} AllEventsIn(es: seq<Event>, keys: set<Key>, c: Context)
    requires forall ev <- es | c.Included(ev) :: KeyOfEvent(ev) in keys
    ensures EventsIn(es, keys, c) == Includes(es, c)
  {
    hide Context.Included, KeyOfEvent;
    if es == [] {
    } else {
      assert es[|es| - 1] in es;
      AllEventsIn(es[..|es| - 1], keys, c);
    }
  }

  lemma {:induction false} GatheredIn(out: seq<Record>, keys: set<Key>, ss: seq<Change>, es: seq<Event>, c: Context)
    requires Collected(out, keys, ss, es, c)
    ensures multiset(AllScores(out)) == multiset(ScoresIn(ss, keys, c))
    ensures multiset(AllEvents(out)) == multiset(EventsIn(es, keys, c))
    decreases |out|
  {
    NothingIn(ss, es, c);
    if out == [] {
      assert keys == {};
    } else {
      var init, r := out[..|out| - 1], out[|out| - 1];
      LastRecord(out, keys, ss, es, c);
      var rest := keys - {r.key};
      assert rest + {r.key} == keys;
      GatheredIn(init, rest, ss, es, c);
      ScoresInMore(ss, rest, r.key, c);
      EventsInMore(es, rest, r.key, c);
      assert r.scores == ScoresOf(ss, r.key, c) && r.events == EventsOf(es, r.key, c);
      hide RecordOf, ScoresIn, EventsIn, ScoresOf, EventsOf, Collected;
    }
  }

  lemma LastRecord(out: seq<Record>, keys: set<Key>, ss: seq<Change>, es: seq<Event>, c: Context)
    requires Collected(out, keys, ss, es, c) && out != []
    ensures var r := out[|out| - 1];
            r.key in keys && r == RecordOf(r.key, ss, es, c) &&
            Collected(out[..|out| - 1], keys - {r.key}, ss, es, c)
  {
    hide RecordOf;
    var init, r := out[..|out| - 1], out[|out| - 1];
    assert out == init + [r];
    assert r in out;
    assert forall x <- init :: x in out && x.key != r.key;
    assert forall x <- out :: x in init || x == r;
  }

  lemma EveryKey(ss: seq<Change>, es: seq<Event>, c: Context)
    ensures forall s <- ss :: KeyOfChange(s) in KeysOf(ss, es, c)
    ensures forall ev <- es | c.Included(ev) :: KeyOfEvent(ev) in KeysOf(ss, es, c)
  {
    hide Context.Included, KeyOfEvent, KeyOfChange;
  }

  /** The records share out the two histories: each score change and each event with
      a binary and a public remote is in exactly one of them, as often as it was in
      the input. */
  lemma TimelineIsPartition(out: seq<Record>, ss: seq<Change>, es: seq<Event>, c: Context)
    requires IsTimeline(out, ss, es, c)
    ensures multiset(AllScores(out)) == multiset(Shows(ss, c))
    ensures multiset(AllEvents(out)) == multiset(Includes(es, c))
  {
    GatheredIn(out, KeysOf(ss, es, c), ss, es, c);
    EveryKey(ss, es, c);
    AllScoresIn(ss, KeysOf(ss, es, c), c);
    AllEventsIn(es, KeysOf(ss, es, c), c);
    hide KeysOf, AllScores, AllEvents, Collected, Context.Included, KeyOfEvent;
  }

  // ── The ends of a record ────────────────────────────────────────────────

  predicate IsOf(ev: Event, k: Key, c: Context) {
    c.Included(ev) && KeyOfEvent(ev) == k
  }

  lemma {:induction false} EventEnds(es: seq<Event>, k: Key, c: Context, i: nat, j: nat)
    requires i <= j < |es| && IsOf(es[i], k, c) && IsOf(es[j], k, c)
    requires forall x | 0 <= x < |es| && IsOf(es[x], k, c) :: i <= x <= j
    ensures var mine := EventsOf(es, k, c); mine != [] && mine[0] == es[i] && mine[|mine| - 1] == es[j]
    decreases |es|
  {
    hide Context.Included, KeyOfEvent;
    var init, last := es[..|es| - 1], |es| - 1;
    assert IsOf(es[last], k, c) <==> j == last;
    if j < last {
      EventEnds(init, k, c, i, j);
    } else if i < j {
      var h := LastIndex(init, k, c, i);
      EventEnds(init, k, c, i, h);
    } else {
      forall ev <- init
        ensures !IsOf(ev, k, c)
      {
        var x :| 0 <= x < |init| && init[x] == ev;
        assert ev == es[x];
      }
      NoEvents(init, k, c);
    }
  }

  lemma LastIndex(es: seq<Event>, k: Key, c: Context, i: nat) returns (h: nat)
    requires i < |es| && IsOf(es[i], k, c)
    ensures i <= h < |es| && IsOf(es[h], k, c) && forall x | h < x < |es| :: !IsOf(es[x], k, c)
  {
    hide IsOf;
    h := |es| - 1;
    while !IsOf(es[h], k, c)
      invariant i <= h < |es| && forall x | h < x < |es| :: !IsOf(es[x], k, c)
      decreases h
    {
      h := h - 1;
    }
  }

  lemma {:induction false} ScoreEnds(ss: seq<Change>, k: Key, c: Context, i: nat)
    requires i < |ss| && KeyOfChange(ss[i]) == k && forall x | 0 <= x < i :: KeyOfChange(ss[x]) != k
    ensures var mine := ScoresOf(ss, k, c); mine != [] && mine[0] == c.Show(ss[i])
    decreases |ss|
  {
    hide Context.Show, KeyOfChange;
    var init := ss[..|ss| - 1];
    if i < |ss| - 1 {
      ScoreEnds(init, k, c, i);
    } else {
      assert forall s <- init :: KeyOfChange(s) != k;
      NoScores(init, k, c);
    }
  }

  lemma BoundsOf(k: Key, scores: seq<Shown>, events: seq<Event>, c: Context)
    requires events != []
    ensures var r := Filled(k, scores, events, c).WithBounds();
            r.lastSeen == events[0].ts && r.firstSeen == events[|events| - 1].ts
  {
    hide ProcessOf;
  }

  /** The events are newest first, and a record takes its bounds from the right ends:
      last seen at the first of its events, first seen at the last of them. */
  lemma RecordBounds(k: Key, ss: seq<Change>, es: seq<Event>, c: Context, i: nat, j: nat)
    requires i <= j < |es| && IsOf(es[i], k, c) && IsOf(es[j], k, c)
    requires forall x | 0 <= x < |es| && IsOf(es[x], k, c) :: i <= x <= j
    ensures RecordOf(k, ss, es, c).lastSeen == es[i].ts && RecordOf(k, ss, es, c).firstSeen == es[j].ts
  {
    hide IsOf, Filled, Record.WithBounds, ScoresOf, EventsOf;
    EventEnds(es, k, c, i, j);
    BoundsOf(k, ScoresOf(ss, k, c), EventsOf(es, k, c), c);
  }

  /** And its risk and reasons from the first of its score changes, the latest. */
  lemma RecordRisk(k: Key, ss: seq<Change>, es: seq<Event>, c: Context, i: nat)
    requires i < |ss| && KeyOfChange(ss[i]) == k && forall x | 0 <= x < i :: KeyOfChange(ss[x]) != k
    ensures var r := RecordOf(k, ss, es, c);
            r.threat == ss[i].threat && r.breakdown == Localize(c.known, ss[i].breakdown)
  {
    ScoreEnds(ss, k, c, i);
    hide EventsOf, ScoresOf, ProcessOf, Localize;
  }

  // ── A record in full ────────────────────────────────────────────────────

  predicate ChangeOf(s: Change, k: Key) {
    s.exe == k.exe && s.ip == k.ip
  }

  /** The event has a binary and a public remote, and they are this pair. */
  predicate EventOf(ev: Event, k: Key, c: Context) {
    ev.exe == k.exe && RemoteHost(ev.remote) == k.ip && k.exe != "" && k.ip != "" && !c.isPrivate(k.ip)
  }

  /** `scores` are the pair's score changes, each as it is shown: `at` lists their
      places in order. */
  ghost predicate ScoresAt(ss: seq<Change>, k: Key, c: Context, at: seq<nat>, scores: seq<Shown>) {
    Increasing(at) && ChangePlaces(ss, k, at) && ShownFrom(ss, c, at, scores)
  }

  ghost predicate ChangePlaces(ss: seq<Change>, k: Key, at: seq<nat>) {
    forall i: nat :: i in at <==> i < |ss| && ChangeOf(ss[i], k)
  }

  predicate ShownFrom(ss: seq<Change>, c: Context, at: seq<nat>, scores: seq<Shown>) {
    |at| == |scores| && forall j | 0 <= j < |at| :: at[j] < |ss| && ShownAs(scores[j], ss[at[j]], c)
  }

  predicate ShownAs(shown: Shown, s: Change, c: Context) {
    && shown.at == s.at && shown.exe == s.exe && shown.ip == s.ip && shown.threat == s.threat
    && shown.breakdown == Localize(c.known, s.breakdown)
  }

  /** `events` are the pair's events: `at` lists their places in order. */
  ghost predicate EventsAt(es: seq<Event>, k: Key, c: Context, at: seq<nat>, events: seq<Event>) {
    Increasing(at) && EventPlaces(es, k, c, at) && TakenFrom(es, at, events)
  }

  ghost predicate EventPlaces(es: seq<Event>, k: Key, c: Context, at: seq<nat>) {
    forall i: nat :: i in at <==> i < |es| && EventOf(es[i], k, c)
  }

  predicate TakenFrom(es: seq<Event>, at: seq<nat>, events: seq<Event>) {
    |at| == |events| && forall j | 0 <= j < |at| :: at[j] < |es| && events[j] == es[at[j]]
  }

  lemma {:induction false} ScoresPlaced(ss: seq<Change>, k: Key, c: Context) returns (at: seq<nat>)
    ensures ScoresAt(ss, k, c, at, ScoresOf(ss, k, c))
  {
    if ss == [] {
      at := [];
    } else {
      hide ScoresAt, ScoresOf, Context.Show, KeyOfChange;
      at := ScoresPlaced(ss[..|ss| - 1], k, c);
      at := ScoreAtNext(ss, k, c, at, ScoresOf(ss[..|ss| - 1], k, c));
      ScoresOfStep(ss, k, c);
    }
  }

  lemma ScoreAtNext(ss: seq<Change>, k: Key, c: Context, before: seq<nat>, scores: seq<Shown>) returns (at: seq<nat>)
    requires ss != [] && ScoresAt(ss[..|ss| - 1], k, c, before, scores)
    ensures var s := ss[|ss| - 1];
            ScoresAt(ss, k, c, at, scores + if KeyOfChange(s) == k then [c.Show(s)] else [])
  {
    var n, s := |ss| - 1, ss[|ss| - 1];
    assert KeyOfChange(s) == k <==> ChangeOf(s, k);
    at := if ChangeOf(s, k) then before + [n] else before;
    hide Increasing, ChangePlaces, ShownFrom, ChangeOf, KeyOfChange, Context.Show;
    ChangePlacesNext(ss, k, before);
    ShownNext(ss, c, before, scores);
    OnePlace(before, n);
    assert scores + [] == scores;
  }

  lemma ChangePlacesNext(ss: seq<Change>, k: Key, before: seq<nat>)
    requires ss != [] && ChangePlaces(ss[..|ss| - 1], k, before)
    ensures var n := |ss| - 1;
            && ChangePlaces(ss, k, if ChangeOf(ss[n], k) then before + [n] else before)
            && forall i <- before :: i < n
  {
    hide ChangeOf;
    var n := |ss| - 1;
    assert forall i: nat :: i in before + [n] <==> i in before || i == n;
  }

  lemma ShownNext(ss: seq<Change>, c: Context, before: seq<nat>, scores: seq<Shown>)
    requires ss != [] && ShownFrom(ss[..|ss| - 1], c, before, scores)
    ensures var n := |ss| - 1;
            ShownFrom(ss, c, before, scores) && ShownFrom(ss, c, before + [n], scores + [c.Show(ss[n])])
  {
    assert ShownAs(c.Show(ss[|ss| - 1]), ss[|ss| - 1], c);
    hide ShownAs, Context.Show;
  }

  lemma {:induction false} EventsPlaced(es: seq<Event>, k: Key, c: Context) returns (at: seq<nat>)
    ensures EventsAt(es, k, c, at, EventsOf(es, k, c))
  {
    if es == [] {
      at := [];
    } else {
      hide EventsAt, EventsOf, Context.Included, KeyOfEvent;
      at := EventsPlaced(es[..|es| - 1], k, c);
      at := EventsAtNext(es, k, c, at, EventsOf(es[..|es| - 1], k, c));
      EventsOfStep(es, k, c);
    }
  }

  lemma EventsAtNext(es: seq<Event>, k: Key, c: Context, before: seq<nat>, events: seq<Event>) returns (at: seq<nat>)
    requires es != [] && EventsAt(es[..|es| - 1], k, c, before, events)
    ensures var ev := es[|es| - 1];
            EventsAt(es, k, c, at, events + if c.Included(ev) && KeyOfEvent(ev) == k then [ev] else [])
  {
    var n, ev := |es| - 1, es[|es| - 1];
    assert c.Included(ev) && KeyOfEvent(ev) == k <==> EventOf(ev, k, c);
    at := if EventOf(ev, k, c) then before + [n] else before;
    hide Increasing, EventPlaces, TakenFrom, EventOf, KeyOfEvent, Context.Included;
    EventPlacesNext(es, k, c, before);
    TakenNext(es, before, events);
    OnePlace(before, n);
    assert events + [] == events;
  }

  lemma EventPlacesNext(es: seq<Event>, k: Key, c: Context, before: seq<nat>)
    requires es != [] && EventPlaces(es[..|es| - 1], k, c, before)
    ensures var n := |es| - 1;
            && EventPlaces(es, k, c, if EventOf(es[n], k, c) then before + [n] else before)
            && forall i <- before :: i < n
  {
    hide EventOf;
    var n := |es| - 1;
    assert forall i: nat :: i in before + [n] <==> i in before || i == n;
  }

  lemma TakenNext(es: seq<Event>, before: seq<nat>, events: seq<Event>)
    requires es != [] && TakenFrom(es[..|es| - 1], before, events)
    ensures var n := |es| - 1;
            TakenFrom(es, before, events) && TakenFrom(es, before + [n], events + [es[n]])
  {}

  lemma OnePlace(at: seq<nat>, n: nat)
    requires Increasing(at) && forall i <- at :: i < n
    ensures Increasing(at + [n])
  {
    assert forall j | 0 <= j < |at| :: at[j] in at;
  }

  lemma {:induction false} FirstNamed(es: seq<Event>)
    ensures FirstName(es, ProcessOf(es))
  {
    if es != [] && es[0].process == "" {
      FirstNamed(es[1..]);
      assert es == [es[0]] + es[1..];
      if ProcessOf(es[1..]) != "" {
        var i :| 0 <= i < |es| - 1 && ProcessOf(es[1..]) == es[1..][i].process
                 && forall j | 0 <= j < i :: es[1..][j].process == "";
        assert ProcessOf(es) == es[i + 1].process && forall j | 0 <= j < i + 1 :: es[j].process == "";
      }
    }
  }

  /** What the record of a pair says beside its two histories. */
  ghost predicate SaysOf(r: Record, c: Context) {
    && r.hostnames == (if r.key.ip in c.hosts then c.hosts[r.key.ip] else [])
    && (r.blocked <==> r.key.ip in c.blocked)
    && (r.whitelisted <==> r.key.exe in c.wlExe || r.key.ip in c.wlIP)
    && (if r.scores == [] then r.threat == 0 && r.breakdown == AsIs("")
        else r.threat == r.scores[0].threat && r.breakdown == r.scores[0].breakdown)
    && (if r.events != [] then r.lastSeen == r.events[0].ts && r.firstSeen == r.events[|r.events| - 1].ts
        else if r.scores != [] then r.lastSeen == r.scores[0].at && r.firstSeen == r.scores[|r.scores| - 1].at
        else r.lastSeen == r.firstSeen == "")
    && FirstName(r.events, r.process)
  }

  /** The first process the events name, if any does. */
  ghost predicate FirstName(es: seq<Event>, process: string) {
    && (process == "" <==> forall ev <- es :: ev.process == "")
    && (process != "" ==>
          exists i | 0 <= i < |es| :: process == es[i].process && forall j | 0 <= j < i :: es[j].process == "")
  }

  lemma FilledSays(k: Key, scores: seq<Shown>, events: seq<Event>, c: Context)
    ensures var r := Filled(k, scores, events, c).WithBounds();
            r.key == k && r.scores == scores && r.events == events && SaysOf(r, c)
  {
    FirstNamed(events);
    hide ProcessOf, FirstName, Localize;
  }

  lemma RecordFilled(out: seq<Record>, ss: seq<Change>, es: seq<Event>, c: Context, r: Record)
    requires IsTimeline(out, ss, es, c) && r in out
    ensures r == Filled(r.key, ScoresOf(ss, r.key, c), EventsOf(es, r.key, c), c).WithBounds()
  {
    hide Filled, ScoresOf, EventsOf, Record.WithBounds, Sorted, DistinctKeys;
  }

  /** Every record of the timeline in full: the pair's score changes and events, all
      of them and in their order, and what follows from them. */
  lemma RecordInFull(out: seq<Record>, ss: seq<Change>, es: seq<Event>, c: Context, r: Record)
    requires IsTimeline(out, ss, es, c) && r in out
    ensures exists at :: ScoresAt(ss, r.key, c, at, r.scores)
    ensures exists at :: EventsAt(es, r.key, c, at, r.events)
    ensures SaysOf(r, c)
  {
    hide IsTimeline, ScoresAt, EventsAt, ScoresOf, EventsOf, SaysOf, Filled, Record.WithBounds;
    RecordFilled(out, ss, es, c, r);
    FilledSays(r.key, ScoresOf(ss, r.key, c), EventsOf(es, r.key, c), c);
    var at := ScoresPlaced(ss, r.key, c);
    var et := EventsPlaced(es, r.key, c);
  }

  lemma KeysAre(ss: seq<Change>, es: seq<Event>, c: Context, k: Key)
    ensures k in KeysOf(ss, es, c) <==> (exists s <- ss :: ChangeOf(s, k)) || (exists ev <- es :: EventOf(ev, k, c))
  {
    assert forall s <- ss :: ChangeOf(s, k) <==> KeyOfChange(s) == k;
    assert forall ev <- es :: EventOf(ev, k, c) <==> c.Included(ev) && KeyOfEvent(ev) == k by {
      hide RemoteHost;
    }
    hide ChangeOf, KeyOfChange, EventOf, KeyOfEvent, Context.Included;
  }

  /** There is a record for exactly the pairs with a score change or such an event. */
  lemma PairsOfTimeline(out: seq<Record>, ss: seq<Change>, es: seq<Event>, c: Context, k: Key)
    requires IsTimeline(out, ss, es, c)
    ensures (exists r <- out :: r.key == k) <==> (exists s <- ss :: ChangeOf(s, k)) || (exists ev <- es :: EventOf(ev, k, c))
  {
    hide KeysOf, ChangeOf, EventOf, RecordOf, Sorted, DistinctKeys;
    KeysAre(ss, es, c, k);
    assert (exists r <- out :: r.key == k) <==> k in (set r <- out :: r.key);
  }

  /** The order of texts: a prefix comes first, and otherwise the first difference
      decides. */
  lemma {:induction false} LexOrder(a: string, b: string)
    ensures LexLeq(a, b) <==> a <= b || exists i | 0 <= i < |a| && i < |b| :: a[..i] == b[..i] && a[i] < b[i]
  {
    if a == "" {
    } else if b == "" {
    } else if a[0] != b[0] {
      assert a[..0] == b[..0];
    } else {
      LexOrder(a[1..], b[1..]);
      LexShift(a, b);
    }
  }

  lemma LexShift(a: string, b: string)
    requires a != "" && b != "" && a[0] == b[0]
    ensures a[1..] <= b[1..] <==> a <= b
    ensures (exists i | 0 <= i < |a| - 1 && i < |b| - 1 :: a[1..][..i] == b[1..][..i] && a[1..][i] < b[1..][i]) <==>
            (exists i | 0 <= i < |a| && i < |b| :: a[..i] == b[..i] && a[i] < b[i])
  {
    assert a == [a[0]] + a[1..] && b == [b[0]] + b[1..];
    if i :| 0 <= i < |a| - 1 && i < |b| - 1 && a[1..][..i] == b[1..][..i] && a[1..][i] < b[1..][i] {
      assert a[..i + 1] == [a[0]] + a[1..][..i] && b[..i + 1] == [b[0]] + b[1..][..i];
      assert a[..i + 1] == b[..i + 1] && a[i + 1] < b[i + 1];
    }
    if i :| 0 <= i < |a| && i < |b| && a[..i] == b[..i] && a[i] < b[i] {
      assert a[1..][..i - 1] == a[..i][1..] && b[1..][..i - 1] == b[..i][1..];
      assert a[1..][i - 1] < b[1..][i - 1];
    }
  }

  /** Higher risk first, and of equal risk the one seen last. */
  lemma OrderOfTimeline(out: seq<Record>, ss: seq<Change>, es: seq<Event>, c: Context, i: nat, j: nat)
    requires IsTimeline(out, ss, es, c) && i < j < |out|
    ensures out[i].threat >= out[j].threat
    ensures out[i].threat == out[j].threat ==>
              var a, b := out[j].lastSeen, out[i].lastSeen;
              a <= b || exists x | 0 <= x < |a| && x < |b| :: a[..x] == b[..x] && a[x] < b[x]
  {
    hide Collected;
    assert Before(out[i], out[j]);
    LexOrder(out[j].lastSeen, out[i].lastSeen);
    hide LexLeq, Sorted;
  }

  // ── Which record an event goes to ───────────────────────────────────────

  lemma {:induction false} LastAt(x: string, c: char, y: string)
    requires c !in y
    ensures FindLast(x + [c] + y, c) == Some(|x|)
    decreases |y|
  {
    var s := x + [c] + y;
    if y == "" {
      assert s[|s| - 1] == c;
    } else {
      var n := |y| - 1;
      assert y[n] in y && s[|s| - 1] == y[n];
      assert forall d <- y[..n] :: d in y;
      assert s[..|s| - 1] == x + [c] + y[..n];
      LastAt(x, c, y[..n]);
    }
  }

  predicate NoBrackets(s: string) {
    '[' !in s && ']' !in s
  }

  lemma {:induction false} TrimNothing(s: string)
    requires NoBrackets(s)
    ensures Trim(s) == s
  {
    if s == "" {
    } else {
      assert s[0] in s && s[|s| - 1] in s;
    }
  }

  /** The monitor writes a remote as the address, a colon and the port. The port is
      taken off exactly when the address has no colon of its own: an IPv6 remote
      keeps it. */
  lemma HostOfMonitorRemote(h: string, port: string)
    requires NoBrackets(h) && NoBrackets(port) && ':' !in port
    ensures RemoteHost(h + [':'] + port) == if ':' in h then h + [':'] + port else h
  {
    var s := h + [':'] + port;
    LastAt(h, ':', port);
    assert s[..|h|] == h;
    assert NoBrackets(s);
    assert s[0] in s;
    TrimNothing(h);
    hide FindLast, Trim;
  }

  /** A remote without a port is its own host. */
  lemma HostOfBare(h: string)
    requires ':' !in h
    ensures RemoteHost(h) == h
  {
    hide Trim;
  }

  lemma BracketedPieces(h: string, port: string)
    ensures var s := "[" + h + "]" + [':'] + port;
            && s == ("[" + h) + [']'] + ([':'] + port)
            && |s| > |h| + 2 && s[0] == '[' && s[1..|h| + 1] == h && s[|h| + 2..] == [':'] + port
            && s[1..] == h + [']'] + ([':'] + port)
  {}

  lemma SplitBracketed(s: string, h: string, tail: string)
    requires NoBrackets(h) && tail != "" && NoBrackets(tail)
    requires |s| > |h| + 2 && s[0] == '[' && s[1..|h| + 1] == h && s[|h| + 2..] == tail && s[1..] == h + [']'] + tail
    requires FindLast(s, ':') == Some(|h| + 2) && Find(s, ']') == |h| + 1
    ensures SplitHost(s) == Some(h)
  {
    hide FindLast, Find;
    assert '[' !in s[1..] && ']' !in s[|h| + 2..];
  }

  /** With brackets around the address it comes off whatever the address is. */
  lemma HostOfBracketed(h: string, port: string)
    requires NoBrackets(h) && NoBrackets(port) && ':' !in port
    ensures RemoteHost("[" + h + "]" + [':'] + port) == h
  {
    var s := "[" + h + "]" + [':'] + port;
    BracketedPieces(h, port);
    LastAt("[" + h + "]", ':', port);
    FindAt("[" + h, ']', [':'] + port);
    hide FindLast, Trim, Find, SplitHost;
    SplitBracketed(s, h, [':'] + port);
    TrimNothing(h);
  }

  /** An event the monitor wrote joins the score changes of its binary and address
      exactly when the address has no colon: never for IPv6. */
  lemma EventJoinsItsScores(e: Event, h: string, port: string)
    requires NoBrackets(h) && NoBrackets(port) && ':' !in port && e.remote == h + [':'] + port
    ensures KeyOfEvent(e) == Key(e.exe, h) <==> ':' !in h
  {
    HostOfMonitorRemote(h, port);
    hide RemoteHost;
    assert |h + [':'] + port| > |h|;
  }

  /** Two ports of one address, as the monitor writes them, share a record exactly
      when the address has no colon. */
  lemma PortsShareARecord(e: Event, f: Event, h: string, p: string, q: string)
    requires NoBrackets(h) && NoBrackets(p) && NoBrackets(q) && ':' !in p && ':' !in q && p != q
    requires e.exe == f.exe && e.remote == h + [':'] + p && f.remote == h + [':'] + q
    ensures KeyOfEvent(e) == KeyOfEvent(f) <==> ':' !in h
  {
    HostOfMonitorRemote(h, p);
    HostOfMonitorRemote(h, q);
    hide RemoteHost;
    assert (h + [':'] + p)[|h| + 1..] == p && (h + [':'] + q)[|h| + 1..] == q;
  }
}
