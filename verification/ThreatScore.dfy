/** connections.go, threatScore and coverageIncomplete: the score of a connection,
    in tenths of a point, and the reasons it shows for it. */
module ThreatScore {
  import opened Prelude
  import opened Text
  import opened Breakdown

  // ── What is scored ──────────────────────────────────────────────────────

  datatype Details = Details(badSpawn: string, credFiles: int, execAnomalies: nat)

  datatype Enrichment = Enrichment(
    vtMalicious: Option<int>, abuseScore: Option<int>, provider: string, c2: bool,
    threatFox: string, spamhaus: bool, tor: bool, vulns: nat)

  /** What threatScore reads of a connection. `rateOut` and `cpu` are the texts
      their reasons show; `privateIP` is the verdict of isPrivateIP. */
  datatype Row = Row(
    whitelist: bool, ipWhitelist: bool, vt: string, suspicious: bool, untrusted: bool,
    suspPort: bool, known: string, details: Option<Details>, highEgress: bool,
    rateOut: string, highCPU: bool, cpu: string, sigStatus: string,
    enrich: Option<Enrichment>, remoteIP: string, privateIP: bool)

  const SIG_PENDING := "PENDING"

  const SILENT_STATUSES: set<string> :=
    {"Valid", "N/A", "Unknown", "", "Packaged", "Unmanaged", SIG_PENDING}

  const KEYS: set<string> :=
    {"wl_exe", "wl_ip", "vt", "path_staging", "path_untrusted", "port", "spawn", "exfil",
     "cpu", "creds", "execmap", "unsigned", "sig", "vtip", "abuse_att", "abuse", "c2",
     "threatfox", "spamhaus", "tor", "cves", "partial", "clean"}

  function AtLeastZero(n: int): nat {
    if n > 0 then n else 0
  }

  function Capped(n: int): nat {
    if n > 10 then 10 else AtLeastZero(n)
  }

  function Detections(vt: string): nat {
    match Atoi(vt) case Some(n) => AtLeastZero(n) case None => 0
  }

  function Count(n: Option<int>): nat {
    match n case Some(v) => AtLeastZero(v) case None => 0
  }

  predicate Spawned(row: Row) {
    row.details.Some? && row.details.value.badSpawn != ""
  }

  /** Suspect on a ground that does not depend on its volume or its CPU. */
  predicate Distrusted(row: Row) {
    row.suspicious || row.suspPort || Spawned(row)
  }

  predicate CoverageIncomplete(row: Row) {
    || (row.vt != "NOT_IN_VT" && Atoi(row.vt).None?)
    || (row.remoteIP != "" && !row.privateIP && row.enrich.None?)
    || row.sigStatus == SIG_PENDING
  }

  // ── Signals ─────────────────────────────────────────────────────────────

  /** One possible reason; it is given when it weighs anything. */
  datatype Signal = Signal(tenths: nat, key: string, args: seq<string>)

  function If(on: bool, points: nat, key: string, args: seq<string>): Signal {
    Signal(if on then 10 * points else 0, key, args)
  }

  function VtSignal(r: Row): Signal {
    Signal(60 * Capped(Detections(r.vt)), "vt", [r.vt])
  }

  function PathSignal(r: Row): Signal {
    if r.suspicious then Signal(250, "path_staging", []) else If(r.untrusted, 8, "path_untrusted", [])
  }

  function PortSignal(r: Row): Signal {
    If(r.suspPort, 12, "port", [r.known])
  }

  function SpawnSignal(r: Row): Signal {
    If(Spawned(r), 40, "spawn", [if r.details.Some? then r.details.value.badSpawn else ""])
  }

  function ExfilSignal(r: Row): Signal {
    If(r.highEgress && Distrusted(r), 25, "exfil", [r.rateOut])
  }

  function CpuSignal(r: Row): Signal {
    If(r.highCPU && Distrusted(r), 25, "cpu", [r.cpu])
  }

  function CredFiles(r: Row): nat {
    if r.details.Some? then AtLeastZero(r.details.value.credFiles) else 0
  }

  function ExecAnomalies(r: Row): nat {
    if r.details.Some? then r.details.value.execAnomalies else 0
  }

  function CredSignal(r: Row): Signal {
    If(CredFiles(r) > 0, 25, "creds", [Itoa(CredFiles(r))])
  }

  function ExecSignal(r: Row): Signal {
    If(ExecAnomalies(r) > 0, 30, "execmap", [Itoa(ExecAnomalies(r))])
  }

  function SigSignal(r: Row): Signal {
    if r.sigStatus == "NotSigned" then Signal(150, "unsigned", [])
    else If(r.sigStatus !in SILENT_STATUSES, 10, "sig", [r.sigStatus])
  }

  function VtIpSignal(e: Enrichment): Signal {
    Signal(40 * Capped(Count(e.vtMalicious)), "vtip", [Itoa(Count(e.vtMalicious))])
  }

  /** The only weight that is not a whole number of points. */
  function AbuseSignal(e: Enrichment): Signal {
    var n := Count(e.abuseScore);
    if e.provider != "" then Signal(n, "abuse_att", [Itoa(n), e.provider])
    else Signal(4 * n, "abuse", [Itoa(n)])
  }

  function C2Signal(e: Enrichment): Signal { If(e.c2, 60, "c2", []) }
  function FoxSignal(e: Enrichment): Signal { If(e.threatFox != "", 55, "threatfox", [e.threatFox]) }
  function DropSignal(e: Enrichment): Signal { If(e.spamhaus, 30, "spamhaus", []) }
  function TorSignal(e: Enrichment): Signal { If(e.tor, 15, "tor", []) }
  function CveSignal(e: Enrichment): Signal { If(e.vulns > 0, 10, "cves", [Itoa(e.vulns)]) }

  /** What it is, where it runs from and what it does. */
  function ProcessSignals(r: Row): seq<Signal> {
    [VtSignal(r)] + [PathSignal(r)] + [PortSignal(r)] + [SpawnSignal(r)]
  }

  function BehaviourSignals(r: Row): seq<Signal> {
    ProcessSignals(r) + [ExfilSignal(r)] + [CpuSignal(r)] + [CredSignal(r)] + [ExecSignal(r)] + [SigSignal(r)]
  }

  function FeedSignals(r: Row, e: Enrichment): seq<Signal> {
    BehaviourSignals(r) + [VtIpSignal(e)] + [AbuseSignal(e)] + [C2Signal(e)] + [FoxSignal(e)]
  }

  function Signals(r: Row): seq<Signal> {
    match r.enrich
    case Some(e) => FeedSignals(r, e) + [DropSignal(e)] + [TorSignal(e)] + [CveSignal(e)]
    case None => BehaviourSignals(r)
  }

  // ── From signals to a verdict ───────────────────────────────────────────

  /** The running score and the reasons behind it. */
  datatype Tally = Tally(tenths: nat, rs: seq<Reason>) {
    function Add(tenths: nat, key: string, args: seq<string>): Tally {
      Tally(this.tenths + tenths, rs + [Reason(key, tenths / 10, args)])
    }

    function After(s: Signal): Tally {
      if s.tenths > 0 then Add(s.tenths, s.key, s.args) else this
    }
  }

  function Tallied(ss: seq<Signal>): Tally {
    if ss == [] then Tally(0, []) else Tallied(ss[..|ss| - 1]).After(ss[|ss| - 1])
  }

  function AtMost100(n: int): int {
    if n > 100 then 100 else n
  }

  function Score(row: Row): int {
    if row.whitelist || row.ipWhitelist then 0 else AtMost100(Tallied(Signals(row)).tenths / 10)
  }

  function Why(row: Row): seq<Reason> {
    if row.whitelist then [Reason("wl_exe", 0, [])]
    else if row.ipWhitelist then [Reason("wl_ip", 0, [])]
    else if Tallied(Signals(row)).rs != [] then Tallied(Signals(row)).rs
    else if CoverageIncomplete(row) then [Reason("partial", 0, [])]
    else [Reason("clean", 0, [])]
  }

  /** A row whose zero says that nothing is known of it. */
  predicate Unknown(row: Row) {
    !row.whitelist && !row.ipWhitelist && Tallied(Signals(row)).rs == [] && CoverageIncomplete(row)
  }

  lemma Next(ss: seq<Signal>, s: Signal) returns (next: seq<Signal>)
    ensures next == ss + [s] && Tallied(next) == Tallied(ss).After(s)
  {
    next := ss + [s];
    assert next[..|ss|] == ss;
  }

  // ── threatScore ─────────────────────────────────────────────────────────

  class Conn {
    const row: Row
    var BreakdownCode: string
    var Breakdown: Localized
    var Partial: bool

    constructor (row: Row)
      ensures this.row == row && BreakdownCode == "" && Breakdown == AsIs("") && !Partial
    {
      this.row := row;
      BreakdownCode, Breakdown, Partial := "", AsIs(""), false;
    }

    method ThreatScore() returns (shown: int)
      modifies this
      ensures shown == Score(row)
      ensures BreakdownCode == Encode(Why(row)) && Breakdown == Localize(KEYS, BreakdownCode)
      ensures Partial == (old(Partial) || Unknown(row))
    {
      hide Encode, Tallied, Localize, CoverageIncomplete, AtMost100, FeedSignals, BehaviourSignals, ProcessSignals, DropSignal, TorSignal, CveSignal;
      var rs: seq<Reason>;
      if row.whitelist {
        rs, shown := [Reason("wl_exe", 0, [])], 0;
      } else if row.ipWhitelist {
        rs, shown := [Reason("wl_ip", 0, [])], 0;
      } else {
        var t := AddProcess();
        t := AddBehaviour(t);
        if row.enrich.Some? {
          t := AddFeeds(row.enrich.value, t);
          t := AddLists(row.enrich.value, t);
        }
        assert t == Tallied(Signals(row));
        shown, rs := AtMost100(t.tenths / 10), t.rs;
        if rs == [] {
          if CoverageIncomplete(row) {
            Partial := true;
            rs := [Reason("partial", 0, [])];
          } else {
            rs := [Reason("clean", 0, [])];
          }
        }
      }
      BreakdownCode := Encode(rs);
      Breakdown := Localize(KEYS, BreakdownCode);
    }

    method AddProcess() returns (t: Tally)
      ensures t == Tallied(ProcessSignals(row))
    {
      hide Tallied, Atoi;
      t := Tally(0, []);
      ghost var done: seq<Signal> := [];
      EmptyTally();

      var vt := Atoi(row.vt);
      if vt.Some? && vt.value > 0 {
        var n := if vt.value > 10 then 10 else vt.value;
        t := t.Add(60 * n, "vt", [row.vt]);
      }
      done := Next(done, VtSignal(row));
      assert t == Tallied(done);

      if row.suspicious {
        t := t.Add(250, "path_staging", []);
      } else if row.untrusted {
        t := t.Add(80, "path_untrusted", []);
      }
      done := Next(done, PathSignal(row));
      assert t == Tallied(done);

      if row.suspPort {
        t := t.Add(120, "port", [row.known]);
      }
      done := Next(done, PortSignal(row));
      assert t == Tallied(done);

      if row.details.Some? && row.details.value.badSpawn != "" {
        t := t.Add(400, "spawn", [row.details.value.badSpawn]);
      }
      done := Next(done, SpawnSignal(row));
      assert t == Tallied(done);

      assert done == ProcessSignals(row);
    }

    method AddBehaviour(t0: Tally) returns (t: Tally)
      requires t0 == Tallied(ProcessSignals(row))
      ensures t == Tallied(BehaviourSignals(row))
    {
      hide Tallied, Itoa, ProcessSignals, SILENT_STATUSES;
      t := t0;
      ghost var done := ProcessSignals(row);
      if row.highEgress && (row.suspicious || row.suspPort || (row.details.Some? && row.details.value.badSpawn != "")) {
        t := t.Add(250, "exfil", [row.rateOut]);
      }
      done := Next(done, ExfilSignal(row));
      assert t == Tallied(done);

      if row.highCPU && (row.suspicious || row.suspPort || (row.details.Some? && row.details.value.badSpawn != "")) {
        t := t.Add(250, "cpu", [row.cpu]);
      }
      done := Next(done, CpuSignal(row));
      assert t == Tallied(done);

      if row.details.Some? && row.details.value.credFiles > 0 {
        t := t.Add(250, "creds", [Itoa(row.details.value.credFiles)]);
      }
      done := Next(done, CredSignal(row));
      assert t == Tallied(done);

      if row.details.Some? && row.details.value.execAnomalies > 0 {
        t := t.Add(300, "execmap", [Itoa(row.details.value.execAnomalies)]);
      }
      done := Next(done, ExecSignal(row));
      assert t == Tallied(done);

      if row.sigStatus == "NotSigned" {
        t := t.Add(150, "unsigned", []);
      } else if row.sigStatus !in SILENT_STATUSES {
        t := t.Add(100, "sig", [row.sigStatus]);
      }
      done := Next(done, SigSignal(row));
      assert t == Tallied(done);
      assert done == BehaviourSignals(row);
    }

    /** The signals looked up for the remote address. */
    method AddFeeds(e: Enrichment, t0: Tally) returns (t: Tally)
      requires t0 == Tallied(BehaviourSignals(row))
      ensures t == Tallied(FeedSignals(row, e))
    {
      hide Tallied, Itoa, BehaviourSignals;
      t := t0;
      ghost var done := BehaviourSignals(row);
      if e.vtMalicious.Some? && e.vtMalicious.value > 0 {
        var n := if e.vtMalicious.value > 10 then 10 else e.vtMalicious.value;
        t := t.Add(40 * n, "vtip", [Itoa(e.vtMalicious.value)]);
      }
      done := Next(done, VtIpSignal(e));
      assert t == Tallied(done);

      if e.abuseScore.Some? && e.abuseScore.value > 0 {
        if e.provider != "" {
          t := t.Add(e.abuseScore.value, "abuse_att", [Itoa(e.abuseScore.value), e.provider]);
        } else {
          t := t.Add(4 * e.abuseScore.value, "abuse", [Itoa(e.abuseScore.value)]);
        }
      }
      done := Next(done, AbuseSignal(e));
      assert t == Tallied(done);

      if e.c2 {
        t := t.Add(600, "c2", []);
      }
      done := Next(done, C2Signal(e));
      assert t == Tallied(done);

      if e.threatFox != "" {
        t := t.Add(550, "threatfox", [e.threatFox]);
      }
      done := Next(done, FoxSignal(e));
      assert t == Tallied(done);
      assert done == FeedSignals(row, e);
    }

    method AddLists(e: Enrichment, t0: Tally) returns (t: Tally)
      requires t0 == Tallied(FeedSignals(row, e))
      ensures t == Tallied(FeedSignals(row, e) + [DropSignal(e)] + [TorSignal(e)] + [CveSignal(e)])
    {
      hide Tallied, Itoa, FeedSignals;
      t := t0;
      ghost var done := FeedSignals(row, e);
      if e.spamhaus {
        t := t.Add(300, "spamhaus", []);
      }
      done := Next(done, DropSignal(e));
      assert t == Tallied(done);

      if e.tor {
        t := t.Add(150, "tor", []);
      }
      done := Next(done, TorSignal(e));
      assert t == Tallied(done);

      if e.vulns > 0 {
        t := t.Add(100, "cves", [Itoa(e.vulns)]);
      }
      done := Next(done, CveSignal(e));
      assert t == Tallied(done);
    }
  }

  lemma EmptyTally()
    ensures Tallied([]) == Tally(0, [])
  {}

  // ── The shown score is the sum of the shown points ──────────────────────

  /** The points a breakdown shows. */
  function Points(rs: seq<Reason>): int {
    if rs == [] then 0 else Points(rs[..|rs| - 1]) + rs[|rs| - 1].pts
  }

  predicate Sound(t: Tally) {
    && Points(t.rs) == t.tenths / 10
    && (t.rs == [] <==> t.tenths == 0)
    && forall r <- t.rs :: r.key in KEYS
  }

  predicate Whole(t: Tally) {
    t.tenths % 10 == 0
  }

  lemma SoundAfter(t: Tally, s: Signal)
    requires Sound(t) && s.key in KEYS
    requires Whole(t) || s.tenths % 10 == 0
    ensures Sound(t.After(s))
    ensures Whole(t) && s.tenths % 10 == 0 ==> Whole(t.After(s))
  {
    hide KEYS;
    assert (t.tenths + s.tenths) / 10 == t.tenths / 10 + s.tenths / 10;
  }

  lemma SoundNext(ss: seq<Signal>, s: Signal) returns (next: seq<Signal>)
    requires Sound(Tallied(ss)) && s.key in KEYS
    requires Whole(Tallied(ss)) || s.tenths % 10 == 0
    ensures next == ss + [s] && Sound(Tallied(next))
    ensures Whole(Tallied(ss)) && s.tenths % 10 == 0 ==> Whole(Tallied(next))
  {
    next := Next(ss, s);
    SoundAfter(Tallied(ss), s);
  }

  lemma ProcessSound(r: Row)
    ensures Sound(Tallied(ProcessSignals(r))) && Whole(Tallied(ProcessSignals(r)))
  {
    EmptyTally();
    hide Tallied, Sound, Whole, Atoi;
    assert Sound(Tally(0, [])) && Whole(Tally(0, [])) by { EmptySound(); }
    var ss: seq<Signal> := [];
    ss := SoundNext(ss, VtSignal(r));
    ss := SoundNext(ss, PathSignal(r));
    ss := SoundNext(ss, PortSignal(r));
    ss := SoundNext(ss, SpawnSignal(r));
    assert ss == ProcessSignals(r);
  }

  lemma EmptySound()
    ensures Sound(Tally(0, [])) && Whole(Tally(0, []))
  {}

  lemma BehaviourSound(r: Row)
    ensures Sound(Tallied(BehaviourSignals(r))) && Whole(Tallied(BehaviourSignals(r)))
  {
    ProcessSound(r);
    hide Tallied, Sound, Whole, Itoa, ProcessSignals, SILENT_STATUSES;
    var ss := ProcessSignals(r);
    ss := SoundNext(ss, ExfilSignal(r));
    ss := SoundNext(ss, CpuSignal(r));
    ss := SoundNext(ss, CredSignal(r));
    ss := SoundNext(ss, ExecSignal(r));
    ss := SoundNext(ss, SigSignal(r));
    assert ss == BehaviourSignals(r);
  }

  lemma SignalsSound(r: Row)
    ensures Sound(Tallied(Signals(r)))
  {
    BehaviourSound(r);
    hide Tallied, Sound, Whole, Itoa, BehaviourSignals;
    if r.enrich.Some? {
      var e, ss := r.enrich.value, BehaviourSignals(r);
      ss := SoundNext(ss, VtIpSignal(e));
      ss := SoundNext(ss, AbuseSignal(e));
      ss := SoundNext(ss, C2Signal(e));
      ss := SoundNext(ss, FoxSignal(e));
      assert ss == FeedSignals(r, e);
      ss := SoundNext(ss, DropSignal(e));
      ss := SoundNext(ss, TorSignal(e));
      ss := SoundNext(ss, CveSignal(e));
    }
  }

  lemma KeysAreKeys()
    ensures forall k <- KEYS :: IsKey(k)
  {}

  lemma WhyIsSound(r: Row)
    ensures Why(r) != [] && forall w <- Why(r) :: w.key in KEYS && IsKey(w.key)
    ensures Score(r) == AtMost100(Points(Why(r)))
  {
    SignalsSound(r);
    KeysAreKeys();
    hide Tallied, CoverageIncomplete, Signals, IsKey;
  }

  /** Although one weight is a fraction of a point, the score shown is the sum of
      the points of the breakdown's text, up to 100. */
  lemma ScoreIsInTheCode(r: Row)
    ensures var code := Encode(Why(r));
            && Matches(code)
            && Score(r) == AtMost100(Points(DecodeParts(Split(code, ';'))))
            && 0 <= Score(r) <= 100
  {
    hide Encode, Matches, Split, DecodeParts, Why, Points, IsKey, KEYS;
    WhyIsSound(r);
    DecodeEncode(Why(r));
    ScoreInRange(r);
  }

  lemma ScoreInRange(r: Row)
    ensures 0 <= Score(r) <= 100
  {
    hide Tallied, Signals;
  }

  /** The tooltip never shows the raw code: every reason's key is known. */
  lemma TooltipShowsReasons(r: Row)
    ensures Localize(KEYS, Encode(Why(r))) == Reasons(Why(r))
  {
    WhyIsSound(r);
    hide Encode, Why, Points, KEYS, Localize, IsKey;
    LocalizeEncode(KEYS, Why(r));
  }

  /** Two connections have the same code exactly when they have the same reasons,
      and then the same score. */
  lemma SameCode(a: Row, b: Row)
    ensures Encode(Why(a)) == Encode(Why(b)) <==> Why(a) == Why(b)
    ensures Why(a) == Why(b) ==> Score(a) == Score(b)
  {
    WhyIsSound(a);
    WhyIsSound(b);
    hide Encode, Why, Points, KEYS, IsKey;
    if Encode(Why(a)) == Encode(Why(b)) {
      EncodeInjective(Why(a), Why(b));
    }
  }

  // ── The weights, in the row's own terms ─────────────────────────────────

  /** Suspect for its place, its port or the chain that started it. */
  predicate Suspect(r: Row) {
    r.suspicious || r.suspPort || (r.details.Some? && r.details.value.badSpawn != "")
  }

  /** In tenths of a point: six points for each detection up to ten, 25 for a staging
      path or 8 for a downloads one, 12 for a malware port, 40 for a bad spawn chain. */
  function ProcessTenths(r: Row): int {
    (match Atoi(r.vt) case Some(n) => (if n > 10 then 600 else if n > 0 then 60 * n else 0) case None => 0)
    + (if r.suspicious then 250 else if r.untrusted then 80 else 0)
    + (if r.suspPort then 120 else 0)
    + (if r.details.Some? && r.details.value.badSpawn != "" then 400 else 0)
  }

  /** 25 points each for sustained egress and CPU of a suspect process, 25 for
      credentials, 30 for executable memory, and 15 for no signature or 10 for one that
      does not validate. */
  function BehaviourTenths(r: Row): int {
    (if r.highEgress && Suspect(r) then 250 else 0)
    + (if r.highCPU && Suspect(r) then 250 else 0)
    + (if r.details.Some? && r.details.value.credFiles > 0 then 250 else 0)
    + (if r.details.Some? && r.details.value.execAnomalies > 0 then 300 else 0)
    + (if r.sigStatus == "NotSigned" then 150
       else if r.sigStatus in {"Valid", "N/A", "Unknown", "", "Packaged", "Unmanaged", "PENDING"} then 0 else 100)
  }

  /** Four points for each malicious verdict up to ten, 0.1 or 0.4 for each percent of
      abuse, 60 for Feodo, 55 for ThreatFox, 30 for Spamhaus, 15 for Tor, 10 for CVEs. */
  function AddressTenths(e: Enrichment): int {
    (match e.vtMalicious case Some(n) => (if n > 10 then 400 else if n > 0 then 40 * n else 0) case None => 0)
    + (match e.abuseScore case Some(n) => (if n <= 0 then 0 else if e.provider != "" then n else 4 * n) case None => 0)
    + (if e.c2 then 600 else 0)
    + (if e.threatFox != "" then 550 else 0)
    + (if e.spamhaus then 300 else 0)
    + (if e.tor then 150 else 0)
    + (if e.vulns > 0 then 100 else 0)
  }

  lemma NextWeighs(ss: seq<Signal>, s: Signal) returns (next: seq<Signal>)
    ensures next == ss + [s] && Tallied(next).tenths == Tallied(ss).tenths + s.tenths
  {
    next := Next(ss, s);
  }

  lemma ProcessWeighs(r: Row)
    ensures Tallied(ProcessSignals(r)).tenths == ProcessTenths(r)
  {
    EmptyTally();
    hide Tallied, Atoi;
    var ss := NextWeighs([], VtSignal(r));
    ss := NextWeighs(ss, PathSignal(r));
    ss := NextWeighs(ss, PortSignal(r));
    ss := NextWeighs(ss, SpawnSignal(r));
    assert ss == ProcessSignals(r);
  }

  lemma BehaviourTotal(r: Row)
    ensures Tallied(BehaviourSignals(r)).tenths == ProcessTenths(r) + BehaviourTenths(r)
  {
    ProcessWeighs(r);
    hide Tallied, Itoa, ProcessSignals, ProcessTenths;
    var ss := NextWeighs(ProcessSignals(r), ExfilSignal(r));
    ss := NextWeighs(ss, CpuSignal(r));
    ss := NextWeighs(ss, CredSignal(r));
    ss := NextWeighs(ss, ExecSignal(r));
    ss := NextWeighs(ss, SigSignal(r));
    assert ss == BehaviourSignals(r);
  }

  lemma AddressTotal(r: Row, e: Enrichment)
    requires r.enrich == Some(e)
    ensures Tallied(Signals(r)).tenths == Tallied(BehaviourSignals(r)).tenths + AddressTenths(e)
  {
    hide Tallied, Itoa, BehaviourSignals;
    var ss := NextWeighs(BehaviourSignals(r), VtIpSignal(e));
    ss := NextWeighs(ss, AbuseSignal(e));
    ss := NextWeighs(ss, C2Signal(e));
    ss := NextWeighs(ss, FoxSignal(e));
    assert ss == FeedSignals(r, e);
    ss := NextWeighs(ss, DropSignal(e));
    ss := NextWeighs(ss, TorSignal(e));
    ss := NextWeighs(ss, CveSignal(e));
  }

  /** The score, by what is seen of a connection alone. */
  lemma ScoreOfSigns(r: Row)
    ensures Score(r) ==
            if r.whitelist || r.ipWhitelist then 0
            else
              var tenths := ProcessTenths(r) + BehaviourTenths(r) +
                            (match r.enrich case Some(e) => AddressTenths(e) case None => 0);
              if tenths > 1000 then 100 else tenths / 10
  {
    BehaviourTotal(r);
    hide Tallied, BehaviourSignals, ProcessTenths, BehaviourTenths, AddressTenths;
    match r.enrich
    case Some(e) =>
      AddressTotal(r, e);
      hide Signals;
    case None =>
  }

  // ── The reasons, in the row's own terms ─────────────────────────────────

  /** What is said of the process. */
  predicate SaidOfProcess(r: Row, w: Reason) {
    || (Atoi(r.vt).Some? && Atoi(r.vt).value > 0
        && w == Reason("vt", 6 * (if Atoi(r.vt).value > 10 then 10 else Atoi(r.vt).value), [r.vt]))
    || (r.suspicious && w == Reason("path_staging", 25, []))
    || (!r.suspicious && r.untrusted && w == Reason("path_untrusted", 8, []))
    || (r.suspPort && w == Reason("port", 12, [r.known]))
    || (r.details.Some? && r.details.value.badSpawn != "" && w == Reason("spawn", 40, [r.details.value.badSpawn]))
  }

  /** What is said of what it does and of its signature. */
  predicate SaidOfBehaviour(r: Row, w: Reason) {
    || (r.highEgress && Suspect(r) && w == Reason("exfil", 25, [r.rateOut]))
    || (r.highCPU && Suspect(r) && w == Reason("cpu", 25, [r.cpu]))
    || (r.details.Some? && r.details.value.credFiles > 0 && w == Reason("creds", 25, [Itoa(r.details.value.credFiles)]))
    || (r.details.Some? && r.details.value.execAnomalies > 0
        && w == Reason("execmap", 30, [Itoa(r.details.value.execAnomalies)]))
    || (r.sigStatus == "NotSigned" && w == Reason("unsigned", 15, []))
    || (r.sigStatus !in {"NotSigned", "Valid", "N/A", "Unknown", "", "Packaged", "Unmanaged", "PENDING"}
        && w == Reason("sig", 10, [r.sigStatus]))
  }

  /** What is said of the address. */
  predicate SaidOfAddress(e: Enrichment, w: Reason) {
    || (e.vtMalicious.Some? && e.vtMalicious.value > 0
        && w == Reason("vtip", 4 * (if e.vtMalicious.value > 10 then 10 else e.vtMalicious.value), [Itoa(e.vtMalicious.value)]))
    || (e.abuseScore.Some? && e.abuseScore.value > 0
        && w == if e.provider != "" then Reason("abuse_att", e.abuseScore.value / 10, [Itoa(e.abuseScore.value), e.provider])
                else Reason("abuse", 4 * e.abuseScore.value / 10, [Itoa(e.abuseScore.value)]))
    || (e.c2 && w == Reason("c2", 60, []))
    || (e.threatFox != "" && w == Reason("threatfox", 55, [e.threatFox]))
    || (e.spamhaus && w == Reason("spamhaus", 30, []))
    || (e.tor && w == Reason("tor", 15, []))
    || (e.vulns > 0 && w == Reason("cves", 10, [Itoa(e.vulns)]))
  }

  predicate Gives(s: Signal, w: Reason) {
    s.tenths > 0 && w == Reason(s.key, s.tenths / 10, s.args)
  }

  lemma NextGives(ss: seq<Signal>, s: Signal, w: Reason) returns (next: seq<Signal>)
    ensures next == ss + [s] && (w in Tallied(next).rs <==> w in Tallied(ss).rs || Gives(s, w))
  {
    next := Next(ss, s);
  }

  lemma ProcessGives(r: Row, w: Reason)
    ensures w in Tallied(ProcessSignals(r)).rs <==> SaidOfProcess(r, w)
  {
    EmptyTally();
    VtGives(r, w);
    hide Tallied, Atoi, VtSignal;
    var ss := NextGives([], VtSignal(r), w);
    ss := NextGives(ss, PathSignal(r), w);
    ss := NextGives(ss, PortSignal(r), w);
    ss := NextGives(ss, SpawnSignal(r), w);
    assert ss == ProcessSignals(r);
  }

  lemma VtGives(r: Row, w: Reason)
    ensures Gives(VtSignal(r), w) <==>
            Atoi(r.vt).Some? && Atoi(r.vt).value > 0
            && w == Reason("vt", 6 * (if Atoi(r.vt).value > 10 then 10 else Atoi(r.vt).value), [r.vt])
  {
    hide Atoi;
  }

  lemma BehaviourGives(r: Row, w: Reason)
    ensures w in Tallied(BehaviourSignals(r)).rs <==> SaidOfProcess(r, w) || SaidOfBehaviour(r, w)
  {
    ProcessGives(r, w);
    hide Tallied, Itoa, ProcessSignals, SaidOfProcess;
    var ss := NextGives(ProcessSignals(r), ExfilSignal(r), w);
    ss := NextGives(ss, CpuSignal(r), w);
    ss := NextGives(ss, CredSignal(r), w);
    ss := NextGives(ss, ExecSignal(r), w);
    ss := NextGives(ss, SigSignal(r), w);
    assert ss == BehaviourSignals(r);
  }

  lemma AddressGives(r: Row, e: Enrichment, w: Reason)
    requires r.enrich == Some(e)
    ensures w in Tallied(Signals(r)).rs <==> w in Tallied(BehaviourSignals(r)).rs || SaidOfAddress(e, w)
  {
    VtIpGives(e, w);
    hide Tallied, Itoa, BehaviourSignals, VtIpSignal;
    var ss := NextGives(BehaviourSignals(r), VtIpSignal(e), w);
    ss := NextGives(ss, AbuseSignal(e), w);
    ss := NextGives(ss, C2Signal(e), w);
    ss := NextGives(ss, FoxSignal(e), w);
    assert ss == FeedSignals(r, e);
    ss := NextGives(ss, DropSignal(e), w);
    ss := NextGives(ss, TorSignal(e), w);
    ss := NextGives(ss, CveSignal(e), w);
  }

  lemma VtIpGives(e: Enrichment, w: Reason)
    ensures Gives(VtIpSignal(e), w) <==>
            e.vtMalicious.Some? && e.vtMalicious.value > 0
            && w == Reason("vtip", 4 * (if e.vtMalicious.value > 10 then 10 else e.vtMalicious.value), [Itoa(e.vtMalicious.value)])
  {
    hide Itoa;
  }

  /** Whether the low score may only mean that nothing is known: no verdict of VirusTotal,
      a public address not looked up, or a signature still pending. */
  predicate Uncovered(r: Row) {
    || (r.vt != "NOT_IN_VT" && Atoi(r.vt) == None)
    || (r.remoteIP != "" && !r.privateIP && r.enrich == None)
    || r.sigStatus == "PENDING"
  }

  /** The reasons shown of a connection are those of the signs seen of it and no others;
      without any they say whether it is clean or not covered, and only then is it
      marked. */
  lemma ReasonsOfSigns(r: Row, w: Reason)
    requires !r.whitelist && !r.ipWhitelist
    ensures var seen := SaidOfProcess(r, w) || SaidOfBehaviour(r, w) || (r.enrich.Some? && SaidOfAddress(r.enrich.value, w));
            && (seen ==> w in Why(r))
            && (w in Why(r) && w.key !in {"partial", "clean"} ==> seen)
            && (w in Why(r) && w.key in {"partial", "clean"} ==>
                  Why(r) == [w] && w == Reason(if Uncovered(r) then "partial" else "clean", 0, []))
    ensures Unknown(r) <==> Why(r) == [Reason("partial", 0, [])]
  {
    BehaviourGives(r, w);
    NoMark(r, w);
    if r.enrich.Some? {
      AddressGives(r, r.enrich.value, w);
    }
    UncoveredIs(r);
    MarkIsNoSign(r);
    hide Tallied, BehaviourSignals, SaidOfProcess, SaidOfBehaviour, SaidOfAddress, CoverageIncomplete, Uncovered;
    if r.enrich.None? {
      assert Signals(r) == BehaviourSignals(r);
    }
    hide Signals;
  }

  lemma UncoveredIs(r: Row)
    ensures CoverageIncomplete(r) <==> Uncovered(r)
  {
    hide Atoi;
  }

  /** No sign is given under the two keys of an empty list. */
  lemma NoMark(r: Row, w: Reason)
    ensures SaidOfProcess(r, w) || SaidOfBehaviour(r, w) || (r.enrich.Some? && SaidOfAddress(r.enrich.value, w)) ==>
              w.key !in {"partial", "clean"}
  {
    hide Atoi, Itoa;
  }

  lemma MarkIsNoSign(r: Row)
    ensures Reason("partial", 0, []) !in Tallied(Signals(r)).rs
  {
    var w := Reason("partial", 0, []);
    NoMark(r, w);
    BehaviourGives(r, w);
    if r.enrich.Some? {
      AddressGives(r, r.enrich.value, w);
    }
    hide Tallied, BehaviourSignals, SaidOfProcess, SaidOfBehaviour, SaidOfAddress;
  }

  /** The place of a key among the reasons. */
  function Place(key: string): nat {
    if key == "vt" then 1
    else if key == "path_staging" || key == "path_untrusted" then 2
    else if key == "port" then 3
    else if key == "spawn" then 4
    else if key == "exfil" then 5
    else if key == "cpu" then 6
    else if key == "creds" then 7
    else if key == "execmap" then 8
    else if key == "unsigned" || key == "sig" then 9
    else if key == "vtip" then 10
    else if key == "abuse_att" || key == "abuse" then 11
    else if key == "c2" then 12
    else if key == "threatfox" then 13
    else if key == "spamhaus" then 14
    else if key == "tor" then 15
    else if key == "cves" then 16
    else 0
  }

  predicate InOrder(rs: seq<Reason>, last: nat) {
    && (forall i, j | 0 <= i < j < |rs| :: Place(rs[i].key) < Place(rs[j].key))
    && forall i | 0 <= i < |rs| :: Place(rs[i].key) <= last
  }

  lemma NextInOrder(ss: seq<Signal>, s: Signal, last: nat) returns (next: seq<Signal>)
    requires InOrder(Tallied(ss).rs, last) && Place(s.key) == last + 1
    ensures next == ss + [s] && InOrder(Tallied(next).rs, last + 1)
  {
    next := Next(ss, s);
    hide Tallied, Place;
  }

  lemma ProcessInOrder(r: Row)
    ensures InOrder(Tallied(ProcessSignals(r)).rs, 4)
  {
    EmptyTally();
    hide Tallied, InOrder, Atoi;
    assert InOrder([], 0) by { NothingInOrder(); }
    var ss := NextInOrder([], VtSignal(r), 0);
    ss := NextInOrder(ss, PathSignal(r), 1);
    ss := NextInOrder(ss, PortSignal(r), 2);
    ss := NextInOrder(ss, SpawnSignal(r), 3);
    assert ss == ProcessSignals(r);
  }

  lemma NothingInOrder()
    ensures InOrder([], 0)
  {}

  lemma BehaviourInOrder(r: Row)
    ensures InOrder(Tallied(BehaviourSignals(r)).rs, 9)
  {
    ProcessInOrder(r);
    hide Tallied, InOrder, Itoa, ProcessSignals;
    var ss := NextInOrder(ProcessSignals(r), ExfilSignal(r), 4);
    ss := NextInOrder(ss, CpuSignal(r), 5);
    ss := NextInOrder(ss, CredSignal(r), 6);
    ss := NextInOrder(ss, ExecSignal(r), 7);
    ss := NextInOrder(ss, SigSignal(r), 8);
    assert ss == BehaviourSignals(r);
  }

  lemma FeedsInOrder(r: Row, e: Enrichment)
    ensures InOrder(Tallied(FeedSignals(r, e)).rs, 13)
  {
    BehaviourInOrder(r);
    hide Tallied, InOrder, Itoa, BehaviourSignals;
    var ss := NextInOrder(BehaviourSignals(r), VtIpSignal(e), 9);
    ss := NextInOrder(ss, AbuseSignal(e), 10);
    ss := NextInOrder(ss, C2Signal(e), 11);
    ss := NextInOrder(ss, FoxSignal(e), 12);
    assert ss == FeedSignals(r, e);
  }

  lemma AddressInOrder(r: Row, e: Enrichment)
    requires r.enrich == Some(e)
    ensures InOrder(Tallied(Signals(r)).rs, 16)
  {
    FeedsInOrder(r, e);
    hide Tallied, InOrder, Itoa, FeedSignals;
    var ss := NextInOrder(FeedSignals(r, e), DropSignal(e), 13);
    ss := NextInOrder(ss, TorSignal(e), 14);
    ss := NextInOrder(ss, CveSignal(e), 15);
  }

  /** The reasons are shown in a fixed order, no key twice; a whitelisted row gives its
      whitelist as the only one. */
  lemma ReasonsInOrder(r: Row, i: nat, j: nat)
    ensures r.whitelist ==> Why(r) == [Reason("wl_exe", 0, [])]
    ensures !r.whitelist && r.ipWhitelist ==> Why(r) == [Reason("wl_ip", 0, [])]
    ensures i < j < |Why(r)| ==> Place(Why(r)[i].key) < Place(Why(r)[j].key)
  {
    BehaviourInOrder(r);
    if r.enrich.Some? {
      AddressInOrder(r, r.enrich.value);
    }
    hide Tallied, BehaviourSignals, Place, CoverageIncomplete;
    if r.enrich.None? {
      assert Signals(r) == BehaviourSignals(r);
    }
    hide Signals;
  }

  // ── Monotone ────────────────────────────────────────────────────────────

  /** Everything detected of `a` is detected of `b` at least as much. The provider
      and the signature may only change for the worse. */
  predicate Milder(a: Row, b: Row) {
    && Detections(a.vt) <= Detections(b.vt)
    && (a.suspicious ==> b.suspicious)
    && (a.untrusted ==> b.untrusted)
    && (a.suspPort ==> b.suspPort)
    && (Spawned(a) ==> Spawned(b))
    && (a.highEgress ==> b.highEgress)
    && (a.highCPU ==> b.highCPU)
    && CredFiles(a) <= CredFiles(b)
    && ExecAnomalies(a) <= ExecAnomalies(b)
    && (a.sigStatus == b.sigStatus || a.sigStatus in SILENT_STATUSES || b.sigStatus == "NotSigned")
    && (a.enrich.Some? ==> b.enrich.Some? && MilderAddress(a.enrich.value, b.enrich.value))
  }

  predicate MilderAddress(a: Enrichment, b: Enrichment) {
    && Count(a.vtMalicious) <= Count(b.vtMalicious)
    && Count(a.abuseScore) <= Count(b.abuseScore)
    && (b.provider != "" ==> a.provider != "")
    && (a.c2 ==> b.c2)
    && (a.threatFox != "" ==> b.threatFox != "")
    && (a.spamhaus ==> b.spamhaus)
    && (a.tor ==> b.tor)
    && a.vulns <= b.vulns
  }

  predicate Below(a: seq<Signal>, b: seq<Signal>) {
    Tallied(a).tenths <= Tallied(b).tenths
  }

  lemma BelowNext(xs: seq<Signal>, ys: seq<Signal>, x: Signal, y: Signal)
    requires Below(xs, ys) && x.tenths <= y.tenths
    ensures Below(xs + [x], ys + [y])
  {
    var xs' := Next(xs, x);
    var ys' := Next(ys, y);
  }

  lemma AboveNext(xs: seq<Signal>, ys: seq<Signal>, y: Signal)
    requires Below(xs, ys)
    ensures Below(xs, ys + [y])
  {
    var ys' := Next(ys, y);
  }

  lemma BelowBoth(xs: seq<Signal>, ys: seq<Signal>, x: Signal, y: Signal) returns (xs': seq<Signal>, ys': seq<Signal>)
    requires Below(xs, ys) && x.tenths <= y.tenths
    ensures xs' == xs + [x] && ys' == ys + [y] && Below(xs', ys')
  {
    xs', ys' := xs + [x], ys + [y];
    BelowNext(xs, ys, x, y);
  }

  lemma ProcessBelow(a: Row, b: Row)
    requires Milder(a, b)
    ensures Below(ProcessSignals(a), ProcessSignals(b))
  {
    assert Below([], []);
    hide Below, Atoi, Itoa;
    var xs: seq<Signal>, ys: seq<Signal> := [], [];
    xs, ys := BelowBoth(xs, ys, VtSignal(a), VtSignal(b));
    xs, ys := BelowBoth(xs, ys, PathSignal(a), PathSignal(b));
    xs, ys := BelowBoth(xs, ys, PortSignal(a), PortSignal(b));
    xs, ys := BelowBoth(xs, ys, SpawnSignal(a), SpawnSignal(b));
    assert xs == ProcessSignals(a) && ys == ProcessSignals(b);
  }

  lemma BehaviourBelow(a: Row, b: Row)
    requires Milder(a, b)
    ensures Below(BehaviourSignals(a), BehaviourSignals(b))
  {
    ProcessBelow(a, b);
    hide Below, Atoi, Itoa, ProcessSignals;
    var xs, ys := ProcessSignals(a), ProcessSignals(b);
    xs, ys := BelowBoth(xs, ys, ExfilSignal(a), ExfilSignal(b));
    xs, ys := BelowBoth(xs, ys, CpuSignal(a), CpuSignal(b));
    xs, ys := BelowBoth(xs, ys, CredSignal(a), CredSignal(b));
    xs, ys := BelowBoth(xs, ys, ExecSignal(a), ExecSignal(b));
    xs, ys := BelowBoth(xs, ys, SigSignal(a), SigSignal(b));
    assert xs == BehaviourSignals(a) && ys == BehaviourSignals(b);
  }

  lemma AddressBelow(a: Row, b: Row, d: Enrichment, e: Enrichment)
    requires Below(BehaviourSignals(a), BehaviourSignals(b)) && MilderAddress(d, e)
    requires a.enrich == Some(d) && b.enrich == Some(e)
    ensures Below(Signals(a), Signals(b))
  {
    hide Below, Itoa, BehaviourSignals;
    var xs, ys := BehaviourSignals(a), BehaviourSignals(b);
    xs, ys := BelowBoth(xs, ys, VtIpSignal(d), VtIpSignal(e));
    xs, ys := BelowBoth(xs, ys, AbuseSignal(d), AbuseSignal(e));
    xs, ys := BelowBoth(xs, ys, C2Signal(d), C2Signal(e));
    xs, ys := BelowBoth(xs, ys, FoxSignal(d), FoxSignal(e));
    assert xs == FeedSignals(a, d) && ys == FeedSignals(b, e);
    xs, ys := BelowBoth(xs, ys, DropSignal(d), DropSignal(e));
    xs, ys := BelowBoth(xs, ys, TorSignal(d), TorSignal(e));
    xs, ys := BelowBoth(xs, ys, CveSignal(d), CveSignal(e));
  }

  lemma NewAddressBelow(a: Row, b: Row)
    requires Below(BehaviourSignals(a), BehaviourSignals(b)) && a.enrich.None?
    ensures Below(Signals(a), Signals(b))
  {
    hide Below, Itoa, BehaviourSignals, VtIpSignal, AbuseSignal, C2Signal, FoxSignal, DropSignal, TorSignal, CveSignal;
    if b.enrich.Some? {
      var e, xs, ys := b.enrich.value, BehaviourSignals(a), BehaviourSignals(b);
      AboveNext(xs, ys, VtIpSignal(e));
      ys := ys + [VtIpSignal(e)];
      AboveNext(xs, ys, AbuseSignal(e));
      ys := ys + [AbuseSignal(e)];
      AboveNext(xs, ys, C2Signal(e));
      ys := ys + [C2Signal(e)];
      AboveNext(xs, ys, FoxSignal(e));
      ys := ys + [FoxSignal(e)];
      AboveNext(xs, ys, DropSignal(e));
      ys := ys + [DropSignal(e)];
      AboveNext(xs, ys, TorSignal(e));
      ys := ys + [TorSignal(e)];
      AboveNext(xs, ys, CveSignal(e));
    }
  }

  lemma SignalsBelow(a: Row, b: Row)
    requires Milder(a, b)
    ensures Below(Signals(a), Signals(b))
  {
    BehaviourBelow(a, b);
    hide Below, Signals, BehaviourSignals, MilderAddress;
    if a.enrich.Some? {
      AddressBelow(a, b, a.enrich.value, b.enrich.value);
    } else {
      NewAddressBelow(a, b);
    }
  }

  /** More evidence never lowers the score: in every count and every flag at once,
      through the caps, the staging-over-downloads switch and the two combinations. */
  lemma ScoreIsMonotone(a: Row, b: Row)
    requires Milder(a, b) && !b.whitelist && !b.ipWhitelist
    ensures Score(a) <= Score(b)
  {
    SignalsBelow(a, b);
    hide Tallied, Signals, Milder;
  }

  // ── What a zero means ───────────────────────────────────────────────────

  function WithoutAbuse(r: Row): Row {
    match r.enrich
    case Some(e) => r.(enrich := Some(e.(abuseScore := None)))
    case None => r
  }

  /** An AbuseIPDB confidence worth less than one point. */
  predicate FaintAbuse(r: Row) {
    r.enrich.Some? &&
    var n := Count(r.enrich.value.abuseScore);
    0 < n < if r.enrich.value.provider != "" then 10 else 3
  }

  /** Two enrichments that differ at most in their abuse report. */
  predicate SameButAbuse(e: Enrichment, f: Enrichment) {
    e.(abuseScore := None) == f.(abuseScore := None)
  }

  lemma OnlyAbuseDiffers(e: Enrichment, f: Enrichment)
    requires SameButAbuse(e, f)
    ensures VtIpSignal(e) == VtIpSignal(f) && C2Signal(e) == C2Signal(f) && FoxSignal(e) == FoxSignal(f)
    ensures DropSignal(e) == DropSignal(f) && TorSignal(e) == TorSignal(f) && CveSignal(e) == CveSignal(f)
    ensures forall s <- [VtIpSignal(f), C2Signal(f), FoxSignal(f), DropSignal(f), TorSignal(f), CveSignal(f)] ::
              s.tenths % 10 == 0
  {}

  lemma FeedsApart(r: Row, q: Row, e: Enrichment, f: Enrichment, d: nat)
    requires Tallied(BehaviourSignals(r)).tenths == Tallied(BehaviourSignals(q)).tenths + d
    requires SameButAbuse(e, f) && Whole(Tallied(BehaviourSignals(q)))
    requires AbuseSignal(f).tenths == 0 || e == f
    ensures Tallied(FeedSignals(r, e)).tenths ==
            Tallied(FeedSignals(q, f)).tenths + d + if e == f then 0 else AbuseSignal(e).tenths
    ensures AbuseSignal(f).tenths == 0 ==> Whole(Tallied(FeedSignals(q, f)))
  {
    OnlyAbuseDiffers(e, f);
    hide Tallied, BehaviourSignals, VtIpSignal, AbuseSignal, C2Signal, FoxSignal, Whole, SameButAbuse;
    var xs, ys := Apart(BehaviourSignals(r), BehaviourSignals(q), VtIpSignal(e), VtIpSignal(f), d);
    var d' := d + if e == f then 0 else AbuseSignal(e).tenths;
    xs, ys := Apart(xs, ys, AbuseSignal(e), AbuseSignal(f), d');
    xs, ys := Apart(xs, ys, C2Signal(e), C2Signal(f), d');
    xs, ys := Apart(xs, ys, FoxSignal(e), FoxSignal(f), d');
    assert xs == FeedSignals(r, e) && ys == FeedSignals(q, f);
  }

  /** How far apart the scores of two rows are whose enrichments differ at most in
      their abuse report. */
  lemma SignalsApart(r: Row, q: Row, e: Enrichment, f: Enrichment, d: nat)
    requires r.enrich == Some(e) && q.enrich == Some(f)
    requires Tallied(BehaviourSignals(r)).tenths == Tallied(BehaviourSignals(q)).tenths + d
    requires SameButAbuse(e, f) && Whole(Tallied(BehaviourSignals(q)))
    requires AbuseSignal(f).tenths == 0 || e == f
    ensures Tallied(Signals(r)).tenths ==
            Tallied(Signals(q)).tenths + d + if e == f then 0 else AbuseSignal(e).tenths
    ensures AbuseSignal(f).tenths == 0 ==> Whole(Tallied(Signals(q)))
  {
    FeedsApart(r, q, e, f, d);
    OnlyAbuseDiffers(e, f);
    hide Tallied, FeedSignals, DropSignal, TorSignal, CveSignal, Whole, SameButAbuse, AbuseSignal;
    var d' := d + if e == f then 0 else AbuseSignal(e).tenths;
    var xs, ys := Apart(FeedSignals(r, e), FeedSignals(q, f), DropSignal(e), DropSignal(f), d');
    xs, ys := Apart(xs, ys, TorSignal(e), TorSignal(f), d');
    xs, ys := Apart(xs, ys, CveSignal(e), CveSignal(f), d');
  }

  /** Taking the abuse report out leaves a whole number of points. */
  lemma AbuseWeighs(r: Row)
    ensures Tallied(Signals(r)).tenths == Tallied(Signals(WithoutAbuse(r))).tenths +
                                          if r.enrich.Some? then AbuseSignal(r.enrich.value).tenths else 0
    ensures Whole(Tallied(Signals(WithoutAbuse(r))))
  {
    var q := WithoutAbuse(r);
    assert BehaviourSignals(q) == BehaviourSignals(r);
    BehaviourSound(r);
    if r.enrich.Some? {
      assert AbuseSignal(q.enrich.value).tenths == 0;
      hide Tallied, BehaviourSignals, Signals, Whole;
      SignalsApart(r, q, r.enrich.value, q.enrich.value, 0);
    }
  }

  lemma Apart(xs: seq<Signal>, ys: seq<Signal>, x: Signal, y: Signal, d: nat) returns (xs': seq<Signal>, ys': seq<Signal>)
    requires Tallied(xs).tenths + x.tenths == Tallied(ys).tenths + y.tenths + d
    ensures xs' == xs + [x] && ys' == ys + [y]
    ensures Tallied(xs').tenths == Tallied(ys').tenths + d
    ensures Whole(Tallied(ys)) && y.tenths % 10 == 0 ==> Whole(Tallied(ys'))
  {
    xs' := Next(xs, x);
    ys' := Next(ys, y);
  }

  /** Of the rows that scored zero without being complete, the ones left without
      the mark are exactly those with a faint abuse report and nothing else. */
  lemma UnmarkedZero(r: Row)
    requires !r.whitelist && !r.ipWhitelist && CoverageIncomplete(r)
    ensures Score(r) == 0 && !Unknown(r) <==> FaintAbuse(r) && Tallied(Signals(WithoutAbuse(r))).rs == []
  {
    SignalsSound(r);
    SignalsSound(WithoutAbuse(r));
    AbuseWeighs(r);
    hide Tallied, CoverageIncomplete, Signals, Points, KEYS;
  }

  /** A row of which nothing is known but a 2 % abuse report: no verdict from
      VirusTotal yet, the signature still pending. */
  const FAINT_ROW := Row(false, false, "PENDING", false, false, false, "", None, false, "", false, "", SIG_PENDING,
    Some(Enrichment(None, Some(2), "", false, "", false, false, 0)), "203.0.113.7", false)

  lemma FaintSignals()
    ensures var e := FAINT_ROW.enrich.value;
            && VtSignal(FAINT_ROW).tenths == 0 && PathSignal(FAINT_ROW).tenths == 0 && PortSignal(FAINT_ROW).tenths == 0
            && SpawnSignal(FAINT_ROW).tenths == 0 && ExfilSignal(FAINT_ROW).tenths == 0 && CpuSignal(FAINT_ROW).tenths == 0
            && CredSignal(FAINT_ROW).tenths == 0 && ExecSignal(FAINT_ROW).tenths == 0 && SigSignal(FAINT_ROW).tenths == 0
            && VtIpSignal(e).tenths == 0 && C2Signal(e).tenths == 0 && FoxSignal(e).tenths == 0
            && DropSignal(e).tenths == 0 && TorSignal(e).tenths == 0 && CveSignal(e).tenths == 0
            && AbuseSignal(e) == Signal(8, "abuse", ["2"])
  {
    assert !IsDigits("PENDING") by {
      assert 'P' in "PENDING";
    }
    assert Digits(2) == ['2'];
  }

  lemma FaintBehaviour()
    ensures Tallied(BehaviourSignals(FAINT_ROW)) == Tally(0, [])
  {
    FaintSignals();
    var r := FAINT_ROW;
    EmptyTally();
    hide Tallied, VtSignal, PathSignal, PortSignal, SpawnSignal, ExfilSignal, CpuSignal, CredSignal,
         ExecSignal, SigSignal, FAINT_ROW;
    var ss := Next([], VtSignal(r));
    ss := Next(ss, PathSignal(r));
    ss := Next(ss, PortSignal(r));
    ss := Next(ss, SpawnSignal(r));
    assert ss == ProcessSignals(r);
    ss := Next(ss, ExfilSignal(r));
    ss := Next(ss, CpuSignal(r));
    ss := Next(ss, CredSignal(r));
    ss := Next(ss, ExecSignal(r));
    ss := Next(ss, SigSignal(r));
    assert ss == BehaviourSignals(r);
  }

  lemma FaintTally()
    ensures Tallied(Signals(FAINT_ROW)) == Tally(8, [Reason("abuse", 0, ["2"])])
  {
    FaintSignals();
    FaintBehaviour();
    var r, e := FAINT_ROW, FAINT_ROW.enrich.value;
    assert r.enrich == Some(e);
    hide Tallied, BehaviourSignals, VtIpSignal, AbuseSignal, C2Signal, FoxSignal, DropSignal, TorSignal, CveSignal,
         FAINT_ROW;
    var ss := Next(BehaviourSignals(r), VtIpSignal(e));
    ss := Next(ss, AbuseSignal(e));
    ss := Next(ss, C2Signal(e));
    ss := Next(ss, FoxSignal(e));
    assert ss == FeedSignals(r, e);
    ss := Next(ss, DropSignal(e));
    ss := Next(ss, TorSignal(e));
    ss := Next(ss, CveSignal(e));
    assert ss == Signals(r);
  }

  /** It scores zero, its coverage is incomplete, and it is not marked partial. */
  lemma UnmarkedZeroExists()
    ensures CoverageIncomplete(FAINT_ROW) && Score(FAINT_ROW) == 0 && !Unknown(FAINT_ROW)
    ensures Why(FAINT_ROW) == [Reason("abuse", 0, ["2"])]
  {
    assert CoverageIncomplete(FAINT_ROW);
    assert !FAINT_ROW.whitelist && !FAINT_ROW.ipWhitelist;
    hide Tallied, Signals, CoverageIncomplete, FAINT_ROW;
    FaintTally();
  }

  // ── Volume and CPU never score alone ────────────────────────────────────

  function Calm(r: Row): Row {
    r.(highEgress := false, highCPU := false)
  }

  function Combos(r: Row): nat {
    if Distrusted(r) then (if r.highEgress then 250 else 0) + (if r.highCPU then 250 else 0) else 0
  }

  lemma BehaviourWeighs(r: Row)
    ensures Tallied(BehaviourSignals(r)).tenths == Tallied(BehaviourSignals(Calm(r))).tenths + Combos(r)
  {
    var c := Calm(r);
    OnlyCombosDiffer(r);
    hide Tallied, ProcessSignals, ExfilSignal, CpuSignal, CredSignal, ExecSignal, SigSignal, Whole, Combos, Calm;
    var egress := ExfilSignal(r).tenths;
    var xs, ys := Apart(ProcessSignals(r), ProcessSignals(c), ExfilSignal(r), ExfilSignal(c), egress);
    var d := egress + CpuSignal(r).tenths;
    xs, ys := Apart(xs, ys, CpuSignal(r), CpuSignal(c), d);
    xs, ys := Apart(xs, ys, CredSignal(r), CredSignal(c), d);
    xs, ys := Apart(xs, ys, ExecSignal(r), ExecSignal(c), d);
    xs, ys := Apart(xs, ys, SigSignal(r), SigSignal(c), d);
    assert xs == BehaviourSignals(r) && ys == BehaviourSignals(c);
  }

  lemma OnlyCombosDiffer(r: Row)
    ensures var c := Calm(r);
            && ProcessSignals(r) == ProcessSignals(c) && CredSignal(r) == CredSignal(c)
            && ExecSignal(r) == ExecSignal(c) && SigSignal(r) == SigSignal(c)
            && ExfilSignal(c).tenths == CpuSignal(c).tenths == 0
            && Combos(r) == ExfilSignal(r).tenths + CpuSignal(r).tenths
  {}

  lemma CalmWeighs(r: Row)
    ensures Tallied(Signals(r)).tenths == Tallied(Signals(Calm(r))).tenths + Combos(r)
  {
    BehaviourWeighs(r);
    var c := Calm(r);
    if r.enrich.Some? {
      BehaviourSound(c);
      hide Tallied, BehaviourSignals, Signals, Whole, Combos;
      SignalsApart(r, c, r.enrich.value, r.enrich.value, Combos(r));
    } else {
      assert Signals(r) == BehaviourSignals(r) && Signals(c) == BehaviourSignals(c);
    }
    hide Tallied, BehaviourSignals, Combos;
  }

  lemma CalmIsSame(r: Row)
    requires !Distrusted(r)
    ensures Signals(r) == Signals(Calm(r))
  {
    assert ProcessSignals(r) == ProcessSignals(Calm(r));
    assert ExfilSignal(r) == ExfilSignal(Calm(r)) && CpuSignal(r) == CpuSignal(Calm(r));
    assert CredSignal(r) == CredSignal(Calm(r)) && ExecSignal(r) == ExecSignal(Calm(r)) && SigSignal(r) == SigSignal(Calm(r));
    hide ProcessSignals, ExfilSignal, CpuSignal, CredSignal, ExecSignal, SigSignal, Itoa, Atoi;
  }

  /** Sustained egress and sustained CPU weigh 25 points each on a process that is
      suspect on another ground, and leave any other verdict exactly as it was. */
  lemma VolumeNeedsDistrust(r: Row)
    ensures Tallied(Signals(r)).tenths == Tallied(Signals(Calm(r))).tenths + Combos(r)
    ensures !Distrusted(r) ==> Why(r) == Why(Calm(r))
  {
    hide Tallied, Signals, Combos, CoverageIncomplete;
    CalmWeighs(r);
    if !Distrusted(r) {
      CalmIsSame(r);
      CalmIsCovered(r);
    }
  }

  lemma CalmIsCovered(r: Row)
    ensures CoverageIncomplete(Calm(r)) == CoverageIncomplete(r)
  {}
}
