/** volume.go, ioSample.advance: rates and sustained-load flags from a process's
    cumulative counters, in exact arithmetic over seconds. */
module IoSampler {

  const HIGH_EGRESS := 262144.0 // bytes per second
  const EGRESS_SAMPLES := 2
  const CPU_HOT := 80.0 // percent of one core
  const CPU_SAMPLES := 5

  datatype Rate = Rate(in_: real, out: real, highEgress: bool, cpu: real, highCPU: bool)

  const NO_RATE := Rate(0.0, 0.0, false, 0.0, false)

  datatype Reading = Reading(at: real, in_: nat, out: nat, cpu: real)

  /** What an ioSample holds. */
  datatype Sample = Sample(last: Reading, rate: Rate, hot: nat, cpuHot: nat, haveFirst: bool, userDone: bool)

  // ── What the code computes ──────────────────────────────────────────────

  /** A counter went back: the PID belongs to another process now. */
  predicate Reset(a: Reading, b: Reading) {
    b.in_ < a.in_ || b.out < a.out || b.cpu < a.cpu
  }

  function PerSecond(amount: real, secs: real): real
    requires secs > 0.0
  {
    amount / secs
  }

  function Out(a: Reading, b: Reading): real
    requires b.at > a.at
  {
    PerSecond((b.out - a.out) as real, b.at - a.at)
  }

  function CpuCap(numCPU: int): real {
    100.0 * (if numCPU > 1 then numCPU else 1) as real
  }

  function Cpu(numCPU: int, a: Reading, b: Reading): real
    requires b.at > a.at
  {
    var c := PerSecond(b.cpu - a.cpu, b.at - a.at) * 100.0;
    if c > CpuCap(numCPU) then CpuCap(numCPU) else c
  }

  function Advanced(numCPU: int, s: Sample, r: Reading): Sample {
    var t := s.(last := r, haveFirst := true);
    if !s.haveFirst || r.at <= s.last.at then t
    else if Reset(s.last, r) then t.(rate := NO_RATE, hot := 0, cpuHot := 0, userDone := false)
    else
      var hot := if Out(s.last, r) >= HIGH_EGRESS then s.hot + 1 else 0;
      var cpuHot := if Cpu(numCPU, s.last, r) >= CPU_HOT then s.cpuHot + 1 else 0;
      t.(hot := hot, cpuHot := cpuHot,
         rate := Rate(PerSecond((r.in_ - s.last.in_) as real, r.at - s.last.at), Out(s.last, r), hot >= EGRESS_SAMPLES,
                      Cpu(numCPU, s.last, r), cpuHot >= CPU_SAMPLES))
  }

  class IoSample {
    const numCPU: int
    var at: real
    var in_: nat
    var out: nat
    var cpu: real
    var rate: Rate
    var hot: nat
    var cpuHot: nat
    var haveFirst: bool
    var userDone: bool

    function View(): Sample
      reads this
    {
      Sample(Reading(at, in_, out, cpu), rate, hot, cpuHot, haveFirst, userDone)
    }

    constructor (numCPU: int)
      ensures this.numCPU == numCPU && View() == FRESH
    {
      this.numCPU := numCPU;
      at, in_, out, cpu := 0.0, 0, 0, 0.0;
      rate, hot, cpuHot := NO_RATE, 0, 0;
      haveFirst, userDone := false, false;
    }

    /** The deferred update of the last reading happens on every path. */
    method Advance(now: real, newIn: nat, newOut: nat, newCpu: real)
      modifies this
      ensures View() == Advanced(numCPU, old(View()), Reading(now, newIn, newOut, newCpu))
    {
      hide PerSecond, CpuCap;
      if haveFirst {
        var secs := now - at;
        if secs > 0.0 {
          if newIn < in_ || newOut < out || newCpu < cpu {
            rate, hot, cpuHot, userDone := NO_RATE, 0, 0, false;
          } else {
            var inBytes: nat := newIn - in_;
            var outBytes: nat := newOut - out;
            var outRate := PerSecond(outBytes as real, secs);
            if outRate >= HIGH_EGRESS {
              hot := hot + 1;
            } else {
              hot := 0;
            }
            var percent := PerSecond(newCpu - cpu, secs) * 100.0;
            var limit := CpuCap(numCPU);
            if percent > limit {
              percent := limit;
            }
            if percent >= CPU_HOT {
              cpuHot := cpuHot + 1;
            } else {
              cpuHot := 0;
            }
            rate := Rate(PerSecond(inBytes as real, secs), outRate, hot >= EGRESS_SAMPLES,
                         percent, cpuHot >= CPU_SAMPLES);
          }
        }
      }
      at, in_, out, cpu, haveFirst := now, newIn, newOut, newCpu, true;
    }
  }

  // ── Over any readings with an advancing clock ───────────────────────────

  const FRESH := Sample(Reading(0.0, 0, 0, 0.0), NO_RATE, 0, 0, false, false)

  predicate Advancing(rs: seq<Reading>) {
    forall i | 0 < i < |rs| :: rs[i - 1].at < rs[i].at
  }

  function Run(numCPU: int, rs: seq<Reading>): Sample {
    if rs == [] then FRESH else Advanced(numCPU, Run(numCPU, rs[..|rs| - 1]), rs[|rs| - 1])
  }

  /** The interval stays with one process and its outbound rate is over the
      threshold. */
  predicate EgressOver(a: Reading, b: Reading)
    requires a.at < b.at
  {
    !Reset(a, b) && Out(a, b) >= HIGH_EGRESS
  }

  predicate CpuOver(numCPU: int, a: Reading, b: Reading)
    requires a.at < b.at
  {
    !Reset(a, b) && Cpu(numCPU, a, b) >= CPU_HOT
  }

  /** For each interval, whether it is over the threshold. */
  function EgressIntervals(rs: seq<Reading>): (over: seq<bool>)
    requires Advancing(rs)
    ensures |over| == if rs == [] then 0 else |rs| - 1
    ensures forall i | 0 <= i < |over| :: over[i] == EgressOver(rs[i], rs[i + 1])
  {
    if rs == [] then []
    else seq(|rs| - 1, i requires 0 <= i < |rs| - 1 => assert rs[i + 1 - 1].at < rs[i + 1].at; EgressOver(rs[i], rs[i + 1]))
  }

  function CpuIntervals(numCPU: int, rs: seq<Reading>): (over: seq<bool>)
    requires Advancing(rs)
    ensures |over| == if rs == [] then 0 else |rs| - 1
    ensures forall i | 0 <= i < |over| :: over[i] == CpuOver(numCPU, rs[i], rs[i + 1])
  {
    if rs == [] then []
    else seq(|rs| - 1, i requires 0 <= i < |rs| - 1 => assert rs[i + 1 - 1].at < rs[i + 1].at; CpuOver(numCPU, rs[i], rs[i + 1]))
  }

  /** The last `n` are true, and the one before them, if any, is not. */
  predicate TrailingRun(over: seq<bool>, n: nat) {
    && n <= |over|
    && (forall i | |over| - n <= i < |over| :: over[i])
    && (n < |over| ==> !over[|over| - n - 1])
  }

  lemma TrailingRunGrows(over: seq<bool>, n: nat, b: bool)
    requires TrailingRun(over, n)
    ensures TrailingRun(over + [b], if b then n + 1 else 0)
  {}

  predicate LastReading(s: Sample, rs: seq<Reading>) {
    s.haveFirst == (rs != []) && (rs != [] ==> s.last == rs[|rs| - 1])
  }

  lemma RunFollows(numCPU: int, rs: seq<Reading>)
    ensures LastReading(Run(numCPU, rs), rs)
  {
    hide Out, Cpu;
  }

  lemma AdvancingPrefix(rs: seq<Reading>)
    requires Advancing(rs) && rs != []
    ensures Advancing(rs[..|rs| - 1])
  {}

  lemma EgressGrows(rs: seq<Reading>)
    requires Advancing(rs) && |rs| > 1
    ensures var n := |rs| - 1;
            && Advancing(rs[..n]) && rs[n - 1].at < rs[n].at
            && EgressIntervals(rs) == EgressIntervals(rs[..n]) + [EgressOver(rs[n - 1], rs[n])]
  {
    var n := |rs| - 1;
    AdvancingPrefix(rs);
    hide EgressOver, EgressIntervals;
    assert rs[n - 1].at < rs[n].at;
    var shorter := EgressIntervals(rs[..n]);
    forall i | 0 <= i < n - 1 ensures EgressIntervals(rs)[i] == shorter[i] {
      assert rs[..n][i] == rs[i] && rs[..n][i + 1] == rs[i + 1];
    }
    assert EgressIntervals(rs) == shorter + [EgressOver(rs[n - 1], rs[n])];
  }

  lemma CpuGrows(numCPU: int, rs: seq<Reading>)
    requires Advancing(rs) && |rs| > 1
    ensures var n := |rs| - 1;
            && Advancing(rs[..n]) && rs[n - 1].at < rs[n].at
            && CpuIntervals(numCPU, rs) == CpuIntervals(numCPU, rs[..n]) + [CpuOver(numCPU, rs[n - 1], rs[n])]
  {
    var n := |rs| - 1;
    AdvancingPrefix(rs);
    hide CpuOver, CpuIntervals;
    assert rs[n - 1].at < rs[n].at;
    var shorter := CpuIntervals(numCPU, rs[..n]);
    forall i | 0 <= i < n - 1 ensures CpuIntervals(numCPU, rs)[i] == shorter[i] {
      assert rs[..n][i] == rs[i] && rs[..n][i + 1] == rs[i + 1];
    }
    assert CpuIntervals(numCPU, rs) == shorter + [CpuOver(numCPU, rs[n - 1], rs[n])];
  }

  lemma RunUnfold(numCPU: int, rs: seq<Reading>)
    requires rs != []
    ensures Run(numCPU, rs) == Advanced(numCPU, Run(numCPU, rs[..|rs| - 1]), rs[|rs| - 1])
  {}

  lemma HotAdvances(numCPU: int, s: Sample, r: Reading)
    requires s.haveFirst && s.last.at < r.at
    ensures var t := Advanced(numCPU, s, r);
            && t.hot == (if EgressOver(s.last, r) then s.hot + 1 else 0)
            && t.cpuHot == (if CpuOver(numCPU, s.last, r) then s.cpuHot + 1 else 0)
  {
    hide Out, Cpu;
  }

  /** `hot` and `cpuHot` are the lengths of the trailing runs of intervals over
      their thresholds, a reset ending both runs. */
  lemma {:induction false} HotIsTrailingRun(numCPU: int, rs: seq<Reading>)
    requires Advancing(rs)
    ensures TrailingRun(EgressIntervals(rs), Run(numCPU, rs).hot)
    ensures TrailingRun(CpuIntervals(numCPU, rs), Run(numCPU, rs).cpuHot)
    decreases |rs|
  {
    if |rs| <= 1 {
    } else {
      var n := |rs| - 1;
      EgressGrows(rs);
      CpuGrows(numCPU, rs);
      HotIsTrailingRun(numCPU, rs[..n]);
      RunFollows(numCPU, rs[..n]);
      RunUnfold(numCPU, rs);
      assert Run(numCPU, rs[..n]).haveFirst && Run(numCPU, rs[..n]).last == rs[n - 1];
      hide *;
      HotAdvances(numCPU, Run(numCPU, rs[..n]), rs[n]);
      TrailingRunGrows(EgressIntervals(rs[..n]), Run(numCPU, rs[..n]).hot, EgressOver(rs[n - 1], rs[n]));
      TrailingRunGrows(CpuIntervals(numCPU, rs[..n]), Run(numCPU, rs[..n]).cpuHot, CpuOver(numCPU, rs[n - 1], rs[n]));
    }
  }

  /** One process throughout, and at least 256 KiB out for each second. */
  predicate SendsMuch(a: Reading, b: Reading) {
    a.in_ <= b.in_ && a.out <= b.out && a.cpu <= b.cpu && (b.out - a.out) as real >= 262144.0 * (b.at - a.at)
  }

  /** One process throughout, and at least 0.8 seconds of CPU for each second. */
  predicate ComputesMuch(a: Reading, b: Reading) {
    a.in_ <= b.in_ && a.out <= b.out && a.cpu <= b.cpu && b.cpu - a.cpu >= 0.8 * (b.at - a.at)
  }

  lemma AtLeast(x: real, y: real, c: real)
    requires y > 0.0
    ensures PerSecond(x, y) >= c <==> x >= Times(c, y)
  {
    var q := x / y;
    assert q * y == x;
    if q >= c {
      assert (q - c) * y >= 0.0;
    } else {
      assert (c - q) * y > 0.0;
    }
  }

  lemma OverIsMuch(numCPU: int, a: Reading, b: Reading)
    requires a.at < b.at
    ensures EgressOver(a, b) <==> SendsMuch(a, b)
    ensures CpuOver(numCPU, a, b) <==> ComputesMuch(a, b)
  {
    var secs := b.at - a.at;
    AtLeast((b.out - a.out) as real, secs, 262144.0);
    AtLeast(b.cpu - a.cpu, secs, 0.8);
    hide PerSecond;
  }

  /** A flag is up exactly when the last two (five) intervals all stayed with the
      process and over the threshold. */
  lemma FlagsMeanTheLastSamples(numCPU: int, rs: seq<Reading>)
    requires Advancing(rs)
    ensures Run(numCPU, rs).rate.highEgress <==>
              |rs| > 2 && forall i | |rs| - 3 <= i < |rs| - 1 :: SendsMuch(rs[i], rs[i + 1])
    ensures Run(numCPU, rs).rate.highCPU <==>
              |rs| > 5 && forall i | |rs| - 6 <= i < |rs| - 1 :: ComputesMuch(rs[i], rs[i + 1])
  {
    HotIsTrailingRun(numCPU, rs);
    FlagsFollowCounts(numCPU, rs);
    TrailingRunReaches(EgressIntervals(rs), Run(numCPU, rs).hot, 2);
    TrailingRunReaches(CpuIntervals(numCPU, rs), Run(numCPU, rs).cpuHot, 5);
    hide Run, EgressOver, CpuOver, SendsMuch, ComputesMuch, EgressIntervals, CpuIntervals, Advancing;
    EgressTail(rs, 2);
    CpuTail(numCPU, rs, 5);
  }

  predicate Tail(over: seq<bool>, m: nat) {
    |over| >= m && forall i | |over| - m <= i < |over| :: over[i]
  }

  lemma EgressTail(rs: seq<Reading>, m: nat)
    requires Advancing(rs) && m > 0
    ensures Tail(EgressIntervals(rs), m) <==>
              |rs| > m && forall i | |rs| - 1 - m <= i < |rs| - 1 :: SendsMuch(rs[i], rs[i + 1])
  {
    hide EgressOver, SendsMuch, EgressIntervals;
    var over := EgressIntervals(rs);
    forall i | 0 <= i < |over|
      ensures over[i] == SendsMuch(rs[i], rs[i + 1])
    {
      NextLater(rs, i);
      OverIsMuch(1, rs[i], rs[i + 1]);
    }
    if Tail(over, m) {
      forall i | |rs| - 1 - m <= i < |rs| - 1
        ensures SendsMuch(rs[i], rs[i + 1])
      {
        assert over[i];
      }
    }
    if |rs| > m && forall i | |rs| - 1 - m <= i < |rs| - 1 :: SendsMuch(rs[i], rs[i + 1]) {
      forall i | |over| - m <= i < |over|
        ensures over[i]
      {
        assert SendsMuch(rs[i], rs[i + 1]);
      }
    }
  }

  lemma CpuTail(numCPU: int, rs: seq<Reading>, m: nat)
    requires Advancing(rs) && m > 0
    ensures Tail(CpuIntervals(numCPU, rs), m) <==>
              |rs| > m && forall i | |rs| - 1 - m <= i < |rs| - 1 :: ComputesMuch(rs[i], rs[i + 1])
  {
    hide CpuOver, ComputesMuch, CpuIntervals;
    var over := CpuIntervals(numCPU, rs);
    forall i | 0 <= i < |over|
      ensures over[i] == ComputesMuch(rs[i], rs[i + 1])
    {
      NextLater(rs, i);
      OverIsMuch(numCPU, rs[i], rs[i + 1]);
    }
    if Tail(over, m) {
      forall i | |rs| - 1 - m <= i < |rs| - 1
        ensures ComputesMuch(rs[i], rs[i + 1])
      {
        assert over[i];
      }
    }
    if |rs| > m && forall i | |rs| - 1 - m <= i < |rs| - 1 :: ComputesMuch(rs[i], rs[i + 1]) {
      forall i | |over| - m <= i < |over|
        ensures over[i]
      {
        assert ComputesMuch(rs[i], rs[i + 1]);
      }
    }
  }

  lemma NextLater(rs: seq<Reading>, i: nat)
    requires Advancing(rs) && i + 1 < |rs|
    ensures rs[i].at < rs[i + 1].at
  {
    assert rs[i + 1 - 1].at < rs[i + 1].at;
  }

  lemma TrailingRunReaches(over: seq<bool>, n: nat, m: nat)
    requires TrailingRun(over, n)
    ensures n >= m <==> Tail(over, m)
  {}

  lemma {:induction false} FlagsFollowCounts(numCPU: int, rs: seq<Reading>)
    requires Advancing(rs)
    ensures Run(numCPU, rs).rate.highEgress == (Run(numCPU, rs).hot >= EGRESS_SAMPLES)
    ensures Run(numCPU, rs).rate.highCPU == (Run(numCPU, rs).cpuHot >= CPU_SAMPLES)
    decreases |rs|
  {
    if rs == [] {
    } else {
      AdvancingPrefix(rs);
      FlagsFollowCounts(numCPU, rs[..|rs| - 1]);
      RunUnfold(numCPU, rs);
      hide Run, Out, Cpu;
    }
  }

  /** CPU stays between nothing and every core. */
  lemma {:induction false} CpuInRange(numCPU: int, rs: seq<Reading>)
    ensures 0.0 <= Run(numCPU, rs).rate.cpu <= 100.0 * (if numCPU < 1 then 1 else numCPU) as real
    decreases |rs|
  {
    if rs == [] {
    } else {
      CpuInRange(numCPU, rs[..|rs| - 1]);
      RunUnfold(numCPU, rs);
      hide Run;
      var s, r := Run(numCPU, rs[..|rs| - 1]), rs[|rs| - 1];
      if r.at > s.last.at && r.cpu >= s.last.cpu {
        Quotient(r.cpu - s.last.cpu, r.at - s.last.at);
      }
    }
  }

  /** The CPU figure is what one core would have to give, in per cent: over the last
      interval it accounts for the CPU seconds used, or for every core if they came
      to more. After a reset there are no figures and no flags. */
  lemma CpuOfLastInterval(numCPU: int, rs: seq<Reading>)
    requires Advancing(rs) && |rs| > 1
    ensures var a, b, cores := rs[|rs| - 2], rs[|rs| - 1], (if numCPU < 1 then 1 else numCPU) as real;
            var rate, secs := Run(numCPU, rs).rate, b.at - a.at;
            if b.in_ < a.in_ || b.out < a.out || b.cpu < a.cpu then rate == Rate(0.0, 0.0, false, 0.0, false)
            else if b.cpu - a.cpu > Times(cores, secs) then rate.cpu == 100.0 * cores
            else Times(rate.cpu, secs) == 100.0 * (b.cpu - a.cpu)
  {
    var n := |rs| - 1;
    RunUnfold(numCPU, rs);
    RunFollows(numCPU, rs[..n]);
    assert rs[n - 1].at < rs[n].at;
    hide Run, Cpu, Times;
    CpuOfInterval(numCPU, rs[n - 1], rs[n]);
  }

  lemma CpuOfInterval(numCPU: int, a: Reading, b: Reading)
    requires a.at < b.at
    ensures var cores, secs := (if numCPU < 1 then 1 else numCPU) as real, b.at - a.at;
            if b.cpu - a.cpu > Times(cores, secs) then Cpu(numCPU, a, b) == 100.0 * cores
            else Times(Cpu(numCPU, a, b), secs) == 100.0 * (b.cpu - a.cpu)
  {
    var used, secs, cores := b.cpu - a.cpu, b.at - a.at, (if numCPU < 1 then 1 else numCPU) as real;
    AtLeast(used, secs, cores);
    Quotient(used, secs);
    TimesHundred(PerSecond(used, secs), secs);
    ExactlyCores(used, secs, cores);
    hide PerSecond, Times;
  }

  lemma TimesHundred(q: real, secs: real)
    ensures Times(q * 100.0, secs) == 100.0 * Times(q, secs)
  {}

  lemma ExactlyCores(used: real, secs: real, cores: real)
    requires secs > 0.0
    ensures PerSecond(used, secs) == cores ==> used == Times(cores, secs)
  {
    Quotient(used, secs);
  }

  function Times(rate: real, secs: real): real {
    rate * secs
  }

  lemma Quotient(x: real, y: real)
    requires y > 0.0
    ensures x >= 0.0 ==> PerSecond(x, y) >= 0.0
    ensures Times(PerSecond(x, y), y) == x
  {}

  /** The bytes the reported rates account for from reading `i` to reading `j`:
      each rate times the seconds it stands for. */
  function Accounted(numCPU: int, rs: seq<Reading>, i: nat, j: nat): (inAndOut: (real, real))
    requires i <= j < |rs|
    decreases j - i
  {
    if i == j then (0.0, 0.0)
    else
      var before := Accounted(numCPU, rs, i, j - 1);
      var rate, secs := Run(numCPU, rs[..j + 1]).rate, rs[j].at - rs[j - 1].at;
      (before.0 + Times(rate.in_, secs), before.1 + Times(rate.out, secs))
  }

  predicate NoReset(rs: seq<Reading>, i: nat, j: nat)
    requires i <= j < |rs|
  {
    forall k | i < k <= j :: !Reset(rs[k - 1], rs[k])
  }

  lemma RateTimesSeconds(numCPU: int, rs: seq<Reading>, j: nat)
    requires Advancing(rs) && 0 < j < |rs| && !Reset(rs[j - 1], rs[j])
    ensures var rate, secs := Run(numCPU, rs[..j + 1]).rate, rs[j].at - rs[j - 1].at;
            && Times(rate.in_, secs) == (rs[j].in_ - rs[j - 1].in_) as real
            && Times(rate.out, secs) == (rs[j].out - rs[j - 1].out) as real
  {
    RunUnfold(numCPU, rs[..j + 1]);
    assert rs[..j + 1][..j] == rs[..j];
    RunFollows(numCPU, rs[..j]);
    hide Run, Cpu, Times, PerSecond;
    var secs := rs[j].at - rs[j - 1].at;
    Quotient((rs[j].in_ - rs[j - 1].in_) as real, secs);
    Quotient((rs[j].out - rs[j - 1].out) as real, secs);
  }

  lemma Difference(a: nat, b: nat, c: nat)
    ensures (b - a) as real + (c - b) as real == (c - a) as real
  {}

  /** Conservation: between resets the reported rates account for every byte the
      counters moved. */
  lemma {:induction false} RatesAccountForCounters(numCPU: int, rs: seq<Reading>, i: nat, j: nat)
    requires i <= j < |rs| && Advancing(rs) && NoReset(rs, i, j)
    ensures Accounted(numCPU, rs, i, j) == ((rs[j].in_ - rs[i].in_) as real, (rs[j].out - rs[i].out) as real)
    decreases j - i
  {
    if i < j {
      RatesAccountForCounters(numCPU, rs, i, j - 1);
      RateTimesSeconds(numCPU, rs, j);
      hide Run, Times, Reset;
      Difference(rs[i].in_, rs[j - 1].in_, rs[j].in_);
      Difference(rs[i].out, rs[j - 1].out, rs[j].out);
    }
  }
}
