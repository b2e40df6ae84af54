/** monitor.go, pruneBeacons and checkBeacon: a binary that contacts the same
    address at near-regular intervals, in exact arithmetic over a clock in
    seconds that never goes back. */
module BeaconDetector {

  const MIN_SAMPLES := 4
  const MAX_SAMPLES := 8
  const CV_THRESH := 0.15
  const MIN_GAP := 5.0
  const IDLE := 7200.0

  type Track = map<string, seq<real>>

  function Key(exe: string, ip: string): string {
    exe + "|" + ip
  }

  // ── What the code computes ──────────────────────────────────────────────

  predicate Idle(ts: seq<real>, now: real) {
    ts == [] || now - ts[|ts| - 1] > IDLE
  }

  function Pruned(track: Track, now: real): Track {
    map k | k in track && !Idle(track[k], now) :: track[k]
  }

  function Last8(ts: seq<real>): seq<real> {
    if |ts| > MAX_SAMPLES then ts[|ts| - MAX_SAMPLES..] else ts
  }

  /** The contacts kept for a pair once it contacts at `now`. */
  function Window(track: Track, key: string, now: real): seq<real> {
    var kept := Pruned(track, now);
    Last8((if key in kept then kept[key] else []) + [now])
  }

  function Gaps(ts: seq<real>): (gaps: seq<real>)
    ensures |gaps| == if |ts| == 0 then 0 else |ts| - 1
  {
    if ts == [] then [] else seq(|ts| - 1, i requires 0 <= i < |ts| - 1 => ts[i + 1] - ts[i])
  }

  function Sum(xs: seq<real>): real {
    if xs == [] then 0.0 else Sum(xs[..|xs| - 1]) + xs[|xs| - 1]
  }

  function Mul(a: real, b: real): real {
    a * b
  }

  function Sq(x: real): real {
    Mul(x, x)
  }

  function SumSqDev(xs: seq<real>, mean: real): real {
    if xs == [] then 0.0 else SumSqDev(xs[..|xs| - 1], mean) + Sq(xs[|xs| - 1] - mean)
  }

  function Mean(xs: seq<real>): real
    requires xs != []
  {
    Sum(xs) / |xs| as real
  }

  function Variance(xs: seq<real>): real
    requires xs != []
  {
    SumSqDev(xs, Mean(xs)) / |xs| as real
  }

  /** The period a window shows, or zero. The code compares the coefficient of
      variation, sqrt(variance) / mean, with its threshold; SqrtTest shows that
      squaring both sides decides the same. */
  function Period(ts: seq<real>): real {
    if |ts| < MIN_SAMPLES then 0.0
    else
      var gaps := Gaps(ts);
      if Mean(gaps) < MIN_GAP then 0.0
      else if Variance(gaps) < Sq(CV_THRESH * Mean(gaps)) then Mean(gaps)
      else 0.0
  }

  lemma SqrtTest(variance: real, root: real, mean: real)
    requires mean > 0.0 && root >= 0.0 && Sq(root) == variance
    ensures root / mean < CV_THRESH <==> variance < Sq(CV_THRESH * mean)
  {
    var bound := CV_THRESH * mean;
    Quotient(root, mean, CV_THRESH);
    assert Mul(CV_THRESH, mean) == bound;
    hide Mul, Sq;
    if root < bound {
      SquareOrder(root, bound);
    } else if bound < root {
      SquareOrder(bound, root);
    }
  }

  lemma SquareOrder(a: real, b: real)
    requires 0.0 <= a < b
    ensures Sq(a) < Sq(b)
  {
    hide Mul;
    Product(b - a, b);
    Minus(b, a, b);
    Product(b - a, a);
    Minus(b, a, a);
    Commute(a, b);
  }

  lemma Product(a: real, b: real)
    requires a >= 0.0 && b >= 0.0
    ensures Mul(a, b) >= 0.0
    ensures a > 0.0 && b > 0.0 ==> Mul(a, b) > 0.0
  {}

  lemma Commute(a: real, b: real)
    ensures Mul(a, b) == Mul(b, a)
  {}

  lemma Minus(a: real, b: real, c: real)
    ensures Mul(a - b, c) == Mul(a, c) - Mul(b, c)
  {}

  lemma Plus(a: real, b: real, c: real)
    ensures Mul(a, b + c) == Mul(a, b) + Mul(a, c)
  {}

  lemma DivideBack(x: real, n: real)
    requires n > 0.0
    ensures Mul(x / n, n) == x
  {}

  /** Comparing a quotient is comparing products. */
  lemma Quotient(x: real, n: real, y: real)
    requires n > 0.0
    ensures x / n < y <==> x < Mul(y, n)
    ensures x / n <= y <==> x <= Mul(y, n)
    ensures Mul(x / n, n) == x
  {
    DivideBack(x, n);
    hide Mul;
    var d := x / n;
    Minus(y, d, n);
    Minus(d, y, n);
    if d < y {
      Product(y - d, n);
    } else if y < d {
      Product(d - y, n);
    }
  }

  class Detector {
    var track: Track

    constructor ()
      ensures track == map[]
    {
      track := map[];
    }

    method PruneBeacons(now: real)
      modifies this
      ensures track == Pruned(old(track), now)
    {
      var keys := track.Keys;
      while keys != {}
        invariant keys <= old(track).Keys
        invariant track == map k | k in old(track) && (k in keys || !Idle(old(track)[k], now)) :: old(track)[k]
        decreases keys
      {
        var k :| k in keys;
        if |track[k]| == 0 || now - track[k][|track[k]| - 1] > IDLE {
          track := track - {k};
        }
        keys := keys - {k};
      }
    }

    method CheckBeacon(exe: string, remoteIP: string, now: real) returns (period: real)
      modifies this
      ensures exe == "" || remoteIP == "" ==> period == 0.0 && track == old(track)
      ensures exe != "" && remoteIP != "" ==>
                var key := Key(exe, remoteIP);
                var ts := Window(old(track), key, now);
                period == Period(ts) && track == Pruned(old(track), now)[key := ts]
    {
      if exe == "" || remoteIP == "" {
        return 0.0;
      }
      var key := exe + "|" + remoteIP;
      PruneBeacons(now);
      var ts := (if key in track then track[key] else []) + [now];
      if |ts| > 8 {
        ts := ts[|ts| - 8..];
      }
      track := track[key := ts];
      if |ts| < MIN_SAMPLES {
        return 0.0;
      }
      period := Judge(ts);
    }

    static method Judge(ts: seq<real>) returns (period: real)
      requires |ts| >= MIN_SAMPLES
      ensures period == Period(ts)
    {
      hide Sum, SumSqDev;
      var gaps := [];
      var i := 1;
      while i < |ts|
        invariant 1 <= i <= |ts| && |gaps| == i - 1
        invariant forall k | 0 <= k < |gaps| :: gaps[k] == ts[k + 1] - ts[k]
      {
        gaps := gaps + [ts[i] - ts[i - 1]];
        i := i + 1;
      }
      assert gaps == Gaps(ts);
      var mean := 0.0;
      i := 0;
      NoTerms(0.0);
      while i < |gaps|
        invariant 0 <= i <= |gaps|
        invariant mean == Sum(gaps[..i])
      {
        NextTerm(gaps, i, 0.0);
        mean := mean + gaps[i];
        i := i + 1;
      }
      assert gaps[..i] == gaps;
      mean := mean / |gaps| as real;
      if mean < MIN_GAP {
        return 0.0;
      }
      var varc := 0.0;
      i := 0;
      NoTerms(mean);
      while i < |gaps|
        invariant 0 <= i <= |gaps|
        invariant varc == SumSqDev(gaps[..i], mean)
      {
        NextTerm(gaps, i, mean);
        varc := varc + Sq(gaps[i] - mean);
        i := i + 1;
      }
      assert gaps[..i] == gaps;
      varc := varc / |gaps| as real;
      if varc < Sq(CV_THRESH * mean) {
        return mean;
      }
      return 0.0;
    }
  }

  lemma NoTerms(mean: real)
    ensures Sum([]) == 0.0 && SumSqDev([], mean) == 0.0
  {}

  lemma NextTerm(xs: seq<real>, i: nat, mean: real)
    requires i < |xs|
    ensures Sum(xs[..i + 1]) == Sum(xs[..i]) + xs[i]
    ensures SumSqDev(xs[..i + 1], mean) == SumSqDev(xs[..i], mean) + Sq(xs[i] - mean)
  {
    assert xs[..i + 1][..i] == xs[..i];
  }

  // ── Soundness: what a positive answer means ─────────────────────────────

  lemma {:induction false} GapsTelescope(ts: seq<real>)
    requires ts != []
    ensures Sum(Gaps(ts)) == ts[|ts| - 1] - ts[0]
    decreases |ts|
  {
    var n := |ts| - 1;
    if n == 0 {
    } else {
      GapsTelescope(ts[..n]);
      assert Gaps(ts)[..n - 1] == Gaps(ts[..n]);
      assert Gaps(ts)[n - 1] == ts[n] - ts[n - 1];
    }
  }

  /** The squares of the gaps of a window, summed. */
  function SquareGaps(ts: seq<real>): real {
    if |ts| <= 1 then 0.0
    else
      var n := |ts| - 1;
      SquareGaps(ts[..n]) + (ts[n] - ts[n - 1]) * (ts[n] - ts[n - 1])
  }

  /** The deviations from any `m`, expanded over the gaps alone. */
  function Expanded(square: real, sum: real, n: real, m: real): real {
    square - 2.0 * Mul(m, sum) + Mul(n, Sq(m))
  }

  lemma OneDeviation(square: real, sum: real, n: real, m: real, g: real)
    ensures Expanded(square + g * g, sum + g, n + 1.0, m) == Expanded(square, sum, n, m) + Sq(g - m)
  {
    SquareOfDifference(g, m);
    Plus(m, sum, g);
    Commute(m, g);
    Plus(Sq(m), n, 1.0);
    Commute(n, Sq(m));
    Commute(n + 1.0, Sq(m));
    assert Mul(Sq(m), 1.0) == Sq(m);
    assert g * g == Sq(g);
    hide Mul, Sq;
  }

  /** The time from the first contact of a window to the last. */
  function Total(ts: seq<real>): real
    requires ts != []
  {
    ts[|ts| - 1] - ts[0]
  }

  function GapCount(ts: seq<real>): real {
    (|ts| - 1) as real
  }

  lemma {:induction false} DeviationsExpand(ts: seq<real>, m: real)
    requires |ts| >= 1
    ensures SumSqDev(Gaps(ts), m) == Expanded(SquareGaps(ts), Total(ts), GapCount(ts), m)
    decreases |ts|
  {
    hide Mul, Sq, Expanded, SumSqDev, Gaps, SquareGaps, Total, GapCount;
    if |ts| == 1 {
      NoDeviation(ts, m);
    } else {
      var was, g := ts[..|ts| - 1], ts[|ts| - 1] - ts[|ts| - 2];
      DeviationsExpand(was, m);
      LastGap(ts, m);
      LastSquare(ts);
      LastTotal(ts);
      OneDeviation(SquareGaps(was), Total(was), GapCount(was), m, g);
      assert SquareGaps(ts) == SquareGaps(was) + g * g && Total(ts) == Total(was) + g;
      assert GapCount(ts) == GapCount(was) + 1.0;
    }
  }

  lemma NoDeviation(ts: seq<real>, m: real)
    requires |ts| == 1
    ensures SumSqDev(Gaps(ts), m) == Expanded(SquareGaps(ts), Total(ts), GapCount(ts), m)
  {
    assert Mul(m, 0.0) == 0.0 && Mul(0.0, Sq(m)) == 0.0;
    hide Mul, Sq;
  }

  lemma LastTotal(ts: seq<real>)
    requires |ts| >= 2
    ensures var was, g := ts[..|ts| - 1], ts[|ts| - 1] - ts[|ts| - 2];
            Total(ts) == Total(was) + g && GapCount(ts) == GapCount(was) + 1.0
  {}

  lemma LastGap(ts: seq<real>, m: real)
    requires |ts| >= 2
    ensures var was, g := ts[..|ts| - 1], ts[|ts| - 1] - ts[|ts| - 2];
            SumSqDev(Gaps(ts), m) == SumSqDev(Gaps(was), m) + Sq(g - m)
  {
    hide Sum, Sq;
    var n := |ts| - 1;
    assert Gaps(ts)[..n - 1] == Gaps(ts[..n]) && Gaps(ts)[n - 1] == ts[n] - ts[n - 1];
  }

  lemma LastSquare(ts: seq<real>)
    requires |ts| >= 2
    ensures var was, g := ts[..|ts| - 1], ts[|ts| - 1] - ts[|ts| - 2];
            SquareGaps(ts) == SquareGaps(was) + g * g
  {}

  function Over(a: real, b: real): real
    requires b != 0.0
  {
    a / b
  }

  lemma ExpandedAtMean(square: real, sum: real, n: real)
    requires n > 0.0
    ensures Mul(Mul(n, n), Over(Expanded(square, sum, n, Over(sum, n)), n)) == Mul(n, square) - Mul(sum, sum)
  {
    var m := sum / n;
    assert m * n == sum;
    var d := square - m * sum;
    assert Mul(n, Sq(m)) == m * (m * n);
    assert Expanded(square, sum, n, m) == d;
    assert n * n * (d / n) == n * (n * (d / n)) == n * d;
    assert n * (m * sum) == (m * n) * sum;
  }

  /** The variance in terms of the gaps alone: n squared times it is n times the sum
      of the squares less the square of the sum. */
  lemma VarianceOfGaps(ts: seq<real>)
    requires |ts| >= 2
    ensures var n := GapCount(ts);
            Mul(Mul(n, n), Variance(Gaps(ts))) == Mul(n, SquareGaps(ts)) - Mul(Total(ts), Total(ts))
  {
    assert GapCount(ts) > 0.0;
    hide Mul, Over, Expanded, SumSqDev, SquareGaps, Sq, Variance, Total, GapCount, Gaps;
    var n, sum := GapCount(ts), Total(ts);
    VarianceUnfold(ts);
    DeviationsExpand(ts, Over(sum, n));
    ExpandedAtMean(SquareGaps(ts), sum, n);
  }

  lemma VarianceUnfold(ts: seq<real>)
    requires |ts| >= 2
    ensures var n := GapCount(ts);
            n > 0.0 && Variance(Gaps(ts)) == Over(SumSqDev(Gaps(ts), Over(Total(ts), n)), n)
  {
    hide SumSqDev, Sum;
    GapsTelescope(ts);
  }

  /** With n gaps that take `sum` seconds together and whose squares add up to `square`:
      at least five seconds a gap, and n * square - sum^2 below 0.0225 sum^2, which is
      a coefficient of variation below 0.15. */
  predicate RegularSums(n: real, square: real, sum: real) {
    sum >= 5.0 * n && n * square - sum * sum < 0.0225 * (sum * sum)
  }

  /** What makes contacts regular, by the contacts alone: four of them or more, and the
      sums over their gaps. */
  predicate Regular(ts: seq<real>) {
    |ts| >= 4 && RegularSums((|ts| - 1) as real, SquareGaps(ts), ts[|ts| - 1] - ts[0])
  }

  /** The same comparison through the variance. */
  lemma RegularInGaps(n: real, square: real, sum: real, variance: real)
    requires n > 0.0 && Mul(Mul(n, n), variance) == Mul(n, square) - Mul(sum, sum)
    ensures variance < 0.0225 * Sq(Over(sum, n)) <==> Mul(n, square) - Mul(sum, sum) < 0.0225 * Mul(sum, sum)
  {
    var m := Over(sum, n);
    SquareOfProduct(n, m);
    assert n * m == sum;
    assert Mul(Sq(n), Sq(m)) == Mul(sum, sum);
    assert Sq(n) == Mul(n, n);
    Product(n, n);
    hide Mul, Sq, Over;
    var d := 0.0225 * Sq(m) - variance;
    ScaledDifference(Sq(n), Sq(m), variance);
    assert Mul(Sq(n), d) == 0.0225 * Mul(sum, sum) - (Mul(n, square) - Mul(sum, sum));
    SignOfProduct(Sq(n), d);
  }

  lemma ScaledDifference(a: real, x: real, y: real)
    ensures Mul(a, 0.0225 * x - y) == 0.0225 * Mul(a, x) - Mul(a, y)
  {}

  lemma SignOfProduct(a: real, d: real)
    requires a > 0.0
    ensures Mul(a, d) > 0.0 <==> d > 0.0
  {}

  lemma PeriodUnfold(ts: seq<real>)
    requires |ts| >= 4
    ensures GapCount(ts) > 0.0
    ensures var mean := Over(Total(ts), GapCount(ts));
            Period(ts) == if mean >= 5.0 && Variance(Gaps(ts)) < 0.0225 * Sq(mean) then mean else 0.0
  {
    GapsTelescope(ts);
    var mean := Mean(Gaps(ts));
    Squared(mean);
    hide Sum, Sq, Variance;
  }

  lemma RegularUnfold(n: real, square: real, sum: real)
    requires n > 0.0
    ensures RegularSums(n, square, sum) <==>
            Over(sum, n) >= 5.0 && Mul(n, square) - Mul(sum, sum) < 0.0225 * Mul(sum, sum)
  {
    Quotient(sum, n, 5.0);
  }

  /** A window shows a period exactly when its contacts are regular; the period is the
      time from the first to the last over the number of gaps. */
  lemma PeriodOfContacts(ts: seq<real>)
    ensures Period(ts) != 0.0 <==> Regular(ts)
    ensures Period(ts) != 0.0 ==> Period(ts) == (ts[|ts| - 1] - ts[0]) / (|ts| - 1) as real
  {
    if |ts| >= 4 {
      var n, square, sum := GapCount(ts), SquareGaps(ts), Total(ts);
      assert Regular(ts) <==> RegularSums(n, square, sum);
      assert Over(sum, n) == (ts[|ts| - 1] - ts[0]) / (|ts| - 1) as real;
      hide Period, Regular, RegularSums, Variance, SquareGaps, Sq, Mul, Over, Total, GapCount;
      PeriodUnfold(ts);
      RegularUnfold(n, square, sum);
      VarianceOfGaps(ts);
      RegularInGaps(n, square, sum, Variance(Gaps(ts)));
    }
  }

  /** An answer is positive exactly when the contacts of the window, at most eight and
      with this one at the end, are regular; the answer is then their mean gap. */
  lemma PositiveMeans(track: Track, key: string, now: real)
    ensures var ts := Window(track, key, now);
            && 1 <= |ts| <= 8 && ts[|ts| - 1] == now
            && (Period(ts) != 0.0 <==> Regular(ts))
            && (Regular(ts) ==> Period(ts) == (now - ts[0]) / (|ts| - 1) as real)
  {
    PeriodOfContacts(Window(track, key, now));
    hide Period, Regular;
  }

  /** Contacts at 0, 10, 20 and 35 seconds are refused, though their mean gap is long
      enough: their coefficient of variation is about 0.2. */
  lemma IrregularIsRefused()
    ensures Period([0.0, 10.0, 20.0, 35.0]) == 0.0
  {
    var ts := [0.0, 10.0, 20.0, 35.0];
    assert ts[..3] == [0.0, 10.0, 20.0] && [0.0, 10.0, 20.0][..2] == [0.0, 10.0] && [0.0, 10.0][..1] == [0.0];
    assert SquareGaps([0.0]) == 0.0;
    assert SquareGaps([0.0, 10.0]) == 100.0;
    assert SquareGaps([0.0, 10.0, 20.0]) == 200.0;
    assert SquareGaps(ts) == 425.0;
    PeriodOfContacts(ts);
    hide Period;
  }

  /** What a call remembers of other pairs: those heard of within the last two hours,
      as they were. */
  lemma RememberedFor(track: Track, now: real)
    ensures forall k :: k in Pruned(track, now) <==> k in track && track[k] != [] && now - track[k][|track[k]| - 1] <= 7200.0
    ensures forall k <- Pruned(track, now) :: Pruned(track, now)[k] == track[k]
  {}

  lemma Squared(m: real)
    ensures Sq(CV_THRESH * m) == 0.0225 * Sq(m)
  {}

  /** All gaps lie between `lo` and `hi`. */
  predicate Within(gaps: seq<real>, lo: real, hi: real) {
    forall i | 0 <= i < |gaps| :: lo <= gaps[i] <= hi
  }

  lemma {:induction false} SumWithin(gaps: seq<real>, lo: real, hi: real)
    requires Within(gaps, lo, hi)
    ensures Mul(lo, |gaps| as real) <= Sum(gaps) <= Mul(hi, |gaps| as real)
  {
    if gaps == [] {
      assert Mul(lo, 0.0) == 0.0 && Mul(hi, 0.0) == 0.0;
    } else {
      var n := |gaps| - 1;
      SumWithin(gaps[..n], lo, hi);
      OneMore(lo, n);
      OneMore(hi, n);
      hide Mul;
    }
  }

  lemma OneMore(a: real, n: nat)
    ensures Mul(a, (n + 1) as real) == Mul(a, n as real) + a
  {
    Plus(a, n as real, 1.0);
    assert Mul(a, 1.0) == a && (n + 1) as real == n as real + 1.0;
    hide Mul;
  }

  function Spread(mean: real, lo: real, hi: real): real {
    Mul(hi - mean, mean - lo)
  }

  function Slope(mean: real, lo: real, hi: real): real {
    hi + lo - 2.0 * mean
  }

  /** One deviation from any `mean`, bounded by a line in the gap. */
  lemma ElementBound(g: real, mean: real, lo: real, hi: real)
    requires lo <= g <= hi
    ensures Sq(g - mean) <= Spread(mean, lo, hi) + Mul(Slope(mean, lo, hi), g - mean)
  {
    Product(hi - g, g - lo);
    hide Mul, Sq, Spread, Slope;
  }

  lemma {:induction false} SumSqBound(gaps: seq<real>, mean: real, lo: real, hi: real)
    requires Within(gaps, lo, hi)
    ensures var n := |gaps| as real;
            SumSqDev(gaps, mean) <= Mul(Spread(mean, lo, hi), n) + Mul(Slope(mean, lo, hi), Sum(gaps) - Mul(mean, n))
  {
    var a, b := Spread(mean, lo, hi), Slope(mean, lo, hi);
    if gaps == [] {
      assert Mul(mean, 0.0) == 0.0 && Mul(a, 0.0) == 0.0 && Mul(b, 0.0) == 0.0;
    } else {
      hide Mul, Spread, Slope, Sq;
      var n := |gaps| - 1;
      var g, rest := gaps[n], gaps[..n];
      SumSqBound(rest, mean, lo, hi);
      ElementBound(g, mean, lo, hi);
      OneMore(a, n);
      OneMore(mean, n);
      Plus(b, Sum(rest) - Mul(mean, n as real), g - mean);
      assert Sum(gaps) - Mul(mean, (n + 1) as real) == Sum(rest) - Mul(mean, n as real) + (g - mean);
    }
  }

  /** The mean lies between the bounds, and the variance is at most the product of
      its distances from them. */
  lemma VarianceBound(gaps: seq<real>, lo: real, hi: real)
    requires gaps != [] && Within(gaps, lo, hi)
    ensures lo <= Mean(gaps) <= hi
    ensures Variance(gaps) <= Spread(Mean(gaps), lo, hi)
  {
    var n, mean, sum := |gaps| as real, Mean(gaps), Sum(gaps);
    SumWithin(gaps, lo, hi);
    hide SumSqDev, Sum, Mul, Spread, Slope;
    SumSqBound(gaps, mean, lo, hi);
    MeanArithmetic(n, sum, SumSqDev(gaps, mean), Spread(mean, lo, hi), Slope(mean, lo, hi), lo, hi);
  }

  lemma MeanArithmetic(n: real, sum: real, dev: real, a: real, b: real, lo: real, hi: real)
    requires n > 0.0 && Mul(lo, n) <= sum <= Mul(hi, n)
    requires dev <= Mul(a, n) + Mul(b, sum - Mul(sum / n, n))
    ensures lo <= sum / n <= hi && dev / n <= a
  {
    assert Mul(b, 0.0) == 0.0;
    hide Mul;
    Quotient(sum, n, hi);
    Quotient(sum, n, lo);
    Quotient(dev, n, a);
  }

  /** A period and a tolerance the detector's constants leave room for. */
  predicate Detectable(p: real, tol: real) {
    && 0.0 <= tol < 1.0
    && 1.0225 * (1.0 - Sq(tol)) > 1.0
    && (1.0 - tol) * p >= MIN_GAP
    && (1.0 + tol) * p <= IDLE
  }

  /** A window of four or more contacts whose gaps stay within the tolerance of
      the period shows a period within the tolerance. */
  lemma SteadyIsFound(ts: seq<real>, p: real, tol: real)
    requires |ts| >= MIN_SAMPLES && Detectable(p, tol)
    requires Within(Gaps(ts), (1.0 - tol) * p, (1.0 + tol) * p)
    ensures (1.0 - tol) * p <= Period(ts) <= (1.0 + tol) * p
  {
    var gaps := Gaps(ts);
    var m := Mean(gaps);
    VarianceBound(gaps, (1.0 - tol) * p, (1.0 + tol) * p);
    Quadratic(m, p, tol);
    Squared(m);
    hide Variance, Mean, Sq, Gaps, Spread;
  }

  lemma Quadratic(m: real, p: real, tol: real)
    requires Detectable(p, tol)
    ensures Spread(m, (1.0 - tol) * p, (1.0 + tol) * p) < 0.0225 * Sq(m)
  {
    var k := 1.0225 * (1.0 - Sq(tol)) - 1.0;
    PeriodIsPositive(p, tol);
    SquareIsNonNegative(1.0225 * m - p);
    QuadraticIdentity(m, p, tol);
    hide Mul, Spread;
    Product(p, p);
    Product(k, Sq(p));
    hide Sq;
  }

  lemma PeriodIsPositive(p: real, tol: real)
    requires 0.0 <= tol < 1.0 && (1.0 - tol) * p >= MIN_GAP
    ensures p > 0.0
  {
    assert Mul(1.0 - tol, p) >= MIN_GAP;
    hide Mul;
    if p <= 0.0 {
      Product(1.0 - tol, -p);
    }
  }

  lemma SquareIsNonNegative(x: real)
    ensures Sq(x) >= 0.0
  {}

  lemma QuadraticIdentity(m: real, p: real, tol: real)
    ensures 1.0225 * (0.0225 * Sq(m) - Spread(m, (1.0 - tol) * p, (1.0 + tol) * p))
            == Sq(1.0225 * m - p) + Mul(1.0225 * (1.0 - Sq(tol)) - 1.0, Sq(p))
  {
    hide Mul, Sq, Spread;
    SpreadAround(m, p, tol * p);
    SquareOfDifference(m, p);
    SquareOfDifference(1.0225 * m, p);
    SquareOfProduct(tol, p);
    Scaled(Sq(tol), Sq(p));
    ScaledSquare(m, p);
    Around(tol, p);
  }

  lemma ScaledSquare(m: real, p: real)
    ensures Sq(1.0225 * m) == 1.0225 * 1.0225 * Sq(m) && Mul(1.0225 * m, p) == 1.0225 * Mul(m, p)
  {}

  lemma Around(tol: real, p: real)
    ensures (1.0 + tol) * p == p + tol * p && (1.0 - tol) * p == p - tol * p
  {}

  lemma SpreadAround(m: real, p: real, t: real)
    ensures Spread(m, p - t, p + t) == Sq(t) - Sq(m - p)
  {}

  lemma SquareOfDifference(a: real, b: real)
    ensures Sq(a - b) == Sq(a) - 2.0 * Mul(a, b) + Sq(b)
  {}

  lemma SquareOfProduct(a: real, b: real)
    ensures Mul(Sq(a), Sq(b)) == Sq(a * b)
  {}

  lemma Scaled(x: real, y: real)
    ensures Mul(1.0225 * (1.0 - x) - 1.0, y) == 0.0225 * y - 1.0225 * Mul(x, y)
  {}

  // ── Over whole runs of the monitor ──────────────────────────────────────

  datatype Call = Call(exe: string, ip: string, now: real)

  /** One call of checkBeacon, as far as the tracking state goes. */
  function Called(track: Track, c: Call): Track {
    if c.exe == "" || c.ip == "" then track
    else Pruned(track, c.now)[Key(c.exe, c.ip) := Window(track, Key(c.exe, c.ip), c.now)]
  }

  /** The tracking state after some calls, in order. */
  function Run(track: Track, calls: seq<Call>): Track {
    if calls == [] then track else
    Called(Run(track, calls[..|calls| - 1]), calls[|calls| - 1])
  }

  /** When this pair was seen, oldest first. */
  function Contacts(calls: seq<Call>, exe: string, ip: string): seq<real> {
    if calls == [] then []
    else
      var c := calls[|calls| - 1];
      Contacts(calls[..|calls| - 1], exe, ip) + if c.exe == exe && c.ip == ip then [c.now] else []
  }

  predicate Chronological(calls: seq<Call>) {
    forall i, j | 0 <= i <= j < |calls| :: calls[i].now <= calls[j].now
  }

  lemma LongerExe(exe1: string, ip1: string, exe2: string, ip2: string)
    requires |exe1| < |exe2| && Key(exe1, ip1) == Key(exe2, ip2)
    ensures '|' in ip1
  {
    var k := Key(exe1, ip1);
    assert k[|exe2|] == '|';
    assert ip1[|exe2| - |exe1| - 1] == k[|exe2|];
  }

  /** Addresses never contain the separator, so a key names one pair. */
  lemma KeyIsInjective(exe1: string, ip1: string, exe2: string, ip2: string)
    requires '|' !in ip1 && '|' !in ip2 && Key(exe1, ip1) == Key(exe2, ip2)
    ensures exe1 == exe2 && ip1 == ip2
  {
    if |exe1| < |exe2| {
      LongerExe(exe1, ip1, exe2, ip2);
    } else if |exe2| < |exe1| {
      LongerExe(exe2, ip2, exe1, ip1);
    } else {
      var k := Key(exe1, ip1);
      assert k[..|exe1|] == exe1 && k[..|exe2|] == exe2;
      assert k[|exe1| + 1..] == ip1 && k[|exe2| + 1..] == ip2;
    }
  }

  /** What is kept of a pair while its contacts are never more than two hours
      apart: the last eight, unless it has been silent for longer than that. */
  predicate Kept(track: Track, key: string, cs: seq<real>, now: real) {
    if cs == [] then key !in track
    else now - cs[|cs| - 1] <= IDLE ==> key in track && track[key] == Last8(cs)
  }

  lemma KeptOverPrune(track: Track, key: string, cs: seq<real>, before: real, now: real)
    requires Kept(track, key, cs, before) && before <= now
    ensures Kept(Pruned(track, now), key, cs, now)
  {
    if cs != [] && now - cs[|cs| - 1] <= IDLE {
      assert track[key][|track[key]| - 1] == cs[|cs| - 1];
    }
  }

  predicate NoGapOver(cs: seq<real>, most: real) {
    forall i | 0 < i < |cs| :: cs[i] - cs[i - 1] <= most
  }

  lemma {:induction false} RunKeeps(track: Track, calls: seq<Call>, exe: string, ip: string, now: real)
    requires exe != "" && ip != "" && Key(exe, ip) !in track
    requires Chronological(calls) && forall c <- calls :: '|' !in c.ip && c.now <= now
    requires '|' !in ip && NoGapOver(Contacts(calls, exe, ip), IDLE)
    ensures Kept(Run(track, calls), Key(exe, ip), Contacts(calls, exe, ip), now)
    decreases |calls|
  {
    if calls == [] {
    } else {
      var n := |calls| - 1;
      var init, c := calls[..n], calls[n];
      var cs := Contacts(init, exe, ip);
      var mine := if c.exe == exe && c.ip == ip then [c.now] else [];
      assert Contacts(calls, exe, ip) == cs + mine;
      hide Run, Contacts;
      assert c in calls;
      NoGapPrefix(cs, mine, IDLE);
      RunKeeps(track, init, exe, ip, c.now);
      KeptOneCall(Run(track, init), c, exe, ip, cs, now);
      RunUnfold(track, calls);
    }
  }

  lemma NoGapPrefix(cs: seq<real>, more: seq<real>, most: real)
    requires NoGapOver(cs + more, most)
    ensures NoGapOver(cs, most)
    ensures cs != [] && more != [] ==> more[0] - cs[|cs| - 1] <= most
  {
    var all := cs + more;
    forall i | 0 < i < |cs| ensures cs[i] - cs[i - 1] <= most {
      assert all[i] - all[i - 1] <= most;
    }
    if cs != [] && more != [] {
      assert all[|cs|] - all[|cs| - 1] <= most;
    }
  }

  lemma KeptOneCall(track: Track, c: Call, exe: string, ip: string, cs: seq<real>, now: real)
    requires exe != "" && ip != "" && '|' !in ip && '|' !in c.ip
    requires Kept(track, Key(exe, ip), cs, c.now) && c.now <= now
    requires var mine := c.exe == exe && c.ip == ip; mine && cs != [] ==> c.now - cs[|cs| - 1] <= IDLE
    ensures Kept(Called(track, c), Key(exe, ip), cs + if c.exe == exe && c.ip == ip then [c.now] else [], now)
  {
    var key := Key(exe, ip);
    KeptOverPrune(track, key, cs, c.now, c.now);
    if c.exe == exe && c.ip == ip {
      OwnContact(track, key, cs, c.now);
    } else {
      assert cs + [] == cs;
      if Key(c.exe, c.ip) == key {
        KeyIsInjective(c.exe, c.ip, exe, ip);
      }
    }
    hide Last8, Key, Window;
  }

  lemma RunUnfold(track: Track, calls: seq<Call>)
    requires calls != []
    ensures Run(track, calls) == Called(Run(track, calls[..|calls| - 1]), calls[|calls| - 1])
  {}

  lemma OwnContact(track: Track, key: string, cs: seq<real>, now: real)
    requires Kept(Pruned(track, now), key, cs, now)
    requires cs != [] ==> now - cs[|cs| - 1] <= IDLE
    ensures Window(track, key, now) == Last8(cs + [now])
  {
  }

  lemma WithinSuffix(ts: seq<real>, k: nat, lo: real, hi: real)
    requires k < |ts| && Within(Gaps(ts), lo, hi)
    ensures Within(Gaps(ts[k..]), lo, hi)
  {
    hide Gaps;
    forall i | 0 <= i < |Gaps(ts[k..])| ensures lo <= Gaps(ts[k..])[i] <= hi {
      GapAt(ts[k..], i);
      GapAt(ts, k + i);
    }
  }

  lemma GapAt(ts: seq<real>, i: nat)
    requires i + 1 < |ts|
    ensures Gaps(ts)[i] == ts[i + 1] - ts[i]
  {}

  /** Completeness over every run: the pair is fresh, other pairs may come and go
      in between, and its contacts keep within the tolerance of the period. Then
      from its fourth contact on every call for it returns a period within the
      tolerance. */
  lemma BeaconIsReported(track: Track, calls: seq<Call>, exe: string, ip: string, now: real, p: real, tol: real)
    requires Detectable(p, tol)
    requires exe != "" && ip != "" && '|' !in ip && Key(exe, ip) !in track
    requires Chronological(calls + [Call(exe, ip, now)]) && forall c <- calls :: '|' !in c.ip
    requires var cs := Contacts(calls, exe, ip) + [now];
             |cs| >= MIN_SAMPLES && Within(Gaps(cs), (1.0 - tol) * p, (1.0 + tol) * p)
    ensures (1.0 - tol) * p <= Period(Window(Run(track, calls), Key(exe, ip), now)) <= (1.0 + tol) * p
  {
    var cs, key := Contacts(calls, exe, ip), Key(exe, ip);
    var whole := calls + [Call(exe, ip, now)];
    assert forall i | 0 <= i < |calls| :: calls[i] == whole[i] && whole[i].now <= whole[|calls|].now;
    SteadyHasNoGap(cs, now, (1.0 - tol) * p, (1.0 + tol) * p);
    hide Run, Contacts, Window, Period, Gaps;
    RunKeeps(track, calls, exe, ip, now);
    KeptOverPrune(Run(track, calls), key, cs, now, now);
    OwnContact(Run(track, calls), key, cs, now);
    SteadyTail(cs + [now], p, tol);
  }

  lemma SteadyHasNoGap(cs: seq<real>, now: real, lo: real, hi: real)
    requires Within(Gaps(cs + [now]), lo, hi) && hi <= IDLE
    ensures NoGapOver(cs, IDLE)
    ensures cs != [] ==> now - cs[|cs| - 1] <= IDLE
  {
    var all := cs + [now];
    hide Gaps;
    forall i | 0 < i < |cs| ensures cs[i] - cs[i - 1] <= IDLE {
      GapAt(all, i - 1);
    }
    if cs != [] {
      GapAt(all, |cs| - 1);
    }
  }

  lemma SteadyTail(all: seq<real>, p: real, tol: real)
    requires |all| >= MIN_SAMPLES && Detectable(p, tol)
    requires Within(Gaps(all), (1.0 - tol) * p, (1.0 + tol) * p)
    ensures (1.0 - tol) * p <= Period(Last8(all)) <= (1.0 + tol) * p
  {
    var k := if |all| > MAX_SAMPLES then |all| - MAX_SAMPLES else 0;
    assert Last8(all) == all[k..];
    hide *;
    WithinSuffix(all, k, (1.0 - tol) * p, (1.0 + tol) * p);
    SteadyIsFound(all[k..], p, tol);
  }

  /** In particular within 13 % of any period from 6 to 6000 seconds. */
  lemma ThirteenPercent(p: real)
    requires 6.0 <= p <= 6000.0
    ensures Detectable(p, 0.13)
  {}
}
