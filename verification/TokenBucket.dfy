/** vt.go, tokenBucket: the shared VirusTotal quota, in exact arithmetic over a
    clock in seconds that never goes back. */
module TokenBucket {

  /** The fields that change. */
  datatype Level = Level(tokens: real, last: real)

  /** newBucket's parameters: capacity and tokens per second. */
  datatype Quota = Quota(max: real, rate: real) {
    predicate Valid() {
      max >= 0.0 && rate >= 0.0
    }
  }

  const VT_QUOTA := Quota(4.0, 4.0 / 60.0)

  function Min(a: real, b: real): real {
    if a < b then a else b
  }

  /** The tokens that drip in over `seconds`. */
  function Drip(q: Quota, seconds: real): real {
    seconds * q.rate
  }

  lemma DripGrows(q: Quota, a: real, b: real)
    requires q.Valid() && a <= b
    ensures Drip(q, a) <= Drip(q, b)
  {
    Product(b - a, q.rate);
  }

  lemma Product(a: real, b: real)
    requires a >= 0.0 && b >= 0.0
    ensures a * b >= 0.0
  {}

  lemma DripAdds(q: Quota, a: real, b: real)
    ensures Drip(q, a) + Drip(q, b) == Drip(q, a + b) && Drip(q, 0.0) == 0.0
  {}

  function Refilled(q: Quota, b: Level, now: real): real {
    Min(b.tokens + Drip(q, now - b.last), q.max)
  }

  /** One call of allow at time `now`. */
  function Call(q: Quota, b: Level, now: real): (Level, bool) {
    var r := Refilled(q, b, now);
    if r >= 1.0 then (Level(r - 1.0, now), true) else (Level(r, now), false)
  }

  class Bucket {
    const quota: Quota
    var level: Level

    constructor (max: real, perMin: real, now: real)
      ensures quota == Quota(max, perMin / 60.0) && level == Level(max, now)
    {
      quota := Quota(max, perMin / 60.0);
      level := Level(max, now);
    }

    method Allow(now: real) returns (granted: bool)
      modifies this
      ensures (level, granted) == Call(quota, old(level), now)
    {
      var tokens := level.tokens + Drip(quota, now - level.last);
      if tokens > quota.max {
        tokens := quota.max;
      }
      level := Level(tokens, now);
      if level.tokens >= 1.0 {
        level := level.(tokens := level.tokens - 1.0);
        return true;
      }
      return false;
    }
  }

  /** vtBucket: four at once, four a minute. */
  method VtBucket(now: real) returns (b: Bucket)
    ensures fresh(b) && b.quota == VT_QUOTA && b.level == Level(4.0, now)
  {
    b := new Bucket(4.0, 4.0, now);
  }

  predicate LevelOk(q: Quota, b: Level) {
    0.0 <= b.tokens <= q.max
  }

  /** Calls at these times, one after the other. */
  predicate Ordered(from: real, times: seq<real>) {
    && (forall i | 0 <= i < |times| :: from <= times[i])
    && (forall i, j | 0 <= i <= j < |times| :: times[i] <= times[j])
  }

  function After(q: Quota, b: Level, times: seq<real>): Level
    decreases |times|
  {
    if times == [] then b else After(q, Call(q, b, times[0]).0, times[1..])
  }

  function Grants(q: Quota, b: Level, times: seq<real>): nat
    decreases |times|
  {
    if times == [] then 0
    else (if Call(q, b, times[0]).1 then 1 else 0) + Grants(q, Call(q, b, times[0]).0, times[1..])
  }

  function LastOf(from: real, times: seq<real>): real {
    if times == [] then from else times[|times| - 1]
  }

  lemma CallKeeps(q: Quota, b: Level, now: real)
    requires q.Valid() && LevelOk(q, b) && b.last <= now
    ensures LevelOk(q, Call(q, b, now).0) && Call(q, b, now).0.last == now
  {
    DripGrows(q, 0.0, now - b.last);
    DripAdds(q, 0.0, 0.0);
    hide Drip;
  }

  /** Tokens stay between zero and the capacity. */
  lemma {:induction false} TokensStayInRange(q: Quota, b: Level, times: seq<real>)
    requires q.Valid() && LevelOk(q, b) && Ordered(b.last, times)
    ensures LevelOk(q, After(q, b, times)) && After(q, b, times).last == LastOf(b.last, times)
    decreases |times|
  {
    if times == [] {
    } else {
      CallKeeps(q, b, times[0]);
      TokensStayInRange(q, Call(q, b, times[0]).0, times[1..]);
    }
  }

  /** What is granted was there or has dripped in since. */
  lemma {:induction false} GrantsArePaid(q: Quota, b: Level, times: seq<real>)
    requires q.Valid() && LevelOk(q, b) && Ordered(b.last, times)
    ensures Grants(q, b, times) as real + After(q, b, times).tokens <= b.tokens + Drip(q, LastOf(b.last, times) - b.last)
    decreases |times|
  {
    DripAdds(q, 0.0, 0.0);
    hide Drip;
    if times == [] {
    } else {
      var b1 := Call(q, b, times[0]).0;
      CallKeeps(q, b, times[0]);
      GrantsArePaid(q, b1, times[1..]);
      var end := LastOf(b.last, times);
      assert end == LastOf(b1.last, times[1..]);
      DripAdds(q, times[0] - b.last, end - times[0]);
      assert times[0] - b.last + (end - times[0]) == end - b.last;
    }
  }

  /** Seen from the first of some calls, the bucket can have been at most full. */
  lemma WindowFromFirst(q: Quota, b: Level, times: seq<real>)
    requires q.Valid() && LevelOk(q, b) && Ordered(b.last, times) && times != []
    ensures Grants(q, b, times) as real <= q.max + Drip(q, LastOf(b.last, times) - times[0])
  {
    var full := Level(Refilled(q, b, times[0]), times[0]);
    DripGrows(q, 0.0, times[0] - b.last);
    DripAdds(q, 0.0, 0.0);
    hide Drip;
    assert times[0] - times[0] == 0.0;
    assert Refilled(q, full, times[0]) == full.tokens;
    assert Call(q, full, times[0]) == Call(q, b, times[0]);
    TokensStayInRange(q, full, times);
    GrantsArePaid(q, full, times);
  }

  lemma OrderedSplit(from: real, times: seq<real>, i: nat)
    requires Ordered(from, times) && i <= |times|
    ensures Ordered(from, times[..i]) && Ordered(LastOf(from, times[..i]), times[i..])
  {
    assert forall k | 0 <= k < |times| - i :: times[i..][k] == times[i + k];
  }

  /** The quota, over every run and every window: the calls numbered i to j - 1,
      all made between `s` and `t`, are granted at most max + (t - s) * rate
      times. */
  lemma WindowBound(q: Quota, start: real, times: seq<real>, i: nat, j: nat, s: real, t: real)
    requires q.Valid() && Ordered(start, times) && i <= j <= |times|
    requires s <= t && forall k | i <= k < j :: s <= times[k] <= t
    ensures Grants(q, After(q, Level(q.max, start), times[..i]), times[i..j]) as real <= q.max + Drip(q, t - s)
  {
    var full := Level(q.max, start);
    var b := After(q, full, times[..i]);
    OrderedSplit(start, times[..j], i);
    OrderedSplit(start, times, j);
    var window := times[i..j];
    assert times[..j][..i] == times[..i] && times[..j][i..] == window;
    TokensStayInRange(q, full, times[..i]);
    DripGrows(q, 0.0, t - s);
    DripAdds(q, 0.0, 0.0);
    if window != [] {
      assert window[0] == times[i] && window[|window| - 1] == times[j - 1];
      DripGrows(q, times[j - 1] - times[i], t - s);
      hide Drip, After, Grants;
      WindowFromFirst(q, b, window);
    }
  }

  /** In the VirusTotal bucket: at most 4 + (t - s) / 15 grants in any window. */
  lemma VtWindowBound(start: real, times: seq<real>, i: nat, j: nat, s: real, t: real)
    requires Ordered(start, times) && i <= j <= |times|
    requires s <= t && forall k | i <= k < j :: s <= times[k] <= t
    ensures Grants(VT_QUOTA, After(VT_QUOTA, Level(4.0, start), times[..i]), times[i..j]) as real <= 4.0 + (t - s) / 15.0
  {
    WindowBound(VT_QUOTA, start, times, i, j, s, t);
  }

  /** After any run, a call at least one token's worth of time after the last call
      (15 seconds for VirusTotal) is granted. */
  lemma PatienceIsRewarded(q: Quota, start: real, times: seq<real>, now: real)
    requires q.Valid() && q.max >= 1.0 && Ordered(start, times)
    requires Drip(q, now - LastOf(start, times)) >= 1.0
    ensures Call(q, After(q, Level(q.max, start), times), now).1
  {
    hide Drip;
    TokensStayInRange(q, Level(q.max, start), times);
  }

  lemma VtPatience(start: real, times: seq<real>, now: real)
    requires Ordered(start, times) && now - LastOf(start, times) >= 15.0
    ensures Call(VT_QUOTA, After(VT_QUOTA, Level(4.0, start), times), now).1
  {
    PatienceIsRewarded(VT_QUOTA, start, times, now);
  }

  // ── From the last grant ─────────────────────────────────────────────────

  /** Refused calls lose nothing: while every call is refused the tokens are what
      was there and all that has dripped in. */
  lemma {:induction false} RefusedKeepsAll(q: Quota, b: Level, times: seq<real>)
    requires q.Valid() && q.max >= 1.0 && LevelOk(q, b) && Ordered(b.last, times) && Grants(q, b, times) == 0
    ensures After(q, b, times).tokens == b.tokens + Drip(q, LastOf(b.last, times) - b.last)
    decreases |times|
  {
    DripAdds(q, 0.0, 0.0);
    hide Drip;
    if times == [] {
    } else {
      var b1 := Call(q, b, times[0]).0;
      CallKeeps(q, b, times[0]);
      RefusedKeepsAll(q, b1, times[1..]);
      var end := LastOf(b.last, times);
      assert end == LastOf(b1.last, times[1..]);
      DripAdds(q, times[0] - b.last, end - times[0]);
      assert times[0] - b.last + (end - times[0]) == end - b.last;
    }
  }

  lemma GrantedAfterRefusals(q: Quota, b: Level, refused: seq<real>, now: real)
    requires q.Valid() && q.max >= 1.0 && LevelOk(q, b) && Ordered(b.last, refused) && Grants(q, b, refused) == 0
    requires Drip(q, now - b.last) >= 1.0
    ensures Call(q, After(q, b, refused), now).1
  {
    hide Drip;
    TokensStayInRange(q, b, refused);
    RefusedKeepsAll(q, b, refused);
    var end := LastOf(b.last, refused);
    DripAdds(q, end - b.last, now - end);
    assert end - b.last + (now - end) == now - b.last;
  }

  /** Polling does not postpone a grant: after any run, a call at least one token's
      worth of time after some call is granted if all the calls between were refused,
      however many they were; after the last granted call in particular. */
  lemma PollingIsHarmless(q: Quota, start: real, times: seq<real>, refused: seq<real>, now: real)
    requires q.Valid() && q.max >= 1.0 && Ordered(start, times + refused)
    requires Grants(q, After(q, Level(q.max, start), times), refused) == 0
    requires Drip(q, now - LastOf(start, times)) >= 1.0
    ensures Call(q, After(q, After(q, Level(q.max, start), times), refused), now).1
  {
    hide Drip, After, Grants;
    OrderedSplit(start, times + refused, |times|);
    assert (times + refused)[..|times|] == times && (times + refused)[|times|..] == refused;
    TokensStayInRange(q, Level(q.max, start), times);
    GrantedAfterRefusals(q, After(q, Level(q.max, start), times), refused, now);
  }

  /** For VirusTotal, fifteen seconds after the last grant. */
  lemma VtPolling(start: real, times: seq<real>, refused: seq<real>, now: real)
    requires Ordered(start, times + refused) && now - LastOf(start, times) >= 15.0
    requires Grants(VT_QUOTA, After(VT_QUOTA, Level(4.0, start), times), refused) == 0
    ensures Call(VT_QUOTA, After(VT_QUOTA, After(VT_QUOTA, Level(4.0, start), times), refused), now).1
  {
    hide After, Grants, Ordered;
    PollingIsHarmless(VT_QUOTA, start, times, refused, now);
  }

  // ── The bound is met ────────────────────────────────────────────────────

  /** One call every fifteen seconds after `start`. */
  function Steady(start: real, n: nat): (times: seq<real>)
    ensures |times| == n
    decreases n
  {
    if n == 0 then [] else [start + 15.0] + Steady(start + 15.0, n - 1)
  }

  lemma {:induction false} SteadyIsGranted(start: real, n: nat)
    ensures Grants(VT_QUOTA, Level(0.0, start), Steady(start, n)) == n
    ensures n > 0 ==> LastOf(start, Steady(start, n)) == start + 15.0 * n as real
    decreases n
  {
    if n == 0 {
    } else {
      SteadyIsGranted(start + 15.0, n - 1);
      var times := Steady(start, n);
      assert times[0] == start + 15.0 && times[1..] == Steady(start + 15.0, n - 1);
      assert Call(VT_QUOTA, Level(0.0, start), start + 15.0) == (Level(0.0, start + 15.0), true);
    }
  }

  /** The bound is met in windows of any length: a fresh bucket grants four calls at
      once and one every fifteen seconds after, so 4 + n in 15 n seconds; it refuses a
      fifth call at once. */
  lemma BoundIsMet(start: real, n: nat)
    ensures Grants(VT_QUOTA, Level(4.0, start), [start, start, start, start] + Steady(start, n)) == 4 + n
    ensures n > 0 ==> LastOf(start, Steady(start, n)) - start == 15.0 * n as real
    ensures !Call(VT_QUOTA, After(VT_QUOTA, Level(4.0, start), [start, start, start, start]), start).1
  {
    var times := [start, start, start, start] + Steady(start, n);
    SteadyIsGranted(start, n);
    Burst(start, times);
    assert times[4..] == Steady(start, n);
    Burst(start, [start, start, start, start]);
    assert [start, start, start, start][4..] == [];
  }

  /** Four calls at once empty a full bucket. */
  lemma Burst(start: real, times: seq<real>)
    requires |times| >= 4 && times[..4] == [start, start, start, start]
    ensures Grants(VT_QUOTA, Level(4.0, start), times) == 4 + Grants(VT_QUOTA, Level(0.0, start), times[4..])
    ensures After(VT_QUOTA, Level(4.0, start), times) == After(VT_QUOTA, Level(0.0, start), times[4..])
  {
    assert forall i | 0 <= i < 4 :: times[i] == times[..4][i] == start;
    assert times[1..][1..] == times[2..] && times[2..][1..] == times[3..] && times[3..][1..] == times[4..];
    hide Grants, After;
    Unroll(4, start, times);
    Unroll(3, start, times[1..]);
    Unroll(2, start, times[2..]);
    Unroll(1, start, times[3..]);
  }

  /** So eight grants fit in one minute, against a quota of four a minute. */
  lemma EightInAMinute(start: real)
    ensures exists times ::
              Ordered(start, times) && LastOf(start, times) == start + 60.0 && Grants(VT_QUOTA, Level(4.0, start), times) == 8
  {
    var times := [start, start, start, start] + Steady(start, 4);
    BoundIsMet(start, 4);
    assert Steady(start, 4) == [start + 15.0, start + 30.0, start + 45.0, start + 60.0] by {
      assert Steady(start + 60.0, 0) == [];
      assert Steady(start + 45.0, 1) == [start + 60.0];
      assert Steady(start + 30.0, 2) == [start + 45.0, start + 60.0];
      assert Steady(start + 15.0, 3) == [start + 30.0, start + 45.0, start + 60.0];
    }
    assert Ordered(start, times);
  }

  lemma Unroll(k: nat, start: real, n: seq<real>)
    requires 1 <= k <= 4 && n != [] && n[0] == start
    ensures Grants(VT_QUOTA, Level(k as real, start), n) == 1 + Grants(VT_QUOTA, Level((k - 1) as real, start), n[1..])
    ensures After(VT_QUOTA, Level(k as real, start), n) == After(VT_QUOTA, Level((k - 1) as real, start), n[1..])
  {}
}
