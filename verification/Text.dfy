/** Decimal numbers and separators, as strconv and strings handle them. */
module Text {
  import opened Prelude

  // ── Splitting and joining ───────────────────────────────────────────────

  /** The index of the first `c`, or |s|. */
  function Find(s: string, c: char): (i: nat)
    ensures i <= |s|
    ensures forall k | 0 <= k < i :: s[k] != c
    ensures i < |s| ==> s[i] == c
  {
    if s == "" || s[0] == c then 0 else 1 + Find(s[1..], c)
  }

  /** strings.Split: one more piece than there are separators. */
  function Split(s: string, c: char): (parts: seq<string>)
    ensures parts != []
    decreases |s|
  {
    var i := Find(s, c);
    if i == |s| then [s] else [s[..i]] + Split(s[i + 1..], c)
  }

  /** strings.SplitN: at most `n` pieces, the last one unsplit. */
  function SplitN(s: string, c: char, n: nat): (parts: seq<string>)
    requires n >= 1
    ensures 1 <= |parts| <= n
    decreases n
  {
    var i := Find(s, c);
    if n == 1 || i == |s| then [s] else [s[..i]] + SplitN(s[i + 1..], c, n - 1)
  }

  lemma FindAt(x: string, c: char, y: string)
    requires c !in x
    ensures Find(x + [c] + y, c) == |x|
  {
    var s := x + [c] + y;
    assert s[|x|] == c;
    assert forall k | 0 <= k < |x| :: s[k] == x[k] && x[k] in x;
  }

  lemma FindNone(x: string, c: char)
    requires c !in x
    ensures Find(x, c) == |x|
  {
    assert forall k | 0 <= k < |x| :: x[k] in x;
  }

  /** Splitting undoes joining, for pieces free of the separator. */
  lemma {:induction false} SplitJoin(parts: seq<string>, c: char)
    requires parts != [] && forall p <- parts :: c !in p
    ensures Split(Join(parts, [c]), c) == parts
    decreases |parts|
  {
    var head, rest := parts[0], parts[1..];
    assert c !in head;
    if rest == [] {
      FindNone(head, c);
      assert parts == [head];
    } else {
      var tail := Join(rest, [c]);
      assert Join(parts, [c]) == head + [c] + tail;
      FindAt(head, c, tail);
      assert (head + [c] + tail)[..|head|] == head && (head + [c] + tail)[|head| + 1..] == tail;
      SplitJoin(rest, c);
    }
  }

  lemma SplitNHead(x: string, c: char, y: string, n: nat)
    requires c !in x && n >= 2
    ensures SplitN(x + [c] + y, c, n) == [x] + SplitN(y, c, n - 1)
  {
    var s := x + [c] + y;
    FindAt(x, c, y);
    assert s[..|x|] == x && s[|x| + 1..] == y;
  }

  lemma SplitNWhole(x: string, c: char, n: nat)
    requires c !in x && n >= 1
    ensures SplitN(x, c, n) == [x]
  {
    FindNone(x, c);
  }

  // ── Decimal numbers ─────────────────────────────────────────────────────

  predicate IsDigit(c: char) {
    '0' <= c <= '9'
  }

  predicate IsDigits(s: string) {
    s != "" && forall c <- s :: IsDigit(c)
  }

  function DigitChar(d: nat): (c: char)
    requires d < 10
    ensures IsDigit(c) && DigitValue(c) == d
  {
    ((d + 48) as char)
  }

  function DigitValue(c: char): nat
    requires IsDigit(c)
  {
    c as int - 48
  }

  function Digits(n: nat): string {
    if n < 10 then [DigitChar(n)] else Digits(n / 10) + [DigitChar(n % 10)]
  }

  function Value(s: string): nat
    requires forall c <- s :: IsDigit(c)
  {
    if s == "" then 0
    else
      assert forall c <- s[..|s| - 1] :: c in s;
      10 * Value(s[..|s| - 1]) + DigitValue(s[|s| - 1])
  }

  /** strconv.Itoa */
  function Itoa(n: int): string {
    if n < 0 then "-" + Digits(-n) else Digits(n)
  }

  /** -?\d+ */
  predicate IsNumber(s: string) {
    IsDigits(s) || (s != "" && s[0] == '-' && IsDigits(s[1..]))
  }

  function NumberValue(s: string): int
    requires IsNumber(s)
  {
    if s[0] == '-' then 0 - Value(s[1..]) else Value(s)
  }

  const MAX_INT := 0x7FFF_FFFF_FFFF_FFFF

  /** strconv.Atoi: an optional sign and digits, within 64 bits. */
  function Atoi(s: string): Option<int> {
    var body := if s != "" && (s[0] == '-' || s[0] == '+') then s[1..] else s;
    if !IsDigits(body) then None
    else
      var v: int := if s[0] == '-' then 0 - Value(body) else Value(body);
      if -MAX_INT - 1 <= v <= MAX_INT then Some(v) else None
  }

  lemma {:induction false} DigitsValue(n: nat)
    ensures IsDigits(Digits(n)) && Value(Digits(n)) == n
  {
    if n < 10 {
      assert Digits(n)[..0] == "";
    } else {
      DigitsValue(n / 10);
      var s, d := Digits(n / 10), DigitChar(n % 10);
      assert (s + [d])[..|s|] == s;
    }
  }

  lemma NumberItoa(n: int)
    ensures IsNumber(Itoa(n)) && NumberValue(Itoa(n)) == n
    ensures forall c <- Itoa(n) :: IsDigit(c) || c == '-'
    ensures -MAX_INT - 1 <= n <= MAX_INT ==> Atoi(Itoa(n)) == Some(n)
  {
    if n < 0 {
      DigitsValue(-n);
      assert Itoa(n)[1..] == Digits(-n);
    } else {
      DigitsValue(n);
      assert IsDigit(Itoa(n)[0]);
    }
  }
}
