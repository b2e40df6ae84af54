/** connections.go, encodeReasons and localizeBreakdown: the language-neutral code
    of a score's reasons. */
module Breakdown {
  import opened Prelude
  import opened Text

  datatype Reason = Reason(key: string, pts: int, args: seq<string>)

  // ── Escaping ────────────────────────────────────────────────────────────

  function EscapeChar(c: char): string {
    match c
    case '%' => "%25"
    case ';' => "%3B"
    case '/' => "%2F"
    case '|' => "%7C"
    case _ => [c]
  }

  function Escape(s: string): string {
    if s == "" then "" else EscapeChar(s[0]) + Escape(s[1..])
  }

  /** strings.NewReplacer for the reverse table: left to right, each match once. */
  function Unescape(s: string): string
    decreases |s|
  {
    if s == "" then ""
    else if "%3B" <= s then ";" + Unescape(s[3..])
    else if "%2F" <= s then "/" + Unescape(s[3..])
    else if "%7C" <= s then "|" + Unescape(s[3..])
    else if "%25" <= s then "%" + Unescape(s[3..])
    else [s[0]] + Unescape(s[1..])
  }

  lemma UnescapeOne(c: char, rest: string)
    ensures Unescape(EscapeChar(c) + rest) == [c] + Unescape(rest)
  {
    var s := EscapeChar(c) + rest;
    if |EscapeChar(c)| == 3 {
      assert s[3..] == rest;
      assert s[..3] == EscapeChar(c);
      assert s[0] == '%' && s[1] == EscapeChar(c)[1] && s[2] == EscapeChar(c)[2];
    } else {
      assert s[0] == c && s[1..] == rest;
    }
  }

  lemma {:induction false} UnescapeEscape(s: string)
    ensures Unescape(Escape(s)) == s
    ensures ';' !in Escape(s) && '/' !in Escape(s) && '|' !in Escape(s)
  {
    hide Unescape;
    if s == "" {
      UnescapeNothing();
    } else {
      UnescapeEscape(s[1..]);
      UnescapeOne(s[0], Escape(s[1..]));
      assert s == [s[0]] + s[1..];
    }
  }

  lemma UnescapeNothing()
    ensures Unescape("") == ""
  {}

  // ── The code ────────────────────────────────────────────────────────────

  function EscapeAll(args: seq<string>): (es: seq<string>)
    ensures |es| == |args|
  {
    if args == [] then [] else [Escape(args[0])] + EscapeAll(args[1..])
  }

  function UnescapeAll(es: seq<string>): (args: seq<string>)
    ensures |args| == |es|
  {
    if es == [] then [] else [Unescape(es[0])] + UnescapeAll(es[1..])
  }

  function EncodeReason(r: Reason): string {
    r.key
    + (if r.pts != 0 || r.args != [] then "/" + Itoa(r.pts) else "")
    + (if r.args != [] then "/" + Join(EscapeAll(r.args), "|") else "")
  }

  function EncodeParts(rs: seq<Reason>): (parts: seq<string>)
    ensures |parts| == |rs|
  {
    if rs == [] then [] else [EncodeReason(rs[0])] + EncodeParts(rs[1..])
  }

  /** encodeReasons */
  function Encode(rs: seq<Reason>): string {
    Join(EncodeParts(rs), ";")
  }

  // ── Its grammar, and reading it back ────────────────────────────────────

  predicate IsKey(s: string) {
    s != "" && forall c <- s :: 'a' <= c <= 'z' || '0' <= c <= '9' || c == '_'
  }

  /** [a-z0-9_]+(/-?\d+(/[^;]*)?)? */
  ghost predicate PartGrammar(p: string) {
    exists key, num, rest :: Spelled(p, key, num, rest)
  }

  predicate Spelled(p: string, key: string, num: string, rest: string) {
    && key != "" && (forall c <- key :: 'a' <= c <= 'z' || '0' <= c <= '9' || c == '_')
    && num != "" && num != "-"
    && (forall i | 0 <= i < |num| :: '0' <= num[i] <= '9' || (i == 0 && num[i] == '-'))
    && ';' !in rest
    && (p == key || p == key + "/" + num || p == key + "/" + num + "/" + rest)
  }

  /** The same, decided: by the pieces between the first two slashes. */
  predicate PartMatches(p: string) {
    var f := SplitN(p, '/', 3);
    ';' !in p && IsKey(f[0]) && (|f| >= 2 ==> IsNumber(f[1]))
  }

  /** The whole code: parts of the grammar, separated by semicolons. */
  predicate Matches(code: string) {
    forall p <- Split(code, ';') :: PartMatches(p)
  }

  function DecodePart(p: string): Reason
    requires PartMatches(p)
  {
    var f := SplitN(p, '/', 3);
    Reason(f[0],
           if |f| >= 2 then NumberValue(f[1]) else 0,
           if |f| == 3 then UnescapeAll(Split(f[2], '|')) else [])
  }

  function DecodeParts(parts: seq<string>): (rs: seq<Reason>)
    requires forall p <- parts :: PartMatches(p)
    ensures |rs| == |parts|
  {
    if parts == [] then [] else [DecodePart(parts[0])] + DecodeParts(parts[1..])
  }

  /** What localizeBreakdown makes of a code before any text is rendered: the
      reasons, or the code itself when it is empty, not of the grammar, or has a
      key outside `known`. */
  datatype Localized = Reasons(rs: seq<Reason>) | AsIs(code: string)

  function Localize(known: set<string>, code: string): Localized {
    if code == "" || !Matches(code) then AsIs(code)
    else
      var rs := DecodeParts(Split(code, ';'));
      if forall r <- rs :: r.key in known then Reasons(rs) else AsIs(code)
  }

  // ── Lossless ────────────────────────────────────────────────────────────

  lemma {:induction false} ArgsBack(args: seq<string>)
    ensures UnescapeAll(EscapeAll(args)) == args
    ensures forall e <- EscapeAll(args) :: ';' !in e && '/' !in e && '|' !in e
  {
    if args == [] {
    } else {
      UnescapeEscape(args[0]);
      ArgsBack(args[1..]);
      assert EscapeAll(args)[1..] == EscapeAll(args[1..]);
    }
  }

  lemma {:induction false} JoinAvoids(parts: seq<string>, sep: char, c: char)
    requires c != sep && forall p <- parts :: c !in p
    ensures c !in Join(parts, [sep])
  {
    if |parts| > 1 {
      JoinAvoids(parts[1..], sep, c);
      assert c !in parts[0] && c !in [sep];
    } else if |parts| == 1 {
      assert c !in parts[0];
    }
  }

  lemma KeyAvoids(key: string)
    requires IsKey(key)
    ensures '/' !in key && ';' !in key
  {}

  lemma NumbersAvoid(num: string)
    requires IsNumber(num)
    ensures '/' !in num && ';' !in num
  {
    assert num == [num[0]] + num[1..];
  }

  lemma NumberAvoids(n: int)
    ensures '/' !in Itoa(n) && ';' !in Itoa(n)
  {
    NumberItoa(n);
  }

  /** Where the pieces of one encoded reason end. */
  lemma ReasonPieces(r: Reason)
    requires IsKey(r.key)
    ensures SplitN(EncodeReason(r), '/', 3) ==
            if r.args != [] then [r.key, Itoa(r.pts), Join(EscapeAll(r.args), "|")]
            else if r.pts != 0 then [r.key, Itoa(r.pts)]
            else [r.key]
  {
    hide Itoa, Join, EscapeAll, SplitN, IsKey, EncodeReason;
    var key, num, rest := r.key, Itoa(r.pts), Join(EscapeAll(r.args), "|");
    EncodedAs(r);
    KeyAvoids(key);
    NumberAvoids(r.pts);
    ArgsBack(r.args);
    JoinAvoids(EscapeAll(r.args), '|', '/');
    if r.args != [] {
      SplitNHead(key, '/', num + ['/'] + rest, 3);
      SplitNHead(num, '/', rest, 2);
      SplitNWhole(rest, '/', 1);
    } else if r.pts != 0 {
      SplitNHead(key, '/', num, 3);
      SplitNWhole(num, '/', 2);
    } else {
      SplitNWhole(key, '/', 3);
    }
  }

  /** No separator of reasons inside one. */
  lemma ReasonAvoids(r: Reason)
    requires IsKey(r.key)
    ensures ';' !in EncodeReason(r)
  {
    hide Itoa, Join, EscapeAll, IsKey, EncodeReason;
    EncodedAs(r);
    KeyAvoids(r.key);
    NumberAvoids(r.pts);
    ArgsBack(r.args);
    JoinAvoids(EscapeAll(r.args), '|', ';');
  }

  lemma EncodedAs(r: Reason)
    ensures var key, num, rest := r.key, Itoa(r.pts), Join(EscapeAll(r.args), "|");
            EncodeReason(r) == if r.args != [] then key + ['/'] + (num + ['/'] + rest)
                               else if r.pts != 0 then key + ['/'] + num
                               else key
  {
    var key, num, rest := r.key, Itoa(r.pts), Join(EscapeAll(r.args), "|");
    hide Itoa, Join, EscapeAll;
    assert "/" == ['/'];
    if r.args != [] {
      assert key + ("/" + num) + ("/" + rest) == key + ['/'] + (num + ['/'] + rest);
    } else if r.pts != 0 {
      assert key + ("/" + num) + "" == key + ['/'] + num;
    } else {
      assert key + "" + "" == key;
    }
  }

  lemma ReasonBack(r: Reason)
    requires IsKey(r.key)
    ensures PartMatches(EncodeReason(r)) && DecodePart(EncodeReason(r)) == r && ';' !in EncodeReason(r)
  {
    hide EncodeReason, SplitN, Itoa, IsNumber, NumberValue, Join, EscapeAll, UnescapeAll, IsKey;
    ReasonPieces(r);
    ReasonAvoids(r);
    NumberItoa(r.pts);
    if r.args != [] {
      ArgsBack(r.args);
      SplitJoin(EscapeAll(r.args), '|');
    }
  }

  lemma {:induction false} PartsBack(rs: seq<Reason>)
    requires forall r <- rs :: IsKey(r.key)
    ensures forall p <- EncodeParts(rs) :: PartMatches(p) && ';' !in p
    ensures DecodeParts(EncodeParts(rs)) == rs
  {
    hide PartMatches, DecodePart, EncodeReason, IsKey;
    if rs == [] {
    } else {
      ReasonBack(rs[0]);
      PartsBack(rs[1..]);
      assert EncodeParts(rs)[1..] == EncodeParts(rs[1..]);
    }
  }

  /** The code is lossless: for every non-empty list of reasons with keys of the
      alphabet and any arguments at all, it is of the grammar and reads back as
      the same keys, points and arguments. */
  lemma DecodeEncode(rs: seq<Reason>)
    requires rs != [] && forall r <- rs :: IsKey(r.key)
    ensures Matches(Encode(rs)) && Encode(rs) != ""
    ensures DecodeParts(Split(Encode(rs), ';')) == rs
  {
    PartsBack(rs);
    var parts := EncodeParts(rs);
    hide PartMatches, DecodePart, EncodeReason, IsKey, EncodeParts, DecodeParts;
    SplitJoin(parts, ';');
  }

  /** So a rendering shows exactly the encoded reasons when it knows their keys,
      and otherwise leaves the code untouched. */
  lemma LocalizeEncode(known: set<string>, rs: seq<Reason>)
    requires rs != [] && forall r <- rs :: IsKey(r.key)
    ensures Localize(known, Encode(rs)) ==
            if forall r <- rs :: r.key in known then Reasons(rs) else AsIs(Encode(rs))
  {
    DecodeEncode(rs);
    hide Encode, DecodeParts, Matches, Split, IsKey;
  }

  /** A code written out: points in decimal, arguments escaped. */
  lemma CodeExample()
    ensures Encode([Reason("c2", 60, []), Reason("chain", 0, ["/;", "|%"]), Reason("tor", 15, [])]) ==
            "c2/60" + ";" + ("chain/0/%2F%3B|%7C%25" + ";" + "tor/15")
  {
    hide EncodeReason, EncodeParts, Itoa;
    PlainReason("c2", 60);
    PlainReason("tor", 15);
    ChainReason();
    Numbers();
    var c2, chain, tor := Reason("c2", 60, []), Reason("chain", 0, ["/;", "|%"]), Reason("tor", 15, []);
    JoinThree(c2, chain, tor);
    assert "c2" + "/" + "60" == "c2/60" && "tor" + "/" + "15" == "tor/15";
  }

  lemma JoinThree(a: Reason, b: Reason, c: Reason)
    ensures Encode([a, b, c]) == EncodeReason(a) + ";" + (EncodeReason(b) + ";" + EncodeReason(c))
  {
    hide EncodeReason;
    assert [a, b, c][1..] == [b, c] && [b, c][1..] == [c] && [c][1..] == [];
    var x, y, z := EncodeReason(a), EncodeReason(b), EncodeReason(c);
    assert EncodeParts([c]) == [z] && EncodeParts([b, c]) == [y, z] && EncodeParts([a, b, c]) == [x, y, z];
    hide EncodeParts;
    assert [x, y, z][1..] == [y, z] && [y, z][1..] == [z];
    assert Join([z], ";") == z && Join([y, z], ";") == y + ";" + z;
  }

  lemma PlainReason(key: string, pts: int)
    requires pts != 0
    ensures EncodeReason(Reason(key, pts, [])) == key + "/" + Itoa(pts)
  {
    hide Itoa;
  }

  lemma ChainReason()
    ensures EncodeReason(Reason("chain", 0, ["/;", "|%"])) == "chain/0/%2F%3B|%7C%25"
  {
    hide Escape, Itoa;
    EscapeExample();
    Numbers();
    EscapeTwo("/;", "|%");
    hide EscapeAll;
    assert Join(["%2F%3B", "%7C%25"], "|") == "%2F%3B" + "|" + "%7C%25" by {
      assert ["%2F%3B", "%7C%25"][1..] == ["%7C%25"];
    }
    hide Join;
    assert "chain" + ("/" + "0") + ("/" + ("%2F%3B" + "|" + "%7C%25")) == "chain/0/%2F%3B|%7C%25";
  }

  lemma EscapeTwo(a: string, b: string)
    ensures EscapeAll([a, b]) == [Escape(a), Escape(b)]
  {
    hide Escape;
    assert [a, b][1..] == [b] && [b][1..] == [];
    assert EscapeAll([b]) == [Escape(b)];
  }

  lemma EscapeExample()
    ensures Escape("/;") == "%2F%3B" && Escape("|%") == "%7C%25"
  {
    assert Escape("") == "";
    assert "/;"[1..] == ";" && ";"[1..] == "" && "|%"[1..] == "%" && "%"[1..] == "";
    assert Escape(";") == "%3B" && Escape("%") == "%25";
  }

  lemma Numbers()
    ensures Itoa(60) == "60" && Itoa(15) == "15" && Itoa(0) == "0"
  {
    assert DigitChar(6) == '6' && DigitChar(0) == '0' && DigitChar(1) == '1' && DigitChar(5) == '5';
    assert Digits(6) == "6" && Digits(0) == "0" && Digits(1) == "1";
    assert 60 / 10 == 6 && 60 % 10 == 0 && 15 / 10 == 1 && 15 % 10 == 5;
    assert Digits(60) == Digits(6) + [DigitChar(0)];
    assert Digits(15) == Digits(1) + [DigitChar(5)];
  }

  /** Different reasons have different codes. */
  lemma EncodeInjective(a: seq<Reason>, b: seq<Reason>)
    requires a != [] && b != []
    requires forall r <- a + b :: IsKey(r.key)
    requires Encode(a) == Encode(b)
    ensures a == b
  {
    assert forall r <- a :: r in a + b;
    assert forall r <- b :: r in a + b;
    DecodeEncode(a);
    DecodeEncode(b);
    hide Encode, DecodeParts, Matches, IsKey;
  }

  lemma Classes(key: string, num: string)
    ensures IsKey(key) <==> key != "" && forall c <- key :: 'a' <= c <= 'z' || '0' <= c <= '9' || c == '_'
    ensures IsNumber(num) <==>
            && num != "" && num != "-"
            && forall i | 0 <= i < |num| :: '0' <= num[i] <= '9' || (i == 0 && num[i] == '-')
  {
    if num != "" {
      var tail := num[1..];
      assert num == [num[0]] + tail;
      assert forall c :: c in num <==> c == num[0] || c in tail;
      assert num[0] == '-' ==> (num == "-" <==> tail == "");
      assert num[0] in num;
      assert num[0] == '-' ==> (IsNumber(num) <==> IsDigits(tail));
      assert num[0] != '-' ==> (IsNumber(num) <==> IsDigits(num));
      assert (forall c <- tail :: IsDigit(c)) <==> forall i | 0 < i < |num| :: IsDigit(num[i]) by {
        assert forall i | 0 < i < |num| :: num[i] == tail[i - 1];
        assert forall j | 0 <= j < |tail| :: tail[j] == num[j + 1];
      }
    }
  }

  lemma SpelledPieces(p: string, key: string, num: string, rest: string)
    requires Spelled(p, key, num, rest)
    ensures PartMatches(p)
  {
    Classes(key, num);
    KeyAvoids(key);
    NumbersAvoid(num);
    hide SplitN, IsKey, IsNumber;
    assert "/" == ['/'];
    if p == key {
      SplitNWhole(key, '/', 3);
    } else if p == key + "/" + num {
      SplitNHead(key, '/', num, 3);
      SplitNWhole(num, '/', 2);
    } else {
      assert key + "/" + num + "/" + rest == key + ['/'] + (num + ['/'] + rest);
      SplitNHead(key, '/', num + ['/'] + rest, 3);
      SplitNHead(num, '/', rest, 2);
    }
  }

  /** The first piece, and what follows the separator. */
  lemma FirstPiece(p: string, n: nat)
    requires n >= 2
    ensures var i := Find(p, '/');
            if i == |p| then SplitN(p, '/', n) == [p]
            else p == p[..i] + "/" + p[i + 1..] && SplitN(p, '/', n) == [p[..i]] + SplitN(p[i + 1..], '/', n - 1)
  {}

  lemma MatchingPieces(p: string)
    requires PartMatches(p)
    ensures PartGrammar(p)
  {
    assert IsNumber("0");
    hide SplitN, IsKey, IsNumber, Spelled;
    FirstPiece(p, 3);
    var i := Find(p, '/');
    if i == |p| {
      SpelledAs(p, p, "0", "");
    } else {
      var key, q := p[..i], p[i + 1..];
      FirstPiece(q, 2);
      var j := Find(q, '/');
      if j == |q| {
        SpelledAs(p, key, q, "");
      } else {
        SpelledAs(p, key, q[..j], q[j + 1..]);
      }
    }
  }

  lemma SpelledAs(p: string, key: string, num: string, rest: string)
    requires IsKey(key) && IsNumber(num) && ';' !in p
    requires rest == "" || exists i | 0 <= i <= |p| :: p[i..] == rest
    requires p == key || p == key + "/" + num || p == key + "/" + (num + "/" + rest)
    ensures Spelled(p, key, num, rest)
  {
    Classes(key, num);
    hide IsKey, IsNumber;
    assert key + "/" + (num + "/" + rest) == key + "/" + num + "/" + rest;
  }

  /** The decision is the grammar: the code accepts exactly what it describes. */
  lemma PartMatchesGrammar(p: string)
    ensures PartMatches(p) <==> PartGrammar(p)
  {
    hide PartMatches, Spelled;
    if PartGrammar(p) {
      var key, num, rest :| Spelled(p, key, num, rest);
      SpelledPieces(p, key, num, rest);
    }
    if PartMatches(p) {
      MatchingPieces(p);
    }
  }
}
