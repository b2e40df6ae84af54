/** config.go, writeEnv and cleanEnvValue: the settings file, merged line by line. */
module EnvFile {
  import opened Prelude
  import opened Text

  // ── cleanEnvValue ───────────────────────────────────────────────────────

  /** unicode.IsSpace */
  predicate IsSpace(c: char) {
    var n := c as int;
    || 9 <= n <= 13 || n == 0x20 || n == 0x85 || n == 0xA0 || n == 0x1680
    || 0x2000 <= n <= 0x200A || n == 0x2028 || n == 0x2029 || n == 0x202F || n == 0x205F || n == 0x3000
  }

  function TrimLeft(s: string): string {
    if s != "" && IsSpace(s[0]) then TrimLeft(s[1..]) else s
  }

  function TrimRight(s: string): string {
    if s != "" && IsSpace(s[|s| - 1]) then TrimRight(s[..|s| - 1]) else s
  }

  function Without(s: string, drop: set<char>): string {
    if s == "" then "" else (if s[0] in drop then "" else [s[0]]) + Without(s[1..], drop)
  }

  /** The characters that would end the line, or the file, early. */
  const BREAKS: set<char> := {'\n', '\r', '\0'}

  function Clean(v: string): string {
    Without(TrimRight(TrimLeft(v)), BREAKS)
  }

  // ── Lines ───────────────────────────────────────────────────────────────

  /** The lines of a text, each ended by a newline or by the end. */
  function Lines(s: string): seq<string>
    decreases |s|
  {
    if s == "" then []
    else
      var i := Find(s, '\n');
      if i == |s| then [s] else [s[..i]] + Lines(s[i + 1..])
  }

  /** The bytes of a character in UTF-8. */
  function Octets(c: char): nat {
    var n := c as int;
    if n < 0x80 then 1 else if n < 0x800 then 2 else if n < 0x1_0000 then 3 else 4
  }

  function Size(s: string): nat {
    if s == "" then 0 else Octets(s[0]) + Size(s[1..])
  }

  const SCANNER_LIMIT := 64 * 1024

  /** A line that fits the scanner's buffer together with its end. */
  predicate Fits(line: string) {
    Size(line) < SCANNER_LIMIT
  }

  /** The lines before the first that does not fit, where the scanner stops. */
  function Fitting(ls: seq<string>): seq<string> {
    if ls == [] || !Fits(ls[0]) then [] else [ls[0]] + Fitting(ls[1..])
  }

  function Chomp(line: string): string {
    if line != "" && line[|line| - 1] == '\r' then line[..|line| - 1] else line
  }

  function ChompAll(ls: seq<string>): (r: seq<string>)
    ensures |r| == |ls|
    ensures forall i | 0 <= i < |ls| :: r[i] == Chomp(ls[i])
  {
    seq(|ls|, i requires 0 <= i < |ls| => Chomp(ls[i]))
  }

  /** bufio.Scanner with ScanLines, to its end or its error. */
  function Scan(text: string): seq<string> {
    ChompAll(Fitting(Lines(text)))
  }

  /** A file that cannot be opened has no lines. */
  function LinesOf(file: Option<string>): seq<string> {
    match file case Some(text) => Scan(text) case None => []
  }

  /** The text written for some lines. */
  function Render(ls: seq<string>): string {
    Join(ls, "\n") + "\n"
  }

  // ── Assignments ─────────────────────────────────────────────────────────

  /** The class \s of the expression. */
  predicate IsBlank(c: char) {
    c in {' ', '\t', '\n', '\U{0C}', '\r'}
  }

  predicate IsKeyStart(c: char) {
    'A' <= c <= 'Z' || c == '_'
  }

  predicate IsKeyChar(c: char) {
    IsKeyStart(c) || '0' <= c <= '9'
  }

  predicate IsKey(k: string) {
    k != "" && IsKeyStart(k[0]) && forall c <- k :: IsKeyChar(c)
  }

  predicate Blank(s: string) {
    forall c <- s :: IsBlank(c)
  }

  datatype Assignment = Assignment(key: string, value: string)

  /** ^\s*([A-Z_][A-Z0-9_]*)\s*= and what follows it. */
  predicate Assigns(line: string, pre: string, key: string, mid: string, value: string) {
    && (forall c <- pre + mid :: c in {' ', '\t', '\n', '\U{0C}', '\r'})
    && key != "" && !('0' <= key[0] <= '9')
    && (forall c <- key :: 'A' <= c <= 'Z' || '0' <= c <= '9' || c == '_')
    && line == pre + key + mid + "=" + value
  }

  ghost predicate AssignsTo(line: string, a: Assignment) {
    exists pre, mid :: Assigns(line, pre, a.key, mid, a.value)
  }

  function BlankLen(s: string): (n: nat)
    ensures n <= |s| && Blank(s[..n]) && (n < |s| ==> !IsBlank(s[n]))
  {
    if s == "" || !IsBlank(s[0]) then 0
    else
      var n := 1 + BlankLen(s[1..]);
      assert s[..n] == [s[0]] + s[1..][..n - 1];
      n
  }

  function KeyLen(s: string): (n: nat)
    ensures n <= |s| && (forall c <- s[..n] :: IsKeyChar(c)) && (n < |s| ==> !IsKeyChar(s[n]))
  {
    if s == "" || !IsKeyChar(s[0]) then 0
    else
      var n := 1 + KeyLen(s[1..]);
      assert s[..n] == [s[0]] + s[1..][..n - 1];
      n
  }

  function ParseRest(key: string, t: string): Option<Assignment> {
    var m := BlankLen(t);
    if m < |t| && t[m] == '=' then Some(Assignment(key, t[m + 1..])) else None
  }

  function ParseTrimmed(s: string): Option<Assignment> {
    var n := KeyLen(s);
    if n == 0 || !IsKeyStart(s[0]) then None else ParseRest(s[..n], s[n..])
  }

  /** The assignment a line makes, if the expression matches it. */
  function Parse(line: string): Option<Assignment> {
    ParseTrimmed(line[BlankLen(line)..])
  }

  /** The value of a key: the last assignment wins. */
  function Lookup(ls: seq<string>, k: string): Option<string> {
    if ls == [] then None
    else
      match Parse(ls[|ls| - 1])
      case Some(a) => if a.key == k then Some(a.value) else Lookup(ls[..|ls| - 1], k)
      case None => Lookup(ls[..|ls| - 1], k)
  }

  function Keys(ls: seq<string>): set<string> {
    if ls == [] then {}
    else
      Keys(ls[..|ls| - 1]) + match Parse(ls[|ls| - 1]) case Some(a) => {a.key} case None => {}
  }

  // ── The merge ───────────────────────────────────────────────────────────

  function Cleaned(updates: map<string, string>): map<string, string> {
    map k <- updates :: Clean(updates[k])
  }

  function Assign(k: string, v: string): string {
    k + "=" + v
  }

  predicate Targets(line: string, keys: set<string>) {
    match Parse(line) case Some(a) => a.key in keys case None => false
  }

  function Replace(line: string, updates: map<string, string>): string {
    match Parse(line)
    case Some(a) => if a.key in updates then Assign(a.key, updates[a.key]) else line
    case None => line
  }

  function ReplaceAll(ls: seq<string>, updates: map<string, string>): (r: seq<string>)
    ensures |r| == |ls|
    ensures forall i | 0 <= i < |ls| :: r[i] == Replace(ls[i], updates)
  {
    seq(|ls|, i requires 0 <= i < |ls| => Replace(ls[i], updates))
  }

  function AssignAll(order: seq<string>, updates: map<string, string>): (r: seq<string>)
    requires forall k <- order :: k in updates
    ensures |r| == |order|
    ensures forall i | 0 <= i < |order| :: r[i] == Assign(order[i], updates[order[i]])
  {
    seq(|order|, i requires 0 <= i < |order| => Assign(order[i], updates[order[i]]))
  }

  predicate Distinct(order: seq<string>) {
    forall i, j | 0 <= i < j < |order| :: order[i] != order[j]
  }

  /** `order` lists the keys that no old line assigns, once each, in any order. */
  predicate Lists(order: seq<string>, keys: set<string>) {
    Distinct(order) && (set k <- order) == keys
  }

  /** `r` is `ls` with its assignments to updated keys replaced, and the other keys
      appended. */
  ghost predicate Merges(ls: seq<string>, updates: map<string, string>, r: seq<string>) {
    exists order :: MergesAs(ls, updates, order, r)
  }

  predicate MergesAs(ls: seq<string>, updates: map<string, string>, order: seq<string>, r: seq<string>) {
    && Lists(order, updates.Keys - Keys(ls))
    && (forall k <- order :: k in updates)
    && r == ReplaceAll(ls, updates) + AssignAll(order, updates)
  }

  // ── writeEnv ────────────────────────────────────────────────────────────

  /** The caller's map, which writeEnv cleans in place. */
  class Updates {
    var entries: map<string, string>

    constructor (entries: map<string, string>)
      ensures this.entries == entries
    {
      this.entries := entries;
    }

    method CleanAll()
      modifies this
      ensures entries == Cleaned(old(entries))
    {
      hide Clean;
      var todo := entries.Keys;
      while todo != {}
        invariant entries.Keys == old(entries).Keys && todo <= entries.Keys
        invariant forall k <- entries :: entries[k] == if k in todo then old(entries)[k] else Clean(old(entries)[k])
        decreases |todo|
      {
        var k :| k in todo;
        entries := entries[k := Clean(entries[k])];
        todo := todo - {k};
      }
    }
  }

  class Settings {
    /** The file's text; None when it cannot be opened. */
    var file: Option<string>

    constructor (file: Option<string>)
      ensures this.file == file
    {
      this.file := file;
    }

    /** `saved`: the new text reaches its place, all of it or nothing. */
    method WriteEnv(given: Updates, saved: bool) returns (ghost r: seq<string>)
      modifies this, given
      ensures given.entries == Cleaned(old(given.entries))
      ensures Merges(LinesOf(old(file)), given.entries, r)
      ensures file == if saved then Some(Render(r)) else old(file)
    {
      hide Clean, Parse, Keys, Render, Scan, ReplaceAll, AssignAll, Lists;
      given.CleanAll();
      var updates := given.entries;
      var lines: seq<string> := [];
      var seen: set<string> := {};
      NothingOld(updates);
      if file.Some? {
        lines, seen := MergeOld(Scan(file.value), updates);
      }
      ghost var order;
      lines, order := AppendMissing(lines, updates, seen);
      assert updates.Keys - seen == updates.Keys - Keys(LinesOf(file));
      assert MergesAs(LinesOf(file), updates, order, lines);
      r := lines;
      if saved {
        file := Some(Render(lines));
      }
    }
  }

  /** The first loop: every old line, with its value replaced where it has a new one. */
  method MergeOld(scanned: seq<string>, updates: map<string, string>) returns (lines: seq<string>, seen: set<string>)
    ensures lines == ReplaceAll(scanned, updates)
    ensures seen == Keys(scanned) * updates.Keys
  {
    hide Parse, Keys;
    lines, seen := [], {};
    NothingOld(updates);
    for i := 0 to |scanned|
      invariant lines == ReplaceAll(scanned[..i], updates)
      invariant seen == Keys(scanned[..i]) * updates.Keys
    {
      var line := scanned[i];
      KeysNext(scanned, i);
      match Parse(line) {
        case Some(m) =>
          if m.key in updates {
            lines, seen := lines + [Assign(m.key, updates[m.key])], seen + {m.key};
          } else {
            lines := lines + [line];
          }
        case None =>
          lines := lines + [line];
      }
    }
    assert scanned[..|scanned|] == scanned;
  }

  /** The last loop: the keys no line had, in whatever order the map gives them. */
  method AppendMissing(kept: seq<string>, updates: map<string, string>, seen: set<string>)
    returns (lines: seq<string>, ghost order: seq<string>)
    ensures Lists(order, updates.Keys - seen) && forall k <- order :: k in updates
    ensures lines == kept + AssignAll(order, updates)
    ensures |lines| == |kept| + |updates.Keys - seen|
  {
    hide Lists, AssignAll, Assign;
    lines, order := kept, [];
    EmptyList(updates);
    var todo := updates.Keys;
    assert updates.Keys - todo - seen == updates.Keys - updates.Keys - {};
    while todo != {}
      invariant todo <= updates.Keys
      invariant Lists(order, updates.Keys - todo - seen) && forall k <- order :: k in updates
      invariant lines == kept + AssignAll(order, updates)
      decreases |todo|
    {
      var k :| k in todo;
      AppendStep(order, updates, todo, seen, k);
      if k !in seen {
        lines := lines + [Assign(k, updates[k])];
        order := order + [k];
      }
      todo := todo - {k};
    }
    assert updates.Keys - todo - seen == updates.Keys - seen;
    ListedCount(order, updates.Keys - seen);
  }

  lemma AppendStep(order: seq<string>, updates: map<string, string>, todo: set<string>, seen: set<string>, k: string)
    requires Lists(order, updates.Keys - todo - seen) && forall x <- order :: x in updates
    requires k in todo && k in updates
    ensures Lists(if k in seen then order else order + [k], updates.Keys - (todo - {k}) - seen)
    ensures forall x <- order + [k] :: x in updates
    ensures AssignAll(order + [k], updates) == AssignAll(order, updates) + [Assign(k, updates[k])]
  {
    hide Lists, AssignAll, Assign;
    AssignAllNext(order, updates, k);
    if k in seen {
      assert updates.Keys - (todo - {k}) - seen == updates.Keys - todo - seen;
    } else {
      ListsNext(order, updates.Keys - todo - seen, k);
      assert updates.Keys - (todo - {k}) - seen == updates.Keys - todo - seen + {k};
    }
  }

  lemma ListedCount(order: seq<string>, keys: set<string>)
    requires Lists(order, keys)
    ensures |order| == |keys|
  {
    DistinctCount(order);
  }

  lemma EmptyList(updates: map<string, string>)
    ensures Lists([], updates.Keys - updates.Keys - {}) && AssignAll([], updates) == []
  {}

  lemma AssignAllNext(order: seq<string>, updates: map<string, string>, k: string)
    requires (forall x <- order :: x in updates) && k in updates
    ensures forall x <- order + [k] :: x in updates
    ensures AssignAll(order + [k], updates) == AssignAll(order, updates) + [Assign(k, updates[k])]
  {}

  lemma ListsNext(order: seq<string>, keys: set<string>, k: string)
    requires Lists(order, keys) && k !in keys
    ensures Lists(order + [k], keys + {k})
  {
    assert forall x <- order :: x in keys;
    assert forall x <- order + [k] :: x in keys || x == k;
    assert forall x <- keys :: x in order + [k];
    assert k in order + [k];
  }

  lemma KeysNext(ls: seq<string>, i: nat)
    requires i < |ls|
    ensures Keys(ls[..i + 1]) == Keys(ls[..i]) + match Parse(ls[i]) case Some(a) => {a.key} case None => {}
  {
    assert ls[..i + 1][..i] == ls[..i];
  }

  lemma NothingOld(updates: map<string, string>)
    ensures Keys([]) == {} && ReplaceAll([], updates) == []
  {}

  // ── The expression ──────────────────────────────────────────────────────

  lemma {:induction false} BlankLenIs(pre: string, rest: string)
    requires Blank(pre) && (rest != "" ==> !IsBlank(rest[0]))
    ensures BlankLen(pre + rest) == |pre|
  {
    if pre == "" {
      assert pre + rest == rest;
    } else {
      assert (pre + rest)[1..] == pre[1..] + rest;
      assert pre[0] in pre;
      assert forall c <- pre[1..] :: c in pre;
      BlankLenIs(pre[1..], rest);
    }
  }

  lemma {:induction false} KeyLenIs(key: string, rest: string)
    requires (forall c <- key :: IsKeyChar(c)) && (rest != "" ==> !IsKeyChar(rest[0]))
    ensures KeyLen(key + rest) == |key|
  {
    if key == "" {
      assert key + rest == rest;
    } else {
      assert (key + rest)[1..] == key[1..] + rest;
      assert key[0] in key;
      assert forall c <- key[1..] :: c in key;
      KeyLenIs(key[1..], rest);
    }
  }

  lemma RestOf(key: string, mid: string, value: string)
    requires Blank(mid)
    ensures ParseRest(key, mid + ("=" + value)) == Some(Assignment(key, value))
  {
    hide BlankLen;
    BlankLenIs(mid, "=" + value);
    var t := mid + ("=" + value);
    assert t[|mid|] == '=' && t[|mid| + 1..] == value;
  }

  lemma TrimmedOf(key: string, t: string)
    requires IsKey(key) && t != "" && !IsKeyChar(t[0])
    ensures ParseTrimmed(key + t) == ParseRest(key, t)
  {
    hide KeyLen, ParseRest;
    KeyLenIs(key, t);
    assert (key + t)[..|key|] == key && (key + t)[|key|..] == t;
  }

  /** What the expression can match in one way only: the pieces fix the parse. */
  lemma ParseOf(pre: string, key: string, mid: string, value: string)
    requires Blank(pre) && IsKey(key) && Blank(mid)
    ensures Parse(pre + key + mid + "=" + value) == Some(Assignment(key, value))
  {
    var t := mid + ("=" + value);
    var s := key + t;
    assert pre + key + mid + "=" + value == pre + s;
    assert !IsKeyChar(t[0]) by {
      assert mid != "" ==> mid[0] in mid;
      assert t[0] == if mid == "" then '=' else mid[0];
    }
    assert !IsBlank(s[0]) by {
      assert s[0] == key[0];
    }
    hide IsKey, BlankLen, ParseTrimmed;
    BlankLenIs(pre, s);
    assert (pre + s)[|pre|..] == s;
    TrimmedOf(key, t);
    RestOf(key, mid, value);
  }

  lemma RestFinds(key: string, t: string) returns (m: nat)
    requires ParseRest(key, t).Some?
    ensures m < |t| && Blank(t[..m]) && ParseRest(key, t) == Some(Assignment(key, t[m + 1..]))
    ensures t == t[..m] + ("=" + t[m + 1..])
  {
    hide BlankLen;
    m := BlankLen(t);
    assert t == t[..m] + [t[m]] + t[m + 1..];
  }

  lemma TrimmedFinds(s: string) returns (n: nat)
    requires ParseTrimmed(s).Some?
    ensures n <= |s| && IsKey(s[..n]) && ParseTrimmed(s) == ParseRest(s[..n], s[n..])
  {
    hide KeyLen, ParseRest;
    n := KeyLen(s);
    assert s[..n][0] == s[0];
  }

  lemma ParseFinds(line: string)
    requires Parse(line).Some?
    ensures AssignsTo(line, Parse(line).value)
  {
    hide BlankLen, ParseTrimmed, ParseRest, IsKey;
    var b := BlankLen(line);
    var s := line[b..];
    var n := TrimmedFinds(s);
    var m := RestFinds(s[..n], s[n..]);
    Pieces(line, b, n, m);
    Classes(line[..b], s[..n], s[n..][..m]);
    assert Assigns(line, line[..b], s[..n], s[n..][..m], s[n..][m + 1..]);
  }

  lemma Classes(pre: string, key: string, mid: string)
    ensures Blank(pre) && Blank(mid) <==> forall c <- pre + mid :: c in {' ', '\t', '\n', '\U{0C}', '\r'}
    ensures IsKey(key) <==>
            && key != "" && !('0' <= key[0] <= '9')
            && forall c <- key :: 'A' <= c <= 'Z' || '0' <= c <= '9' || c == '_'
  {
    assert forall c <- pre :: c in pre + mid;
    assert forall c <- mid :: c in pre + mid;
    assert key != "" ==> key[0] in key;
  }

  lemma Pieces(line: string, b: nat, n: nat, m: nat)
    requires b <= |line| && n <= |line[b..]| && m < |line[b..][n..]|
    requires var t := line[b..][n..]; t == t[..m] + ("=" + t[m + 1..])
    ensures var s := line[b..];
            var t := s[n..];
            line == line[..b] + s[..n] + t[..m] + "=" + t[m + 1..]
  {
    var s := line[b..];
    var t := s[n..];
    assert line == line[..b] + (s[..n] + (t[..m] + ("=" + t[m + 1..])));
  }

  /** A line is read as an assignment exactly when the expression matches it, and
      then as the only one it can be. */
  lemma ParseIsTheGrammar(line: string, a: Assignment)
    ensures Parse(line) == Some(a) <==> AssignsTo(line, a)
  {
    hide Parse, Assigns;
    if Parse(line) == Some(a) {
      ParseFinds(line);
    }
    if AssignsTo(line, a) {
      var pre, mid :| Assigns(line, pre, a.key, mid, a.value);
      AssignsParses(line, pre, a.key, mid, a.value);
    }
  }

  lemma AssignsParses(line: string, pre: string, key: string, mid: string, value: string)
    requires Assigns(line, pre, key, mid, value)
    ensures Parse(line) == Some(Assignment(key, value))
  {
    hide Parse;
    Classes(pre, key, mid);
    ParseOf(pre, key, mid, value);
  }

  lemma ParseAssign(k: string, v: string)
    requires IsKey(k)
    ensures Parse(Assign(k, v)) == Some(Assignment(k, v))
  {
    hide Parse;
    ParseOf("", k, "", v);
    assert "" + k + "" + "=" + v == Assign(k, v);
  }

  // ── The merge is a map update ───────────────────────────────────────────

  lemma LookupNext(ls: seq<string>, line: string, k: string)
    ensures Lookup(ls + [line], k) ==
            match Parse(line)
            case Some(a) => if a.key == k then Some(a.value) else Lookup(ls, k)
            case None => Lookup(ls, k)
  {
    hide Parse;
    assert (ls + [line])[..|ls|] == ls;
  }

  lemma {:induction false} LookupKeys(ls: seq<string>, k: string)
    ensures Lookup(ls, k).Some? <==> k in Keys(ls)
  {
    hide Parse;
    if ls == [] {
    } else {
      LookupKeys(ls[..|ls| - 1], k);
    }
  }

  predicate GoodKeys(updates: map<string, string>) {
    forall k <- updates :: IsKey(k)
  }

  /** The replaced line of a key reads as its new value. */
  lemma ReplaceParse(line: string, updates: map<string, string>)
    ensures Parse(Replace(line, updates)) ==
            match Parse(line)
            case Some(a) => Some(if a.key in updates then Assignment(a.key, updates[a.key]) else a)
            case None => None
  {
    hide Parse, IsKey;
    if Parse(line).Some? {
      ParsedKey(line);
      ParseAssign(Parse(line).value.key, if Parse(line).value.key in updates then updates[Parse(line).value.key] else "");
    }
  }

  lemma ParsedKey(line: string)
    requires Parse(line).Some?
    ensures IsKey(Parse(line).value.key)
  {
    ParseFinds(line);
  }

  lemma {:induction false} LookupReplaced(ls: seq<string>, updates: map<string, string>, k: string)
    ensures Lookup(ReplaceAll(ls, updates), k) ==
            if k in updates && k in Keys(ls) then Some(updates[k]) else Lookup(ls, k)
  {
    hide Parse, Replace;
    if ls == [] {
    } else {
      var n := |ls| - 1;
      LookupReplaced(ls[..n], updates, k);
      LookupKeys(ls[..n], k);
      assert ReplaceAll(ls, updates) == ReplaceAll(ls[..n], updates) + [Replace(ls[n], updates)];
      LookupNext(ReplaceAll(ls[..n], updates), Replace(ls[n], updates), k);
      ReplaceParse(ls[n], updates);
    }
  }

  lemma {:induction false} LookupAppended(ls: seq<string>, order: seq<string>, updates: map<string, string>, k: string)
    requires (forall x <- order :: x in updates) && GoodKeys(updates)
    ensures Lookup(ls + AssignAll(order, updates), k) == if k in order then Some(updates[k]) else Lookup(ls, k)
    decreases |order|
  {
    hide Parse, Assign, IsKey;
    if order == [] {
      assert ls + AssignAll(order, updates) == ls;
    } else {
      var n := |order| - 1;
      assert order == order[..n] + [order[n]];
      var line := Assign(order[n], updates[order[n]]);
      LookupAppended(ls, order[..n], updates, k);
      assert ls + AssignAll(order, updates) == ls + AssignAll(order[..n], updates) + [line];
      LookupNext(ls + AssignAll(order[..n], updates), line, k);
      ParseAssign(order[n], updates[order[n]]);
    }
  }

  /** The merged lines mean the old map overridden by the updates: a key that is
      updated has its new value, any other key the value it had. */
  lemma MergeIsUpdate(ls: seq<string>, updates: map<string, string>, r: seq<string>, k: string)
    requires Merges(ls, updates, r) && GoodKeys(updates)
    ensures Lookup(r, k) == if k in updates then Some(updates[k]) else Lookup(ls, k)
  {
    var order :| MergesAs(ls, updates, order, r);
    assert k in order <==> k in updates.Keys - Keys(ls);
    hide Lookup, Keys, ReplaceAll, AssignAll, Lists;
    LookupReplaced(ls, updates, k);
    LookupAppended(ReplaceAll(ls, updates), order, updates, k);
  }

  /** The lines that assign none of the keys. */
  function Others(ls: seq<string>, keys: set<string>): seq<string> {
    if ls == [] then []
    else Others(ls[..|ls| - 1], keys) + if Targets(ls[|ls| - 1], keys) then [] else [ls[|ls| - 1]]
  }

  lemma OthersNext(ls: seq<string>, line: string, keys: set<string>)
    ensures Others(ls + [line], keys) == Others(ls, keys) + if Targets(line, keys) then [] else [line]
  {
    assert (ls + [line])[..|ls|] == ls;
  }

  lemma {:induction false} OthersReplaced(ls: seq<string>, updates: map<string, string>)
    ensures Others(ReplaceAll(ls, updates), updates.Keys) == Others(ls, updates.Keys)
  {
    hide Parse;
    if ls == [] {
    } else {
      var n := |ls| - 1;
      OthersReplaced(ls[..n], updates);
      assert ReplaceAll(ls, updates) == ReplaceAll(ls[..n], updates) + [Replace(ls[n], updates)];
      OthersNext(ReplaceAll(ls[..n], updates), Replace(ls[n], updates), updates.Keys);
      ReplaceParse(ls[n], updates);
      hide ReplaceAll;
    }
  }

  lemma {:induction false} OthersAppended(ls: seq<string>, order: seq<string>, updates: map<string, string>)
    requires (forall x <- order :: x in updates) && GoodKeys(updates)
    ensures Others(ls + AssignAll(order, updates), updates.Keys) == Others(ls, updates.Keys)
    decreases |order|
  {
    hide Parse, Assign, IsKey, AssignAll, Others;
    if order == [] {
      EmptyList(updates);
      assert ls + [] == ls;
    } else {
      var init, k := order[..|order| - 1], order[|order| - 1];
      assert order == init + [k];
      var line := Assign(k, updates[k]);
      OthersAppended(ls, init, updates);
      AssignAllNext(init, updates, k);
      assert ls + AssignAll(order, updates) == ls + AssignAll(init, updates) + [line];
      OthersNext(ls + AssignAll(init, updates), line, updates.Keys);
      ParseAssign(k, updates[k]);
    }
  }

  lemma {:induction false} DistinctCount(order: seq<string>)
    requires Distinct(order)
    ensures |order| == |(set k <- order)|
  {
    if order == [] {
    } else {
      var init, k := order[..|order| - 1], order[|order| - 1];
      assert order == init + [k];
      DistinctCount(init);
      assert (set x <- order) == (set x <- init) + {k};
    }
  }

  /** Every other line keeps its text and its place among the others, and the file
      grows by one line for each key it did not assign. */
  lemma MergeKeepsTheRest(ls: seq<string>, updates: map<string, string>, r: seq<string>)
    requires Merges(ls, updates, r) && GoodKeys(updates)
    ensures Others(r, updates.Keys) == Others(ls, updates.Keys)
    ensures |r| == |ls| + |updates.Keys - Keys(ls)|
    ensures forall i | 0 <= i < |ls| && !Targets(ls[i], updates.Keys) :: r[i] == ls[i]
  {
    var order :| MergesAs(ls, updates, order, r);
    DistinctCount(order);
    OthersReplaced(ls, updates);
    OthersAppended(ReplaceAll(ls, updates), order, updates);
    hide Others, Parse, Keys;
  }

  // ── Reading the written file ────────────────────────────────────────────

  predicate OneLine(line: string) {
    '\n' !in line
  }

  predicate EndsInCR(line: string) {
    line != "" && line[|line| - 1] == '\r'
  }

  lemma {:induction false} LinesAreLines(s: string)
    ensures forall l <- Lines(s) :: OneLine(l)
    decreases |s|
  {
    if s == "" {
    } else {
      var i := Find(s, '\n');
      if i < |s| {
        LinesAreLines(s[i + 1..]);
      }
    }
  }

  lemma {:induction false} FittingOf(ls: seq<string>)
    ensures Fitting(ls) <= ls && forall l <- Fitting(ls) :: Fits(l)
    ensures Fitting(ls) == ls <==> forall l <- ls :: Fits(l)
  {
    hide Fits;
    if ls != [] && Fits(ls[0]) {
      FittingOf(ls[1..]);
      assert ls == [ls[0]] + ls[1..];
    } else if ls != [] {
      assert ls[0] in ls;
    }
  }

  lemma {:induction false} SizeConcat(a: string, b: string)
    ensures Size(a + b) == Size(a) + Size(b)
  {
    if a == "" {
      assert a + b == b;
    } else {
      assert (a + b)[1..] == a[1..] + b;
      SizeConcat(a[1..], b);
    }
  }

  lemma ChompFits(line: string)
    requires Fits(line) && OneLine(line)
    ensures Fits(Chomp(line)) && OneLine(Chomp(line))
  {
    if EndsInCR(line) {
      SizeConcat(line[..|line| - 1], line[|line| - 1..]);
      assert line == line[..|line| - 1] + line[|line| - 1..];
    }
  }

  lemma ScannedLines(text: string)
    ensures forall l <- Scan(text) :: Fits(l) && OneLine(l)
  {
    LinesAreLines(text);
    FittingOf(Lines(text));
    var raw := Fitting(Lines(text));
    hide Lines, Fitting, Fits, OneLine, Chomp;
    forall i | 0 <= i < |raw|
      ensures Fits(Chomp(raw[i])) && OneLine(Chomp(raw[i]))
    {
      assert raw[i] in raw && raw[i] == Lines(text)[i];
      ChompFits(raw[i]);
    }
  }

  lemma LinesCons(head: string, tail: string)
    requires OneLine(head)
    ensures Lines(head + ['\n'] + tail) == [head] + Lines(tail)
  {
    var s := head + ['\n'] + tail;
    FindAt(head, '\n', tail);
    assert s[..|head|] == head && s[|head| + 1..] == tail;
    LinesStep(s);
  }

  lemma {:induction false} LinesRender(ls: seq<string>)
    requires ls != [] && forall l <- ls :: OneLine(l)
    ensures Lines(Render(ls)) == ls
  {
    var head, rest := ls[0], ls[1..];
    var tail := if rest == [] then "" else Render(rest);
    assert OneLine(head);
    assert Render(ls) == head + ['\n'] + tail by {
      assert rest == [] ==> head + "\n" == head + ['\n'] + "";
      assert rest != [] ==> head + "\n" + Join(rest, "\n") + "\n" == head + ['\n'] + (Join(rest, "\n") + "\n");
    }
    LinesCons(head, tail);
    assert Lines("") == [];
    hide Render;
    if rest == [] {
    } else {
      LinesRender(rest);
    }
    assert ls == [head] + rest;
  }

  lemma LinesStep(s: string)
    requires s != "" && Find(s, '\n') < |s|
    ensures Lines(s) == [s[..Find(s, '\n')]] + Lines(s[Find(s, '\n') + 1..])
  {
    hide Find;
  }

  /** Lines that come back as they were written. */
  predicate Settled(r: seq<string>) {
    r != [] && forall l <- r :: Fits(l) && !EndsInCR(l)
  }

  lemma ChompedAlready(ls: seq<string>)
    ensures ChompAll(ls) == ls <==> forall l <- ls :: !EndsInCR(l)
  {
    if ChompAll(ls) == ls {
      forall l <- ls
        ensures !EndsInCR(l)
      {
        var i :| 0 <= i < |ls| && ls[i] == l;
        assert Chomp(ls[i]) == ls[i];
      }
    } else {
      var i :| 0 <= i < |ls| && ChompAll(ls)[i] != ls[i];
      assert ls[i] in ls && EndsInCR(ls[i]);
    }
  }

  /** No lines at all are written as one empty line. */
  lemma NothingWritten()
    ensures |Scan(Render([]))| == 1
  {
    var text := Render([]);
    assert text == "\n";
    var raw := Lines(text);
    assert raw == [""] by {
      LinesStep(text);
      assert text[..0] == "" && text[1..] == "";
      assert Lines("") == [];
    }
    assert Fits(raw[0]) by {
      assert raw[0] == "" && Size("") == 0;
    }
  }

  /** Written lines are read back the same exactly when there are any, each fits the
      scanner and none ends in a carriage return. */
  lemma Rescan(r: seq<string>)
    requires forall l <- r :: OneLine(l)
    ensures Scan(Render(r)) == r <==> Settled(r)
  {
    hide Fits, OneLine, EndsInCR, Lines, Render, Fitting, ChompAll;
    if r == [] {
      NothingWritten();
    } else {
      LinesRender(r);
      FittingOf(r);
      ChompedAlready(r);
      var fit := Fitting(r);
      if ChompAll(fit) == r {
        assert |fit| == |r| && fit == r;
      }
    }
  }

  // ── Cleaned values stay on their line ───────────────────────────────────

  lemma {:induction false} WithoutDrops(s: string, drop: set<char>)
    ensures forall c <- Without(s, drop) :: c !in drop && c in s
    ensures (forall c <- s :: c !in drop) ==> Without(s, drop) == s
  {
    if s == "" {
    } else {
      WithoutDrops(s[1..], drop);
      assert s == [s[0]] + s[1..];
    }
  }

  /** Whatever a value contains, it cannot start a line of its own. */
  lemma CleanAssignment(k: string, v: string)
    requires IsKey(k)
    ensures OneLine(Assign(k, Clean(v))) && !EndsInCR(Assign(k, Clean(v)))
  {
    WithoutDrops(TrimRight(TrimLeft(v)), BREAKS);
    var line := Assign(k, Clean(v));
    assert forall c <- k :: IsKeyChar(c);
    assert line[|line| - 1] == if Clean(v) == "" then '=' else Clean(v)[|Clean(v)| - 1];
    hide Clean;
  }

  /** What unicode.IsSpace accepts. */
  const SPACES: set<int> := {
    0x09, 0x0A, 0x0B, 0x0C, 0x0D, 0x20, 0x85, 0xA0, 0x1680,
    0x2000, 0x2001, 0x2002, 0x2003, 0x2004, 0x2005, 0x2006, 0x2007, 0x2008, 0x2009, 0x200A,
    0x2028, 0x2029, 0x202F, 0x205F, 0x3000
  }

  predicate AllSpaces(s: string) {
    forall c <- s :: c as int in SPACES
  }

  /** No space to trim at either end. */
  predicate Trimmed(s: string) {
    s != "" ==> s[0] as int !in SPACES && s[|s| - 1] as int !in SPACES
  }

  /** `t` is `s` without the characters that would end its line or the file: `at`
      lists the places of all the others, in order. */
  predicate KeptAt(s: string, at: seq<nat>, t: string) {
    Picks(s, at, t) && Increasing(at) && forall i | 0 <= i < |s| :: i in at <==> s[i] !in {'\n', '\r', '\0'}
  }

  predicate Picks(s: string, at: seq<nat>, t: string) {
    |at| == |t| && forall j | 0 <= j < |t| :: at[j] < |s| && t[j] == s[at[j]]
  }

  lemma SpacesAre(c: char)
    ensures IsSpace(c) <==> c as int in SPACES
  {}

  lemma {:induction false} TrimLeftOf(pre: string, s: string)
    requires AllSpaces(pre) && (s != "" ==> s[0] as int !in SPACES)
    ensures TrimLeft(pre + s) == s
  {
    hide SPACES, IsSpace;
    if pre == "" {
      assert pre + s == s;
      if s != "" {
        SpacesAre(s[0]);
      }
    } else {
      assert (pre + s)[1..] == pre[1..] + s;
      assert pre[0] in pre && forall c <- pre[1..] :: c in pre;
      SpacesAre(pre[0]);
      TrimLeftOf(pre[1..], s);
    }
  }

  lemma {:induction false} TrimRightOf(s: string, post: string)
    requires AllSpaces(post) && (s != "" ==> s[|s| - 1] as int !in SPACES)
    ensures TrimRight(s + post) == s
  {
    hide SPACES, IsSpace;
    if post == "" {
      assert s + post == s;
      if s != "" {
        SpacesAre(s[|s| - 1]);
      }
    } else {
      var n := |post| - 1;
      assert (s + post)[..|s + post| - 1] == s + post[..n];
      assert post[n] in post && forall c <- post[..n] :: c in post;
      SpacesAre(post[n]);
      TrimRightOf(s, post[..n]);
    }
  }

  lemma AllTrimmed(s: string)
    requires AllSpaces(s)
    ensures TrimLeft(s) == ""
  {
    TrimLeftOf(s, "");
    assert s + "" == s;
  }

  lemma {:induction false} WithoutKeeps(s: string) returns (at: seq<nat>)
    ensures KeptAt(s, at, Without(s, BREAKS))
  {
    if s == "" {
      at := [];
    } else {
      var rest := WithoutKeeps(s[1..]);
      at := seq(|rest|, j requires 0 <= j < |rest| => rest[j] + 1);
      ShiftedPlaces(rest, at);
      if s[0] in BREAKS {
        BreakFirst(s, rest, Without(s[1..], BREAKS), at);
      } else {
        KeptFirst(s, rest, Without(s[1..], BREAKS), at);
        at := [0] + at;
      }
    }
  }

  predicate Shifted(rest: seq<nat>, later: seq<nat>) {
    |later| == |rest| && forall j | 0 <= j < |rest| :: later[j] == rest[j] + 1
  }

  lemma ShiftedPlaces(rest: seq<nat>, later: seq<nat>)
    requires Shifted(rest, later)
    ensures forall i: nat :: i in rest <==> i + 1 in later
    ensures 0 !in later
  {
    forall i: nat
      ensures i in rest <==> i + 1 in later
    {
      if i in rest {
        var j :| 0 <= j < |rest| && rest[j] == i;
        assert later[j] == i + 1;
      }
    }
  }

  lemma BreakFirst(s: string, rest: seq<nat>, t: string, later: seq<nat>)
    requires s != "" && s[0] in BREAKS && KeptAt(s[1..], rest, t) && Shifted(rest, later)
    ensures KeptAt(s, later, t)
  {
    ShiftedPlaces(rest, later);
    forall i | 0 <= i < |s|
      ensures i in later <==> s[i] !in {'\n', '\r', '\0'}
    {
      if i > 0 {
        assert s[i] == s[1..][i - 1];
      }
    }
  }

  lemma KeptFirst(s: string, rest: seq<nat>, t: string, later: seq<nat>)
    requires s != "" && s[0] !in BREAKS && KeptAt(s[1..], rest, t) && Shifted(rest, later)
    ensures KeptAt(s, [0] + later, [s[0]] + t)
  {
    PicksFirst(s, rest, t, later);
    assert Increasing(rest);
    IncreasingFirst(rest, later);
    ShiftedPlaces(rest, later);
    hide Picks, Increasing, Shifted;
    forall i | 0 <= i < |s|
      ensures i in [0] + later <==> s[i] !in {'\n', '\r', '\0'}
    {
      assert i in [0] + later <==> i == 0 || i in later;
      if i > 0 {
        assert s[i] == s[1..][i - 1] && (i - 1 in rest <==> i - 1 + 1 in later);
      }
    }
  }

  lemma PicksFirst(s: string, rest: seq<nat>, t: string, later: seq<nat>)
    requires s != "" && Picks(s[1..], rest, t) && Shifted(rest, later)
    ensures Picks(s, [0] + later, [s[0]] + t)
  {
    var at, u := [0] + later, [s[0]] + t;
    forall j | 0 <= j < |u|
      ensures at[j] < |s| && u[j] == s[at[j]]
    {
      if j > 0 {
        assert at[j] == later[j - 1] == rest[j - 1] + 1 && u[j] == t[j - 1];
      }
    }
  }

  lemma IncreasingFirst(rest: seq<nat>, later: seq<nat>)
    requires Increasing(rest) && Shifted(rest, later)
    ensures Increasing([0] + later)
  {
    var at := [0] + later;
    forall i, j | 0 <= i < j < |at|
      ensures at[i] < at[j]
    {
      assert at[j] == later[j - 1] == rest[j - 1] + 1;
      if i > 0 {
        assert at[i] == later[i - 1] == rest[i - 1] + 1;
      }
    }
  }

  /** Cleaning takes the spaces off both ends and then the breaks out of the middle,
      and nothing else. */
  lemma CleanKeepsTheRest(pre: string, core: string, post: string)
    requires AllSpaces(pre) && Trimmed(core) && AllSpaces(post)
    ensures exists at :: KeptAt(core, at, Clean(pre + core + post))
  {
    hide KeptAt, SPACES;
    var at := WithoutKeeps(core);
    if core == "" {
      assert pre + core + post == pre + post && forall c <- pre + post :: c in pre || c in post;
      AllTrimmed(pre + post);
    } else {
      assert pre + core + post == pre + (core + post);
      TrimLeftOf(pre, core + post);
      TrimRightOf(core, post);
    }
    assert KeptAt(core, at, Clean(pre + core + post));
  }

  /** A value on one line with nothing to trim is kept as it is. */
  lemma CleanIsItself(v: string)
    requires Trimmed(v) && forall c <- v :: c !in {'\n', '\r', '\0'}
    ensures Clean(v) == v
  {
    hide SPACES;
    TrimLeftOf("", v);
    TrimRightOf(v, "");
    assert "" + v == v == v + "";
    WithoutDrops(v, BREAKS);
  }

  predicate TextKept(line: string, updates: map<string, string>) {
    !Targets(line, updates.Keys)
  }

  lemma AppendedLine(order: seq<string>, updates: map<string, string>, i: nat)
    requires i < |order| && forall k <- order :: k in updates
    ensures exists k <- updates :: AssignAll(order, updates)[i] == Assign(k, updates[k])
  {
    hide Assign;
    assert order[i] in updates;
  }

  lemma MergedFrom(ls: seq<string>, updates: map<string, string>, r: seq<string>, line: string)
    requires Merges(ls, updates, r) && line in r
    ensures (line in ls && TextKept(line, updates)) || exists k <- updates :: line == Assign(k, updates[k])
  {
    var order :| MergesAs(ls, updates, order, r);
    var i :| 0 <= i < |r| && r[i] == line;
    hide Assign, TextKept, Keys, Replace, Lists, ReplaceAll, AssignAll;
    if i < |ls| {
    } else {
      AppendedLine(order, updates, i - |ls|);
    }
  }

  lemma KeptIsMerged(ls: seq<string>, updates: map<string, string>, r: seq<string>, line: string)
    requires Merges(ls, updates, r) && line in ls && TextKept(line, updates)
    ensures line in r
  {
    var order :| MergesAs(ls, updates, order, r);
    hide Assign, Keys, Lists, Parse;
    var i :| 0 <= i < |ls| && ls[i] == line;
    assert r[i] == line;
  }

  lemma UpdateIsMerged(ls: seq<string>, updates: map<string, string>, r: seq<string>, k: string)
    requires Merges(ls, updates, r) && k in updates
    ensures Assign(k, updates[k]) in r
  {
    var order :| MergesAs(ls, updates, order, r);
    if k in Keys(ls) {
      var i := KeyLine(ls, k);
      hide Assign, Keys, Lists, Parse;
      assert r[i] == Assign(k, updates[k]);
    } else {
      assert k in updates.Keys - Keys(ls);
      assert k in (set x <- order);
      var i :| 0 <= i < |order| && order[i] == k;
      hide Assign, Keys, Lists, Parse;
      assert r[|ls| + i] == Assign(k, updates[k]);
    }
  }

  lemma {:induction false} KeyLine(ls: seq<string>, k: string) returns (i: nat)
    requires k in Keys(ls)
    ensures i < |ls| && Parse(ls[i]).Some? && Parse(ls[i]).value.key == k
  {
    hide Parse;
    i := |ls| - 1;
    if !(Parse(ls[i]).Some? && Parse(ls[i]).value.key == k) {
      i := KeyLine(ls[..i], k);
    }
  }

  // ── The whole file ──────────────────────────────────────────────────────

  /** Before the call: something to write, no kept line that ends in a carriage
      return once its line end is off, and every new assignment fits the scanner. */
  predicate Storable(ls: seq<string>, updates: map<string, string>) {
    && (ls != [] || updates != map[])
    && (forall l <- ls :: TextKept(l, updates) ==> !EndsInCR(l))
    && (forall k <- updates :: Fits(Assign(k, updates[k])))
  }

  lemma CleanedKey(given: map<string, string>, k: string)
    requires k in given && IsKey(k)
    ensures var line := Assign(k, Cleaned(given)[k]); OneLine(line) && !EndsInCR(line)
  {
    CleanAssignment(k, given[k]);
  }

  lemma MergedOneLine(ls: seq<string>, given: map<string, string>, r: seq<string>)
    requires Merges(ls, Cleaned(given), r) && GoodKeys(given) && forall l <- ls :: Fits(l) && OneLine(l)
    ensures forall l <- r :: OneLine(l)
  {
    hide Merges, OneLine, EndsInCR, Assign, TextKept, IsKey, Fits;
    forall l <- r
      ensures OneLine(l)
    {
      MergedFrom(ls, Cleaned(given), r, l);
      if !(l in ls) {
        var k :| k in Cleaned(given) && l == Assign(k, Cleaned(given)[k]);
        CleanedKey(given, k);
      }
    }
  }

  lemma NonEmptyMerge(ls: seq<string>, updates: map<string, string>, r: seq<string>)
    requires Merges(ls, updates, r)
    ensures r != [] <==> ls != [] || updates != map[]
  {
    if r == [] && updates != map[] {
      var k :| k in updates;
      UpdateIsMerged(ls, updates, r, k);
    }
    if ls == [] && updates == map[] {
      var order :| MergesAs(ls, updates, order, r);
      DistinctCount(order);
      assert updates.Keys - Keys(ls) == {};
    }
  }

  lemma StorableSettles(ls: seq<string>, given: map<string, string>, r: seq<string>)
    requires Merges(ls, Cleaned(given), r) && GoodKeys(given) && forall l <- ls :: Fits(l) && OneLine(l)
    ensures Storable(ls, Cleaned(given)) ==> Settled(r)
  {
    hide Merges, OneLine, EndsInCR, Assign, TextKept, IsKey, Fits;
    NonEmptyMerge(ls, Cleaned(given), r);
    if Storable(ls, Cleaned(given)) {
      forall l <- r
        ensures Fits(l) && !EndsInCR(l)
      {
        MergedFrom(ls, Cleaned(given), r, l);
        if !(l in ls && TextKept(l, Cleaned(given))) {
          var k :| k in Cleaned(given) && l == Assign(k, Cleaned(given)[k]);
          CleanedKey(given, k);
        }
      }
    }
  }

  lemma SettledStores(ls: seq<string>, updates: map<string, string>, r: seq<string>)
    requires Merges(ls, updates, r) && Settled(r)
    ensures Storable(ls, updates)
  {
    hide Merges, EndsInCR, Assign, TextKept, Fits;
    NonEmptyMerge(ls, updates, r);
    forall l <- ls | TextKept(l, updates)
      ensures !EndsInCR(l)
    {
      KeptIsMerged(ls, updates, r, l);
    }
    forall k <- updates
      ensures Fits(Assign(k, updates[k]))
    {
      UpdateIsMerged(ls, updates, r, k);
    }
  }

  /** A saved file reads back as the lines it was given exactly when they were
      storable. */
  lemma SavedLines(file: Option<string>, given: map<string, string>, r: seq<string>)
    requires Merges(LinesOf(file), Cleaned(given), r) && GoodKeys(given)
    ensures Scan(Render(r)) == r <==> Storable(LinesOf(file), Cleaned(given))
  {
    if file.Some? {
      ScannedLines(file.value);
    }
    var ls := LinesOf(file);
    hide Merges, OneLine, Scan, Render, IsKey, Storable, LinesOf, Fits;
    MergedOneLine(ls, given, r);
    Rescan(r);
    StorableSettles(ls, given, r);
    if Settled(r) {
      SettledStores(ls, Cleaned(given), r);
    }
  }

  /** Then, read with the last assignment winning, the new file is the old one with
      the clean updates over it: nothing in a value can set another key. */
  lemma SavedFileIsUpdate(file: Option<string>, given: map<string, string>, r: seq<string>, k: string)
    requires Merges(LinesOf(file), Cleaned(given), r) && GoodKeys(given)
    ensures Storable(LinesOf(file), Cleaned(given)) ==>
              Lookup(Scan(Render(r)), k) == if k in given then Some(Clean(given[k])) else Lookup(LinesOf(file), k)
  {
    SavedLines(file, given, r);
    MergeIsUpdate(LinesOf(file), Cleaned(given), r, k);
    hide Merges, Scan, Render, IsKey, Storable, LinesOf, Lookup;
  }

  /** So an ordinary value is read back as it was given. */
  lemma SavedValue(file: Option<string>, given: map<string, string>, r: seq<string>, k: string)
    requires Merges(LinesOf(file), Cleaned(given), r) && GoodKeys(given) && k in given
    requires Trimmed(given[k]) && forall c <- given[k] :: c !in {'\n', '\r', '\0'}
    ensures Storable(LinesOf(file), Cleaned(given)) ==> Lookup(Scan(Render(r)), k) == Some(given[k])
  {
    hide Merges, Scan, Render, IsKey, Storable, LinesOf, Lookup, Trimmed, Clean;
    SavedFileIsUpdate(file, given, r, k);
    CleanIsItself(given[k]);
  }

  // ── What the scanner never sees ─────────────────────────────────────────

  lemma {:induction false} FittingStops(pre: seq<string>, long: string, post: seq<string>)
    requires (forall l <- pre :: Fits(l)) && !Fits(long)
    ensures Fitting(pre + [long] + post) == pre
  {
    hide Fits;
    var all := pre + [long] + post;
    if pre == [] {
    } else {
      assert pre[0] in pre && all[1..] == pre[1..] + [long] + post;
      FittingStops(pre[1..], long, post);
    }
  }

  /** A line of 64 KiB or more ends the file: it and everything after it are gone
      from what is written, so a key set only there is lost. */
  lemma OverlongLosesTheRest(text: string, pre: seq<string>, long: string, post: seq<string>,
                             given: map<string, string>, r: seq<string>, k: string)
    requires Lines(text) == pre + [long] + post
    ensures (forall l <- pre :: Fits(l)) && !Fits(long) ==> LinesOf(Some(text)) == ChompAll(pre)
    ensures (forall l <- pre :: Fits(l)) && !Fits(long) && GoodKeys(given) &&
            Merges(LinesOf(Some(text)), Cleaned(given), r) && k !in given && k !in Keys(ChompAll(pre)) ==>
              Lookup(r, k) == None
  {
    if (forall l <- pre :: Fits(l)) && !Fits(long) {
      FittingStops(pre, long, post);
      LookupKeys(ChompAll(pre), k);
      if Merges(LinesOf(Some(text)), Cleaned(given), r) && GoodKeys(given) {
        MergeIsUpdate(LinesOf(Some(text)), Cleaned(given), r, k);
      }
    }
    hide Merges, IsKey, Lookup, Keys, Fits;
  }

  function Repeated(c: char, n: nat): (s: string)
    ensures |s| == n && forall x <- s :: x == c
  {
    seq(n, _ => c)
  }

  lemma {:induction false} AsciiSize(s: string)
    requires forall c <- s :: (c as int) < 0x80
    ensures Size(s) == |s|
  {
    if s == "" {
    } else {
      assert s[0] in s;
      assert forall c <- s[1..] :: c in s;
      AsciiSize(s[1..]);
    }
  }

  /** A line of plain text is read as itself up to 65535 characters, and not at all
      from 65536 on. */
  lemma LineLimit(line: string)
    requires line != "" && OneLine(line) && !EndsInCR(line) && forall c <- line :: (c as int) < 128
    ensures Scan(line) == if |line| < 65536 then [line] else []
  {
    AsciiSize(line);
    FindNone(line, '\n');
    hide Size, Find, OneLine;
    assert Lines(line) == [line];
    assert Fitting([]) == [];
    assert Fitting([line]) == if Fits(line) then [line] else [];
  }

  /** Three lines, the second one of 64 KiB. */
  function LongFile(long: string): string {
    "A=1" + ['\n'] + (long + ['\n'] + "B=2")
  }

  lemma LongFileLines(long: string)
    requires OneLine(long)
    ensures Lines(LongFile(long)) == ["A=1"] + [long] + ["B=2"]
  {
    LinesCons("A=1", long + ['\n'] + "B=2");
    LinesCons(long, "B=2");
    FindNone("B=2", '\n');
    assert Lines("B=2") == ["B=2"];
  }

  lemma ReadA()
    ensures Fits("A=1") && ChompAll(["A=1"]) == ["A=1"] && Keys(["A=1"]) == {"A"}
  {
    AsciiSize("A=1");
    ParseAssign("A", "1");
    assert Assign("A", "1") == "A=1";
    NothingOld(map[]);
    KeysNext(["A=1"], 0);
    assert ["A=1"][..1] == ["A=1"] && ["A=1"][..0] == [];
    hide Parse, Keys;
  }

  lemma ReadB(long: string)
    ensures Lookup(ChompAll(["A=1"] + [long] + ["B=2"]), "B") == Some("2")
  {
    assert Chomp("B=2") == "B=2" == Assign("B", "2");
    hide Parse, Lookup, ChompAll, Chomp, Assign;
    ParseAssign("B", "2");
    LookupNext(ChompAll(["A=1"] + [long]), "B=2", "B");
  }

  /** It happens: the key of the third line is there, and no update that leaves it
      alone keeps it. */
  lemma KeyIsLost(given: map<string, string>, r: seq<string>)
    ensures var file := LongFile(Repeated('x', SCANNER_LIMIT));
            && Lookup(ChompAll(Lines(file)), "B") == Some("2")
            && (Merges(LinesOf(Some(file)), Cleaned(given), r) && GoodKeys(given) && "B" !in given ==> Lookup(r, "B") == None)
  {
    var long := Repeated('x', SCANNER_LIMIT);
    assert forall c <- long :: c == 'x';
    AsciiSize(long);
    hide Lookup, Parse, Keys, Size, Lines, LongFile, Repeated, Merges, ChompAll;
    LongFileLines(long);
    ReadA();
    ReadB(long);
    assert !Fits(long);
    assert forall l <- ["A=1"] :: Fits(l);
    OverlongLosesTheRest(LongFile(long), ["A=1"], long, ["B=2"], given, r, "B");
  }

  /** The merge starts from every line there is exactly when all fit. */
  lemma NothingUnseen(text: string)
    ensures Scan(text) == ChompAll(Lines(text)) <==> forall l <- Lines(text) :: Fits(l)
  {
    FittingOf(Lines(text));
    var ls, fit := Lines(text), Fitting(Lines(text));
    hide Lines, Fitting, Fits, ChompAll;
    if ChompAll(fit) == ChompAll(ls) {
      assert |fit| == |ls| && fit == ls[..|fit|];
    }
  }
}
