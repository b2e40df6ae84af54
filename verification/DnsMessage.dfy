/** dns.go, parseDNSAnswers: the queried name and the A/AAAA addresses of a DNS
    response (section 4.1 of RFC 1035, section 2 of RFC 3596). */
module DnsMessage {
  import opened Prelude
  import opened DnsName

  type Address = seq<Byte>

  /** An address record's text is left to the caller: an address is its octets. */
  datatype Answers = Answers(qname: seq<Byte>, ips: seq<Address>)

  const NOTHING := Answers([], [])

  const TYPE_A := 1
  const TYPE_AAAA := 28

  // ── What the code computes ──────────────────────────────────────────────

  /** The flags of a response without an error code: QR set, RCODE zero. */
  predicate CleanResponse(b: seq<Byte>)
    requires |b| >= 12
  {
    U16(b, 2) >= 0x8000 && U16(b, 2) % 16 == 0
  }

  /** The offset after `n` questions, or None if one of them is malformed. */
  function AfterQuestions(b: seq<Byte>, off: nat, n: nat): Option<nat>
    decreases n
  {
    if n == 0 then Some(off) else
    match Resolve(b, off, 0, 0)
    case None => None
    case Some(t) =>
      if off + Extent(t) + 4 > |b| then None
      else AfterQuestions(b, off + Extent(t) + 4, n - 1)
  }

  predicate IsAddress(typ: nat, rdata: seq<Byte>) {
    (typ == TYPE_A && |rdata| == 4) || (typ == TYPE_AAAA && |rdata| == 16)
  }

  datatype Found = Found(typ: nat, rdata: seq<Byte>, next: nat)

  /** The record at `off`, or None if it does not fit in the message. */
  function ReadRecord(b: seq<Byte>, off: nat): Option<Found> {
    match Resolve(b, off, 0, 0)
    case None => None
    case Some(t) =>
      var at := off + Extent(t);
      if at + 10 > |b| then None else
      var end := at + 10 + U16(b, at + 8);
      if end > |b| then None else Some(Found(U16(b, at), b[at + 10..end], end))
  }

  function AddressOf(typ: nat, rdata: seq<Byte>): seq<Address> {
    if IsAddress(typ, rdata) then [rdata] else []
  }

  /** The addresses of up to `n` records from `off`, stopping at the first
      record that does not fit in the message. */
  function Addresses(b: seq<Byte>, off: nat, n: nat): seq<Address>
    decreases n
  {
    if n == 0 then [] else
    match ReadRecord(b, off)
    case None => []
    case Some(r) => AddressOf(r.typ, r.rdata) + Addresses(b, r.next, n - 1)
  }

  lemma AddressesStep(b: seq<Byte>, off: nat, n: nat, r: Found)
    requires n > 0 && ReadRecord(b, off) == Some(r)
    ensures Addresses(b, off, n) == AddressOf(r.typ, r.rdata) + Addresses(b, r.next, n - 1)
  {}

  lemma AddressesStop(b: seq<Byte>, off: nat, n: nat)
    requires n == 0 || ReadRecord(b, off).None?
    ensures Addresses(b, off, n) == []
  {}

  function FirstName(b: seq<Byte>): seq<Byte>
    requires |b| >= 12
  {
    if U16(b, 4) == 0 then [] else
    match Resolve(b, 12, 0, 0)
    case None => []
    case Some(t) => Dotted(t)
  }

  function Parse(b: seq<Byte>): Answers {
    if |b| < 12 || !CleanResponse(b) then NOTHING else
    match AfterQuestions(b, 12, U16(b, 4))
    case None => NOTHING
    case Some(off) => Answers(FirstName(b), Addresses(b, off, U16(b, 6)))
  }

  /** parseDNSAnswers: the loop over the questions, then the one over the answers. */
  method ParseDNSAnswers(b: seq<Byte>) returns (qname: seq<Byte>, ips: seq<Address>)
    ensures Answers(qname, ips) == Parse(b)
  {
    hide Resolve, Labels, Extent, Dotted, Addresses, AfterQuestions;
    qname, ips := [], [];
    if |b| < 12 {
      return;
    }
    var flags := U16(b, 2);
    if flags < 0x8000 || flags % 16 != 0 {
      return;
    }
    var qd, an := U16(b, 4), U16(b, 6);
    var off: nat := 12;
    var i := 0;
    while i < qd
      invariant 0 <= i <= qd
      invariant AfterQuestions(b, 12, qd) == AfterQuestions(b, off, qd - i)
      invariant i == 0 ==> off == 12
      invariant qname == if i == 0 then [] else FirstName(b)
    {
      var name, next, ok := ReadDNSName(b, off);
      NextQuestion(b, off, qd - i);
      if !ok || next + 4 > |b| {
        return [], [];
      }
      if i == 0 {
        qname := name;
      }
      off := next + 4; // past the question's type and class
      i := i + 1;
    }
    NoMoreQuestions(b, off);
    ips := ReadAnswers(b, off, an);
  }

  lemma NextQuestion(b: seq<Byte>, off: nat, n: nat)
    requires n > 0
    ensures AfterQuestions(b, off, n) ==
            match Resolve(b, off, 0, 0)
            case None => None
            case Some(t) =>
              if off + Extent(t) + 4 > |b| then None else AfterQuestions(b, off + Extent(t) + 4, n - 1)
  {}

  lemma NoMoreQuestions(b: seq<Byte>, off: nat)
    ensures AfterQuestions(b, off, 0) == Some(off)
  {}

  method ReadAnswers(b: seq<Byte>, start: nat, an: nat) returns (ips: seq<Address>)
    ensures ips == Addresses(b, start, an)
  {
    hide Addresses, Resolve, Labels, Extent;
    ips := [];
    var off: nat := start;
    var i := 0;
    while i < an
      invariant 0 <= i <= an
      invariant Addresses(b, start, an) == ips + Addresses(b, off, an - i)
    {
      var _, next, ok := ReadDNSName(b, off);
      if !ok || next + 10 > |b| {
        AddressesStop(b, off, an - i);
        return;
      }
      var typ := U16(b, next);
      var rdlen := U16(b, next + 8);
      if next + 10 + rdlen > |b| {
        AddressesStop(b, off, an - i);
        return;
      }
      var at := next + 10;
      AddressesStep(b, off, an - i, Found(typ, b[at..at + rdlen], at + rdlen));
      if typ == TYPE_A && rdlen == 4 {
        ips := ips + [b[at..at + 4]];
      } else if typ == TYPE_AAAA && rdlen == 16 {
        ips := ips + [b[at..at + 16]];
      }
      off := at + rdlen;
      i := i + 1;
    }
    AddressesStop(b, off, an - i);
  }

  // ── Truncation ──────────────────────────────────────────────────────────

  lemma {:induction false} QuestionsExtend(b: seq<Byte>, more: seq<Byte>, off: nat, n: nat)
    requires AfterQuestions(b, off, n).Some?
    ensures AfterQuestions(b + more, off, n) == AfterQuestions(b, off, n)
    decreases n
  {
    if n == 0 {
    } else {
      ResolveExtend(b, more, off);
      QuestionsExtend(b, more, off + Extent(Resolve(b, off, 0, 0).value) + 4, n - 1);
    }
  }

  lemma RecordExtends(b: seq<Byte>, more: seq<Byte>, off: nat)
    requires ReadRecord(b, off).Some?
    ensures ReadRecord(b + more, off) == ReadRecord(b, off)
  {
    hide Resolve, Extent;
    ResolveExtend(b, more, off);
    var at := off + Extent(Resolve(b, off, 0, 0).value);
    var end := ReadRecord(b, off).value.next;
    assert (b + more)[at + 10..end] == b[at + 10..end];
  }

  lemma {:induction false} AddressesExtend(b: seq<Byte>, more: seq<Byte>, off: nat, n: nat)
    ensures Addresses(b, off, n) <= Addresses(b + more, off, n)
    decreases n
  {
    hide ReadRecord, Addresses;
    if n == 0 || ReadRecord(b, off).None? {
      AddressesStop(b, off, n);
    } else {
      var r := ReadRecord(b, off).value;
      RecordExtends(b, more, off);
      AddressesStep(b, off, n, r);
      AddressesStep(b + more, off, n, r);
      AddressesExtend(b, more, r.next, n - 1);
    }
  }

  lemma HeaderExtends(b: seq<Byte>, more: seq<Byte>)
    requires |b| >= 12
    ensures forall i: nat | i <= 10 :: U16(b + more, i) == U16(b, i)
  {}

  /** Cutting a message anywhere never invents anything: the cut message gives a
      prefix of the addresses, and the same name or none. */
  lemma TruncationIsMonotone(b: seq<Byte>, cut: nat)
    requires cut <= |b|
    ensures Parse(b[..cut]).ips <= Parse(b).ips
    ensures Parse(b[..cut]).qname == [] || Parse(b[..cut]).qname == Parse(b).qname
  {
    var c, more := b[..cut], b[cut..];
    assert b == c + more;
    if cut >= 12 && CleanResponse(c) && AfterQuestions(c, 12, U16(c, 4)).Some? {
      HeaderExtends(c, more);
      QuestionsExtend(c, more, 12, U16(c, 4));
      AddressesExtend(c, more, AfterQuestions(c, 12, U16(c, 4)).value, U16(c, 6));
      if U16(c, 4) > 0 {
        ResolveExtend(c, more, 12);
      }
    }
  }

  // ── The wire format, and the round trip ─────────────────────────────────

  datatype Question = Question(name: NameTree, qtype: nat, qclass: nat)
  datatype Record = Record(name: NameTree, typ: nat, class_: nat, ttl: seq<Byte>, rdata: seq<Byte>)

  /** A response as section 4.1 of RFC 1035 lays it out. The other header fields
      and what follows the answers are arbitrary. */
  datatype Response = Response(id: nat, flags: nat, questions: seq<Question>, answers: seq<Record>,
                               counts: seq<Byte>, trailing: seq<Byte>)

  predicate NameFits(t: NameTree) {
    match t
    case Root => true
    case Labelled(l, rest) => 1 <= |l| <= 63 && NameFits(rest)
    case Jump(target, _) => target < 0x4000
  }

  predicate QuestionFits(q: Question) {
    NameFits(q.name) && q.qtype < 0x1_0000 && q.qclass < 0x1_0000
  }

  predicate RecordFits(r: Record) {
    NameFits(r.name) && r.typ < 0x1_0000 && r.class_ < 0x1_0000 && |r.ttl| == 4 && |r.rdata| < 0x1_0000
  }

  predicate Fits(m: Response) {
    && m.id < 0x1_0000 && m.flags < 0x1_0000 && |m.counts| == 4
    && |m.questions| < 0x1_0000 && |m.answers| < 0x1_0000
    && (forall q <- m.questions :: QuestionFits(q))
    && (forall r <- m.answers :: RecordFits(r))
  }

  /** What is written where the name stands: a pointer is written, what it leads
      to is not. */
  function EncodeName(t: NameTree): (e: seq<Byte>)
    requires NameFits(t)
    ensures |e| == Extent(t)
  {
    match t
    case Root => [0]
    case Labelled(l, rest) => [|l|] + (l + EncodeName(rest))
    case Jump(target, _) => BE16(0xC000 + target)
  }

  /** The type and class that follow a question's name. */
  function QuestionTail(q: Question): (e: seq<Byte>)
    requires QuestionFits(q)
    ensures |e| == 4
  {
    BE16(q.qtype) + BE16(q.qclass)
  }

  /** The type, class, time to live and data length that follow a record's name. */
  function RecordFields(r: Record): (e: seq<Byte>)
    requires RecordFits(r)
    ensures |e| == 10 && U16(e, 0) == r.typ && U16(e, 8) == |r.rdata|
  {
    BE16(r.typ) + BE16(r.class_) + r.ttl + BE16(|r.rdata|)
  }

  function EncodeQuestion(q: Question): seq<Byte>
    requires QuestionFits(q)
  {
    EncodeName(q.name) + QuestionTail(q)
  }

  function EncodeRecord(r: Record): seq<Byte>
    requires RecordFits(r)
  {
    EncodeName(r.name) + (RecordFields(r) + r.rdata)
  }

  function EncodeQuestions(qs: seq<Question>): seq<Byte>
    requires forall q <- qs :: QuestionFits(q)
  {
    if qs == [] then [] else EncodeQuestion(qs[0]) + EncodeQuestions(qs[1..])
  }

  function EncodeRecords(rs: seq<Record>): seq<Byte>
    requires forall r <- rs :: RecordFits(r)
  {
    if rs == [] then [] else EncodeRecord(rs[0]) + EncodeRecords(rs[1..])
  }

  function EncodeHeader(m: Response): (h: seq<Byte>)
    requires Fits(m)
    ensures |h| == 12
    ensures U16(h, 2) == m.flags && U16(h, 4) == |m.questions| && U16(h, 6) == |m.answers|
  {
    BE16(m.id) + BE16(m.flags) + BE16(|m.questions|) + BE16(|m.answers|) + m.counts
  }

  function Encode(m: Response): seq<Byte>
    requires Fits(m)
  {
    EncodeHeader(m) + (EncodeQuestions(m.questions) + (EncodeRecords(m.answers) + m.trailing))
  }

  /** Every pointer of the name leads to where the rest of the name is spelled. */
  predicate PointersLead(b: seq<Byte>, t: NameTree) {
    match t
    case Root => true
    case Labelled(_, rest) => PointersLead(b, rest)
    case Jump(target, rest) => Spells(b, target, rest)
  }

  ghost predicate NameGood(b: seq<Byte>, t: NameTree) {
    PointersLead(b, t) && WithinLimits(t)
  }

  /** The names of the message: pointers lead somewhere, limits are kept. */
  ghost predicate NamesGood(b: seq<Byte>, m: Response) {
    && (forall q <- m.questions :: NameGood(b, q.name))
    && (forall r <- m.answers :: NameGood(b, r.name))
  }

  // ── Placing octets in a message ─────────────────────────────────────────

  /** `part` stands in `b` at `off`. */
  predicate At(b: seq<Byte>, off: nat, part: seq<Byte>) {
    off + |part| <= |b| && b[off..off + |part|] == part
  }

  lemma AtSplit(b: seq<Byte>, off: nat, x: seq<Byte>, y: seq<Byte>)
    requires At(b, off, x + y)
    ensures At(b, off, x) && At(b, off + |x|, y)
    ensures off + |x + y| == off + |x| + |y| <= |b|
  {
    assert x == (x + y)[..|x|];
    assert y == (x + y)[|x|..];
  }

  lemma AtJoin(b: seq<Byte>, off: nat, x: seq<Byte>, y: seq<Byte>)
    requires At(b, off, x) && At(b, off + |x|, y)
    ensures At(b, off, x + y)
    ensures off + |x + y| == off + |x| + |y| <= |b|
  {
    assert b[off..off + |x + y|] == b[off..off + |x|] + b[off + |x|..off + |x| + |y|];
  }

  lemma AtU16(b: seq<Byte>, off: nat, part: seq<Byte>, i: nat)
    requires At(b, off, part) && i + 2 <= |part|
    ensures off + i + 2 <= |b| && U16(b, off + i) == U16(part, i)
  {
    assert b[off..off + |part|][i] == b[off + i] && b[off..off + |part|][i + 1] == b[off + i + 1];
  }

  lemma U16At(b: seq<Byte>, off: nat)
    requires off + 2 <= |b|
    ensures At(b, off, BE16(U16(b, off)))
  {
    assert b[off..off + 2] == [b[off], b[off + 1]];
  }

  lemma AtPart(b: seq<Byte>, off: nat, len: nat)
    requires off + len <= |b|
    ensures At(b, off, b[off..off + len])
  {}

  lemma AtContents(b: seq<Byte>, off: nat, part: seq<Byte>)
    requires At(b, off, part)
    ensures off + |part| <= |b| && b[off..off + |part|] == part
  {}

  lemma AtOne(b: seq<Byte>, off: nat, v: Byte)
    requires At(b, off, [v])
    ensures off < |b| && b[off] == v
  {
    assert b[off] == b[off..off + 1][0];
  }

  // ── Round trip ──────────────────────────────────────────────────────────

  /** A name written at a place is spelled there. */
  lemma {:induction false} WrittenIsSpelled(b: seq<Byte>, off: nat, t: NameTree)
    requires NameFits(t) && At(b, off, EncodeName(t)) && PointersLead(b, t)
    ensures Spells(b, off, t)
    decreases t
  {
    match t
    case Root =>
      AtOne(b, off, 0);
    case Labelled(l, rest) =>
      LabelWritten(b, off, l, rest);
      WrittenIsSpelled(b, off + 1 + |l|, rest);
      hide EncodeName, NameFits, PointersLead;
    case Jump(target, _) =>
      AtU16(b, off, BE16(0xC000 + target), 0);
  }

  lemma LabelWritten(b: seq<Byte>, off: nat, l: Label, rest: NameTree)
    requires NameFits(Labelled(l, rest)) && At(b, off, EncodeName(Labelled(l, rest)))
    ensures off + 1 + |l| <= |b| && b[off] == |l| && b[off + 1..off + 1 + |l|] == l
    ensures NameFits(rest) && At(b, off + 1 + |l|, EncodeName(rest))
  {
    var tail := EncodeName(rest);
    hide EncodeName, At;
    AtSplit(b, off, [|l|], l + tail);
    AtOne(b, off, |l|);
    AtSplit(b, off + 1, l, tail);
    AtContents(b, off + 1, l);
  }

  lemma WrittenIsDecoded(b: seq<Byte>, off: nat, t: NameTree)
    requires NameFits(t) && At(b, off, EncodeName(t)) && NameGood(b, t)
    ensures Resolve(b, off, 0, 0) == Some(t)
  {
    WrittenIsSpelled(b, off, t);
    DecodesExactly(b, off, t);
    hide Resolve, Spells, EncodeName, PointersLead;
  }

  lemma QuestionDecoded(b: seq<Byte>, off: nat, q: Question)
    requires QuestionFits(q) && NameGood(b, q.name) && At(b, off, EncodeQuestion(q))
    ensures Resolve(b, off, 0, 0) == Some(q.name)
    ensures off + Extent(q.name) + 4 == off + |EncodeQuestion(q)| <= |b|
  {
    hide EncodeName, Resolve, NameGood, At, QuestionTail;
    AtSplit(b, off, EncodeName(q.name), QuestionTail(q));
    WrittenIsDecoded(b, off, q.name);
  }

  lemma NoQuestions(b: seq<Byte>, off: nat)
    ensures AfterQuestions(b, off, 0) == Some(off)
    ensures off <= |b| ==> QuestionsAt(b, off, [])
  {}

  lemma QuestionsStep(b: seq<Byte>, off: nat, n: nat, q: Question)
    requires n > 0 && Resolve(b, off, 0, 0) == Some(q.name) && off + Extent(q.name) + 4 <= |b|
    ensures AfterQuestions(b, off, n) == AfterQuestions(b, off + Extent(q.name) + 4, n - 1)
  {}

  lemma {:induction false} QuestionsDecoded(b: seq<Byte>, off: nat, qs: seq<Question>)
    requires forall q <- qs :: QuestionFits(q) && NameGood(b, q.name)
    requires At(b, off, EncodeQuestions(qs))
    ensures AfterQuestions(b, off, |qs|) == Some(off + |EncodeQuestions(qs)|)
    ensures qs != [] ==> Resolve(b, off, 0, 0) == Some(qs[0].name)
    decreases |qs|
  {
    hide Resolve, EncodeQuestion, At, NameGood, QuestionFits, AfterQuestions, Extent;
    if qs == [] {
      NoQuestions(b, off);
    } else {
      AtSplit(b, off, EncodeQuestion(qs[0]), EncodeQuestions(qs[1..]));
      QuestionDecoded(b, off, qs[0]);
      QuestionsStep(b, off, |qs|, qs[0]);
      QuestionsDecoded(b, off + |EncodeQuestion(qs[0])|, qs[1..]);
    }
  }

  /** The addresses a list of records carries: the data of each type A record of
      four octets and each type AAAA record of sixteen, in order. */
  function AddressData(rs: seq<Record>): seq<Address> {
    if rs == [] then [] else AddressOf(rs[0].typ, rs[0].rdata) + AddressData(rs[1..])
  }

  lemma RecordDecoded(b: seq<Byte>, off: nat, r: Record)
    requires RecordFits(r) && NameGood(b, r.name) && At(b, off, EncodeRecord(r))
    ensures ReadRecord(b, off) == Some(Found(r.typ, r.rdata, off + |EncodeRecord(r)|))
  {
    hide EncodeName, Resolve, NameGood, RecordFields;
    AtSplit(b, off, EncodeName(r.name), RecordFields(r) + r.rdata);
    WrittenIsDecoded(b, off, r.name);
    var at := off + |EncodeName(r.name)|;
    hide At;
    AtSplit(b, at, RecordFields(r), r.rdata);
    AtU16(b, at, RecordFields(r), 0);
    AtU16(b, at, RecordFields(r), 8);
    AtContents(b, at + 10, r.rdata);
  }

  lemma {:induction false} RecordsDecoded(b: seq<Byte>, off: nat, rs: seq<Record>)
    requires forall r <- rs :: RecordFits(r) && NameGood(b, r.name)
    requires At(b, off, EncodeRecords(rs))
    ensures Addresses(b, off, |rs|) == AddressData(rs)
    decreases |rs|
  {
    if rs == [] {
    } else {
      hide EncodeRecord, ReadRecord, NameGood, At, RecordFits, Addresses;
      AtSplit(b, off, EncodeRecord(rs[0]), EncodeRecords(rs[1..]));
      RecordDecoded(b, off, rs[0]);
      AddressesStep(b, off, |rs|, Found(rs[0].typ, rs[0].rdata, off + |EncodeRecord(rs[0])|));
      RecordsDecoded(b, off + |EncodeRecord(rs[0])|, rs[1..]);
    }
  }

  lemma EncodeParts(m: Response)
    requires Fits(m)
    ensures var b, q := Encode(m), EncodeQuestions(m.questions);
            && |b| >= 12 && U16(b, 2) == m.flags && U16(b, 4) == |m.questions| && U16(b, 6) == |m.answers|
            && At(b, 12, q) && At(b, 12 + |q|, EncodeRecords(m.answers))
  {
    var b, h := Encode(m), EncodeHeader(m);
    var q, r := EncodeQuestions(m.questions), EncodeRecords(m.answers);
    hide EncodeHeader, EncodeQuestions, EncodeRecords, RecordFits, QuestionFits, U16;
    assert b == h + (q + (r + m.trailing));
    assert At(b, 0, b);
    hide At, Encode;
    AtSplit(b, 0, h, q + (r + m.trailing));
    AtSplit(b, 12, q, r + m.trailing);
    AtSplit(b, 12 + |q|, r, m.trailing);
    AtU16(b, 0, h, 2);
    AtU16(b, 0, h, 4);
    AtU16(b, 0, h, 6);
  }

  lemma ParseUnfold(b: seq<Byte>, off: nat, first: Option<NameTree>)
    requires |b| >= 12 && CleanResponse(b) && AfterQuestions(b, 12, U16(b, 4)) == Some(off)
    requires if U16(b, 4) == 0 then first.None? else first.Some? && Resolve(b, 12, 0, 0) == first
    ensures Parse(b) == Answers(if first.None? then [] else Dotted(first.value), Addresses(b, off, U16(b, 6)))
  {}

  /** A message with the parts of a response at their places. */
  lemma ParsePlaced(b: seq<Byte>, qs: seq<Question>, rs: seq<Record>)
    requires |b| >= 12 && CleanResponse(b) && U16(b, 4) == |qs| && U16(b, 6) == |rs|
    requires forall q <- qs :: QuestionFits(q) && NameGood(b, q.name)
    requires forall r <- rs :: RecordFits(r) && NameGood(b, r.name)
    requires At(b, 12, EncodeQuestions(qs)) && At(b, 12 + |EncodeQuestions(qs)|, EncodeRecords(rs))
    ensures Parse(b) == Answers(if qs == [] then [] else Dotted(qs[0].name), AddressData(rs))
  {
    hide *;
    QuestionsDecoded(b, 12, qs);
    RecordsDecoded(b, 12 + |EncodeQuestions(qs)|, rs);
    ParseUnfold(b, 12 + |EncodeQuestions(qs)|, if qs == [] then None else Some(qs[0].name));
  }

  /** Round trip: a response laid out as the standard says, with its pointers
      leading to the rest of their names and within the decoder's limits, parses
      to its first question's name and exactly its address data, whatever else
      the header says and whatever follows. */
  lemma ParseEncode(m: Response)
    requires Fits(m) && NamesGood(Encode(m), m)
    requires m.flags >= 0x8000 && m.flags % 16 == 0
    ensures Parse(Encode(m)) ==
            Answers(if m.questions == [] then [] else Dotted(m.questions[0].name), AddressData(m.answers))
  {
    EncodeParts(m);
    hide Parse, Encode, EncodeQuestions, EncodeRecords, NameGood, QuestionFits, RecordFits, At, AddressData, Dotted;
    ParsePlaced(Encode(m), m.questions, m.answers);
  }

  /** `at` are the places from the `k`th on of the type 1 records of four octets and
      the type 28 records of sixteen, in order. */
  ghost predicate PlacesOf(rs: seq<Record>, k: nat, at: seq<nat>) {
    && (forall i, j | 0 <= i < j < |at| :: at[i] < at[j])
    && forall i: nat :: i in at <==>
         k <= i < |rs| && ((rs[i].typ == 1 && |rs[i].rdata| == 4) || (rs[i].typ == 28 && |rs[i].rdata| == 16))
  }

  /** `ips` are the data of the records at those places, one for each. */
  predicate DataAt(rs: seq<Record>, at: seq<nat>, ips: seq<Address>) {
    |ips| == |at| && forall j | 0 <= j < |at| :: at[j] < |rs| && ips[j] == rs[at[j]].rdata
  }

  lemma PlacesMore(rs: seq<Record>, k: nat, rest: seq<nat>, ips: seq<Address>) returns (at: seq<nat>)
    requires k < |rs| && PlacesOf(rs, k + 1, rest) && DataAt(rs, rest, ips)
    ensures PlacesOf(rs, k, at) && DataAt(rs, at, AddressOf(rs[k].typ, rs[k].rdata) + ips)
  {
    var r := rs[k];
    if (r.typ == 1 && |r.rdata| == 4) || (r.typ == 28 && |r.rdata| == 16) {
      at := [k] + rest;
      assert forall j | 0 <= j < |rest| :: rest[j] in rest;
      assert AddressOf(r.typ, r.rdata) == [r.rdata];
      assert forall i: nat :: i in at <==> i == k || i in rest;
    } else {
      at := rest;
      assert AddressOf(r.typ, r.rdata) + ips == ips;
    }
  }

  lemma {:induction false} AddressPlaces(rs: seq<Record>, k: nat) returns (at: seq<nat>)
    requires k <= |rs|
    ensures PlacesOf(rs, k, at) && DataAt(rs, at, AddressData(rs[k..]))
    decreases |rs| - k
  {
    if k == |rs| {
      at := [];
    } else {
      var rest := AddressPlaces(rs, k + 1);
      assert rs[k..][0] == rs[k] && rs[k..][1..] == rs[k + 1..];
      at := PlacesMore(rs, k, rest, AddressData(rs[k + 1..]));
      hide PlacesOf, DataAt;
    }
  }

  /** A response gives the data of exactly its type 1 records of four octets and its
      type 28 records of sixteen, one for each, in their order. */
  lemma AnswersWithAddresses(m: Response) returns (at: seq<nat>)
    requires Fits(m) && NamesGood(Encode(m), m)
    requires m.flags >= 0x8000 && m.flags % 16 == 0
    ensures forall i, j | 0 <= i < j < |at| :: at[i] < at[j]
    ensures forall i: nat :: i in at <==>
              i < |m.answers| && ((m.answers[i].typ == 1 && |m.answers[i].rdata| == 4)
                                  || (m.answers[i].typ == 28 && |m.answers[i].rdata| == 16))
    ensures var ips := Parse(Encode(m)).ips;
            |ips| == |at| && forall j | 0 <= j < |at| :: at[j] < |m.answers| && ips[j] == m.answers[at[j]].rdata
  {
    ParseEncode(m);
    at := AddressPlaces(m.answers, 0);
    assert m.answers[0..] == m.answers;
    hide Parse, Encode, NamesGood, Fits, AddressData;
  }

  /** Only a response without an error gives anything: the first bit of its third
      octet set and the last four bits of its fourth clear. */
  lemma ErrorsGiveNothing(b: seq<Byte>)
    requires |b| < 12 || b[2] < 128 || b[3] % 16 != 0
    ensures Parse(b) == Answers([], [])
  {
    if |b| >= 12 {
      var hi: int := b[2];
      assert U16(b, 2) == hi * 256 + b[3];
    }
    hide AfterQuestions, Addresses, FirstName;
  }

  lemma {:induction false} PlainPointersLead(b: seq<Byte>, t: NameTree)
    requires Jumps(t) == 0
    ensures PointersLead(b, t)
  {
    if t.Labelled? {
      PlainPointersLead(b, t.rest);
    }
  }

  /** The usual answer: a pointer to offset 12 leads to the first question's
      name, when that name is written plainly. */
  lemma PointerToQuestion(m: Response)
    requires Fits(m) && m.questions != [] && Jumps(m.questions[0].name) == 0
    ensures PointersLead(Encode(m), m.questions[0].name)
    ensures PointersLead(Encode(m), Jump(12, m.questions[0].name))
  {
    var b, q, rest := Encode(m), m.questions[0], m.questions[1..];
    PlainPointersLead(b, q.name);
    EncodeParts(m);
    hide Encode, EncodeName, RecordFits, At;
    AtSplit(b, 12, EncodeQuestion(q), EncodeQuestions(rest));
    AtSplit(b, 12, EncodeName(q.name), QuestionTail(q));
    WrittenIsSpelled(b, 12, q.name);
  }

  // ── The converse: nothing is returned that is not laid out in the message ─

  lemma {:induction false} SpelledIsWritten(b: seq<Byte>, off: nat, t: NameTree)
    requires Spells(b, off, t)
    ensures NameFits(t) && PointersLead(b, t) && At(b, off, EncodeName(t))
    decreases t
  {
    match t
    case Root =>
    case Labelled(l, rest) =>
      SpelledIsWritten(b, off + 1 + |l|, rest);
      AtJoin(b, off + 1, l, EncodeName(rest));
      AtJoin(b, off, [|l|], l + EncodeName(rest));
      hide Spells, At;
    case Jump(target, rest) =>
      assert U16(b, off) == 0xC000 + target;
      U16At(b, off);
      hide Spells;
  }

  lemma NameLaidOut(b: seq<Byte>, off: nat) returns (t: NameTree)
    requires Resolve(b, off, 0, 0).Some?
    ensures Resolve(b, off, 0, 0) == Some(t) && off + Extent(t) <= |b|
    ensures NameFits(t) && NameGood(b, t) && At(b, off, EncodeName(t))
  {
    t := Resolve(b, off, 0, 0).value;
    hide Resolve, Spells, PointersLead, EncodeName, At;
    DecodesExactly(b, off, t);
    SpelledIsWritten(b, off, t);
  }

  lemma QuestionLaidOut(b: seq<Byte>, off: nat) returns (q: Question)
    requires Resolve(b, off, 0, 0).Some?
    requires off + Extent(Resolve(b, off, 0, 0).value) + 4 <= |b|
    ensures QuestionFits(q) && NameGood(b, q.name) && At(b, off, EncodeQuestion(q))
    ensures Resolve(b, off, 0, 0) == Some(q.name)
    ensures off + |EncodeQuestion(q)| == off + Extent(q.name) + 4 <= |b|
  {
    hide Resolve, NameGood, At, EncodeName, Extent;
    var t := NameLaidOut(b, off);
    var at := off + Extent(t);
    q := Question(t, U16(b, at), U16(b, at + 2));
    U16At(b, at);
    U16At(b, at + 2);
    AtJoin(b, at, BE16(q.qtype), BE16(q.qclass));
    AtJoin(b, off, EncodeName(t), QuestionTail(q));
  }

  /** `qs` is laid out in `b` from `off`. */
  ghost predicate QuestionsAt(b: seq<Byte>, off: nat, qs: seq<Question>) {
    (forall q <- qs :: QuestionFits(q) && NameGood(b, q.name)) && At(b, off, EncodeQuestions(qs))
  }

  /** `rs` is laid out in `b` from `off`. */
  ghost predicate RecordsAt(b: seq<Byte>, off: nat, rs: seq<Record>) {
    (forall r <- rs :: RecordFits(r) && NameGood(b, r.name)) && At(b, off, EncodeRecords(rs))
  }

  lemma QuestionsCons(b: seq<Byte>, off: nat, q: Question, rest: seq<Question>)
    requires QuestionFits(q) && NameGood(b, q.name) && At(b, off, EncodeQuestion(q))
    requires QuestionsAt(b, off + |EncodeQuestion(q)|, rest)
    ensures QuestionsAt(b, off, [q] + rest)
    ensures |EncodeQuestions([q] + rest)| == |EncodeQuestion(q)| + |EncodeQuestions(rest)|
  {
    hide NameGood, EncodeQuestion, QuestionFits, At;
    AtJoin(b, off, EncodeQuestion(q), EncodeQuestions(rest));
    assert ([q] + rest)[1..] == rest;
  }

  lemma RecordsCons(b: seq<Byte>, off: nat, r: Record, rest: seq<Record>)
    requires RecordFits(r) && NameGood(b, r.name) && At(b, off, EncodeRecord(r))
    requires RecordsAt(b, off + |EncodeRecord(r)|, rest)
    ensures RecordsAt(b, off, [r] + rest)
    ensures |EncodeRecords([r] + rest)| == |EncodeRecord(r)| + |EncodeRecords(rest)|
    ensures AddressData([r] + rest) == AddressOf(r.typ, r.rdata) + AddressData(rest)
  {
    hide NameGood, EncodeRecord, RecordFits, At;
    AtJoin(b, off, EncodeRecord(r), EncodeRecords(rest));
    assert ([r] + rest)[1..] == rest;
  }

  lemma QuestionReadable(b: seq<Byte>, off: nat, n: nat)
    requires n > 0 && AfterQuestions(b, off, n).Some?
    ensures Resolve(b, off, 0, 0).Some? && off + Extent(Resolve(b, off, 0, 0).value) + 4 <= |b|
  {}

  lemma {:induction false} QuestionsLaidOut(b: seq<Byte>, off: nat, n: nat) returns (qs: seq<Question>)
    requires AfterQuestions(b, off, n).Some? && off <= |b|
    ensures |qs| == n && QuestionsAt(b, off, qs)
    ensures AfterQuestions(b, off, n) == Some(off + |EncodeQuestions(qs)|)
    ensures qs != [] ==> Resolve(b, off, 0, 0) == Some(qs[0].name)
    decreases n
  {
    hide Resolve, EncodeQuestion, At, NameGood, QuestionFits, AfterQuestions, Extent, QuestionsAt;
    if n == 0 {
      NoQuestions(b, off);
      qs := [];
    } else {
      QuestionReadable(b, off, n);
      var q := QuestionLaidOut(b, off);
      QuestionsStep(b, off, n, q);
      var rest := QuestionsLaidOut(b, off + |EncodeQuestion(q)|, n - 1);
      QuestionsCons(b, off, q, rest);
      qs := [q] + rest;
    }
  }

  lemma FieldsLaidOut(b: seq<Byte>, at: nat, name: NameTree) returns (r: Record)
    requires NameFits(name) && at + 10 <= |b| && at + 10 + U16(b, at + 8) <= |b|
    ensures RecordFits(r) && r.name == name && At(b, at, RecordFields(r) + r.rdata)
    ensures r.typ == U16(b, at) && |r.rdata| == U16(b, at + 8) && r.rdata == b[at + 10..at + 10 + U16(b, at + 8)]
  {
    var len := U16(b, at + 8);
    r := Record(name, U16(b, at), U16(b, at + 2), b[at + 4..at + 8], b[at + 10..at + 10 + len]);
    hide U16, BE16;
    U16At(b, at);
    U16At(b, at + 2);
    U16At(b, at + 8);
    AtPart(b, at + 4, 4);
    AtPart(b, at + 10, len);
    hide At;
    AtJoin(b, at, BE16(r.typ), BE16(r.class_));
    AtJoin(b, at, BE16(r.typ) + BE16(r.class_), r.ttl);
    AtJoin(b, at, BE16(r.typ) + BE16(r.class_) + r.ttl, BE16(len));
    AtJoin(b, at, RecordFields(r), r.rdata);
  }

  lemma RecordLaidOut(b: seq<Byte>, off: nat) returns (r: Record)
    requires ReadRecord(b, off).Some?
    ensures RecordFits(r) && NameGood(b, r.name) && At(b, off, EncodeRecord(r))
    ensures ReadRecord(b, off) == Some(Found(r.typ, r.rdata, off + |EncodeRecord(r)|))
    ensures off + |EncodeRecord(r)| <= |b|
  {
    hide Resolve, NameGood, At, EncodeName, Extent, RecordFields;
    var t := NameLaidOut(b, off);
    r := FieldsLaidOut(b, off + Extent(t), t);
    AtJoin(b, off, EncodeName(t), RecordFields(r) + r.rdata);
  }

  lemma NoRecords(b: seq<Byte>, off: nat)
    requires off <= |b|
    ensures RecordsAt(b, off, []) && EncodeRecords([]) == [] && AddressData([]) == []
  {}

  lemma {:induction false} RecordsLaidOut(b: seq<Byte>, off: nat, n: nat) returns (rs: seq<Record>)
    requires off <= |b|
    ensures |rs| <= n && RecordsAt(b, off, rs)
    ensures Addresses(b, off, n) == AddressData(rs)
    ensures |rs| < n ==> ReadRecord(b, off + |EncodeRecords(rs)|).None?
    decreases n
  {
    hide *;
    if n == 0 || ReadRecord(b, off).None? {
      AddressesStop(b, off, n);
      NoRecords(b, off);
      rs := [];
    } else {
      var r := RecordLaidOut(b, off);
      AddressesStep(b, off, n, Found(r.typ, r.rdata, off + |EncodeRecord(r)|));
      var rest := RecordsLaidOut(b, off + |EncodeRecord(r)|, n - 1);
      RecordsCons(b, off, r, rest);
      rs := [r] + rest;
    }
  }

  lemma QuestionsInside(b: seq<Byte>, off: nat, qs: seq<Question>)
    requires QuestionsAt(b, off, qs)
    ensures (forall q <- qs :: QuestionFits(q)) && off + |EncodeQuestions(qs)| <= |b|
  {}

  /** `qs` and `rs` account for the result: the message is clean, all its
      questions and its first |rs| answers are laid out as the standard says, the
      result is what they carry, and no further announced record can be read. */
  ghost predicate Explains(b: seq<Byte>, qs: seq<Question>, rs: seq<Record>) {
    && |b| >= 12 && CleanResponse(b)
    && |qs| == U16(b, 4) && QuestionsAt(b, 12, qs)
    && |rs| <= U16(b, 6) && RecordsAt(b, 12 + |EncodeQuestions(qs)|, rs)
    && Parse(b) == Answers(if qs == [] then [] else Dotted(qs[0].name), AddressData(rs))
    && (|rs| < U16(b, 6) ==> ReadRecord(b, 12 + |EncodeQuestions(qs)| + |EncodeRecords(rs)|).None?)
  }

  lemma Assemble(b: seq<Byte>, qs: seq<Question>, rs: seq<Record>)
    requires |b| >= 12 && CleanResponse(b) && |qs| == U16(b, 4) && QuestionsAt(b, 12, qs)
    requires |rs| <= U16(b, 6) && RecordsAt(b, 12 + |EncodeQuestions(qs)|, rs)
    requires Parse(b) == Answers(if qs == [] then [] else Dotted(qs[0].name), AddressData(rs))
    requires |rs| < U16(b, 6) ==> ReadRecord(b, 12 + |EncodeQuestions(qs)| + |EncodeRecords(rs)|).None?
    ensures Explains(b, qs, rs)
  {
    hide Parse, AddressData, Dotted, ReadRecord, At, NameGood, EncodeQuestions, EncodeRecords;
  }

  lemma ParseIsClean(b: seq<Byte>)
    requires Parse(b) != NOTHING
    ensures |b| >= 12 && CleanResponse(b) && AfterQuestions(b, 12, U16(b, 4)).Some?
  {}

  /** Converse of the round trip, for every message: nothing is returned, or the
      message holds what explains the result. */
  lemma ParseIsLaidOut(b: seq<Byte>) returns (qs: seq<Question>, rs: seq<Record>)
    ensures Parse(b) == NOTHING || Explains(b, qs, rs)
  {
    hide *;
    qs, rs := [], [];
    if Parse(b) != NOTHING {
      ParseIsClean(b);
      qs := QuestionsLaidOut(b, 12, U16(b, 4));
      QuestionsInside(b, 12, qs);
      var off := 12 + |EncodeQuestions(qs)|;
      rs := RecordsLaidOut(b, off, U16(b, 6));
      ParseUnfold(b, off, if qs == [] then None else Some(qs[0].name));
      Assemble(b, qs, rs);
    }
  }
}
