/** dns_linux.go, dnsFilter, and dns.go, udpPayloadOfFrame: the kernel's filter
    and its userspace twin, over the same cooked IPv4/IPv6 frames (section 3.1 of
    RFC 791, section 3 of RFC 8200, RFC 768). */
module BpfFilter {
  import opened Prelude

  // ── A classic BPF machine ───────────────────────────────────────────────

  datatype Instruction = Instruction(code: nat, jt: nat, jf: nat, k: nat)

  const LDB_ABS := 0x30 // A := byte at k
  const LDH_ABS := 0x28 // A := half-word at k
  const LDH_IND := 0x48 // A := half-word at X + k
  const LDX_MSH := 0xb1 // X := 4 * (byte at k & 0xf)
  const RSH_K := 0x74   // A := A >> k
  const JEQ_K := 0x15   // A == k ?
  const JSET_K := 0x45  // A & k != 0 ?
  const RET_K := 0x06   // accept k bytes; 0 drops the frame

  function And(a: nat, k: nat): nat
    decreases a
  {
    if a == 0 || k == 0 then 0 else 2 * And(a / 2, k / 2) + (if a % 2 == 1 && k % 2 == 1 then 1 else 0)
  }

  function Shr(a: nat, k: nat): nat
    decreases k
  {
    if k == 0 then a else Shr(a / 2, k - 1)
  }

  function Pow2(n: nat): (p: nat)
    ensures p >= 1
  {
    if n == 0 then 1 else 2 * Pow2(n - 1)
  }

  /** Masking with 2^n - 1 keeps the remainder modulo 2^n. */
  lemma {:induction false} AndMask(a: nat, n: nat)
    ensures And(a, Pow2(n) - 1) == a % Pow2(n)
  {
    if n == 0 {
    } else {
      hide And;
      AndMask(a / 2, n - 1);
      AndDouble(a, Pow2(n - 1));
    }
  }

  lemma AndOdd(a: nat, h: nat)
    ensures And(a, 2 * h + 1) == 2 * And(a / 2, h) + a % 2
  {
    var k := 2 * h + 1;
    assert k / 2 == h && k % 2 == 1;
  }

  lemma AndDouble(a: nat, p: nat)
    requires p >= 1 && And(a / 2, p - 1) == a / 2 % p
    ensures And(a, 2 * p - 1) == a % (2 * p)
  {
    hide And;
    AndOdd(a, p - 1);
    HalfMod(a, p);
  }

  lemma HalfMod(a: nat, p: nat)
    requires p >= 1
    ensures a % (2 * p) == 2 * (a / 2 % p) + a % 2
  {
    var q, r := a / 2 / p, a / 2 % p;
    var d := a / (2 * p) - q;
    assert a / 2 == q * p + r;
    assert a == q * (2 * p) + (2 * r + a % 2);
    assert d * (2 * p) == 2 * r + a % 2 - a % (2 * p);
    Multiple(d, 2 * p);
  }

  lemma Multiple(k: int, p: int)
    requires p >= 0
    ensures k >= 1 ==> k * p >= p
    ensures k <= -1 ==> k * p <= -p
  {}

  datatype Outcome = Accepted | Dropped | Stuck

  datatype Machine = Running(pc: nat, a: nat, x: nat) | Halted(outcome: Outcome)

  /** One instruction. A load outside the frame drops it, as the kernel does. */
  function Step(i: Instruction, f: seq<Byte>, pc: nat, a: nat, x: nat): Machine {
    if i.code == LDB_ABS then
      if i.k >= |f| then Halted(Dropped) else Running(pc + 1, f[i.k], x)
    else if i.code == LDH_ABS then
      if i.k + 2 > |f| then Halted(Dropped) else Running(pc + 1, U16(f, i.k), x)
    else if i.code == LDH_IND then
      if x + i.k + 2 > |f| then Halted(Dropped) else Running(pc + 1, U16(f, x + i.k), x)
    else if i.code == LDX_MSH then
      if i.k >= |f| then Halted(Dropped) else Running(pc + 1, a, 4 * And(f[i.k], 0xf))
    else if i.code == RSH_K then
      Running(pc + 1, Shr(a, i.k), x)
    else if i.code == JEQ_K then
      Running(pc + 1 + (if a == i.k then i.jt else i.jf), a, x)
    else if i.code == JSET_K then
      Running(pc + 1 + (if And(a, i.k) != 0 then i.jt else i.jf), a, x)
    else if i.code == RET_K then
      Halted(if i.k == 0 then Dropped else Accepted)
    else Halted(Stuck)
  }

  /** The machine on frame `f` from instruction `pc`; running off the program is
      Stuck. It always ends, because jumps only go forward. */
  function Run(prog: seq<Instruction>, f: seq<Byte>, pc: nat, a: nat, x: nat): Outcome
    decreases |prog| - pc
  {
    if pc >= |prog| then Stuck else
    match Step(prog[pc], f, pc, a, x)
    case Running(pc', a', x') => Run(prog, f, pc', a', x')
    case Halted(o) => o
  }

  /** What the kernel checks before it attaches a program: known instructions,
      jumps that land inside, and a return at the end. */
  predicate Attachable(prog: seq<Instruction>) {
    && prog != [] && prog[|prog| - 1].code == RET_K
    && forall pc | 0 <= pc < |prog| ::
         && prog[pc].code in {LDB_ABS, LDH_ABS, LDH_IND, LDX_MSH, RSH_K, JEQ_K, JSET_K, RET_K}
         && (prog[pc].code in {JEQ_K, JSET_K} ==>
               pc + 1 + prog[pc].jt < |prog| && pc + 1 + prog[pc].jf < |prog|)
  }

  /** An attachable program reaches a return on every frame. */
  lemma {:induction false} AttachableReturns(prog: seq<Instruction>, f: seq<Byte>, pc: nat, a: nat, x: nat)
    requires Attachable(prog) && pc < |prog|
    ensures Run(prog, f, pc, a, x) != Stuck
    decreases |prog| - pc
  {
    match Step(prog[pc], f, pc, a, x)
    case Running(pc', a', x') => AttachableReturns(prog, f, pc', a', x');
    case Halted(_) =>
  }

  // ── The table ───────────────────────────────────────────────────────────

  const DNS_FILTER: seq<Instruction> := [
    Instruction(0x30, 0, 0, 0),       //  0: version and IHL
    Instruction(0x74, 0, 0, 4),       //  1: version
    Instruction(0x15, 0, 7, 4),       //  2: IPv4? 3 : 10
    Instruction(0x30, 0, 0, 9),       //  3: protocol
    Instruction(0x15, 0, 11, 17),     //  4: UDP? 5 : drop
    Instruction(0x28, 0, 0, 6),       //  5: flags and fragment offset
    Instruction(0x45, 9, 0, 0x1fff),  //  6: fragment? drop : 7
    Instruction(0xb1, 0, 0, 0),       //  7: header length
    Instruction(0x48, 0, 0, 0),       //  8: source port
    Instruction(0x15, 5, 6, 53),      //  9: accept : drop
    Instruction(0x15, 0, 5, 6),       // 10: IPv6? 11 : drop
    Instruction(0x30, 0, 0, 6),       // 11: next header
    Instruction(0x15, 0, 3, 17),      // 12: UDP? 13 : drop
    Instruction(0x28, 0, 0, 40),      // 13: source port
    Instruction(0x15, 0, 1, 53),      // 14: accept : drop
    Instruction(0x06, 0, 0, 0x40000), // 15: accept
    Instruction(0x06, 0, 0, 0)        // 16: drop
  ]

  function Filter(f: seq<Byte>): Outcome {
    Run(DNS_FILTER, f, 0, 0, 0)
  }

  lemma FilterIsAttachable()
    ensures Attachable(DNS_FILTER)
  {
    assert forall pc | 0 <= pc < 17 :: DNS_FILTER[pc].code in {0x30, 0x28, 0x48, 0xb1, 0x74, 0x15, 0x45, 0x06};
  }

  /** The filter always reaches a return. */
  lemma FilterReturns(f: seq<Byte>)
    ensures Filter(f) != Stuck
  {
    FilterIsAttachable();
    AttachableReturns(DNS_FILTER, f, 0, 0, 0);
  }

  // ── The userspace twin ──────────────────────────────────────────────────

  /** udpPayloadOfFrame: None is Go's nil; an empty payload is not. */
  function Payload(f: seq<Byte>): Option<seq<Byte>> {
    if |f| < 1 then None
    else if f[0] / 16 == 4 then
      if |f| < 20 || f[9] != 17 then None
      else if And(U16(f, 6), 0x1fff) != 0 then None
      else PortPayload(f, And(f[0], 0xf) * 4)
    else if f[0] / 16 == 6 then
      if |f| < 40 || f[6] != 17 then None
      else PortPayload(f, 40)
    else None
  }

  function PortPayload(f: seq<Byte>, udp: nat): Option<seq<Byte>> {
    if udp + 8 > |f| || U16(f, udp) != 53 then None else Some(f[udp + 8..])
  }

  function HeaderLength(f: seq<Byte>): nat
    requires |f| >= 1
  {
    4 * (f[0] % 16)
  }

  /** In the standards' own terms: an unfragmented UDP datagram from port 53 in
      an IPv4 packet, or one right after the fixed IPv6 header, as far as the
      frame reaches. */
  predicate FromPort53(f: seq<Byte>) {
    |f| >= 1 &&
    match f[0] / 16
    case 4 =>
      && |f| >= 10 && f[9] == 17
      && U16(f, 6) % 0x2000 == 0
      && HeaderLength(f) + 2 <= |f| && U16(f, HeaderLength(f)) == 53
    case 6 => |f| >= 42 && f[6] == 17 && U16(f, 40) == 53
    case _ => false
  }

  lemma AndLowNibble(v: nat)
    ensures And(v, 0xf) == v % 16
  {
    assert Pow2(4) == 16 by { assert Pow2(2) == 4; }
    AndMask(v, 4);
  }

  lemma AndFragment(v: nat)
    ensures And(v, 0x1fff) == v % 0x2000
  {
    assert Pow2(13) == 0x2000 by {
      assert Pow2(2) == 4; assert Pow2(4) == 16; assert Pow2(6) == 64; assert Pow2(8) == 256;
      assert Pow2(10) == 1024; assert Pow2(12) == 4096;
    }
    AndMask(v, 13);
  }

  lemma Shr4(v: nat)
    ensures Shr(v, 4) == v / 16
  {
    assert Shr(v, 4) == Shr(v / 2, 3);
    assert Shr(v / 2, 3) == Shr(v / 4, 2);
    assert Shr(v / 4, 2) == Shr(v / 8, 1);
    assert Shr(v / 8, 1) == Shr(v / 16, 0);
  }

  lemma Version(f: seq<Byte>)
    requires |f| >= 1
    ensures Filter(f) == Run(DNS_FILTER, f, 2, f[0] / 16, 0)
  {
    Shr4(f[0]);
    hide Shr, And;
    assert Filter(f) == Run(DNS_FILTER, f, 1, f[0], 0);
  }

  lemma Returns(f: seq<Byte>, a: nat, x: nat)
    ensures Run(DNS_FILTER, f, 15, a, x) == Accepted
    ensures Run(DNS_FILTER, f, 16, a, x) == Dropped
  {}

  /** Instructions 3 to 6: UDP and not a fragment, or dropped. */
  lemma RunProtocol(f: seq<Byte>)
    ensures Run(DNS_FILTER, f, 3, 4, 0) ==
            if |f| >= 10 && f[9] == 17 && And(U16(f, 6), 0x1fff) == 0
            then Run(DNS_FILTER, f, 7, U16(f, 6), 0) else Dropped
  {
    hide And;
    if |f| >= 10 {
      Returns(f, f[9], 0);
      Returns(f, U16(f, 6), 0);
      assert Run(DNS_FILTER, f, 3, 4, 0) == Run(DNS_FILTER, f, 4, f[9], 0);
      if f[9] == 17 {
        assert Run(DNS_FILTER, f, 4, 17, 0) == Run(DNS_FILTER, f, 5, 17, 0);
        assert Run(DNS_FILTER, f, 5, 17, 0) == Run(DNS_FILTER, f, 6, U16(f, 6), 0);
      }
    }
  }

  /** Instructions 7 to 9: source port 53 after the header, or dropped. */
  lemma RunPort(f: seq<Byte>, a: nat)
    requires |f| >= 1
    ensures Run(DNS_FILTER, f, 7, a, 0) ==
            if HeaderLength(f) + 2 <= |f| && U16(f, HeaderLength(f)) == 53 then Accepted else Dropped
  {
    AndLowNibble(f[0]);
    hide And;
    var x := HeaderLength(f);
    assert Run(DNS_FILTER, f, 7, a, 0) == Run(DNS_FILTER, f, 8, a, x);
    if x + 2 <= |f| {
      assert Run(DNS_FILTER, f, 8, a, x) == Run(DNS_FILTER, f, 9, U16(f, x), x);
      Returns(f, U16(f, x), x);
    }
  }

  lemma RunIPv4(f: seq<Byte>)
    requires |f| >= 1 && f[0] / 16 == 4
    ensures Run(DNS_FILTER, f, 3, 4, 0) == if FromPort53(f) then Accepted else Dropped
  {
    RunProtocol(f);
    if |f| >= 8 {
      AndFragment(U16(f, 6));
      RunPort(f, U16(f, 6));
    }
    hide And, Run;
  }

  lemma RunIPv6(f: seq<Byte>)
    requires |f| >= 1 && f[0] / 16 == 6
    ensures Run(DNS_FILTER, f, 10, 6, 0) == if FromPort53(f) then Accepted else Dropped
  {
    hide And;
    assert Run(DNS_FILTER, f, 10, 6, 0) == Run(DNS_FILTER, f, 11, 6, 0);
    if |f| >= 7 {
      Returns(f, f[6], 0);
      assert Run(DNS_FILTER, f, 11, 6, 0) == Run(DNS_FILTER, f, 12, f[6], 0);
      if f[6] == 17 && |f| >= 42 {
        Returns(f, U16(f, 40), 0);
        assert Run(DNS_FILTER, f, 12, 17, 0) == Run(DNS_FILTER, f, 13, 17, 0);
        assert Run(DNS_FILTER, f, 13, 17, 0) == Run(DNS_FILTER, f, 14, U16(f, 40), 0);
      }
    }
  }

  /** The seventeen instructions accept exactly the datagrams from port 53. */
  lemma FilterMeaning(f: seq<Byte>)
    ensures Filter(f) == if FromPort53(f) then Accepted else Dropped
  {
    if |f| >= 1 {
      hide And, Shr;
      var v: nat := f[0] / 16;
      Version(f);
      if v == 4 {
        assert Run(DNS_FILTER, f, 2, v, 0) == Run(DNS_FILTER, f, 3, v, 0);
        RunIPv4(f);
      } else {
        assert Run(DNS_FILTER, f, 2, v, 0) == Run(DNS_FILTER, f, 10, v, 0);
        if v == 6 {
          RunIPv6(f);
        } else {
          Returns(f, v, 0);
        }
      }
    }
  }

  function Max(a: nat, b: nat): nat {
    if a > b then a else b
  }

  /** The shortest frame that holds the headers and an empty datagram. */
  function LeastLength(f: seq<Byte>): nat
    requires |f| >= 1
  {
    if f[0] / 16 == 4 then Max(20, HeaderLength(f) + 8) else 48
  }

  /** The twins agree: the kernel accepts whatever userspace accepts, and of what
      the kernel accepts userspace refuses exactly the frames too short for
      their own headers. */
  lemma FilterAndPayloadAgree(f: seq<Byte>)
    ensures Payload(f).Some? ==> Filter(f) == Accepted
    ensures Filter(f) == Accepted ==> |f| >= 1 && (Payload(f).Some? <==> |f| >= LeastLength(f))
    ensures Payload(f).Some? ==>
              var udp := if f[0] / 16 == 4 then HeaderLength(f) else 40;
              udp + 8 <= |f| && U16(f, udp) == 53 && Payload(f).value == f[udp + 8..]
  {
    FilterMeaning(f);
    hide Filter, And;
    if |f| >= 20 {
      AndLowNibble(f[0]);
      AndFragment(U16(f, 6));
      if f[0] / 16 == 4 {
        assert Payload(f).Some? ==> Payload(f) == PortPayload(f, HeaderLength(f));
      } else if f[0] / 16 == 6 {
        assert Payload(f).Some? ==> Payload(f) == PortPayload(f, 40);
      }
    }
  }
}
