/** dns.go, readDNSName: decoding a domain name that may use the message
    compression of section 4.1.4 of RFC 1035. */
module DnsName {
  import opened Prelude

  const MAX_JUMPS := 16
  const MAX_LABELS := 128

  type Label = seq<Byte>

  /** How a name is written: labels, then the root or a pointer to the rest. */
  datatype NameTree =
    | Root
    | Labelled(text: Label, rest: NameTree)
    | Jump(target: nat, rest: NameTree)

  function Labels(t: NameTree): seq<Label> {
    match t
    case Root => []
    case Labelled(l, rest) => [l] + Labels(rest)
    case Jump(_, rest) => Labels(rest)
  }

  function Jumps(t: NameTree): nat {
    match t
    case Root => 0
    case Labelled(_, rest) => Jumps(rest)
    case Jump(_, rest) => 1 + Jumps(rest)
  }

  /** Octets the name takes where it stands: a pointer ends it there. */
  function Extent(t: NameTree): (n: nat)
    ensures n >= 1
  {
    match t
    case Root => 1
    case Labelled(l, rest) => 1 + |l| + Extent(rest)
    case Jump(_, _) => 2
  }

  /** The grammar of section 4.1.4 of RFC 1035: the octets of `b` at `off` spell
      `t`. A pointer may lead anywhere in the message, backwards or forwards. */
  predicate Spells(b: seq<Byte>, off: nat, t: NameTree)
    decreases t
  {
    match t
    case Root =>
      off < |b| && b[off] == 0
    case Labelled(l, rest) =>
      && 1 <= |l| <= 63
      && off + 1 + |l| <= |b|
      && b[off] == |l|
      && b[off + 1..off + 1 + |l|] == l
      && Spells(b, off + 1 + |l|, rest)
    case Jump(target, rest) =>
      && off + 2 <= |b|
      && target < 0x4000
      && b[off] == 192 + target / 256
      && b[off + 1] == target % 256
      && Spells(b, target, rest)
  }

  /** What the code decides after `jumps` pointers and `count` labels, standing
      at `off`: the rest of the name, or None. */
  function Resolve(b: seq<Byte>, off: nat, jumps: nat, count: nat): Option<NameTree>
    requires jumps <= MAX_JUMPS && count <= MAX_LABELS
    decreases MAX_JUMPS - jumps, |b| - off
  {
    if off >= |b| then None else
    var l := b[off];
    if l == 0 then Some(Root)
    else if l >= 192 then
      if off + 1 >= |b| then None else
      var ptr := U16(b, off) % 0x4000;
      if jumps + 1 > MAX_JUMPS || ptr >= |b| then None else
      match Resolve(b, ptr, jumps + 1, count)
      case None => None
      case Some(t) => Some(Jump(ptr, t))
    else if l > 63 then None
    else if off + 1 + l > |b| || count > 127 then None
    else
      match Resolve(b, off + 1 + l, jumps, count + 1)
      case None => None
      case Some(t) => Some(Labelled(b[off + 1..off + 1 + l], t))
  }

  /** What is decoded is spelled there and within both limits. */
  predicate Sound(b: seq<Byte>, off: nat, jumps: nat, count: nat, r: Option<NameTree>) {
    match r
    case None => true
    case Some(t) => Spells(b, off, t) && jumps + Jumps(t) <= MAX_JUMPS && count + |Labels(t)| <= MAX_LABELS
  }

  lemma SoundLabel(b: seq<Byte>, off: nat, jumps: nat, count: nat, t: NameTree)
    requires off < |b| && 0 < b[off] <= 63 && off + 1 + b[off] <= |b|
    requires Sound(b, off + 1 + b[off], jumps, count + 1, Some(t))
    ensures Sound(b, off, jumps, count, Some(Labelled(b[off + 1..off + 1 + b[off]], t)))
  {}

  lemma SoundJump(b: seq<Byte>, off: nat, jumps: nat, count: nat, t: NameTree)
    requires off + 1 < |b| && b[off] >= 192
    requires Sound(b, U16(b, off) % 0x4000, jumps + 1, count, Some(t))
    ensures Sound(b, off, jumps, count, Some(Jump(U16(b, off) % 0x4000, t)))
  {
    var hi: int := b[off];
    assert U16(b, off) == hi * 256 + b[off + 1];
  }

  lemma SoundRoot(b: seq<Byte>, off: nat, jumps: nat, count: nat)
    requires off < |b| && b[off] == 0 && jumps <= MAX_JUMPS && count <= MAX_LABELS
    ensures Sound(b, off, jumps, count, Some(Root)) && Sound(b, off, jumps, count, None)
  {}

  /** Soundness: what is decoded is spelled there and within both limits. */
  lemma {:induction false} ResolveSound(b: seq<Byte>, off: nat, jumps: nat, count: nat)
    requires jumps <= MAX_JUMPS && count <= MAX_LABELS
    ensures Sound(b, off, jumps, count, Resolve(b, off, jumps, count))
    decreases MAX_JUMPS - jumps, |b| - off
  {
    assert Sound(b, off, jumps, count, None);
    hide Sound;
    if off < |b| {
      var l := b[off];
      if l == 0 {
        SoundRoot(b, off, jumps, count);
      } else if l >= 192 {
        if off + 1 < |b| && jumps < MAX_JUMPS {
          var ptr := U16(b, off) % 0x4000;
          ResolveSound(b, ptr, jumps + 1, count);
          if Resolve(b, ptr, jumps + 1, count).Some? {
            SoundJump(b, off, jumps, count, Resolve(b, ptr, jumps + 1, count).value);
          }
        }
      } else if l <= 63 && off + 1 + l <= |b| && count <= 127 {
        var next := Resolve(b, off + 1 + l, jumps, count + 1);
        ResolveSound(b, off + 1 + l, jumps, count + 1);
        if next.Some? {
          SoundLabel(b, off, jumps, count, next.value);
        }
      }
    }
  }

  lemma LabelDecoded(b: seq<Byte>, off: nat, jumps: nat, count: nat, l: Label, t: NameTree)
    requires jumps <= MAX_JUMPS && count <= 127 && 1 <= |l| <= 63 && off + 1 + |l| <= |b|
    requires b[off] == |l| && b[off + 1..off + 1 + |l|] == l
    requires Resolve(b, off + 1 + |l|, jumps, count + 1) == Some(t)
    ensures Resolve(b, off, jumps, count) == Some(Labelled(l, t))
  {}

  lemma JumpDecoded(b: seq<Byte>, off: nat, jumps: nat, count: nat, target: nat, t: NameTree)
    requires jumps < MAX_JUMPS && count <= MAX_LABELS && off + 2 <= |b| && target < 0x4000 && target < |b|
    requires b[off] == 192 + target / 256 && b[off + 1] == target % 256
    requires Resolve(b, target, jumps + 1, count) == Some(t)
    ensures Resolve(b, off, jumps, count) == Some(Jump(target, t))
  {
    assert U16(b, off) == 0xC000 + target && U16(b, off) % 0x4000 == target;
  }

  /** Completeness: every name spelled there and within the limits is decoded. */
  lemma {:induction false} ResolveComplete(b: seq<Byte>, off: nat, jumps: nat, count: nat, t: NameTree)
    requires jumps <= MAX_JUMPS && count <= MAX_LABELS
    requires Spells(b, off, t)
    requires jumps + Jumps(t) <= MAX_JUMPS && count + |Labels(t)| <= MAX_LABELS
    ensures Resolve(b, off, jumps, count) == Some(t)
    decreases t
  {
    match t
    case Root =>
    case Labelled(l, rest) =>
      assert |Labels(t)| == 1 + |Labels(rest)|;
      assert Spells(b, off + 1 + |l|, rest) && 1 <= |l| <= 63 && off + 1 + |l| <= |b|;
      assert b[off] == |l| && b[off + 1..off + 1 + |l|] == l;
      hide Resolve, Spells, Labels, Jumps;
      ResolveComplete(b, off + 1 + |l|, jumps, count + 1, rest);
      LabelDecoded(b, off, jumps, count, l, rest);
    case Jump(target, rest) =>
      assert Spells(b, target, rest) && off + 2 <= |b| && target < 0x4000;
      assert b[off] == 192 + target / 256 && b[off + 1] == target % 256;
      assert Jumps(t) == 1 + Jumps(rest) && Labels(t) == Labels(rest);
      hide Resolve, Spells, Labels, Jumps;
      SpellsInside(b, target, rest);
      ResolveComplete(b, target, jumps + 1, count, rest);
      JumpDecoded(b, off, jumps, count, target, rest);
  }

  /** A name stays inside the message where it stands. */
  lemma {:induction false} SpellsInside(b: seq<Byte>, off: nat, t: NameTree)
    requires Spells(b, off, t)
    ensures off < off + Extent(t) <= |b|
    decreases t
  {
    if t.Labelled? {
      SpellsInside(b, off + 1 + |t.text|, t.rest);
    }
  }

  /** The end offset lies past the start and inside the message. */
  lemma ResolveInside(b: seq<Byte>, off: nat)
    ensures match Resolve(b, off, 0, 0)
            case None => true
            case Some(t) => off < off + Extent(t) <= |b|
  {
    ResolveSound(b, off, 0, 0);
    if Resolve(b, off, 0, 0).Some? {
      SpellsInside(b, off, Resolve(b, off, 0, 0).value);
    }
  }

  /** The octets at a place spell at most one name. */
  lemma {:induction false} SpellsUnique(b: seq<Byte>, off: nat, t: NameTree, u: NameTree)
    requires Spells(b, off, t) && Spells(b, off, u)
    ensures t == u
    decreases t
  {
    match t
    case Root =>
    case Labelled(l, rest) =>
      SpellsUnique(b, off + 1 + |l|, rest, u.rest);
    case Jump(target, rest) =>
      assert U16(b, off) == 192 * 256 + target;
      SpellsUnique(b, target, rest, u.rest);
  }

  ghost predicate WithinLimits(t: NameTree) {
    Jumps(t) <= 16 && |Labels(t)| <= 128
  }

  /** The decoder succeeds on exactly the names of the grammar with at most 16
      pointers and 128 labels, and the name it yields is the only one there. */
  lemma DecodesExactly(b: seq<Byte>, off: nat, t: NameTree)
    ensures Resolve(b, off, 0, 0) == Some(t) <==> Spells(b, off, t) && WithinLimits(t)
    ensures Spells(b, off, t) ==> off < off + Extent(t) <= |b|
  {
    ResolveSound(b, off, 0, 0);
    if Spells(b, off, t) {
      SpellsInside(b, off, t);
      if WithinLimits(t) {
        ResolveComplete(b, off, 0, 0, t);
      }
    }
  }

  /** Octets beyond the ones used do not change a name: what a cut message still
      spells, the whole message spells too. */
  lemma {:induction false} SpellsExtend(b: seq<Byte>, more: seq<Byte>, off: nat, t: NameTree)
    requires Spells(b, off, t)
    ensures Spells(b + more, off, t)
    decreases t
  {
    match t
    case Root =>
    case Labelled(l, rest) =>
      assert (b + more)[off + 1..off + 1 + |l|] == b[off + 1..off + 1 + |l|];
      SpellsExtend(b, more, off + 1 + |l|, rest);
    case Jump(target, rest) =>
      SpellsExtend(b, more, target, rest);
  }

  /** The decoder never contradicts itself on a longer message. */
  lemma ResolveExtend(b: seq<Byte>, more: seq<Byte>, off: nat)
    requires Resolve(b, off, 0, 0).Some?
    ensures Resolve(b + more, off, 0, 0) == Resolve(b, off, 0, 0)
  {
    var t := Resolve(b, off, 0, 0).value;
    ResolveSound(b, off, 0, 0);
    SpellsExtend(b, more, off, t);
    ResolveComplete(b + more, off, 0, 0, t);
  }

  const DOT: seq<Byte> := [46]

  /** The name as the code returns it: the labels joined by dots. */
  function Dotted(t: NameTree): seq<Byte> {
    Join(Labels(t), DOT)
  }

  /** A name's text is the label that stands first, and then, after the octet 46, that
      of the rest; a pointer adds nothing to it, and ends the name where it stands. */
  lemma NameText(t: NameTree)
    ensures match t
            case Root => Dotted(t) == [] && Extent(t) == 1
            case Labelled(l, Root) => Dotted(t) == l && Extent(t) == |l| + 2
            case Labelled(l, Labelled(m, rest)) =>
              Dotted(t) == l + [46] + Dotted(Labelled(m, rest)) && Extent(t) == 1 + |l| + Extent(Labelled(m, rest))
            case Labelled(l, Jump(_, rest)) =>
              Dotted(t) == Dotted(Labelled(l, rest)) && Extent(t) == |l| + 3
            case Jump(_, rest) => Dotted(t) == Dotted(rest) && Extent(t) == 2
  {
    if t.Labelled? {
      assert Labels(t) == [t.text] + Labels(t.rest);
      assert Labels(t)[1..] == Labels(t.rest);
    }
  }

  /** Where the `k`th label starts in the text: every label before it takes its length
      and a dot. */
  function LabelStart(ls: seq<Label>, k: nat): (n: nat)
    requires k <= |ls|
  {
    if k == 0 then 0 else LabelStart(ls, k - 1) + |ls[k - 1]| + 1
  }

  lemma {:induction false} LabelStartShift(ls: seq<Label>, k: nat)
    requires 0 < k <= |ls|
    ensures LabelStart(ls, k) == |ls[0]| + 1 + LabelStart(ls[1..], k - 1)
  {
    if k == 1 {
      assert LabelStart(ls, 1) == LabelStart(ls, 0) + |ls[0]| + 1;
    } else {
      LabelStartShift(ls, k - 1);
      assert ls[1..][k - 2] == ls[k - 1];
    }
  }

  /** In `text` the `k`th label stands at its place, with the octet 46, a dot, after it
      if another follows; and the text ends with the last label. */
  predicate LabelStands(ls: seq<Label>, k: nat, text: seq<Byte>)
    requires k < |ls|
  {
    var n := LabelStart(ls, k);
    && |text| + 1 == LabelStart(ls, |ls|)
    && n + |ls[k]| <= |text| && text[n..n + |ls[k]|] == ls[k]
    && (k + 1 < |ls| ==> n + |ls[k]| < |text| && text[n + |ls[k]|] == 46)
  }

  lemma StandsFirst(ls: seq<Label>, tail: seq<Byte>)
    requires |ls| > 1 && |tail| + 1 == LabelStart(ls[1..], |ls| - 1)
    ensures LabelStands(ls, 0, ls[0] + [46] + tail)
  {
    LabelStartShift(ls, |ls|);
  }

  lemma StandsLater(ls: seq<Label>, k: nat, tail: seq<Byte>)
    requires 0 < k < |ls| && LabelStands(ls[1..], k - 1, tail)
    ensures LabelStands(ls, k, ls[0] + [46] + tail)
  {
    LabelStartShift(ls, |ls|);
    LabelStartShift(ls, k);
    var n, m, len := LabelStart(ls, k), LabelStart(ls[1..], k - 1), |ls[k]|;
    var text := ls[0] + [46] + tail;
    assert n == |ls[0]| + 1 + m && ls[1..][k - 1] == ls[k];
    hide LabelStart;
    assert text[n..n + len] == tail[m..m + len];
    assert k + 1 < |ls| ==> text[n + len] == tail[m + len];
  }

  /** The text of a name: its labels in order, with dots between them and nothing
      else. */
  lemma {:induction false} DottedPlaces(ls: seq<Label>, k: nat)
    requires k < |ls|
    ensures LabelStands(ls, k, Join(ls, DOT))
    decreases |ls|
  {
    if |ls| == 1 {
      assert LabelStart(ls, 1) == LabelStart(ls, 0) + |ls[0]| + 1;
    } else {
      hide LabelStands;
      var rest := ls[1..];
      assert Join(ls, DOT) == ls[0] + [46] + Join(rest, DOT);
      DottedPlaces(rest, if k == 0 then 0 else k - 1);
      if k == 0 {
        WholeLength(rest, Join(rest, DOT));
        StandsFirst(ls, Join(rest, DOT));
      } else {
        StandsLater(ls, k, Join(rest, DOT));
      }
    }
  }

  lemma WholeLength(ls: seq<Label>, text: seq<Byte>)
    requires ls != [] && LabelStands(ls, 0, text)
    ensures |text| + 1 == LabelStart(ls, |ls|)
  {}

  /** The relation between the name decoded so far and the whole name, which the
      loop keeps: `whole` is `labels` followed by the name at `off`. */
  ghost predicate Continues(b: seq<Byte>, start: nat, off: nat, jumps: nat, labels: seq<Label>, end: int)
    requires jumps <= MAX_JUMPS && |labels| <= MAX_LABELS
  {
    match (Resolve(b, start, 0, 0), Resolve(b, off, jumps, |labels|))
    case (None, None) => true
    case (Some(whole), Some(t)) =>
      && Labels(whole) == labels + Labels(t)
      && start + Extent(whole) == if end < 0 then off + Extent(t) else end
    case _ => false
  }

  lemma ContinueLabel(b: seq<Byte>, start: nat, off: nat, jumps: nat, labels: seq<Label>, end: int)
    requires jumps <= MAX_JUMPS && |labels| <= 127
    requires off < |b| && 0 < b[off] <= 63 && off + 1 + b[off] <= |b|
    requires Continues(b, start, off, jumps, labels, end)
    ensures Continues(b, start, off + 1 + b[off], jumps, labels + [b[off + 1..off + 1 + b[off]]], end)
  {
    var l := b[off + 1..off + 1 + b[off]];
    var rest := Resolve(b, off + 1 + b[off], jumps, |labels| + 1);
    if rest.Some? {
      assert labels + ([l] + Labels(rest.value)) == labels + [l] + Labels(rest.value);
    }
  }

  lemma ContinueJump(b: seq<Byte>, start: nat, off: nat, jumps: nat, labels: seq<Label>, end: int)
    requires jumps < MAX_JUMPS && |labels| <= MAX_LABELS
    requires off + 1 < |b| && b[off] >= 192 && U16(b, off) % 0x4000 < |b|
    requires Continues(b, start, off, jumps, labels, end)
    ensures Continues(b, start, U16(b, off) % 0x4000, jumps + 1, labels, if end < 0 then off + 2 else end)
  {}

  /** At the root the name is whole. */
  lemma ContinueRoot(b: seq<Byte>, start: nat, off: nat, jumps: nat, labels: seq<Label>, end: int)
    requires jumps <= MAX_JUMPS && |labels| <= MAX_LABELS
    requires off < |b| && b[off] == 0 && Continues(b, start, off, jumps, labels, end)
    ensures match Resolve(b, start, 0, 0)
            case None => false
            case Some(t) => Labels(t) == labels && start + Extent(t) == if end < 0 then off + 1 else end
  {
    assert labels + [] == labels;
  }

  /** Where the rest cannot be decoded the name cannot be. */
  lemma ContinueFails(b: seq<Byte>, start: nat, off: nat, jumps: nat, labels: seq<Label>, end: int)
    requires jumps <= MAX_JUMPS && |labels| <= MAX_LABELS
    requires Continues(b, start, off, jumps, labels, end)
    requires
      || off >= |b| || (b[off] >= 192 && (off + 1 >= |b| || jumps >= MAX_JUMPS || U16(b, off) % 0x4000 >= |b|))
      || 63 < b[off] < 192 || (0 < b[off] <= 63 && (off + 1 + b[off] > |b| || |labels| > 127))
    ensures Resolve(b, start, 0, 0) == None
  {}

  /** readDNSName: the loop over labels and pointers. It ends for every input,
      since each round uses up a jump or octets of the message; by DecodesExactly
      it succeeds on exactly the names spelled there within the limits. */
  method ReadDNSName(b: seq<Byte>, start: nat) returns (name: seq<Byte>, next: nat, ok: bool)
    ensures match Resolve(b, start, 0, 0)
            case None => !ok && name == [] && next == 0
            case Some(t) => ok && name == Dotted(t) && next == start + Extent(t)
    ensures ok ==> start < next <= |b|
  {
    ResolveInside(b, start);
    StartsThere(b, start);
    hide Resolve, Continues, Labels, Extent;
    name, next, ok := [], 0, false;
    var labels: seq<Label> := [];
    var end: int := -1;
    var off: nat := start;
    var jumps := 0;
    while true
      invariant 0 <= jumps <= MAX_JUMPS && |labels| <= MAX_LABELS
      invariant -1 <= end && !ok && name == [] && next == 0
      invariant Continues(b, start, off, jumps, labels, end)
      decreases MAX_JUMPS - jumps, |b| - off
    {
      if off >= |b| {
        ContinueFails(b, start, off, jumps, labels, end);
        return;
      }
      var l := b[off];
      if l == 0 {
        ContinueRoot(b, start, off, jumps, labels, end);
        off := off + 1;
        if end < 0 {
          end := off;
        }
        return Join(labels, DOT), end, true;
      } else if l >= 192 {
        if off + 1 >= |b| {
          ContinueFails(b, start, off, jumps, labels, end);
          return;
        }
        var ptr := U16(b, off) % 0x4000;
        ghost var from, endBefore := off, end;
        if end < 0 {
          end := off + 2;
        }
        if jumps + 1 > MAX_JUMPS || ptr >= |b| {
          ContinueFails(b, start, from, jumps, labels, endBefore);
          return;
        }
        ContinueJump(b, start, from, jumps, labels, endBefore);
        jumps := jumps + 1;
        off := ptr;
      } else if l > 63 {
        ContinueFails(b, start, off, jumps, labels, end);
        return;
      } else {
        if off + 1 + l > |b| || |labels| > 127 {
          ContinueFails(b, start, off, jumps, labels, end);
          return;
        }
        ContinueLabel(b, start, off, jumps, labels, end);
        labels := labels + [b[off + 1..off + 1 + l]];
        off := off + 1 + l;
      }
    }
  }

  lemma StartsThere(b: seq<Byte>, start: nat)
    ensures Continues(b, start, start, 0, [], -1)
  {
    if Resolve(b, start, 0, 0).Some? {
      assert [] + Labels(Resolve(b, start, 0, 0).value) == Labels(Resolve(b, start, 0, 0).value);
    }
  }
}
