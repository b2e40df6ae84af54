/** logging.go, rotatingWriter: the live log and its three archives. */
module RotatingLog {
  import opened Prelude

  const LOG_MAX := 5 * 0x10_0000
  const LOG_KEEP := 3

  /** What one call of Write was given; a file found at the start is one chunk. */
  type Chunk = seq<Byte>

  /** A file's chunks in order. */
  type File = seq<Chunk>

  /** The files there are: 0 is the live one, n the archive .n. */
  type Disk = map<nat, File>

  /** What the operating system makes of one write and its rotation: whether the
      oldest archive is removed, which files cannot be renamed, whether the live one
      opens again and tells its size, and how much of the write lands. */
  datatype Luck = Luck(removed: bool, stuck: set<nat>, reopens: bool, stats: bool, short: Option<nat>)

  const SMOOTH := Luck(true, {}, true, true, None)

  function Landed(p: Chunk, luck: Luck): Chunk {
    if luck.short.Some? && luck.short.value < |p| then p[..luck.short.value] else p
  }

  function FileAt(d: Disk, n: nat): File {
    if n in d then d[n] else []
  }

  function Bytes(f: File): nat {
    |Flatten(f)|
  }

  /** os.Remove */
  function Removed(d: Disk, n: nat, ok: bool): Disk {
    if ok then d - {n} else d
  }

  /** os.Rename: replaces the target; without a source it changes nothing. */
  function Renamed(d: Disk, n: nat, ok: bool): Disk {
    if ok && n in d then (d - {n})[n + 1 := d[n]] else d
  }

  /** The renames of a rotation from archive `n` down to the live file. */
  function Shifted(d: Disk, n: nat, luck: Luck): Disk
    decreases n
  {
    var d' := Renamed(d, n, n !in luck.stuck);
    if n == 0 then d' else Shifted(d', n - 1, luck)
  }

  function Opened(d: Disk): Disk {
    if 0 in d then d else d[0 := []]
  }

  /** The files, whether the live one is open, and its size as the writer knows it. */
  datatype Log = Log(disk: Disk, open: bool, size: nat) {
    function Reopen(ok: bool, stats: bool): Log {
      if ok then Log(Opened(disk), true, if stats then Bytes(FileAt(disk, 0)) else 0) else Log(disk, false, size)
    }

    function Rotate(luck: Luck): Log {
      Log(Shifted(Removed(disk, LOG_KEEP, luck.removed), LOG_KEEP - 1, luck), false, size).Reopen(luck.reopens, luck.stats)
    }

    predicate Full(p: Chunk) {
      size + |p| > LOG_MAX
    }

    function Append(p: Chunk): Log {
      if open then Log(disk[0 := FileAt(disk, 0) + [p]], true, size + |p|) else this
    }

    function Write(p: Chunk, luck: Luck): Log {
      (if open && Full(p) then Rotate(luck) else this).Append(Landed(p, luck))
    }
  }

  class RotatingWriter {
    var disk: Disk
    var f: bool
    var size: nat

    function State(): Log
      reads this
    {
      Log(disk, f, size)
    }

    constructor (disk: Disk)
      ensures State() == Log(disk, false, 0)
    {
      this.disk, f, size := disk, false, 0;
    }

    method Open(ok: bool, stats: bool)
      requires !f
      modifies this
      ensures State() == old(State()).Reopen(ok, stats)
    {
      if !ok {
        return;
      }
      if 0 !in disk {
        disk := disk[0 := []];
      }
      f := true;
      size := 0;
      if stats {
        size := Bytes(disk[0]);
      }
    }

    method Close()
      modifies this
      ensures State() == old(State()).(open := false)
    {
      f := false;
    }

    method Rotate(luck: Luck)
      modifies this
      ensures State() == old(State()).Rotate(luck)
    {
      f := false;
      disk := Removed(disk, LOG_KEEP, luck.removed);
      ghost var start := disk;
      var i := LOG_KEEP - 1;
      while i >= 1
        invariant 0 <= i <= LOG_KEEP - 1
        invariant !f && size == old(size)
        invariant Shifted(disk, i, luck) == Shifted(start, LOG_KEEP - 1, luck)
      {
        disk := Renamed(disk, i, i !in luck.stuck);
        i := i - 1;
      }
      disk := Renamed(disk, 0, 0 !in luck.stuck);
      Open(luck.reopens, luck.stats);
    }

    method Write(p: Chunk, luck: Luck) returns (n: nat)
      modifies this
      ensures State() == old(State()).Write(p, luck)
      ensures n == if f then |Landed(p, luck)| else |p|
    {
      if !f {
        return |p|;
      }
      if size + |p| > LOG_MAX {
        Rotate(luck);
        if !f {
          return |p|;
        }
      }
      disk := disk[0 := FileAt(disk, 0) + [Landed(p, luck)]];
      n := |Landed(p, luck)|;
      size := size + n;
    }
  }

  // ── What is kept ────────────────────────────────────────────────────────

  /** Everything on the disk, oldest first. */
  function Kept(d: Disk): File {
    FileAt(d, 3) + FileAt(d, 2) + FileAt(d, 1) + FileAt(d, 0)
  }

  /** `a` is `b` with some entries left out. */
  predicate Within<T(==)>(a: seq<T>, b: seq<T>) {
    a == [] ||
    (b != [] &&
     (Within(a, b[..|b| - 1]) ||
      (a[|a| - 1] == b[|b| - 1] && Within(a[..|a| - 1], b[..|b| - 1]))))
  }

  lemma {:induction false} WithinSelf<T>(a: seq<T>)
    ensures Within(a, a)
  {
    if a == [] {
    } else {
      WithinSelf(a[..|a| - 1]);
    }
  }

  lemma {:induction false} WithinConcat<T>(a: seq<T>, b: seq<T>, c: seq<T>, d: seq<T>)
    requires Within(a, b) && Within(c, d)
    ensures Within(a + c, b + d)
    decreases |d|
  {
    if c == [] {
      assert a + c == a;
      WithinMore(a, b, d);
    } else {
      var n := |d| - 1;
      assert (b + d)[..|b + d| - 1] == b + d[..n];
      if Within(c, d[..n]) {
        WithinConcat(a, b, c, d[..n]);
      } else {
        WithinConcat(a, b, c[..|c| - 1], d[..n]);
        assert (a + c)[..|a + c| - 1] == a + c[..|c| - 1];
      }
    }
  }

  lemma {:induction false} WithinMore<T>(a: seq<T>, b: seq<T>, d: seq<T>)
    requires Within(a, b)
    ensures Within(a, b + d)
    decreases |d|
  {
    if d == [] {
      assert b + d == b;
    } else {
      WithinMore(a, b, d[..|d| - 1]);
      assert (b + d)[..|b + d| - 1] == b + d[..|d| - 1];
    }
  }

  lemma {:induction false} WithinTrans<T>(a: seq<T>, b: seq<T>, c: seq<T>)
    requires Within(a, b) && Within(b, c)
    ensures Within(a, c)
    decreases |b| + |c|
  {
    if a == [] {
    } else {
      var n := |c| - 1;
      if Within(b, c[..n]) {
        WithinTrans(a, b, c[..n]);
      } else if Within(a, b[..|b| - 1]) {
        WithinTrans(a, b[..|b| - 1], c[..n]);
      } else {
        WithinTrans(a[..|a| - 1], b[..|b| - 1], c[..n]);
      }
    }
  }

  lemma BytesNext(f: File, p: Chunk)
    ensures Bytes(f + [p]) == Bytes(f) + |p|
  {
    FlattenConcat(f, [p]);
    assert Flatten([p]) == p + Flatten([p][1..]);
  }

  lemma BytesOfOne(f: File)
    requires f != []
    ensures Bytes(f) >= |f[0]|
  {
    assert Flatten(f) == f[0] + Flatten(f[1..]);
  }

  // ── Any luck ────────────────────────────────────────────────────────────

  lemma RenamedFiles(d: Disk, n: nat)
    requires n in d
    ensures forall k: nat :: FileAt(Renamed(d, n, true), k) ==
                             if k == n + 1 then FileAt(d, n) else if k == n then [] else FileAt(d, k)
  {}

  /** A rename loses at most the file it replaces. */
  lemma RenamedKeeps(d: Disk, n: nat, ok: bool)
    requires n < LOG_KEEP
    ensures Within(Kept(Renamed(d, n, ok)), Kept(d))
    ensures n + 1 !in d ==> Kept(Renamed(d, n, ok)) == Kept(d)
  {
    hide Within, FileAt;
    WithinSelf(Kept(d));
    if ok && n in d {
      RenamedFiles(d, n);
      NoFile(d, n + 1);
      hide Renamed;
      var a, b, c, e := FileAt(d, 3), FileAt(d, 2), FileAt(d, 1), FileAt(d, 0);
      if n == 2 {
        OldestShift(a, b, c, e);
      } else if n == 1 {
        MiddleShift(a, b, c, e);
      } else {
        LiveShift(a, b, c, e);
      }
    }
  }

  lemma NoFile(d: Disk, n: nat)
    ensures n !in d ==> FileAt(d, n) == []
  {}

  lemma OldestShift(a: File, b: File, c: File, e: File)
    ensures Within(b + [] + c + e, a + b + c + e)
    ensures a == [] ==> b + [] + c + e == a + b + c + e
  {
    hide Within;
    LosesOne([], a, b + c + e);
    assert b + [] + c + e == [] + (b + c + e);
    assert a + b + c + e == [] + a + (b + c + e);
  }

  lemma MiddleShift(a: File, b: File, c: File, e: File)
    ensures Within(a + c + [] + e, a + b + c + e)
    ensures b == [] ==> a + c + [] + e == a + b + c + e
  {
    hide Within;
    LosesOne(a, b, c + e);
    assert a + c + [] + e == a + (c + e);
    assert a + b + c + e == a + b + (c + e);
  }

  lemma LiveShift(a: File, b: File, c: File, e: File)
    ensures Within(a + b + e + [], a + b + c + e)
    ensures c == [] ==> a + b + e + [] == a + b + c + e
  {
    hide Within;
    LosesOne(a + b, c, e);
    assert a + b + e + [] == a + b + e;
  }

  lemma LosesOne(a: File, b: File, c: File)
    ensures Within(a + c, a + b + c)
  {
    WithinSelf(a);
    WithinSelf(c);
    WithinMore(a, a, b);
    WithinConcat(a, a + b, c, c);
  }

  lemma RemovedFiles(d: Disk)
    ensures forall k: nat :: FileAt(Removed(d, LOG_KEEP, true), k) == if k == LOG_KEEP then [] else FileAt(d, k)
  {}

  lemma RemovedKeeps(d: Disk, ok: bool)
    ensures Within(Kept(Removed(d, LOG_KEEP, ok)), Kept(d))
  {
    hide Within, FileAt;
    if ok {
      RemovedFiles(d);
      hide Removed;
      OldestGoes(FileAt(d, 3), FileAt(d, 2), FileAt(d, 1), FileAt(d, 0));
    } else {
      WithinSelf(Kept(d));
    }
  }

  lemma OldestGoes(a: File, b: File, c: File, e: File)
    ensures Within([] + b + c + e, a + b + c + e)
    ensures [] + b + c + e == b + c + e == (a + b + c + e)[|a|..]
  {
    hide Within;
    LosesOne([], a, b + c + e);
    assert [] + b + c + e == [] + (b + c + e);
    assert a + b + c + e == [] + a + (b + c + e);
  }

  lemma {:induction false} ShiftedKeeps(d: Disk, n: nat, luck: Luck)
    requires n < LOG_KEEP
    ensures Within(Kept(Shifted(d, n, luck)), Kept(d))
    decreases n
  {
    hide Within, Kept;
    var d' := Renamed(d, n, n !in luck.stuck);
    RenamedKeeps(d, n, n !in luck.stuck);
    if n == 0 {
    } else {
      ShiftedKeeps(d', n - 1, luck);
      WithinTrans(Kept(Shifted(d', n - 1, luck)), Kept(d'), Kept(d));
    }
  }

  /** Whatever fails, what a write leaves on the disk is what was there and what
      landed of the write, in order, each entry at most once. */
  lemma WriteKeepsOrder(l: Log, p: Chunk, luck: Luck)
    ensures Within(Kept(l.Write(p, luck).disk), Kept(l.disk) + [Landed(p, luck)])
  {
    hide Within, Kept, Shifted, Landed;
    var l' := if l.open && l.Full(p) then l.Rotate(luck) else l;
    assert Within(Kept(l'.disk), Kept(l.disk)) by {
      WithinSelf(Kept(l.disk));
      if l.open && l.Full(p) {
        var d' := Removed(l.disk, LOG_KEEP, luck.removed);
        RemovedKeeps(l.disk, luck.removed);
        ShiftedKeeps(d', LOG_KEEP - 1, luck);
        WithinTrans(Kept(Shifted(d', LOG_KEEP - 1, luck)), Kept(d'), Kept(l.disk));
        OpenedKeeps(Shifted(d', LOG_KEEP - 1, luck));
      }
    }
    var q := Landed(p, luck);
    WithinSelf([q]);
    AppendKept(l', q);
    WithinConcat(Kept(l'.disk), Kept(l.disk), [q], [q]);
    WithinMore(Kept(l'.disk), Kept(l.disk), [q]);
  }

  lemma OpenedKeeps(d: Disk)
    ensures Kept(Opened(d)) == Kept(d)
  {}

  lemma AppendKept(l: Log, p: Chunk)
    ensures Kept(l.Append(p).disk) == Kept(l.disk) + if l.open then [p] else []
  {
    assert FileAt(l.disk, 3) + FileAt(l.disk, 2) + FileAt(l.disk, 1) + (FileAt(l.disk, 0) + [p]) ==
           Kept(l.disk) + [p];
  }

  /** There are no files but the four, and the writer never takes the live one for
      longer than it is. */
  predicate Consistent(l: Log) {
    && (l.open ==> 0 in l.disk && l.size <= Bytes(l.disk[0]))
    && forall n <- l.disk :: n <= LOG_KEEP
  }

  /** The writer knows the live file's size. */
  predicate Exact(l: Log) {
    l.open ==> 0 in l.disk && l.size == Bytes(l.disk[0])
  }

  lemma {:induction false} ShiftedNames(d: Disk, n: nat, luck: Luck)
    requires n < LOG_KEEP && forall k <- d :: k <= LOG_KEEP
    ensures forall k <- Shifted(d, n, luck) :: k <= LOG_KEEP
    decreases n
  {
    if n == 0 {
    } else {
      ShiftedNames(Renamed(d, n, n !in luck.stuck), n - 1, luck);
    }
  }

  lemma WriteConsistent(l: Log, p: Chunk, luck: Luck)
    requires Consistent(l)
    ensures var l' := l.Write(p, luck);
            && Consistent(l')
            && (Exact(l) && luck.stats ==> Exact(l'))
            && (l'.open ==> l.open && l'.disk[0] != [] && l'.disk[0][|l'.disk[0]| - 1] == Landed(p, luck))
            && (!l.open ==> l' == l)
  {
    hide Bytes, Shifted, Landed;
    ShiftedNames(Removed(l.disk, LOG_KEEP, luck.removed), LOG_KEEP - 1, luck);
    var l' := if l.open && l.Full(p) then l.Rotate(luck) else l;
    assert Consistent(l') && (Exact(l) && luck.stats ==> Exact(l'));
    if l'.open {
      BytesNext(l'.disk[0], Landed(p, luck));
    }
  }

  /** Each file after a write: a closed writer writes nothing; within five mebibytes
      only the live file grows; past them the files move up one by one, under any
      failures, and the write opens the new live file, or is dropped if there is
      none. */
  lemma WriteFiles(l: Log, p: Chunk, luck: Luck)
    requires Consistent(l) && l.open
    ensures var l' := l.Write(p, luck);
            var n := if luck.short.Some? && luck.short.value < |p| then luck.short.value else |p|;
            if l.size + |p| <= 5 * 1024 * 1024 then
              l' == Log(l.disk[0 := l.disk[0] + [p[..n]]], true, l.size + n)
            else
              && l'.open == luck.reopens
              && (luck.reopens ==> 0 in l'.disk && l'.disk[0] == (if 0 in luck.stuck then l.disk[0] else []) + [p[..n]])
              && (forall k | 1 <= k <= 3 :: k in l'.disk <==> MovesUp(l.disk, k - 1, luck) || Remains(l.disk, k, luck))
              && (forall k | 1 <= k <= 3 && k in l'.disk ::
                    l'.disk[k] == if MovesUp(l.disk, k - 1, luck) then l.disk[k - 1] else l.disk[k])
  {
    RotatedFiles(l, luck);
    assert p[..|p|] == p;
    hide Log.Rotate, MovesUp, Remains, Bytes;
  }

  lemma RotatedFiles(l: Log, luck: Luck)
    requires 0 in l.disk
    ensures var r := l.Rotate(luck);
            && r.open == luck.reopens
            && (luck.reopens ==> 0 in r.disk && r.disk[0] == if 0 in luck.stuck then l.disk[0] else [])
            && (forall k | 1 <= k <= 3 :: k in r.disk <==> MovesUp(l.disk, k - 1, luck) || Remains(l.disk, k, luck))
            && forall k | 1 <= k <= 3 && k in r.disk ::
                 r.disk[k] == if MovesUp(l.disk, k - 1, luck) then l.disk[k - 1] else l.disk[k]
  {
    RotationFiles(l.disk, luck, 0);
    RotationFiles(l.disk, luck, 1);
    RotationFiles(l.disk, luck, 2);
    RotationFiles(l.disk, luck, 3);
    hide Shifted, Bytes, Removed;
  }

  // ── Runs ────────────────────────────────────────────────────────────────

  function Run(l: Log, ps: seq<Chunk>, lucks: seq<Luck>): Log
    requires |ps| == |lucks|
  {
    if ps == [] then l
    else
      var n := |ps| - 1;
      Run(l, ps[..n], lucks[..n]).Write(ps[n], lucks[n])
  }

  /** What lands of each write. */
  function Landings(ps: seq<Chunk>, lucks: seq<Luck>): (cs: seq<Chunk>)
    requires |ps| == |lucks|
    ensures |cs| == |ps| && forall i | 0 <= i < |ps| :: cs[i] == Landed(ps[i], lucks[i])
  {
    seq(|ps|, i requires 0 <= i < |ps| => Landed(ps[i], lucks[i]))
  }

  lemma {:induction false} RunKeepsOrder(l: Log, ps: seq<Chunk>, lucks: seq<Luck>)
    requires |ps| == |lucks| && Consistent(l)
    ensures Consistent(Run(l, ps, lucks))
    ensures Exact(l) && (forall luck <- lucks :: luck.stats) ==> Exact(Run(l, ps, lucks))
    ensures Within(Kept(Run(l, ps, lucks).disk), Kept(l.disk) + Landings(ps, lucks))
    decreases |ps|
  {
    hide Within, Kept, Consistent, Exact, Landed, Landings;
    if ps == [] {
      assert Kept(l.disk) + Landings(ps, lucks) == Kept(l.disk);
      WithinSelf(Kept(l.disk));
    } else {
      var n := |ps| - 1;
      var before, all := Run(l, ps[..n], lucks[..n]), Landings(ps, lucks);
      RunKeepsOrder(l, ps[..n], lucks[..n]);
      assert forall luck <- lucks[..n] :: luck in lucks;
      WriteConsistent(before, ps[n], lucks[n]);
      WriteKeepsOrder(before, ps[n], lucks[n]);
      WithinSelf([all[n]]);
      assert Landings(ps[..n], lucks[..n]) == all[..n];
      WithinConcat(Kept(before.disk), Kept(l.disk) + all[..n], [all[n]], [all[n]]);
      assert Kept(l.disk) + all[..n] + [all[n]] == Kept(l.disk) + all;
      WithinTrans(Kept(Run(l, ps, lucks).disk), Kept(before.disk) + [all[n]], Kept(l.disk) + all);
    }
  }

  // ── What a failing rotation loses ───────────────────────────────────────

  predicate MovesUp(d: Disk, n: nat, luck: Luck) {
    n in d && n !in luck.stuck
  }

  /** It is not moved, not removed, and nothing is moved onto it. */
  predicate Remains(d: Disk, n: nat, luck: Luck) {
    && n in d
    && (if n == LOG_KEEP then !luck.removed else n in luck.stuck)
    && (n > 0 ==> !MovesUp(d, n - 1, luck))
  }

  /** Where every file of a rotation ends up, under any failures. */
  lemma RotationFiles(d: Disk, luck: Luck, n: nat)
    requires n <= LOG_KEEP
    ensures var d' := Shifted(Removed(d, LOG_KEEP, luck.removed), LOG_KEEP - 1, luck);
            && (n in d' <==> (n > 0 && MovesUp(d, n - 1, luck)) || Remains(d, n, luck))
            && (n in d' ==> d'[n] == if n > 0 && MovesUp(d, n - 1, luck) then d[n - 1] else d[n])
  {
    var d3 := Removed(d, 3, luck.removed);
    var d2 := Renamed(d3, 2, 2 !in luck.stuck);
    var d1 := Renamed(d2, 1, 1 !in luck.stuck);
    assert Shifted(d1, 0, luck) == Renamed(d1, 0, 0 !in luck.stuck);
    assert Shifted(d2, 1, luck) == Shifted(d1, 0, luck);
    assert Shifted(d3, 2, luck) == Shifted(d2, 1, luck);
  }

  /** Neither moved up nor left where it was. */
  predicate Lost(d: Disk, n: nat, luck: Luck) {
    n in d && !Remains(d, n, luck) && (n == LOG_KEEP || !MovesUp(d, n, luck))
  }

  /** The oldest archive is lost exactly when it is removed or replaced, another one
      exactly when its own rename fails and that of the file below it does not, and
      the live file never. */
  lemma LostExactly(d: Disk, luck: Luck, n: nat)
    requires n in d && n <= LOG_KEEP
    ensures Lost(d, n, luck) <==>
            if n == LOG_KEEP then luck.removed || MovesUp(d, 2, luck)
            else n > 0 && n in luck.stuck && MovesUp(d, n - 1, luck)
    ensures var d' := Shifted(Removed(d, LOG_KEEP, luck.removed), LOG_KEEP - 1, luck);
            && (!Lost(d, n, luck) && Remains(d, n, luck) ==> n in d' && d'[n] == d[n])
            && (!Lost(d, n, luck) && !Remains(d, n, luck) ==> n + 1 in d' && d'[n + 1] == d[n])
  {
    RotationFiles(d, luck, n);
    if n < LOG_KEEP {
      RotationFiles(d, luck, n + 1);
    }
    hide Shifted;
  }

  /** Only the rename of the live file fails. */
  predicate LiveStuck(luck: Luck) {
    luck == SMOOTH.(stuck := {0})
  }

  /** Then the live file grows past its limit, and each write shifts the archives all
      the same. */
  lemma StuckWrite(l: Log, p: Chunk, luck: Luck)
    requires l.open && Consistent(l) && Exact(l) && l.Full(p) && LiveStuck(luck)
    ensures var l' := l.Write(p, luck);
            && l'.open && Consistent(l') && Exact(l') && l'.size > LOG_MAX
            && l'.disk[0] == l.disk[0] + [p]
            && forall n | 1 <= n <= 3 :: n in l'.disk <==> n > 1 && n - 1 in l.disk
  {
    WriteConsistent(l, p, luck);
    RotationFiles(l.disk, luck, 0);
    RotationFiles(l.disk, luck, 1);
    RotationFiles(l.disk, luck, 2);
    RotationFiles(l.disk, luck, 3);
    hide Shifted, Bytes;
    var r := l.Rotate(luck);
    assert 0 in r.disk && r.disk[0] == l.disk[0] && r.size == l.size;
  }

  /** So three full writes in a row empty every archive while nothing is rotated. */
  lemma StuckLiveEmptiesArchives(l: Log, p: Chunk, q: Chunk, r: Chunk, luck: Luck)
    requires l.open && Consistent(l) && Exact(l) && l.Full(p) && LiveStuck(luck)
    ensures var l' := Run(l, [p, q, r], [luck, luck, luck]);
            && l'.open && l'.disk.Keys == {0} && l'.disk[0] == l.disk[0] + [p, q, r] && l'.size > LOG_MAX
  {
    hide Log.Write, Bytes;
    var a := l.Write(p, luck);
    StuckWrite(l, p, luck);
    var b := a.Write(q, luck);
    StuckWrite(a, q, luck);
    var c := b.Write(r, luck);
    StuckWrite(b, r, luck);
    assert Run(l, [p, q, r], [luck, luck, luck]) == c by { ThreeWrites(l, p, q, r, luck); }
    assert c.disk[0] == l.disk[0] + [p, q, r];
    assert forall n <- c.disk :: n == 0;
    assert c.disk.Keys == {0};
  }

  lemma ThreeWrites(l: Log, p: Chunk, q: Chunk, r: Chunk, luck: Luck)
    ensures Run(l, [p, q, r], [luck, luck, luck]) == l.Write(p, luck).Write(q, luck).Write(r, luck)
  {
    hide Log.Write;
    assert [p, q, r][..2] == [p, q] && [luck, luck, luck][..2] == [luck, luck];
    assert [p, q][..1] == [p] && [luck, luck][..1] == [luck];
    assert [p][..0] == [] && [luck][..0] == [];
    assert Run(l, [], []) == l;
    assert Run(l, [p], [luck]) == Run(l, [], []).Write(p, luck);
    assert Run(l, [p, q], [luck, luck]) == Run(l, [p], [luck]).Write(q, luck);
  }

  // ── When every file operation succeeds ──────────────────────────────────

  /** Past the limit, a live file is a single write or what was found at the start. */
  predicate Bounded(d: Disk) {
    0 in d && (Bytes(d[0]) > 5 * 1024 * 1024 ==> |d[0]| == 1)
  }

  predicate Healthy(l: Log) {
    Consistent(l) && Exact(l) && l.open && Bounded(l.disk)
  }

  lemma SmoothRotation(l: Log)
    requires 0 in l.disk
    ensures var l' := l.Rotate(SMOOTH);
            && l'.open && l'.size == 0 && 0 in l'.disk && l'.disk[0] == []
            && Kept(l'.disk) == Kept(l.disk)[|FileAt(l.disk, 3)|..]
            && forall n | 0 < n <= 3 :: FileAt(l'.disk, n) == FileAt(l.disk, n - 1) && (n in l'.disk <==> n - 1 in l.disk)
  {
    RotationFiles(l.disk, SMOOTH, 0);
    RotationFiles(l.disk, SMOOTH, 1);
    RotationFiles(l.disk, SMOOTH, 2);
    RotationFiles(l.disk, SMOOTH, 3);
    hide Shifted;
    var l' := l.Rotate(SMOOTH);
    OldestGoes(FileAt(l.disk, 3), FileAt(l.disk, 2), FileAt(l.disk, 1), FileAt(l.disk, 0));
    assert FileAt(l'.disk, 0) == [];
    assert Flatten<Byte>([]) == [];
    assert Kept(l'.disk) == FileAt(l.disk, 2) + FileAt(l.disk, 1) + FileAt(l.disk, 0) + [];
  }

  /** A write drops nothing but the oldest archive, and that only when the live
      file has no room for it. */
  lemma SmoothWrite(l: Log, p: Chunk) returns (k: nat)
    requires Healthy(l)
    ensures var l' := l.Write(p, SMOOTH);
            && Healthy(l')
            && k <= |Kept(l.disk)| && Kept(l'.disk) == Kept(l.disk)[k..] + [p]
            && k == if l.Full(p) then |FileAt(l.disk, 3)| else 0
  {
    WriteConsistent(l, p, SMOOTH);
    k := if l.Full(p) then |FileAt(l.disk, 3)| else 0;
    if l.Full(p) {
      SmoothRotation(l);
      AppendKept(l.Rotate(SMOOTH), p);
    } else {
      AppendKept(l, p);
      BytesNext(l.disk[0], p);
      assert Kept(l.disk)[0..] == Kept(l.disk);
    }
    hide Kept, Shifted, Bytes, Consistent;
  }

  function Smooth(n: nat): (lucks: seq<Luck>)
    ensures |lucks| == n && forall i | 0 <= i < n :: lucks[i] == SMOOTH
  {
    seq(n, _ => SMOOTH)
  }

  /** Nothing written is lost but from the far end: the archives, oldest first, and
      the live file are a suffix of what was there and everything written since. */
  lemma {:induction false} SmoothRun(l: Log, ps: seq<Chunk>) returns (k: nat)
    requires Healthy(l)
    ensures Healthy(Run(l, ps, Smooth(|ps|)))
    ensures k <= |Kept(l.disk) + ps| && Kept(Run(l, ps, Smooth(|ps|)).disk) == (Kept(l.disk) + ps)[k..]
    decreases |ps|
  {
    hide Kept, Healthy, Log.Write;
    if ps == [] {
      k := 0;
      assert (Kept(l.disk) + ps)[0..] == Kept(l.disk);
    } else {
      var n := |ps| - 1;
      var all := Kept(l.disk) + ps;
      k := SmoothRun(l, ps[..n]);
      assert Smooth(|ps|)[..n] == Smooth(n);
      var before := Run(l, ps[..n], Smooth(n));
      var j := SmoothWrite(before, ps[n]);
      assert Kept(l.disk) + ps[..n] == all[..|all| - 1];
      FurtherSuffix(all, k, j);
      k := k + j;
    }
  }

  lemma FurtherSuffix<T>(all: seq<T>, k: nat, j: nat)
    requires all != [] && k < |all| && k + j < |all|
    ensures all[..|all| - 1][k..][j..] + [all[|all| - 1]] == all[k + j..]
  {}

  /** What is found at the start: at most the four files, each read as one chunk. */
  predicate Found(d: Disk) {
    (forall n <- d :: n <= LOG_KEEP) && |FileAt(d, 0)| <= 1
  }

  lemma StartIsHealthy(d: Disk)
    requires Found(d)
    ensures Healthy(Log(d, false, 0).Reopen(true, true)) && Kept(Log(d, false, 0).Reopen(true, true).disk) == Kept(d)
  {
    OpenedKeeps(d);
    assert Flatten<Byte>([]) == [];
  }

  // ── How much is kept ────────────────────────────────────────────────────

  predicate SnugAt(d: Disk, n: nat)
    requires n > 0
  {
    n in d ==>
      && n - 1 in d && FileAt(d, n - 1) != []
      && Bytes(FileAt(d, n)) + |FileAt(d, n - 1)[0]| > 5 * 1024 * 1024
  }

  /** No archive was closed while the next write still had room in it. */
  predicate Snug(d: Disk) {
    SnugAt(d, 1) && SnugAt(d, 2) && SnugAt(d, 3)
  }

  lemma SnugRotate(l: Log, p: Chunk)
    requires Healthy(l) && Snug(l.disk) && l.Full(p)
    ensures Snug(l.Write(p, SMOOTH).disk)
  {
    SmoothRotation(l);
    hide Shifted, Bytes, Kept, FileAt;
    var d, d' := l.disk, l.Write(p, SMOOTH).disk;
    assert FileAt(d', 0) == [p] && FileAt(d', 1) == FileAt(l.Rotate(SMOOTH).disk, 1)
        && FileAt(d', 2) == FileAt(l.Rotate(SMOOTH).disk, 2) && FileAt(d', 3) == FileAt(l.Rotate(SMOOTH).disk, 3)
        && FileAt(d, 0) == d[0] by { Files(l, p); }
  }

  lemma Files(l: Log, p: Chunk)
    requires 0 in l.disk
    ensures FileAt(l.disk, 0) == l.disk[0]
    ensures var r := l.Rotate(SMOOTH);
            r.open && r.disk[0] == [] && l.open && l.Full(p) ==>
              && FileAt(l.Write(p, SMOOTH).disk, 0) == [p]
              && forall n | n != 0 :: FileAt(l.Write(p, SMOOTH).disk, n) == FileAt(r.disk, n)
  {
    hide Shifted;
  }

  lemma SnugAppend(l: Log, p: Chunk)
    requires Healthy(l) && Snug(l.disk) && !l.Full(p)
    ensures Snug(l.Write(p, SMOOTH).disk)
  {
    hide Bytes;
    var d, d' := l.disk, l.Write(p, SMOOTH).disk;
    assert d' == d[0 := d[0] + [p]];
    assert FileAt(d', 0) == d[0] + [p] && FileAt(d', 1) == FileAt(d, 1)
        && FileAt(d', 2) == FileAt(d, 2) && FileAt(d', 3) == FileAt(d, 3);
    assert d[0] != [] ==> (d[0] + [p])[0] == d[0][0];
  }

  lemma SnugWrite(l: Log, p: Chunk)
    requires Healthy(l) && Snug(l.disk)
    ensures Snug(l.Write(p, SMOOTH).disk)
    ensures 3 in l.disk ==> 3 in l.Write(p, SMOOTH).disk
  {
    if l.Full(p) {
      SnugRotate(l, p);
      SmoothRotation(l);
    } else {
      SnugAppend(l, p);
    }
    hide Shifted, Bytes, Kept, FileAt;
  }

  function Fresh(): Log {
    Log(map[], false, 0).Reopen(true, true)
  }

  predicate Retains(l: Log, written: seq<Chunk>) {
    && Snug(l.disk)
    && (3 !in l.disk ==> Kept(l.disk) == written)
    && (3 in l.disk ==> Bytes(Kept(l.disk)) > 10 * 1024 * 1024)
  }

  /** From an empty directory nothing at all is lost until three full archives
      exist, and after that more than ten mebibytes are always there. */
  lemma {:induction false} Retention(ps: seq<Chunk>)
    ensures Retains(Run(Fresh(), ps, Smooth(|ps|)), ps)
    decreases |ps|
  {
    hide Retains, Healthy, Fresh, Kept, Log.Write;
    FreshStart();
    if ps == [] {
    } else {
      var n := |ps| - 1;
      Retention(ps[..n]);
      var j := SmoothRun(Fresh(), ps[..n]);
      assert Smooth(|ps|)[..n] == Smooth(n);
      RetentionStep(Run(Fresh(), ps[..n], Smooth(n)), ps[n], ps[..n]);
      assert ps[..n] + [ps[n]] == ps;
    }
  }

  lemma FreshStart()
    ensures Retains(Fresh(), []) && Healthy(Fresh())
  {
    StartIsHealthy(map[]);
  }

  lemma RetentionStep(l: Log, p: Chunk, written: seq<Chunk>)
    requires Healthy(l) && Retains(l, written)
    ensures Retains(l.Write(p, SMOOTH), written + [p])
  {
    hide Bytes, Kept, Snug, Healthy;
    SnugWrite(l, p);
    var k := SmoothWrite(l, p);
    assert Kept(l.disk)[0..] == Kept(l.disk);
    if 3 in l.Write(p, SMOOTH).disk {
      FourFilesWeigh(l.Write(p, SMOOTH).disk);
    }
  }

  lemma FourFilesWeigh(d: Disk)
    requires Snug(d) && 3 in d
    ensures Bytes(Kept(d)) > 10 * 1024 * 1024
  {
    hide Bytes;
    assert 2 in d && 1 in d && 0 in d;
    BytesOfOne(d[0]);
    BytesOfOne(d[2]);
    BytesConcat(d[3] + d[2] + d[1], d[0]);
    BytesConcat(d[3] + d[2], d[1]);
    BytesConcat(d[3], d[2]);
  }

  lemma BytesConcat(a: File, b: File)
    ensures Bytes(a + b) == Bytes(a) + Bytes(b)
  {
    FlattenConcat(a, b);
  }
}
