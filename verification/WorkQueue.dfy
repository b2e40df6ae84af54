/** vt.go, enqueueHash and vtWorker, and connections.go, enqueueSig and sigWorker:
    a pending set that keeps an item from being queued twice, a bounded channel,
    and one worker that resolves items alone (hashes) or in batches (signatures). */
module WorkQueue {

  /** A file hash or a path. */
  type Item(==, !new)

  datatype Worker =
    | Idle                       // receiving
    | Collecting(batch: seq<Item>)
    | Resolving(batch: seq<Item>)
    | Clearing(batch: seq<Item>) // resolved; deleting from the pending set

  /** `reserved` counts, for each item, the callers of enqueue that stored it in
      the pending set and are before their select; `refused` those that found the
      channel full and have not deleted it yet. `sent` and `resolved` are
      histories. */
  datatype State = State(
    pending: set<Item>, reserved: multiset<Item>, refused: multiset<Item>, queue: seq<Item>, worker: Worker,
    sent: seq<Item>, resolved: seq<Item>)

  /** The channel's capacity and the most items resolved together. */
  datatype Limits = Limits(cap: nat, batch: nat)

  const HASHES := Limits(4000, 1)
  const SIGNATURES := Limits(4096, 32)

  const INIT := State({}, multiset{}, multiset{}, [], Idle, [], [])

  datatype Step =
    | Reserve(x: Item)   // LoadOrStore
    | Send(x: Item)      // the channel had room
    | Refuse(x: Item)    // it did not: select's default
    | Drop(x: Item)      // the Delete after it, however full the channel is by then
    | Take               // the worker's blocking receive
    | Drain              // its non-blocking ones, until the batch is full
    | Resolve            // start on the batch
    | Finish             // done with it
    | Clear              // delete one item from the pending set
    | Rest               // the batch is cleared

  predicate OfWorker(step: Step) {
    !step.Reserve? && !step.Send? && !step.Refuse? && !step.Drop?
  }

  predicate Enabled(l: Limits, s: State, step: Step) {
    match step
    case Reserve(_) => true
    case Send(x) => x in s.reserved && |s.queue| < l.cap
    case Refuse(x) => x in s.reserved && |s.queue| >= l.cap
    case Drop(x) => x in s.refused
    case Take => s.worker.Idle? && s.queue != []
    case Drain => s.worker.Collecting? && |s.worker.batch| < l.batch && s.queue != []
    case Resolve => s.worker.Collecting? && (|s.worker.batch| >= l.batch || s.queue == [])
    case Finish => s.worker.Resolving?
    case Clear => s.worker.Clearing? && s.worker.batch != []
    case Rest => s.worker.Clearing? && s.worker.batch == []
  }

  function Apply(l: Limits, s: State, step: Step): State
    requires Enabled(l, s, step)
  {
    match step
    case Reserve(x) =>
      if x in s.pending then s
      else s.(pending := s.pending + {x}, reserved := s.reserved + multiset{x})
    case Send(x) =>
      s.(queue := s.queue + [x], reserved := s.reserved - multiset{x}, sent := s.sent + [x])
    case Refuse(x) =>
      s.(reserved := s.reserved - multiset{x}, refused := s.refused + multiset{x})
    case Drop(x) =>
      s.(pending := s.pending - {x}, refused := s.refused - multiset{x})
    case Take => s.(worker := Collecting([s.queue[0]]), queue := s.queue[1..])
    case Drain => s.(worker := Collecting(s.worker.batch + [s.queue[0]]), queue := s.queue[1..])
    case Resolve => s.(worker := Resolving(s.worker.batch))
    case Finish => s.(worker := Clearing(s.worker.batch), resolved := s.resolved + s.worker.batch)
    case Clear => s.(worker := Clearing(s.worker.batch[1..]), pending := s.pending - {s.worker.batch[0]})
    case Rest => s.(worker := Idle)
  }

  function Hands(w: Worker): seq<Item> {
    if w.Idle? then [] else w.batch
  }

  function Unresolved(w: Worker): seq<Item> {
    if w.Collecting? || w.Resolving? then w.batch else []
  }

  /** The items in the hands of callers of enqueue. */
  function Held(s: State): multiset<Item> {
    s.reserved + s.refused
  }

  /** Conservation: the callers holding an item, its places in the channel and
      its presence in the worker's hands add up to one if it is pending and to
      none otherwise. */
  predicate Conserved(s: State) {
    Held(s) + multiset(s.queue) + multiset(Hands(s.worker)) == multiset(s.pending)
  }

  predicate Inv(l: Limits, s: State) {
    && Conserved(s)
    && |s.queue| <= l.cap
    && |Hands(s.worker)| <= l.batch
    && s.sent == s.resolved + Unresolved(s.worker) + s.queue
  }

  lemma SplitFirst(q: seq<Item>)
    requires q != []
    ensures multiset(q) == multiset{q[0]} + multiset(q[1..])
  {
    assert q == [q[0]] + q[1..];
  }

  lemma WithoutOne(p: set<Item>, x: Item)
    requires x in p
    ensures multiset(p) == multiset(p - {x}) + multiset{x}
  {
    assert p == (p - {x}) + {x};
  }

  lemma ReserveConserves(l: Limits, s: State, x: Item)
    requires Conserved(s)
    ensures Conserved(Apply(l, s, Reserve(x)))
  {
    if x !in s.pending {
      WithoutOne(s.pending + {x}, x);
      assert s.pending + {x} - {x} == s.pending;
      assert s.reserved + multiset{x} + s.refused == Held(s) + multiset{x};
    }
  }

  lemma SendConserves(l: Limits, s: State, x: Item)
    requires Conserved(s) && Enabled(l, s, Send(x))
    ensures Conserved(Apply(l, s, Send(x)))
  {
    assert multiset(s.queue + [x]) == multiset(s.queue) + multiset{x};
    assert s.reserved - multiset{x} + s.refused + multiset{x} == Held(s);
  }

  lemma RefuseConserves(l: Limits, s: State, x: Item)
    requires Conserved(s) && Enabled(l, s, Refuse(x))
    ensures Conserved(Apply(l, s, Refuse(x)))
  {
    assert s.reserved - multiset{x} + (s.refused + multiset{x}) == Held(s);
  }

  lemma DropConserves(l: Limits, s: State, x: Item)
    requires Conserved(s) && Enabled(l, s, Drop(x))
    ensures Conserved(Apply(l, s, Drop(x)))
  {
    assert multiset(s.pending)[x] >= s.refused[x] >= 1;
    WithoutOne(s.pending, x);
    assert s.reserved + (s.refused - multiset{x}) == Held(s) - multiset{x};
    assert Held(s)[x] >= 1;
    Shrunk(Held(s), multiset(s.queue), multiset(Hands(s.worker)), multiset(s.pending), multiset(s.pending - {x}), x);
  }

  lemma Shrunk(a: multiset<Item>, b: multiset<Item>, c: multiset<Item>, p: multiset<Item>, q: multiset<Item>, x: Item)
    requires a + b + c == p && p == q + multiset{x} && a[x] >= 1
    ensures a - multiset{x} + b + c == q
  {
    forall y: Item
      ensures (a - multiset{x} + b + c)[y] == q[y]
    {
      assert (a + b + c)[y] == (q + multiset{x})[y];
    }
  }

  lemma EnqueueConserves(l: Limits, s: State, step: Step)
    requires Conserved(s) && Enabled(l, s, step) && !OfWorker(step)
    ensures Conserved(Apply(l, s, step))
  {
    hide Apply, Conserved;
    match step
    case Reserve(x) => ReserveConserves(l, s, x);
    case Send(x) => SendConserves(l, s, x);
    case Refuse(x) => RefuseConserves(l, s, x);
    case Drop(x) => DropConserves(l, s, x);
    case _ =>
  }

  lemma TakeConserves(l: Limits, s: State, step: Step)
    requires Conserved(s) && Enabled(l, s, step) && (step == Take || step == Drain)
    ensures Conserved(Apply(l, s, step))
  {
    SplitFirst(s.queue);
    var batch := Hands(s.worker);
    assert multiset(batch + [s.queue[0]]) == multiset(batch) + multiset{s.queue[0]};
    assert step == Take ==> batch + [s.queue[0]] == [s.queue[0]];
    Handed(Held(s), multiset(s.queue), multiset(s.queue[1..]), multiset(batch), multiset(s.pending), s.queue[0]);
  }

  lemma Handed(a: multiset<Item>, q: multiset<Item>, rest: multiset<Item>, h: multiset<Item>, p: multiset<Item>, x: Item)
    requires a + q + h == p && q == multiset{x} + rest
    ensures a + rest + (h + multiset{x}) == p
  {}

  lemma ClearConserves(l: Limits, s: State)
    requires Conserved(s) && Enabled(l, s, Clear)
    ensures Conserved(Apply(l, s, Clear))
  {
    var batch := s.worker.batch;
    var x := batch[0];
    SplitFirst(batch);
    assert multiset(batch)[x] >= 1;
    assert multiset(s.pending)[x] >= multiset(batch)[x];
    WithoutOne(s.pending, x);
    assert multiset(batch) - multiset{x} == multiset(batch[1..]);
    assert multiset(batch) + Held(s) + multiset(s.queue) == multiset(s.pending);
    Shrunk(multiset(batch), Held(s), multiset(s.queue), multiset(s.pending), multiset(s.pending - {x}), x);
  }

  lemma WorkerConserves(l: Limits, s: State, step: Step)
    requires Conserved(s) && Enabled(l, s, step) && OfWorker(step)
    ensures Conserved(Apply(l, s, step))
  {
    match step
    case Take => TakeConserves(l, s, step);
    case Drain => TakeConserves(l, s, step);
    case Clear => ClearConserves(l, s);
    case _ =>
  }

  lemma OrderKept(l: Limits, s: State, step: Step)
    requires Inv(l, s) && Enabled(l, s, step)
    ensures var t := Apply(l, s, step); t.sent == t.resolved + Unresolved(t.worker) + t.queue
  {
    hide Conserved;
    var r, u, q := s.resolved, Unresolved(s.worker), s.queue;
    match step
    case Send(x) => assert r + u + q + [x] == r + u + (q + [x]);
    case Take => assert r + [] + q == r + [q[0]] + q[1..];
    case Drain => assert r + u + q == r + (u + [q[0]]) + q[1..];
    case Finish => assert r + u + q == (r + u) + [] + q;
    case _ =>
  }

  /** Every step keeps it, queue-full drops and batches included. */
  lemma StepKeeps(l: Limits, s: State, step: Step)
    requires l.batch >= 1 && Inv(l, s) && Enabled(l, s, step)
    ensures Inv(l, Apply(l, s, step))
  {
    if OfWorker(step) {
      WorkerConserves(l, s, step);
    } else {
      EnqueueConserves(l, s, step);
    }
    OrderKept(l, s, step);
    hide Conserved;
  }

  ghost predicate Reaches(l: Limits, s0: State, steps: seq<Step>, s: State)
    decreases |steps|
  {
    if steps == [] then s == s0
    else Enabled(l, s0, steps[0]) && Reaches(l, Apply(l, s0, steps[0]), steps[1..], s)
  }

  lemma {:induction false} RunKeeps(l: Limits, s0: State, steps: seq<Step>, s: State)
    requires l.batch >= 1 && Inv(l, s0) && Reaches(l, s0, steps, s)
    ensures Inv(l, s)
    decreases |steps|
  {
    hide Apply, Enabled, Inv;
    if steps == [] {
    } else {
      StepKeeps(l, s0, steps[0]);
      RunKeeps(l, Apply(l, s0, steps[0]), steps[1..], s);
    }
  }

  /** Over every run: each item is in exactly one place if pending and nowhere if
      not, so none is queued twice, or resolved twice at once, or pending with no
      owner. */
  lemma EachItemInOnePlace(l: Limits, steps: seq<Step>, s: State, x: Item)
    requires l.batch >= 1 && Reaches(l, INIT, steps, s)
    ensures Held(s)[x] + multiset(s.queue)[x] + multiset(Hands(s.worker))[x] == if x in s.pending then 1 else 0
    ensures |s.queue| <= l.cap && |Hands(s.worker)| <= l.batch
  {
    RunKeeps(l, INIT, steps, s);
    assert (Held(s) + multiset(s.queue) + multiset(Hands(s.worker)))[x] == multiset(s.pending)[x];
  }

  /** Over every run: the items resolved are exactly the items sent, once each
      and in the order they were sent, up to those still on their way. */
  lemma ResolvedInOrder(l: Limits, steps: seq<Step>, s: State)
    requires l.batch >= 1 && Reaches(l, INIT, steps, s)
    ensures s.resolved <= s.sent
    ensures s.worker.Idle? && s.queue == [] ==> s.resolved == s.sent && multiset(s.pending) == Held(s)
  {
    RunKeeps(l, INIT, steps, s);
    if s.worker.Idle? && s.queue == [] {
      assert Held(s) + multiset(s.queue) + multiset(Hands(s.worker)) == Held(s);
    }
  }

  /** In particular for the two queues there are, of 4000 hashes resolved one at a
      time and of 4096 paths resolved up to 32 together. */
  lemma HashesAndSignatures(l: Limits, steps: seq<Step>, s: State, x: Item)
    requires l in {HASHES, SIGNATURES} && Reaches(l, INIT, steps, s)
    ensures |s.queue| <= 4096 && |Hands(s.worker)| <= 32 && (l == HASHES ==> |s.queue| <= 4000 && |Hands(s.worker)| <= 1)
    ensures Held(s)[x] + multiset(s.queue)[x] + multiset(Hands(s.worker))[x] == if x in s.pending then 1 else 0
    ensures x !in s.pending ==> x !in s.queue && x !in Hands(s.worker) && Held(s)[x] == 0
    ensures s.resolved <= s.sent
  {
    EachItemInOnePlace(l, steps, s, x);
    ResolvedInOrder(l, steps, s);
  }

  // ── Progress ────────────────────────────────────────────────────────────

  /** The worker's steps left for what has been sent so far. */
  function WorkLeft(s: State): nat {
    6 * |s.queue| +
    match s.worker
    case Idle => 0
    case Collecting(b) => |b| + 4
    case Resolving(b) => |b| + 3
    case Clearing(b) => |b| + 1
  }

  lemma WorkShrinks(l: Limits, s: State, step: Step)
    requires Enabled(l, s, step) && OfWorker(step)
    ensures WorkLeft(Apply(l, s, step)) < WorkLeft(s)
  {}

  /** The worker never stops short: while anything is queued or in its hands it
      has a step to take, and each uses up work. */
  lemma WorkerNeverStuck(l: Limits, s: State)
    requires l.batch >= 1
    ensures WorkLeft(s) == 0 <==> forall step | OfWorker(step) :: !Enabled(l, s, step)
    ensures WorkLeft(s) == 0 <==> s.queue == [] && s.worker.Idle?
  {
    var step := match s.worker
      case Idle => Take
      case Collecting(b) => if |b| < l.batch && s.queue != [] then Drain else Resolve
      case Resolving(_) => Finish
      case Clearing(b) => if b == [] then Rest else Clear;
    assert OfWorker(step);
    assert WorkLeft(s) != 0 ==> Enabled(l, s, step);
  }

  /** An item dropped by a full channel is free again: a later enqueue takes it, and
      nobody else had it while its caller was about to drop it. */
  lemma DropFrees(l: Limits, s: State, x: Item)
    requires Inv(l, s) && Enabled(l, s, Drop(x))
    ensures x in s.pending && Held(s)[x] == 1 && x !in s.queue && x !in Hands(s.worker)
    ensures var t := Apply(l, s, Drop(x));
            x !in t.pending && Apply(l, t, Reserve(x)).reserved[x] == 1
  {
    assert (Held(s) + multiset(s.queue) + multiset(Hands(s.worker)))[x] == multiset(s.pending)[x];
  }
}
