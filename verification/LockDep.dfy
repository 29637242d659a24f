/** The lock-order checker: each thread only looks at the top of its own stack of held
    locks, and yet no group of threads can wait for each other in a circle. */
module LockDep {

  datatype LockClass = Control | Lifetime | Emit | Progress | QueueWait | Console | Format | Resource | Invalid

  /** The address of a lock; zero is the null pointer. */
  type Lock = nat
  const NULL: Lock := 0
  const MAX_HELD: nat := 16

  datatype Entry = Entry(kind: LockClass, lock: Lock)

  predicate IsInstance(c: LockClass) {
    c == Emit || c == Progress || c == QueueWait
  }

  predicate AllowedAfter(held: LockClass, next: LockClass) {
    if next == Resource then held == Control || held == Lifetime || held == Emit || held == Format
    else if next == Format then held == Control || held == Lifetime || held == Emit || held == Console
    else if held == Control then next == Lifetime || IsInstance(next)
    else held == Lifetime && IsInstance(next)
  }

  /** What a check of an acquisition accepts. */
  predicate Permitted(held: seq<Entry>, e: Entry) {
    && e.kind != Invalid && e.lock != NULL
    && (forall i :: 0 <= i < |held| ==> held[i].lock != e.lock)
    && (held != [] ==> AllowedAfter(held[|held| - 1].kind, e.kind))
    && |held| < MAX_HELD
  }

  /** The stack without its lowest matching entry. */
  function Without(held: seq<Entry>, e: Entry): seq<Entry> {
    if held == [] then []
    else if held[0] == e then held[1..]
    else [held[0]] + Without(held[1..], e)
  }

  // ---- The thread's own record ---------------------------------------------------------

  /** `struct logger_lockdep_state`; a result of false means that the process aborts. */
  class HeldLocks {
    const held: array<Entry>
    var depth: nat

    ghost predicate Valid()
      reads this, held
    {
      depth <= MAX_HELD == held.Length
    }

    ghost function Stack(): seq<Entry>
      requires Valid()
      reads this, held
    {
      held[..depth]
    }

    constructor ()
      ensures Valid() && Stack() == [] && fresh(held)
    {
      held := new Entry[MAX_HELD](_ => Entry(Invalid, NULL));
      depth := 0;
    }

    method CheckAcquire(e: Entry) returns (ok: bool)
      requires Valid()
      ensures ok <==> Permitted(Stack(), e)
    {
      if e.kind == Invalid || e.lock == NULL { return false; }
      var i := 0;
      while i < depth
        invariant 0 <= i <= depth
        invariant forall j :: 0 <= j < i ==> held[j].lock != e.lock
      {
        if held[i].lock == e.lock { return false; }
        i := i + 1;
      }
      if depth > 0 && !AllowedAfter(held[depth - 1].kind, e.kind) { return false; }
      ok := depth != MAX_HELD;
    }

    method Acquire(e: Entry) returns (ok: bool)
      requires Valid()
      modifies this, held
      ensures Valid() && (ok <==> Permitted(old(Stack()), e))
      ensures Stack() == if ok then old(Stack()) + [e] else old(Stack())
    {
      ok := CheckAcquire(e);
      if ok {
        held[depth] := e;
        depth := depth + 1;
      }
    }

    method Release(e: Entry) returns (ok: bool)
      requires Valid()
      modifies this
      ensures Valid() && (ok <==> old(Stack()) != [] && old(Stack())[|old(Stack())| - 1] == e)
      ensures Stack() == if ok then old(Stack())[..|old(Stack())| - 1] else old(Stack())
    {
      if depth == 0 || held[depth - 1] != e { return false; }
      depth := depth - 1;
      ok := true;
    }

    method Abandon(e: Entry)
      requires Valid()
      modifies this, held
      ensures Valid() && Stack() == Without(old(Stack()), e)
    {
      var i := 0;
      ghost var was := Stack();
      while i < depth
        invariant 0 <= i <= depth && depth == old(depth) && held[..] == old(held[..])
        invariant Without(was, e) == was[..i] + Without(was[i..], e)
      {
        if held[i] == e {
          CloseGap(i);
          assert Without(was[i..], e) == was[i + 1..];
          return;
        }
        assert was[i..][0] == held[i] && was[i..][1..] == was[i + 1..];
        i := i + 1;
      }
      assert was[i..] == [];
    }

    /** Moves the entries above `i` down by one. */
    method CloseGap(i: nat)
      requires Valid() && i < depth
      modifies this, held
      ensures Valid() && Stack() == old(Stack())[..i] + old(Stack())[i + 1..]
    {
      var j := i + 1;
      while j < depth
        invariant i + 1 <= j <= depth && depth == old(depth)
        invariant forall k :: 0 <= k < i || j - 1 < k < MAX_HELD ==> held[k] == old(held[k])
        invariant forall k :: i <= k < j - 1 ==> held[k] == old(held[k + 1])
      {
        held[j - 1] := held[j];
        j := j + 1;
      }
      depth := depth - 1;
    }
  }

  // ---- Ranks ---------------------------------------------------------------------------

  function Rank(c: LockClass): nat {
    match c
    case Control => 0
    case Lifetime => 1
    case Emit => 2
    case Progress => 2
    case QueueWait => 2
    case Console => 2
    case Format => 3
    case Resource => 4
    case Invalid => 5
  }

  /** Ranks rise along the stack. */
  ghost predicate Ranked(held: seq<Entry>) {
    && (forall i :: 0 <= i < |held| ==> Rank(held[i].kind) <= 4)
    && (forall i, j :: 0 <= i < j < |held| ==> Rank(held[i].kind) < Rank(held[j].kind))
  }

  /** Looking at the top is enough: a permitted lock ranks above everything held. */
  lemma TopIsEnough(held: seq<Entry>, e: Entry, i: nat)
    requires Ranked(held) && Permitted(held, e) && i < |held|
    ensures Rank(held[i].kind) < Rank(e.kind) <= 4
  {
    var top := |held| - 1;
    assert i < top ==> Rank(held[i].kind) < Rank(held[top].kind);
  }

  lemma PushKeepsRanks(held: seq<Entry>, e: Entry)
    requires Ranked(held) && Permitted(held, e)
    ensures Ranked(held + [e])
  {
    forall i | 0 <= i < |held| ensures Rank(held[i].kind) < Rank(e.kind) { TopIsEnough(held, e, i); }
  }

  lemma AboveAll(held: seq<Entry>, less: seq<Entry>)
    requires Ranked(held) && held != [] && Ranked(less) && forall i :: 0 <= i < |less| ==> less[i] in held[1..]
    ensures Ranked([held[0]] + less)
  {
    forall i | 0 <= i < |less| ensures Rank(held[0].kind) < Rank(less[i].kind) {
      var j :| 0 <= j < |held[1..]| && held[1..][j] == less[i];
      assert held[1..][j] == held[j + 1];
    }
  }

  /** Removing an entry anywhere keeps the ranks rising. */
  lemma {:induction false} AbandonKeepsRanks(held: seq<Entry>, e: Entry)
    requires Ranked(held)
    ensures Ranked(Without(held, e))
    ensures forall i :: 0 <= i < |Without(held, e)| ==> Without(held, e)[i] in held
  {
    if held != [] {
      var rest := held[1..];
      assert Ranked(rest) by { assert forall i :: 0 <= i < |rest| ==> rest[i] == held[i + 1]; }
      if held[0] != e {
        AbandonKeepsRanks(rest, e);
        AboveAll(held, Without(rest, e));
      }
    }
  }

  /** The stack never holds more than one lock of each rank, so the limit is out of
      reach and the overflow check never decides. */
  lemma {:induction false} DepthBound(held: seq<Entry>)
    requires Ranked(held)
    ensures |held| <= 5
    ensures forall i :: 0 <= i < |held| ==> i <= Rank(held[i].kind)
  {
    if held != [] {
      var front, top := held[..|held| - 1], |held| - 1;
      DepthBound(front);
      assert forall i :: 0 <= i < |front| ==> front[i] == held[i];
      assert top > 0 ==> Rank(held[top - 1].kind) < Rank(held[top].kind);
    }
  }

  // ---- Any number of threads -----------------------------------------------------------

  type Tid = nat

  /** A waiting thread has passed the check; `ticket` tells when it began to wait. */
  datatype Waiting = NoLock | For(e: Entry, ticket: nat)

  datatype Thread = Thread(held: seq<Entry>, waiting: Waiting)

  datatype State = State(threads: map<Tid, Thread>, clock: nat)

  function Of(s: State, t: Tid): Thread {
    if t in s.threads then s.threads[t] else Thread([], NoLock)
  }

  datatype Step =
    | Request(t: Tid, e: Entry)   // passes the check and begins to wait
    | Grant(t: Tid)               // the lock is given; readers may share it
    | GiveUp(t: Tid)              // the wait fails
    | Release(t: Tid)             // the top lock is released
    | Abandon(t: Tid, e: Entry)   // a lock in an unknown state is forgotten

  predicate Enabled(s: State, step: Step) {
    var th := Of(s, step.t);
    match step
    case Request(_, e) => th.waiting.NoLock? && Permitted(th.held, e)
    case Grant(_) => th.waiting.For?
    case GiveUp(_) => th.waiting.For?
    case Release(_) => th.waiting.NoLock? && th.held != []
    case Abandon(_, _) => th.waiting.NoLock?
  }

  function Apply(s: State, step: Step): State
    requires Enabled(s, step)
  {
    var th := Of(s, step.t);
    var th' := match step
      case Request(_, e) => th.(waiting := For(e, s.clock))
      case Grant(_) => Thread(th.held + [th.waiting.e], NoLock)
      case GiveUp(_) => th.(waiting := NoLock)
      case Release(_) => th.(held := th.held[..|th.held| - 1])
      case Abandon(_, e) => th.(held := Without(th.held, e));
    State(s.threads[step.t := th'], s.clock + 1)
  }

  /** Every lock is used at one rank only. */
  ghost predicate Classed(th: Thread, rankOf: Lock -> nat) {
    && (forall i :: 0 <= i < |th.held| ==> Rank(th.held[i].kind) == rankOf(th.held[i].lock))
    && (th.waiting.For? ==> Rank(th.waiting.e.kind) == rankOf(th.waiting.e.lock))
  }

  ghost predicate ThreadOk(th: Thread, rankOf: Lock -> nat) {
    && Ranked(th.held) && Classed(th, rankOf)
    && (th.waiting.For? ==> Permitted(th.held, th.waiting.e))
  }

  ghost predicate Inv(s: State, rankOf: Lock -> nat) {
    forall t: Tid :: ThreadOk(Of(s, t), rankOf)
  }

  lemma StepKeeps(s: State, step: Step, rankOf: Lock -> nat)
    requires Inv(s, rankOf) && Enabled(s, step)
    requires step.Request? ==> Rank(step.e.kind) == rankOf(step.e.lock)
    ensures Inv(Apply(s, step), rankOf)
  {
    var s', th := Apply(s, step), Of(s, step.t);
    assert ThreadOk(th, rankOf);
    if step.Grant? { PushKeepsRanks(th.held, th.waiting.e); }
    if step.Abandon? { AbandonKeepsRanks(th.held, step.e); }
    assert ThreadOk(Of(s', step.t), rankOf);
    forall t: Tid | t != step.t ensures ThreadOk(Of(s', t), rankOf) { assert Of(s', t) == Of(s, t); }
  }

  ghost predicate Holds(th: Thread, lock: Lock) {
    exists i :: 0 <= i < |th.held| && th.held[i].lock == lock
  }

  /** Thread `t` waits for `u`: it wants a lock that `u` holds, or `u` began to wait for
      the same lock earlier. */
  ghost predicate WaitsFor(s: State, t: Tid, u: Tid) {
    && Of(s, t).waiting.For?
    && var e, ticket := Of(s, t).waiting.e, Of(s, t).waiting.ticket;
       || Holds(Of(s, u), e.lock)
       || (Of(s, u).waiting.For? && Of(s, u).waiting.e.lock == e.lock && Of(s, u).waiting.ticket < ticket)
  }

  /** Following a wait, the rank of the wanted lock rises, or stays and the ticket falls. */
  lemma WaitsRise(s: State, t: Tid, u: Tid, rankOf: Lock -> nat)
    requires Inv(s, rankOf) && WaitsFor(s, t, u) && Of(s, u).waiting.For?
    ensures var a, b := Of(s, t).waiting, Of(s, u).waiting;
            && Rank(b.e.kind) <= 4
            && (Rank(a.e.kind) < Rank(b.e.kind) || (Rank(a.e.kind) == Rank(b.e.kind) && b.ticket < a.ticket))
  {
    var th, other := Of(s, t), Of(s, u);
    assert ThreadOk(th, rankOf) && ThreadOk(other, rankOf);
    if Holds(other, th.waiting.e.lock) {
      var i :| 0 <= i < |other.held| && other.held[i].lock == th.waiting.e.lock;
      TopIsEnough(other.held, other.waiting.e, i);
    }
  }

  /** A chain of waits. */
  ghost predicate Chain(s: State, path: seq<Tid>) {
    |path| >= 1 && forall i :: 0 <= i < |path| - 1 ==> WaitsFor(s, path[i], path[i + 1])
  }

  lemma {:induction false} ChainRises(s: State, path: seq<Tid>, rankOf: Lock -> nat)
    requires Inv(s, rankOf) && Chain(s, path) && |path| >= 2 && Of(s, path[|path| - 1]).waiting.For?
    ensures var a, b := Of(s, path[0]).waiting, Of(s, path[|path| - 1]).waiting;
            && a.For?
            && (Rank(a.e.kind) < Rank(b.e.kind) || (Rank(a.e.kind) == Rank(b.e.kind) && b.ticket < a.ticket))
  {
    assert WaitsFor(s, path[0], path[1]);
    if |path| > 2 {
      var rest := path[1..];
      forall i | 0 <= i < |rest| - 1 ensures WaitsFor(s, rest[i], rest[i + 1]) {
        assert WaitsFor(s, path[i + 1], path[i + 2]);
      }
      ChainRises(s, rest, rankOf);
    }
    WaitsRise(s, path[0], path[1], rankOf);
  }

  /** Main result: no thread waits for itself, over any number of others. */
  lemma NoCircularWait(s: State, path: seq<Tid>, rankOf: Lock -> nat)
    requires Inv(s, rankOf) && Chain(s, path) && |path| >= 2
    ensures path[0] != path[|path| - 1]
  {
    if path[0] == path[|path| - 1] {
      assert WaitsFor(s, path[0], path[1]);
      ChainRises(s, path, rankOf);
    }
  }

  ghost predicate WaitsForNobody(s: State, t: Tid) {
    forall u: Tid :: !WaitsFor(s, t, u)
  }

  function RankLeft(w: Waiting): nat {
    if w.For? then 6 - Rank(w.e.kind) else 0
  }

  /** From every thread the waits lead, in finitely many steps, to one that waits for
      nobody: it runs, or its lock is free for it. */
  lemma {:induction false} SomeoneRuns(s: State, t: Tid, rankOf: Lock -> nat) returns (path: seq<Tid>)
    requires Inv(s, rankOf)
    ensures Chain(s, path) && path[0] == t
    ensures WaitsForNobody(s, path[|path| - 1])
    decreases RankLeft(Of(s, t).waiting), if Of(s, t).waiting.For? then Of(s, t).waiting.ticket else 0
  {
    if u: Tid :| WaitsFor(s, t, u) {
      assert ThreadOk(Of(s, t), rankOf);
      if Of(s, u).waiting.For? { WaitsRise(s, t, u, rankOf); }
      var rest := SomeoneRuns(s, u, rankOf);
      path := [t] + rest;
      assert path[1] == u;
      forall i | 0 <= i < |path| - 1 ensures WaitsFor(s, path[i], path[i + 1]) {
        if i > 0 { assert WaitsFor(s, rest[i - 1], rest[i]); }
      }
    } else {
      path := [t];
    }
  }

  // ---- Runs ----------------------------------------------------------------------------

  ghost predicate Leads(s: State, step: Step, s': State) {
    Enabled(s, step) && s' == Apply(s, step)
  }

  /** A run in which every acquisition passed its check. */
  ghost predicate Checked(states: seq<State>, steps: seq<Step>) {
    && |states| == |steps| + 1 && states[0] == State(map[], 0)
    && forall i :: 0 <= i < |steps| ==> Leads(states[i], steps[i], states[i + 1])
  }

  /** Such a run that uses every lock under classes of one rank. */
  ghost predicate IsRun(states: seq<State>, steps: seq<Step>, rankOf: Lock -> nat) {
    && Checked(states, steps)
    && forall i :: 0 <= i < |steps| && steps[i].Request? ==> Rank(steps[i].e.kind) == rankOf(steps[i].e.lock)
  }

  lemma {:induction false} RunInv(states: seq<State>, steps: seq<Step>, rankOf: Lock -> nat, i: nat)
    requires IsRun(states, steps, rankOf) && i < |states|
    ensures Inv(states[i], rankOf)
  {
    if i > 0 {
      RunInv(states, steps, rankOf, i - 1);
      assert Leads(states[i - 1], steps[i - 1], states[i]);
      StepKeeps(states[i - 1], steps[i - 1], rankOf);
    }
  }

  /** Two threads that each hold a lock and have asked for the other's. */
  function Crossed(a: Entry, b: Entry, x: Waiting, y: Waiting, clock: nat): State {
    State(map[1 := Thread([a], x), 2 := Thread([b], y)], clock)
  }

  lemma BothHold(a: Entry, b: Entry) returns (states: seq<State>, steps: seq<Step>)
    requires Permitted([], a) && Permitted([], b)
    ensures Checked(states, steps) && |steps| == 4 && states[4] == Crossed(a, b, NoLock, NoLock, 4)
  {
    steps := [Request(1, a), Grant(1), Request(2, b), Grant(2)];
    var s1 := State(map[1 := Thread([], For(a, 0))], 1);
    var s2 := State(map[1 := Thread([a], NoLock)], 2);
    var s3 := State(map[1 := Thread([a], NoLock), 2 := Thread([], For(b, 2))], 3);
    var s4 := Crossed(a, b, NoLock, NoLock, 4);
    states := [State(map[], 0), s1, s2, s3, s4];
    assert [] + [a] == [a] && [] + [b] == [b];
    assert Leads(states[0], steps[0], s1) && Leads(s1, steps[1], s2);
    assert Leads(s2, steps[2], s3) && Leads(s3, steps[3], s4);
  }

  /** The checker of one thread cannot see that two threads use a lock under different
      classes: then every check passes and the threads still wait for each other. */
  lemma OneClassIsNeeded() returns (states: seq<State>, steps: seq<Step>)
    ensures Checked(states, steps) && WaitsFor(states[|steps|], 1, 2) && WaitsFor(states[|steps|], 2, 1)
  {
    var a, b := Entry(Control, 100), Entry(Control, 200);
    var before, begin := BothHold(a, b);
    var r1, r2 := Request(1, Entry(Emit, 200)), Request(2, Entry(Emit, 100));
    var s5 := Crossed(a, b, For(r1.e, 4), NoLock, 5);
    var s6 := Crossed(a, b, For(r1.e, 4), For(r2.e, 5), 6);
    assert Leads(before[4], r1, s5);
    assert Leads(s5, r2, s6);
    states, steps := before + [s5, s6], begin + [r1, r2];
    forall i | 0 <= i < |steps| ensures Leads(states[i], steps[i], states[i + 1]) {
      if i < 4 { assert Leads(before[i], begin[i], before[i + 1]); }
    }
    assert Of(s6, 1).held[0].lock == 100 && Of(s6, 2).held[0].lock == 200;
  }
}
