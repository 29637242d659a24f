/** When the checks of the lock-order checker rule out circular waits, exactly: a run in
    which every acquisition passes its check can end in a circle if and only if the locks,
    under the classes they are used with, can be walked in a circle. */
module LockOrder {
  import opened LockDep

  /** The locks of a program and the classes it uses them under. */
  type Usage = Entry -> bool

  predicate Valid(e: Entry) {
    e.kind != Invalid && e.lock != NULL
  }

  /** Lock `b` may be requested by a thread whose latest lock is `a`. */
  predicate Follows(uses: Usage, a: Entry, b: Entry) {
    uses(a) && uses(b) && Valid(a) && Valid(b) && a.lock != b.lock && AllowedAfter(a.kind, b.kind)
  }

  ghost predicate Edge(uses: Usage, l: Lock, m: Lock) {
    exists a: Entry, b: Entry :: Follows(uses, a, b) && a.lock == l && b.lock == m
  }

  ghost predicate EdgeAt(uses: Usage, p: seq<Lock>, i: nat)
    requires i + 1 < |p|
  {
    Edge(uses, p[i], p[i + 1])
  }

  ghost predicate Walk(uses: Usage, p: seq<Lock>) {
    |p| >= 2 && forall i :: 0 <= i < |p| - 1 ==> EdgeAt(uses, p, i)
  }

  ghost predicate Reaches(uses: Usage, l: Lock, m: Lock) {
    exists p :: Walk(uses, p) && p[0] == l && p[|p| - 1] == m
  }

  /** No walk comes back to its start. */
  ghost predicate Acyclic(uses: Usage) {
    forall l: Lock :: !Reaches(uses, l, l)
  }

  lemma EdgeReaches(uses: Usage, l: Lock, m: Lock)
    requires Edge(uses, l, m)
    ensures Reaches(uses, l, m)
  {
    assert EdgeAt(uses, [l, m], 0) && Walk(uses, [l, m]);
  }

  lemma ReachesOn(uses: Usage, l: Lock, m: Lock, n: Lock)
    requires Reaches(uses, l, m) && Reaches(uses, m, n)
    ensures Reaches(uses, l, n)
  {
    var p :| Walk(uses, p) && p[0] == l && p[|p| - 1] == m;
    var q :| Walk(uses, q) && q[0] == m && q[|q| - 1] == n;
    var r := p + q[1..];
    forall i | 0 <= i < |r| - 1 ensures EdgeAt(uses, r, i) {
      if i < |p| - 1 {
        assert EdgeAt(uses, p, i);
      } else {
        assert EdgeAt(uses, q, i - (|p| - 1));
      }
    }
    assert Walk(uses, r) && r[0] == l && r[|r| - 1] == n;
  }

  /** When every lock is used at one rank, no walk comes back. */
  lemma {:induction false} RanksRise(uses: Usage, rankOf: Lock -> nat, p: seq<Lock>)
    requires Walk(uses, p) && forall e: Entry :: uses(e) ==> Rank(e.kind) == rankOf(e.lock)
    ensures rankOf(p[0]) < rankOf(p[|p| - 1])
  {
    assert EdgeAt(uses, p, 0);
    var a: Entry, b: Entry :| Follows(uses, a, b) && a.lock == p[0] && b.lock == p[1];
    assert uses(a) && uses(b);
    assert Rank(a.kind) == rankOf(p[0]) && Rank(b.kind) == rankOf(p[1]);
    assert Rank(a.kind) < Rank(b.kind);
    if |p| > 2 {
      var rest := p[1..];
      forall i | 0 <= i < |rest| - 1 ensures EdgeAt(uses, rest, i) {
        assert EdgeAt(uses, p, i + 1);
      }
      RanksRise(uses, rankOf, rest);
      assert rest[0] == p[1] && rest[|rest| - 1] == p[|p| - 1];
    }
  }

  // ---- No circle without a walk --------------------------------------------------------

  ghost predicate StackOk(uses: Usage, held: seq<Entry>) {
    && (forall i :: 0 <= i < |held| ==> uses(held[i]) && Valid(held[i]))
    && (forall i, j :: 0 <= i < j < |held| ==> Reaches(uses, held[i].lock, held[j].lock))
  }

  ghost predicate UsageOk(uses: Usage, th: Thread) {
    && StackOk(uses, th.held)
    && (th.waiting.For? ==>
          && uses(th.waiting.e) && Valid(th.waiting.e)
          && forall i :: 0 <= i < |th.held| ==> Reaches(uses, th.held[i].lock, th.waiting.e.lock))
  }

  ghost predicate AllUsageOk(uses: Usage, s: State) {
    forall t: Tid :: UsageOk(uses, Of(s, t))
  }

  /** Looking at the top is enough: everything held reaches a permitted lock. */
  lemma HeldReach(uses: Usage, held: seq<Entry>, e: Entry, i: nat)
    requires StackOk(uses, held) && Permitted(held, e) && uses(e) && i < |held|
    ensures Reaches(uses, held[i].lock, e.lock)
  {
    var top := |held| - 1;
    assert Follows(uses, held[top], e);
    EdgeReaches(uses, held[top].lock, e.lock);
    if i < top { ReachesOn(uses, held[i].lock, held[top].lock, e.lock); }
  }

  lemma {:induction false} AbandonKeepsStack(uses: Usage, held: seq<Entry>, e: Entry)
    requires StackOk(uses, held)
    ensures StackOk(uses, Without(held, e))
    ensures forall i :: 0 <= i < |Without(held, e)| ==> Without(held, e)[i] in held
  {
    if held != [] {
      var rest := held[1..];
      assert forall i :: 0 <= i < |rest| ==> rest[i] == held[i + 1];
      if held[0] != e {
        AbandonKeepsStack(uses, rest, e);
        var less := Without(rest, e);
        forall i | 0 <= i < |less| ensures Reaches(uses, held[0].lock, less[i].lock) {
          var j :| 0 <= j < |rest| && rest[j] == less[i];
          assert rest[j] == held[j + 1];
        }
      }
    }
  }

  lemma UsageStep(uses: Usage, s: State, step: Step)
    requires AllUsageOk(uses, s) && Enabled(s, step) && (step.Request? ==> uses(step.e))
    ensures AllUsageOk(uses, Apply(s, step))
  {
    var s', th := Apply(s, step), Of(s, step.t);
    assert UsageOk(uses, th);
    if step.Request? {
      forall i | 0 <= i < |th.held| ensures Reaches(uses, th.held[i].lock, step.e.lock) { HeldReach(uses, th.held, step.e, i); }
    }
    if step.Abandon? { AbandonKeepsStack(uses, th.held, step.e); }
    assert UsageOk(uses, Of(s', step.t));
    forall t: Tid | t != step.t ensures UsageOk(uses, Of(s', t)) { assert Of(s', t) == Of(s, t); }
  }

  /** Every acquisition of the run is one of the uses. */
  ghost predicate Keeps(uses: Usage, steps: seq<Step>) {
    forall i :: 0 <= i < |steps| && steps[i].Request? ==> uses(steps[i].e)
  }

  lemma {:induction false} UsageInEveryRun(uses: Usage, states: seq<State>, steps: seq<Step>, i: nat)
    requires Checked(states, steps) && Keeps(uses, steps) && i < |states|
    ensures AllUsageOk(uses, states[i])
  {
    if i > 0 {
      UsageInEveryRun(uses, states, steps, i - 1);
      assert Leads(states[i - 1], steps[i - 1], states[i]);
      UsageStep(uses, states[i - 1], steps[i - 1]);
    }
  }

  /** What a wait says about the two wanted locks. */
  ghost predicate Behind(uses: Usage, a: Waiting, b: Waiting)
    requires a.For? && b.For?
  {
    Reaches(uses, a.e.lock, b.e.lock) || (a.e.lock == b.e.lock && b.ticket < a.ticket)
  }

  lemma WaitsBehind(uses: Usage, s: State, t: Tid, u: Tid)
    requires AllUsageOk(uses, s) && WaitsFor(s, t, u) && Of(s, u).waiting.For?
    ensures Behind(uses, Of(s, t).waiting, Of(s, u).waiting)
  {
    assert UsageOk(uses, Of(s, u));
  }

  lemma {:induction false} ChainBehind(uses: Usage, s: State, path: seq<Tid>)
    requires AllUsageOk(uses, s) && Chain(s, path) && |path| >= 2 && Of(s, path[|path| - 1]).waiting.For?
    ensures Of(s, path[0]).waiting.For? && Behind(uses, Of(s, path[0]).waiting, Of(s, path[|path| - 1]).waiting)
  {
    assert WaitsFor(s, path[0], path[1]);
    if |path| > 2 {
      var rest := path[1..];
      forall i | 0 <= i < |rest| - 1 ensures WaitsFor(s, rest[i], rest[i + 1]) {
        assert WaitsFor(s, path[i + 1], path[i + 2]);
      }
      ChainBehind(uses, s, rest);
      WaitsBehind(uses, s, path[0], path[1]);
      var a, b, c := Of(s, path[0]).waiting, Of(s, path[1]).waiting, Of(s, path[|path| - 1]).waiting;
      if Reaches(uses, a.e.lock, b.e.lock) && Reaches(uses, b.e.lock, c.e.lock) {
        ReachesOn(uses, a.e.lock, b.e.lock, c.e.lock);
      }
    } else {
      WaitsBehind(uses, s, path[0], path[1]);
    }
  }

  /** The threads of `path` wait for each other in a circle at the end of a checked run. */
  ghost predicate Circle(uses: Usage, states: seq<State>, steps: seq<Step>, path: seq<Tid>) {
    && Checked(states, steps) && Keeps(uses, steps)
    && |path| >= 2 && path[0] == path[|path| - 1] && Chain(states[|steps|], path)
  }

  lemma CircleNeedsWalk(uses: Usage, states: seq<State>, steps: seq<Step>, path: seq<Tid>)
    requires Circle(uses, states, steps, path)
    ensures !Acyclic(uses)
  {
    var s := states[|steps|];
    UsageInEveryRun(uses, states, steps, |steps|);
    assert WaitsFor(s, path[0], path[1]);
    ChainBehind(uses, s, path);
    var l := Of(s, path[0]).waiting.e.lock;
    assert Reaches(uses, l, l);
  }

  // ---- No walk without a circle --------------------------------------------------------

  ghost predicate Simple(p: seq<Lock>) {
    forall i, j :: 0 <= i < j < |p| - 1 ==> p[i] != p[j]
  }

  /** A walk that comes back contains one that meets no lock twice. */
  lemma {:induction false} Shorten(uses: Usage, p: seq<Lock>) returns (q: seq<Lock>)
    requires Walk(uses, p) && p[0] == p[|p| - 1]
    ensures Walk(uses, q) && q[0] == q[|q| - 1] && Simple(q)
    decreases |p|
  {
    if i: nat, j: nat :| i < j < |p| - 1 && p[i] == p[j] {
      var part := p[i..j + 1];
      forall k | 0 <= k < |part| - 1 ensures EdgeAt(uses, part, k) {
        assert EdgeAt(uses, p, i + k);
      }
      q := Shorten(uses, part);
    } else {
      q := p;
    }
  }

  lemma EdgesOf(uses: Usage, p: seq<Lock>, n: nat) returns (a: seq<Entry>, b: seq<Entry>)
    requires Walk(uses, p) && n < |p|
    ensures |a| == |b| == n
    ensures forall i :: 0 <= i < n ==> Follows(uses, a[i], b[i]) && a[i].lock == p[i] && b[i].lock == p[i + 1]
  {
    if n == 0 {
      a, b := [], [];
    } else {
      a, b := EdgesOf(uses, p, n - 1);
      assert EdgeAt(uses, p, n - 1);
      var x: Entry, y: Entry :| Follows(uses, x, y) && x.lock == p[n - 1] && y.lock == p[n];
      a, b := a + [x], b + [y];
    }
  }

  /** The first `k` threads hold a lock each. */
  function Holding(a: seq<Entry>, k: nat): State
    requires k <= |a|
  {
    State(map t: Tid | t < k :: Thread([a[t]], NoLock), 2 * k)
  }

  /** All threads hold a lock, and the first `k` wait for another. */
  function Asking(a: seq<Entry>, b: seq<Entry>, k: nat): State
    requires k <= |a| == |b|
  {
    State(map t: Tid | t < |a| :: Thread([a[t]], if t < k then For(b[t], 2 * |a| + t) else NoLock), 2 * |a| + k)
  }

  lemma OneMore(states: seq<State>, steps: seq<Step>, uses: Usage, step: Step, s': State)
    requires Checked(states, steps) && Keeps(uses, steps) && Leads(states[|steps|], step, s')
    requires step.Request? ==> uses(step.e)
    ensures Checked(states + [s'], steps + [step]) && Keeps(uses, steps + [step])
  {
    forall i | 0 <= i < |steps + [step]| ensures Leads((states + [s'])[i], (steps + [step])[i], (states + [s'])[i + 1]) {
      if i < |steps| { assert Leads(states[i], steps[i], states[i + 1]); }
    }
  }

  lemma TakeOne(a: seq<Entry>, k: nat, mid: State)
    requires k < |a| && Valid(a[k]) && mid == State(Holding(a, k).threads[k := Thread([], For(a[k], 2 * k))], 2 * k + 1)
    ensures Leads(Holding(a, k), Request(k, a[k]), mid) && Leads(mid, Grant(k), Holding(a, k + 1))
  {
    assert [] + [a[k]] == [a[k]];
    assert Apply(mid, Grant(k)).threads == Holding(a, k + 1).threads;
  }

  lemma {:induction false} AllHold(uses: Usage, a: seq<Entry>, k: nat) returns (states: seq<State>, steps: seq<Step>)
    requires k <= |a| && forall i :: 0 <= i < |a| ==> uses(a[i]) && Valid(a[i])
    ensures Checked(states, steps) && Keeps(uses, steps) && states[|steps|] == Holding(a, k)
  {
    if k == 0 {
      states, steps := [Holding(a, 0)], [];
      assert Holding(a, 0) == State(map[], 0);
    } else {
      states, steps := AllHold(uses, a, k - 1);
      var j := k - 1;
      var mid := State(Holding(a, j).threads[j := Thread([], For(a[j], 2 * j))], 2 * j + 1);
      TakeOne(a, j, mid);
      OneMore(states, steps, uses, Request(j, a[j]), mid);
      OneMore(states + [mid], steps + [Request(j, a[j])], uses, Grant(j), Holding(a, k));
      states, steps := states + [mid] + [Holding(a, k)], steps + [Request(j, a[j])] + [Grant(j)];
    }
  }

  lemma AskOne(uses: Usage, a: seq<Entry>, b: seq<Entry>, k: nat)
    requires k < |a| == |b| && Follows(uses, a[k], b[k])
    ensures Leads(Asking(a, b, k), Request(k, b[k]), Asking(a, b, k + 1))
  {
    assert Apply(Asking(a, b, k), Request(k, b[k])).threads == Asking(a, b, k + 1).threads;
  }

  lemma AllHeld(uses: Usage, a: seq<Entry>, b: seq<Entry>) returns (states: seq<State>, steps: seq<Step>)
    requires |a| == |b| && forall i :: 0 <= i < |a| ==> Follows(uses, a[i], b[i])
    ensures Checked(states, steps) && Keeps(uses, steps) && states[|steps|] == Asking(a, b, 0)
  {
    states, steps := AllHold(uses, a, |a|);
    assert Holding(a, |a|) == Asking(a, b, 0);
  }

  lemma AskNext(uses: Usage, a: seq<Entry>, b: seq<Entry>, k: nat, states: seq<State>, steps: seq<Step>)
    requires k < |a| == |b| && Follows(uses, a[k], b[k])
    requires Checked(states, steps) && Keeps(uses, steps) && states[|steps|] == Asking(a, b, k)
    ensures Checked(states + [Asking(a, b, k + 1)], steps + [Request(k, b[k])]) && Keeps(uses, steps + [Request(k, b[k])])
  {
    AskOne(uses, a, b, k);
    OneMore(states, steps, uses, Request(k, b[k]), Asking(a, b, k + 1));
  }

  lemma {:induction false} AllAsk(uses: Usage, a: seq<Entry>, b: seq<Entry>, k: nat)
    returns (states: seq<State>, steps: seq<Step>)
    requires k <= |a| == |b| && forall i :: 0 <= i < |a| ==> Follows(uses, a[i], b[i])
    ensures Checked(states, steps) && Keeps(uses, steps) && states[|steps|] == Asking(a, b, k)
  {
    if k == 0 {
      states, steps := AllHeld(uses, a, b);
    } else {
      states, steps := AllAsk(uses, a, b, k - 1);
      AskNext(uses, a, b, k - 1, states, steps);
      states, steps := states + [Asking(a, b, k)], steps + [Request(k - 1, b[k - 1])];
    }
  }

  /** No lock is held twice. */
  ghost predicate Exclusive(s: State) {
    forall t: Tid, u: Tid, l: Lock :: t != u && Holds(Of(s, t), l) ==> !Holds(Of(s, u), l)
  }

  /** A walk that comes back gives a checked run that ends in a circle, and in it every
      lock is held by one thread only. */
  lemma WalkMakesCircle(uses: Usage) returns (states: seq<State>, steps: seq<Step>, path: seq<Tid>)
    requires !Acyclic(uses)
    ensures Circle(uses, states, steps, path) && Exclusive(states[|steps|])
  {
    var l: Lock :| Reaches(uses, l, l);
    var p :| Walk(uses, p) && p[0] == l && p[|p| - 1] == l;
    var q := Shorten(uses, p);
    var n := |q| - 1;
    var a, b := EdgesOf(uses, q, n);
    states, steps := AllAsk(uses, a, b, n);
    var s := states[|steps|];
    path := seq(n + 1, i requires 0 <= i <= n => if i < n then i else 0);
    forall i | 0 <= i < n ensures WaitsFor(s, path[i], path[i + 1]) {
      var u := path[i + 1];
      assert Of(s, u).held[0].lock == q[i + 1];
      assert Of(s, i).waiting.e == b[i];
    }
    AskingIsExclusive(q, a, b);
  }

  lemma AskingIsExclusive(q: seq<Lock>, a: seq<Entry>, b: seq<Entry>)
    requires |a| == |b| == |q| - 1 && Simple(q) && forall i :: 0 <= i < |a| ==> a[i].lock == q[i]
    ensures Exclusive(Asking(a, b, |a|))
  {
    var s := Asking(a, b, |a|);
    forall t: Tid, u: Tid, m: Lock | t != u && Holds(Of(s, t), m) ensures !Holds(Of(s, u), m) {
      assert t < |a| && a[t].lock == m;
    }
  }

  /** Main result: checked runs with these uses never end in a circle exactly when the
      locks cannot be walked in a circle. */
  lemma CircleExactly(uses: Usage)
    ensures (exists states, steps, path :: Circle(uses, states, steps, path)) <==> !Acyclic(uses)
  {
    if states, steps, path :| Circle(uses, states, steps, path) {
      CircleNeedsWalk(uses, states, steps, path);
    } else if !Acyclic(uses) {
      var states, steps, path := WalkMakesCircle(uses);
      assert Circle(uses, states, steps, path);
    }
  }

  /** One rank for every lock is a condition under which there is no circle. */
  lemma OneRankIsEnough(uses: Usage, rankOf: Lock -> nat)
    requires forall e: Entry :: uses(e) ==> Rank(e.kind) == rankOf(e.lock)
    ensures Acyclic(uses)
  {
    forall l: Lock ensures !Reaches(uses, l, l) {
      if Reaches(uses, l, l) {
        var p :| Walk(uses, p) && p[0] == l && p[|p| - 1] == l;
        RanksRise(uses, rankOf, p);
      }
    }
  }
}
