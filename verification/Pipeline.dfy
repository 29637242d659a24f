/** The whole asynchronous path: ring, wakeup and output run side by side, tied
    together where one thread moves from one to the other. */
module Pipeline {
  import opened Options
  import R = Ring
  import W = Wakeup
  import O = Output
  import opened Record
  import Bits

  type Tid = nat

  /** `batchMax` is the capacity of the worker's workspace. `reliable` says that
      every pthread call succeeds. */
  datatype State = State(ring: R.State, wake: W.State, out: O.State, batchMax: nat, reliable: bool)

  datatype Step =
    | RingStep(r: R.Step)       // producers up to publication, and the worker's pop
    | Publish(t: Tid)           // publication, after which the producer looks at `waiting`
    | EndDrain                  // the batch is full, or the next slot is not published
    | WakeStep(w: W.Step)
    | OutStep(o: O.Step)

  /** `!logger_queue_empty`: the next slot is published. */
  predicate Head(ring: R.State)
    requires R.Shape(ring)
  {
    R.SlotAt(ring.slots, ring.deq).seqno == ring.deq + 1
  }

  predicate ByConsumer(r: R.Step) {
    r.Look? || r.Unpack? || r.Return? || r.Free? || r.Advance?
  }

  /** Records popped since the last accounted position. */
  function Gathered(s: State): int {
    |s.ring.received| - s.out.ledger.base
  }

  /** A step in which a pthread call fails, or a failure is noted. */
  predicate LockFails(out: O.State, o: O.Step) {
    || o.Fault? || o.NoteLock? || o.NoteUnlock?
    || ((o.LockEmit? || o.UnlockEmit? || o.LockProgress? || o.UnlockProgress?) && o.error > 0)
    || (o.ClientOp? && o.error > 0 && var pc := O.PcOf(out.clients, o.t);
        pc.FlushLock? || pc.FlushWaiting? || pc.FlushUnlock? || pc.FlushEmitLock? || pc.FlushEmitUnlock?
        || pc.DirectLock? || pc.DirectUnlock?)
  }

  predicate Enabled(s: State, step: Step)
    requires R.Shape(s.ring)
  {
    match step
    case RingStep(r) =>
      && R.Enabled(s.ring, r) && !r.Publish?
      && (r.Begin? ==> W.PcOf(s.wake.threads, r.t).Quiet?)
      && (ByConsumer(r) ==> s.wake.sleeper.Awake? && s.out.worker.Draining?)
      && (r.Look? ==> Gathered(s) < s.batchMax)
    case Publish(t) => R.Enabled(s.ring, R.Publish(t)) && W.Enabled(s.wake, W.Published(t))
    case EndDrain =>
      && s.wake.sleeper.Awake? && s.out.worker.Draining? && s.ring.consumer.Looking?
      && (Gathered(s) == s.batchMax || !Head(s.ring))
      && (Gathered(s) > 0 || !Head(s.ring))
    case WakeStep(w) =>
      && W.Enabled(s.wake, w) && !w.Published? && !w.GoIdle?
      && (w.Stop? ==> R.PcOf(s.ring.producers, w.t).Idle?)
    case OutStep(o) =>
      O.Enabled(s.out, o) && !o.Collect? && (s.reliable ==> !LockFails(s.out, o))
  }

  function Apply(s: State, step: Step): State
    requires R.Shape(s.ring) && Enabled(s, step)
  {
    match step
    case RingStep(r) => s.(ring := R.Apply(s.ring, r))
    case Publish(t) =>
      s.(ring := R.Apply(s.ring, R.Publish(t)), wake := W.Apply(s.wake, Head(s.ring), W.Published(t)))
    case EndDrain =>
      if Gathered(s) > 0 then s.(out := O.Apply(s.out, s.ring.enq, s.ring.deq, O.Collect(Gathered(s))))
      else s.(wake := W.Apply(s.wake, Head(s.ring), W.GoIdle))
    case WakeStep(w) => s.(wake := W.Apply(s.wake, Head(s.ring), w))
    case OutStep(o) =>
      var out := O.Apply(s.out, s.ring.enq, s.ring.deq, o);
      // logger_note_lifecycle_error also clears `running`.
      s.(out := out,
         wake := if out.errors.lifecycle != s.out.errors.lifecycle then s.wake.(running := false) else s.wake)
  }

  ghost predicate Init(s: State) {
    && 2 <= s.ring.cap && 1 <= s.batchMax
    && (exists record :: s.ring == R.Initial(s.ring.cap, s.ring.spillCap, record))
    && s.wake == W.Start
    && s.out == O.Initial(s.out.outputs)
  }

  // ---- The invariant ------------------------------------------------------------

  /** A batch consists of the records popped since the last accounted position;
      outside draining the pop loop is at rest. */
  ghost predicate Batches(s: State) {
    && 0 <= Gathered(s)
    && (!s.out.worker.Draining? ==> s.ring.consumer.Looking? && Gathered(s) == O.BatchSize(s.out.worker))
    && (!s.wake.sleeper.Awake? ==> s.ring.consumer.Looking? && s.out.worker.Draining? && Gathered(s) == 0)
  }

  /** A thread in the middle of a push owes no wakeup yet. */
  ghost predicate Roles(s: State) {
    forall t: Tid :: R.PcOf(s.ring.producers, t).Idle? || W.PcOf(s.wake.threads, t).Quiet?
  }

  ghost predicate Inv(s: State) {
    && R.Inv(s.ring) && O.Inv(s.out) && Batches(s) && Roles(s)
    && (s.reliable ==> W.Inv(s.wake, Head(s.ring)))
  }

  lemma InitInv(s: State)
    requires Init(s)
    ensures Inv(s)
  {
    var record :| s.ring == R.Initial(s.ring.cap, s.ring.spillCap, record);
    R.InitialInv(s.ring.cap, s.ring.spillCap, record);
    O.InitialInv(s.out.outputs);
    W.StartInv();
    Bits.QuotientUnique(0, s.ring.cap, 0, 0);
    assert !Head(s.ring);
  }

  /** Copying and reserving do not publish. */
  lemma ProducerStepKeepsHead(ring: R.State, r: R.Step)
    requires R.Inv(ring) && R.Enabled(ring, r) && !r.Publish? && !ByConsumer(r)
    ensures var ring' := R.Apply(ring, r);
            R.Shape(ring') && Head(ring') == Head(ring) && ring'.received == ring.received && ring'.consumer == ring.consumer
  {
    if r.TearSlot? || r.PackRecord? {
      var ring' := R.Apply(ring, r);
      assert forall i :: 0 <= i < |ring.slots| ==> ring'.slots[i].seqno == ring.slots[i].seqno;
    }
  }

  lemma PublishKeepsHead(ring: R.State, t: Tid)
    requires R.Inv(ring) && R.Enabled(ring, R.Publish(t)) && ring.consumer.Looking?
    ensures var ring' := R.Apply(ring, R.Publish(t)); R.Shape(ring') && (Head(ring) ==> Head(ring'))
  {
    assert R.ProducerOk(ring, t);
    var pos := R.PcOf(ring.producers, t).pos;
    if pos != ring.deq { Bits.DistinctInWindow(ring.deq, pos, ring.deq, ring.cap); }
  }

  lemma RingStepWake(s: State, r: R.Step)
    requires Inv(s) && Enabled(s, RingStep(r)) && s.reliable
    ensures R.Shape(Apply(s, RingStep(r)).ring) && W.Inv(s.wake, Head(Apply(s, RingStep(r)).ring))
  {
    R.StepKeeps(s.ring, r);
    if !ByConsumer(r) { ProducerStepKeepsHead(s.ring, r); }
    W.QueueStepKeeps(s.wake, Head(s.ring), Head(R.Apply(s.ring, r)));
  }

  lemma RingStepRoles(s: State, r: R.Step, t: Tid)
    requires Inv(s) && Enabled(s, RingStep(r))
    ensures R.PcOf(R.Apply(s.ring, r).producers, t).Idle? || W.PcOf(s.wake.threads, t).Quiet?
  {
    assert R.PcOf(s.ring.producers, t).Idle? || W.PcOf(s.wake.threads, t).Quiet?;
  }

  lemma RingStepKeeps(s: State, r: R.Step)
    requires Inv(s) && Enabled(s, RingStep(r))
    ensures Inv(Apply(s, RingStep(r)))
  {
    R.StepKeeps(s.ring, r);
    if !ByConsumer(r) { ProducerStepKeepsHead(s.ring, r); }
    if s.reliable { RingStepWake(s, r); }
    forall t: Tid ensures R.PcOf(R.Apply(s.ring, r).producers, t).Idle? || W.PcOf(s.wake.threads, t).Quiet? {
      RingStepRoles(s, r, t);
    }
  }

  lemma PublishKeeps(s: State, t: Tid)
    requires Inv(s) && Enabled(s, Publish(t))
    ensures Inv(Apply(s, Publish(t)))
  {
    var s' := Apply(s, Publish(t));
    R.StepKeeps(s.ring, R.Publish(t));
    if s.reliable {
      if !s.wake.sleeper.Awake? { PublishKeepsHead(s.ring, t); }
      W.StepKeeps(s.wake, Head(s.ring), W.Published(t), Head(s'.ring));
    }
    forall u: Tid ensures R.PcOf(s'.ring.producers, u).Idle? || W.PcOf(s'.wake.threads, u).Quiet? {
      assert R.PcOf(s.ring.producers, u).Idle? || W.PcOf(s.wake.threads, u).Quiet?;
    }
  }

  lemma EndDrainKeeps(s: State)
    requires Inv(s) && Enabled(s, EndDrain)
    ensures Inv(Apply(s, EndDrain))
  {
    if Gathered(s) > 0 {
      O.StepKeeps(s.out, s.ring.enq, s.ring.deq, O.Collect(Gathered(s)));
    } else if s.reliable {
      W.StepKeeps(s.wake, Head(s.ring), W.GoIdle, Head(s.ring));
    }
  }

  lemma WakeStepKeeps(s: State, w: W.Step)
    requires Inv(s) && Enabled(s, WakeStep(w))
    ensures Inv(Apply(s, WakeStep(w)))
  {
    var s' := Apply(s, WakeStep(w));
    if s.reliable { W.StepKeeps(s.wake, Head(s.ring), w, Head(s.ring)); }
    forall t: Tid ensures R.PcOf(s'.ring.producers, t).Idle? || W.PcOf(s'.wake.threads, t).Quiet? {
      assert R.PcOf(s.ring.producers, t).Idle? || W.PcOf(s.wake.threads, t).Quiet?;
    }
  }

  /** Without failing pthread calls nobody notes a lifecycle error. */
  lemma ReliableNeverStops(out: O.State, enq: nat, deq: nat, o: O.Step)
    requires O.Enabled(out, o) && !LockFails(out, o)
    ensures O.Apply(out, enq, deq, o).errors.lifecycle == out.errors.lifecycle
  {
  }

  lemma OutStepShape(out: O.State, enq: nat, deq: nat, o: O.Step)
    requires O.Enabled(out, o) && !o.Collect?
    ensures var out' := O.Apply(out, enq, deq, o);
            && out'.ledger.base + O.BatchSize(out'.worker) == out.ledger.base + O.BatchSize(out.worker)
            && (out.worker.Draining? ==> out'.worker.Draining?)
            && (out'.worker.Draining? && !out.worker.Draining? ==> O.BatchSize(out.worker) == 0)
  {
  }

  lemma OutStepKeeps(s: State, o: O.Step)
    requires Inv(s) && Enabled(s, OutStep(o))
    ensures Inv(Apply(s, OutStep(o)))
  {
    O.StepKeeps(s.out, s.ring.enq, s.ring.deq, o);
    OutStepShape(s.out, s.ring.enq, s.ring.deq, o);
    if s.reliable { ReliableNeverStops(s.out, s.ring.enq, s.ring.deq, o); }
  }

  lemma StepKeeps(s: State, step: Step)
    requires Inv(s) && Enabled(s, step)
    ensures Inv(Apply(s, step))
  {
    match step
    case RingStep(r) => RingStepKeeps(s, r);
    case Publish(t) => PublishKeeps(s, t);
    case EndDrain => EndDrainKeeps(s);
    case WakeStep(w) => WakeStepKeeps(s, w);
    case OutStep(o) => OutStepKeeps(s, o);
  }

  /** A run takes one step of one thread at a time, in any order. */
  ghost predicate IsRun(states: seq<State>, steps: seq<Step>) {
    Chained(states, steps) && Init(states[0])
  }

  ghost predicate Chained(states: seq<State>, steps: seq<Step>) {
    |states| == |steps| + 1 && forall i :: 0 <= i < |steps| ==> StepAt(states, steps, i)
  }

  ghost predicate StepAt(states: seq<State>, steps: seq<Step>, i: nat)
    requires i < |steps| < |states|
  {
    R.Shape(states[i].ring) && Enabled(states[i], steps[i]) && states[i + 1] == Apply(states[i], steps[i])
  }

  lemma RunStep(states: seq<State>, steps: seq<Step>, i: nat)
    requires Chained(states, steps) && i < |steps|
    ensures R.Shape(states[i].ring) && Enabled(states[i], steps[i]) && states[i + 1] == Apply(states[i], steps[i])
  {
    assert StepAt(states, steps, i);
  }

  lemma InvStep(states: seq<State>, steps: seq<Step>, i: nat)
    requires i < |steps| < |states| && StepAt(states, steps, i) && Inv(states[i])
    ensures Inv(states[i + 1])
  {
    StepKeeps(states[i], steps[i]);
  }

  /** Every state of every run satisfies the invariant. */
  lemma {:induction false} RunInv(states: seq<State>, steps: seq<Step>, i: nat)
    requires IsRun(states, steps) && i < |states|
    ensures Inv(states[i])
  {
    if i == 0 {
      InitInv(states[0]);
    } else {
      RunInv(states, steps, i - 1);
      assert StepAt(states, steps, i - 1);
      InvStep(states, steps, i - 1);
    }
  }

  // ---- The promises, over every run ------------------------------------------------

  /** The worker receives exactly the messages of the first positions, in
      reservation order, each once and unharmed, however the threads interleave
      and however their copies tear. */
  lemma DeliveryInEveryRun(states: seq<State>, steps: seq<Step>, i: nat)
    requires IsRun(states, steps) && i < |states|
    ensures var ring := states[i].ring;
            && ring.deq <= |ring.received| <= |ring.sent|
            && forall p :: 0 <= p < |ring.received| ==>
                 R.Accepted(ring.sent[p]) && ring.received[p] == Expected(ring.sent[p])
  {
    RunInv(states, steps, i);
    R.DeliveredInOrder(states[i].ring);
  }

  /** What holds of the ring and its pool in every state of the ring machine, holds in
      every run: no slot and no block ever has two users. */
  lemma RingInEveryRun(states: seq<State>, steps: seq<Step>, i: nat, t: Tid, u: Tid, b: nat)
    requires IsRun(states, steps) && i < |states|
    ensures R.Inv(states[i].ring)
    ensures R.Writing(R.PcOf(states[i].ring.producers, t)) && R.Writing(R.PcOf(states[i].ring.producers, u)) && t != u ==>
              R.PcOf(states[i].ring.producers, t).pos % states[i].ring.cap != R.PcOf(states[i].ring.producers, u).pos % states[i].ring.cap
    ensures R.BlockOf(R.PcOf(states[i].ring.producers, t)) == Some(b) && R.BlockOf(R.PcOf(states[i].ring.producers, u)) == Some(b) ==> t == u
  {
    RunInv(states, steps, i);
    var ring := states[i].ring;
    if R.Writing(R.PcOf(ring.producers, t)) && R.Writing(R.PcOf(ring.producers, u)) && t != u {
      R.SlotsExclusive(ring, t, u);
    }
    if R.BlockOf(R.PcOf(ring.producers, t)) == Some(b) && R.BlockOf(R.PcOf(ring.producers, u)) == Some(b) && t != u {
      R.BlocksExclusive(ring, t, u, b);
    }
  }

  /** With pthread calls that succeed no wakeup is lost in any run: when the
      worker sleeps although its next record is published, or although it has been
      told to stop, at most five steps of threads that still owe the signal, or
      hold the mutex, wake it. */
  lemma NoLostWakeupInAnyRun(states: seq<State>, steps: seq<Step>, i: nat)
    returns (wakes: seq<W.Step>, last: W.State)
    requires IsRun(states, steps) && i < |states| && states[i].reliable && states[i].wake.sleeper.Blocked?
    requires R.Published(states[i].ring, states[i].ring.deq) || !states[i].wake.running
    ensures exists t: Tid :: W.Owing(W.PcOf(states[i].wake.threads, t))
    ensures |wakes| <= 5 && forall k :: 0 <= k < |wakes| ==> W.ByThread(wakes[k])
    ensures R.Shape(states[i].ring) && W.Leads(states[i].wake, Head(states[i].ring), wakes, last) && last.sleeper.Woken?
  {
    RunInv(states, steps, i);
    var s := states[i];
    HeadIsPublished(s.ring);
    W.NoLostWakeup(s.wake, Head(s.ring));
    wakes, last := W.WakeupComes(s.wake, Head(s.ring));
  }

  // ---- Flush calls -----------------------------------------------------------------

  /** Thread `t` is between its snapshot and its return from one call of `logger_flush`
      in all states after `i` up to `j`. */
  ghost predicate InFlush(states: seq<State>, t: Tid, i: nat, j: nat) {
    && i < j < |states|
    && AtSnapshot(states[i], t)
    && forall k :: i < k <= j ==> SnapshotOf(states[k], t).Some?
  }

  /** The snapshot of a client, once it has taken one. */
  function SnapshotOf(s: State, t: Tid): Option<nat> {
    O.TargetOf(O.PcOf(s.out.clients, t))
  }

  predicate AtSnapshot(s: State, t: Tid) {
    O.PcOf(s.out.clients, t).FlushSnapshot?
  }

  /** One step of any thread: a snapshot is `enqueue_pos`, and then it stays. */
  lemma SnapshotStep(s: State, step: Step, t: Tid)
    requires R.Shape(s.ring) && Enabled(s, step) && SnapshotOf(Apply(s, step), t).Some?
    ensures AtSnapshot(s, t) ==> SnapshotOf(Apply(s, step), t) == Some(s.ring.enq)
    ensures SnapshotOf(s, t).Some? ==> SnapshotOf(Apply(s, step), t) == SnapshotOf(s, t)
  {
    var pc := O.PcOf(s.out.clients, t);
    if step.OutStep? {
      if O.Moves(step.o, t) {
        if step.o.ClientOp? && SnapshotOf(s, t).Some? { O.TargetStays(s.out, s.ring.enq, pc, step.o.error); }
      } else {
        O.OthersStay(s.out, s.ring.enq, s.ring.deq, step.o, t);
      }
    }
  }

  lemma FlushedStep(s: State, step: Step)
    requires R.Shape(s.ring) && Enabled(s, step)
    ensures s.out.flushed <= Apply(s, step).out.flushed && Apply(s, step).out.outputs == s.out.outputs
  {
    if step.OutStep? { O.FlushedGrows(s.out, s.ring.enq, s.ring.deq, step.o); }
  }

  lemma SnapshotAt(states: seq<State>, steps: seq<Step>, t: Tid, k: nat)
    requires Chained(states, steps) && k < |steps| && SnapshotOf(states[k + 1], t).Some?
    ensures AtSnapshot(states[k], t) ==> SnapshotOf(states[k + 1], t) == Some(states[k].ring.enq)
    ensures SnapshotOf(states[k], t).Some? ==> SnapshotOf(states[k + 1], t) == SnapshotOf(states[k], t)
  {
    RunStep(states, steps, k);
    SnapshotStep(states[k], steps[k], t);
  }

  /** A flush takes `enqueue_pos` as its target at its snapshot, and no step of any
      thread changes the target within the call. */
  lemma {:induction false} FlushKeepsSnapshot(states: seq<State>, steps: seq<Step>, t: Tid, i: nat, j: nat)
    requires Chained(states, steps) && InFlush(states, t, i, j)
    ensures SnapshotOf(states[j], t) == Some(states[i].ring.enq)
  {
    if i + 1 < j { FlushKeepsSnapshot(states, steps, t, i, j - 1); }
    SnapshotAt(states, steps, t, j - 1);
  }

  lemma {:induction false} FlushedStays(states: seq<State>, steps: seq<Step>, j: nat, m: nat)
    requires Chained(states, steps) && j <= m < |states|
    ensures states[j].out.flushed <= states[m].out.flushed && states[j].out.outputs == states[m].out.outputs
  {
    if j < m {
      FlushedStays(states, steps, j, m - 1);
      RunStep(states, steps, m - 1);
      FlushedStep(states[m - 1], steps[m - 1]);
    }
  }

  /** A flush that returns 0 adds its snapshot to the history. */
  lemma FlushEnds(s: State, step: Step, t: Tid)
    requires R.Shape(s.ring) && Enabled(s, step) && step.OutStep? && step.o.ClientOp? && step.o.t == t
    requires O.PcOf(s.out.clients, t).FlushEnd? && O.PcOf(s.out.clients, t).ok
    ensures O.PcOf(s.out.clients, t).target in Apply(s, step).out.flushed
  {
  }

  /** A flush that returns 0 is a barrier, whatever fails around it. Thread `t` looks at
      `enqueue_pos` in step `i` and returns 0 from that call in step `j`: from then on
      every position reserved before the look was popped as expected, reached every
      selected sink, and is not marked failed. */
  lemma FlushIsBarrierInEveryRun(states: seq<State>, steps: seq<Step>, t: Tid, i: nat, j: nat, m: nat, p: nat, k: O.Sink)
    requires IsRun(states, steps) && InFlush(states, t, i, j) && j < m < |states|
    requires steps[j].OutStep? && steps[j].o.ClientOp? && steps[j].o.t == t
    requires O.PcOf(states[j].out.clients, t).FlushEnd? && O.PcOf(states[j].out.clients, t).ok
    requires p < states[i].ring.enq && k in states[m].out.outputs
    ensures var s := states[m];
            && p < |s.ring.received| <= |s.ring.sent| && R.Accepted(s.ring.sent[p])
            && s.ring.received[p] == Expected(s.ring.sent[p])
            && p in O.HandedTo(s.out.ledger.handed, k) && p !in s.out.ledger.bad
  {
    FlushKeepsSnapshot(states, steps, t, i, j);
    RunStep(states, steps, j);
    FlushEnds(states[j], steps[j], t);
    FlushedStays(states, steps, j + 1, m);
    RunInv(states, steps, m);
    var s := states[m];
    O.FlushIsBarrier(s.out, states[i].ring.enq, p, k);
    O.GoodIsGathered(s.out, p);
    R.DeliveredInOrder(s.ring);
  }

  // ---- Direct emissions ------------------------------------------------------------

  predicate ByClient(step: Step, t: Tid) {
    step.OutStep? && O.Moves(step.o, t)
  }

  /** What the steps of thread `t` between two states add to a public counter. */
  ghost function CountedBy(states: seq<State>, steps: seq<Step>, t: Tid, i: nat, k: nat, ok: bool): int
    requires k < |states| && k <= |steps|
  {
    if k <= i then 0
    else
      CountedBy(states, steps, t, i, k - 1, ok) +
      (if ByClient(steps[k - 1], t)
       then O.Counter(states[k].out.counts, ok) - O.Counter(states[k - 1].out.counts, ok) else 0)
  }

  ghost function ClientAt(states: seq<State>, t: Tid, k: nat): O.Client
    requires k < |states|
  {
    O.PcOf(states[k].out.clients, t)
  }

  /** Thread `t` begins a direct emission in step `i` and is in that call in all states
      after it up to `k`. */
  ghost predicate InDirect(states: seq<State>, steps: seq<Step>, t: Tid, strict: bool, i: nat, k: nat) {
    && i < k < |states| == |steps| + 1 && steps[i] == OutStep(O.BeginDirect(t, strict))
    && forall m :: i < m <= k ==> O.IsDirect(ClientAt(states, t, m))
  }

  lemma DirectStep(states: seq<State>, steps: seq<Step>, t: Tid, k: nat)
    requires Chained(states, steps) && k < |steps| && O.IsDirect(ClientAt(states, t, k))
    ensures ByClient(steps[k], t) ==> steps[k].o.ClientOp?
    ensures var pc, next := ClientAt(states, t, k), ClientAt(states, t, k + 1);
            var c, c' := states[k].out.counts, states[k + 1].out.counts;
            if ByClient(steps[k], t) then
              && (next.Idle? || (O.IsDirect(next) && !next.DirectFormat?))
              && (next.Idle? <==> pc.DirectDone? || (pc == O.DirectFormat(true) && steps[k].o.error != 0))
              && O.Counter(c', true) >= O.Counter(c, true) && O.Counter(c', false) >= O.Counter(c, false)
              && O.Counter(c', true) + O.Counter(c', false) ==
                 O.Counter(c, true) + O.Counter(c, false) + (if next.DirectDone? then 1 else 0)
            else next == pc
  {
    var s := states[k];
    assert StepAt(states, steps, k);
    if ByClient(steps[k], t) {
      O.DirectCountsOnce(s.out, s.ring.enq, t, steps[k].o.error);
    } else if steps[k].OutStep? {
      O.OthersStay(s.out, s.ring.enq, s.ring.deq, steps[k].o, t);
    }
  }

  lemma DirectBegins(states: seq<State>, steps: seq<Step>, t: Tid, strict: bool, i: nat)
    requires Chained(states, steps) && i < |steps| && steps[i] == OutStep(O.BeginDirect(t, strict))
    ensures ClientAt(states, t, i + 1) == O.DirectFormat(strict)
    ensures forall ok :: O.Counter(states[i + 1].out.counts, ok) == O.Counter(states[i].out.counts, ok)
  {
    assert StepAt(states, steps, i);
  }

  /** Within the call the thread has counted its record exactly when it is at its end. */
  lemma {:induction false} DirectSoFar(states: seq<State>, steps: seq<Step>, t: Tid, strict: bool, i: nat, k: nat)
    requires Chained(states, steps) && InDirect(states, steps, t, strict, i, k)
    ensures CountedBy(states, steps, t, i, k, true) >= 0 && CountedBy(states, steps, t, i, k, false) >= 0
    ensures CountedBy(states, steps, t, i, k, true) + CountedBy(states, steps, t, i, k, false) ==
              if ClientAt(states, t, k).DirectDone? then 1 else 0
    ensures ClientAt(states, t, k).DirectFormat? ==> ClientAt(states, t, k) == O.DirectFormat(strict)
  {
    if k == i + 1 {
      DirectBegins(states, steps, t, strict, i);
    } else {
      DirectSoFar(states, steps, t, strict, i, k - 1);
      DirectStep(states, steps, t, k - 1);
    }
  }

  /** Over a whole call of a direct emission, from its beginning in step `i` to its end in
      step `j`, the thread adds one to exactly one of the two public counters; only a
      strict record that the formatter rejects ends the call uncounted. */
  lemma DirectCallCountsOnce(states: seq<State>, steps: seq<Step>, t: Tid, strict: bool, i: nat, j: nat)
    requires IsRun(states, steps) && InDirect(states, steps, t, strict, i, j) && j < |steps|
    requires ClientAt(states, t, j + 1).Idle?
    ensures CountedBy(states, steps, t, i, j + 1, true) >= 0 && CountedBy(states, steps, t, i, j + 1, false) >= 0
    ensures ByClient(steps[j], t) && steps[j].o.ClientOp?
    ensures var rejected := strict && ClientAt(states, t, j).DirectFormat? && steps[j].o.error != 0;
            CountedBy(states, steps, t, i, j + 1, true) + CountedBy(states, steps, t, i, j + 1, false) == if rejected then 0 else 1
  {
    DirectSoFar(states, steps, t, strict, i, j);
    DirectStep(states, steps, t, j);
  }

  /** Every accepted record ends in exactly one of the two public counters, and
      the completion counters never run ahead of them. */
  lemma AccountsInEveryRun(states: seq<State>, steps: seq<Step>, i: nat)
    requires IsRun(states, steps) && i < |states|
    ensures var c, l := states[i].out.counts, states[i].out.ledger;
            && c.emitted + c.failed >= c.asyncCompleted + c.syncCompleted
            && (!O.Counted(states[i].out.worker) && O.Finishing(states[i].out.clients) == {} ==>
                  c.emitted + c.failed == c.asyncCompleted + c.syncCompleted)
            && c.emitted == |l.good| + c.directOk && c.failed == |l.bad| + c.directBad
            && l.good !! l.bad && c.asyncCompleted == l.base <= |states[i].ring.received|
  {
    RunInv(states, steps, i);
    O.AccountsConserved(states[i].out);
  }

  /** A publication is never stuck on the wakeup side. */
  lemma PublishNeverStuck(states: seq<State>, steps: seq<Step>, i: nat, t: Tid)
    requires IsRun(states, steps) && i < |states| && R.PcOf(states[i].ring.producers, t).Packed?
    ensures R.Shape(states[i].ring) && Enabled(states[i], Publish(t))
  {
    RunInv(states, steps, i);
    assert R.PcOf(states[i].ring.producers, t).Idle? || W.PcOf(states[i].wake.threads, t).Quiet?;
  }

  lemma HeadIsPublished(ring: R.State)
    requires R.Inv(ring)
    ensures Head(ring) ==> ring.deq < ring.enq && ring.deq !in ring.writer
    ensures !ring.consumer.Advancing? && ring.deq < ring.enq && ring.deq !in ring.writer ==> Head(ring)
  {
    if ring.consumer.Advancing? {
      assert ring.deq < ring.enq;
    }
  }
}
