/** What happens to a record after it left the ring: batches of the worker, direct
    emissions, completion, flush, and the counters. Any lock operation and any
    output may fail. Positions are those of the ring. */
module Output {
  import opened Options
  import Bits

  type Tid = nat

  datatype Sink = Stderr | File | Syslog

  const SINKS: seq<Sink> := [Stderr, File, Syslog]

  datatype Party = Nobody | HeldByWorker | HeldBy(t: Tid)

  /** Where the worker stands in `logger_worker_main` and `emit_batch`. A batch has
      `n` records; `failed` are the positions marked unconfirmed. */
  datatype Worker =
    | Draining
    | Formatting(n: nat)
    | NotingFormat(n: nat)
    | LockingEmit(n: nat)
    | NotingLock(n: nat)
    | Emitting(n: nat, next: nat, failed: set<nat>)
    | NotingSink(n: nat, next: nat, failed: set<nat>)
    | UnlockingEmit(n: nat, failed: set<nat>)
    | NotingUnlock(n: nat)
    | AddingFailed(n: nat, failed: set<nat>)
    | AddingEmitted(n: nat, failed: set<nat>)
    | AddingCompleted(n: nat)
    | CheckingSync
    | LockingProgress
    | Completing
    | UnlockingProgress
    | Broken

  /** A thread in `logger_flush`, or in `logger_emit_status`. */
  datatype Client =
    | Idle
    | FlushStart
    | FlushSnapshot
    | FlushLock(target: nat)
    | FlushLifecycle(target: nat)
    | FlushPosition(target: nat)
    | FlushWaiting(target: nat)
    | FlushUnlock(target: nat, ok: bool)
    | FlushFirst(target: nat)
    | FlushCheck(target: nat, ok: bool)
    | FlushEmitLock(target: nat, ok: bool)
    | FlushSync(target: nat, ok: bool)
    | FlushNote(target: nat, ok: bool)
    | FlushFirstAgain(target: nat, ok: bool)
    | FlushEmitUnlock(target: nat, ok: bool)
    | FlushEnd(target: nat, ok: bool)
    | DirectFormat(strict: bool)
    | DirectCheck
    | DirectLock
    | DirectOut
    | DirectUnlock(ok: bool)
    | DirectNote
    | DirectFailed
    | DirectEmitted
    | DirectDone

  /** The sticky error fields; zero means no error. */
  datatype Errors = Errors(first: nat, lifecycle: nat, sync: nat)

  datatype Locks = Locks(emit: Party, progress: Party)

  /** The public counters; `directOk` and `directBad` are history. */
  datatype Counts = Counts(emitted: nat, failed: nat, asyncCompleted: nat, syncCompleted: nat,
                           directOk: nat, directBad: nat)

  /** History of the accounted positions: `base` counts them, `good` and `bad`
      split them, `handed` says which records each sink confirmed. */
  datatype Ledger = Ledger(base: nat, good: set<nat>, bad: set<nat>, handed: map<Sink, set<nat>>)

  /** `flushed` collects the snapshots of the flushes that returned 0. */
  datatype State = State(
    outputs: set<Sink>, worker: Worker, clients: map<Tid, Client>,
    errors: Errors, locks: Locks, completed: nat, counts: Counts,
    ledger: Ledger, flushed: set<nat>)

  datatype Step =
    // worker; `error` is the errno of a failure, 0 for success
    | Collect(n: nat)
    | Format(error: nat)
    | NoteFormat(e: nat)
    | LockEmit(error: nat)
    | NoteLock(e: nat)
    | Emit(failing: set<nat>)
    | NoteSink(e: nat)
    | UnlockEmit(error: nat)
    | NoteUnlock(e: nat)
    | AddFailed | AddEmitted | AddCompleted
    | CheckSync
    | LockProgress(error: nat)
    | Complete
    | UnlockProgress(error: nat)
    // clients
    | BeginFlush(t: Tid)
    | BeginDirect(t: Tid, strict: bool)
    | ClientOp(t: Tid, error: nat)
    // a failure noted from elsewhere
    | Fault(error: nat)

  function PcOf(clients: map<Tid, Client>, t: Tid): Client {
    if t in clients then clients[t] else Idle
  }

  /** `compare_exchange(&field, 0, error)`: the first error sticks. */
  function Note(was: nat, error: nat): nat {
    if was == 0 then error else was
  }

  function NoteIo(e: Errors, error: nat): Errors {
    e.(first := Note(e.first, error))
  }

  function NoteLifecycle(e: Errors, error: nat): Errors {
    e.(lifecycle := Note(e.lifecycle, error))
  }

  /** `logger_note_synchronization_error` also notes a lifecycle error. */
  function NoteSync(e: Errors, error: nat): Errors {
    NoteLifecycle(e.(sync := Note(e.sync, error)), error)
  }

  function Range(lo: nat, hi: nat): (r: set<nat>)
    ensures forall p :: p in r <==> lo <= p < hi
    decreases hi
  {
    if hi <= lo then {} else Range(lo, hi - 1) + {hi - 1}
  }

  lemma {:induction false} RangeSize(lo: nat, hi: nat)
    requires lo <= hi
    ensures |Range(lo, hi)| == hi - lo
    decreases hi
  {
    if lo < hi { RangeSize(lo, hi - 1); }
  }

  function Batch(s: State, n: nat): set<nat> {
    Range(s.ledger.base, s.ledger.base + n)
  }

  function HandedTo(handed: map<Sink, set<nat>>, k: Sink): set<nat> {
    if k in handed then handed[k] else {}
  }

  /** A failed write of the whole batch leaves every record unconfirmed; syslog
      answers record by record. */
  function Marks(s: State, k: Sink, n: nat, failing: set<nat>): set<nat> {
    if k.Syslog? then failing * Batch(s, n) else if failing == {} then {} else Batch(s, n)
  }

  predicate Enabled(s: State, step: Step) {
    match step
    case Collect(n) => s.worker.Draining? && n > 0
    case Format(_) => s.worker.Formatting?
    case NoteFormat(e) => s.worker.NotingFormat? && e > 0
    case LockEmit(error) => s.worker.LockingEmit? && (error == 0 ==> s.locks.emit.Nobody?)
    case NoteLock(e) => s.worker.NotingLock? && e > 0
    case Emit(_) => s.worker.Emitting?
    case NoteSink(e) => s.worker.NotingSink? && e > 0
    case UnlockEmit(_) => s.worker.UnlockingEmit?
    case NoteUnlock(e) => s.worker.NotingUnlock? && e > 0
    case AddFailed => s.worker.AddingFailed?
    case AddEmitted => s.worker.AddingEmitted?
    case AddCompleted => s.worker.AddingCompleted?
    case CheckSync => s.worker.CheckingSync?
    case LockProgress(error) => s.worker.LockingProgress? && (error == 0 ==> s.locks.progress.Nobody?)
    case Complete => s.worker.Completing?
    case UnlockProgress(_) => s.worker.UnlockingProgress?
    case BeginFlush(t) => PcOf(s.clients, t).Idle?
    case BeginDirect(t, _) => PcOf(s.clients, t).Idle?
    case ClientOp(t, error) =>
      var pc := PcOf(s.clients, t);
      && !pc.Idle?
      && (pc.FlushLock? && error == 0 ==> s.locks.progress.Nobody?)
      && (pc.FlushWaiting? ==> s.locks.progress.Nobody?)
      && ((pc.FlushEmitLock? || pc.DirectLock?) && error == 0 ==> s.locks.emit.Nobody?)
      && (pc.FlushNote? || pc.DirectNote? ==> error > 0)
    case Fault(error) => error > 0
  }

  /** One step; `enq` and `deq` are the counters of the ring. */
  function Apply(s: State, enq: nat, deq: nat, step: Step): State
    requires Enabled(s, step)
  {
    match step
    case BeginFlush(t) => s.(clients := s.clients[t := FlushStart])
    case BeginDirect(t, strict) => s.(clients := s.clients[t := DirectFormat(strict)])
    case ClientOp(t, error) => ClientStep(s, enq, t, error)
    case Fault(error) => s.(errors := NoteLifecycle(s.errors, error))
    case _ => WorkerStep(s, deq, step)
  }

  predicate ByWorker(step: Step) {
    !step.BeginFlush? && !step.BeginDirect? && !step.ClientOp? && !step.Fault?
  }

  /** The batch minus the marked records is confirmed. */
  function CountEmitted(s: State, n: nat, failed: set<nat>): State {
    var rest := Range(s.ledger.base, s.ledger.base + n) - failed;
    s.(counts := s.counts.(emitted := s.counts.emitted + |rest|),
       ledger := s.ledger.(good := s.ledger.good + rest),
       worker := AddingCompleted(n))
  }

  function WorkerStep(s: State, deq: nat, step: Step): State
    requires Enabled(s, step) && ByWorker(step)
  {
    var w := s.worker;
    match step
    case Collect(n) => s.(worker := Formatting(n))
    case Format(error) => s.(worker := if error > 0 then NotingFormat(w.n) else LockingEmit(w.n))
    case NoteFormat(e) => s.(errors := NoteIo(s.errors, e), worker := AddingFailed(w.n, Batch(s, w.n)))
    case LockEmit(error) =>
      if error > 0 then s.(worker := NotingLock(w.n))
      else s.(worker := Emitting(w.n, 0, {}), locks := s.locks.(emit := HeldByWorker))
    case NoteLock(e) =>
      s.(errors := NoteLifecycle(NoteIo(s.errors, e), e), worker := AddingFailed(w.n, Batch(s, w.n)))
    case Emit(failing) =>
      if w.next >= |SINKS| then s.(worker := UnlockingEmit(w.n, w.failed))
      else if SINKS[w.next] !in s.outputs then s.(worker := Emitting(w.n, w.next + 1, w.failed))
      else
        var k := SINKS[w.next];
        var marks := Marks(s, k, w.n, failing);
        var handed := s.ledger.handed[k := HandedTo(s.ledger.handed, k) + (Batch(s, w.n) - marks)];
        s.(ledger := s.ledger.(handed := handed),
           worker := if marks == {} then Emitting(w.n, w.next + 1, w.failed)
                     else NotingSink(w.n, w.next + 1, w.failed + marks))
    case NoteSink(e) => s.(errors := NoteIo(s.errors, e), worker := Emitting(w.n, w.next, w.failed))
    case UnlockEmit(error) =>
      if error > 0 then s.(worker := NotingUnlock(w.n))
      else s.(worker := AddingFailed(w.n, w.failed), locks := s.locks.(emit := Nobody))
    case NoteUnlock(e) =>
      s.(errors := NoteSync(NoteIo(s.errors, e), e), worker := AddingFailed(w.n, Batch(s, w.n)))
    case AddFailed =>
      s.(counts := s.counts.(failed := s.counts.failed + |w.failed|),
         ledger := s.ledger.(bad := s.ledger.bad + w.failed), worker := AddingEmitted(w.n, w.failed))
    case AddEmitted => CountEmitted(s, w.n, w.failed)
    case AddCompleted =>
      s.(counts := s.counts.(asyncCompleted := s.counts.asyncCompleted + w.n),
         ledger := s.ledger.(base := s.ledger.base + w.n), worker := CheckingSync)
    case CheckSync => s.(worker := if s.errors.sync != 0 then Broken else LockingProgress)
    case LockProgress(error) =>
      if error > 0 then s.(worker := Draining, errors := NoteLifecycle(s.errors, error))
      else s.(worker := Completing, locks := s.locks.(progress := HeldByWorker))
    case Complete => s.(completed := deq, worker := UnlockingProgress)
    case UnlockProgress(error) =>
      if error > 0 then s.(errors := NoteSync(s.errors, error), worker := Broken)
      else s.(worker := Draining, locks := s.locks.(progress := Nobody))
  }

  /** The next pc of a client; `error` is what the current operation returns. */
  function NextPc(s: State, enq: nat, pc: Client, error: nat): Client {
    match pc
    case Idle => Idle
    case FlushStart => if s.errors.sync != 0 then FlushCheck(0, false) else FlushSnapshot
    case FlushSnapshot => FlushLock(enq)
    case FlushLock(target) => if error > 0 then FlushCheck(target, false) else FlushLifecycle(target)
    case FlushLifecycle(target) => if s.errors.lifecycle != 0 then FlushUnlock(target, false) else FlushPosition(target)
    case FlushPosition(target) => if target <= s.completed then FlushUnlock(target, true) else FlushWaiting(target)
    case FlushWaiting(target) => if error > 0 then FlushUnlock(target, false) else FlushLifecycle(target)
    case FlushUnlock(target, ok) => if ok && error == 0 then FlushFirst(target) else FlushCheck(target, false)
    case FlushFirst(target) => FlushCheck(target, s.errors.first == 0)
    case FlushCheck(target, ok) => if s.errors.sync != 0 then FlushEnd(target, false) else FlushEmitLock(target, ok)
    case FlushEmitLock(target, ok) => if error > 0 then FlushEnd(target, false) else FlushSync(target, ok)
    case FlushSync(target, ok) =>
      if File in s.outputs && error > 0 then FlushNote(target, ok) else FlushFirstAgain(target, ok)
    case FlushNote(target, ok) => FlushFirstAgain(target, ok)
    case FlushFirstAgain(target, ok) => FlushEmitUnlock(target, ok && s.errors.first == 0)
    case FlushEmitUnlock(target, ok) => FlushEnd(target, ok && error == 0)
    case FlushEnd(target, ok) => Idle
    case DirectFormat(strict) => if error == 0 then DirectCheck else if strict then Idle else DirectNote
    case DirectCheck => if s.errors.sync != 0 then DirectNote else DirectLock
    case DirectLock => if error > 0 then DirectNote else DirectOut
    case DirectOut => DirectUnlock(error == 0)
    case DirectUnlock(ok) => if ok && error == 0 then DirectEmitted else DirectNote
    case DirectNote => DirectFailed
    case DirectFailed => DirectDone
    case DirectEmitted => DirectDone
    case DirectDone => Idle
  }

  /** What a client's operation notes, locks and counts. */
  function ErrorsAfter(e: Errors, pc: Client, error: nat): Errors {
    if pc.FlushNote? || pc.DirectNote? then NoteIo(e, error)
    else if (pc.FlushUnlock? || pc.FlushEmitUnlock? || pc.DirectUnlock?) && error > 0 then NoteSync(e, error)
    else e
  }

  function LocksAfter(l: Locks, pc: Client, next: Client, t: Tid, error: nat): Locks {
    if pc.FlushLock? && error == 0 then l.(progress := HeldBy(t))
    else if pc.FlushPosition? && next.FlushWaiting? then l.(progress := Nobody)
    else if pc.FlushWaiting? then l.(progress := HeldBy(t))
    else if pc.FlushUnlock? && error == 0 then l.(progress := Nobody)
    else if (pc.FlushEmitLock? || pc.DirectLock?) && error == 0 then l.(emit := HeldBy(t))
    else if (pc.FlushEmitUnlock? || pc.DirectUnlock?) && error == 0 then l.(emit := Nobody)
    else l
  }

  function CountsAfter(c: Counts, pc: Client): Counts {
    match pc
    case DirectFailed => c.(failed := c.failed + 1, directBad := c.directBad + 1)
    case DirectEmitted => c.(emitted := c.emitted + 1, directOk := c.directOk + 1)
    case DirectDone => c.(syncCompleted := c.syncCompleted + 1)
    case _ => c
  }

  function ClientStep(s: State, enq: nat, t: Tid, error: nat): State {
    var pc := PcOf(s.clients, t);
    var next := NextPc(s, enq, pc, error);
    s.(clients := s.clients[t := next],
       errors := ErrorsAfter(s.errors, pc, error),
       locks := LocksAfter(s.locks, pc, next, t, error),
       counts := CountsAfter(s.counts, pc),
       flushed := if pc.FlushEnd? && pc.ok then s.flushed + {pc.target} else s.flushed)
  }

  // ---- The invariant ----------------------------------------------------------

  /** Records of the batch in work; 0 while draining. */
  function BatchSize(w: Worker): nat {
    match w
    case Formatting(n) => n
    case NotingFormat(n) => n
    case LockingEmit(n) => n
    case NotingLock(n) => n
    case Emitting(n, _, _) => n
    case NotingSink(n, _, _) => n
    case UnlockingEmit(n, _) => n
    case NotingUnlock(n) => n
    case AddingFailed(n, _) => n
    case AddingEmitted(n, _) => n
    case AddingCompleted(n) => n
    case _ => 0
  }

  /** The first `k` sinks, where selected, confirmed position `p`. */
  ghost predicate ConfirmedBy(outputs: set<Sink>, handed: map<Sink, set<nat>>, p: nat, k: nat)
    requires k <= |SINKS|
  {
    forall i :: 0 <= i < k && SINKS[i] in outputs ==> p in HandedTo(handed, SINKS[i])
  }

  /** Every record of the batch is confirmed by the first `k` selected sinks, or
      marked. */
  ghost predicate Handled(outputs: set<Sink>, l: Ledger, n: nat, failed: set<nat>, k: nat)
    requires k <= |SINKS|
  {
    && failed <= Range(l.base, l.base + n)
    && forall p {:trigger ConfirmedBy(outputs, l.handed, p, k)} ::
         l.base <= p < l.base + n && p !in failed ==> ConfirmedBy(outputs, l.handed, p, k)
  }

  ghost predicate WorkerOk(outputs: set<Sink>, w: Worker, l: Ledger, first: nat) {
    match w
    case Emitting(n, next, failed) =>
      next <= |SINKS| && Handled(outputs, l, n, failed, next) && (failed != {} ==> first != 0)
    case NotingSink(n, next, failed) => next <= |SINKS| && Handled(outputs, l, n, failed, next)
    case UnlockingEmit(n, failed) => Handled(outputs, l, n, failed, |SINKS|) && (failed != {} ==> first != 0)
    case AddingFailed(n, failed) => Handled(outputs, l, n, failed, |SINKS|) && (failed != {} ==> first != 0)
    case AddingEmitted(n, failed) => Handled(outputs, l, n, failed, |SINKS|) && failed <= l.bad
    case _ => true
  }

  ghost predicate Confirmed(outputs: set<Sink>, l: Ledger) {
    forall p, k {:trigger p in l.good, k in outputs} :: p in l.good && k in outputs ==> p in HandedTo(l.handed, k)
  }

  /** Position `p` has been put on one side of the ledger. */
  predicate Accounted(w: Worker, base: nat, p: nat) {
    || p < base
    || (w.AddingEmitted? && p in w.failed)
    || (w.AddingCompleted? && p < base + w.n)
  }

  ghost predicate Split(w: Worker, l: Ledger) {
    forall p: nat {:trigger p in l.good} {:trigger p in l.bad} ::
      if Accounted(w, l.base, p) then (p in l.good) != (p in l.bad) else p !in l.good && p !in l.bad
  }

  ghost predicate LedgerOk(outputs: set<Sink>, w: Worker, l: Ledger, completed: nat, first: nat) {
    && completed <= l.base
    && (l.bad != {} ==> first != 0)
    && Confirmed(outputs, l)
    && Split(w, l)
  }

  /** Every position below the snapshot is confirmed. */
  ghost predicate Covers(good: set<nat>, target: nat) {
    forall p: nat {:trigger p in good} :: p < target ==> p in good
  }

  /** A flush that has not failed so far is past its snapshot. */
  ghost predicate ClientOk(l: Ledger, c: Client) {
    match c
    case FlushUnlock(target, ok) => ok ==> target <= l.base
    case FlushFirst(target) => target <= l.base
    case FlushCheck(target, ok) => ok ==> Covers(l.good, target)
    case FlushEmitLock(target, ok) => ok ==> Covers(l.good, target)
    case FlushSync(target, ok) => ok ==> Covers(l.good, target)
    case FlushNote(target, ok) => ok ==> Covers(l.good, target)
    case FlushFirstAgain(target, ok) => ok ==> Covers(l.good, target)
    case FlushEmitUnlock(target, ok) => ok ==> Covers(l.good, target)
    case FlushEnd(target, ok) => ok ==> Covers(l.good, target)
    case _ => true
  }

  ghost predicate Clients(clients: map<Tid, Client>, flushed: set<nat>, l: Ledger) {
    && (forall t: Tid :: ClientOk(l, PcOf(clients, t)))
    && (forall target :: target in flushed ==> Covers(l.good, target))
  }

  /** Direct emissions that are counted but not yet completed. */
  function Finishing(clients: map<Tid, Client>): set<Tid> {
    set t | t in clients && clients[t].DirectDone?
  }

  ghost predicate Counters(c: Counts, l: Ledger, finishing: nat) {
    && c.failed == |l.bad| + c.directBad
    && c.emitted == |l.good| + c.directOk
    && c.asyncCompleted == l.base
    && c.syncCompleted + finishing == c.directOk + c.directBad
  }

  ghost predicate Inv(s: State) {
    && WorkerOk(s.outputs, s.worker, s.ledger, s.errors.first)
    && LedgerOk(s.outputs, s.worker, s.ledger, s.completed, s.errors.first)
    && Clients(s.clients, s.flushed, s.ledger)
    && Counters(s.counts, s.ledger, |Finishing(s.clients)|)
  }

  function Initial(outputs: set<Sink>): State {
    State(outputs, Draining, map[], Errors(0, 0, 0), Locks(Nobody, Nobody), 0, Counts(0, 0, 0, 0, 0, 0),
          Ledger(0, {}, {}, map[]), {})
  }

  lemma InitialInv(outputs: set<Sink>)
    ensures Inv(Initial(outputs))
  {
    assert Finishing(map[]) == {};
  }

  // ---- Worker steps -------------------------------------------------------------

  /** Everything a client remembers survives while `base` and `good` only grow. */
  lemma ClientsKeep(clients: map<Tid, Client>, flushed: set<nat>, l: Ledger, l': Ledger)
    requires Clients(clients, flushed, l) && l.base <= l'.base && l.good <= l'.good
    ensures Clients(clients, flushed, l')
  {
    forall t: Tid ensures ClientOk(l', PcOf(clients, t)) {
      assert ClientOk(l, PcOf(clients, t));
    }
  }

  lemma HandedGrows(handed: map<Sink, set<nat>>, k: Sink, more: set<nat>)
    ensures var handed' := handed[k := HandedTo(handed, k) + more];
            && (forall j :: HandedTo(handed, j) <= HandedTo(handed', j)) && more <= HandedTo(handed', k)
  {
  }

  lemma EmitKeeps(s: State, deq: nat, failing: set<nat>)
    requires Inv(s) && s.worker.Emitting? && s.worker.next < |SINKS| && SINKS[s.worker.next] in s.outputs
    ensures Inv(WorkerStep(s, deq, Emit(failing)))
  {
    var w, s' := s.worker, WorkerStep(s, deq, Emit(failing));
    var k := SINKS[w.next];
    HandedGrows(s.ledger.handed, k, Batch(s, w.n) - Marks(s, k, w.n, failing));
    ClientsKeep(s.clients, s.flushed, s.ledger, s'.ledger);
    var failed' := s'.worker.failed;
    forall p | s.ledger.base <= p < s.ledger.base + w.n && p !in failed'
      ensures ConfirmedBy(s.outputs, s'.ledger.handed, p, w.next + 1)
    {
      assert ConfirmedBy(s.outputs, s.ledger.handed, p, w.next);
    }
    assert Handled(s'.outputs, s'.ledger, w.n, failed', w.next + 1);
    assert Confirmed(s'.outputs, s'.ledger);
  }

  lemma AddFailedKeeps(s: State, deq: nat)
    requires Inv(s) && s.worker.AddingFailed?
    ensures Inv(WorkerStep(s, deq, AddFailed))
  {
    var w, s' := s.worker, WorkerStep(s, deq, AddFailed);
    ClientsKeep(s.clients, s.flushed, s.ledger, s'.ledger);
    assert s.ledger.bad !! w.failed by {
      forall p | p in w.failed ensures p !in s.ledger.bad {}
    }
    assert |s.ledger.bad + w.failed| == |s.ledger.bad| + |w.failed|;
  }

  lemma RestConfirmed(outputs: set<Sink>, l: Ledger, n: nat, failed: set<nat>, p: nat, k: Sink)
    requires Handled(outputs, l, n, failed, |SINKS|)
    requires l.base <= p < l.base + n && p !in failed && k in outputs
    ensures p in HandedTo(l.handed, k)
  {
    var i := if k.Stderr? then 0 else if k.File? then 1 else 2;
    assert ConfirmedBy(outputs, l.handed, p, |SINKS|);
    assert SINKS[i] == k;
  }

  lemma RestSplits(l: Ledger, n: nat, failed: set<nat>)
    requires Split(AddingEmitted(n, failed), l) && failed <= l.bad && failed <= Range(l.base, l.base + n)
    ensures var rest := Range(l.base, l.base + n) - failed;
            Split(AddingCompleted(n), l.(good := l.good + rest)) && |l.good + rest| == |l.good| + |rest|
  {
    var rest := Range(l.base, l.base + n) - failed;
    assert l.good !! rest by {
      forall p | p in rest ensures p !in l.good {}
    }
  }

  lemma AddEmittedConfirms(outputs: set<Sink>, l: Ledger, n: nat, failed: set<nat>)
    requires Handled(outputs, l, n, failed, |SINKS|) && Confirmed(outputs, l)
    ensures Confirmed(outputs, l.(good := l.good + (Range(l.base, l.base + n) - failed)))
  {
    var l' := l.(good := l.good + (Range(l.base, l.base + n) - failed));
    forall p, k | p in l'.good && k in outputs ensures p in HandedTo(l'.handed, k) {
      if p !in l.good { RestConfirmed(outputs, l, n, failed, p, k); }
    }
  }

  lemma AddEmittedLedger(outputs: set<Sink>, l: Ledger, n: nat, failed: set<nat>, completed: nat, first: nat)
    requires WorkerOk(outputs, AddingEmitted(n, failed), l, first)
    requires LedgerOk(outputs, AddingEmitted(n, failed), l, completed, first)
    ensures var rest := Range(l.base, l.base + n) - failed;
            && LedgerOk(outputs, AddingCompleted(n), l.(good := l.good + rest), completed, first)
            && |l.good + rest| == |l.good| + |rest|
  {
    RestSplits(l, n, failed);
    AddEmittedConfirms(outputs, l, n, failed);
  }

  lemma CountEmittedClients(s: State, n: nat, failed: set<nat>)
    requires Clients(s.clients, s.flushed, s.ledger)
    ensures Clients(s.clients, s.flushed, CountEmitted(s, n, failed).ledger)
  {
    ClientsKeep(s.clients, s.flushed, s.ledger, CountEmitted(s, n, failed).ledger);
  }

  lemma CountEmittedCounts(c: Counts, l: Ledger, finishing: nat, rest: set<nat>)
    requires Counters(c, l, finishing) && |l.good + rest| == |l.good| + |rest|
    ensures Counters(c.(emitted := c.emitted + |rest|), l.(good := l.good + rest), finishing)
  {
  }

  lemma CountEmittedKeeps(s: State, n: nat, failed: set<nat>)
    requires Inv(s) && s.worker == AddingEmitted(n, failed)
    ensures Inv(CountEmitted(s, n, failed))
  {
    var l := s.ledger;
    AddEmittedLedger(s.outputs, l, n, failed, s.completed, s.errors.first);
    CountEmittedCounts(s.counts, l, |Finishing(s.clients)|, Range(l.base, l.base + n) - failed);
    CountEmittedClients(s, n, failed);
  }

  predicate Counted(w: Worker) {
    w.AddingEmitted? || w.AddingCompleted?
  }

  lemma LedgerStays(outputs: set<Sink>, w: Worker, w': Worker, l: Ledger, completed: nat, completed': nat, first: nat, first': nat)
    requires LedgerOk(outputs, w, l, completed, first) && !Counted(w) && !Counted(w')
    requires completed' <= l.base && (first != 0 ==> first' != 0)
    ensures LedgerOk(outputs, w', l, completed', first')
  {
  }

  lemma PlainWorkerOk(s: State, deq: nat, step: Step)
    requires WorkerOk(s.outputs, s.worker, s.ledger, s.errors.first)
    requires Enabled(s, step) && ByWorker(step)
    requires step.Emit? ==> !(s.worker.next < |SINKS| && SINKS[s.worker.next] in s.outputs)
    requires !step.AddFailed? && !step.AddEmitted? && !step.AddCompleted?
    ensures var s' := WorkerStep(s, deq, step);
            && WorkerOk(s'.outputs, s'.worker, s'.ledger, s'.errors.first) && s'.ledger == s.ledger
            && !Counted(s.worker) && !Counted(s'.worker) && (s.errors.first != 0 ==> s'.errors.first != 0)
  {
    if step.Emit? && s.worker.next < |SINKS| {
      var w := s.worker;
      forall p | s.ledger.base <= p < s.ledger.base + w.n && p !in w.failed
        ensures ConfirmedBy(s.outputs, s.ledger.handed, p, w.next + 1)
      {
        assert ConfirmedBy(s.outputs, s.ledger.handed, p, w.next);
      }
    }
  }

  lemma PlainWorkerStep(s: State, deq: nat, step: Step)
    requires Inv(s) && Enabled(s, step) && ByWorker(step)
    requires step.Emit? ==> !(s.worker.next < |SINKS| && SINKS[s.worker.next] in s.outputs)
    requires !step.AddFailed? && !step.AddEmitted? && !step.AddCompleted? && (step.Complete? ==> deq <= s.ledger.base)
    ensures Inv(WorkerStep(s, deq, step))
  {
    var s' := WorkerStep(s, deq, step);
    PlainWorkerOk(s, deq, step);
    LedgerStays(s.outputs, s.worker, s'.worker, s.ledger, s.completed, s'.completed, s.errors.first, s'.errors.first);
  }

  /** The watermark only ever says what has been accounted: the worker publishes
      dequeue_pos when its last batch is closed and nothing new was popped. */
  lemma WorkerStepKeeps(s: State, deq: nat, step: Step)
    requires Inv(s) && Enabled(s, step) && ByWorker(step) && (step.Complete? ==> deq <= s.ledger.base)
    ensures Inv(WorkerStep(s, deq, step))
  {
    if step.Emit? && s.worker.next < |SINKS| && SINKS[s.worker.next] in s.outputs { EmitKeeps(s, deq, step.failing); }
    else if step.AddFailed? { AddFailedKeeps(s, deq); }
    else if step.AddEmitted? { CountEmittedKeeps(s, s.worker.n, s.worker.failed); }
    else if step.AddCompleted? { ClientsKeep(s.clients, s.flushed, s.ledger, WorkerStep(s, deq, step).ledger); }
    else { PlainWorkerStep(s, deq, step); }
  }

  // ---- Client steps ---------------------------------------------------------------

  lemma FinishingAfter(clients: map<Tid, Client>, t: Tid, c: Client)
    ensures |Finishing(clients[t := c])| ==
              |Finishing(clients)| + (if c.DirectDone? then 1 else 0) - (if PcOf(clients, t).DirectDone? then 1 else 0)
  {
    var before, after := Finishing(clients), Finishing(clients[t := c]);
    var others := before - {t};
    assert after - {t} == others by {
      forall u ensures u in after - {t} <==> u in others {}
    }
    assert PcOf(clients, t).DirectDone? <==> t in before;
    assert c.DirectDone? <==> t in after;
    WithoutOne(before, t);
    WithoutOne(after, t);
  }

  lemma WithoutOne(a: set<Tid>, t: Tid)
    ensures |a| == |a - {t}| + (if t in a then 1 else 0)
  {
    if t in a { assert a == (a - {t}) + {t}; } else { assert a == a - {t}; }
  }

  /** The first noted error of each kind is never replaced, by no step of anyone. */
  lemma ErrorsStick(s: State, enq: nat, deq: nat, step: Step)
    requires Enabled(s, step)
    ensures var e, e' := s.errors, Apply(s, enq, deq, step).errors;
            && (e.first != 0 ==> e'.first == e.first)
            && (e.lifecycle != 0 ==> e'.lifecycle == e.lifecycle)
            && (e.sync != 0 ==> e'.sync == e.sync)
  {
  }

  lemma ClientErrorsStick(e: Errors, pc: Client, error: nat)
    requires pc.FlushNote? || pc.DirectNote? ==> error > 0
    ensures e.first != 0 ==> ErrorsAfter(e, pc, error).first == e.first
    ensures e.lifecycle != 0 ==> ErrorsAfter(e, pc, error).lifecycle == e.lifecycle
    ensures e.sync != 0 ==> ErrorsAfter(e, pc, error).sync == e.sync
  {
  }

  /** The one place where a flush concludes anything: when the sticky error is
      still clear, nothing accounted so far has failed. */
  lemma ClearMeansGood(s: State, target: nat)
    requires Inv(s) && target <= s.ledger.base && s.errors.first == 0
    ensures Covers(s.ledger.good, target)
  {
    assert s.ledger.bad == {};
  }

  lemma NextPcOk(s: State, enq: nat, t: Tid, error: nat)
    requires Inv(s)
    ensures ClientOk(s.ledger, NextPc(s, enq, PcOf(s.clients, t), error))
  {
    var pc := PcOf(s.clients, t);
    assert ClientOk(s.ledger, pc);
    if pc.FlushFirst? {
      if s.errors.first == 0 { ClearMeansGood(s, pc.target); }
    } else {
      NextPcFollows(s, enq, pc, error);
    }
  }

  lemma NextPcFollows(s: State, enq: nat, pc: Client, error: nat)
    requires ClientOk(s.ledger, pc) && !pc.FlushFirst? && s.completed <= s.ledger.base
    ensures ClientOk(s.ledger, NextPc(s, enq, pc, error))
  {
  }

  lemma ClientStepKeeps(s: State, enq: nat, t: Tid, error: nat)
    requires Inv(s) && Enabled(s, ClientOp(t, error))
    ensures Inv(ClientStep(s, enq, t, error))
  {
    var s', pc := ClientStep(s, enq, t, error), PcOf(s.clients, t);
    var next := NextPc(s, enq, pc, error);
    FinishingAfter(s.clients, t, next);
    ClientErrorsStick(s.errors, pc, error);
    NextPcOk(s, enq, t, error);
    assert ClientOk(s.ledger, pc);
    forall u: Tid ensures ClientOk(s.ledger, PcOf(s'.clients, u)) {
      assert ClientOk(s.ledger, PcOf(s.clients, u));
    }
    assert next.DirectDone? <==> pc.DirectFailed? || pc.DirectEmitted?;
  }

  lemma BeginKeeps(s: State, t: Tid, c: Client)
    requires Inv(s) && PcOf(s.clients, t).Idle? && (c.FlushStart? || c.DirectFormat?)
    ensures Inv(s.(clients := s.clients[t := c]))
  {
    var clients' := s.clients[t := c];
    FinishingAfter(s.clients, t, c);
    forall u: Tid ensures ClientOk(s.ledger, PcOf(clients', u)) {
      assert ClientOk(s.ledger, PcOf(s.clients, u));
    }
  }

  lemma StepKeeps(s: State, enq: nat, deq: nat, step: Step)
    requires Inv(s) && Enabled(s, step) && (step.Complete? ==> deq <= s.ledger.base)
    ensures Inv(Apply(s, enq, deq, step))
  {
    if step.BeginFlush? { BeginKeeps(s, step.t, FlushStart); }
    else if step.BeginDirect? { BeginKeeps(s, step.t, DirectFormat(step.strict)); }
    else if step.ClientOp? { ClientStepKeeps(s, enq, step.t, step.error); }
    else if step.Fault? { }
    else { WorkerStepKeeps(s, deq, step); }
  }

  // ---- Calls -----------------------------------------------------------------------------

  /** The snapshot that a flush works with. */
  function TargetOf(pc: Client): Option<nat> {
    match pc
    case FlushLock(target) => Some(target)
    case FlushLifecycle(target) => Some(target)
    case FlushPosition(target) => Some(target)
    case FlushWaiting(target) => Some(target)
    case FlushUnlock(target, _) => Some(target)
    case FlushFirst(target) => Some(target)
    case FlushCheck(target, _) => Some(target)
    case FlushEmitLock(target, _) => Some(target)
    case FlushSync(target, _) => Some(target)
    case FlushNote(target, _) => Some(target)
    case FlushFirstAgain(target, _) => Some(target)
    case FlushEmitUnlock(target, _) => Some(target)
    case FlushEnd(target, _) => Some(target)
    case _ => None
  }

  /** A flush keeps its snapshot until it ends. */
  lemma TargetStays(s: State, enq: nat, pc: Client, error: nat)
    requires TargetOf(pc).Some?
    ensures TargetOf(NextPc(s, enq, pc, error)) == if pc.FlushEnd? then None else TargetOf(pc)
  {
  }

  predicate IsDirect(pc: Client) {
    || pc.DirectFormat? || pc.DirectCheck? || pc.DirectLock? || pc.DirectOut? || pc.DirectUnlock?
    || pc.DirectNote? || pc.DirectFailed? || pc.DirectEmitted? || pc.DirectDone?
  }

  /** One of the two public counters. */
  function Counter(c: Counts, ok: bool): nat {
    if ok then c.emitted else c.failed
  }

  /** An operation of a direct emission: the call ends after it was counted, or by the
      formatter's rejection of a strict record, and in no other way; it reaches its end
      by the operation that adds one to one of the two counters. */
  lemma DirectCountsOnce(s: State, enq: nat, t: Tid, error: nat)
    requires Enabled(s, ClientOp(t, error)) && IsDirect(PcOf(s.clients, t))
    ensures var s', pc := ClientStep(s, enq, t, error), PcOf(s.clients, t);
            var next := PcOf(s'.clients, t);
            && (next.Idle? || (IsDirect(next) && !next.DirectFormat?))
            && (next.Idle? <==> pc.DirectDone? || (pc == DirectFormat(true) && error != 0))
            && Counter(s'.counts, true) >= Counter(s.counts, true) && Counter(s'.counts, false) >= Counter(s.counts, false)
            && Counter(s'.counts, true) + Counter(s'.counts, false) ==
               Counter(s.counts, true) + Counter(s.counts, false) + (if next.DirectDone? then 1 else 0)
            && s'.counts.directOk + s'.counts.directBad ==
               s.counts.directOk + s.counts.directBad + (if next.DirectDone? then 1 else 0)
            && (pc == DirectFormat(true) && error != 0 ==> s' == s.(clients := s.clients[t := Idle]))
  {
  }

  /** Only its own operations move a client. */
  predicate Moves(step: Step, t: Tid) {
    (step.BeginFlush? || step.BeginDirect? || step.ClientOp?) && step.t == t
  }

  lemma OthersStay(s: State, enq: nat, deq: nat, step: Step, t: Tid)
    requires Enabled(s, step) && !Moves(step, t)
    ensures PcOf(Apply(s, enq, deq, step).clients, t) == PcOf(s.clients, t)
  {
  }

  lemma FlushedGrows(s: State, enq: nat, deq: nat, step: Step)
    requires Enabled(s, step)
    ensures s.flushed <= Apply(s, enq, deq, step).flushed
    ensures Apply(s, enq, deq, step).outputs == s.outputs
  {
  }

  // ---- What the invariant means -----------------------------------------------------

  /** A flush that returned 0 was a barrier: every position reserved before its
      snapshot was handed to every selected sink, and none was marked failed. */
  lemma FlushIsBarrier(s: State, target: nat, p: nat, k: Sink)
    requires Inv(s) && target in s.flushed && p < target && k in s.outputs
    ensures p in s.ledger.good && p !in s.ledger.bad && p in HandedTo(s.ledger.handed, k)
  {
    assert p in s.ledger.good || p !in s.ledger.good;
  }

  /** Only records of the current batch or of earlier ones are ever confirmed. */
  lemma GoodIsGathered(s: State, p: nat)
    requires Inv(s) && p in s.ledger.good
    ensures p < s.ledger.base + BatchSize(s.worker)
  {
    assert Accounted(s.worker, s.ledger.base, p);
  }

  /** Every accounted record is in exactly one of the two public counters, and the
      completion counters never run ahead of them. */
  lemma AccountsConserved(s: State)
    requires Inv(s)
    ensures s.counts.emitted + s.counts.failed >= s.counts.asyncCompleted + s.counts.syncCompleted
    ensures !Counted(s.worker) && Finishing(s.clients) == {} ==>
              s.counts.emitted + s.counts.failed == s.counts.asyncCompleted + s.counts.syncCompleted
    ensures s.counts.emitted == |s.ledger.good| + s.counts.directOk
    ensures s.counts.failed == |s.ledger.bad| + s.counts.directBad
    ensures s.ledger.good !! s.ledger.bad && Range(0, s.ledger.base) <= s.ledger.good + s.ledger.bad
  {
    var l := s.ledger;
    RangeSize(0, l.base);
    assert l.good !! l.bad by { forall p | p in l.good ensures p !in l.bad {} }
    assert |l.good + l.bad| == |l.good| + |l.bad|;
    forall p | p in Range(0, l.base) ensures p in l.good + l.bad {
      assert p in l.good || p !in l.good;
    }
    SubsetSize(Range(0, l.base), l.good + l.bad);
    if !Counted(s.worker) { assert Range(0, l.base) == l.good + l.bad; }
  }

  lemma SubsetSize(a: set<nat>, b: set<nat>)
    requires a <= b
    ensures |a| <= |b|
  {
    assert b == a + (b - a);
  }

  /** The flush's test on stored 64-bit positions decides like the step of the machine,
      while target and watermark are less than 2^63 apart. */
  lemma ModularFlush(s: State, enq: nat, target: nat, error: nat)
    requires -0x8000_0000_0000_0000 <= s.completed - target < 0x8000_0000_0000_0000
    ensures NextPc(s, enq, FlushPosition(target), error).FlushUnlock? <==>
              Bits.Sub64(Bits.Wrap(s.completed), Bits.Wrap(target)) <= Bits.SIZE_MAX / 2
  {
    Bits.FoldedDistance(s.completed, target);
  }
}
