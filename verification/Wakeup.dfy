/** The sleep and wake handshake between the producers, a stopping thread and the
    worker, for pthread calls that succeed. What the worker sees of the queue is
    one bit: whether the record at dequeue_pos is published. */
module Wakeup {

  type Tid = nat

  datatype Party = Nobody | Worker | Thread(t: Tid)

  /** A thread after publishing (`logger_queue_notify_if_waiting`) or after
      clearing `running` (`logger_queue_wake_force`). */
  datatype Notify =
    | Quiet
    | Probing | Locking | Claiming | Signalling | Unlocking
    | ForceLocking | ForceDisarming | ForceSignalling

  /** The worker around `pthread_cond_wait`. `Awake` covers draining and output. */
  datatype Sleeper =
    | Awake
    | WantLock
    | CheckEmpty | CheckRunning
    | Arming
    | RecheckEmpty | RecheckRunning
    | Entering
    | Blocked
    | Woken
    | Disarming
    | StopRunning | StopEmpty
    | Releasing(stop: bool)
    | Exited

  datatype State = State(waiting: bool, running: bool, mutex: Party,
                         threads: map<Tid, Notify>, sleeper: Sleeper)

  datatype Step =
    | Published(t: Tid) | Probe(t: Tid) | Lock(t: Tid) | Claim(t: Tid) | Signal(t: Tid) | Unlock(t: Tid)
    | Stop(t: Tid) | ForceLock(t: Tid) | ForceDisarm(t: Tid) | ForceSignal(t: Tid)
    | GoIdle | TakeLock | LookEmpty | LookRunning | Arm | LookAgain | LookRunningAgain
    | Enter | Spurious | Reacquire | Disarm | StopLook | StopLookEmpty | Release

  function PcOf(threads: map<Tid, Notify>, t: Tid): Notify {
    if t in threads then threads[t] else Quiet
  }

  predicate Holding(n: Notify) {
    n.Claiming? || n.Signalling? || n.Unlocking? || n.ForceDisarming? || n.ForceSignalling?
  }

  predicate WorkerHolds(w: Sleeper) {
    !(w.Awake? || w.WantLock? || w.Blocked? || w.Woken? || w.Exited?)
  }

  predicate Enabled(s: State, step: Step) {
    match step
    case Published(t) => PcOf(s.threads, t).Quiet?
    case Probe(t) => PcOf(s.threads, t).Probing?
    case Lock(t) => PcOf(s.threads, t).Locking? && s.mutex.Nobody?
    case Claim(t) => PcOf(s.threads, t).Claiming?
    case Signal(t) => PcOf(s.threads, t).Signalling?
    case Unlock(t) => PcOf(s.threads, t).Unlocking?
    case Stop(t) => PcOf(s.threads, t).Quiet?
    case ForceLock(t) => PcOf(s.threads, t).ForceLocking? && s.mutex.Nobody?
    case ForceDisarm(t) => PcOf(s.threads, t).ForceDisarming?
    case ForceSignal(t) => PcOf(s.threads, t).ForceSignalling?
    case GoIdle => s.sleeper.Awake?
    case TakeLock => s.sleeper.WantLock? && s.mutex.Nobody?
    case LookEmpty => s.sleeper.CheckEmpty?
    case LookRunning => s.sleeper.CheckRunning?
    case Arm => s.sleeper.Arming?
    case LookAgain => s.sleeper.RecheckEmpty?
    case LookRunningAgain => s.sleeper.RecheckRunning?
    case Enter => s.sleeper.Entering?
    case Spurious => s.sleeper.Blocked?
    case Reacquire => s.sleeper.Woken? && s.mutex.Nobody?
    case Disarm => s.sleeper.Disarming?
    case StopLook => s.sleeper.StopRunning?
    case StopLookEmpty => s.sleeper.StopEmpty?
    case Release => s.sleeper.Releasing?
  }

  function Go(s: State, t: Tid, n: Notify): State {
    s.(threads := s.threads[t := n])
  }

  /** A signal wakes the worker if it waits; otherwise it is lost. */
  function Deliver(w: Sleeper): Sleeper {
    if w.Blocked? then Woken else w
  }

  /** One step; `head` says whether the record at dequeue_pos is published. */
  function Apply(s: State, head: bool, step: Step): State
    requires Enabled(s, step)
  {
    match step
    case Published(t) => Go(s, t, Probing)
    case Probe(t) => Go(s, t, if s.waiting then Locking else Quiet)
    case Lock(t) => Go(s, t, Claiming).(mutex := Thread(t))
    case Claim(t) => Go(s, t, if s.waiting then Signalling else Unlocking).(waiting := false)
    case Signal(t) => Go(s, t, Unlocking).(sleeper := Deliver(s.sleeper))
    case Unlock(t) => Go(s, t, Quiet).(mutex := Nobody)
    case Stop(t) => Go(s, t, ForceLocking).(running := false)
    case ForceLock(t) => Go(s, t, ForceDisarming).(mutex := Thread(t))
    case ForceDisarm(t) => Go(s, t, ForceSignalling).(waiting := false)
    case ForceSignal(t) => Go(s, t, Unlocking).(sleeper := Deliver(s.sleeper))
    case GoIdle => s.(sleeper := WantLock)
    case TakeLock => s.(sleeper := CheckEmpty, mutex := Worker)
    case LookEmpty => s.(sleeper := if head then Disarming else CheckRunning)
    case LookRunning => s.(sleeper := if s.running then Arming else Disarming)
    case Arm => s.(sleeper := RecheckEmpty, waiting := true)
    case LookAgain => s.(sleeper := if head then Disarming else RecheckRunning)
    case LookRunningAgain => s.(sleeper := if s.running then Entering else Disarming)
    case Enter => s.(sleeper := Blocked, mutex := Nobody)
    case Spurious => s.(sleeper := Woken)
    case Reacquire => s.(sleeper := CheckEmpty, mutex := Worker)
    case Disarm => s.(sleeper := StopRunning, waiting := false)
    case StopLook => s.(sleeper := if s.running then Releasing(false) else StopEmpty)
    case StopLookEmpty => s.(sleeper := Releasing(!head))
    case Release => s.(sleeper := if s.sleeper.stop then Exited else Awake, mutex := Nobody)
  }

  /** `head` can become true only together with a publication. */
  predicate HeadAfter(head: bool, head': bool, s: State, step: Step) {
    && (head' && !head ==> step.Published?)
    && (head && !head' ==> s.sleeper.Awake?)
  }

  // ---- The invariant --------------------------------------------------------

  ghost predicate Mutex(s: State) {
    && (WorkerHolds(s.sleeper) <==> s.mutex.Worker?)
    && forall t: Tid {:trigger PcOf(s.threads, t)} :: Holding(PcOf(s.threads, t)) <==> s.mutex == Thread(t)
  }

  predicate AboutToSignal(n: Notify) {
    n.Signalling? || n.ForceSignalling?
  }

  /** A thread that still has to look at `waiting`, or to signal. */
  predicate Owing(n: Notify) {
    n.Probing? || n.Locking? || n.Claiming? || n.Signalling? || Forcing(n)
  }

  predicate Forcing(n: Notify) {
    n.ForceLocking? || n.ForceDisarming? || n.ForceSignalling?
  }

  /** While the worker is committed to sleeping, `waiting` is set or the thread
      that cleared it holds the mutex and is about to signal. */
  ghost predicate Armed(s: State) {
    && (s.sleeper.RecheckEmpty? || s.sleeper.RecheckRunning? || s.sleeper.Entering? ==> s.waiting)
    && (s.sleeper.Blocked? && !s.waiting ==> s.mutex.Thread? && AboutToSignal(PcOf(s.threads, s.mutex.t)))
  }

  ghost predicate Covered(s: State, head: bool) {
    && (head && (s.sleeper.RecheckRunning? || s.sleeper.Entering? || s.sleeper.Blocked?) ==>
          exists t: Tid :: Owing(PcOf(s.threads, t)))
    && (!s.running && (s.sleeper.Entering? || s.sleeper.Blocked?) ==>
          exists t: Tid :: Forcing(PcOf(s.threads, t)))
  }

  ghost predicate Inv(s: State, head: bool) {
    Mutex(s) && Armed(s) && Covered(s, head)
  }

  const Start: State := State(false, true, Nobody, map[], Awake)

  lemma StartInv()
    ensures Inv(Start, false)
  {
  }

  lemma OtherThreads(s: State, t: Tid, n: Notify)
    ensures PcOf(Go(s, t, n).threads, t) == n
    ensures forall u: Tid {:trigger PcOf(Go(s, t, n).threads, u)} :: u != t ==> PcOf(Go(s, t, n).threads, u) == PcOf(s.threads, u)
  {
  }

  predicate ByThread(step: Step) {
    || step.Published? || step.Probe? || step.Lock? || step.Claim? || step.Signal? || step.Unlock?
    || step.Stop? || step.ForceLock? || step.ForceDisarm? || step.ForceSignal?
  }

  /** A thread that leaves its debt early leaves it to another one. */
  lemma ThreadStepCovers(s: State, head: bool, step: Step, head': bool)
    requires Inv(s, head) && Enabled(s, step) && HeadAfter(head, head', s, step) && ByThread(step)
    ensures Covered(Apply(s, head, step), head')
  {
    var s' := Apply(s, head, step);
    var t := step.t;
    var n := PcOf(s'.threads, t);
    OtherThreads(s, t, n);
    assert s'.threads == Go(s, t, n).threads;
    if head' && (s'.sleeper.RecheckRunning? || s'.sleeper.Entering? || s'.sleeper.Blocked?) && !Owing(n) {
      var u: Tid :| Owing(PcOf(s.threads, u));
      var v := if u == t && s.mutex.Thread? then s.mutex.t else u;
      assert Owing(PcOf(s'.threads, v));
    }
    if !s'.running && (s'.sleeper.Entering? || s'.sleeper.Blocked?) && !Forcing(n) {
      var u: Tid :| Forcing(PcOf(s.threads, u));
      assert Forcing(PcOf(s'.threads, u));
    }
  }

  lemma ThreadStepKeeps(s: State, head: bool, step: Step, head': bool)
    requires Inv(s, head) && Enabled(s, step) && HeadAfter(head, head', s, step) && ByThread(step)
    ensures Inv(Apply(s, head, step), head')
  {
    ThreadStepCovers(s, head, step, head');
    var s' := Apply(s, head, step);
    OtherThreads(s, step.t, PcOf(s'.threads, step.t));
    assert s'.threads == Go(s, step.t, PcOf(s'.threads, step.t)).threads;
  }

  lemma StepKeeps(s: State, head: bool, step: Step, head': bool)
    requires Inv(s, head) && Enabled(s, step) && HeadAfter(head, head', s, step)
    ensures Inv(Apply(s, head, step), head')
  {
    if ByThread(step) {
      ThreadStepKeeps(s, head, step, head');
    }
  }

  /** The worker's queue steps change `head` only while it is awake. */
  lemma QueueStepKeeps(s: State, head: bool, head': bool)
    requires Inv(s, head) && (head == head' || s.sleeper.Awake?)
    ensures Inv(s, head')
  {
  }

  // ---- No wakeup is lost ------------------------------------------------------

  /** When the worker sleeps on a queue whose next record is published, or after
      the stop, some thread is still on its way to the signal. */
  lemma NoLostWakeup(s: State, head: bool)
    requires Inv(s, head) && s.sleeper.Blocked? && (head || !s.running)
    ensures exists t: Tid :: Owing(PcOf(s.threads, t))
  {
    if !head {
      var t: Tid :| Forcing(PcOf(s.threads, t));
      assert Owing(PcOf(s.threads, t));
    }
  }

  /** A schedule of steps, if each of them can be taken. */
  predicate Leads(s: State, head: bool, steps: seq<Step>, last: State)
    decreases |steps|
  {
    if steps == [] then s == last
    else Enabled(s, steps[0]) && Leads(Apply(s, head, steps[0]), head, steps[1..], last)
  }

  /** Steps left before the signal. */
  function Urgency(n: Notify): nat {
    match n
    case Probing => 3
    case Locking => 2
    case ForceLocking => 2
    case ForceDisarming => 1
    case Claiming => 1
    case _ => 0
  }

  function NextOf(n: Notify, t: Tid): Step {
    match n
    case Probing => Probe(t)
    case Locking => Lock(t)
    case Claiming => Claim(t)
    case Signalling => Signal(t)
    case ForceLocking => ForceLock(t)
    case ForceDisarming => ForceDisarm(t)
    case ForceSignalling => ForceSignal(t)
    case _ => Unlock(t)
  }

  /** An owing thread that finds the mutex free, or holds it, wakes the worker on
      its own. */
  lemma {:induction false} OneThreadWakes(s: State, head: bool, t: Tid) returns (steps: seq<Step>, last: State)
    requires Inv(s, head) && s.sleeper.Blocked?
    requires Owing(PcOf(s.threads, t)) && (s.mutex.Nobody? || s.mutex == Thread(t))
    ensures |steps| <= Urgency(PcOf(s.threads, t)) + 1
    ensures forall i :: 0 <= i < |steps| ==> ByThread(steps[i])
    ensures Leads(s, head, steps, last) && last.sleeper.Woken?
    decreases Urgency(PcOf(s.threads, t))
  {
    var step := NextOf(PcOf(s.threads, t), t);
    var next := Apply(s, head, step);
    StepKeeps(s, head, step, head);
    if AboutToSignal(PcOf(s.threads, t)) {
      steps, last := [step], next;
      assert Leads(next, head, steps[1..], last);
    } else {
      var rest;
      rest, last := OneThreadWakes(next, head, t);
      steps := [step] + rest;
      assert steps[1..] == rest;
    }
  }

  /** A sleeping worker that has something to do is woken in at most five steps,
      all of them steps of threads that hold the mutex or owe a signal: nobody
      else has to move. */
  lemma WakeupComes(s: State, head: bool) returns (steps: seq<Step>, last: State)
    requires Inv(s, head) && s.sleeper.Blocked? && (head || !s.running)
    ensures |steps| <= 5 && forall i :: 0 <= i < |steps| ==> ByThread(steps[i])
    ensures Leads(s, head, steps, last) && last.sleeper.Woken?
  {
    NoLostWakeup(s, head);
    var t: Tid :| Owing(PcOf(s.threads, t));
    if s.mutex.Thread? && PcOf(s.threads, s.mutex.t).Unlocking? {
      var step := Unlock(s.mutex.t);
      var next := Apply(s, head, step);
      StepKeeps(s, head, step, head);
      var rest;
      rest, last := OneThreadWakes(next, head, t);
      steps := [step] + rest;
      assert steps[1..] == rest;
    } else {
      var u := if s.mutex.Thread? then s.mutex.t else t;
      assert Holding(PcOf(s.threads, u)) || s.mutex.Nobody?;
      steps, last := OneThreadWakes(s, head, u);
    }
  }
}
