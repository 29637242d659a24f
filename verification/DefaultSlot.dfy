/** The default slot: one packed ticket, a control mutex, a reader/writer lock that
    keeps the bound logger alive, a borrow flag on every logger, and poisoning when
    an unlock fails. A failed unlock may or may not have released its lock. */
module DefaultSlot {
  import opened Options

  type Tid = nat
  type Logger = nat

  datatype Phase = Idle | Running | Stopping | Broken

  datatype Ticket = Ticket(generation: nat, phase: Phase)

  const LAST_GENERATION: nat := 0x1FFF_FFFF_FFFF_FFFF

  // ---- Packing: three phase bits below the generation --------------------------

  function Code(p: Phase): (c: nat)
    ensures c < 8
  {
    match p case Idle => 0 case Running => 1 case Stopping => 2 case Broken => 3
  }

  function Packed(t: Ticket): nat {
    8 * t.generation + Code(t.phase)
  }

  /** Packed tickets are equal only when generation and phase both are, and they
      fit 64 bits up to the last generation. */
  lemma PackedTickets(a: Ticket, b: Ticket)
    ensures Packed(a) == Packed(b) <==> a == b
    ensures a.generation <= LAST_GENERATION ==> Packed(a) < 0x1_0000_0000_0000_0000
    ensures Packed(a) / 8 == a.generation && Packed(a) % 8 == Code(a.phase)
    ensures Packed(a) - Packed(a) % 8 + Code(b.phase) == Packed(a.(phase := b.phase))
  {
  }

  // ---- The machine ---------------------------------------------------------------

  /** The steps of `logger_default_set` up to the unlocks. */
  datatype At =
    | Entering | Observing | LockingControl | CheckingPoison
    | Comparing | CheckingState | CheckingFlag | CheckingGeneration
    | Closing | LockingWrite | RollingBack | RecheckingPoison
    | Marking | Storing | Publishing | Restoring

  datatype Pc =
    | Outside
    | Setting(at: At, expected: Option<Logger>, replacement: Option<Logger>, seen: Ticket)
    | Unlocking(write: bool, control: bool, release: Option<Logger>)
    | Releasing(logger: Logger)
    | ReadEntering
    | ReadObserving
    | ReadLocking(seen: Ticket)
    | ReadChecking(seen: Ticket)
    | ReadComparing(seen: Ticket)
    | ReadLoading
    | Using(logger: Logger)
    | ReadUnlocking
    | PoisoningError(error: nat)
    | PoisoningTicket
    | Stuck

  /** A committed change of the slot. */
  datatype Change = Change(expected: Option<Logger>, replacement: Option<Logger>)

  /** `history` lists the committed changes. `live` are the loggers that exist and
      `accepting` those in state RUNNING. */
  datatype State = State(
    ticket: Ticket, lockError: nat, slot: Option<Logger>,
    control: Option<Tid>, writer: Option<Tid>, readers: set<Tid>,
    borrowed: set<Logger>, live: set<Logger>, accepting: set<Logger>,
    threads: map<Tid, Pc>, history: seq<Change>)

  datatype Step =
    | BeginSet(t: Tid, e: Option<Logger>, r: Option<Logger>)
    | BeginRead(t: Tid)
    | Advance(t: Tid, fails: bool, error: nat, released: bool)
    | Create(l: Logger) | Accept(l: Logger) | StopAccepting(l: Logger) | Destroy(l: Logger)

  function PcOf(threads: map<Tid, Pc>, t: Tid): Pc {
    if t in threads then threads[t] else Outside
  }

  predicate IsLive(s: State, l: Option<Logger>) {
    l.Some? ==> l.value in s.live
  }

  /** The host may destroy a logger once its flag is clear; it does not destroy
      one that a running call still has as an argument. */
  predicate Named(pc: Pc, l: Logger) {
    || (pc.Setting? && (pc.expected == Some(l) || pc.replacement == Some(l)))
    || (pc.Unlocking? && pc.release == Some(l)) || pc == Releasing(l)
  }

  predicate Enabled(s: State, step: Step) {
    match step
    case BeginSet(t, e, r) => PcOf(s.threads, t).Outside? && IsLive(s, e) && IsLive(s, r)
    case BeginRead(t) => PcOf(s.threads, t).Outside?
    case Advance(t, fails, error, _) =>
      var pc := PcOf(s.threads, t);
      && !pc.Outside? && !pc.Stuck? && error > 0
      && (pc.Setting? && pc.at.LockingControl? && !fails ==> s.control.None?)
      && (pc.Setting? && pc.at.LockingWrite? && !fails ==> s.writer.None? && s.readers == {})
      && (pc.ReadLocking? && !fails ==> s.writer.None?)
    case Create(l) => l !in s.live && l !in s.borrowed
    case Accept(l) => l in s.live
    case StopAccepting(l) => true
    case Destroy(l) => l in s.live && l !in s.borrowed && forall t :: t in s.threads ==> !Named(s.threads[t], l)
  }

  /** `-phase_error`: only a running slot admits readers. */
  predicate Admits(t: Ticket) {
    t.phase.Running?
  }

  function Go(s: State, t: Tid, pc: Pc): State {
    s.(threads := s.threads[t := pc])
  }

  function Drop(s: State, t: Tid): State {
    Go(s, t, Unlocking(false, true, None))
  }

  function SetStep(s: State, t: Tid, pc: Pc, fails: bool): State
    requires pc.Setting?
  {
    var e, r, seen := pc.expected, pc.replacement, pc.seen;
    var closed := seen.(phase := Stopping);
    match pc.at
    case Entering => Go(s, t, if s.lockError != 0 then Outside else pc.(at := Observing))
    case Observing => Go(s, t, if s.ticket.phase.Stopping? then Outside else pc.(at := LockingControl, seen := s.ticket))
    case LockingControl =>
      if fails then Go(s, t, Outside) else Go(s, t, pc.(at := CheckingPoison)).(control := Some(t))
    case CheckingPoison => if s.lockError != 0 then Drop(s, t) else Go(s, t, pc.(at := Comparing))
    case Comparing =>
      if s.ticket != seen || s.slot != e || e == r then Drop(s, t) else Go(s, t, pc.(at := CheckingState))
    case CheckingState =>
      if r.Some? && r.value !in s.accepting then Drop(s, t) else Go(s, t, pc.(at := CheckingFlag))
    case CheckingFlag =>
      if r.Some? && r.value in s.borrowed then Drop(s, t) else Go(s, t, pc.(at := CheckingGeneration))
    case CheckingGeneration =>
      if seen.generation == LAST_GENERATION then Drop(s, t) else Go(s, t, pc.(at := Closing))
    case Closing =>
      if s.ticket == seen then Go(s, t, pc.(at := LockingWrite)).(ticket := closed) else Drop(s, t)
    case LockingWrite =>
      if fails then Go(s, t, pc.(at := RollingBack))
      else Go(s, t, pc.(at := RecheckingPoison)).(writer := Some(t))
    case RollingBack => Drop(s, t).(ticket := if s.ticket == closed then seen else s.ticket)
    case RecheckingPoison =>
      Go(s, t, if s.lockError != 0 then Unlocking(true, true, None) else pc.(at := Marking))
    case Marking =>
      Go(s, t, pc.(at := Storing)).(borrowed := if r.Some? then s.borrowed + {r.value} else s.borrowed)
    case Storing => Go(s, t, pc.(at := Publishing)).(slot := r)
    case Publishing =>
      if s.ticket == closed then
        Go(s, t, Unlocking(true, true, e))
        .(ticket := Ticket(seen.generation + 1, if r.Some? then Running else Idle), history := s.history + [Change(e, r)])
      else Go(s, t, pc.(at := Restoring))
    case Restoring => Go(s, t, Unlocking(true, true, r)).(slot := e)
  }

  /** `finish_result`: a failed unlock poisons and keeps everything else locked. */
  function UnlockStep(s: State, t: Tid, pc: Pc, fails: bool, error: nat, released: bool): State
    requires pc.Unlocking?
  {
    if pc.write then
      if fails then Go(s, t, PoisoningError(error)).(writer := if released then None else s.writer)
      else Go(s, t, pc.(write := false)).(writer := None)
    else if pc.control then
      if fails then Go(s, t, PoisoningError(error)).(control := if released then None else s.control)
      else Go(s, t, pc.(control := false)).(control := None)
    else Go(s, t, if pc.release.Some? then Releasing(pc.release.value) else Outside)
  }

  function ReadStep(s: State, t: Tid, pc: Pc, fails: bool, error: nat, released: bool): State {
    match pc
    case ReadEntering => Go(s, t, if s.lockError != 0 then Outside else ReadObserving)
    case ReadObserving => Go(s, t, if Admits(s.ticket) then ReadLocking(s.ticket) else Outside)
    case ReadLocking(seen) =>
      if fails then Go(s, t, Outside) else Go(s, t, ReadChecking(seen)).(readers := s.readers + {t})
    case ReadChecking(seen) => Go(s, t, if s.lockError != 0 then ReadUnlocking else ReadComparing(seen))
    case ReadComparing(seen) => Go(s, t, if s.ticket != seen then ReadUnlocking else ReadLoading)
    case ReadLoading => Go(s, t, if s.slot.None? then ReadUnlocking else Using(s.slot.value))
    case Using(_) => Go(s, t, ReadUnlocking)
    case ReadUnlocking =>
      if fails then Go(s, t, PoisoningError(error)).(readers := if released then s.readers - {t} else s.readers)
      else Go(s, t, Outside).(readers := s.readers - {t})
    case _ => s
  }

  function Apply(s: State, step: Step): State
    requires Enabled(s, step)
  {
    match step
    case BeginSet(t, e, r) => Go(s, t, Setting(Entering, e, r, s.ticket))
    case BeginRead(t) => Go(s, t, ReadEntering)
    case Create(l) => s.(live := s.live + {l})
    case Accept(l) => s.(accepting := s.accepting + {l})
    case StopAccepting(l) => s.(accepting := s.accepting - {l})
    case Destroy(l) => s.(live := s.live - {l})
    case Advance(t, fails, error, released) =>
      var pc := PcOf(s.threads, t);
      match pc
      case Setting(_, _, _, _) => SetStep(s, t, pc, fails)
      case Unlocking(_, _, _) => UnlockStep(s, t, pc, fails, error, released)
      case Releasing(l) => Go(s, t, Outside).(borrowed := s.borrowed - {l})
      case PoisoningError(e) => Go(s, t, PoisoningTicket).(lockError := if s.lockError == 0 then e else s.lockError)
      case PoisoningTicket => Go(s, t, Stuck).(ticket := s.ticket.(phase := Broken))
      case _ => ReadStep(s, t, pc, fails, error, released)
  }

  // ---- The invariant --------------------------------------------------------------

  /** The logger that the committed changes leave in the slot. */
  function Bound(history: seq<Change>): Option<Logger> {
    if history == [] then None else history[|history| - 1].replacement
  }

  /** Each change expected what the one before it installed. */
  ghost predicate Legal(history: seq<Change>) {
    && (history != [] ==> history[0].expected == None)
    && (forall i :: 0 <= i < |history| ==> history[i].expected != history[i].replacement)
    && (forall i, j :: 0 <= i < j < |history| && j == i + 1 ==> history[j].expected == history[i].replacement)
  }

  predicate HoldsControl(pc: Pc) {
    || (pc.Setting? && !pc.at.Entering? && !pc.at.Observing? && !pc.at.LockingControl?)
    || (pc.Unlocking? && pc.control)
  }

  predicate HoldsWrite(pc: Pc) {
    || (pc.Setting? && (pc.at.RecheckingPoison? || pc.at.Marking? || pc.at.Storing? || pc.at.Publishing? || pc.at.Restoring?))
    || (pc.Unlocking? && pc.write)
  }

  predicate HoldsRead(pc: Pc) {
    pc.ReadChecking? || pc.ReadComparing? || pc.ReadLoading? || pc.Using? || pc.ReadUnlocking?
  }

  /** Past the comparison: this setter's view of the slot is the current one. */
  predicate Compared(pc: Pc) {
    pc.Setting? && HoldsControl(pc) && !pc.at.CheckingPoison? && !pc.at.Comparing?
  }

  /** After it closed the slot. */
  predicate Closed(pc: Pc) {
    pc.Setting? && (HoldsWrite(pc) || pc.at.LockingWrite? || pc.at.RollingBack?)
  }

  /** The replacement was found free and is not marked yet. */
  predicate Unmarked(pc: Pc) {
    pc.Setting? && (pc.at.CheckingGeneration? || pc.at.Closing? || pc.at.LockingWrite? || pc.at.RollingBack?
                    || pc.at.RecheckingPoison? || pc.at.Marking?)
  }

  predicate Marked(pc: Pc) {
    pc.Setting? && (pc.at.Storing? || pc.at.Publishing? || pc.at.Restoring?)
  }

  /** The logger whose flag this thread is going to clear. */
  function Pending(pc: Pc): Option<Logger> {
    if pc.Unlocking? then pc.release else if pc.Releasing? then Some(pc.logger) else None
  }

  ghost predicate Locks(s: State) {
    && (s.writer.Some? ==> s.readers == {})
    && (forall t: Tid {:trigger PcOf(s.threads, t)} ::
          && (HoldsControl(PcOf(s.threads, t)) ==> s.control == Some(t))
          && (HoldsWrite(PcOf(s.threads, t)) ==> s.writer == Some(t))
          && (HoldsRead(PcOf(s.threads, t)) ==> t in s.readers))
  }

  ghost predicate Tickets(s: State) {
    && s.ticket.generation == |s.history| && Legal(s.history)
    && (s.ticket.phase.Broken? ==> s.lockError != 0)
    && (s.ticket.phase.Running? ==> Bound(s.history).Some?)
    && (s.ticket.phase.Idle? ==> Bound(s.history).None?)
  }

  /** The slot shows the committed binding, except while the one writer has
      stored its replacement and not published or restored it. */
  ghost predicate SlotOk(s: State) {
    s.slot == Bound(s.history) || exists t: Tid :: Unsettled(PcOf(s.threads, t))
  }

  predicate Unsettled(pc: Pc) {
    pc.Setting? && (pc.at.Publishing? || pc.at.Restoring?)
  }

  ghost predicate SetterOk(s: State, pc: Pc)
    requires pc.Setting?
  {
    && (HoldsControl(pc) || pc.at.LockingControl? ==>
          !pc.seen.phase.Stopping? && (pc.seen.phase.Broken? ==> s.lockError != 0)
          && (pc.at.Comparing? || Compared(pc) ==> !pc.seen.phase.Broken?))
    && (Compared(pc) ==>
          && pc.seen.generation == |s.history| && pc.expected == Bound(s.history) && pc.expected != pc.replacement
          && (pc.seen.phase.Running? <==> pc.expected.Some?))
    && (Compared(pc) && !Closed(pc) ==> s.ticket == pc.seen || s.ticket.phase.Broken?)
    && (Closed(pc) ==> s.ticket.phase.Stopping? || s.ticket.phase.Broken?)
    && (Unsettled(pc) ==> s.slot == pc.replacement)
    && (pc.at.Restoring? ==> s.ticket.phase.Broken?)
    && (Unmarked(pc) && pc.replacement.Some? ==> pc.replacement.value !in s.borrowed)
    && (Marked(pc) && pc.replacement.Some? ==> pc.replacement.value in s.borrowed)
    && IsLive(s, pc.expected) && IsLive(s, pc.replacement)
  }

  /** A pending release: the flag is still set and the logger is bound to nothing. */
  ghost predicate PendingOk(s: State, l: Logger) {
    l in s.borrowed && l in s.live && Bound(s.history) != Some(l)
  }

  ghost predicate ThreadOk(s: State, t: Tid) {
    var pc := PcOf(s.threads, t);
    && (pc.Setting? ==> SetterOk(s, pc))
    && (pc.ReadLocking? ==> Admits(pc.seen)) && (pc.ReadChecking? ==> Admits(pc.seen))
    && (pc.ReadComparing? ==> Admits(pc.seen))
    && (pc.ReadLoading? ==> s.slot.Some?)
    && (pc.Using? ==> s.slot == Some(pc.logger))
    && (Pending(pc).Some? ==> PendingOk(s, Pending(pc).value))
    && (pc.PoisoningError? ==> pc.error > 0) && (pc.PoisoningTicket? ==> s.lockError != 0)
  }

  ghost predicate Threads(s: State) {
    forall t: Tid :: ThreadOk(s, t)
  }

  /** No logger has two releases pending, nor one while it is being bound. */
  ghost predicate Releases(s: State) {
    forall t: Tid, u: Tid {:trigger PcOf(s.threads, t), PcOf(s.threads, u)} :: t != u && Pending(PcOf(s.threads, t)).Some? ==>
      && Pending(PcOf(s.threads, u)) != Pending(PcOf(s.threads, t))
      && (Marked(PcOf(s.threads, u)) ==> PcOf(s.threads, u).replacement != Pending(PcOf(s.threads, t)))
  }

  ghost predicate Flags(s: State) {
    && (Bound(s.history).Some? ==> Bound(s.history).value in s.borrowed)
    && s.borrowed <= s.live
  }

  ghost predicate Inv(s: State) {
    Locks(s) && Tickets(s) && SlotOk(s) && Threads(s) && Releases(s) && Flags(s)
  }

  // ---- Preservation -----------------------------------------------------------------

  lemma Others(threads: map<Tid, Pc>, t: Tid, pc: Pc)
    ensures PcOf(threads[t := pc], t) == pc
    ensures forall u: Tid {:trigger PcOf(threads[t := pc], u)} :: u != t ==> PcOf(threads[t := pc], u) == PcOf(threads, u)
  {
  }

  lemma SlotStays(s: State, t: Tid, s': State)
    requires SlotOk(s) && s'.slot == s.slot && s'.history == s.history
    requires Unsettled(PcOf(s.threads, t)) ==> Unsettled(PcOf(s'.threads, t))
    requires forall u: Tid {:trigger PcOf(s'.threads, u)} :: u != t ==> PcOf(s'.threads, u) == PcOf(s.threads, u)
    ensures SlotOk(s')
  {
    if s.slot != Bound(s.history) {
      var u: Tid :| Unsettled(PcOf(s.threads, u));
      assert Unsettled(PcOf(s'.threads, u));
    }
  }

  /** A step that changes nothing but one pc, without claiming anything new. */
  ghost predicate Modest(s: State, t: Tid, pc: Pc) {
    var was := PcOf(s.threads, t);
    && (HoldsControl(pc) ==> HoldsControl(was)) && (HoldsWrite(pc) ==> HoldsWrite(was)) && (HoldsRead(pc) ==> HoldsRead(was))
    && (Marked(pc) ==> Marked(was) && pc.replacement == was.replacement)
    && (Pending(pc).Some? ==> Pending(pc) == Pending(was))
    && (Unsettled(was) ==> Unsettled(pc))
    && ThreadOk(Go(s, t, pc), t)
  }

  lemma MoveKeeps(s: State, t: Tid, pc: Pc)
    requires Inv(s) && Modest(s, t, pc)
    ensures Inv(Go(s, t, pc))
  {
    var s' := Go(s, t, pc);
    Others(s.threads, t, pc);
    forall u ensures ThreadOk(s', u) { assert ThreadOk(s, u); }
    SlotStays(s, t, s');
  }

  /** Who holds the control lock, or the read lock, sees the committed binding. */
  lemma HolderSeesBinding(s: State, t: Tid)
    requires Inv(s) && !Unsettled(PcOf(s.threads, t))
    requires HoldsControl(PcOf(s.threads, t)) || HoldsRead(PcOf(s.threads, t)) || HoldsWrite(PcOf(s.threads, t))
    ensures s.slot == Bound(s.history)
  {
    forall u: Tid ensures !Unsettled(PcOf(s.threads, u)) {
      var pc := PcOf(s.threads, t);
    }
  }

  predicate EarlyStep(at: At) {
    at.Entering? || at.Observing? || at.CheckingPoison? || at.Comparing?
  }

  predicate CheckStep(at: At) {
    at.CheckingState? || at.CheckingFlag? || at.CheckingGeneration? || at.RecheckingPoison?
  }

  lemma CheckPcOk(s: State, t: Tid, fails: bool)
    requires Inv(s) && PcOf(s.threads, t).Setting? && CheckStep(PcOf(s.threads, t).at)
    ensures var s' := SetStep(s, t, PcOf(s.threads, t), fails);
            s' == Go(s, t, PcOf(s'.threads, t)) && ThreadOk(s', t)
  {
    assert ThreadOk(s, t);
  }

  lemma EarlySetStep(s: State, t: Tid, fails: bool)
    requires Inv(s) && PcOf(s.threads, t).Setting? && EarlyStep(PcOf(s.threads, t).at)
    ensures Inv(SetStep(s, t, PcOf(s.threads, t), fails))
  {
    var pc := PcOf(s.threads, t);
    var pc' := PcOf(SetStep(s, t, pc, fails).threads, t);
    assert ThreadOk(s, t);
    if pc.at.Comparing? { HolderSeesBinding(s, t); }
    Others(s.threads, t, pc');
    MoveKeeps(s, t, pc');
  }

  lemma CheckSetStep(s: State, t: Tid, fails: bool)
    requires Inv(s) && PcOf(s.threads, t).Setting? && CheckStep(PcOf(s.threads, t).at)
    ensures Inv(SetStep(s, t, PcOf(s.threads, t), fails))
  {
    CheckPcOk(s, t, fails);
    MoveKeeps(s, t, PcOf(SetStep(s, t, PcOf(s.threads, t), fails).threads, t));
  }

  lemma LockControlKeeps(s: State, t: Tid)
    requires Inv(s) && PcOf(s.threads, t).Setting? && PcOf(s.threads, t).at.LockingControl? && s.control.None?
    ensures Inv(SetStep(s, t, PcOf(s.threads, t), false))
  {
    var pc := PcOf(s.threads, t);
    var s' := SetStep(s, t, pc, false);
    Others(s.threads, t, PcOf(s'.threads, t));
    assert ThreadOk(s, t);
    forall u: Tid ensures ThreadOk(s', u) { assert ThreadOk(s, u); }
    SlotStays(s, t, s');
  }

  lemma LockWriteKeeps(s: State, t: Tid)
    requires Inv(s) && PcOf(s.threads, t).Setting? && PcOf(s.threads, t).at.LockingWrite? && s.writer.None? && s.readers == {}
    ensures Inv(SetStep(s, t, PcOf(s.threads, t), false))
  {
    var pc := PcOf(s.threads, t);
    var s' := SetStep(s, t, pc, false);
    Others(s.threads, t, PcOf(s'.threads, t));
    assert ThreadOk(s, t);
    HolderSeesBinding(s, t);
    forall u: Tid ensures ThreadOk(s', u) { assert ThreadOk(s, u); }
  }

  /** Closing and rolling back swap the ticket under the control lock. */
  lemma TicketSwapOther(s: State, t: Tid, ticket: Ticket, s': State, u: Tid)
    requires Inv(s) && HoldsControl(PcOf(s.threads, t)) && u != t
    requires s' == s.(ticket := ticket, threads := s'.threads) && PcOf(s'.threads, u) == PcOf(s.threads, u)
    ensures ThreadOk(s', u)
  {
    assert ThreadOk(s, u);
    var pc := PcOf(s.threads, t);
  }

  lemma CloseKeeps(s: State, t: Tid)
    requires Inv(s) && PcOf(s.threads, t).Setting?
    requires PcOf(s.threads, t).at.Closing? || PcOf(s.threads, t).at.RollingBack?
    ensures Inv(SetStep(s, t, PcOf(s.threads, t), false))
  {
    var pc := PcOf(s.threads, t);
    var s' := SetStep(s, t, pc, false);
    Others(s.threads, t, PcOf(s'.threads, t));
    assert ThreadOk(s, t);
    HolderSeesBinding(s, t);
    forall u: Tid | u != t ensures ThreadOk(s', u) { TicketSwapOther(s, t, s'.ticket, s', u); }
  }

  lemma MarkOther(s: State, t: Tid, s': State, u: Tid)
    requires Inv(s) && HoldsWrite(PcOf(s.threads, t)) && PcOf(s.threads, t).Setting? && u != t
    requires s.borrowed <= s'.borrowed
    requires s' == s.(borrowed := s'.borrowed, threads := s'.threads) && PcOf(s'.threads, u) == PcOf(s.threads, u)
    ensures ThreadOk(s', u)
  {
    assert ThreadOk(s, u);
    var pc := PcOf(s.threads, t);
    assert HoldsControl(pc);
  }

  lemma MarkKeeps(s: State, t: Tid)
    requires Inv(s) && PcOf(s.threads, t).Setting? && PcOf(s.threads, t).at.Marking?
    ensures Inv(SetStep(s, t, PcOf(s.threads, t), false))
  {
    var pc := PcOf(s.threads, t);
    var s' := SetStep(s, t, pc, false);
    Others(s.threads, t, PcOf(s'.threads, t));
    assert ThreadOk(s, t);
    HolderSeesBinding(s, t);
    forall u: Tid ensures ThreadOk(s', u) {
      if u != t { MarkOther(s, t, s', u); }
    }
    forall u: Tid | Pending(PcOf(s.threads, u)).Some? ensures Pending(PcOf(s.threads, u)) != pc.replacement {
      assert ThreadOk(s, u);
    }
  }

  /** Nobody else looks at the slot while `t` has the write lock. */
  lemma SlotWriteOther(s: State, t: Tid, s': State, u: Tid)
    requires Inv(s) && PcOf(s.threads, t).Setting? && HoldsWrite(PcOf(s.threads, t)) && u != t
    requires s' == s.(slot := s'.slot, threads := s'.threads) && PcOf(s'.threads, u) == PcOf(s.threads, u)
    ensures ThreadOk(s', u)
  {
    assert ThreadOk(s, u);
    var pc := PcOf(s.threads, t);
  }

  lemma StoreKeeps(s: State, t: Tid)
    requires Inv(s) && PcOf(s.threads, t).Setting? && (PcOf(s.threads, t).at.Storing? || PcOf(s.threads, t).at.Restoring?)
    ensures Inv(SetStep(s, t, PcOf(s.threads, t), false))
  {
    var pc := PcOf(s.threads, t);
    var s' := SetStep(s, t, pc, false);
    Others(s.threads, t, PcOf(s'.threads, t));
    assert ThreadOk(s, t);
    forall u: Tid ensures ThreadOk(s', u) {
      if u != t { SlotWriteOther(s, t, s', u); }
    }
    assert pc.at.Storing? ==> Unsettled(PcOf(s'.threads, t));
    forall u: Tid | u != t ensures !Marked(PcOf(s.threads, u)) {}
  }

  lemma LegalGrows(history: seq<Change>, e: Option<Logger>, r: Option<Logger>)
    requires Legal(history) && e == Bound(history) && e != r
    ensures Legal(history + [Change(e, r)]) && Bound(history + [Change(e, r)]) == r
  {
    var longer := history + [Change(e, r)];
    forall i, j | 0 <= i < j < |longer| && j == i + 1 ensures longer[j].expected == longer[i].replacement {
      if j < |history| { assert history[j].expected == history[i].replacement; }
    }
  }

  lemma CommitOther(s: State, t: Tid, s': State, u: Tid)
    requires Inv(s) && PcOf(s.threads, t).Setting? && PcOf(s.threads, t).at.Publishing? && u != t
    requires s' == s.(ticket := s'.ticket, history := s'.history, threads := s'.threads) && PcOf(s'.threads, u) == PcOf(s.threads, u)
    requires Bound(s'.history) == PcOf(s.threads, t).replacement
    ensures ThreadOk(s', u)
  {
    assert ThreadOk(s, u) && ThreadOk(s, t);
    var pc := PcOf(s.threads, t);
    assert Marked(pc);
  }

  lemma CommitThreads(s: State, t: Tid)
    requires Inv(s) && PcOf(s.threads, t).Setting? && PcOf(s.threads, t).at.Publishing?
    requires s.ticket == PcOf(s.threads, t).seen.(phase := Stopping)
    ensures Threads(SetStep(s, t, PcOf(s.threads, t), false))
  {
    var pc := PcOf(s.threads, t);
    var s' := SetStep(s, t, pc, false);
    Others(s.threads, t, PcOf(s'.threads, t));
    assert ThreadOk(s, t);
    LegalGrows(s.history, pc.expected, pc.replacement);
    forall u: Tid ensures ThreadOk(s', u) {
      if u != t { CommitOther(s, t, s', u); }
    }
  }

  lemma CommitReleases(s: State, t: Tid)
    requires Inv(s) && PcOf(s.threads, t).Setting? && PcOf(s.threads, t).at.Publishing?
    requires s.ticket == PcOf(s.threads, t).seen.(phase := Stopping)
    ensures Releases(SetStep(s, t, PcOf(s.threads, t), false))
  {
    var pc := PcOf(s.threads, t);
    Others(s.threads, t, PcOf(SetStep(s, t, pc, false).threads, t));
    assert ThreadOk(s, t);
    forall u: Tid | u != t && Pending(PcOf(s.threads, u)).Some? ensures Pending(PcOf(s.threads, u)) != pc.expected {
      assert ThreadOk(s, u);
    }
    forall u: Tid | u != t ensures !Marked(PcOf(s.threads, u)) {}
  }

  /** The commit: one compare-and-swap on the packed ticket. */
  lemma CommitKeeps(s: State, t: Tid)
    requires Inv(s) && PcOf(s.threads, t).Setting? && PcOf(s.threads, t).at.Publishing?
    requires s.ticket == PcOf(s.threads, t).seen.(phase := Stopping)
    ensures Inv(SetStep(s, t, PcOf(s.threads, t), false))
  {
    var pc := PcOf(s.threads, t);
    Others(s.threads, t, PcOf(SetStep(s, t, pc, false).threads, t));
    assert ThreadOk(s, t);
    LegalGrows(s.history, pc.expected, pc.replacement);
    CommitThreads(s, t);
    CommitReleases(s, t);
  }

  lemma SetStepKeeps(s: State, t: Tid, fails: bool)
    requires Inv(s) && PcOf(s.threads, t).Setting?
    requires PcOf(s.threads, t).at.LockingControl? && !fails ==> s.control.None?
    requires PcOf(s.threads, t).at.LockingWrite? && !fails ==> s.writer.None? && s.readers == {}
    ensures Inv(SetStep(s, t, PcOf(s.threads, t), fails))
  {
    var pc := PcOf(s.threads, t);
    assert ThreadOk(s, t);
    if EarlyStep(pc.at) { EarlySetStep(s, t, fails); }
    else if CheckStep(pc.at) { CheckSetStep(s, t, fails); }
    else if pc.at.LockingControl? {
      if fails { MoveKeeps(s, t, Outside); } else { LockControlKeeps(s, t); }
    } else if pc.at.LockingWrite? {
      if fails { MoveKeeps(s, t, pc.(at := RollingBack)); } else { LockWriteKeeps(s, t); }
    } else if pc.at.Closing? || pc.at.RollingBack? { CloseKeeps(s, t); }
    else if pc.at.Marking? { MarkKeeps(s, t); }
    else if pc.at.Publishing? {
      if s.ticket == pc.seen.(phase := Stopping) { CommitKeeps(s, t); } else { FailedCommitKeeps(s, t); }
    } else { StoreKeeps(s, t); }
  }

  lemma FailedCommitKeeps(s: State, t: Tid)
    requires Inv(s) && PcOf(s.threads, t).Setting? && PcOf(s.threads, t).at.Publishing?
    requires s.ticket != PcOf(s.threads, t).seen.(phase := Stopping)
    ensures Inv(SetStep(s, t, PcOf(s.threads, t), false))
  {
    assert ThreadOk(s, t);
    MoveKeeps(s, t, PcOf(s.threads, t).(at := Restoring));
  }

  /** Changing who holds a lock touches none of the facts about other threads. */
  lemma LockOwnersOther(s: State, s': State, u: Tid)
    requires ThreadOk(s, u) && PcOf(s'.threads, u) == PcOf(s.threads, u)
    requires s' == s.(control := s'.control, writer := s'.writer, readers := s'.readers, threads := s'.threads)
    ensures ThreadOk(s', u)
  {
  }

  lemma UnlockPcOk(s: State, t: Tid, fails: bool, error: nat, released: bool)
    requires Inv(s) && PcOf(s.threads, t).Unlocking? && error > 0
    ensures var s' := UnlockStep(s, t, PcOf(s.threads, t), fails, error, released);
            && s' == s.(control := s'.control, writer := s'.writer, threads := s.threads[t := PcOf(s'.threads, t)])
            && ThreadOk(s', t)
  {
    assert ThreadOk(s, t);
  }

  /** Giving up a lock, whether or not the unlock reports success. */
  lemma UnlockStepKeeps(s: State, t: Tid, fails: bool, error: nat, released: bool)
    requires Inv(s) && PcOf(s.threads, t).Unlocking? && error > 0
    ensures Inv(UnlockStep(s, t, PcOf(s.threads, t), fails, error, released))
  {
    var pc := PcOf(s.threads, t);
    var s' := UnlockStep(s, t, pc, fails, error, released);
    Others(s.threads, t, PcOf(s'.threads, t));
    UnlockPcOk(s, t, fails, error, released);
    forall u: Tid ensures ThreadOk(s', u) {
      assert ThreadOk(s, u);
      if u != t { LockOwnersOther(s, s', u); }
    }
    SlotStays(s, t, s');
  }

  /** Clearing the flag, the very last step. */
  lemma ReleaseOther(s: State, t: Tid, s': State, u: Tid)
    requires Inv(s) && PcOf(s.threads, t).Releasing? && u != t
    requires s' == s.(borrowed := s.borrowed - {PcOf(s.threads, t).logger}, threads := s'.threads)
    requires PcOf(s'.threads, u) == PcOf(s.threads, u)
    ensures ThreadOk(s', u)
  {
    assert ThreadOk(s, u) && ThreadOk(s, t);
    assert Pending(PcOf(s.threads, t)).Some?;
    var pc := PcOf(s.threads, u);
  }

  lemma ReleaseKeeps(s: State, t: Tid)
    requires Inv(s) && PcOf(s.threads, t).Releasing?
    ensures Inv(Go(s, t, Outside).(borrowed := s.borrowed - {PcOf(s.threads, t).logger}))
  {
    var s' := Go(s, t, Outside).(borrowed := s.borrowed - {PcOf(s.threads, t).logger});
    Others(s.threads, t, Outside);
    assert ThreadOk(s, t);
    forall u: Tid ensures ThreadOk(s', u) {
      if u != t { ReleaseOther(s, t, s', u); }
    }
    SlotStays(s, t, s');
  }

  predicate ReaderPc(pc: Pc) {
    pc.ReadEntering? || pc.ReadObserving? || pc.ReadLocking? || HoldsRead(pc)
  }

  lemma ReadMoveKeeps(s: State, t: Tid, fails: bool, error: nat, released: bool)
    requires Inv(s) && ReaderPc(PcOf(s.threads, t))
    requires PcOf(s.threads, t).ReadLocking? ==> fails
    requires !PcOf(s.threads, t).ReadUnlocking?
    ensures Inv(ReadStep(s, t, PcOf(s.threads, t), fails, error, released))
  {
    var pc := PcOf(s.threads, t);
    var pc' := PcOf(ReadStep(s, t, pc, fails, error, released).threads, t);
    assert ThreadOk(s, t);
    if HoldsRead(pc) { HolderSeesBinding(s, t); }
    Others(s.threads, t, pc');
    MoveKeeps(s, t, pc');
  }

  lemma ReadLockKeeps(s: State, t: Tid, fails: bool, error: nat, released: bool)
    requires Inv(s) && error > 0
    requires PcOf(s.threads, t).ReadUnlocking? || (PcOf(s.threads, t).ReadLocking? && !fails && s.writer.None?)
    ensures Inv(ReadStep(s, t, PcOf(s.threads, t), fails, error, released))
  {
    var pc := PcOf(s.threads, t);
    var s' := ReadStep(s, t, pc, fails, error, released);
    Others(s.threads, t, PcOf(s'.threads, t));
    assert ThreadOk(s, t);
    forall u: Tid ensures ThreadOk(s', u) { assert ThreadOk(s, u); }
    SlotStays(s, t, s');
  }

  lemma PoisonKeeps(s: State, t: Tid, s': State)
    requires Inv(s) && (PcOf(s.threads, t).PoisoningError? || PcOf(s.threads, t).PoisoningTicket?)
    requires var pc := PcOf(s.threads, t);
             s' == if pc.PoisoningError?
                   then Go(s, t, PoisoningTicket).(lockError := if s.lockError == 0 then pc.error else s.lockError)
                   else Go(s, t, Stuck).(ticket := s.ticket.(phase := Broken))
    ensures Inv(s')
  {
    Others(s.threads, t, PcOf(s'.threads, t));
    assert ThreadOk(s, t);
    forall u: Tid ensures ThreadOk(s', u) { assert ThreadOk(s, u); }
    SlotStays(s, t, s');
  }

  lemma HostStepKeeps(s: State, step: Step)
    requires Inv(s) && Enabled(s, step) && (step.Create? || step.Accept? || step.StopAccepting? || step.Destroy?)
    ensures Inv(Apply(s, step))
  {
    var s' := Apply(s, step);
    forall u: Tid ensures ThreadOk(s', u) {
      assert ThreadOk(s, u);
      assert step.Destroy? ==> !Named(PcOf(s.threads, u), step.l);
    }
  }

  lemma BeginKeeps(s: State, step: Step)
    requires Inv(s) && Enabled(s, step) && (step.BeginSet? || step.BeginRead?)
    ensures Inv(Apply(s, step))
  {
    MoveKeeps(s, step.t, if step.BeginSet? then Setting(Entering, step.e, step.r, s.ticket) else ReadEntering);
  }

  lemma AdvanceKeeps(s: State, step: Step)
    requires Inv(s) && Enabled(s, step) && step.Advance?
    ensures Inv(Apply(s, step))
  {
    var t, pc := step.t, PcOf(s.threads, step.t);
    if pc.Setting? { SetStepKeeps(s, t, step.fails); }
    else if pc.Unlocking? { UnlockStepKeeps(s, t, step.fails, step.error, step.released); }
    else if pc.Releasing? { ReleaseKeeps(s, t); }
    else if pc.PoisoningError? || pc.PoisoningTicket? { PoisonKeeps(s, t, Apply(s, step)); }
    else if pc.ReadUnlocking? || (pc.ReadLocking? && !step.fails) { ReadLockKeeps(s, t, step.fails, step.error, step.released); }
    else { ReadMoveKeeps(s, t, step.fails, step.error, step.released); }
  }

  lemma StepKeeps(s: State, step: Step)
    requires Inv(s) && Enabled(s, step)
    ensures Inv(Apply(s, step))
  {
    if step.BeginSet? || step.BeginRead? { BeginKeeps(s, step); }
    else if step.Advance? { AdvanceKeeps(s, step); }
    else { HostStepKeeps(s, step); }
  }

  // ---- Runs ---------------------------------------------------------------------------

  const Start: State := State(Ticket(0, Idle), 0, None, None, None, {}, {}, {}, {}, map[], [])

  ghost predicate IsRun(states: seq<State>, steps: seq<Step>) {
    && |states| == |steps| + 1 && states[0] == Start
    && forall i :: 0 <= i < |steps| ==> StepAt(states, steps, i)
  }

  ghost predicate StepAt(states: seq<State>, steps: seq<Step>, i: nat)
    requires i < |steps| < |states|
  {
    Enabled(states[i], steps[i]) && states[i + 1] == Apply(states[i], steps[i])
  }

  lemma RunStep(states: seq<State>, steps: seq<Step>, i: nat)
    requires IsRun(states, steps) && i < |steps|
    ensures Enabled(states[i], steps[i]) && states[i + 1] == Apply(states[i], steps[i])
  {
    assert StepAt(states, steps, i);
  }

  lemma {:induction false} RunInv(states: seq<State>, steps: seq<Step>, i: nat)
    requires IsRun(states, steps) && i < |states|
    ensures Inv(states[i])
  {
    if i == 0 {
      forall t: Tid ensures ThreadOk(Start, t) {}
    } else {
      RunInv(states, steps, i - 1);
      RunStep(states, steps, i - 1);
      StepKeeps(states[i - 1], steps[i - 1]);
    }
  }

  // ---- Borrow safety ---------------------------------------------------------------------

  /** A reader uses the logger in the slot: it exists, its flag is set, and it is
      not about to be destroyed. */
  lemma UseIsSafe(s: State, t: Tid, l: Logger)
    requires Inv(s) && PcOf(s.threads, t) == Using(l)
    ensures s.slot == Bound(s.history) == Some(l)
    ensures l in s.borrowed && l in s.live && !Enabled(s, Destroy(l))
  {
    assert ThreadOk(s, t);
    HolderSeesBinding(s, t);
  }

  /** When a thread is about to clear a flag, nobody is pinned on that logger, it
      is not in the slot, no one is binding it again, and no other thread has a
      release of it pending: a late clear never erases a newer binding's flag. */
  lemma LateClearIsSafe(s: State, t: Tid, l: Logger, u: Tid)
    requires Inv(s) && PcOf(s.threads, t) == Releasing(l)
    ensures l in s.borrowed && s.slot != Some(l) && Bound(s.history) != Some(l)
    ensures !(PcOf(s.threads, u) == Using(l))
    ensures Marked(PcOf(s.threads, u)) ==> PcOf(s.threads, u).replacement != Some(l)
    ensures u != t ==> Pending(PcOf(s.threads, u)) != Some(l)
  {
    assert ThreadOk(s, t) && ThreadOk(s, u);
    if s.slot != Bound(s.history) {
      var v: Tid :| Unsettled(PcOf(s.threads, v));
      assert ThreadOk(s, v) && Marked(PcOf(s.threads, v));
      assert Pending(PcOf(s.threads, t)) == Some(l);
    }
    if PcOf(s.threads, u).Using? { HolderSeesBinding(s, u); }
  }

  /** The borrow flag is set on the bound logger, and on every logger that still
      has a release pending or is being bound. */
  lemma BorrowFlags(s: State, t: Tid, l: Logger)
    requires Inv(s)
    requires Bound(s.history) == Some(l) || Pending(PcOf(s.threads, t)) == Some(l)
             || (Marked(PcOf(s.threads, t)) && PcOf(s.threads, t).replacement == Some(l))
    ensures l in s.borrowed && l in s.live
  {
    assert ThreadOk(s, t);
  }

  /** The thread is going to clear this flag, or is binding this logger. */
  predicate Claims(pc: Pc, l: Logger) {
    Pending(pc) == Some(l) || (Marked(pc) && pc.replacement == Some(l))
  }

  /** No unlock has failed so far. */
  ghost predicate Clean(s: State) {
    s.lockError == 0 && forall t: Tid :: !PcOf(s.threads, t).PoisoningError?
  }

  ghost predicate Explained(s: State, l: Logger) {
    Bound(s.history) == Some(l) || exists t: Tid :: Claims(PcOf(s.threads, t), l)
  }

  ghost predicate FlagsExplained(s: State) {
    Clean(s) ==> forall l :: l in s.borrowed ==> Explained(s, l)
  }

  /** A setter's step changes the pc of no other thread. */
  lemma SetStepMoves(s: State, t: Tid, pc: Pc, fails: bool)
    requires pc.Setting?
    ensures var s' := SetStep(s, t, pc, fails); t in s'.threads && s'.threads == s.threads[t := s'.threads[t]]
    ensures SetStep(s, t, pc, fails).lockError == s.lockError
  {
  }

  lemma OthersKeep(s: State, step: Step, t: Tid)
    requires Enabled(s, step) && !(step.Advance? && step.t == t) && !PcOf(s.threads, t).Outside?
    ensures PcOf(Apply(s, step).threads, t) == PcOf(s.threads, t)
  {
    if step.Advance? && PcOf(s.threads, step.t).Setting? {
      SetStepMoves(s, step.t, PcOf(s.threads, step.t), step.fails);
    }
  }

  lemma LockErrorStays(s: State, step: Step)
    requires Inv(s) && Enabled(s, step)
    ensures s.lockError != 0 ==> Apply(s, step).lockError != 0
    ensures step.Advance? && PcOf(s.threads, step.t).PoisoningError? ==> Apply(s, step).lockError != 0
  {
    if step.Advance? {
      assert ThreadOk(s, step.t);
      if PcOf(s.threads, step.t).Setting? { SetStepMoves(s, step.t, PcOf(s.threads, step.t), step.fails); }
    }
  }

  lemma CleanBefore(s: State, step: Step)
    requires Inv(s) && Enabled(s, step) && Clean(Apply(s, step))
    ensures Clean(s)
  {
    LockErrorStays(s, step);
    forall t: Tid ensures !PcOf(s.threads, t).PoisoningError? { NotPoisoning(s, step, t); }
  }

  lemma NotPoisoning(s: State, step: Step, t: Tid)
    requires Inv(s) && Enabled(s, step) && Clean(Apply(s, step))
    ensures !PcOf(s.threads, t).PoisoningError?
  {
    LockErrorStays(s, step);
    var s' := Apply(s, step);
    assert !PcOf(s'.threads, t).PoisoningError?;
    if !(step.Advance? && step.t == t) && !PcOf(s.threads, t).Outside? { OthersKeep(s, step, t); }
  }

  /** What a thread claims, it goes on claiming, or the logger is bound, or the flag is
      clear. */
  lemma ClaimPasses(s: State, step: Step, l: Logger)
    requires Inv(s) && Enabled(s, step) && step.Advance? && Clean(Apply(s, step))
    requires Claims(PcOf(s.threads, step.t), l) && l in Apply(s, step).borrowed
    ensures Bound(Apply(s, step).history) == Some(l) || Claims(PcOf(Apply(s, step).threads, step.t), l)
  {
    assert ThreadOk(s, step.t);
    assert !PcOf(Apply(s, step).threads, step.t).PoisoningError?;
  }

  /** A new flag is claimed by the thread that set it. */
  lemma NewFlag(s: State, step: Step, l: Logger)
    requires Enabled(s, step) && l in Apply(s, step).borrowed && l !in s.borrowed
    ensures step.Advance? && Claims(PcOf(Apply(s, step).threads, step.t), l)
  {
  }

  /** A logger that is no longer bound is claimed by the thread that replaced it. */
  lemma OldBinding(s: State, step: Step, l: Logger)
    requires Inv(s) && Enabled(s, step) && Bound(s.history) == Some(l) && Bound(Apply(s, step).history) != Some(l)
    ensures step.Advance? && Claims(PcOf(Apply(s, step).threads, step.t), l)
  {
    OnlyCommitsCount(s, step);
    assert ThreadOk(s, step.t);
  }

  lemma FlagStep(s: State, step: Step, l: Logger)
    requires Inv(s) && Enabled(s, step) && Clean(Apply(s, step))
    requires l in Apply(s, step).borrowed && (l in s.borrowed ==> Explained(s, l))
    ensures Explained(Apply(s, step), l)
  {
    var s' := Apply(s, step);
    if l !in s.borrowed {
      NewFlag(s, step, l);
    } else if Bound(s.history) == Some(l) {
      if Bound(s'.history) != Some(l) { OldBinding(s, step, l); }
    } else {
      var t: Tid :| Claims(PcOf(s.threads, t), l);
      if step.Advance? && step.t == t {
        ClaimPasses(s, step, l);
      } else {
        OthersKeep(s, step, t);
      }
    }
  }

  lemma FlagsStep(s: State, step: Step)
    requires Inv(s) && Enabled(s, step) && FlagsExplained(s)
    ensures FlagsExplained(Apply(s, step))
  {
    var s' := Apply(s, step);
    if Clean(s') {
      CleanBefore(s, step);
      forall l | l in s'.borrowed ensures Explained(s', l) { FlagStep(s, step, l); }
    }
  }

  lemma {:induction false} FlagsInEveryRun(states: seq<State>, steps: seq<Step>, i: nat)
    requires IsRun(states, steps) && i < |states|
    ensures FlagsExplained(states[i])
  {
    if i > 0 {
      FlagsInEveryRun(states, steps, i - 1);
      RunInv(states, steps, i - 1);
      RunStep(states, steps, i - 1);
      FlagsStep(states[i - 1], steps[i - 1]);
    }
  }

  /** While no unlock has failed, a logger's flag is set exactly when it is bound, being
      bound, or has its release pending. */
  lemma FlagsExactly(states: seq<State>, steps: seq<Step>, i: nat, l: Logger)
    requires IsRun(states, steps) && i < |states| && Clean(states[i])
    ensures l in states[i].borrowed <==> Explained(states[i], l)
  {
    FlagsInEveryRun(states, steps, i);
    RunInv(states, steps, i);
    if Bound(states[i].history) == Some(l) {
      BorrowFlags(states[i], 0, l);
    } else if t: Tid :| Claims(PcOf(states[i].threads, t), l) {
      BorrowFlags(states[i], t, l);
    }
  }

  /** In every run a running ticket comes with a logger in the slot: the bound one, which
      exists and is flagged. */
  lemma RunningHasLogger(states: seq<State>, steps: seq<Step>, i: nat)
    requires IsRun(states, steps) && i < |states| && states[i].ticket.phase.Running?
    ensures states[i].slot == Bound(states[i].history) && states[i].slot.Some?
    ensures states[i].slot.value in states[i].live && states[i].slot.value in states[i].borrowed
  {
    RunInv(states, steps, i);
    var s := states[i];
    forall t: Tid ensures !Unsettled(PcOf(s.threads, t)) { assert ThreadOk(s, t); }
  }

  /** In every run a reader that got past its checks has a logger that exists. */
  lemma NoUseAfterDestroy(states: seq<State>, steps: seq<Step>, i: nat, t: Tid)
    requires IsRun(states, steps) && i < |states|
    ensures PcOf(states[i].threads, t).Using? ==> PcOf(states[i].threads, t).logger in states[i].live
    ensures PcOf(states[i].threads, t).ReadLoading? ==> states[i].slot.Some?
  {
    RunInv(states, steps, i);
    assert ThreadOk(states[i], t);
    if PcOf(states[i].threads, t).Using? { UseIsSafe(states[i], t, PcOf(states[i].threads, t).logger); }
  }

  // ---- Linearizability ----------------------------------------------------------------------

  /** Only the publishing step of a setter changes the committed history. */
  lemma OnlyCommitsCount(s: State, step: Step)
    requires Enabled(s, step)
    ensures s.history <= Apply(s, step).history
    ensures Apply(s, step).history != s.history ==>
              step.Advance? && PcOf(s.threads, step.t).Setting? && PcOf(s.threads, step.t).at.Publishing?
              && s.ticket == PcOf(s.threads, step.t).seen.(phase := Stopping)
  {
  }

  /** `logger_default_set` commits like one compare-and-swap: at the commit the
      slot still holds what the caller expected and no change was committed since
      its first ticket load; the generation goes up by one. */
  lemma CommitIsCompareAndSwap(s: State, t: Tid, fails: bool)
    requires Inv(s) && PcOf(s.threads, t).Setting? && PcOf(s.threads, t).at.Publishing?
    requires s.ticket == PcOf(s.threads, t).seen.(phase := Stopping)
    ensures var pc := PcOf(s.threads, t); var s' := SetStep(s, t, pc, fails);
            && pc.expected == Bound(s.history) && pc.seen.generation == s.ticket.generation == |s.history|
            && s'.history == s.history + [Change(pc.expected, pc.replacement)] && Legal(s'.history)
            && s'.ticket.generation == s.ticket.generation + 1 && Bound(s'.history) == pc.replacement == s'.slot
  {
    assert ThreadOk(s, t);
    var pc := PcOf(s.threads, t);
    LegalGrows(s.history, pc.expected, pc.replacement);
  }

  /** A setter between its first ticket load and its unlocks. */
  predicate InCall(pc: Pc) {
    pc.Setting? && !pc.at.Entering? && !pc.at.Observing?
  }

  lemma SetStepSees(s: State, t: Tid, fails: bool)
    requires InCall(PcOf(s.threads, t)) && InCall(PcOf(SetStep(s, t, PcOf(s.threads, t), fails).threads, t))
    ensures PcOf(SetStep(s, t, PcOf(s.threads, t), fails).threads, t).seen == PcOf(s.threads, t).seen
  {
  }

  lemma SeenStays(s: State, step: Step, t: Tid)
    requires Enabled(s, step) && InCall(PcOf(s.threads, t)) && InCall(PcOf(Apply(s, step).threads, t))
    ensures PcOf(Apply(s, step).threads, t).seen == PcOf(s.threads, t).seen
  {
    if step.Advance? && step.t == t { SetStepSees(s, t, step.fails); } else { OthersKeep(s, step, t); }
  }

  lemma {:induction false} CallRemembers(states: seq<State>, steps: seq<Step>, i: nat, j: nat, t: Tid)
    requires IsRun(states, steps) && i < j < |states|
    requires steps[i].Advance? && steps[i].t == t
    requires PcOf(states[i].threads, t).Setting? && PcOf(states[i].threads, t).at.Observing?
    requires forall k :: i < k <= j ==> InCall(PcOf(states[k].threads, t))
    ensures InCall(PcOf(states[j].threads, t)) && PcOf(states[j].threads, t).seen == states[i].ticket
    ensures states[i].history <= states[j].history
  {
    assert InCall(PcOf(states[j].threads, t));
    if i + 1 < j {
      assert InCall(PcOf(states[j - 1].threads, t));
      CallRemembers(states, steps, i, j - 1, t);
      CallStep(states, steps, j - 1, t);
    } else {
      RunStep(states, steps, i);
      OnlyCommitsCount(states[i], steps[i]);
    }
  }

  lemma CallStep(states: seq<State>, steps: seq<Step>, k: nat, t: Tid)
    requires IsRun(states, steps) && k < |steps|
    requires InCall(PcOf(states[k].threads, t)) && InCall(PcOf(states[k + 1].threads, t))
    ensures PcOf(states[k + 1].threads, t).seen == PcOf(states[k].threads, t).seen
    ensures states[k].history <= states[k + 1].history
  {
    RunStep(states, steps, k);
    OnlyCommitsCount(states[k], steps[k]);
    SeenStays(states[k], steps[k], t);
  }

  /** No ABA: when a call commits, no change at all was committed between its
      first ticket load and its commit, even if the same pointer came back. */
  lemma NoChangeDuringCommittingCall(states: seq<State>, steps: seq<Step>, i: nat, j: nat, t: Tid)
    requires IsRun(states, steps) && i < j < |steps|
    requires steps[i].Advance? && steps[i].t == t
    requires PcOf(states[i].threads, t).Setting? && PcOf(states[i].threads, t).at.Observing?
    requires forall k :: i < k <= j ==> InCall(PcOf(states[k].threads, t))
    requires steps[j].Advance? && steps[j].t == t && states[j + 1].history != states[j].history
    ensures states[i].history == states[j].history && InCall(PcOf(states[j].threads, t))
    ensures states[j + 1].history == states[i].history + [Change(PcOf(states[j].threads, t).expected, PcOf(states[j].threads, t).replacement)]
    ensures PcOf(states[j].threads, t).expected == Bound(states[i].history)
  {
    RunInv(states, steps, i);
    RunInv(states, steps, j);
    CallRemembers(states, steps, i, j, t);
    RunStep(states, steps, j);
    OnlyCommitsCount(states[j], steps[j]);
    CommitIsCompareAndSwap(states[j], t, steps[j].fails);
  }

  lemma BrokenSetStep(s: State, t: Tid, fails: bool)
    requires Inv(s) && PcOf(s.threads, t).Setting? && s.ticket.phase.Broken?
    ensures var s' := SetStep(s, t, PcOf(s.threads, t), fails);
            s'.ticket == s.ticket && s'.history == s.history && s'.lockError == s.lockError
  {
    assert ThreadOk(s, t);
  }

  /** A poisoned slot stays poisoned, and nothing is committed any more. */
  lemma BrokenStays(s: State, step: Step)
    requires Inv(s) && Enabled(s, step) && s.ticket.phase.Broken?
    ensures Apply(s, step).ticket == s.ticket && Apply(s, step).history == s.history
    ensures s.lockError != 0 && Apply(s, step).lockError == s.lockError
  {
    if step.Advance? && PcOf(s.threads, step.t).Setting? { BrokenSetStep(s, step.t, step.fails); }
  }
}
