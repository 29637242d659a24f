/** The bounded multi-producer, single-consumer ring with its pool of spill
    blocks, as interleaved atomic steps over unbounded positions. Copies into a
    slot or a block are not atomic: a torn copy may expose arbitrary bytes. */
module Ring {
  import opened Options
  import opened Bits
  import opened Record

  type Tid = nat

  datatype Slot = Slot(seqno: nat, record: QueueRecord)

  /** Where a producer stands in `logger_queue_push`. */
  datatype Producer =
    | Idle
    | Taking(m: Message)                                  // scanning the spill bitmap
    | Copying(m: Message, block: nat)                     // copying the text into its block
    | Loading(m: Message, spill: Option<nat>)             // about to load enqueue_pos
    | Reading(m: Message, spill: Option<nat>, pos: nat)   // about to read the slot's sequence
    | Swapping(m: Message, spill: Option<nat>, pos: nat)  // saw a free slot, about to reserve
    | Refused(m: Message, spill: Option<nat>)             // saw a full ring, about to give up
    | Packing(m: Message, spill: Option<nat>, pos: nat)   // reserved, writing the record
    | Packed(m: Message, spill: Option<nat>, pos: nat)    // record complete, about to publish

  /** Where the worker stands in `logger_queue_try_pop`. */
  datatype Consumer =
    | Looking
    | Unpacking
    | Returning(spill: Option<nat>)
    | Freeing
    | Advancing

  datatype Owner = ByProducer(t: Tid) | BySlot(p: nat) | ByConsumer

  /** `sent`, `received`, `writer` and `holder` are history: the messages by
      reserved position, the popped records, the producer of each reserved but
      unpublished position, and the owner of each spill block in use. */
  datatype State = State(
    cap: nat, spillCap: nat,
    slots: seq<Slot>, enq: nat, deq: nat,
    used: set<nat>, blocks: seq<seq<Byte>>,
    producers: map<Tid, Producer>, consumer: Consumer,
    sent: seq<Message>, received: seq<Delivered>,
    writer: map<nat, Tid>, holder: map<nat, Owner>)

  datatype Step =
    | Begin(t: Tid, m: Message)
    | Take(t: Tid, b: nat)
    | Exhausted(t: Tid)
    | TearBlock(t: Tid, junk: seq<Byte>)
    | CopyText(t: Tid)
    | Load(t: Tid)
    | ReadSeq(t: Tid)
    | Swap(t: Tid, spurious: bool)
    | TearSlot(t: Tid, junkRecord: QueueRecord)
    | PackRecord(t: Tid)
    | Publish(t: Tid)
    | PutBack(t: Tid)
    | Look
    | Unpack
    | Return
    | Free
    | Advance

  function PcOf(producers: map<Tid, Producer>, t: Tid): Producer {
    if t in producers then producers[t] else Idle
  }

  predicate Writing(p: Producer) {
    p.Packing? || p.Packed?
  }

  /** The block a producer owns. */
  function BlockOf(p: Producer): Option<nat> {
    match p
    case Idle => None
    case Taking(_) => None
    case Copying(_, b) => Some(b)
    case Loading(_, sp) => sp
    case Reading(_, sp, _) => sp
    case Swapping(_, sp, _) => sp
    case Refused(_, sp) => sp
    case Packing(_, sp, _) => sp
    case Packed(_, sp, _) => sp
  }

  predicate Long(m: Message)
    requires WellFormed(m)
  {
    TextLengthSpec(m) > INLINE_TEXT
  }

  predicate Accepted(m: Message) {
    WellFormed(m) && TextLengthSpec(m) < MESSAGE_MAX
  }

  function SlotAt(slots: seq<Slot>, p: nat): Slot
    requires |slots| > 0
  {
    slots[p % |slots|]
  }

  function SetSlot(slots: seq<Slot>, p: nat, slot: Slot): seq<Slot>
    requires |slots| > 0
  {
    slots[p % |slots| := slot]
  }

  function Go(s: State, t: Tid, p: Producer): State {
    s.(producers := s.producers[t := p])
  }

  // ---- The steps --------------------------------------------------------

  predicate Shape(s: State) {
    2 <= s.cap == |s.slots| && |s.blocks| == s.spillCap
  }

  predicate Enabled(s: State, step: Step)
    requires Shape(s)
  {
    match step
    case Begin(t, m) => PcOf(s.producers, t).Idle? && Accepted(m)
    case Take(t, b) => PcOf(s.producers, t).Taking? && b < s.spillCap && b !in s.used
    case Exhausted(t) => PcOf(s.producers, t).Taking?
    case TearBlock(t, _) => PcOf(s.producers, t).Copying? && PcOf(s.producers, t).block < s.spillCap
    case CopyText(t) => PcOf(s.producers, t).Copying? && PcOf(s.producers, t).block < s.spillCap && Accepted(PcOf(s.producers, t).m)
    case Load(t) => PcOf(s.producers, t).Loading?
    case ReadSeq(t) => PcOf(s.producers, t).Reading?
    case Swap(t, _) => PcOf(s.producers, t).Swapping?
    case TearSlot(t, _) => PcOf(s.producers, t).Packing?
    case PackRecord(t) => PcOf(s.producers, t).Packing? && Accepted(PcOf(s.producers, t).m)
    case Publish(t) => PcOf(s.producers, t).Packed?
    case PutBack(t) => PcOf(s.producers, t).Refused?
    case Look => s.consumer.Looking?
    case Unpack => s.consumer.Unpacking?
    case Return => s.consumer.Returning?
    case Free => s.consumer.Freeing?
    case Advance => s.consumer.Advancing?
  }

  function Apply(s: State, step: Step): State
    requires Shape(s) && Enabled(s, step)
  {
    match step
    case Begin(t, m) => Go(s, t, if Long(m) then Taking(m) else Loading(m, None))
    case Take(t, b) =>
      Go(s, t, Copying(PcOf(s.producers, t).m, b)).(used := s.used + {b}, holder := s.holder[b := ByProducer(t)])
    case Exhausted(t) => Go(s, t, Idle)
    case TearBlock(t, junk) => s.(blocks := s.blocks[PcOf(s.producers, t).block := junk])
    case CopyText(t) =>
      var pc := PcOf(s.producers, t);
      Go(s, t, Loading(pc.m, Some(pc.block)))
      .(blocks := s.blocks[pc.block := pc.m.text[..TextLengthSpec(pc.m) + 1]])
    case Load(t) => var pc := PcOf(s.producers, t); Go(s, t, Reading(pc.m, pc.spill, s.enq))
    case ReadSeq(t) =>
      var pc := PcOf(s.producers, t);
      var seqno := SlotAt(s.slots, pc.pos).seqno;
      Go(s, t,
         if seqno == pc.pos then Swapping(pc.m, pc.spill, pc.pos)
         else if seqno < pc.pos then Refused(pc.m, pc.spill)
         else Loading(pc.m, pc.spill))
    case Swap(t, spurious) =>
      var pc := PcOf(s.producers, t);
      if s.enq == pc.pos && !spurious then
        Go(s, t, Packing(pc.m, pc.spill, pc.pos))
        .(enq := s.enq + 1, sent := s.sent + [pc.m], writer := s.writer[pc.pos := t])
      else Go(s, t, Reading(pc.m, pc.spill, s.enq))
    case TearSlot(t, junk) =>
      var pos := PcOf(s.producers, t).pos;
      s.(slots := SetSlot(s.slots, pos, SlotAt(s.slots, pos).(record := junk)))
    case PackRecord(t) =>
      var pc := PcOf(s.producers, t);
      var record := Pack(pc.m, TextLengthSpec(pc.m), pc.spill);
      Go(s, t, Packed(pc.m, pc.spill, pc.pos))
      .(slots := SetSlot(s.slots, pc.pos, SlotAt(s.slots, pc.pos).(record := record)))
    case Publish(t) =>
      var pc := PcOf(s.producers, t);
      Go(s, t, Idle)
      .(slots := SetSlot(s.slots, pc.pos, SlotAt(s.slots, pc.pos).(seqno := pc.pos + 1)),
        writer := s.writer - {pc.pos},
        holder := if pc.spill.Some? then s.holder[pc.spill.value := BySlot(pc.pos)] else s.holder)
    case PutBack(t) => PutSpill(Go(s, t, Idle), PcOf(s.producers, t).spill)
    case Look => if SlotAt(s.slots, s.deq).seqno == s.deq + 1 then s.(consumer := Unpacking) else s
    case Unpack =>
      var record := SlotAt(s.slots, s.deq).record;
      var block := if record.spill.Some? && record.spill.value < s.spillCap then s.blocks[record.spill.value] else [];
      s.(consumer := Returning(record.spill),
         received := s.received + [Record.Unpack(record, block)],
         holder := if record.spill.Some? then s.holder[record.spill.value := ByConsumer] else s.holder)
    case Return => PutSpill(s.(consumer := Freeing), s.consumer.spill)
    case Free =>
      s.(consumer := Advancing,
         slots := SetSlot(s.slots, s.deq, SlotAt(s.slots, s.deq).(seqno := s.deq + s.cap)))
    case Advance => s.(consumer := Looking, deq := s.deq + 1)
  }

  function PutSpill(s: State, spill: Option<nat>): State {
    if spill.Some? then s.(used := s.used - {spill.value}, holder := s.holder - {spill.value}) else s
  }

  // ---- The invariant ------------------------------------------------------

  /** Positions whose slot has been handed back: `try_pop` frees the slot before
      it advances dequeue_pos, so this can be one ahead of dequeue_pos. */
  function Released(s: State): nat {
    s.deq + if s.consumer.Advancing? then 1 else 0
  }

  /** Positions already copied out. */
  function Copied(s: State): nat {
    s.deq + if s.consumer.Looking? || s.consumer.Unpacking? then 0 else 1
  }

  /** The record of a reserved position is published. */
  predicate Published(s: State, p: nat) {
    p < s.enq && p !in s.writer
  }

  ghost predicate Bounds(s: State) {
    && Released(s) <= s.enq <= Released(s) + s.cap
    && |s.sent| == s.enq
    && |s.received| == Copied(s) <= s.enq
    && (!s.consumer.Looking? ==> s.deq < s.enq && s.deq !in s.writer)
  }

  /** Every slot of the window holds its position, plus one exactly when the
      record of that position is published. */
  ghost predicate Sequences(slots: seq<Slot>, lo: nat, enq: nat, writer: map<nat, Tid>)
    requires |slots| > 0
  {
    forall p {:trigger SlotAt(slots, p)} :: lo <= p < lo + |slots| ==>
      SlotAt(slots, p).seqno == if p < enq && p !in writer then p + 1 else p
  }

  /** Every reserved and unpublished position has a producer at work on it. */
  ghost predicate Writers(writer: map<nat, Tid>, lo: nat, enq: nat, producers: map<Tid, Producer>) {
    forall p :: p in writer ==>
      && lo <= p < enq
      && Writing(PcOf(producers, writer[p])) && PcOf(producers, writer[p]).pos == p
  }

  ghost predicate SpillFits(m: Message, spill: Option<nat>)
    requires WellFormed(m)
  {
    spill.Some? <==> Long(m)
  }

  ghost predicate BlockHolds(blocks: seq<seq<Byte>>, spill: Option<nat>, m: Message)
    requires Accepted(m)
  {
    spill.Some? ==> spill.value < |blocks| && blocks[spill.value] == m.text[..TextLengthSpec(m) + 1]
  }

  ghost predicate Ready(blocks: seq<seq<Byte>>, m: Message, spill: Option<nat>) {
    Accepted(m) && SpillFits(m, spill) && BlockHolds(blocks, spill, m)
  }

  ghost predicate Held(holder: map<nat, Owner>, spill: Option<nat>, o: Owner) {
    spill.Some? ==> spill.value in holder && holder[spill.value] == o
  }

  ghost predicate Reserved(s: State, t: Tid, m: Message, pos: nat) {
    pos in s.writer && s.writer[pos] == t && pos < |s.sent| && s.sent[pos] == m
  }

  ghost predicate ProducerOk(s: State, t: Tid)
    requires Shape(s)
  {
    var pc := PcOf(s.producers, t);
    && Held(s.holder, BlockOf(pc), ByProducer(t))
    && match pc
       case Idle => true
       case Taking(m) => Accepted(m) && Long(m)
       case Copying(m, b) => Accepted(m) && Long(m) && b < s.spillCap
       case Loading(m, sp) => Ready(s.blocks, m, sp)
       case Reading(m, sp, pos) => Ready(s.blocks, m, sp) && pos <= s.enq
       case Swapping(m, sp, pos) =>
         Ready(s.blocks, m, sp) && pos <= s.enq && pos < Released(s) + s.cap
       case Refused(m, sp) => Ready(s.blocks, m, sp)
       case Packing(m, sp, pos) => Ready(s.blocks, m, sp) && Reserved(s, t, m, pos)
       case Packed(m, sp, pos) =>
         && Ready(s.blocks, m, sp) && Reserved(s, t, m, pos)
         && SlotAt(s.slots, pos).record == Pack(m, TextLengthSpec(m), sp)
  }

  ghost predicate Producers(s: State)
    requires Shape(s)
  {
    forall t: Tid :: ProducerOk(s, t)
  }

  ghost predicate StoredAt(record: QueueRecord, p: nat, m: Message, blocks: seq<seq<Byte>>, holder: map<nat, Owner>) {
    && Ready(blocks, m, record.spill)
    && record == Pack(m, TextLengthSpec(m), record.spill)
    && Held(holder, record.spill, BySlot(p))
  }

  /** Published records wait unharmed in their slots and blocks. */
  ghost predicate Stored(slots: seq<Slot>, sent: seq<Message>, copied: nat, writer: map<nat, Tid>,
                         blocks: seq<seq<Byte>>, holder: map<nat, Owner>)
    requires |slots| > 0
  {
    forall p {:trigger SlotAt(slots, p)} :: copied <= p < |sent| && p !in writer ==>
      StoredAt(SlotAt(slots, p).record, p, sent[p], blocks, holder)
  }

  ghost predicate Delivery(sent: seq<Message>, received: seq<Delivered>) {
    && (forall p :: 0 <= p < |sent| ==> Accepted(sent[p]))
    && |received| <= |sent|
    && (forall i :: 0 <= i < |received| ==> received[i] == Expected(sent[i]))
  }

  ghost predicate Owns(s: State, o: Owner, b: nat)
    requires Shape(s)
  {
    match o
    case ByProducer(t) => BlockOf(PcOf(s.producers, t)) == Some(b)
    case BySlot(p) =>
      Copied(s) <= p < s.enq && p !in s.writer && SlotAt(s.slots, p).record.spill == Some(b)
    case ByConsumer => s.consumer == Returning(Some(b))
  }

  /** Every block in use has one owner, and that owner really has it. */
  ghost predicate Pool(s: State)
    requires Shape(s)
  {
    && s.used == s.holder.Keys
    && (s.consumer.Returning? ==> Held(s.holder, s.consumer.spill, ByConsumer))
    && forall b {:trigger s.holder[b]} :: b in s.holder ==> b < s.spillCap && Owns(s, s.holder[b], b)
  }

  ghost predicate Inv(s: State) {
    && Shape(s) && Bounds(s)
    && Sequences(s.slots, Released(s), s.enq, s.writer)
    && Writers(s.writer, Released(s), s.enq, s.producers)
    && Producers(s)
    && Stored(s.slots, s.sent, Copied(s), s.writer, s.blocks, s.holder)
    && Delivery(s.sent, s.received)
    && Pool(s)
  }

  // ---- Preservation -------------------------------------------------------

  /** Writing one slot leaves the slots of the other positions of a window alone. */
  lemma OtherSlots(slots: seq<Slot>, p: nat, slot: Slot, lo: nat)
    requires |slots| > 0 && lo <= p < lo + |slots|
    ensures SlotAt(SetSlot(slots, p, slot), p) == slot
    ensures forall q {:trigger SlotAt(SetSlot(slots, p, slot), q)} ::
              lo <= q < lo + |slots| && q != p ==> SlotAt(SetSlot(slots, p, slot), q) == SlotAt(slots, q)
  {
    forall q {:trigger SlotAt(SetSlot(slots, p, slot), q)} | lo <= q < lo + |slots| && q != p
      ensures SlotAt(SetSlot(slots, p, slot), q) == SlotAt(slots, q)
    {
      DistinctInWindow(lo, p, q, |slots|);
    }
  }

  /** Steps that only move one producer between pcs that own the same block. */
  lemma MovesKeep(s: State, t: Tid, pc: Producer)
    requires Inv(s)
    requires !Writing(PcOf(s.producers, t)) && !Writing(pc)
    requires BlockOf(pc) == BlockOf(PcOf(s.producers, t))
    requires ProducerOk(Go(s, t, pc), t)
    ensures Inv(Go(s, t, pc))
  {
    var s' := Go(s, t, pc);
    forall u ensures ProducerOk(s', u) { assert ProducerOk(s, u); }
  }

  lemma TakeProducer(s: State, t: Tid, b: nat, u: Tid)
    requires Inv(s) && Enabled(s, Take(t, b))
    ensures ProducerOk(Apply(s, Take(t, b)), u)
  {
    assert ProducerOk(s, u) && ProducerOk(s, t);
  }

  lemma TakePool(s: State, t: Tid, b: nat)
    requires Inv(s) && Enabled(s, Take(t, b))
    ensures Pool(Apply(s, Take(t, b)))
  {
    var s' := Apply(s, Take(t, b));
    forall c | c in s'.holder && c != b ensures c < s'.spillCap && Owns(s', s'.holder[c], c) {
      assert c in s.holder && Owns(s, s.holder[c], c);
    }
  }

  lemma TakeKeeps(s: State, t: Tid, b: nat)
    requires Inv(s) && Enabled(s, Take(t, b))
    ensures Inv(Apply(s, Take(t, b)))
  {
    var s' := Apply(s, Take(t, b));
    forall u ensures ProducerOk(s', u) { TakeProducer(s, t, b, u); }
    TakePool(s, t, b);
  }

  lemma BlockWriteKeeps(s: State, t: Tid, bytes: seq<Byte>)
    requires Inv(s) && PcOf(s.producers, t).Copying?
    ensures PcOf(s.producers, t).block < s.spillCap
    ensures Inv(s.(blocks := s.blocks[PcOf(s.producers, t).block := bytes]))
  {
    assert ProducerOk(s, t);
    var s' := s.(blocks := s.blocks[PcOf(s.producers, t).block := bytes]);
    forall u ensures ProducerOk(s', u) { assert ProducerOk(s, u); }
  }

  lemma PublishProducer(s: State, t: Tid, u: Tid)
    requires Inv(s) && Enabled(s, Publish(t))
    ensures ProducerOk(Apply(s, Publish(t)), u)
  {
    var pc := PcOf(s.producers, t);
    assert ProducerOk(s, t) && ProducerOk(s, u);
    OtherSlots(s.slots, pc.pos, SlotAt(s.slots, pc.pos).(seqno := pc.pos + 1), Released(s));
  }

  lemma PublishStored(s: State, t: Tid)
    requires Inv(s) && Enabled(s, Publish(t))
    ensures var s' := Apply(s, Publish(t)); Stored(s'.slots, s'.sent, Copied(s'), s'.writer, s'.blocks, s'.holder)
  {
    var pc := PcOf(s.producers, t);
    assert ProducerOk(s, t);
    OtherSlots(s.slots, pc.pos, SlotAt(s.slots, pc.pos).(seqno := pc.pos + 1), Released(s));
  }

  lemma PublishPool(s: State, t: Tid)
    requires Inv(s) && Enabled(s, Publish(t))
    ensures Pool(Apply(s, Publish(t)))
  {
    var pc, s' := PcOf(s.producers, t), Apply(s, Publish(t));
    assert ProducerOk(s, t);
    OtherSlots(s.slots, pc.pos, SlotAt(s.slots, pc.pos).(seqno := pc.pos + 1), Released(s));
    forall b | b in s'.holder ensures b < s'.spillCap && Owns(s', s'.holder[b], b) {
      assert b in s.holder && Owns(s, s.holder[b], b);
    }
  }

  lemma PublishSequences(s: State, t: Tid)
    requires Inv(s) && Enabled(s, Publish(t))
    ensures var s' := Apply(s, Publish(t));
            Sequences(s'.slots, Released(s'), s'.enq, s'.writer) && Writers(s'.writer, Released(s'), s'.enq, s'.producers)
  {
    var pc := PcOf(s.producers, t);
    assert ProducerOk(s, t);
    OtherSlots(s.slots, pc.pos, SlotAt(s.slots, pc.pos).(seqno := pc.pos + 1), Released(s));
  }

  lemma PublishKeeps(s: State, t: Tid)
    requires Inv(s) && Enabled(s, Publish(t))
    ensures Inv(Apply(s, Publish(t)))
  {
    var s' := Apply(s, Publish(t));
    forall u ensures ProducerOk(s', u) { PublishProducer(s, t, u); }
    PublishStored(s, t);
    PublishPool(s, t);
    PublishSequences(s, t);
  }

  lemma UnpackOwns(s: State, b: nat)
    requires Inv(s) && Enabled(s, Unpack)
    requires b in s.holder && SlotAt(s.slots, s.deq).record.spill != Some(b)
    ensures Owns(Apply(s, Unpack), s.holder[b], b)
  {
    assert Owns(s, s.holder[b], b);
  }

  lemma UnpackPool(s: State)
    requires Inv(s) && Enabled(s, Unpack)
    ensures Pool(Apply(s, Unpack))
  {
    var s' := Apply(s, Unpack);
    var spill := SlotAt(s.slots, s.deq).record.spill;
    assert StoredAt(SlotAt(s.slots, s.deq).record, s.deq, s.sent[s.deq], s.blocks, s.holder);
    forall b | b in s'.holder ensures b < s'.spillCap && Owns(s', s'.holder[b], b) {
      assert b in s.holder;
      if spill != Some(b) { UnpackOwns(s, b); }
    }
  }

  lemma UnpackResult(s: State)
    requires Inv(s) && Enabled(s, Unpack)
    ensures Accepted(s.sent[s.deq]) && |s.received| == s.deq
    ensures Apply(s, Unpack).received == s.received + [Expected(s.sent[s.deq])]
  {
    var m, record := s.sent[s.deq], SlotAt(s.slots, s.deq).record;
    assert StoredAt(record, s.deq, m, s.blocks, s.holder);
    PackUnpack(m, record.spill, if record.spill.Some? then s.blocks[record.spill.value] else []);
  }

  lemma UnpackDelivery(s: State)
    requires Inv(s) && Enabled(s, Unpack)
    ensures Delivery(s.sent, Apply(s, Unpack).received)
  {
    UnpackResult(s);
    var received := Apply(s, Unpack).received;
    forall i | 0 <= i < |received| ensures received[i] == Expected(s.sent[i]) {
      if i < |s.received| { assert received[i] == s.received[i]; }
    }
  }

  lemma UnpackStored(s: State)
    requires Inv(s) && Enabled(s, Unpack)
    ensures var s' := Apply(s, Unpack); Stored(s'.slots, s'.sent, Copied(s'), s'.writer, s'.blocks, s'.holder)
  {
    assert StoredAt(SlotAt(s.slots, s.deq).record, s.deq, s.sent[s.deq], s.blocks, s.holder);
  }

  lemma UnpackKeeps(s: State)
    requires Inv(s) && Enabled(s, Unpack)
    ensures Inv(Apply(s, Unpack))
  {
    var s' := Apply(s, Unpack);
    forall u ensures ProducerOk(s', u) {
      assert ProducerOk(s, u);
      assert StoredAt(SlotAt(s.slots, s.deq).record, s.deq, s.sent[s.deq], s.blocks, s.holder);
    }
    UnpackPool(s);
    UnpackDelivery(s);
    UnpackStored(s);
  }

  /** A producer that saw its own position in the slot may still count on the
      slot being free when its compare-and-swap succeeds: sequences of different
      laps differ by at least two. */
  lemma SequenceTells(s: State, t: Tid)
    requires Inv(s) && PcOf(s.producers, t).Reading?
    ensures var pos := PcOf(s.producers, t).pos; var seqno := SlotAt(s.slots, pos).seqno;
            && (seqno == pos ==> Released(s) <= pos < Released(s) + s.cap)
            && (seqno < pos ==> pos == s.enq == Released(s) + s.cap)
            && (seqno > pos ==> pos < s.enq)
            && pos <= seqno + s.cap && seqno <= s.enq + s.cap
  {
    assert ProducerOk(s, t);
    var pos := PcOf(s.producers, t).pos;
    var q := WindowPosition(Released(s), s.cap, pos);
    assert SlotAt(s.slots, q) == SlotAt(s.slots, pos);
    SameSlotApart(pos, q, s.cap);
    SameSlotApart(q, pos, s.cap);
  }

  lemma ReserveProducer(s: State, t: Tid, u: Tid)
    requires Inv(s) && Enabled(s, Swap(t, false)) && PcOf(s.producers, t).pos == s.enq
    ensures ProducerOk(Apply(s, Swap(t, false)), u)
  {
    assert ProducerOk(s, t) && ProducerOk(s, u);
  }

  lemma ReservePool(s: State, t: Tid)
    requires Inv(s) && Enabled(s, Swap(t, false)) && PcOf(s.producers, t).pos == s.enq
    ensures Pool(Apply(s, Swap(t, false)))
  {
    var s' := Apply(s, Swap(t, false));
    forall b | b in s'.holder ensures b < s'.spillCap && Owns(s', s'.holder[b], b) {
      assert b in s.holder && Owns(s, s.holder[b], b);
    }
  }

  lemma ReserveStored(s: State, t: Tid)
    requires Inv(s) && Enabled(s, Swap(t, false)) && PcOf(s.producers, t).pos == s.enq
    ensures var s' := Apply(s, Swap(t, false)); Stored(s'.slots, s'.sent, Copied(s'), s'.writer, s'.blocks, s'.holder)
  {
    var s' := Apply(s, Swap(t, false));
    assert forall p :: Copied(s') <= p < |s'.sent| && p !in s'.writer ==> p < |s.sent| && p !in s.writer;
  }

  lemma ReserveSequences(s: State, t: Tid)
    requires Inv(s) && Enabled(s, Swap(t, false)) && PcOf(s.producers, t).pos == s.enq
    ensures var s' := Apply(s, Swap(t, false));
            && Sequences(s'.slots, Released(s'), s'.enq, s'.writer)
            && Writers(s'.writer, Released(s'), s'.enq, s'.producers)
  {
    assert ProducerOk(s, t);
  }

  lemma ReserveKeeps(s: State, t: Tid)
    requires Inv(s) && Enabled(s, Swap(t, false)) && PcOf(s.producers, t).pos == s.enq
    ensures Inv(Apply(s, Swap(t, false)))
  {
    var s' := Apply(s, Swap(t, false));
    forall u ensures ProducerOk(s', u) { ReserveProducer(s, t, u); }
    ReservePool(s, t);
    ReserveStored(s, t);
    ReserveSequences(s, t);
    assert ProducerOk(s, t);
  }

  /** Writing the record of a reserved position. */
  ghost predicate RecordWrite(s: State, t: Tid, pc: Producer, record: QueueRecord, s': State)
    requires Shape(s)
  {
    var was := PcOf(s.producers, t);
    && was.Packing? && Writing(pc) && pc.m == was.m && pc.spill == was.spill && pc.pos == was.pos
    && (pc.Packed? ==> Accepted(pc.m) && record == Pack(pc.m, TextLengthSpec(pc.m), pc.spill))
    && s' == Go(s, t, pc).(slots := SetSlot(s.slots, pc.pos, SlotAt(s.slots, pc.pos).(record := record)))
  }

  lemma RecordWriteProducer(s: State, t: Tid, pc: Producer, record: QueueRecord, s': State, u: Tid)
    requires Inv(s) && RecordWrite(s, t, pc, record, s')
    ensures Shape(s') && ProducerOk(s', u)
  {
    assert ProducerOk(s, t) && ProducerOk(s, u);
    OtherSlots(s.slots, pc.pos, SlotAt(s.slots, pc.pos).(record := record), Released(s));
  }

  lemma RecordWriteSlots(s: State, t: Tid, pc: Producer, record: QueueRecord, s': State)
    requires Inv(s) && RecordWrite(s, t, pc, record, s')
    ensures Sequences(s'.slots, Released(s'), s'.enq, s'.writer)
    ensures Stored(s'.slots, s'.sent, Copied(s'), s'.writer, s'.blocks, s'.holder)
  {
    assert ProducerOk(s, t);
    OtherSlots(s.slots, pc.pos, SlotAt(s.slots, pc.pos).(record := record), Released(s));
  }

  lemma RecordWritePool(s: State, t: Tid, pc: Producer, record: QueueRecord, s': State)
    requires Inv(s) && RecordWrite(s, t, pc, record, s')
    ensures Shape(s') && Pool(s')
  {
    assert ProducerOk(s, t);
    OtherSlots(s.slots, pc.pos, SlotAt(s.slots, pc.pos).(record := record), Released(s));
    forall b | b in s'.holder ensures b < s'.spillCap && Owns(s', s'.holder[b], b) {
      assert b in s.holder && Owns(s, s.holder[b], b);
    }
  }

  lemma RecordWriteKeeps(s: State, t: Tid, pc: Producer, record: QueueRecord, s': State)
    requires Inv(s) && RecordWrite(s, t, pc, record, s')
    ensures Inv(s')
  {
    forall u ensures Shape(s') && ProducerOk(s', u) { RecordWriteProducer(s, t, pc, record, s', u); }
    RecordWriteSlots(s, t, pc, record, s');
    RecordWritePool(s, t, pc, record, s');
    assert ProducerOk(s, t);
  }

  /** Returning a block that `o` owns touches nobody else's block. */
  ghost predicate Puts(s: State, o: Owner, spill: Option<nat>, s': State) {
    && Held(s.holder, spill, o) && s'.spillCap == s.spillCap
    && s'.used == PutSpill(s, spill).used && s'.holder == PutSpill(s, spill).holder
  }

  lemma PutsHeld(s: State, o: Owner, spill: Option<nat>, s': State, other: Option<nat>, o': Owner)
    requires Puts(s, o, spill, s') && o != o' && Held(s.holder, other, o')
    ensures Held(s'.holder, other, o')
  {
  }

  lemma PutBackProducer(s: State, t: Tid, u: Tid)
    requires Inv(s) && Enabled(s, PutBack(t))
    ensures ProducerOk(Apply(s, PutBack(t)), u)
  {
    var spill, s' := PcOf(s.producers, t).spill, Apply(s, PutBack(t));
    assert ProducerOk(s, t) && ProducerOk(s, u);
    if u != t { PutsHeld(s, ByProducer(t), spill, s', BlockOf(PcOf(s.producers, u)), ByProducer(u)); }
  }

  lemma PutsStored(s: State, o: Owner, spill: Option<nat>, s': State)
    requires Inv(s) && Puts(s, o, spill, s') && !o.BySlot?
    ensures Stored(s.slots, s.sent, Copied(s), s.writer, s.blocks, s'.holder)
  {
  }

  lemma PutBackPool(s: State, t: Tid)
    requires Inv(s) && Enabled(s, PutBack(t))
    ensures Pool(Apply(s, PutBack(t)))
  {
    var spill, s' := PcOf(s.producers, t).spill, Apply(s, PutBack(t));
    assert ProducerOk(s, t);
    forall b | b in s'.holder ensures b < s'.spillCap && Owns(s', s'.holder[b], b) {
      assert b in s.holder && Owns(s, s.holder[b], b);
    }
    PutsHeld(s, ByProducer(t), spill, s', if s.consumer.Returning? then s.consumer.spill else None, ByConsumer);
  }

  lemma PutBackKeeps(s: State, t: Tid)
    requires Inv(s) && Enabled(s, PutBack(t))
    ensures Inv(Apply(s, PutBack(t)))
  {
    var s' := Apply(s, PutBack(t));
    forall u ensures ProducerOk(s', u) { PutBackProducer(s, t, u); }
    assert ProducerOk(s, t);
    PutsStored(s, ByProducer(t), PcOf(s.producers, t).spill, s');
    PutBackPool(s, t);
  }

  lemma ReturnProducer(s: State, u: Tid)
    requires Inv(s) && Enabled(s, Return)
    ensures ProducerOk(Apply(s, Return), u)
  {
    assert ProducerOk(s, u);
    PutsHeld(s, ByConsumer, s.consumer.spill, Apply(s, Return), BlockOf(PcOf(s.producers, u)), ByProducer(u));
  }

  lemma ReturnPool(s: State)
    requires Inv(s) && Enabled(s, Return)
    ensures Pool(Apply(s, Return))
  {
    var s' := Apply(s, Return);
    forall b | b in s'.holder ensures b < s'.spillCap && Owns(s', s'.holder[b], b) {
      assert b in s.holder && Owns(s, s.holder[b], b);
    }
  }

  lemma ReturnKeeps(s: State)
    requires Inv(s) && Enabled(s, Return)
    ensures Inv(Apply(s, Return))
  {
    var s' := Apply(s, Return);
    forall u ensures ProducerOk(s', u) { ReturnProducer(s, u); }
    PutsStored(s, ByConsumer, s.consumer.spill, s');
    ReturnPool(s);
  }

  lemma FreeProducer(s: State, u: Tid)
    requires Inv(s) && Enabled(s, Free)
    ensures ProducerOk(Apply(s, Free), u)
  {
    assert ProducerOk(s, u);
    OtherSlots(s.slots, s.deq, SlotAt(s.slots, s.deq).(seqno := s.deq + s.cap), s.deq);
  }

  lemma FreeSlots(s: State)
    requires Inv(s) && Enabled(s, Free)
    ensures var s' := Apply(s, Free);
            Sequences(s'.slots, Released(s'), s'.enq, s'.writer) && Writers(s'.writer, Released(s'), s'.enq, s'.producers)
    ensures var s' := Apply(s, Free); Stored(s'.slots, s'.sent, Copied(s'), s'.writer, s'.blocks, s'.holder)
  {
    var slot := SlotAt(s.slots, s.deq).(seqno := s.deq + s.cap);
    OtherSlots(s.slots, s.deq, slot, s.deq);
    NextLapSameSlot(s.deq, s.cap);
    assert SlotAt(SetSlot(s.slots, s.deq, slot), s.deq + s.cap) == slot;
  }

  lemma FreePool(s: State)
    requires Inv(s) && Enabled(s, Free)
    ensures Pool(Apply(s, Free))
  {
    var s' := Apply(s, Free);
    OtherSlots(s.slots, s.deq, SlotAt(s.slots, s.deq).(seqno := s.deq + s.cap), s.deq);
    forall b | b in s'.holder ensures b < s'.spillCap && Owns(s', s'.holder[b], b) {
      assert b in s.holder && Owns(s, s.holder[b], b);
    }
  }

  lemma FreeKeeps(s: State)
    requires Inv(s) && Enabled(s, Free)
    ensures Inv(Apply(s, Free))
  {
    var s' := Apply(s, Free);
    forall u ensures ProducerOk(s', u) { FreeProducer(s, u); }
    FreeSlots(s);
    FreePool(s);
  }

  lemma LookKeeps(s: State)
    requires Inv(s) && Enabled(s, Look)
    ensures Inv(Apply(s, Look))
  {
    var s' := Apply(s, Look);
    var slot := SlotAt(s.slots, s.deq);
    forall u ensures ProducerOk(s', u) { assert ProducerOk(s, u); }
  }

  lemma AdvanceKeeps(s: State)
    requires Inv(s) && Enabled(s, Advance)
    ensures Inv(Apply(s, Advance))
  {
    var s' := Apply(s, Advance);
    forall u ensures ProducerOk(s', u) { assert ProducerOk(s, u); }
  }

  /** The steps of a push up to the reservation. */
  lemma PushKeeps(s: State, step: Step)
    requires Inv(s) && Enabled(s, step)
    requires step.Begin? || step.Exhausted? || step.Load? || step.ReadSeq? || step.Swap?
    ensures Inv(Apply(s, step))
  {
    var t := step.t;
    assert ProducerOk(s, t);
    if step.ReadSeq? { SequenceTells(s, t); }
    if step.Swap? && PcOf(s.producers, t).pos == s.enq && !step.spurious {
      ReserveKeeps(s, t);
    } else {
      MovesKeep(s, t, PcOf(Apply(s, step).producers, t));
    }
  }

  /** The copies of a push. */
  lemma CopyKeeps(s: State, step: Step)
    requires Inv(s) && Enabled(s, step)
    requires step.TearBlock? || step.CopyText? || step.TearSlot? || step.PackRecord?
    ensures Inv(Apply(s, step))
  {
    var pc := PcOf(s.producers, step.t);
    match step
    case TearBlock(t, junk) => BlockWriteKeeps(s, t, junk);
    case CopyText(t) =>
      var bytes := pc.m.text[..TextLengthSpec(pc.m) + 1];
      BlockWriteKeeps(s, t, bytes);
      assert ProducerOk(s, t);
      MovesKeep(s.(blocks := s.blocks[pc.block := bytes]), t, Loading(pc.m, Some(pc.block)));
    case TearSlot(t, junk) =>
      assert s.producers[t := pc] == s.producers;
      RecordWriteKeeps(s, t, pc, junk, Apply(s, step));
    case PackRecord(t) =>
      RecordWriteKeeps(s, t, Packed(pc.m, pc.spill, pc.pos), Pack(pc.m, TextLengthSpec(pc.m), pc.spill), Apply(s, step));
  }

  /** Every step of every thread keeps the invariant. */
  lemma StepKeeps(s: State, step: Step)
    requires Inv(s) && Enabled(s, step)
    ensures Inv(Apply(s, step))
  {
    match step
    case Take(t, b) => TakeKeeps(s, t, b);
    case Publish(t) => PublishKeeps(s, t);
    case PutBack(t) => PutBackKeeps(s, t);
    case Unpack => UnpackKeeps(s);
    case Return => ReturnKeeps(s);
    case Free => FreeKeeps(s);
    case Look => LookKeeps(s);
    case Advance => AdvanceKeeps(s);
    case Begin(_, _) => PushKeeps(s, step);
    case Exhausted(_) => PushKeeps(s, step);
    case Load(_) => PushKeeps(s, step);
    case ReadSeq(_) => PushKeeps(s, step);
    case Swap(_, _) => PushKeeps(s, step);
    case TearBlock(_, _) => CopyKeeps(s, step);
    case CopyText(_) => CopyKeeps(s, step);
    case TearSlot(_, _) => CopyKeeps(s, step);
    case PackRecord(_) => CopyKeeps(s, step);
  }

  // ---- What the invariant means --------------------------------------------

  /** `logger_queue_init`: slot i starts at sequence i, nothing is in use. */
  function Initial(cap: nat, spillCap: nat, record: QueueRecord): State {
    State(cap, spillCap, seq(cap, i requires 0 <= i => Slot(i, record)), 0, 0,
          {}, seq(spillCap, _ => []), map[], Looking, [], [], map[], map[])
  }

  lemma InitialInv(cap: nat, spillCap: nat, record: QueueRecord)
    requires cap >= 2
    ensures Inv(Initial(cap, spillCap, record))
  {
    var s := Initial(cap, spillCap, record);
    forall t ensures ProducerOk(s, t) {}
    forall p | 0 <= p < cap ensures SlotAt(s.slots, p).seqno == p { QuotientUnique(p, cap, 0, p); }
  }

  /** The worker receives the messages in reservation order, each exactly once
      and unharmed. */
  lemma DeliveredInOrder(s: State)
    requires Inv(s)
    ensures s.deq <= |s.received| <= s.deq + 1 && |s.received| <= |s.sent|
    ensures forall i :: 0 <= i < |s.received| ==> Accepted(s.sent[i]) && s.received[i] == Expected(s.sent[i])
  {
  }

  /** No slot is in the hands of two parties: two producers at work on slots use
      different ones, and none of them is the slot the worker reads. */
  lemma SlotsExclusive(s: State, t: Tid, u: Tid)
    requires Inv(s) && Writing(PcOf(s.producers, t))
    ensures Writing(PcOf(s.producers, u)) && u != t ==>
              PcOf(s.producers, t).pos % s.cap != PcOf(s.producers, u).pos % s.cap
    ensures s.consumer.Unpacking? || s.consumer.Returning? ==> PcOf(s.producers, t).pos % s.cap != s.deq % s.cap
  {
    assert ProducerOk(s, t) && ProducerOk(s, u);
    var p := PcOf(s.producers, t).pos;
    if Writing(PcOf(s.producers, u)) && u != t {
      DistinctInWindow(Released(s), p, PcOf(s.producers, u).pos, s.cap);
    }
    if s.consumer.Unpacking? || s.consumer.Returning? {
      DistinctInWindow(Released(s), p, s.deq, s.cap);
    }
  }

  /** No spill block is in the hands of two parties: the blocks of two producers
      differ, and none is the block the worker reads or is about to return. */
  lemma BlocksExclusive(s: State, t: Tid, u: Tid, b: nat)
    requires Inv(s) && BlockOf(PcOf(s.producers, t)) == Some(b)
    ensures b in s.used && b < s.spillCap
    ensures u != t ==> BlockOf(PcOf(s.producers, u)) != Some(b)
    ensures s.consumer.Unpacking? ==> SlotAt(s.slots, s.deq).record.spill != Some(b)
    ensures s.consumer.Returning? ==> s.consumer.spill != Some(b)
  {
    assert ProducerOk(s, t) && ProducerOk(s, u);
    if s.consumer.Unpacking? {
      assert StoredAt(SlotAt(s.slots, s.deq).record, s.deq, s.sent[s.deq], s.blocks, s.holder);
    }
  }

  /** A push gives up only on a ring that is really full: its position is still
      enqueue_pos and exactly `cap` reservations have not been released. */
  lemma RefusalIsReal(s: State, t: Tid)
    requires Inv(s) && PcOf(s.producers, t).Reading?
    ensures PcOf(Apply(s, ReadSeq(t)).producers, t).Refused? <==>
              PcOf(s.producers, t).pos == s.enq && s.enq - Released(s) == s.cap
  {
    SequenceTells(s, t);
    if PcOf(s.producers, t).pos == s.enq && s.enq == Released(s) + s.cap {
      NextLapSameSlot(Released(s), s.cap);
      assert SlotAt(s.slots, s.enq) == SlotAt(s.slots, Released(s));
    }
  }

  /** A refused push hands its own block back, and nothing else changes hands. */
  lemma RefusalReturnsBlock(s: State, t: Tid)
    requires Inv(s) && PcOf(s.producers, t).Refused?
    ensures var spill := PcOf(s.producers, t).spill; var s' := Apply(s, PutBack(t));
            && (spill.Some? ==> spill.value in s.used && s'.used == s.used - {spill.value})
            && (spill.None? ==> s'.used == s.used)
            && BlockOf(PcOf(s'.producers, t)).None?
  {
    assert ProducerOk(s, t);
  }

  /** The depth can exceed the capacity by one, between the two stores of a pop,
      and never by more. */
  lemma DepthBound(s: State)
    requires Inv(s)
    ensures s.deq <= s.enq <= s.deq + s.cap + 1
    ensures s.enq == s.deq + s.cap + 1 ==> s.consumer.Advancing?
  {
  }

  ghost predicate Quiet(s: State) {
    s.consumer.Looking? && forall t: Tid :: BlockOf(PcOf(s.producers, t)).None? && !Writing(PcOf(s.producers, t))
  }

  function LongQueued(s: State): set<nat>
    requires forall p :: 0 <= p < |s.sent| ==> WellFormed(s.sent[p])
  {
    set p: nat | s.deq <= p < |s.sent| && Long(s.sent[p])
  }

  lemma MapSize<A, B>(xs: set<A>, f: map<A, B>)
    requires f.Keys == xs
    requires forall x, y :: x in xs && y in xs && f[x] == f[y] ==> x == y
    ensures |f.Values| == |xs|
    decreases xs
  {
    if xs == {} {
      assert f.Values == {};
    } else {
      var x :| x in xs;
      var g := f - {x};
      MapSize(xs - {x}, g);
      assert f.Values == g.Values + {f[x]};
    }
  }

  /** At rest a queued long record has a block of its own in the pool. */
  lemma QuietLong(s: State, p: nat)
    requires Inv(s) && Quiet(s) && p in LongQueued(s)
    ensures p !in s.writer && SlotAt(s.slots, p).record.spill.Some?
    ensures var b := SlotAt(s.slots, p).record.spill.value; b in s.used && b in s.holder && s.holder[b] == BySlot(p)
  {
    var u := if p in s.writer then s.writer[p] else 0;
    assert !Writing(PcOf(s.producers, u));
    assert StoredAt(SlotAt(s.slots, p).record, p, s.sent[p], s.blocks, s.holder);
  }

  /** At rest a block in use belongs to a queued long record. */
  lemma QuietBlock(s: State, b: nat) returns (p: nat)
    requires Inv(s) && Quiet(s) && b in s.used
    ensures p in LongQueued(s) && SlotAt(s.slots, p).record.spill == Some(b)
  {
    var o := s.holder[b];
    assert Owns(s, o, b);
    var u := if o.ByProducer? then o.t else 0;
    assert BlockOf(PcOf(s.producers, u)).None?;
    p := o.p;
    assert StoredAt(SlotAt(s.slots, p).record, p, s.sent[p], s.blocks, s.holder);
  }

  /** At rest the bits set are exactly the queued long records, one block each. */
  lemma QuietPool(s: State)
    requires Inv(s) && Quiet(s)
    ensures |s.used| == |LongQueued(s)|
  {
    forall p | p in LongQueued(s)
      ensures SlotAt(s.slots, p).record.spill.Some?
      ensures var b := SlotAt(s.slots, p).record.spill.value; b in s.used && b in s.holder && s.holder[b] == BySlot(p)
    {
      QuietLong(s, p);
    }
    var f := map p | p in LongQueued(s) :: SlotAt(s.slots, p).record.spill.value;
    forall b | b in s.used ensures b in f.Values {
      var p := QuietBlock(s, b);
      assert f[p] == b;
    }
    assert f.Values == s.used;
    MapSize(LongQueued(s), f);
  }

  /** The tests the code makes on stored 64-bit values decide as the unbounded
      ones do, as long as a stalled producer's position is less than 2^62 behind. */
  lemma ModularPush(s: State, t: Tid)
    requires Inv(s) && PcOf(s.producers, t).Reading?
    requires s.cap <= 0x4000_0000_0000_0000 && s.enq - PcOf(s.producers, t).pos < 0x4000_0000_0000_0000
    ensures var pos := PcOf(s.producers, t).pos; var seqno := SlotAt(s.slots, pos).seqno;
            var diff := Sub64(Wrap(seqno), Wrap(pos));
            && (diff == 0 <==> seqno == pos) && (diff > SIZE_MAX / 2 <==> seqno < pos)
    ensures Wrap(s.enq) == Wrap(PcOf(s.producers, t).pos) <==> s.enq == PcOf(s.producers, t).pos
  {
    SequenceTells(s, t);
    assert ProducerOk(s, t);
    var pos := PcOf(s.producers, t).pos;
    FoldedDistance(SlotAt(s.slots, pos).seqno, pos);
    FoldedEquality(s.enq, pos);
  }

  /** The worker's test on stored values, which is also `logger_queue_empty`. */
  lemma ModularPop(s: State)
    requires Inv(s) && s.consumer.Looking?
    ensures Wrap(SlotAt(s.slots, s.deq).seqno) == Wrap(s.deq + 1) <==> s.deq < s.enq && s.deq !in s.writer
    ensures SlotAt(s.slots, s.deq).seqno == s.deq + 1 <==> s.deq < s.enq && s.deq !in s.writer
  {
    FoldedEquality(SlotAt(s.slots, s.deq).seqno, s.deq + 1);
  }
}
