/** What the slots, blocks and counters of the queue hold, as values. */
module QueueContent {
  import opened Options
  import opened Bits
  import opened Record
  import R = Ring
  import opened Focus
  import BitSet
  import opened Counters

  /** The index of the slot of a position. */
  ghost predicate Indexes(index: nat, n: nat, cap: nat) {
    cap >= 1 && index < cap && forall k: nat :: Look(Topic.Indexing, k) ==> index == BitSet.Place(n, cap)
  }

  // ---- What the slots hold ------------------------------------------------------------

  /** The slot of a position, and the slots with that one replaced. */
  function At(slots: seq<R.Slot>, p: nat): R.Slot
    requires |slots| >= 1
  {
    slots[BitSet.Place(p, |slots|)]
  }

  function WithSlot(slots: seq<R.Slot>, p: nat, slot: R.Slot): seq<R.Slot>
    requires |slots| >= 1
  {
    slots[BitSet.Place(p, |slots|) := slot]
  }

  function BlockText(blocks: seq<seq<Byte>>, spill: Option<nat>): seq<Byte> {
    if spill.Some? && spill.value < |blocks| then blocks[spill.value] else []
  }

  /** The record yields message `m`, and has a block exactly when the text is long. */
  ghost predicate Yields(record: QueueRecord, m: Message, blocks: seq<seq<Byte>>) {
    && R.Accepted(m)
    && (record.spill.Some? <==> R.Long(m))
    && (record.spill.Some? ==> record.spill.value < |blocks|)
    && Unpack(record, BlockText(blocks, record.spill)) == Expected(m)
  }

  /** The slot is published for position `p` and yields message `m`. */
  ghost predicate QueuedAt(slot: R.Slot, p: nat, m: Message, blocks: seq<seq<Byte>>) {
    slot.seqno == Stored(p + 1) && forall k: nat :: Look(Topic.Queueing, k) ==> Yields(slot.record, m, blocks)
  }

  lemma Reads(slot: R.Slot, p: nat, m: Message, blocks: seq<seq<Byte>>)
    requires QueuedAt(slot, p, m, blocks)
    ensures Yields(slot.record, m, blocks)
  {
    assert Look(Topic.Queueing, 0);
  }

  /** Positions `lo ..` hold the contents, and the rest of the lap is free. */
  ghost predicate Holds(slots: seq<R.Slot>, lo: nat, contents: seq<Message>, blocks: seq<seq<Byte>>) {
    && |contents| <= |slots| && |slots| >= 2
    && (forall p :: lo <= p < lo + |contents| ==> QueuedAt(At(slots, p), p, contents[p - lo], blocks))
    && (forall p :: lo + |contents| <= p < lo + |slots| ==> At(slots, p).seqno == Stored(p))
  }

  function Longs(contents: seq<Message>): nat {
    if contents == [] then 0
    else Longs(contents[1..]) + (if R.Accepted(contents[0]) && R.Long(contents[0]) then 1 else 0)
  }

  /** Every queued long message has a block of its own, and no other block is used. */
  ghost predicate Spilled(slots: seq<R.Slot>, lo: nat, contents: seq<Message>, used: set<nat>) {
    && |slots| >= 2 && |used| == Longs(contents)
    && (forall p :: lo <= p < lo + |contents| ==> SpillOf(slots, p).Some? ==> SpillOf(slots, p).value in used)
    && (forall p, q :: lo <= p < q < lo + |contents| && SpillOf(slots, p).Some? && SpillOf(slots, q).Some? ==>
          SpillOf(slots, p).value != SpillOf(slots, q).value)
  }

  function SpillOf(slots: seq<R.Slot>, p: nat): Option<nat>
    requires |slots| > 0
  {
    At(slots, p).record.spill
  }

  lemma SlotsApart(slots: seq<R.Slot>, lo: nat, p: nat, q: nat, slot: R.Slot)
    requires |slots| >= 2 && lo <= p < lo + |slots| && lo <= q < lo + |slots|
    ensures At(WithSlot(slots, p, slot), q) == if p == q then slot else At(slots, q)
  {
    BitSet.Divided(p, |slots|);
    BitSet.Divided(q, |slots|);
    if p != q { DistinctInWindow(lo, p, q, |slots|); }
  }

  lemma PushQueued(slots: seq<R.Slot>, lo: nat, contents: seq<Message>, blocks: seq<seq<Byte>>, m: Message, slot: R.Slot, p: nat)
    requires Holds(slots, lo, contents, blocks) && |contents| < |slots| && QueuedAt(slot, lo + |contents|, m, blocks)
    requires lo <= p <= lo + |contents|
    ensures QueuedAt(At(WithSlot(slots, lo + |contents|, slot), p), p, (contents + [m])[p - lo], blocks)
  {
    var hi := lo + |contents|;
    SlotsApart(slots, lo, hi, p, slot);
    if p < hi { assert QueuedAt(At(slots, p), p, contents[p - lo], blocks); }
  }

  lemma PushHolds(slots: seq<R.Slot>, lo: nat, contents: seq<Message>, blocks: seq<seq<Byte>>, m: Message, slot: R.Slot)
    requires Holds(slots, lo, contents, blocks) && |contents| < |slots| && QueuedAt(slot, lo + |contents|, m, blocks)
    ensures Holds(WithSlot(slots, lo + |contents|, slot), lo, contents + [m], blocks)
  {
    var hi := lo + |contents|;
    var slots' := WithSlot(slots, hi, slot);
    forall p | lo <= p < hi + 1 ensures QueuedAt(At(slots', p), p, (contents + [m])[p - lo], blocks) {
      PushQueued(slots, lo, contents, blocks, m, slot, p);
    }
    forall p | hi + 1 <= p < lo + |slots| ensures At(slots', p).seqno == Stored(p) {
      SlotsApart(slots, lo, hi, p, slot);
      assert At(slots, p).seqno == Stored(p);
    }
  }

  /** What the consumer sees at the next position. */
  lemma HeadSlot(slots: seq<R.Slot>, lo: nat, contents: seq<Message>, blocks: seq<seq<Byte>>)
    requires Holds(slots, lo, contents, blocks)
    ensures At(slots, lo).seqno == Stored(lo + 1) <==> contents != []
    ensures contents != [] ==> Yields(At(slots, lo).record, contents[0], blocks)
  {
    if contents != [] {
      Reads(At(slots, lo), lo, contents[0], blocks);
    } else {
      FoldedEquality(lo, lo + 1);
      StoredIsWrap(lo);
      StoredIsWrap(lo + 1);
      assert At(slots, lo).seqno == Stored(lo);
    }
  }

  /** What a producer sees at the next free position: its number exactly when there is
      room, and otherwise one that tests as smaller. */
  lemma TailSlot(slots: seq<R.Slot>, lo: nat, contents: seq<Message>, blocks: seq<seq<Byte>>)
    requires Holds(slots, lo, contents, blocks) && |slots| <= SIZE_MAX / 2
    ensures var hi := lo + |contents|;
            var diff := Sub64(At(slots, hi).seqno, Stored(hi));
            && (diff == 0 <==> |contents| < |slots|)
            && (diff > SIZE_MAX / 2 <==> |contents| == |slots|)
  {
    var hi := lo + |contents|;
    StoredIsWrap(hi);
    StoredIsWrap(lo + 1);
    if |contents| < |slots| {
      assert At(slots, hi).seqno == Stored(hi);
      FoldedDistance(hi, hi);
    } else {
      assert QueuedAt(At(slots, lo), lo, contents[0], blocks);
      FoldedDistance(lo + 1, hi);
    }
  }

  lemma PopHolds(slots: seq<R.Slot>, lo: nat, contents: seq<Message>, blocks: seq<seq<Byte>>, slot: R.Slot)
    requires Holds(slots, lo, contents, blocks) && contents != [] && slot.seqno == Stored(lo + |slots|)
    ensures Holds(WithSlot(slots, lo, slot), lo + 1, contents[1..], blocks)
  {
    var slots' := WithSlot(slots, lo, slot);
    forall p | lo < p < lo + |slots| ensures At(slots', p) == At(slots, p) {
      SlotsApart(slots, lo, lo, p, slot);
    }
    assert At(slots', lo + |slots|) == slot;
  }

  /** Writing a block that no queued message uses changes no queued message. */
  lemma WriteBlockHolds(slots: seq<R.Slot>, lo: nat, contents: seq<Message>, blocks: seq<seq<Byte>>, used: set<nat>,
                        b: nat, text: seq<Byte>)
    requires Holds(slots, lo, contents, blocks) && Spilled(slots, lo, contents, used)
    requires b !in used && b < |blocks|
    ensures Holds(slots, lo, contents, blocks[b := text])
  {
    forall p | lo <= p < lo + |contents| ensures QueuedAt(At(slots, p), p, contents[p - lo], blocks[b := text]) {
      Reads(At(slots, p), p, contents[p - lo], blocks);
      assert SpillOf(slots, p).Some? ==> SpillOf(slots, p).value in used;
    }
  }

  lemma {:induction false} LongsOfOneMore(contents: seq<Message>, m: Message)
    ensures Longs(contents + [m]) == Longs(contents) + (if R.Accepted(m) && R.Long(m) then 1 else 0)
  {
    if contents == [] {
      assert Longs([m][1..]) == 0;
    } else {
      LongsOfOneMore(contents[1..], m);
      assert (contents + [m])[1..] == contents[1..] + [m];
    }
  }

  lemma PushSpilled(slots: seq<R.Slot>, lo: nat, contents: seq<Message>, used: set<nat>, used': set<nat>, m: Message, slot: R.Slot)
    requires Spilled(slots, lo, contents, used) && |contents| < |slots| && R.Accepted(m)
    requires slot.record.spill.Some? <==> R.Long(m)
    requires slot.record.spill.Some? ==> slot.record.spill.value !in used && used' == used + {slot.record.spill.value}
    requires slot.record.spill.None? ==> used' == used
    ensures Spilled(WithSlot(slots, lo + |contents|, slot), lo, contents + [m], used')
  {
    var hi := lo + |contents|;
    var slots' := WithSlot(slots, hi, slot);
    LongsOfOneMore(contents, m);
    forall p | lo <= p <= hi ensures SpillOf(slots', p) == if p == hi then slot.record.spill else SpillOf(slots, p) {
      SlotsApart(slots, lo, hi, p, slot);
    }
  }

  lemma PopSpilled(slots: seq<R.Slot>, lo: nat, contents: seq<Message>, blocks: seq<seq<Byte>>,
                   used: set<nat>, used': set<nat>, slot: R.Slot)
    requires Holds(slots, lo, contents, blocks) && Spilled(slots, lo, contents, used) && contents != []
    requires var spill := SpillOf(slots, lo); used' == if spill.Some? then used - {spill.value} else used
    ensures Spilled(WithSlot(slots, lo, slot), lo + 1, contents[1..], used')
  {
    var slots' := WithSlot(slots, lo, slot);
    Reads(At(slots, lo), lo, contents[0], blocks);
    assert SpillOf(slots, lo).Some? ==> SpillOf(slots, lo).value in used;
    forall p | lo < p < lo + |contents| ensures SpillOf(slots', p) == SpillOf(slots, p) {
      SlotsApart(slots, lo, lo, p, slot);
    }
  }

  /** Slots, blocks and pool together hold the contents. */
  ghost predicate Content(slots: seq<R.Slot>, lo: nat, contents: seq<Message>, blocks: seq<seq<Byte>>, used: set<nat>) {
    forall k: nat :: Look(Topic.Containing, k) ==> Holds(slots, lo, contents, blocks) && Spilled(slots, lo, contents, used)
  }

  lemma Inside(slots: seq<R.Slot>, lo: nat, contents: seq<Message>, blocks: seq<seq<Byte>>, used: set<nat>)
    requires Content(slots, lo, contents, blocks, used)
    ensures Holds(slots, lo, contents, blocks) && Spilled(slots, lo, contents, used)
  {
    assert Look(Topic.Containing, 0);
  }

  lemma EmptyContent(slots: seq<R.Slot>, blocks: seq<seq<Byte>>)
    requires |slots| >= 2 && forall i :: 0 <= i < |slots| ==> slots[i].seqno == Stored(i)
    ensures Content(slots, 0, [], blocks, {})
  {
    forall p | 0 <= p < |slots| ensures At(slots, p).seqno == Stored(p) { assert BitSet.Place(p, |slots|) == p; }
  }

  lemma Head(slots: seq<R.Slot>, lo: nat, contents: seq<Message>, blocks: seq<seq<Byte>>, used: set<nat>, index: nat, next: nat)
    requires Content(slots, lo, contents, blocks, used) && |slots| >= 2
    requires Indexes(index, lo, |slots|) && Counts(next, lo + 1)
    ensures slots[index].seqno == next <==> contents != []
    ensures contents != [] ==>
              && Yields(slots[index].record, contents[0], blocks)
              && (slots[index].record.spill.Some? ==> slots[index].record.spill.value in used)
  {
    Inside(slots, lo, contents, blocks, used);
    HeadSlot(slots, lo, contents, blocks);
    assert Look(Topic.Indexing, 0) && Look(Topic.Counting, 0) && slots[index] == At(slots, lo);
    assert contents != [] ==> SpillOf(slots, lo).Some? ==> SpillOf(slots, lo).value in used;
  }

  /** The pool got the block of the message back, if it had one. */
  ghost predicate Returned(spill: Option<nat>, used: set<nat>, used': set<nat>) {
    forall k: nat :: Look(Topic.Returning, k) ==> used' == if spill.Some? then used - {spill.value} else used
  }

  lemma PopContent(slots: seq<R.Slot>, lo: nat, contents: seq<Message>, blocks: seq<seq<Byte>>,
                   used: set<nat>, used': set<nat>, index: nat, slot: R.Slot)
    requires Content(slots, lo, contents, blocks, used) && |slots| >= 2 && contents != []
    requires Indexes(index, lo, |slots|) && Counts(slot.seqno, lo + |slots|)
    requires Returned(slots[index].record.spill, used, used')
    ensures Content(slots[index := slot], lo + 1, contents[1..], blocks, used')
  {
    Inside(slots, lo, contents, blocks, used);
    assert Look(Topic.Indexing, 0) && Look(Topic.Counting, 0) && Look(Topic.Returning, 0);
    assert slots[index] == At(slots, lo) && slots[index := slot] == WithSlot(slots, lo, slot);
    PopHolds(slots, lo, contents, blocks, slot);
    PopSpilled(slots, lo, contents, blocks, used, used', slot);
  }

  /** Freeing the slot at the read position, with its number one lap ahead. */
  lemma FreeContent(slots: seq<R.Slot>, lo: nat, contents: seq<Message>, blocks: seq<seq<Byte>>,
                    used: set<nat>, used': set<nat>, index: nat, pos: nat, slot: R.Slot)
    requires Content(slots, lo, contents, blocks, used) && 2 <= |slots| < WORD64 && contents != []
    requires Indexes(index, lo, |slots|) && Counts(pos, lo) && slot.seqno == Plus(pos, |slots|)
    requires Returned(slots[index].record.spill, used, used')
    ensures Content(slots[index := slot], lo + 1, contents[1..], blocks, used')
  {
    CountOn(pos, lo, |slots|);
    PopContent(slots, lo, contents, blocks, used, used', index, slot);
  }

  lemma Tail(slots: seq<R.Slot>, lo: nat, contents: seq<Message>, blocks: seq<seq<Byte>>, used: set<nat>, index: nat, pos: nat)
    requires Content(slots, lo, contents, blocks, used) && 2 <= |slots| <= SIZE_MAX / 2
    requires Indexes(index, lo + |contents|, |slots|) && Counts(pos, lo + |contents|)
    ensures |contents| <= |slots|
    ensures Sub64(slots[index].seqno, pos) == 0 <==> |contents| < |slots|
    ensures Sub64(slots[index].seqno, pos) > SIZE_MAX / 2 <==> |contents| == |slots|
  {
    Inside(slots, lo, contents, blocks, used);
    TailSlot(slots, lo, contents, blocks);
    assert Look(Topic.Indexing, 0) && Look(Topic.Counting, 0) && slots[index] == At(slots, lo + |contents|);
  }

  /** The blocks after an optional one has been written. */
  function Filled(blocks: seq<seq<Byte>>, spill: Option<nat>, text: seq<Byte>): seq<seq<Byte>> {
    if spill.Some? && spill.value < |blocks| then blocks[spill.value := text] else blocks
  }

  /** The record is the packed message, and its block, if it has one, holds `text`. */
  ghost predicate Ready(m: Message, record: QueueRecord, spill: Option<nat>, text: seq<Byte>) {
    forall k: nat :: Look(Topic.Packing, k) ==>
      && R.Accepted(m) && record == Pack(m, TextLengthSpec(m), spill) && (spill.Some? <==> R.Long(m))
      && (spill.Some? ==> m.text[..TextLengthSpec(m) + 1] <= text)
  }

  /** The pool gained the block of the message, if it has one. */
  ghost predicate Gained(spill: Option<nat>, used: set<nat>, used': set<nat>, cap: nat) {
    if spill.Some? then spill.value < cap && spill.value !in used && used' == used + {spill.value} else used' == used
  }

  /** Both together. */
  ghost predicate Takes(m: Message, record: QueueRecord, spill: Option<nat>, text: seq<Byte>,
                        used: set<nat>, used': set<nat>, cap: nat) {
    forall k: nat :: Look(Topic.Gaining, k) ==> Ready(m, record, spill, text) && Gained(spill, used, used', cap)
  }

  lemma PushContent(slots: seq<R.Slot>, lo: nat, contents: seq<Message>, blocks: seq<seq<Byte>>, used: set<nat>, used': set<nat>,
                    m: Message, record: QueueRecord, spill: Option<nat>, text: seq<Byte>, index: nat, slot: R.Slot)
    requires Content(slots, lo, contents, blocks, used) && 2 <= |slots| && |contents| < |slots|
    requires Takes(m, record, spill, text, used, used', |blocks|)
    requires Indexes(index, lo + |contents|, |slots|) && Counts(slot.seqno, lo + |contents| + 1) && slot.record == record
    ensures Content(slots[index := slot], lo, contents + [m], Filled(blocks, spill, text), used')
  {
    assert Look(Topic.Gaining, 0) && Look(Topic.Packing, 0) && Look(Topic.Counting, 0) && Look(Topic.Indexing, 0) && slots[index := slot] == WithSlot(slots, lo + |contents|, slot);
    Inside(slots, lo, contents, blocks, used);
    var blocks' := Filled(blocks, spill, text);
    if spill.Some? { WriteBlockHolds(slots, lo, contents, blocks, used, spill.value, text); }
    PackUnpack(m, spill, BlockText(blocks', spill));
    PushHolds(slots, lo, contents, blocks', m, slot);
    PushSpilled(slots, lo, contents, used, used', m, slot);
  }

  lemma KeepBlocks(slots: seq<R.Slot>, lo: nat, contents: seq<Message>, blocks: seq<seq<Byte>>, used: set<nat>,
                   spill: Option<nat>, text: seq<Byte>)
    requires Content(slots, lo, contents, blocks, used)
    requires spill.Some? ==> spill.value < |blocks| && spill.value !in used
    ensures Content(slots, lo, contents, Filled(blocks, spill, text), used)
  {
    Inside(slots, lo, contents, blocks, used);
    if spill.Some? { WriteBlockHolds(slots, lo, contents, blocks, used, spill.value, text); }
  }

  lemma Distance(lo: nat, n: nat)
    requires n <= SIZE_MAX / 2
    ensures Sub64(Stored(lo + n), Stored(lo)) == n
  {
    StoredIsWrap(lo);
    StoredIsWrap(lo + n);
    SubOfWraps(lo + n, lo);
  }
}
