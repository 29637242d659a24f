/** The queue as one thread sees it: arrays of slots and blocks, 64-bit counters that
    wrap around, and the spill pool, against the plain sequence of queued messages. */
module Queue {
  import opened Options
  import opened Bits
  import opened Record
  import opened QueueContent
  import R = Ring
  import S = SpillPool
  import opened Focus
  import BitSet
  import opened Counters

  // ---- Capacity ---------------------------------------------------------------------

  lemma {:induction false} PowGrows(j: nat, k: nat)
    requires j <= k
    ensures Pow2(j) <= Pow2(k)
  {
    if j < k { PowGrows(j, k - 1); }
  }

  /** No power of two that holds the request is within the limits. */
  ghost predicate NothingFits(requested: nat, slotSize: nat)
    requires slotSize >= 1
  {
    forall j: nat :: j >= 1 && Pow2(j) >= requested ==> Pow2(j) > SIZE_MAX / 2 || Pow2(j) > SIZE_MAX / slotSize
  }

  /** `queue_capacity`: the least power of two, at least two, that holds the request;
      an error exactly when no power of two that holds it is within the limits. */
  method QueueCapacity(requested: nat, slotSize: nat) returns (n: Option<nat>, k: nat)
    requires slotSize >= 1
    ensures n.Some? ==>
              && k >= 1 && n.value == Pow2(k) && n.value >= requested && (k > 1 ==> Pow2(k - 1) < requested)
              && n.value <= SIZE_MAX / 2 && n.value <= SIZE_MAX / slotSize
    ensures n.None? <==> NothingFits(requested, slotSize)
  {
    var c := 2;
    k := 1;
    while c < requested
      invariant k >= 1 && c == Pow2(k) && (k > 1 ==> Pow2(k - 1) < requested)
      decreases requested - c
    {
      if c > SIZE_MAX / 2 {
        return None, k;
      }
      c := 2 * c;
      k := k + 1;
    }
    if c > SIZE_MAX / 2 || c > SIZE_MAX / slotSize {
      forall j: nat | j >= 1 && Pow2(j) >= requested ensures Pow2(j) >= c {
        if j < k { PowGrows(j, k - 1); } else { PowGrows(k, j); }
      }
      return None, k;
    }
    n := Some(c);
  }

  // ---- The queue -----------------------------------------------------------------------

  const EMPTY_RECORD: QueueRecord := QueueRecord(0, Time(0, 0), 0, 0, 0, [], [], [], [], [], [], None, 0, [])

  class LoggerQueue {
    const cap: nat
    ghost const order: nat
    const slots: array<R.Slot>
    const spills: array<seq<Byte>>
    const pool: S.Pool
    var enqueuePos: nat
    var dequeuePos: nat

    /** The queued messages, and the numbers of messages pushed and popped so far. */
    ghost var contents: seq<Message>
    ghost var pushed: nat
    ghost var popped: nat

    /** The slots, the block texts and the blocks in use, as values. */
    ghost var ring: seq<R.Slot>
    ghost var texts: seq<seq<Byte>>
    ghost var taken: set<nat>

    ghost predicate Shape()
      reads this, slots, pool, pool.used
    {
      && cap == Pow2(order) == slots.Length && 2 <= cap <= SIZE_MAX / 2 && order <= 64
      && pool.Valid() && spills.Length == pool.cap && slots[..] == ring && |texts| == pool.cap
      && Content(ring, popped, contents, texts, taken)
    }

    ghost predicate Valid()
      reads this, slots, spills, pool, pool.used
    {
      && Shape() && spills[..] == texts && pool.inUse == taken
      && pushed == popped + |contents| && Counts(enqueuePos, pushed) && Counts(dequeuePos, popped)
    }

    /** `logger_queue_init` once the capacity is known. */
    constructor (cap: nat, ghost order: nat)
      requires cap == Pow2(order) && 2 <= cap <= SIZE_MAX / 2 && order <= 64
      ensures Valid() && contents == [] && this.cap == cap
      ensures fresh(slots) && fresh(spills) && fresh(pool) && fresh(pool.used)
    {
      this.cap, this.order := cap, order;
      slots := new R.Slot[cap](i => R.Slot(i, EMPTY_RECORD));
      var spillCap := S.Min(cap, S.LIMIT);
      spills := new seq<Byte>[spillCap](_ => []);
      pool := new S.Pool(spillCap);
      enqueuePos, dequeuePos, contents, pushed, popped := 0, 0, [], 0, 0;
      new;
      ring, texts, taken := slots[..], spills[..], {};
      EmptyContent(ring, texts);
    }

    /** `pos & mask` */
    method Index(pos: nat, ghost p: nat) returns (index: nat)
      requires slots.Length == cap == Pow2(order) && order <= 64 && Counts(pos, p)
      ensures Indexes(index, p, slots.Length)
    {
      IndexOfStored(p, order);
      StoredIsWrap(p);
      BitSet.Divided(p, cap);
      assert Look(Topic.Counting, 0);
      index := And(pos, cap - 1);
    }

    /** `logger_queue_try_pop` */
    method TryPop() returns (ok: bool, m: Option<Delivered>)
      requires Valid()
      modifies this`dequeuePos, this`contents, this`popped, this`ring, this`taken, slots, pool.used, pool`inUse
      ensures Valid() && (ok <==> old(contents) != [])
      ensures ok ==> R.Accepted(old(contents)[0]) && m == Some(Expected(old(contents)[0])) && contents == old(contents)[1..]
      ensures !ok ==> m == None && contents == old(contents)
    {
      var pos := dequeuePos;
      CountOn(pos, popped, 1);
      var index := Index(pos, popped);
      Head(ring, popped, contents, texts, taken, index, Plus(pos, 1));
      if slots[index].seqno != Plus(pos, 1) {
        return false, None;
      }
      var record := slots[index].record;
      m := Some(Unpack(record, if record.spill.Some? then spills[record.spill.value] else []));
      pool.Put(record.spill);
      Release(index, pos);
      ok := true;
    }

    method Store(index: nat, slot: R.Slot)
      requires slots[..] == ring && index < slots.Length
      modifies slots, this`ring
      ensures slots[..] == ring == old(ring)[index := slot]
    {
      slots[index] := slot;
      ring := ring[index := slot];
    }

    /** Makes the slot available for the next lap, and with it the message gone. */
    method FreeSlot(index: nat, pos: nat)
      requires Shape() && contents != [] && Indexes(index, popped, slots.Length) && Counts(pos, popped)
      requires Returned(slots[index].record.spill, taken, pool.inUse)
      modifies this`contents, this`popped, this`ring, this`taken, slots
      ensures Shape() && taken == pool.inUse
      ensures contents == old(contents)[1..] && popped == old(popped) + 1
    {
      var slot := R.Slot(Plus(pos, cap), slots[index].record);
      assert ring[index] == slots[index];
      FreeContent(ring, popped, contents, texts, taken, pool.inUse, index, pos, slot);
      ghost var after, next, rest, left := ring[index := slot], popped + 1, contents[1..], pool.inUse;
      Store(index, slot);
      assert ring == after;
      ring, taken, contents, popped := after, left, rest, next;
    }

    /** Frees the slot, then advances the position. */
    method Release(index: nat, pos: nat)
      requires Shape() && contents != [] && spills[..] == texts
      requires Indexes(index, popped, slots.Length) && Counts(pos, popped)
      requires Counts(enqueuePos, pushed) && pushed == popped + |contents|
      requires Returned(slots[index].record.spill, taken, pool.inUse)
      modifies this`dequeuePos, this`contents, this`popped, this`ring, this`taken, slots
      ensures Valid() && contents == old(contents)[1..]
    {
      CountOn(pos, popped, 1);
      FreeSlot(index, pos);
      dequeuePos := Plus(pos, 1);
    }

    /** The pool has no free block. */
    ghost predicate Exhausted()
      reads this, pool, pool.used
    {
      forall i :: 0 <= i < pool.cap ==> i in pool.inUse
    }

    /** The text has an end, a long text finds a block, and the ring has room. */
    ghost predicate Accepts(m: Message)
      requires WellFormed(m)
      reads this, pool, pool.used
    {
      R.Accepted(m) && |contents| < cap && (R.Long(m) ==> !Exhausted())
    }

    /** `logger_queue_push` with a scan from `start`, `spurious` failures of the weak
        compare-and-swap, and the result of `logger_queue_notify_if_waiting`. A message
        that is accepted is queued even when the notification fails, and then the error
        comes back; a refusal changes nothing. */
    method Push(m: Message, start: nat, spurious: nat, notify: int) returns (rc: int)
      requires Valid() && WellFormed(m) && notify <= 0
      modifies this`enqueuePos, this`contents, this`pushed, this`ring, this`texts, this`taken, slots, spills, pool, pool.used
      ensures Valid()
      ensures rc == if !old(Accepts(m)) then 0 else if notify != 0 then notify else 1
      ensures contents == if old(Accepts(m)) then old(contents) + [m] else old(contents)
      ensures !old(Accepts(m)) ==> pool.inUse == old(pool.inUse)
    {
      var textLen := TextLength(m);
      TextLengthMeaning(m);
      if textLen == MESSAGE_MAX { return 0; }
      var spill: Option<nat> := None;
      if textLen > INLINE_TEXT {
        spill := pool.TryTake(start);
        if spill.None? { return 0; }
        spills[spill.value] := Overwrite(spills[spill.value], m.text[..textLen + 1]);
      }
      ghost var text := if spill.Some? then spills[spill.value] else [];
      assert spills[..] == Filled(texts, spill, text);
      rc := Reserve(m, Pack(m, textLen, spill), spill, spurious, text);
      if rc == 1 && notify != 0 { rc := notify; }
    }

    /** The loop of `logger_queue_push`, with the block already filled. The record is
        packed into the slot only after the position is reserved. */
    method Reserve(ghost m: Message, record: QueueRecord, spill: Option<nat>, spurious: nat, ghost text: seq<Byte>)
      returns (rc: int)
      requires Shape() && Ready(m, record, spill, text) && spills[..] == Filled(texts, spill, text)
      requires Gained(spill, taken, pool.inUse, |texts|)
      requires pushed == popped + |contents| && Counts(enqueuePos, pushed) && Counts(dequeuePos, popped)
      modifies this`enqueuePos, this`contents, this`pushed, this`ring, this`texts, this`taken, slots, pool.used, pool`inUse
      ensures Valid() && (rc == 0 || rc == 1) && (rc == 1 <==> old(|contents| < cap))
      ensures contents == if rc == 1 then old(contents) + [m] else old(contents)
      ensures rc == 0 ==> pool.inUse == old(taken)
    {
      var pos, left := enqueuePos, spurious;
      var index := Index(pos, pushed);
      Tail(ring, popped, contents, texts, taken, index, pos);
      var diff := Sub64(slots[index].seqno, pos);
      while diff == 0 && left > 0
        invariant diff == Sub64(slots[index].seqno, pos)
        decreases left
        modifies {}
      {
        left := left - 1;
        diff := Sub64(slots[index].seqno, pos);
      }
      if diff == 0 {
        Publish(m, record, spill, index, pos, text);
        return 1;
      }
      assert diff > SIZE_MAX / 2;
      KeepBlocks(ring, popped, contents, texts, taken, spill, text);
      pool.Put(spill);
      texts := Filled(texts, spill, text);
      rc := 0;
    }

    /** Reserves the position, writes the record and publishes the slot. */
    method Publish(ghost m: Message, record: QueueRecord, ghost spill: Option<nat>, index: nat, pos: nat, ghost text: seq<Byte>)
      requires Shape() && Takes(m, record, spill, text, taken, pool.inUse, |texts|) && |contents| < cap
      requires spills[..] == Filled(texts, spill, text)
      requires pushed == popped + |contents| && Counts(pos, pushed) && Counts(dequeuePos, popped)
      requires Indexes(index, pushed, slots.Length)
      modifies this`enqueuePos, this`contents, this`pushed, this`ring, this`texts, this`taken, slots
      ensures Valid() && contents == old(contents) + [m]
    {
      CountOn(pos, pushed, 1);
      var slot := R.Slot(Plus(pos, 1), record);
      ghost var now := pool.inUse;
      PushContent(ring, popped, contents, texts, taken, now, m, record, spill, text, index, slot);
      enqueuePos := Plus(pos, 1);
      Store(index, slot);
      texts, taken := Filled(texts, spill, text), now;
      contents, pushed := contents + [m], pushed + 1;
    }

    /** `logger_queue_drain` */
    method Drain(max: nat) returns (out: seq<Delivered>)
      requires Valid()
      modifies this`dequeuePos, this`contents, this`popped, this`ring, this`taken, slots, pool.used, pool`inUse
      ensures Valid() && |out| == S.Min(max, |old(contents)|)
      ensures AllDelivered(old(contents)[..|out|], out) && contents == old(contents)[|out|..]
    {
      out := [];
      while |out| < max
        invariant Valid() && |out| <= S.Min(max, |old(contents)|)
        invariant AllDelivered(old(contents)[..|out|], out) && contents == old(contents)[|out|..]
      {
        var ok, m := TryPop();
        if !ok { break; }
        assert old(contents)[..|out| + 1] == old(contents)[..|out|] + [old(contents)[|out|]];
        out := out + [m.value];
      }
    }

    /** `logger_queue_empty` */
    method Empty() returns (empty: bool)
      requires Valid()
      ensures empty <==> contents == []
    {
      CountOn(dequeuePos, popped, 1);
      var index := Index(dequeuePos, popped);
      Head(ring, popped, contents, texts, taken, index, Plus(dequeuePos, 1));
      empty := slots[index].seqno != Plus(dequeuePos, 1);
    }

    /** `logger_queue_depth` */
    method Depth() returns (depth: nat)
      requires Valid()
      ensures depth == |contents|
    {
      Inside(ring, popped, contents, texts, taken);
      Distance(popped, |contents|);
      assert Look(Topic.Counting, 0);
      depth := S.Min(Sub64(enqueuePos, dequeuePos), cap);
    }

    /** The number of blocks in use is the number of long messages queued. */
    method SpillInUse() returns (n: nat)
      requires Valid()
      ensures n == Longs(contents)
    {
      Inside(ring, popped, contents, texts, taken);
      n := pool.InUse();
    }
  }

  ghost predicate AllDelivered(ms: seq<Message>, out: seq<Delivered>) {
    |ms| == |out| && forall i :: 0 <= i < |ms| ==> R.Accepted(ms[i]) && out[i] == Expected(ms[i])
  }

  /** Copies over the start of a buffer. */
  function Overwrite(buffer: seq<Byte>, data: seq<Byte>): seq<Byte> {
    data + (if |data| < |buffer| then buffer[|data|..] else [])
  }

  // ---- The bitmap below the ring machine ---------------------------------------------------

  /** A successful compare-and-swap on one bitmap word is a step of the ring machine:
      the block it finds may be taken, and the words then hold the machine's set. */
  lemma SwapIsTake(s: R.State, words: seq<nat>, t: R.Tid, word: nat)
    requires R.Shape(s) && R.PcOf(s.producers, t).Taking?
    requires S.WordsOk(words, s.spillCap) && S.Used(words, s.spillCap) == s.used
    requires word < S.Words(s.spillCap) && S.Available(words[word], s.spillCap, word) != 0
    ensures var bit := LowestSet(S.Available(words[word], s.spillCap, word));
            var b := word * S.WORD_BITS + bit;
            && R.Enabled(s, R.Take(t, b))
            && S.Used(words[word := SetBit(words[word], bit)], s.spillCap) == R.Apply(s, R.Take(t, b)).used
  {
    S.TakeInserts(words, s.spillCap, word);
  }

  /** Clearing the bit of a block is the step that returns it: the worker's after it has
      read the text, or that of a producer whose push was refused. */
  lemma ClearIsReturn(s: R.State, words: seq<nat>, b: nat, t: R.Tid)
    requires R.Shape(s) && b < s.spillCap
    requires S.WordsOk(words, s.spillCap) && S.Used(words, s.spillCap) == s.used
    ensures b / S.WORD_BITS < |words|
    ensures var words' := words[b / S.WORD_BITS := ClearBit(words[b / S.WORD_BITS], b % S.WORD_BITS)];
            && (s.consumer == R.Returning(Some(b)) ==>
                  R.Enabled(s, R.Return) && S.Used(words', s.spillCap) == R.Apply(s, R.Return).used)
            && (R.PcOf(s.producers, t).Refused? && R.PcOf(s.producers, t).spill == Some(b) ==>
                  R.Enabled(s, R.PutBack(t)) && S.Used(words', s.spillCap) == R.Apply(s, R.PutBack(t)).used)
  {
    S.BlockInWords(s.spillCap, b);
    BitSet.BelowRemoves(words, S.WORD_BITS, s.spillCap, b);
  }
}
