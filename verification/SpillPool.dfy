/** The pool of spill blocks: a bitmap of 32-bit words, scanned word by word. */
module SpillPool {
  import opened Options
  import opened Bits
  import BitSet
  import opened Record
  import opened Focus

  const WORD_BITS: nat := 32
  const LIMIT: nat := 1024
  const UINT_MAX: nat := 0xffff_ffff

  function Words(cap: nat): nat {
    (cap + WORD_BITS - 1) / WORD_BITS
  }

  /** `spill_valid_mask` */
  function ValidMask(cap: nat, word: nat): nat
    requires word < Words(cap)
  {
    var remaining := cap - word * WORD_BITS;
    if remaining >= WORD_BITS then UINT_MAX else Pow2(remaining) - 1
  }

  lemma LowBits(remaining: nat, width: nat, j: nat)
    requires remaining <= width
    ensures Pow2(remaining) - 1 < Pow2(width) && (Bit(Pow2(remaining) - 1, j) <==> j < remaining)
  {
    BitSet.LowMask(remaining, j);
    PowSplit(remaining, width - remaining);
    Larger(Pow2(remaining), Pow2(width - remaining));
  }

  /** The mask selects exactly the blocks that exist. */
  lemma ValidMaskMeaning(cap: nat, word: nat, j: nat)
    requires word < Words(cap)
    ensures ValidMask(cap, word) <= UINT_MAX
    ensures Bit(ValidMask(cap, word), j) <==> j < WORD_BITS && word * WORD_BITS + j < cap
  {
    var remaining := cap - word * WORD_BITS;
    WordPower();
    LowBits(if remaining >= WORD_BITS then WORD_BITS else remaining, WORD_BITS, j);
  }

  lemma Larger(a: nat, b: nat)
    requires b >= 1
    ensures a <= a * b
  {
  }

  /** `~used & valid` */
  function Available(used: nat, cap: nat, word: nat): nat
    requires word < Words(cap) && used <= UINT_MAX
  {
    And(UINT_MAX - used, ValidMask(cap, word))
  }

  lemma AvailableMeaning(used: nat, cap: nat, word: nat, j: nat)
    requires word < Words(cap) && used <= UINT_MAX
    ensures Available(used, cap, word) <= UINT_MAX
    ensures Bit(Available(used, cap, word), j) <==> j < WORD_BITS && word * WORD_BITS + j < cap && !Bit(used, j)
  {
    ValidMaskMeaning(cap, word, j);
    WordPower();
    BitSet.FreeAt(used, ValidMask(cap, word), WORD_BITS, j);
  }

  /** The blocks in use. */
  ghost function Used(words: seq<nat>, cap: nat): set<nat> {
    BitSet.Below(words, WORD_BITS, cap)
  }

  predicate WordsOk(words: seq<nat>, cap: nat) {
    |words| >= Words(cap) && forall w :: 0 <= w < |words| ==> words[w] <= UINT_MAX
  }

  lemma BlockInWords(cap: nat, b: nat)
    requires b < cap
    ensures b / WORD_BITS < Words(cap) && b == (b / WORD_BITS) * WORD_BITS + b % WORD_BITS
    ensures BitSet.Word(b, WORD_BITS) == b / WORD_BITS && BitSet.Place(b, WORD_BITS) == b % WORD_BITS
  {
    BitSet.Divided(b, WORD_BITS);
  }

  lemma BelowLowest(words: seq<nat>, cap: nat, word: nat, i: nat)
    requires WordsOk(words, cap) && word < Words(cap) && Available(words[word], cap, word) != 0
    requires word * WORD_BITS <= i < word * WORD_BITS + LowestSet(Available(words[word], cap, word))
    ensures i in Used(words, cap)
  {
    var available, j := Available(words[word], cap, word), i - word * WORD_BITS;
    AvailableMeaning(words[word], cap, word, LowestSet(available));
    LowestSetIsLeast(available, j);
    AvailableMeaning(words[word], cap, word, j);
    BitSet.IndexParts(word, j, WORD_BITS);
    assert i == word * WORD_BITS + j;
  }

  /** What a successful compare-and-swap on one word does: it takes a block that
      exists and was free, the lowest such block of its word, and changes the use of
      no other. */
  lemma TakeInserts(words: seq<nat>, cap: nat, word: nat)
    requires WordsOk(words, cap) && word < Words(cap) && Available(words[word], cap, word) != 0
    ensures var bit := LowestSet(Available(words[word], cap, word));
            var b, words' := word * WORD_BITS + bit, words[word := SetBit(words[word], bit)];
            && b < cap && b !in Used(words, cap)
            && Used(words', cap) == Used(words, cap) + {b} && WordsOk(words', cap)
            && forall i: nat :: word * WORD_BITS <= i < b ==> i in Used(words, cap)
  {
    var available := Available(words[word], cap, word);
    var bit := LowestSet(available);
    AvailableMeaning(words[word], cap, word, bit);
    LowestSetIsLeast(available, 0);
    WordPower();
    LowestSetWidth(available, WORD_BITS);
    var b := word * WORD_BITS + bit;
    BitSet.IndexParts(word, bit, WORD_BITS);
    BitSet.BelowInserts(words, WORD_BITS, cap, b);
    SetBitWidth(words[word], bit, WORD_BITS);
    forall i: nat | word * WORD_BITS <= i < b ensures i in Used(words, cap) {
      BelowLowest(words, cap, word, i);
    }
  }

  /** A word without an available bit has every one of its blocks in use. */
  lemma WordIsFull(words: seq<nat>, cap: nat, word: nat, b: nat)
    requires WordsOk(words, cap) && word < Words(cap) && Available(words[word], cap, word) == 0
    requires b < cap && b / WORD_BITS == word
    ensures b in Used(words, cap)
  {
    BlockInWords(cap, b);
    AvailableMeaning(words[word], cap, word, b % WORD_BITS);
    ZeroHasNoBits(b % WORD_BITS);
  }

  /** The word that a scan from `start` looks at in its step `k`. */
  function ScanWord(start: nat, k: nat, words: nat): (w: nat)
    requires words >= 1
    ensures w < words
  {
    (start + k) % words
  }

  lemma AllScanned(start: nat, words: nat, full: set<nat>, w: nat)
    requires w < words && forall k :: 0 <= k < words ==> ScanWord(start, k, words) in full
    ensures w in full
  {
    var p := WindowPosition(start, words, w);
    QuotientUnique(w, words, 0, w);
    assert ScanWord(start, p - start, words) == w;
  }

  function Min(a: nat, b: nat): nat {
    if a <= b then a else b
  }

  /** The words keep this set. */
  ghost predicate Tracks(words: seq<nat>, cap: nat, inUse: set<nat>) {
    forall k: nat :: Look(Topic.Tracking, k) ==> WordsOk(words, cap) && inUse == Used(words, cap)
  }

  lemma Tracked(words: seq<nat>, cap: nat, inUse: set<nat>)
    requires Tracks(words, cap, inUse)
    ensures WordsOk(words, cap) && inUse == Used(words, cap)
  {
    assert Look(Topic.Tracking, 0);
  }

  class Pool {
    const cap: nat
    const used: array<nat>
    var exhaustions: nat

    /** The blocks in use. */
    ghost var inUse: set<nat>

    ghost predicate Valid()
      reads this, used
    {
      1 <= cap <= LIMIT && Tracks(used[..], cap, inUse)
    }

    constructor (cap: nat)
      requires 1 <= cap <= LIMIT
      ensures Valid() && this.cap == cap && inUse == {} && fresh(used) && exhaustions == 0
    {
      this.cap := cap;
      this.used := new nat[Words(LIMIT)](_ => 0);
      exhaustions, inUse := 0, {};
      new;
      forall i: nat ensures !BitSet.Has(used[..], WORD_BITS, i) {
        ZeroHasNoBits(BitSet.Place(i, WORD_BITS));
      }
    }

    /** One word of the scan. */
    method TryWord(word: nat) returns (b: Option<nat>)
      requires Valid() && word < Words(cap)
      modifies used, this`inUse
      ensures Valid()
      ensures b.Some? ==>
                b.value < cap && b.value !in old(inUse) && inUse == old(inUse) + {b.value}
      ensures b.None? ==> used[..] == old(used[..]) && inUse == old(inUse) && WordFull(inUse, word)
    {
      Tracked(used[..], cap, inUse);
      var available := Available(used[word], cap, word);
      if available == 0 {
        forall i: nat | i < cap && i / WORD_BITS == word ensures i in inUse {
          WordIsFull(used[..], cap, word, i);
        }
        return None;
      }
      var bit := LowestSet(available);
      TakeInserts(used[..], cap, word);
      used[word] := SetBit(used[word], bit);
      assert used[..] == old(used[..])[word := used[word]];
      b := Some(word * WORD_BITS + bit);
      inUse := inUse + {word * WORD_BITS + bit};
    }

    ghost predicate WordFull(taken: set<nat>, word: nat) {
      forall i: nat :: i < cap && i / WORD_BITS == word ==> i in taken
    }

    /** `queue_spill_try_take` scanning from word `start`. */
    method TryTake(start: nat) returns (b: Option<nat>)
      requires Valid()
      modifies used, this`exhaustions, this`inUse
      ensures Valid()
      ensures b.Some? ==>
                && b.value < cap && b.value !in old(inUse) && inUse == old(inUse) + {b.value}
                && exhaustions == old(exhaustions)
      ensures b.None? ==>
                && inUse == old(inUse) && exhaustions == (old(exhaustions) + 1) % WORD64
                && forall i :: 0 <= i < cap ==> i in old(inUse)
    {
      var words := Words(cap);
      ghost var taken, full: set<nat> := inUse, {};
      var n := 0;
      b := None;
      while n < words
        invariant 0 <= n <= words && used[..] == old(used[..]) && inUse == taken && exhaustions == old(exhaustions)
        invariant forall k :: 0 <= k < n ==> ScanWord(start, k, words) in full
        invariant forall w :: w in full ==> WordFull(taken, w)
      {
        var word := ScanWord(start, n, words);
        b := TryWord(word);
        if b.Some? { return; }
        full := full + {word};
        n := n + 1;
      }
      forall i | 0 <= i < cap ensures i in taken {
        BlockInWords(cap, i);
        AllScanned(start, words, full, i / WORD_BITS);
      }
      exhaustions := (exhaustions + 1) % WORD64;
      b := None;
    }

    /** `queue_spill_put` */
    method Put(b: Option<nat>)
      requires Valid() && (b.Some? ==> b.value < cap)
      modifies used, this`inUse
      ensures Valid() && inUse == (if b.Some? then old(inUse) - {b.value} else old(inUse))
    {
      if b.None? { return; }
      Tracked(used[..], cap, inUse);
      var word, bit := b.value / WORD_BITS, b.value % WORD_BITS;
      BlockInWords(cap, b.value);
      BitSet.BelowRemoves(used[..], WORD_BITS, cap, b.value);
      ClearBitWidth(used[word], bit);
      used[word] := ClearBit(used[word], bit);
      assert used[..] == old(used[..])[word := used[word]];
      inUse := inUse - {b.value};
    }

    /** `logger_queue_spill_in_use` */
    method InUse() returns (n: nat)
      requires Valid()
      ensures n == |inUse|
    {
      n := 0;
      Tracked(used[..], cap, inUse);
      var word := 0;
      ghost var sofar: set<nat> := {};
      while word < Words(cap)
        invariant 0 <= word <= Words(cap)
        invariant n == |sofar|
        invariant forall i :: i in sofar <==> i < word * WORD_BITS && i in inUse
      {
        var value := And(used[word], ValidMask(cap, word));
        OneWord(used[..], cap, word, sofar);
        n := n + PopCount(value);
        sofar := sofar + BitSet.WordSet(value, word * WORD_BITS, WORD_BITS);
        word := word + 1;
      }
      forall i | i in inUse ensures i in sofar { BlockInWords(cap, i); }
      assert sofar == inUse;
      AtMost(sofar, cap);
      n := Min(n, cap);
    }
  }

  /** The blocks of one word that are in use. */
  ghost function Here(words: seq<nat>, cap: nat, word: nat): set<nat>
    requires word < Words(cap) <= |words|
  {
    BitSet.WordSet(And(words[word], ValidMask(cap, word)), word * WORD_BITS, WORD_BITS)
  }

  lemma HereIs(words: seq<nat>, cap: nat, word: nat, i: nat)
    requires WordsOk(words, cap) && word < Words(cap)
    ensures i in Here(words, cap, word) <==> word * WORD_BITS <= i < (word + 1) * WORD_BITS && i in Used(words, cap)
  {
    if word * WORD_BITS <= i < (word + 1) * WORD_BITS {
      var j := i - word * WORD_BITS;
      BitSet.IndexParts(word, j, WORD_BITS);
      AndAt(words[word], ValidMask(cap, word), j);
      ValidMaskMeaning(cap, word, j);
      assert i == word * WORD_BITS + j;
    }
  }

  lemma HereSize(words: seq<nat>, cap: nat, word: nat)
    requires WordsOk(words, cap) && word < Words(cap)
    ensures |Here(words, cap, word)| == PopCount(And(words[word], ValidMask(cap, word)))
  {
    ValidMaskMeaning(cap, word, 0);
    BitSet.AndWidth(words[word], ValidMask(cap, word));
    WordPower();
    BitSet.WordSetSize(And(words[word], ValidMask(cap, word)), word * WORD_BITS, WORD_BITS);
  }

  lemma OneWord(words: seq<nat>, cap: nat, word: nat, sofar: set<nat>)
    requires WordsOk(words, cap) && word < Words(cap)
    requires forall i :: i in sofar <==> i < word * WORD_BITS && i in Used(words, cap)
    ensures var value := And(words[word], ValidMask(cap, word));
            var more := sofar + BitSet.WordSet(value, word * WORD_BITS, WORD_BITS);
            && |more| == |sofar| + PopCount(value)
            && forall i :: i in more <==> i < (word + 1) * WORD_BITS && i in Used(words, cap)
  {
    var here := Here(words, cap, word);
    HereSize(words, cap, word);
    forall i: nat ensures i in here <==> word * WORD_BITS <= i < (word + 1) * WORD_BITS && i in Used(words, cap) {
      HereIs(words, cap, word, i);
    }
    assert sofar !! here;
  }

  lemma {:induction false} AtMost(s: set<nat>, n: nat)
    requires forall i :: i in s ==> i < n
    ensures |s| <= n
  {
    if n > 0 { AtMost(s - {n - 1}, n - 1); } else { assert s == {}; }
  }
}
