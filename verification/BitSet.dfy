/** Sets of small numbers kept as bits of an array of machine words. */
module BitSet {
  import opened Bits

  /** The word of number `i` and its bit there: quotient and remainder by the width,
      defined by repeated subtraction so that proofs stay linear. */
  function Word(i: nat, width: nat): nat
    requires width >= 1
  {
    if i < width then 0 else 1 + Word(i - width, width)
  }

  function Place(i: nat, width: nat): (r: nat)
    requires width >= 1
    ensures r < width
  {
    if i < width then i else Place(i - width, width)
  }

  lemma OneMoreTime(width: nat, q: nat)
    ensures width * (q + 1) == width * q + width
  {
  }

  lemma {:induction false} Divided(i: nat, width: nat)
    requires width >= 1
    ensures Word(i, width) == i / width && Place(i, width) == i % width
  {
    if i >= width {
      Divided(i - width, width);
      var q, r := (i - width) / width, (i - width) % width;
      OneMoreTime(width, q);
      QuotientUnique(i, width, q + 1, r);
    } else {
      QuotientUnique(i, width, 0, i);
    }
  }

  lemma {:induction false} IndexParts(word: nat, bit: nat, width: nat)
    requires width >= 1 && bit < width
    ensures Word(word * width + bit, width) == word && Place(word * width + bit, width) == bit
  {
    if word > 0 {
      IndexParts(word - 1, bit, width);
      assert word * width + bit - width == (word - 1) * width + bit >= 0;
    }
  }

  lemma {:induction false} SamePlace(i: nat, j: nat, width: nat)
    requires width >= 1 && Word(i, width) == Word(j, width) && Place(i, width) == Place(j, width)
    ensures i == j
  {
    if i >= width && j >= width { SamePlace(i - width, j - width, width); }
  }

  /** Whether number `i` is in the set kept in words of `width` bits. */
  predicate Has(words: seq<nat>, width: nat, i: nat)
    requires width >= 1
  {
    Word(i, width) < |words| && Bit(words[Word(i, width)], Place(i, width))
  }

  /** The members below `n`. */
  ghost function Below(words: seq<nat>, width: nat, n: nat): set<nat>
    requires width >= 1
  {
    set i: nat | i < n && Has(words, width, i)
  }

  function Inserted(words: seq<nat>, width: nat, i: nat): seq<nat>
    requires width >= 1 && Word(i, width) < |words|
  {
    words[Word(i, width) := SetBit(words[Word(i, width)], Place(i, width))]
  }

  function Removed(words: seq<nat>, width: nat, i: nat): seq<nat>
    requires width >= 1 && Word(i, width) < |words|
  {
    words[Word(i, width) := ClearBit(words[Word(i, width)], Place(i, width))]
  }

  /** Setting one bit inserts one number and changes no other. */
  lemma SetInserts(words: seq<nat>, width: nat, i: nat, j: nat)
    requires width >= 1 && Word(i, width) < |words|
    ensures Has(Inserted(words, width, i), width, j) <==> j == i || Has(words, width, j)
  {
    if Word(i, width) == Word(j, width) {
      SetBitAt(words[Word(i, width)], Place(i, width), Place(j, width));
      if Place(i, width) == Place(j, width) { SamePlace(i, j, width); }
    }
  }

  /** Clearing one bit removes one number and changes no other. */
  lemma ClearRemoves(words: seq<nat>, width: nat, i: nat, j: nat)
    requires width >= 1 && Word(i, width) < |words|
    ensures Has(Removed(words, width, i), width, j) <==> j != i && Has(words, width, j)
  {
    if Word(i, width) == Word(j, width) {
      ClearBitAt(words[Word(i, width)], Place(i, width), Place(j, width));
      if Place(i, width) == Place(j, width) { SamePlace(i, j, width); }
    }
  }

  lemma BelowInserts(words: seq<nat>, width: nat, n: nat, i: nat)
    requires width >= 1 && Word(i, width) < |words| && i < n
    ensures Below(Inserted(words, width, i), width, n) == Below(words, width, n) + {i}
  {
    forall j: nat ensures Has(Inserted(words, width, i), width, j) <==> j == i || Has(words, width, j) {
      SetInserts(words, width, i, j);
    }
  }

  lemma BelowRemoves(words: seq<nat>, width: nat, n: nat, i: nat)
    requires width >= 1 && Word(i, width) < |words|
    ensures Below(Removed(words, width, i), width, n) == Below(words, width, n) - {i}
  {
    forall j: nat ensures Has(Removed(words, width, i), width, j) <==> j != i && Has(words, width, j) {
      ClearRemoves(words, width, i, j);
    }
  }

  // ---- Counting ----------------------------------------------------------------------

  /** The numbers of the bits of one word that starts at `base`. */
  ghost function WordSet(w: nat, base: nat, width: nat): set<nat> {
    set j: nat | j < width && Bit(w, j) :: base + j
  }

  lemma {:induction false} WordSetSize(w: nat, base: nat, width: nat)
    requires w < Pow2(width)
    ensures |WordSet(w, base, width)| == PopCount(w)
    decreases width
  {
    if width == 0 {
      assert WordSet(w, base, 0) == {};
    } else {
      WordSetSize(w / 2, base + 1, width - 1);
      var rest := WordSet(w / 2, base + 1, width - 1);
      forall i ensures i in WordSet(w, base, width) <==> (i == base && w % 2 == 1) || i in rest {
        if i in WordSet(w, base, width) && i != base {
          var j: nat :| j < width && Bit(w, j) && i == base + j;
          assert Bit(w / 2, j - 1) && i == (base + 1) + (j - 1);
        }
        if i in rest {
          var j: nat :| j < width - 1 && Bit(w / 2, j) && i == (base + 1) + j;
          assert Bit(w, j + 1);
        }
        if i == base && w % 2 == 1 { assert Bit(w, 0) && base + 0 == i; }
      }
      if w % 2 == 1 {
        assert WordSet(w, base, width) == {base} + rest && base !in rest;
      } else {
        assert WordSet(w, base, width) == rest;
      }
    }
  }

  /** The low `k` bits. */
  lemma {:induction false} LowMask(k: nat, j: nat)
    ensures Bit(Pow2(k) - 1, j) <==> j < k
  {
    if k == 0 {
      ZeroHasNoBits(j);
    } else if j > 0 {
      LowMask(k - 1, j - 1);
      assert (Pow2(k) - 1) / 2 == Pow2(k - 1) - 1;
    }
  }

  lemma Halves(a: nat, b: nat)
    requires b <= 1
    ensures (2 * a + b) / 2 == a && (2 * a + b) % 2 == b
  {
  }

  /** Complement within a width, `~w`. */
  lemma {:induction false} ComplementAt(w: nat, k: nat, j: nat)
    requires w < Pow2(k) && j < k
    ensures Bit(Pow2(k) - 1 - w, j) <==> !Bit(w, j)
  {
    var half, a, b := Pow2(k - 1), w / 2, w % 2;
    Halves(half - 1 - a, 1 - b);
    assert Pow2(k) - 1 - w == 2 * (half - 1 - a) + (1 - b);
    if j > 0 { ComplementAt(a, k - 1, j - 1); }
  }

  lemma {:induction false} AndWidth(a: nat, b: nat)
    ensures And(a, b) <= b
  {
    if a != 0 && b != 0 { AndWidth(a / 2, b / 2); }
  }

  /** `~used & mask` */
  lemma FreeAt(used: nat, mask: nat, width: nat, j: nat)
    requires used < Pow2(width) && mask < Pow2(width)
    ensures And(Pow2(width) - 1 - used, mask) < Pow2(width)
    ensures Bit(And(Pow2(width) - 1 - used, mask), j) <==> Bit(mask, j) && !Bit(used, j)
  {
    AndAt(Pow2(width) - 1 - used, mask, j);
    AndWidth(Pow2(width) - 1 - used, mask);
    if j < width { ComplementAt(used, width, j); } else { HighBitsClear(mask, width, j); }
  }

  // ---- Listing -------------------------------------------------------------------------

  /** The numbers of a word, taken lowest first by `w & (w - 1)`. */
  function Listed(w: nat, base: nat): seq<nat>
    decreases w
  {
    if w == 0 then []
    else
      ClearLowest(w);
      [base + LowestSet(w)] + Listed(And(w, w - 1), base)
  }

  /** The numbers of all words in order. */
  function Listing(words: seq<nat>, width: nat): seq<nat> {
    if words == [] then []
    else
      var k := |words| - 1;
      Listing(words[..k], width) + Listed(words[k], k * width)
  }

  ghost predicate Rising(s: seq<nat>) {
    forall i, j :: 0 <= i < j < |s| ==> s[i] < s[j]
  }

  /** A word lists exactly its bits, each once, in rising order. */
  lemma {:induction false} ListedIsExact(w: nat, base: nat, i: nat)
    ensures i in Listed(w, base) <==> i >= base && Bit(w, i - base)
    ensures Rising(Listed(w, base))
    decreases w
  {
    if w == 0 {
      if i >= base { ZeroHasNoBits(i - base); }
    } else {
      var low, rest := LowestSet(w), And(w, w - 1);
      ClearLowest(w);
      ListedIsExact(rest, base, i);
      LowestSetIsLeast(w, 0);
      if i >= base { ClearBitAt(w, low, i - base); }
      var tail := Listed(rest, base);
      forall k | 0 <= k < |tail| ensures base + low < tail[k] {
        ListedIsExact(rest, base, tail[k]);
        ClearBitAt(w, low, tail[k] - base);
        LowestSetIsLeast(w, tail[k] - base);
      }
    }
  }

  lemma {:induction false} ListingAppends(words: seq<nat>, w: nat, width: nat)
    ensures Listing(words + [w], width) == Listing(words, width) + Listed(w, |words| * width)
  {
    assert (words + [w])[..|words|] == words;
  }

  /** The members of a word that starts at `k * width`. */
  lemma WordOf(i: nat, k: nat, width: nat)
    requires width >= 1
    ensures Word(i, width) == k <==> k * width <= i < k * width + width
    ensures Word(i, width) < k <==> i < k * width
    ensures Word(i, width) == k ==> Place(i, width) == i - k * width
  {
    Divided(i, width);
    var q, r := i / width, i % width;
    assert i == q * width + r;
    if q < k { Multiples(q + 1, k, width); } else if q > k { Multiples(k + 1, q, width); }
  }

  lemma Multiples(a: nat, b: nat, width: nat)
    requires a <= b
    ensures a * width <= b * width && (a >= 1 ==> (a - 1) * width + width == a * width)
  {
  }

  /** The listing has exactly the members, each once, in rising order. */
  lemma {:induction false} ListingIsExact(words: seq<nat>, width: nat, i: nat)
    requires width >= 1 && forall k :: 0 <= k < |words| ==> words[k] < Pow2(width)
    ensures i in Listing(words, width) <==> Has(words, width, i)
    ensures Rising(Listing(words, width))
    decreases |words|
  {
    if words != [] {
      var k := |words| - 1;
      var front, first, last := words[..k], Listing(words[..k], width), Listed(words[k], k * width);
      ListingIsExact(front, width, i);
      ListedIsExact(words[k], k * width, i);
      WordOf(i, k, width);
      if i >= k * width + width { HighBitsClear(words[k], width, i - k * width); }
      forall a, b | 0 <= a < |first| && 0 <= b < |last| ensures first[a] < last[b] {
        ListingIsExact(front, width, first[a]);
        WordOf(first[a], k, width);
        ListedIsExact(words[k], k * width, last[b]);
      }
    }
  }
}
