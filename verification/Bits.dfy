/** Unsigned machine words as naturals: the bit operations and the modular
    comparisons that the queue, the spill pool and the descriptor bitmap use. */
module Bits {

  const WORD64: nat := 0x1_0000_0000_0000_0000
  const SIZE_MAX: nat := WORD64 - 1

  function Pow2(k: nat): (r: nat)
    ensures r >= 1
  {
    if k == 0 then 1 else 2 * Pow2(k - 1)
  }

  /** Bit `i` of word `w`, that is `(w >> i) & 1`. */
  predicate Bit(w: nat, i: nat) {
    if i == 0 then w % 2 == 1 else Bit(w / 2, i - 1)
  }

  /** Bitwise conjunction. */
  function And(a: nat, b: nat): nat {
    if a == 0 || b == 0 then 0
    else 2 * And(a / 2, b / 2) + (if a % 2 == 1 && b % 2 == 1 then 1 else 0)
  }

  /** `w | (1 << i)` */
  function SetBit(w: nat, i: nat): nat {
    if i == 0 then 2 * (w / 2) + 1 else 2 * SetBit(w / 2, i - 1) + w % 2
  }

  /** `w & ~(1 << i)` */
  function ClearBit(w: nat, i: nat): nat {
    if i == 0 then 2 * (w / 2) else 2 * ClearBit(w / 2, i - 1) + w % 2
  }

  /** Index of the lowest set bit, as the compiler's count-trailing-zeros. */
  function LowestSet(w: nat): nat
    requires w > 0
  {
    if w % 2 == 1 then 0 else 1 + LowestSet(w / 2)
  }

  /** Number of set bits. */
  function PopCount(w: nat): nat {
    if w == 0 then 0 else w % 2 + PopCount(w / 2)
  }

  lemma {:induction false} ZeroHasNoBits(i: nat)
    ensures !Bit(0, i)
  {
    if i > 0 { ZeroHasNoBits(i - 1); }
  }

  lemma {:induction false} HighBitsClear(w: nat, k: nat, i: nat)
    requires w < Pow2(k) && k <= i
    ensures !Bit(w, i)
  {
    if k == 0 { ZeroHasNoBits(i); } else { HighBitsClear(w / 2, k - 1, i - 1); }
  }

  lemma {:induction false} SetBitAt(w: nat, i: nat, j: nat)
    ensures Bit(SetBit(w, i), j) <==> i == j || Bit(w, j)
  {
    if i > 0 && j > 0 { SetBitAt(w / 2, i - 1, j - 1); }
  }

  lemma {:induction false} ClearBitAt(w: nat, i: nat, j: nat)
    ensures Bit(ClearBit(w, i), j) <==> i != j && Bit(w, j)
  {
    if i > 0 && j > 0 { ClearBitAt(w / 2, i - 1, j - 1); }
  }

  /** Setting a bit below the width keeps the word in its width. */
  lemma {:induction false} SetBitWidth(w: nat, i: nat, k: nat)
    requires w < Pow2(k) && i < k
    ensures SetBit(w, i) < Pow2(k)
  {
    var half := Pow2(k - 1);
    assert Pow2(k) == 2 * half;
    if i > 0 {
      SetBitWidth(w / 2, i - 1, k - 1);
      assert SetBit(w / 2, i - 1) + 1 <= half;
    } else {
      assert w / 2 + 1 <= half;
    }
  }

  lemma {:induction false} ClearBitWidth(w: nat, i: nat)
    ensures ClearBit(w, i) <= w
  {
    if i > 0 { ClearBitWidth(w / 2, i - 1); }
  }

  lemma {:induction false} LowestSetIsLeast(w: nat, j: nat)
    requires w > 0
    ensures Bit(w, LowestSet(w))
    ensures j < LowestSet(w) ==> !Bit(w, j)
  {
    if w % 2 == 0 { LowestSetIsLeast(w / 2, if j == 0 then 0 else j - 1); }
  }

  lemma {:induction false} LowestSetWidth(w: nat, k: nat)
    requires 0 < w < Pow2(k)
    ensures LowestSet(w) < k
  {
    if w % 2 == 0 { LowestSetWidth(w / 2, k - 1); }
  }

  lemma {:induction false} AndAt(a: nat, b: nat, j: nat)
    ensures Bit(And(a, b), j) <==> Bit(a, j) && Bit(b, j)
  {
    if a == 0 || b == 0 {
      ZeroHasNoBits(j);
    } else if j > 0 {
      AndAt(a / 2, b / 2, j - 1);
    }
  }

  /** A non-zero word has a set bit, so a word without bits is zero. */
  lemma {:induction false} SomeBit(w: nat)
    requires w > 0
    ensures exists j: nat :: Bit(w, j)
  {
    LowestSetIsLeast(w, 0);
  }

  lemma {:induction false} NoBitsIsZero(a: nat, b: nat)
    requires a == 0 || b == 0
    requires forall j: nat :: Bit(a, j) <==> Bit(b, j)
    ensures a == b
  {
    forall j: nat ensures !Bit(a, j) && !Bit(b, j) { ZeroHasNoBits(j); }
    if a + b > 0 { SomeBit(a + b); }
  }

  /** Two words with the same bits are the same word. */
  lemma {:induction false} SameBitsSameWord(a: nat, b: nat)
    requires forall j: nat :: Bit(a, j) <==> Bit(b, j)
    ensures a == b
    decreases a + b
  {
    if a == 0 || b == 0 {
      NoBitsIsZero(a, b);
      return;
    }
    forall j: nat ensures Bit(a / 2, j) <==> Bit(b / 2, j) {
      assert Bit(a, j + 1) <==> Bit(b, j + 1);
    }
    SameBitsSameWord(a / 2, b / 2);
    assert Bit(a, 0) <==> Bit(b, 0);
  }

  /** `w & (w - 1)` removes exactly the lowest set bit. */
  lemma {:induction false} ClearLowest(w: nat)
    requires w > 0
    ensures And(w, w - 1) == ClearBit(w, LowestSet(w)) < w
  {
    if w % 2 == 1 {
      AndSelf(w / 2);
    } else {
      ClearLowest(w / 2);
    }
  }

  lemma {:induction false} AndSelf(w: nat)
    ensures And(w, w) == w
  {
    if w > 0 { AndSelf(w / 2); }
  }

  /** `pos & (cap - 1)` is `pos % cap` for a power of two. */
  lemma {:induction false} MaskIsModulo(pos: nat, k: nat)
    ensures And(pos, Pow2(k) - 1) == pos % Pow2(k)
  {
    if k > 0 {
      var half := Pow2(k - 1);
      MaskIsModulo(pos / 2, k - 1);
      HalfModulo(pos, half);
      if pos > 0 && k > 1 {
        assert (Pow2(k) - 1) / 2 == half - 1 && (Pow2(k) - 1) % 2 == 1;
      }
    }
  }

  lemma HalfModulo(pos: nat, half: nat)
    requires half >= 1
    ensures pos % (2 * half) == 2 * ((pos / 2) % half) + pos % 2
  {
    var q, r := (pos / 2) / half, (pos / 2) % half;
    assert pos == (2 * half) * q + (2 * r + pos % 2) by {
      assert pos / 2 == half * q + r;
    }
    QuotientUnique(pos, 2 * half, q, 2 * r + pos % 2);
  }

  lemma MultipleBound(d: nat, k: int)
    ensures k >= 1 ==> d * k >= d
    ensures k <= -1 ==> d * k + d <= 0
  {
  }

  lemma QuotientUnique(x: nat, d: nat, q: nat, r: nat)
    requires d >= 1 && r < d && x == d * q + r
    ensures x / d == q && x % d == r
  {
    var k := x / d - q;
    assert d * k == r - x % d by { assert x == d * (x / d) + x % d; }
    MultipleBound(d, k);
  }

  /** Two different positions of one window of length `cap` use different slots. */
  lemma WindowDistinct(p: nat, q: nat, cap: nat)
    requires cap >= 1 && p < q < p + cap
    ensures p % cap != q % cap
  {
    var k := q / cap - p / cap;
    assert cap * k == q - p - (q % cap - p % cap) by {
      assert q == cap * (q / cap) + q % cap && p == cap * (p / cap) + p % cap;
    }
    MultipleBound(cap, k);
  }

  /** The position of the window `[lo, lo + cap)` that uses the slot of `p`. */
  function WindowPosition(lo: nat, cap: nat, p: nat): (r: nat)
    requires cap >= 1
    ensures lo <= r < lo + cap && r % cap == p % cap
  {
    var d := p % cap - lo % cap;
    var r := if d >= 0 then lo + d else lo + d + cap;
    assert r % cap == p % cap by {
      var q := if d >= 0 then lo / cap else lo / cap + 1;
      assert lo == cap * (lo / cap) + lo % cap;
      assert r == cap * q + p % cap;
      QuotientUnique(r, cap, q, p % cap);
    }
    r
  }

  /** Equal slots are a whole number of laps apart. */
  lemma SameSlotApart(p: nat, q: nat, cap: nat)
    requires cap >= 1 && p % cap == q % cap
    ensures p < q ==> p + cap <= q
  {
    if p < q < p + cap { WindowDistinct(p, q, cap); }
  }

  lemma DistinctInWindow(lo: nat, p: nat, q: nat, cap: nat)
    requires cap >= 1 && lo <= p < lo + cap && lo <= q < lo + cap && p != q
    ensures p % cap != q % cap
  {
    if p < q { WindowDistinct(p, q, cap); } else { WindowDistinct(q, p, cap); }
  }

  lemma NextLapSameSlot(p: nat, cap: nat)
    requires cap >= 1
    ensures (p + cap) % cap == p % cap
  {
    assert p == cap * (p / cap) + p % cap;
    assert p + cap == cap * (p / cap + 1) + p % cap;
    QuotientUnique(p + cap, cap, p / cap + 1, p % cap);
  }

  // ---- 64-bit counters ------------------------------------------------

  /** The stored value of an unbounded counter. */
  function Wrap(n: int): nat {
    n % WORD64
  }

  /** Unsigned 64-bit subtraction. */
  function Sub64(a: nat, b: nat): nat {
    (a - b) % WORD64
  }

  /** Unsigned subtraction of stored counters is the distance, folded to 64 bits. */
  lemma SubOfWraps(a: int, b: int)
    ensures Sub64(Wrap(a), Wrap(b)) == Wrap(a - b)
  {
    var qa, qb := a / WORD64, b / WORD64;
    assert Wrap(a) - Wrap(b) == (a - b) - WORD64 * (qa - qb);
  }

  /** The three tests the code makes on a folded distance, for a distance that
      stays within half of the 64-bit space. */
  lemma FoldedDistance(a: int, b: int)
    requires -0x8000_0000_0000_0000 <= a - b < 0x8000_0000_0000_0000
    ensures Sub64(Wrap(a), Wrap(b)) == 0 <==> a == b
    ensures Sub64(Wrap(a), Wrap(b)) > SIZE_MAX / 2 <==> a < b
    ensures Sub64(Wrap(a), Wrap(b)) <= SIZE_MAX / 2 <==> a >= b
  {
    SubOfWraps(a, b);
  }

  /** Within half the space, equal stored values mean equal counters. */
  lemma FoldedEquality(a: int, b: int)
    requires -0x8000_0000_0000_0000 <= a - b < 0x8000_0000_0000_0000
    ensures Wrap(a) == Wrap(b) <==> a == b
  {
    FoldedDistance(a, b);
    SubOfWraps(a, b);
  }

  lemma {:induction false} PowSplit(a: nat, b: nat)
    ensures Pow2(a + b) == Pow2(a) * Pow2(b)
  {
    if a > 0 { PowSplit(a - 1, b); }
  }

  lemma Regroup(d: nat, e: nat, q: nat, k: nat)
    ensures (d * e) * q + d * k == d * (e * q + k) && e * q + k >= 0
  {
  }

  lemma ModuloOfMultiple(pos: nat, d: nat, e: nat, n: nat)
    requires d >= 1 && n == d * e && n >= 1
    ensures (pos % n) % d == pos % d
  {
    var q, w := pos / n, pos % n;
    Whole(pos, n);
    var k, r := w / d, w % d;
    Whole(w, d);
    Regroup(d, e, q, k);
    var m: nat := e * q + k;
    QuotientUnique(pos, d, m, r);
  }

  lemma Whole(x: nat, d: nat)
    requires d >= 1
    ensures x == d * (x / d) + x % d && x % d < d
  {
  }

  lemma WordPower()
    ensures Pow2(32) == 0x1_0000_0000 && Pow2(64) == WORD64
  {
    assert Pow2(8) == 256;
    PowSplit(8, 8);
    PowSplit(16, 16);
    PowSplit(32, 32);
  }

  /** The slot index the code computes from a stored 64-bit position. */
  lemma IndexOfStored(pos: nat, k: nat)
    requires k <= 64
    ensures And(Wrap(pos), Pow2(k) - 1) == pos % Pow2(k)
  {
    var stored := Wrap(pos);
    MaskIsModulo(stored, k);
    PowSplit(k, 64 - k);
    WordPower();
    ModuloOfMultiple(pos, Pow2(k), Pow2(64 - k), WORD64);
  }
}
