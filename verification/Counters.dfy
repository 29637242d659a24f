/** Counters that are stored in 64 bits and wrap around. */
module Counters {
  import opened Bits
  import opened Focus

  /** The 64-bit value of an unbounded counter: its remainder, by repeated subtraction. */
  function Stored(n: nat): (r: nat)
    ensures r < WORD64
  {
    if n < WORD64 then n else Stored(n - WORD64)
  }

  /** `a + d` in 64 bits. */
  function Plus(a: nat, d: nat): nat
    requires a < WORD64 && d < WORD64
  {
    if a + d < WORD64 then a + d else a + d - WORD64
  }

  lemma {:induction false} StoredIsWrap(n: nat)
    ensures Stored(n) == Wrap(n)
  {
    if n >= WORD64 { StoredIsWrap(n - WORD64); }
  }

  lemma {:induction false} Added(n: nat, d: nat)
    requires d < WORD64
    ensures Plus(Stored(n), d) == Stored(n + d)
  {
    if n >= WORD64 { Added(n - WORD64, d); }
  }

  /** The stored value of a counter. */
  ghost predicate Counts(stored: nat, n: nat) {
    stored < WORD64 && forall k: nat :: Look(Topic.Counting, k) ==> stored == Stored(n)
  }

  lemma CountOn(stored: nat, n: nat, d: nat)
    requires Counts(stored, n) && d < WORD64
    ensures Counts(Plus(stored, d), n + d)
  {
    assert Look(Topic.Counting, 0);
    Added(n, d);
  }

  /** The sum of two stored counters is the stored sum. */
  lemma CountsAdd(a: nat, m: nat, b: nat, n: nat, c: nat)
    requires Counts(a, m) && Counts(b, n) && Counts(c, m + n)
    ensures c == (a + b) % WORD64
  {
    assert Look(Topic.Counting, 0);
    StoredIsWrap(m);
    StoredIsWrap(n);
    StoredIsWrap(m + n);
    SumOfWraps(m, n);
  }

  lemma SumOfWraps(m: nat, n: nat)
    ensures Wrap(m + n) == (Wrap(m) + Wrap(n)) % WORD64
  {
    var p, q := m / WORD64, n / WORD64;
    assert Wrap(m) + Wrap(n) == (m + n) - WORD64 * (p + q);
  }
}
