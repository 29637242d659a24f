/** Answers of the kernel, and the loops that push a vector of buffers through a
    `writev` which may be interrupted, fail or write only a part. */
module WriteLoops {

  type Bytes = string

  const EINTR: int := 4
  const EIO: int := 5
  const EBADF: int := 9
  const EEXIST: int := 17
  const EINVAL: int := 22
  const EOVERFLOW: int := 75

  /** One answer of the kernel: an error number, or success with the amount that a
      write may transfer. A finite script of answers is followed by full success, so
      every number of interruptions is covered but not an endless one. */
  datatype Answer = Fail(errno: nat) | Done(amount: nat)

  function First(script: seq<Answer>, most: nat): (a: Answer)
    ensures a.Done? ==> a.amount <= most
    ensures script == [] ==> a == Done(most)
  {
    if script == [] then Done(most)
    else if script[0].Done? && script[0].amount > most then Done(most)
    else script[0]
  }

  function Rest(script: seq<Answer>): seq<Answer> {
    if script == [] then [] else script[1..]
  }

  /** `-(errno ? errno : EIO)` */
  function Negative(errno: nat): (rc: int)
    ensures rc < 0
  {
    var e: int := errno; if e == 0 then -EIO else -e
  }

  // ---- Vectors of buffers -----------------------------------------------------------

  /** The buffers one after the other. */
  function Concat(v: seq<Bytes>): Bytes {
    if v == [] then [] else v[0] + Concat(v[1..])
  }

  lemma {:induction false} ConcatSplit(v: seq<Bytes>, k: nat)
    requires k <= |v|
    ensures Concat(v) == Concat(v[..k]) + Concat(v[k..])
  {
    if k == 0 {
      assert v[..0] == [] && v[0..] == v;
    } else {
      ConcatSplit(v[1..], k - 1);
      assert v[..k][1..] == v[1..][..k - 1] && v[1..][k - 1..] == v[k..];
      assert Concat(v[..k]) == v[0] + Concat(v[1..][..k - 1]);
    }
  }

  lemma ConcatFrom(v: seq<Bytes>, k: nat)
    requires k < |v|
    ensures Concat(v[k..]) == v[k] + Concat(v[k + 1..])
  {
    assert v[k..][1..] == v[k + 1..];
  }

  /** Skips what a partial write has taken: whole buffers are stepped over, empty ones
      too, and the buffer in which it ended is shortened in place. */
  method Advance(v: array<Bytes>, first: nat, amount: nat) returns (next: nat)
    requires first <= v.Length && amount <= |Concat(v[first..])|
    modifies v
    ensures first <= next <= v.Length
    ensures Concat(v[next..]) == old(Concat(v[first..]))[amount..]
    ensures amount == |old(Concat(v[first..]))| ==> next == v.Length
    ensures next < v.Length ==> Concat(v[next..]) != []
  {
    var left := amount;
    next := first;
    ghost var was := Concat(v[first..]);
    while next < v.Length && left >= |v[next]|
      invariant first <= next <= v.Length && 0 <= left <= amount
      invariant v[..] == old(v[..])
      invariant left <= |Concat(v[next..])| && Concat(v[next..])[left..] == was[amount..]
      invariant next == first ==> left == amount
    {
      ConcatFrom(v[..], next);
      assert v[..][next..] == v[next..] && v[..][next + 1..] == v[next + 1..];
      left := left - |v[next]|;
      next := next + 1;
    }
    if next < v.Length {
      ConcatFrom(v[..], next);
      assert v[..][next..] == v[next..] && v[..][next + 1..] == v[next + 1..];
      if left > 0 {
        ghost var tail := v[next + 1..];
        v[next] := v[next][left..];
        assert v[next + 1..] == tail;
        ConcatFrom(v[..], next);
        assert v[..][next..] == v[next..] && v[..][next + 1..] == tail;
      }
    }
  }

  /** `logger_stderr_writev_all`: `out` is what reached the descriptor. */
  method StderrWritevAll(v: array<Bytes>, answers: seq<Answer>) returns (rc: int, out: Bytes)
    modifies v
    ensures rc <= 0 && out <= Concat(old(v[..]))
    ensures Concat(old(v[..])) != [] ==> (rc == 0 <==> out == Concat(old(v[..])))
    ensures Concat(old(v[..])) == [] ==> (rc == 0 <==> v.Length == 0)
  {
    var script, first := answers, 0;
    var left := Concat(v[..]);
    rc, out := 0, [];
    ghost var whole := left;
    assert v[0..] == v[..];
    while first < v.Length
      invariant 0 <= first <= v.Length
      invariant left == Concat(v[first..]) && whole == out + left
      invariant out == [] ==> first == 0
      invariant first < v.Length && out != [] ==> left != []
      decreases |script|, |left|
    {
      var a := First(script, |left|);
      script := Rest(script);
      if a.Fail? {
        if a.errno == EINTR { continue; }
        rc := Negative(a.errno);
        return;
      }
      if a.amount == 0 {
        rc := -EIO;
        return;
      }
      Taken(out, left, a.amount);
      out := out + left[..a.amount];
      first := Advance(v, first, a.amount);
      left := left[a.amount..];
    }
    assert v[first..] == [];
  }

  lemma Taken(out: Bytes, left: Bytes, amount: nat)
    requires amount <= |left|
    ensures out + left == (out + left[..amount]) + left[amount..]
  {
  }
}
