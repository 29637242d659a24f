/** The registry of descriptors that must not survive a fork: a bitmap indexed by
    descriptor, with a count, in a mapping that exists only while it is needed. */
module ForkFd {
  import opened Options
  import opened Bits
  import BitSet

  const EDEADLK: int := 35
  const EBADF: int := 9
  const EINVAL: int := 22
  const ECHILD: int := 10
  const EUCLEAN: int := 117

  /** A C `int`, and one that is not negative. */
  type CInt = x: int | -0x8000_0000 <= x < 0x8000_0000
  type Fd = x: int | 0 <= x < 0x8000_0000

  const WIDTH: nat := 64
  const FIRST_WORDS: nat := 512  // 4096 bytes

  /** Whether a descriptor is registered. */
  predicate Owned(words: seq<nat>, fd: nat) {
    BitSet.Has(words, WIDTH, fd)
  }

  ghost function Fds(words: seq<nat>): set<nat> {
    BitSet.Below(words, WIDTH, WIDTH * |words|)
  }

  predicate WordsOk(words: seq<nat>) {
    forall k :: 0 <= k < |words| ==> words[k] < WORD64
  }

  lemma FdsExact(words: seq<nat>, fd: nat)
    ensures fd in Fds(words) <==> Owned(words, fd)
    ensures Owned(words, fd) <==> fd / WIDTH < |words| && Bit(words[fd / WIDTH], fd % WIDTH)
    ensures BitSet.Word(fd, WIDTH) == fd / WIDTH && BitSet.Place(fd, WIDTH) == fd % WIDTH
  {
    BitSet.Divided(fd, WIDTH);
  }

  function Zeros(n: nat): (z: seq<nat>)
    ensures |z| == n && forall k :: 0 <= k < n ==> z[k] == 0
  {
    seq(n, _ => 0)
  }

  /** A longer mapping registers nothing new. */
  lemma GrownSame(words: seq<nat>, n: nat)
    ensures Fds(words + Zeros(n)) == Fds(words)
  {
    forall fd: nat ensures fd in Fds(words + Zeros(n)) <==> fd in Fds(words) {
      FdsExact(words + Zeros(n), fd);
      FdsExact(words, fd);
      ZeroHasNoBits(fd % WIDTH);
    }
  }

  lemma RegisterInserts(words: seq<nat>, fd: nat)
    requires WordsOk(words) && fd / WIDTH < |words|
    ensures var words' := words[fd / WIDTH := SetBit(words[fd / WIDTH], fd % WIDTH)];
            WordsOk(words') && Fds(words') == Fds(words) + {fd}
  {
    FdsExact(words, fd);
    BitSet.BelowInserts(words, WIDTH, WIDTH * |words|, fd);
    SetBitFits(words[fd / WIDTH], fd % WIDTH, WIDTH);
  }

  lemma UnregisterRemoves(words: seq<nat>, fd: nat)
    requires WordsOk(words) && fd / WIDTH < |words|
    ensures var words' := words[fd / WIDTH := ClearBit(words[fd / WIDTH], fd % WIDTH)];
            WordsOk(words') && Fds(words') == Fds(words) - {fd}
  {
    FdsExact(words, fd);
    BitSet.BelowRemoves(words, WIDTH, WIDTH * |words|, fd);
    ClearBitWidth(words[fd / WIDTH], fd % WIDTH);
  }

  lemma WidthPower(width: nat)
    requires width == 64
    ensures Pow2(width) == WORD64
  {
    WordPower();
  }

  lemma SetBitFits(w: nat, i: nat, width: nat)
    requires width == 64 && w < WORD64 && i < width
    ensures SetBit(w, i) < WORD64
  {
    WidthPower(width);
    SetBitWidth(w, i, width);
  }

  /** The listing of all registered descriptors. */
  lemma ListingExact(words: seq<nat>, width: nat)
    requires WordsOk(words) && width == WIDTH
    ensures BitSet.Rising(BitSet.Listing(words, width))
    ensures forall fd: nat :: fd in BitSet.Listing(words, width) <==> fd in Fds(words)
  {
    WidthPower(width);
    BitSet.ListingIsExact(words, width, 0);
    forall fd: nat ensures fd in BitSet.Listing(words, width) <==> fd in Fds(words) {
      BitSet.ListingIsExact(words, width, fd);
      FdsExact(words, fd);
    }
  }

  /** The registry together with the state of the thread that uses it. Results of the
      kernel and of the locks are arguments. */
  class Registry {
    var owned: seq<nat>
    var count: nat
    var gateError: int
    var inGate: bool
    var lease: Option<nat>
    var forkDepth: nat
    var prepared: bool
    var prepareError: int
    var snapshot: seq<nat>
    var childValid: bool
    var childError: int

    /** The descriptors handed to `close`, in order. */
    ghost var closed: seq<nat>

    /** Bitmap and count agree. */
    ghost predicate Agrees()
      reads this
    {
      WordsOk(owned) && count == |Fds(owned)|
    }

    /** The mapping exists exactly while it holds something, unless a failure has closed
        the registry for good; a leased directory is registered and holds the gate; and
        between prepare and fork the snapshot is the registry. */
    ghost predicate Valid()
      reads this
    {
      && Agrees()
      && (gateError == 0 ==> (owned != [] <==> count > 0))
      && (lease.Some? ==> inGate && lease.value in Fds(owned))
      && (prepared ==> inGate && lease.None? && snapshot == owned)
    }

    /** The gate lets the caller in. */
    ghost predicate Admits(process: int, locked: int)
      reads this
    {
      process == 0 && locked == 0 && gateError == 0 && !inGate
    }

    constructor ()
      ensures Valid() && Fds(owned) == {} && !inGate && gateError == 0 && forkDepth == 0 && closed == []
    {
      owned, count, gateError, inGate, lease, closed := [], 0, 0, false, None, [];
      forkDepth, prepared, prepareError, snapshot, childValid, childError := 0, false, 0, [], false, 0;
    }

    /** `logger_fork_resource_enter` */
    method Enter(process: int, locked: int) returns (error: int)
      requires Valid()
      modifies this`gateError, this`inGate
      ensures Valid() && (error == 0 <==> old(Admits(process, locked)))
      ensures error == 0 ==> inGate && gateError == 0
      ensures error != 0 ==> inGate == old(inGate)
    {
      if process != 0 { return process; }
      if inGate { return EDEADLK; }
      if gateError != 0 { return gateError; }
      if locked != 0 {
        gateError := locked;
        return locked;
      }
      inGate := true;
      error := 0;
    }

    /** `logger_fork_resource_leave` */
    method Leave(primary: int, unlocked: int) returns (error: int)
      modifies this`gateError, this`inGate
      ensures !inGate && gateError == (if unlocked != 0 then unlocked else old(gateError))
      ensures error == if primary != 0 then primary else unlocked
    {
      inGate := false;
      if unlocked != 0 { gateError := unlocked; }
      error := if primary != 0 then primary else unlocked;
    }

    /** `grow_for` */
    method GrowFor(fd: Fd, mapped: int) returns (error: int)
      requires Agrees()
      modifies this`owned
      ensures Agrees() && Fds(owned) == old(Fds(owned))
      ensures error == 0 ==> fd / WIDTH < |owned|
      ensures error != 0 ==> owned == old(owned) && error == mapped
      ensures error == 0 <==> old(fd / WIDTH < |owned|) || mapped == 0
      ensures old(fd / WIDTH < |owned|) ==> owned == old(owned)
    {
      var required := (fd / WIDTH + 1) * 8;
      if required <= 8 * |owned| { return 0; }
      var bytes := if owned != [] then 8 * |owned| else 8 * FIRST_WORDS;
      while bytes < required
        invariant bytes % 8 == 0 && bytes >= 8 * |owned| && bytes > 0
        decreases required - bytes
      {
        if bytes > SIZE_MAX / 2 { assert false; }  // out of reach for an int
        bytes := 2 * bytes;
      }
      if mapped != 0 { return mapped; }
      GrownSame(owned, bytes / 8 - |owned|);
      owned := owned + Zeros(bytes / 8 - |owned|);
      error := 0;
    }

    /** `is_owned` */
    method IsOwned(fd: int) returns (yes: bool)
      ensures yes <==> fd >= 0 && fd in Fds(owned)
    {
      if fd < 0 { return false; }
      FdsExact(owned, fd);
      yes := fd / WIDTH < |owned| && Bit(owned[fd / WIDTH], fd % WIDTH);
    }

    /** The descriptor is new, and the mapping holds it or can be made to. */
    ghost predicate Registers(fd: int, mapped: int)
      reads this
    {
      fd >= 0 && fd !in Fds(owned) && (fd / WIDTH < |owned| || mapped == 0)
    }

    /** `register_fd` */
    method RegisterFd(fd: Fd, mapped: int) returns (error: int)
      requires Agrees()
      modifies this`owned, this`count, this`gateError
      ensures Agrees() && (error == 0 <==> old(Registers(fd, mapped)))
      ensures Fds(owned) == if error == 0 then old(Fds(owned)) + {fd} else old(Fds(owned))
      ensures error != 0 ==> owned == old(owned) && count == old(count)
      ensures gateError == if old(fd in Fds(owned)) then EUCLEAN else old(gateError)
    {
      FdsExact(owned, fd);
      error := GrowFor(fd, mapped);
      if error != 0 { return; }
      var taken := IsOwned(fd);
      if taken {
        gateError := EUCLEAN;
        return EUCLEAN;
      }
      RegisterInserts(owned, fd);
      owned := owned[fd / WIDTH := SetBit(owned[fd / WIDTH], fd % WIDTH)];
      count := count + 1;
    }

    /** `release_empty` */
    method ReleaseEmpty(unmapped: int) returns (error: int)
      requires Agrees()
      modifies this`owned, this`gateError
      ensures Agrees() && Fds(owned) == old(Fds(owned))
      ensures gateError == 0 ==> old(gateError) == 0 && error == 0 && (owned != [] ==> count > 0)
      ensures unmapped == 0 ==> error == 0 && gateError == old(gateError)
    {
      if count != 0 || owned == [] { return 0; }
      if unmapped != 0 {
        gateError := unmapped;
        return unmapped;
      }
      assert Fds(owned) == {};
      owned := [];
      error := 0;
    }

    /** `acquired`, after `open`, `openat` or `socket` returned `fd`. The descriptor is
        handed out exactly when the gate lets the caller in, the registration succeeds and
        the gate can be left. When only the last fails, the descriptor stays open and
        registered but is not handed out; when the registration fails, it is closed. */
    method Acquire(process: int, locked: int, fd: CInt, errno: int, mapped: int, unlocked: int) returns (r: int)
      requires Valid() && (fd < 0 ==> errno != 0)
      modifies this`owned, this`count, this`gateError, this`inGate, this`closed
      ensures Valid()
      ensures r == if old(Admits(process, locked) && Registers(fd, mapped)) && unlocked == 0 then fd else -1
      ensures Fds(owned) == if old(Admits(process, locked) && Registers(fd, mapped)) then old(Fds(owned)) + {fd} else old(Fds(owned))
      ensures closed == if old(Admits(process, locked) && !Registers(fd, mapped)) && fd >= 0 then old(closed) + [fd] else old(closed)
      ensures r < 0 && Fds(owned) != old(Fds(owned)) <==> old(Admits(process, locked) && Registers(fd, mapped)) && unlocked != 0
      ensures Fds(owned) == old(Fds(owned)) ==> owned == old(owned) && count == old(count)
      ensures old(Admits(process, locked)) && unlocked != 0 ==> gateError == unlocked
    {
      var error := Enter(process, locked);
      if error != 0 { return -1; }
      error := if fd < 0 then errno else 0;
      if fd >= 0 {
        error := RegisterFd(fd, mapped);
        if error != 0 { closed := closed + [fd]; }
      }
      error := Leave(error, unlocked);
      r := if error != 0 then -1 else fd;
    }

    /** Takes a descriptor out of the registry, gives it to `close` or `closedir`, and
        gives back the mapping when it was the last. */
    method Retire(fd: nat, closing: int, unmapped: int) returns (error: int)
      requires Agrees() && fd in Fds(owned) && (gateError == 0 ==> (owned != [] <==> count > 0))
      modifies this`owned, this`count, this`gateError, this`closed
      ensures Agrees() && Fds(owned) == old(Fds(owned)) - {fd} && closed == old(closed) + [fd]
      ensures gateError == 0 ==> old(gateError) == 0 && (owned != [] <==> count > 0)
      ensures old(gateError) == 0 && closing == 0 && unmapped == 0 ==> error == 0 && gateError == 0
    {
      FdsExact(owned, fd);
      UnregisterRemoves(owned, fd);
      owned := owned[fd / WIDTH := ClearBit(owned[fd / WIDTH], fd % WIDTH)];
      count := count - 1;
      closed := closed + [fd];
      error := closing;
      var released := ReleaseEmpty(unmapped);
      if error == 0 { error := released; }
    }

    /** `logger_fork_close`: registration ends before the descriptor is closed. */
    method Close(fd: int, process: int, locked: int, closing: int, unmapped: int, unlocked: int) returns (error: int)
      requires Valid()
      modifies this`owned, this`count, this`gateError, this`inGate, this`closed
      ensures Valid()
      ensures old(Admits(process, locked)) && fd >= 0 && fd in old(Fds(owned)) ==>
                closed == old(closed) + [fd] && Fds(owned) == old(Fds(owned)) - {fd}
      ensures !(old(Admits(process, locked)) && fd >= 0 && fd in old(Fds(owned))) ==>
                closed == old(closed) && Fds(owned) == old(Fds(owned)) && error != 0
    {
      error := Enter(process, locked);
      if error != 0 { return; }
      var yes := IsOwned(fd);
      if yes { error := Retire(fd, closing, unmapped); } else { error := EBADF; }
      error := Leave(error, unlocked);
    }

    /** `logger_fork_fdopendir`: on success the gate stays held until `Closedir`. */
    method Fdopendir(fd: int, process: int, locked: int, opening: int, unlocked: int) returns (error: int)
      requires Valid()
      modifies this`gateError, this`inGate, this`lease
      ensures Valid()
      ensures error == 0 <==> old(Admits(process, locked)) && fd >= 0 && fd in Fds(owned) && opening == 0
      ensures error == 0 ==> inGate && lease == Some(fd)
      ensures inGate && !old(inGate) ==> lease == Some(fd)
    {
      error := Enter(process, locked);
      if error != 0 { return; }
      var yes := IsOwned(fd);
      error := if yes then opening else EBADF;
      if error == 0 {
        lease := Some(fd);
        return;
      }
      error := Leave(error, unlocked);
    }

    /** `logger_fork_closedir`; a leased directory is always still registered. */
    method Closedir(dir: nat, closing: int, unmapped: int, unlocked: int) returns (error: int)
      requires Valid()
      modifies this`owned, this`count, this`gateError, this`inGate, this`lease, this`closed
      ensures Valid()
      ensures old(lease) != Some(dir) ==> error == EINVAL && Fds(owned) == old(Fds(owned)) && closed == old(closed)
      ensures old(lease) == Some(dir) ==>
                && dir in old(Fds(owned)) && Fds(owned) == old(Fds(owned)) - {dir} && closed == old(closed) + [dir]
                && lease.None? && !inGate
    {
      if lease != Some(dir) || !inGate { return EINVAL; }
      var yes := IsOwned(dir);
      if !yes { assert false; }
      error := Retire(dir, closing, unmapped);
      lease := None;
      error := Leave(error, unlocked);
    }

    // ---- Fork ------------------------------------------------------------------------

    /** `logger_fork_fd_prepare`; `refused` stands for a process that is itself a child
        or not ready, `busy` for a thread inside the library. */
    method Prepare(refused: bool, busy: bool, libc: int, locked: int)
      requires Valid()
      modifies this`forkDepth, this`prepared, this`prepareError, this`snapshot, this`inGate
      ensures Valid() && forkDepth == old(forkDepth) + 1
      ensures old(forkDepth) == 0 ==>
                (prepared && prepareError == 0 <==>
                 !refused && !old(inGate) && !busy && gateError == 0 && libc == 0 && locked == 0)
      ensures old(forkDepth) > 0 ==> prepared == old(prepared) && prepareError == old(prepareError)
    {
      forkDepth := forkDepth + 1;
      if forkDepth > 1 { return; }
      prepared, prepareError, snapshot := false, 0, [];
      if refused {
        prepareError := ECHILD;
      } else if inGate || busy {
        prepareError := EDEADLK;
      } else {
        prepareError := gateError;
        if prepareError == 0 { prepareError := libc; }
        if prepareError == 0 { prepareError := locked; }
        if prepareError == 0 {
          prepared, inGate, snapshot := true, true, owned;
        }
      }
    }

    /** `logger_fork_fd_parent` */
    method Parent(unlocked: int)
      requires Valid()
      modifies this`forkDepth, this`prepared, this`inGate, this`gateError
      ensures Valid()
      ensures old(forkDepth) > 1 ==> forkDepth == old(forkDepth) - 1 && prepared == old(prepared)
      ensures old(forkDepth) <= 1 ==> forkDepth == 0 && !prepared && (old(prepared) ==> !inGate)
    {
      if forkDepth > 1 {
        forkDepth := forkDepth - 1;
        return;
      }
      if prepared {
        if unlocked != 0 { gateError := unlocked; }
        inGate := false;
      }
      prepared, forkDepth := false, 0;
    }

    /** `logger_fork_fd_child`: in the child, every descriptor of the snapshot is closed
        once, in rising order, and nothing else is closed. `closing` gives the result of
        each close. */
    method Child(closing: nat -> int) returns (shut: seq<nat>)
      requires Valid()
      modifies this`forkDepth, this`prepared, this`inGate, this`lease, this`snapshot, this`childValid, this`childError
      ensures childValid <==> old(prepared && prepareError == 0 && forkDepth == 1)
      ensures childValid ==> BitSet.Rising(shut) && forall fd: nat :: fd in shut <==> fd in Fds(old(owned))
      ensures childValid ==> childError == FirstError(shut, closing) && Fds(snapshot) == {}
      ensures !childValid ==> shut == [] && childError != 0
      ensures !inGate && !prepared && lease.None? && forkDepth == 0
    {
      childValid := prepared && prepareError == 0 && forkDepth == 1;
      childError := if childValid then 0 else if prepareError != 0 then prepareError else ECHILD;
      shut := [];
      if childValid {
        ghost var words := snapshot;
        ListingExact(words, WIDTH);
        shut := CloseAll(closing);
        ZerosAreEmpty(snapshot);
      }
      prepared, forkDepth, inGate, lease := false, 0, false, None;
    }

    method CloseAll(closing: nat -> int) returns (shut: seq<nat>)
      requires WordsOk(snapshot) && childError == 0
      modifies this`snapshot, this`childError
      ensures shut == BitSet.Listing(old(snapshot), WIDTH) && childError == FirstError(shut, closing)
      ensures |snapshot| == |old(snapshot)| && forall k :: 0 <= k < |snapshot| ==> snapshot[k] == 0
    {
      shut := [];
      var word := 0;
      ghost var words := snapshot;
      while word < |snapshot|
        invariant 0 <= word <= |snapshot| == |words|
        invariant forall k :: 0 <= k < word ==> snapshot[k] == 0
        invariant forall k :: word <= k < |words| ==> snapshot[k] == words[k]
        invariant shut == BitSet.Listing(words[..word], WIDTH) && childError == FirstError(shut, closing)
      {
        var bits := snapshot[word];
        snapshot := snapshot[word := 0];
        assert words[..word + 1] == words[..word] + [words[word]];
        BitSet.ListingAppends(words[..word], words[word], WIDTH);
        shut := CloseWord(shut, bits, word * WIDTH, closing);
        word := word + 1;
      }
      assert words[..word] == words;
    }

    /** The inner loop: takes the lowest bit until none is left. */
    method CloseWord(before: seq<nat>, w: nat, base: nat, closing: nat -> int) returns (shut: seq<nat>)
      requires childError == FirstError(before, closing)
      modifies this`childError
      ensures shut == before + BitSet.Listed(w, base) && childError == FirstError(shut, closing)
    {
      shut := before;
      var bits := w;
      while bits != 0
        invariant before + BitSet.Listed(w, base) == shut + BitSet.Listed(bits, base)
        invariant childError == FirstError(shut, closing)
        decreases bits
      {
        var bit := LowestSet(bits);
        ClearLowest(bits);
        bits := And(bits, bits - 1);
        var fd := base + bit;
        OneMoreError(shut, fd, closing);
        if closing(fd) != 0 && childError == 0 { childError := closing(fd); }
        shut := shut + [fd];
      }
    }
  }

  /** A descriptor that is open and registered although nobody got it. */
  method LeakedDescriptor() returns (g: Registry, r: int)
    ensures r == -1 && Fds(g.owned) == {3} && g.closed == [] && g.gateError != 0
  {
    g := new Registry();
    r := g.Acquire(0, 0, 3, 0, 0, EDEADLK);
  }

  /** The first failure among some closes, or zero. */
  function FirstError(fds: seq<nat>, closing: nat -> int): int {
    if fds == [] then 0
    else
      var front := FirstError(fds[..|fds| - 1], closing);
      if front != 0 then front else closing(fds[|fds| - 1])
  }

  lemma OneMoreError(fds: seq<nat>, fd: nat, closing: nat -> int)
    ensures FirstError(fds + [fd], closing) == if FirstError(fds, closing) != 0 then FirstError(fds, closing) else closing(fd)
  {
    assert (fds + [fd])[..|fds|] == fds;
  }

  lemma ZerosAreEmpty(words: seq<nat>)
    requires forall k :: 0 <= k < |words| ==> words[k] == 0
    ensures Fds(words) == {}
  {
    forall fd: nat ensures fd !in Fds(words) {
      FdsExact(words, fd);
      ZeroHasNoBits(fd % WIDTH);
    }
  }
}
