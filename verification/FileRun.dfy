/** Runs of operations on the file backend: what they write, and which promise is
    whose. */
module FileRun {
  import opened Options
  import opened Disk
  import opened FileHistory
  import opened Focus
  import W = WriteLoops
  import N = ArchiveName

  datatype Op =
    | WriteOp(data: Bytes, t: Option<N.Time>, sync: bool)
    | WritevOp(buffers: seq<Bytes>, n: nat, t: Option<N.Time>, sync: bool)
    | SyncOp
    | ReopenOp

  datatype Outcome = Outcome(rc: int, written: nat)

  function Data(op: Op): Bytes {
    if op.WriteOp? then op.data else if op.WritevOp? then W.Concat(op.buffers) else []
  }

  predicate AsksSync(op: Op) {
    (op.WriteOp? || op.WritevOp?) && op.sync
  }

  /** The bytes that some operations wrote. */
  ghost function Written(ops: seq<Op>, rs: seq<Outcome>): Bytes
    requires |ops| == |rs|
  {
    if ops == [] then []
    else
      var k := |ops| - 1;
      Written(ops[..k], rs[..k]) + (if rs[k].written <= |Data(ops[k])| then Data(ops[k])[..rs[k].written] else [])
  }

  ghost predicate Ends(bytes: Bytes, data: Bytes) {
    |data| <= |bytes| && bytes[|bytes| - |data|..] == data
  }

  /** The promise of one operation: its index among all promises, and its file in the
      order of the archives and then the active file. */
  datatype Own = Own(ack: nat, file: nat)

  predicate Succeeded(op: Op, r: Outcome) {
    AsksSync(op) && r.rc == 0
  }

  /** Operation `i` of a run that began with `had` promises and `from` bytes. */
  ghost predicate OwnPromise(v: View, had: nat, from: nat, ops: seq<Op>, rs: seq<Outcome>, kept: seq<Own>, i: nat)
    requires |ops| == |rs| == |kept| && i < |ops|
  {
    && had <= kept[i].ack < |v.acks| && v.acks[kept[i].ack].data == Data(ops[i])
    && LogPlace(v, kept[i].file, v.acks[kept[i].ack], from + |Written(ops[..i], rs[..i])|)
  }

  ghost predicate OwnPromises(v: View, had: nat, from: nat, ops: seq<Op>, rs: seq<Outcome>, kept: seq<Own>) {
    && |ops| == |rs| == |kept|
    && (forall i :: 0 <= i < |ops| && Succeeded(ops[i], rs[i]) ==> OwnPromise(v, had, from, ops, rs, kept, i))
    && Rising(ops, rs, kept)
  }

  /** Later operations have later promises. */
  ghost predicate Rising(ops: seq<Op>, rs: seq<Outcome>, kept: seq<Own>) {
    && |ops| == |rs| == |kept|
    && forall i, j :: 0 <= i < j < |ops| && Succeeded(ops[i], rs[i]) && Succeeded(ops[j], rs[j]) ==> kept[i].ack < kept[j].ack
  }

  lemma OwnStays(n: Naming, v: View, v': View, had: nat, from: nat, ops: seq<Op>, rs: seq<Outcome>, kept: seq<Own>,
                 op: Op, r: Outcome, own: Own, i: nat)
    requires |ops| == |rs| == |kept| && i < |ops| && OwnPromise(v, had, from, ops, rs, kept, i) && Extends(n, v, v')
    ensures OwnPromise(v', had, from, ops + [op], rs + [r], kept + [own], i)
  {
    assert (ops + [op])[..i] == ops[..i] && (rs + [r])[..i] == rs[..i];
    PlaceStays(n, v, v', kept[i].file, v.acks[kept[i].ack], from + |Written(ops[..i], rs[..i])|);
  }

  lemma OwnNow(n: Naming, v': View, had: nat, from: nat, ops: seq<Op>, rs: seq<Outcome>, kept: seq<Own>, op: Op, r: Outcome)
    requires |ops| == |rs| == |kept| && Ok(n, v') && !v'.detached && had < |v'.acks|
    requires var bytes := v'.disk.bytes[v'.active];
             Ends(bytes, Data(op)) && v'.acks[|v'.acks| - 1] == Ack(v'.active, |bytes| - |Data(op)|, Data(op))
    requires |v'.log| == from + |Written(ops, rs)| + |Data(op)|
    ensures OwnPromise(v', had, from, ops + [op], rs + [r], kept + [Own(|v'.acks| - 1, |v'.archives|)], |ops|)
  {
    assert (ops + [op])[..|ops|] == ops && (rs + [r])[..|rs|] == rs;
    PlacedNow(n, v', Data(op));
  }

  /** What the last operation of a run did, if it returned success after a sync. */
  ghost predicate JustPromised(v: View, v': View, op: Op, r: Outcome) {
    Succeeded(op, r) ==>
      && !v'.detached && |v'.acks| > |v.acks| && r.written == |Data(op)| && v'.active in v'.disk.bytes
      && var bytes := v'.disk.bytes[v'.active];
         Ends(bytes, Data(op)) && v'.acks[|v'.acks| - 1] == Ack(v'.active, |bytes| - |Data(op)|, Data(op))
  }

  function Latest(v: View): Own {
    Own(if v.acks == [] then 0 else |v.acks| - 1, |v.archives|)
  }

  lemma OwnEach(n: Naming, v: View, v': View, had: nat, from: nat, ops: seq<Op>, rs: seq<Outcome>, kept: seq<Own>,
                op: Op, r: Outcome, i: nat)
    requires OwnPromises(v, had, from, ops, rs, kept) && had <= |v.acks| && Extends(n, v, v') && Ok(n, v')
    requires JustPromised(v, v', op, r) && (Succeeded(op, r) ==> |v'.log| == from + |Written(ops, rs)| + |Data(op)|)
    requires i <= |ops| && Succeeded((ops + [op])[i], (rs + [r])[i])
    ensures OwnPromise(v', had, from, ops + [op], rs + [r], kept + [Latest(v')], i)
  {
    if i < |ops| {
      assert Succeeded(ops[i], rs[i]);
      OwnStays(n, v, v', had, from, ops, rs, kept, op, r, Latest(v'), i);
    } else {
      OwnNow(n, v', had, from, ops, rs, kept, op, r);
    }
  }

  lemma OwnPromisesGrow(n: Naming, v: View, v': View, had: nat, from: nat, ops: seq<Op>, rs: seq<Outcome>, kept: seq<Own>,
                        op: Op, r: Outcome)
    requires OwnPromises(v, had, from, ops, rs, kept) && had <= |v.acks| && Extends(n, v, v') && Ok(n, v')
    requires JustPromised(v, v', op, r) && (Succeeded(op, r) ==> |v'.log| == from + |Written(ops, rs)| + |Data(op)|)
    ensures OwnPromises(v', had, from, ops + [op], rs + [r], kept + [Latest(v')])
  {
    forall i | 0 <= i <= |ops| && Succeeded((ops + [op])[i], (rs + [r])[i])
      ensures OwnPromise(v', had, from, ops + [op], rs + [r], kept + [Latest(v')], i)
    {
      OwnEach(n, v, v', had, from, ops, rs, kept, op, r, i);
    }
    RiseGrows(v, v', had, from, ops, rs, kept, op, r);
  }

  lemma RiseGrows(v: View, v': View, had: nat, from: nat, ops: seq<Op>, rs: seq<Outcome>, kept: seq<Own>, op: Op, r: Outcome)
    requires OwnPromises(v, had, from, ops, rs, kept) && (Succeeded(op, r) ==> |v'.acks| > |v.acks|)
    ensures Rising(ops + [op], rs + [r], kept + [Latest(v')])
  {
    var ops', rs', kept' := ops + [op], rs + [r], kept + [Latest(v')];
    forall i, j | 0 <= i < j < |ops'| && Succeeded(ops'[i], rs'[i]) && Succeeded(ops'[j], rs'[j])
      ensures kept'[i].ack < kept'[j].ack
    {
      assert Succeeded(ops[i], rs[i]) && OwnPromise(v, had, from, ops, rs, kept, i);
    }
  }

  lemma WrittenGrows(ops: seq<Op>, rs: seq<Outcome>, op: Op, r: Outcome)
    requires |ops| == |rs| && r.written <= |Data(op)|
    ensures Written(ops + [op], rs + [r]) == Written(ops, rs) + Data(op)[..r.written]
  {
    assert (ops + [op])[..|ops|] == ops && (rs + [r])[..|rs|] == rs;
  }

  lemma OneMoreOp(n: Naming, v: View, v': View, had: nat, base: Bytes, ops: seq<Op>, rs: seq<Outcome>, kept: seq<Own>,
                  op: Op, r: Outcome)
    requires SoFar(v, had, base, ops, rs, kept) && |ops| == |rs| == |kept| && Extends(n, v, v') && Ok(n, v')
    requires r.written <= |Data(op)| && v'.log == v.log + Data(op)[..r.written] && JustPromised(v, v', op, r)
    ensures SoFar(v', had, base, ops + [op], rs + [r], kept + [Latest(v')])
  {
    RunTold(v, had, base, ops, rs, kept);
    WrittenGrows(ops, rs, op, r);
    OwnPromisesGrow(n, v, v', had, |base|, ops, rs, kept, op, r);
    assert v'.log == base + Written(ops + [op], rs + [r]);
  }

  /** A run so far, that began with `had` promises and the log `base`. */
  ghost predicate SoFar(v: View, had: nat, base: Bytes, ops: seq<Op>, rs: seq<Outcome>, kept: seq<Own>) {
    forall k: nat :: Look(Topic.Promising, k) ==>
      OwnPromises(v, had, |base|, ops, rs, kept) && had <= |v.acks| && v.log == base + Written(ops, rs)
  }

  lemma RunTold(v: View, had: nat, base: Bytes, ops: seq<Op>, rs: seq<Outcome>, kept: seq<Own>)
    requires SoFar(v, had, base, ops, rs, kept)
    ensures OwnPromises(v, had, |base|, ops, rs, kept) && had <= |v.acks| && v.log == base + Written(ops, rs)
  {
    assert Look(Topic.Promising, 0);
  }

  lemma RunBegins(v: View)
    ensures SoFar(v, |v.acks|, v.log, [], [], [])
  {
    assert v.log + [] == v.log;
  }

  ghost predicate FoundAt(im: Image, ino: Ino, at: nat, data: Bytes) {
    && ino in im.bytes && Named(im.dir, ino) && at + |data| <= |im.bytes[ino]|
    && im.bytes[ino][at..at + |data|] == data
  }

  lemma AckIsFound(n: Naming, trace: seq<View>, i: nat, j: nat, k: nat, im: Image)
    requires History(n, trace) && i <= j < |trace| && CrashImage(trace[j].disk, im) && k < |trace[i].acks|
    ensures FoundAt(im, trace[i].acks[k].ino, trace[i].acks[k].offset, trace[i].acks[k].data)
  {
    PromisesSurvive(n, trace, i, j, k, im);
  }

  /** The bytes of a write that returned success after a sync are found after a crash at
      any later moment: at their own place, in one piece, in a file that has a name. */
  lemma PromisedIsFound(n: Naming, trace: seq<View>, i: nat, j: nat, had: nat, from: nat,
                        ops: seq<Op>, rs: seq<Outcome>, kept: seq<Own>, k: nat, im: Image)
    requires History(n, trace) && i <= j < |trace| && CrashImage(trace[j].disk, im)
    requires |ops| == |rs| == |kept| && k < |ops| && OwnPromise(trace[i], had, from, ops, rs, kept, k)
    ensures kept[k].ack < |trace[i].acks|
    ensures var a := trace[i].acks[kept[k].ack];
            FoundAt(im, a.ino, a.offset, Data(ops[k])) && LogPlace(trace[j], kept[k].file, a, from + |Written(ops[..k], rs[..k])|)
  {
    var a := trace[i].acks[kept[k].ack];
    AckIsFound(n, trace, i, j, kept[k].ack, im);
    PlaceLater(n, trace, i, j, kept[k].file, a, from + |Written(ops[..k], rs[..k])|);
  }
}
