/** One directory and its inodes, with what a crash may lose: directory operations
    that were not synced survive as any prefix, and of an inode only its synced
    bytes are certain. Files only grow. */
module Disk {

  type Ino = nat
  type Name = string
  type Bytes = string

  datatype DirOp =
    | Link(name: Name, ino: Ino)
    | Rename(from: Name, to: Name)

  /** `entries` is the directory as of its last sync, `pending` the operations
      since, and `dir` the directory that they make. `synced` is the durable length of
      each inode. */
  datatype Disk = Disk(
    entries: map<Name, Ino>, pending: seq<DirOp>, dir: map<Name, Ino>,
    bytes: map<Ino, Bytes>, synced: map<Ino, nat>, next: Ino)

  function Do(dir: map<Name, Ino>, op: DirOp): map<Name, Ino> {
    match op
    case Link(name, ino) => dir[name := ino]
    case Rename(from, to) => if from in dir then (dir - {from})[to := dir[from]] else dir
  }

  /** The directory after some operations. */
  function Replay(dir: map<Name, Ino>, ops: seq<DirOp>): map<Name, Ino> {
    if ops == [] then dir else Do(Replay(dir, ops[..|ops| - 1]), ops[|ops| - 1])
  }

  function Current(d: Disk): map<Name, Ino> {
    d.dir
  }

  /** The operation neither replaces an entry nor names a missing one. */
  predicate Allowed(dir: map<Name, Ino>, op: DirOp) {
    match op
    case Link(name, _) => name !in dir
    case Rename(from, to) => from in dir && to !in dir
  }

  ghost predicate AllAllowed(dir: map<Name, Ino>, ops: seq<DirOp>) {
    forall k :: 0 <= k < |ops| ==> Allowed(Replay(dir, ops[..k]), ops[k])
  }

  ghost predicate Named(dir: map<Name, Ino>, ino: Ino) {
    exists n :: n in dir && dir[n] == ino
  }

  ghost predicate DiskOk(d: Disk) {
    && AllAllowed(d.entries, d.pending) && d.dir == Replay(d.entries, d.pending)
    && d.bytes.Keys == d.synced.Keys
    && (forall i :: i in d.bytes ==> i < d.next && d.synced[i] <= |d.bytes[i]|)
    && (forall n :: n in Current(d) ==> Current(d)[n] in d.bytes)
  }

  // ---- The operations ------------------------------------------------------------

  function Create(d: Disk, name: Name): Disk {
    d.(pending := d.pending + [Link(name, d.next)], dir := Do(d.dir, Link(name, d.next)), bytes := d.bytes[d.next := []],
       synced := d.synced[d.next := 0], next := d.next + 1)
  }

  function Move(d: Disk, from: Name, to: Name): Disk {
    d.(pending := d.pending + [Rename(from, to)], dir := Do(d.dir, Rename(from, to)))
  }

  function Append(d: Disk, ino: Ino, data: Bytes): Disk
    requires ino in d.bytes
  {
    d.(bytes := d.bytes[ino := d.bytes[ino] + data])
  }

  function SyncInode(d: Disk, ino: Ino): Disk
    requires ino in d.bytes
  {
    d.(synced := d.synced[ino := |d.bytes[ino]|])
  }

  function SyncEntries(d: Disk): Disk {
    d.(entries := d.dir, pending := [])
  }

  lemma CurrentAfter(d: Disk, op: DirOp)
    requires d.dir == Replay(d.entries, d.pending)
    ensures Replay(d.entries, d.pending + [op]) == Do(d.dir, op)
  {
    assert (d.pending + [op])[..|d.pending|] == d.pending;
  }

  lemma AllowedAfter(d: Disk, op: DirOp)
    requires AllAllowed(d.entries, d.pending) && d.dir == Replay(d.entries, d.pending) && Allowed(d.dir, op)
    ensures AllAllowed(d.entries, d.pending + [op])
  {
    var ops := d.pending + [op];
    forall k | 0 <= k < |ops| ensures Allowed(Replay(d.entries, ops[..k]), ops[k]) {
      assert ops[..k] == d.pending[..k];
      if k == |d.pending| { assert d.pending[..k] == d.pending; }
    }
  }

  lemma CreateOk(d: Disk, name: Name)
    requires DiskOk(d) && name !in Current(d)
    ensures DiskOk(Create(d, name)) && Current(Create(d, name)) == Current(d)[name := d.next]
  {
    CurrentAfter(d, Link(name, d.next));
    AllowedAfter(d, Link(name, d.next));
  }

  lemma MoveOk(d: Disk, from: Name, to: Name)
    requires DiskOk(d) && from in Current(d) && to !in Current(d)
    ensures DiskOk(Move(d, from, to)) && Current(Move(d, from, to)) == (Current(d) - {from})[to := Current(d)[from]]
  {
    CurrentAfter(d, Rename(from, to));
    AllowedAfter(d, Rename(from, to));
  }

  lemma AppendOk(d: Disk, ino: Ino, data: Bytes)
    requires DiskOk(d) && ino in d.bytes
    ensures DiskOk(Append(d, ino, data)) && Current(Append(d, ino, data)) == Current(d)
  {
    assert Current(Append(d, ino, data)) == Current(d);
  }

  lemma SyncInodeOk(d: Disk, ino: Ino)
    requires DiskOk(d) && ino in d.bytes
    ensures DiskOk(SyncInode(d, ino)) && Current(SyncInode(d, ino)) == Current(d)
  {
    assert Current(SyncInode(d, ino)) == Current(d);
  }

  lemma SyncEntriesOk(d: Disk)
    requires DiskOk(d)
    ensures DiskOk(SyncEntries(d)) && Current(SyncEntries(d)) == Current(d)
  {
    assert forall n :: n in d.dir ==> n in Current(d) && Current(d)[n] == d.dir[n];
  }

  // ---- Crashes ---------------------------------------------------------------------

  lemma NamedAfter(dir: map<Name, Ino>, op: DirOp, ino: Ino)
    requires Named(dir, ino) && Allowed(dir, op)
    ensures Named(Do(dir, op), ino)
  {
    var n :| n in dir && dir[n] == ino;
    var m := if op.Rename? && op.from == n then op.to else n;
    assert m in Do(dir, op) && Do(dir, op)[m] == ino;
  }

  /** An inode with a durable name has a name after any prefix of the pending
      operations. */
  lemma {:induction false} NamedInEveryPrefix(dir: map<Name, Ino>, ops: seq<DirOp>, k: nat, ino: Ino)
    requires AllAllowed(dir, ops) && Named(dir, ino) && k <= |ops|
    ensures Named(Replay(dir, ops[..k]), ino)
  {
    if k > 0 {
      NamedInEveryPrefix(dir, ops, k - 1, ino);
      assert ops[..k][..k - 1] == ops[..k - 1];
      NamedAfter(Replay(dir, ops[..k - 1]), ops[k - 1], ino);
    }
  }

  /** What a crash can leave behind. */
  datatype Image = Image(dir: map<Name, Ino>, bytes: map<Ino, Bytes>)

  ghost predicate CrashImage(d: Disk, im: Image) {
    && (exists k :: 0 <= k <= |d.pending| && im.dir == Replay(d.entries, d.pending[..k]))
    && im.bytes.Keys == d.bytes.Keys
    && forall i :: i in d.bytes && i in d.synced && d.synced[i] <= |d.bytes[i]| ==> d.bytes[i][..d.synced[i]] <= im.bytes[i]
  }

  /** Some bytes that a caller was told are durable. */
  datatype Ack = Ack(ino: Ino, offset: nat, data: Bytes)

  /** The bytes are synced, at their place, in an inode with a durable name. */
  ghost predicate Kept(d: Disk, a: Ack) {
    && a.ino in d.bytes && a.ino in d.synced && Named(d.entries, a.ino)
    && a.offset + |a.data| <= d.synced[a.ino] <= |d.bytes[a.ino]|
    && d.bytes[a.ino][a.offset..a.offset + |a.data|] == a.data
  }

  /** Bytes that are kept survive every crash, whole, in place and under a name. */
  lemma KeptSurvives(d: Disk, a: Ack, im: Image)
    requires DiskOk(d) && Kept(d, a) && CrashImage(d, im)
    ensures a.ino in im.bytes && Named(im.dir, a.ino)
    ensures a.offset + |a.data| <= |im.bytes[a.ino]|
    ensures im.bytes[a.ino][a.offset..a.offset + |a.data|] == a.data
  {
    var k :| 0 <= k <= |d.pending| && im.dir == Replay(d.entries, d.pending[..k]);
    NamedInEveryPrefix(d.entries, d.pending, k, a.ino);
    var n := d.synced[a.ino];
    assert d.bytes[a.ino][..n] <= im.bytes[a.ino];
    assert im.bytes[a.ino][a.offset..a.offset + |a.data|] == d.bytes[a.ino][..n][a.offset..a.offset + |a.data|];
  }

  lemma CreateKeeps(d: Disk, name: Name, a: Ack)
    requires DiskOk(d) && Kept(d, a)
    ensures Kept(Create(d, name), a)
  {
  }

  lemma MoveKeeps(d: Disk, from: Name, to: Name, a: Ack)
    requires Kept(d, a)
    ensures Kept(Move(d, from, to), a)
  {
  }

  lemma AppendKeeps(d: Disk, ino: Ino, data: Bytes, a: Ack)
    requires ino in d.bytes && Kept(d, a)
    ensures Kept(Append(d, ino, data), a)
  {
    var e := a.offset + |a.data|;
    if a.ino == ino { assert (d.bytes[ino] + data)[a.offset..e] == d.bytes[ino][a.offset..e]; }
  }

  lemma SyncInodeKeeps(d: Disk, ino: Ino, a: Ack)
    requires DiskOk(d) && ino in d.bytes && Kept(d, a)
    ensures Kept(SyncInode(d, ino), a)
  {
  }

  lemma SyncEntriesKeeps(d: Disk, a: Ack)
    requires DiskOk(d) && Kept(d, a)
    ensures Kept(SyncEntries(d), a)
  {
    NamedInEveryPrefix(d.entries, d.pending, |d.pending|, a.ino);
    assert d.pending[..|d.pending|] == d.pending;
  }
}
