/** The file backend: writes, syncs, rotation and reopening of one managed file, with
    every kernel answer taken from a script. */
module FileBackend {
  import opened Options
  import opened Disk
  import opened FileHistory
  import opened FileRun
  import W = WriteLoops
  import N = ArchiveName
  import Bits

  datatype Rotation = Never | Size | Daily | SizeDaily | External

  const ATTEMPTS: nat := 1024
  const SSIZE_MAX: nat := 0x7fff_ffff_ffff_ffff

  function Clipped(n: nat): nat {
    if n > Bits.SIZE_MAX then Bits.SIZE_MAX else n
  }

  class LoggerFile {
    const naming: Naming
    const rotation: Rotation
    const maxSize: nat
    const iovMax: nat
    const dayOf: int -> int

    var isOpen: bool
    var active: Ino
    var detached: bool
    var switchError: int
    var currentSize: nat
    var currentDay: int
    var dirDirty: bool
    var archiveTime: Option<N.Time>

    // The world outside.
    var disk: Disk
    var script: seq<W.Answer>
    var clock: seq<N.Time>

    // What has happened so far.
    ghost var archives: seq<Archive>
    ghost var log: Bytes
    ghost var acks: seq<Ack>
    ghost var trace: seq<View>
    ghost var mark: seq<View>

    ghost function Now(): View
      reads this
    {
      View(disk, active, detached, dirDirty, archives, log, acks)
    }

    predicate Internal() {
      rotation == Size || rotation == Daily || rotation == SizeDaily
    }

    predicate BySize() {
      rotation == Size || rotation == SizeDaily
    }

    predicate ByDay() {
      rotation == Daily || rotation == SizeDaily
    }

    /** The two latest promises are the whole active file and these bytes at its end. */
    ghost predicate Promised(data: Bytes)
      reads this
    {
      && |acks| >= 2 && active in disk.bytes && Ends(disk.bytes[active], data)
      && acks[|acks| - 2] == Ack(active, 0, disk.bytes[active])
      && acks[|acks| - 1] == Ack(active, |disk.bytes[active]| - |data|, data)
    }

    /** The history up to now is a good one and ends in the present state. */
    ghost predicate Traced()
      reads this
    {
      Story(naming, mark, trace, Now())
    }

    ghost predicate Valid()
      reads this
    {
      && Traced() && iovMax > 0
      && active in disk.bytes && currentSize == Clipped(|disk.bytes[active]|)
      && (archives == [] <==> archiveTime.None?)
      && (archives != [] ==> archiveTime == Some(archives[|archives| - 1].time))
    }

    /** `logger_file_init` on a directory where nothing stands in its way: the file is
        opened, or created if it is missing. */
    constructor (naming: Naming, rotation: Rotation, maxSize: nat, iovMax: nat, dayOf: int -> int,
                 before: Disk, script: seq<W.Answer>, clock: seq<N.Time>, day: int)
      requires NamingOk(naming) && DiskOk(before) && iovMax > 0
      requires naming.name in Current(before) ==> |before.bytes[Current(before)[naming.name]]| <= Bits.SIZE_MAX
      ensures Valid() && isOpen && !detached && acks == [] && archives == []
      ensures this.naming == naming && this.rotation == rotation && this.maxSize == maxSize
      ensures disk == (if naming.name in Current(before) then before else Create(before, naming.name))
      ensures naming.name in Current(disk) && Current(disk)[naming.name] == active && log == disk.bytes[active]
      ensures this.script == script
    {
      var d := if naming.name in Current(before) then before else Create(before, naming.name);
      if naming.name !in Current(before) { CreateOk(before, naming.name); }
      var ino := Current(d)[naming.name];
      ghost var v := View(d, ino, false, true, [], d.bytes[ino], []);
      assert Ok(naming, v);
      Begin(naming, v);
      this.naming, this.rotation, this.maxSize, this.iovMax, this.dayOf := naming, rotation, maxSize, iovMax, dayOf;
      isOpen, active, detached, switchError, currentSize, currentDay := true, ino, false, 0, |d.bytes[ino]|, day;
      dirDirty, archiveTime, disk, this.script, this.clock := true, None, d, script, clock;
      archives, log, acks, trace, mark := [], d.bytes[ino], [], [], [];
    }

    /** The active name leads to this inode, and its size is in range. */
    ghost predicate Denotes(ino: Ino)
      reads this
    {
      && naming.name in Current(disk) && Current(disk)[naming.name] == ino
      && ino in disk.bytes && |disk.bytes[ino]| <= Bits.SIZE_MAX
    }

    // ---- Kernel calls ------------------------------------------------------------

    /** A call whose only effect is its answer. */
    method Call() returns (rc: int)
      modifies this`script
      ensures rc <= 0
    {
      var a := W.First(script, 0);
      script := W.Rest(script);
      rc := if a.Fail? then W.Negative(a.errno) else 0;
    }

    /** A call that is repeated while it is interrupted. */
    method CallAgain() returns (rc: int)
      modifies this`script
      ensures rc <= 0
    {
      var a := W.First(script, 0);
      script := W.Rest(script);
      while a.Fail? && a.errno == W.EINTR
        decreases a.Fail?, |script|
      {
        a := W.First(script, 0);
        script := W.Rest(script);
      }
      rc := if a.Fail? then W.Negative(a.errno) else 0;
    }

    method SyncData(ino: Ino) returns (rc: int)
      requires Traced() && ino in disk.bytes
      modifies this`script, this`disk, this`trace
      ensures Traced() && rc <= 0
      ensures disk.bytes == old(disk).bytes && Current(disk) == Current(old(disk))
      ensures rc == 0 ==> disk == SyncInode(old(disk), ino)
      ensures rc != 0 ==> disk == old(disk)
    {
      rc := CallAgain();
      if rc == 0 {
        ghost var v := Now();
        SyncedGrows(naming, mark, trace, v, ino);
        trace := trace + [v];
        disk := SyncInode(disk, ino);
        assert Now() == v.(disk := SyncInode(v.disk, ino));
      }
    }

    method SyncDirectory() returns (rc: int)
      requires Traced()
      modifies this`script, this`disk, this`trace, this`dirDirty
      ensures Traced() && rc <= 0
      ensures disk.bytes == old(disk).bytes && Current(disk) == Current(old(disk))
      ensures rc == 0 ==> disk == SyncEntries(old(disk)) && !dirDirty
      ensures rc != 0 ==> disk == old(disk) && dirDirty == old(dirDirty)
    {
      rc := CallAgain();
      if rc == 0 {
        ghost var v := Now();
        DirSyncedGrows(naming, mark, trace, v);
        trace := trace + [v];
        disk := SyncEntries(disk);
        dirDirty := false;
        assert Now() == v.(disk := SyncEntries(v.disk), dirty := false);
      }
    }

    /** A reading of the wall clock, which may stand still or run backwards. */
    method ReadClock() returns (t: N.Time)
      modifies this`clock
      ensures old(clock) != [] ==> t == old(clock)[0] && clock == old(clock)[1..]
    {
      t := N.Time(0, 0);
      if clock != [] { t, clock := clock[0], clock[1..]; }
    }

    method WallDay(sec: int) returns (rc: int, day: int)
      modifies this`script
      ensures rc <= 0
    {
      rc := Call();
      day := dayOf(sec);
    }

    /** `open_candidate`: what the active name denotes, created if it is missing. */
    method OpenCandidate(exclusive: bool) returns (rc: int, ino: Ino)
      requires Traced()
      modifies this`script, this`disk, this`trace, this`dirDirty
      ensures Traced() && rc <= 0
      ensures forall i :: i in old(disk).bytes ==> i in disk.bytes && disk.bytes[i] == old(disk).bytes[i]
      ensures rc != 0 ==> dirDirty == old(dirDirty)
      ensures naming.name in Current(old(disk)) ==> disk == old(disk)
      ensures rc == 0 ==>
                && dirDirty && Denotes(ino)
                && (exclusive ==> naming.name !in Current(old(disk)) && disk.bytes[ino] == [])
    {
      ino := 0;
      Present(naming, mark, trace, Now());
      rc := Call();  // the lock file is still ours
      if rc != 0 { return; }
      rc := Call();  // openat
      if rc != 0 { return; }
      if naming.name in Current(disk) {
        if exclusive {
          rc := -W.EEXIST;
          return;
        }
      } else {
        CreateActive();
      }
      ino := Current(disk)[naming.name];
      rc := Call();  // fstat and fstatat agree on a regular file
      if rc != 0 { return; }
      if |disk.bytes[ino]| > Bits.SIZE_MAX {
        rc := -W.EOVERFLOW;
        return;
      }
      MarkDirty();
    }

    method MarkDirty()
      requires Traced()
      modifies this`trace, this`dirDirty
      ensures Traced() && dirDirty
    {
      ghost var v := Now();
      DirtyGrows(naming, mark, trace, v);
      trace := trace + [v];
      dirDirty := true;
      assert Now() == v.(dirty := true);
    }

    /** `openat` with `O_CREAT` on a missing name. */
    method CreateActive()
      requires Traced() && naming.name !in Current(disk)
      modifies this`disk, this`trace
      ensures Traced() && Current(disk) == Current(old(disk))[naming.name := old(disk).next]
      ensures old(disk).next !in old(disk).bytes && disk.bytes == old(disk).bytes[old(disk).next := []]
    {
      ghost var v := Now();
      CreatedGrows(naming, mark, trace, v);
      trace := trace + [v];
      disk := Create(disk, naming.name);
      assert Now() == v.(disk := Create(v.disk, naming.name));
    }

    /** `install_fd` */
    method Install(ino: Ino, day: int)
      requires Traced() && disk.pending == [] && Denotes(ino)
      modifies this`active, this`currentSize, this`currentDay, this`detached, this`switchError, this`trace
      ensures Traced() && active == ino && !detached && currentDay == day
      ensures currentSize == |disk.bytes[active]|
    {
      ghost var v := Now();
      InstalledGrows(naming, mark, trace, v);
      trace := trace + [v];
      active := ino;
      currentSize := |disk.bytes[ino]|;
      currentDay := day;
      detached := false;
      switchError := 0;
      assert Now() == v.(active := ino, detached := false);
    }

    /** The caller is told that the last bytes of the active file are durable. */
    ghost method Promise(data: Bytes)
      requires Traced() && !detached && disk.pending == []
      requires active in disk.bytes && active in disk.synced && |data| <= |disk.bytes[active]|
      requires disk.synced[active] == |disk.bytes[active]|
      requires disk.bytes[active][|disk.bytes[active]| - |data|..] == data
      modifies this`acks, this`trace
      ensures Traced()
      ensures acks == old(acks) + [Ack(active, |disk.bytes[active]| - |data|, data)]
    {
      ghost var v := Now();
      PromisedGrows(naming, mark, trace, v, data);
      trace := trace + [v];
      acks := acks + [Ack(active, |disk.bytes[active]| - |data|, data)];
      assert Now() == v.(acks := acks);
    }

    // ---- Sync and reopen ---------------------------------------------------------------

    /** Syncs the active file, then the directory if it was touched. */
    method SyncBoth() returns (rc: int)
      requires Traced() && active in disk.bytes
      modifies this`script, this`disk, this`trace, this`dirDirty
      ensures Traced() && rc <= 0 && disk.bytes == old(disk).bytes && Current(disk) == Current(old(disk))
      ensures rc == 0 ==> Synced(disk, active) && !dirDirty
      ensures rc == 0 && old(dirDirty) ==> disk.pending == []
    {
      rc := SyncData(active);
      if rc == 0 && dirDirty { rc := SyncDirectory(); }
    }

    /** `logger_file_sync`: success promises the whole active file. */
    method Sync() returns (rc: int)
      requires Valid()
      modifies this`script, this`disk, this`trace, this`dirDirty, this`acks
      ensures Valid() && rc <= 0
      ensures disk.bytes == old(disk.bytes) && Current(disk) == Current(old(disk))
      ensures rc == 0 ==>
                && isOpen && !detached && disk.pending == [] && Durable(disk, active)
                && acks == old(acks) + [Ack(active, 0, disk.bytes[active])]
      ensures rc != 0 ==> acks == old(acks)
    {
      if !isOpen { return -W.EBADF; }
      Present(naming, mark, trace, Now());
      rc := SyncBoth();
      if rc == 0 && detached {
        rc := if switchError > 0 then -switchError else -W.EIO;
      }
      if rc == 0 {
        Present(naming, mark, trace, Now());
        Promise(disk.bytes[active]);
      }
    }

    /** `logger_file_reopen` */
    method Reopen() returns (rc: int)
      requires Valid()
      modifies this`script, this`clock, this`disk, this`trace, this`dirDirty,
               this`active, this`currentSize, this`currentDay, this`detached, this`switchError
      ensures Valid() && rc <= 0
      ensures rc == 0 ==> !detached && disk.pending == [] && Synced(disk, old(active))
      ensures !old(detached) ==> !detached && active == old(active) && disk.bytes == old(disk).bytes
    {
      if !isOpen { return -W.EBADF; }
      var ino, day;
      rc, ino, day := Candidate();
      if rc != 0 { return; }
      Install(ino, day);
      rc := Call();  // close of the old descriptor
    }

    /** Opens what the active name denotes and makes it and the old file durable. */
    method Candidate() returns (rc: int, ino: Ino, day: int)
      requires Valid()
      modifies this`script, this`clock, this`disk, this`trace, this`dirDirty
      ensures Valid() && rc <= 0
      ensures rc == 0 ==> disk.pending == [] && Denotes(ino) && Synced(disk, active)
      ensures !detached ==> disk.bytes == old(disk).bytes && (rc == 0 ==> ino == active)
    {
      Present(naming, mark, trace, Now());
      ino, day := 0, 0;
      var now := ReadClock();
      rc, day := WallDay(now.sec);
      if rc == 0 { rc, ino := OpenCandidate(false); }
      if rc == 0 { rc := SyncBoth(); }
    }

    // ---- Rotation ----------------------------------------------------------------------

    /** The time of the next archive: the clock, or one microsecond after the last
        archive when the clock has not moved past it. */
    method PickTime() returns (rc: int, t: N.Time)
      requires Valid()
      modifies this`script, this`clock
      ensures rc <= 0
      ensures rc == 0 ==> N.TimestampValid(t) && t.nsec % 1000 == 0
      ensures rc == 0 && archiveTime.Some? ==> N.Before(archiveTime.value, t)
    {
      t := ReadClock();
      rc := Call();
      if rc != 0 { return; }
      if !N.TimestampValid(t) { return -W.EOVERFLOW, t; }
      t := N.Time(t.sec, t.nsec - t.nsec % 1000);
      if archiveTime.Some? && !N.Before(archiveTime.value, t) {
        LastArchive(naming, mark, trace, Now());
        match N.AdvanceMicrosecond(archiveTime.value) {
          case Overflow => rc := -W.EOVERFLOW;
          case Next(u) => N.AdvanceIsNext(archiveTime.value, u); t := u;
        }
      }
    }

    /** Renames the active file to the first free name at or after `start`. */
    method Archive(start: N.Time) returns (rc: int)
      requires Valid() && !detached && Durable(disk, active)
      requires N.TimestampValid(start) && start.nsec % 1000 == 0
      requires archiveTime.Some? ==> N.Before(archiveTime.value, start)
      modifies this`script, this`disk, this`trace, this`dirDirty, this`detached, this`switchError,
               this`archiveTime, this`archives
      ensures Valid() && rc <= 0
      ensures disk.bytes == old(disk).bytes
      ensures rc == 0 ==> detached && dirDirty && |archives| == |old(archives)| + 1
      ensures rc == 0 ==> archiveTime.Some? && !N.Before(archiveTime.value, start)
      ensures rc != 0 ==> disk == old(disk) && !detached && archives == old(archives)
    {
      var t, attempt := start, 0;
      Present(naming, mark, trace, Now());
      while attempt < ATTEMPTS
        invariant Valid() && disk == old(disk) && trace == old(trace) && attempt <= ATTEMPTS
        invariant !detached && archives == old(archives) && archiveTime == old(archiveTime)
        invariant N.TimestampValid(t) && t.nsec % 1000 == 0 && !N.Before(t, start)
        invariant archiveTime.Some? ==> N.Before(archiveTime.value, t)
      {
        rc := TryName(t);
        if rc != -W.EEXIST { return; }
        match N.AdvanceMicrosecond(t) {
          case Overflow => return -W.EOVERFLOW;
          case Next(u) => N.AdvanceIsNext(t, u); t := u;
        }
        attempt := attempt + 1;
      }
      rc := -W.EEXIST;
    }

    /** Makes the name for a time and tries to rename to it. */
    method TryName(t: N.Time) returns (rc: int)
      requires Valid() && !detached && Durable(disk, active) && N.TimestampValid(t) && t.nsec % 1000 == 0
      requires archiveTime.Some? ==> N.Before(archiveTime.value, t)
      modifies this`script, this`disk, this`trace, this`dirDirty, this`detached, this`switchError,
               this`archiveTime, this`archives
      ensures Valid() && rc <= 0 && disk.bytes == old(disk).bytes
      ensures rc == 0 ==> detached && dirDirty && |archives| == |old(archives)| + 1 && archiveTime == Some(t)
      ensures rc != 0 ==> disk == old(disk) && trace == old(trace) && !detached
      ensures rc != 0 ==> archives == old(archives) && archiveTime == old(archiveTime)
    {
      var name := N.MakeName(naming.stem, naming.ext, naming.stamp, t);
      if name.NameError? { return -W.EOVERFLOW; }
      rc := Call();
      if rc == 0 && name.name in Current(disk) { rc := -W.EEXIST; }
      if rc == 0 { Leave(t, name.name); }
    }

    /** The rename has succeeded: the open descriptor now belongs to an archive. */
    method Leave(t: N.Time, file: Name)
      requires Valid() && !detached && file !in Current(disk) && Durable(disk, active) && NamedFor(naming, t, file)
      requires archiveTime.Some? ==> N.Before(archiveTime.value, t)
      modifies this`disk, this`trace, this`dirDirty, this`detached, this`switchError, this`archiveTime, this`archives
      ensures Valid() && disk.bytes == old(disk).bytes
      ensures detached && dirDirty && |archives| == |old(archives)| + 1 && archiveTime == Some(t)
    {
      Detach(t, file);
      switchError := W.EIO;
      archiveTime := Some(t);
    }

    method Detach(t: N.Time, file: Name)
      requires Traced() && !detached && file !in Current(disk) && Durable(disk, active) && NamedFor(naming, t, file)
      requires archives != [] ==> N.Before(archives[|archives| - 1].time, t)
      modifies this`disk, this`trace, this`dirDirty, this`detached, this`archives
      ensures Traced() && disk.bytes == old(disk).bytes && detached && dirDirty
      ensures archives == old(archives) + [FileHistory.Archive(t, file, active)]
    {
      ghost var v := Now();
      ArchivedGrows(naming, mark, trace, v, t, file);
      trace := trace + [v];
      assert Story(naming, mark, trace, Archived(naming, v, t, file));
      disk := Move(disk, naming.name, file);
      detached, dirDirty := true, true;
      archives := Archived(naming, v, t, file).archives;
      assert Now() == Archived(naming, v, t, file);
    }

    /** After the rename: make it durable, then create and sync a new file. */
    method NewFile(sec: int) returns (rc: int, ino: Ino, day: int)
      requires Valid() && detached
      modifies this`script, this`disk, this`trace, this`dirDirty
      ensures Valid() && rc <= 0
      ensures rc == 0 ==> disk.pending == [] && Denotes(ino) && Synced(disk, ino) && disk.bytes[ino] == []
    {
      ino, day := 0, 0;
      Present(naming, mark, trace, Now());
      rc := SyncDirectory();
      if rc == 0 { rc, day := WallDay(sec); }
      if rc == 0 { rc, ino := OpenCandidate(true); }
      if rc == 0 { rc := SyncData(ino); }
      if rc == 0 { rc := SyncDirectory(); }
    }

    method SwitchOver(sec: int) returns (rc: int)
      requires Valid() && detached
      modifies this`script, this`disk, this`trace, this`dirDirty,
               this`active, this`currentSize, this`currentDay, this`detached, this`switchError
      ensures Valid() && rc <= 0
      ensures rc == 0 ==> !detached
      ensures !detached ==> disk.bytes[active] == [] && Denotes(active) && Durable(disk, active)
    {
      var ino, day;
      rc, ino, day := NewFile(sec);
      if rc != 0 {
        switchError := -rc;
        return;
      }
      Install(ino, day);
      Present(naming, mark, trace, Now());
      rc := Call();  // close of the archived descriptor
    }

    /** The part of a rotation before the rename. */
    method BeforeRename() returns (rc: int, t: N.Time)
      requires Valid() && isOpen && !detached
      modifies this`script, this`clock, this`disk, this`trace, this`dirDirty, this`acks
      ensures Valid() && rc <= 0 && old(acks) <= acks
      ensures rc == 0 ==> Durable(disk, active) && N.TimestampValid(t) && t.nsec % 1000 == 0
      ensures rc == 0 && archiveTime.Some? ==> N.Before(archiveTime.value, t)
    {
      t := N.Time(0, 0);
      rc := Call();  // the lock file and the active name are still ours
      if rc != 0 { return; }
      rc, t := PickTime();
      if rc != 0 { return; }
      rc := Sync();
    }

    /** `rotate_impl` without retention. */
    method Rotate() returns (rc: int)
      requires Valid() && isOpen && !detached
      modifies this
      ensures Valid() && rc <= 0 && isOpen
      ensures rc == 0 ==> !detached && disk.bytes[active] == [] && |archives| == |old(archives)| + 1
      ensures log == old(log) && old(acks) <= acks && mark == old(mark)
    {
      var t;
      rc, t := BeforeRename();
      if rc != 0 { return; }
      rc := Archive(t);
      if rc != 0 { return; }
      rc := SwitchOver(archiveTime.value.sec);
    }

    // ---- Writing -----------------------------------------------------------------------

    /** `prepare_write` */
    method PrepareWrite(n: nat, t: Option<N.Time>) returns (rc: int)
      requires Valid()
      modifies this
      ensures Valid() && rc <= 0 && log == old(log) && old(acks) <= acks && mark == old(mark)
      ensures rc == 0 ==> isOpen && !detached
      ensures rc == 0 && n > 0 && BySize() && maxSize > 0 ==> currentSize == 0 || currentSize + n <= maxSize
      ensures n == 0 ==> unchanged(this)
      ensures n == 0 && isOpen && !detached && t.Some? && 0 <= t.value.nsec < 1_000_000_000 ==> rc == 0
    {
      if !isOpen { return -W.EBADF; }
      if t.None? || t.value.nsec < 0 || t.value.nsec >= 1_000_000_000 || n > SSIZE_MAX { return -W.EINVAL; }
      if detached { return if switchError > 0 then -switchError else -W.EIO; }
      if !Internal() || n == 0 { return 0; }
      var size, day := false, false;
      if BySize() && maxSize > 0 && currentSize > 0 {
        size := currentSize >= maxSize || n > maxSize - currentSize;
      }
      rc := 0;
      if ByDay() {
        var d := 0;
        rc, d := WallDay(t.value.sec);
        if rc != 0 { return; }
        day := d != currentDay && currentSize != 0;
      }
      if size || day { rc := Rotate(); }
    }

    /** Some bytes reach the active file. */
    method Put(data: Bytes)
      requires Traced() && !detached && active in disk.bytes
      modifies this`disk, this`trace, this`log
      ensures Traced() && disk == Append(old(disk), active, data) && log == old(log) + data
    {
      ghost var v := Now();
      WroteGrows(naming, mark, trace, v, data);
      trace := trace + [v];
      disk := Append(disk, active, data);
      log := log + data;
      assert Now() == Wrote(v, data);
    }

    /** One `write` or `writev`: nothing written and no error means interrupted. */
    method TryWrite(data: Bytes) returns (rc: int, n: nat)
      requires Traced() && !detached && active in disk.bytes && data != []
      modifies this`script, this`disk, this`trace, this`log
      ensures Traced() && rc <= 0 && n <= |data| && (rc != 0 ==> n == 0)
      ensures log == old(log) + data[..n]
      ensures active in disk.bytes && disk.bytes[active] == old(disk).bytes[active] + data[..n]
      ensures |script| <= |old(script)| && (rc == 0 && n == 0 ==> |script| < |old(script)|)
    {
      var a := W.First(script, |data|);
      script := W.Rest(script);
      if a.Fail? {
        return if a.errno == W.EINTR then 0 else W.Negative(a.errno), 0;
      }
      if a.amount == 0 { return -W.EIO, 0; }
      Put(data[..a.amount]);
      return 0, a.amount;
    }

    /** `all` */
    method All(p: Bytes) returns (rc: int, written: nat)
      requires Traced() && !detached && active in disk.bytes
      modifies this`script, this`disk, this`trace, this`log
      ensures Traced() && rc <= 0 && written <= |p| && (rc == 0 <==> written == |p|)
      ensures log == old(log) + p[..written]
      ensures active in disk.bytes && disk.bytes[active] == old(disk).bytes[active] + p[..written]
    {
      rc, written := 0, 0;
      while written < |p|
        invariant Traced() && written <= |p| && rc == 0
        invariant log == old(log) + p[..written]
        invariant active in disk.bytes && disk.bytes[active] == old(disk).bytes[active] + p[..written]
        decreases |script|, |p| - written
      {
        var n := 0;
        rc, n := TryWrite(p[written..]);
        if rc != 0 { return; }
        OneMore(p, written, p[written..], n);
        written := written + n;
      }
    }

    /** The bytes that the next call offers; none when the first buffer is to be skipped. */
    method Offer(v: array<Bytes>, first: nat) returns (offered: Bytes)
      requires first < v.Length && iovMax > 0
      ensures offered <= W.Concat(v[first..])
      ensures offered == [] <==> v[first] == []
      ensures offered == [] ==> W.Concat(v[first..]) == W.Concat(v[first + 1..])
    {
      W.ConcatFrom(v[..], first);
      assert v[..][first..] == v[first..] && v[..][first + 1..] == v[first + 1..];
      if v[first] == [] { return []; }
      var amount := if v.Length - first > iovMax then iovMax else v.Length - first;
      assert v[first..][..amount] == v[first..first + amount];
      OfferedPrefix(v[first..], amount);
      offered := W.Concat(v[first..first + amount]);
    }

    /** One turn of the loop: skips an empty buffer, or makes one call and steps over what
        it took. */
    method OneCall(v: array<Bytes>, first: nat, ghost left: Bytes) returns (rc: int, n: nat, next: nat)
      requires Traced() && !detached && active in disk.bytes && iovMax > 0 && first < v.Length && left == W.Concat(v[first..])
      modifies this`script, this`disk, this`trace, this`log, v
      ensures Traced() && rc <= 0 && (rc != 0 ==> n == 0 && left != []) && first <= next <= v.Length
      ensures n <= |left| && W.Concat(v[next..]) == left[n..]
      ensures log == old(log) + left[..n]
      ensures active in disk.bytes && disk.bytes[active] == old(disk).bytes[active] + left[..n]
      ensures |script| <= |old(script)| && (rc == 0 && n == 0 ==> |script| < |old(script)| || next > first)
    {
      rc, n, next := 0, 0, first;
      var offered := Offer(v, first);
      if offered == [] {
        next := first + 1;
        return;
      }
      ghost var rest := v[first..];
      rc, n := TryWrite(offered);
      assert v[first..] == rest && offered[..n] == left[..n];
      if n > 0 { next := W.Advance(v, first, n); }
    }

    /** `vall`: at most `iovMax` buffers go into one call. */
    method Vall(v: array<Bytes>) returns (rc: int, written: nat)
      requires Traced() && !detached && active in disk.bytes && iovMax > 0
      modifies this`script, this`disk, this`trace, this`log, v
      ensures Traced() && rc <= 0 && written <= |W.Concat(old(v[..]))| && (rc == 0 <==> written == |W.Concat(old(v[..]))|)
      ensures log == old(log) + W.Concat(old(v[..]))[..written]
      ensures active in disk.bytes && disk.bytes[active] == old(disk).bytes[active] + W.Concat(old(v[..]))[..written]
    {
      ghost var whole, left := W.Concat(v[..]), W.Concat(v[..]);
      var first := 0;
      rc, written := 0, 0;
      assert v[0..] == v[..];
      while first < v.Length
        invariant Traced() && 0 <= first <= v.Length && written <= |whole| && rc == 0
        invariant left == W.Concat(v[first..]) && left == whole[written..]
        invariant log == old(log) + whole[..written]
        invariant active in disk.bytes && disk.bytes[active] == old(disk).bytes[active] + whole[..written]
        decreases |script|, |left|, v.Length - first
      {
        var n := 0;
        rc, n, first := OneCall(v, first, left);
        if rc != 0 { return; }
        OneMore(whole, written, left, n);
        written := written + n;
        left := left[n..];
      }
      assert v[first..] == [];
    }

    /** `account` */
    method Account(written: nat)
      modifies this`currentSize
      requires currentSize <= Bits.SIZE_MAX
      ensures currentSize == Clipped(old(currentSize) + written)
    {
      currentSize := if Bits.SIZE_MAX - currentSize < written then Bits.SIZE_MAX else currentSize + written;
    }

    /** The tail of both write functions: account for the bytes, then sync if asked. */
    method Finish(done: int, written: nat, sync: bool, ghost was: Bytes, ghost data: Bytes) returns (rc: int)
      requires Traced() && done <= 0 && isOpen && !detached && iovMax > 0
      requires written <= |data| && (done == 0 <==> written == |data|)
      requires active in disk.bytes && disk.bytes[active] == was + data[..written] && currentSize == Clipped(|was|)
      requires (archives == [] <==> archiveTime.None?) && (archives != [] ==> archiveTime == Some(archives[|archives| - 1].time))
      modifies this`script, this`disk, this`trace, this`dirDirty, this`acks, this`currentSize
      ensures Valid() && rc <= 0 && (rc == 0 ==> done == 0) && old(acks) <= acks
      ensures currentSize == Clipped(old(currentSize) + written)
      ensures rc == 0 ==> disk.bytes[active] == was + data
      ensures rc == 0 && sync ==>
                acks == old(acks) + [Ack(active, 0, disk.bytes[active]), Ack(active, |was|, data)]
      ensures done == 0 && !sync ==> rc == 0
    {
      Account(written);
      rc := done;
      if rc == 0 && sync {
        rc := Sync();
        if rc == 0 {
          assert disk.bytes[active][|was|..] == data;
          Promise(data);
        }
      }
    }

    /** `logger_file_write` */
    method Write(p: Bytes, t: Option<N.Time>, sync: bool) returns (rc: int, written: nat)
      requires Valid()
      modifies this
      ensures Valid() && rc <= 0 && written <= |p| && mark == old(mark)
      ensures log == old(log) + p[..written] && (rc == 0 ==> written == |p|)
      ensures rc == 0 ==> Ends(disk.bytes[active], p)
      ensures old(acks) <= acks && (rc == 0 ==> !detached)
      ensures rc == 0 && sync ==> |acks| >= |old(acks)| + 2 && Promised(p)
      ensures rc == 0 && |p| > 0 && BySize() && maxSize > 0 ==> currentSize <= maxSize || disk.bytes[active] == p
      ensures |p| == 0 ==> log == old(log) && currentSize == old(currentSize)
      ensures p == [] && !sync && old(isOpen && !detached) && t.Some? && 0 <= t.value.nsec < 1_000_000_000 ==> rc == 0
    {
      written := 0;
      rc := PrepareWrite(|p|, t);
      if rc != 0 { return; }
      ghost var was := disk.bytes[active];
      rc, written := All(p);
      rc := Finish(rc, written, sync, was, p);
    }

    /** `logger_file_writev` */
    method Writev(v: array<Bytes>, n: nat, t: Option<N.Time>, sync: bool) returns (rc: int, written: nat)
      requires Valid()
      modifies this, v
      ensures Valid() && rc <= 0 && written <= |W.Concat(old(v[..]))| && mark == old(mark)
      ensures log == old(log) + W.Concat(old(v[..]))[..written] && (rc == 0 ==> written == |W.Concat(old(v[..]))|)
      ensures rc == 0 ==> Ends(disk.bytes[active], W.Concat(old(v[..])))
      ensures old(acks) <= acks && (rc == 0 ==> !detached)
      ensures rc == 0 && sync ==> |acks| >= |old(acks)| + 2 && Promised(W.Concat(old(v[..])))
      ensures rc == 0 && |W.Concat(old(v[..]))| > 0 && BySize() && maxSize > 0 ==> currentSize <= maxSize || disk.bytes[active] == W.Concat(old(v[..]))
      ensures |W.Concat(old(v[..]))| == 0 ==> log == old(log) && currentSize == old(currentSize)
      ensures n != |W.Concat(old(v[..]))| ==> rc == -W.EINVAL && v[..] == old(v[..]) && disk == old(disk)
    {
      written := 0;
      var ok, total := Total(v);
      if !ok || n != total { return -W.EINVAL, 0; }
      ghost var data, buffers := W.Concat(v[..]), v[..];
      rc := PrepareWrite(n, t);
      assert v[..] == buffers;
      if rc != 0 { return; }
      ghost var was := disk.bytes[active];
      rc, written := Vall(v);
      rc := Finish(rc, written, sync, was, data);
    }

    /** The length check of `logger_file_writev`. */
    method Total(v: array<Bytes>) returns (ok: bool, total: nat)
      ensures ok <==> |W.Concat(v[..])| <= SSIZE_MAX
      ensures ok ==> total == |W.Concat(v[..])|
    {
      var i := 0;
      total := 0;
      assert v[0..] == v[..];
      while i < v.Length
        invariant 0 <= i <= v.Length && total <= SSIZE_MAX
        invariant total + |W.Concat(v[i..])| == |W.Concat(v[..])|
      {
        W.ConcatFrom(v[..], i);
        assert v[..][i..] == v[i..] && v[..][i + 1..] == v[i + 1..];
        if |v[i]| > SSIZE_MAX - total { return false, total; }
        total := total + |v[i]|;
        i := i + 1;
      }
      assert v[i..] == [];
      ok := true;
    }

    // ---- Runs --------------------------------------------------------------------------

    /** One operation, with what it returned and how many bytes it wrote. */
    method Perform(op: Op) returns (r: Outcome)
      requires Valid()
      modifies this
      ensures Valid() && mark == old(mark) && old(acks) <= acks
      ensures r.written <= |Data(op)| && log == old(log) + Data(op)[..r.written]
      ensures r.rc == 0 && AsksSync(op) ==> !detached && |acks| >= |old(acks)| + 2 && Promised(Data(op))
      ensures r.rc == 0 && (op.WriteOp? || op.WritevOp?) ==> r.written == |Data(op)|
    {
      var rc, written := 0, 0;
      match op {
        case WriteOp(data, t, sync) => rc, written := Write(data, t, sync);
        case WritevOp(buffers, n, t, sync) =>
          var v := new Bytes[|buffers|](i requires 0 <= i < |buffers| => buffers[i]);
          assert v[..] == buffers;
          rc, written := Writev(v, n, t, sync);
        case SyncOp => rc := Sync();
        case ReopenOp => rc := Reopen();
      }
      r := Outcome(rc, written);
    }

    /** One operation, with what it makes of the history. */
    method PerformTold(op: Op) returns (r: Outcome)
      requires Valid()
      modifies this
      ensures Valid() && Extends(naming, old(Now()), Now()) && Ok(naming, Now())
      ensures old(trace) + [old(Now())] <= trace + [Now()]
      ensures r.written <= |Data(op)| && log == old(log) + Data(op)[..r.written]
      ensures JustPromised(old(Now()), Now(), op, r)
    {
      Tell(naming, mark, trace, Now());
      mark := trace + [Now()];
      assert Last(mark) == Now();
      r := Perform(op);
      Since(naming, mark, trace, Now());
    }

    /** One operation of a run, with the promise that is its own. */
    method PerformNext(op: Op, ghost had: nat, ghost base: Bytes, ghost ops: seq<Op>, ghost rs: seq<Outcome>, ghost kept: seq<Own>)
      returns (r: Outcome, ghost own: Own)
      requires Valid() && SoFar(Now(), had, base, ops, rs, kept) && |ops| == |rs| == |kept|
      modifies this
      ensures Valid() && old(trace) + [old(Now())] <= trace + [Now()]
      ensures SoFar(Now(), had, base, ops + [op], rs + [r], kept + [own])
    {
      ghost var v := Now();
      r := PerformTold(op);
      own := Latest(Now());
      OneMoreOp(naming, v, Now(), had, base, ops, rs, kept, op, r);
    }

    method PerformAll(ops: seq<Op>) returns (rs: seq<Outcome>, ghost kept: seq<Own>)
      requires Valid()
      modifies this
      ensures Valid() && |rs| == |ops| == |kept| && old(trace) + [old(Now())] <= trace + [Now()]
      ensures SoFar(Now(), |old(acks)|, old(log), ops, rs, kept)
    {
      rs, kept := [], [];
      ghost var start, done: seq<Op>, had, base := trace + [Now()], [], |acks|, log;
      var k := 0;
      RunBegins(Now());
      while k < |ops|
        invariant Valid() && 0 <= k == |rs| == |kept| <= |ops| && done == ops[..k]
        invariant start <= trace + [Now()] && SoFar(Now(), had, base, done, rs, kept)
      {
        var r;
        ghost var own;
        r, own := PerformNext(ops[k], had, base, done, rs, kept);
        done, rs, kept := done + [ops[k]], rs + [r], kept + [own];
        k := k + 1;
      }
      assert done == ops;
    }

    /** Any run, with any answers of the kernel. The whole history is good, it contains
        the history so far, and it ends in the present state. The bytes written are the
        bytes of the operations in order, and every write that returned success after a
        sync has a promise of its own, later than those of earlier operations, for its
        own bytes at its own place in the log. */
    method Run(ops: seq<Op>) returns (rs: seq<Outcome>, ghost kept: seq<Own>)
      requires Valid()
      modifies this
      ensures Valid() && |rs| == |ops| == |kept|
      ensures History(naming, trace + [Now()]) && old(trace) + [old(Now())] <= trace + [Now()]
      ensures log == old(log) + Written(ops, rs)
      ensures OwnPromises(Now(), |old(acks)|, |old(log)|, ops, rs, kept)
    {
      rs, kept := PerformAll(ops);
      RunTold(Now(), |old(acks)|, old(log), ops, rs, kept);
      Tell(naming, mark, trace, Now());
    }
  }

  /** What the first answer of a script makes of a call. */
  function ResultOf(script: seq<W.Answer>): (rc: int)
    ensures rc <= 0
  {
    var a := W.First(script, 0);
    if a.Fail? then W.Negative(a.errno) else 0
  }

  function After(script: seq<W.Answer>, n: nat): seq<W.Answer> {
    if n <= |script| then script[n..] else []
  }

  /** `logger_file_init`, with any of its calls failing. It succeeds exactly when all of
      them do and the file is not too large to count; a failure leaves the directory as
      it was, or with an empty file under a name that was free. */
  method Init(naming: Naming, rotation: Rotation, maxSize: nat, iovMax: nat, dayOf: int -> int,
              before: Disk, answers: seq<W.Answer>, clock: seq<N.Time>)
    returns (rc: int, f: LoggerFile?, after: Disk)
    requires NamingOk(naming) && DiskOk(before) && iovMax > 0
    ensures rc <= 0 && (rc == 0 <==> f != null)
    ensures after == before || (naming.name !in Current(before) && after == Create(before, naming.name))
    ensures rc == 0 <==>
              && (forall k :: 0 <= k < 5 && k < |answers| ==> answers[k].Done?)
              && (naming.name in Current(before) ==> |before.bytes[Current(before)[naming.name]]| <= Bits.SIZE_MAX)
    ensures f != null ==>
              && fresh(f) && f.Valid() && f.isOpen && !f.detached && f.acks == [] && f.archives == [] && f.disk == after
              && naming.name in Current(after) && Current(after)[naming.name] == f.active && f.log == after.bytes[f.active]
  {
    f, after := null, before;
    rc := ResultOf(answers);  // binding the path and reserving its lock file
    if rc != 0 { return; }
    var now := if clock == [] then N.Time(0, 0) else clock[0];
    rc := ResultOf(After(answers, 1));  // the local day
    if rc != 0 { return; }
    rc := ResultOf(After(answers, 2));  // the lock file is still ours
    if rc != 0 { return; }
    rc := ResultOf(After(answers, 3));  // openat
    if rc != 0 { return; }
    if naming.name !in Current(before) { after := Create(before, naming.name); }
    rc := ResultOf(After(answers, 4));  // fstat and fstatat agree on a regular file
    if rc != 0 { return; }
    if naming.name in Current(before) && |before.bytes[Current(before)[naming.name]]| > Bits.SIZE_MAX {
      rc := -W.EOVERFLOW;
      return;
    }
    rc := 0;
    f := new LoggerFile(naming, rotation, maxSize, iovMax, dayOf, before, After(answers, 5),
                        if clock == [] then [] else clock[1..], dayOf(now.sec));
  }

  /** The size limit is checked only for writes that carry bytes: on a file that is
      already too large an empty write succeeds and leaves it so. */
  method EmptyWriteOnLargeFile(naming: Naming) returns (f: LoggerFile, rc: int)
    requires NamingOk(naming)
    ensures rc == 0 && f.rotation == Size && f.maxSize == 1 && f.currentSize == 2
  {
    var before := Disk(map[naming.name := 0], [], map[naming.name := 0], map[0 := "ab"], map[0 := 2], 1);
    f := new LoggerFile(naming, Size, 1, 16, (sec: int) => 0, before, [], [], 0);
    var written;
    rc, written := f.Write([], Some(N.Time(0, 0)), false);
  }

  lemma OneMore(whole: Bytes, written: nat, offered: Bytes, amount: nat)
    requires written <= |whole| && amount <= |offered| && offered <= whole[written..]
    ensures written + amount <= |whole|
    ensures whole[..written] + offered[..amount] == whole[..written + amount]
    ensures whole[written..][amount..] == whole[written + amount..]
  {
  }

  lemma OfferedPrefix(v: seq<Bytes>, amount: nat)
    requires amount <= |v|
    ensures W.Concat(v[..amount]) <= W.Concat(v)
  {
    W.ConcatSplit(v, amount);
  }
}
