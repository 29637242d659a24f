/** What one file backend has made of its directory: the active file, the archives
    it produced, the bytes written so far and the bytes promised to be durable. */
module FileHistory {
  import opened Disk
  import N = ArchiveName
  import opened Focus

  datatype Archive = Archive(time: N.Time, file: Name, ino: Ino)

  /** The naming of one backend, fixed when its path is bound. */
  datatype Naming = Naming(name: Name, stem: string, ext: string, stamp: int -> string)

  ghost predicate NamingOk(n: Naming) {
    n.name == n.stem + n.ext && N.Calendar(n.stamp)
  }

  /** `log` is everything in the active file at the start and everything appended
      since, in order. */
  datatype View = View(
    disk: Disk, active: Ino, detached: bool, dirty: bool,
    archives: seq<Archive>, log: Bytes, acks: seq<Ack>)

  /** The contents of the archives, oldest first. */
  function Flat(archives: seq<Archive>, bytes: map<Ino, Bytes>): Bytes {
    if archives == [] then []
    else
      var last := archives[|archives| - 1];
      Flat(archives[..|archives| - 1], bytes) + (if last.ino in bytes then bytes[last.ino] else [])
  }

  /** The file has the archive name of a whole-microsecond time. */
  ghost predicate NamedFor(n: Naming, time: N.Time, file: Name) {
    forall k: nat :: Look(Topic.ArchiveName, k) ==>
      && N.TimestampValid(time) && time.nsec % 1000 == 0
      && N.MakeName(n.stem, n.ext, n.stamp, time) == N.Name(file)
  }

  lemma NameMade(n: Naming, time: N.Time, file: Name)
    requires NamedFor(n, time, file)
    ensures N.TimestampValid(time) && time.nsec % 1000 == 0
    ensures N.MakeName(n.stem, n.ext, n.stamp, time) == N.Name(file)
  {
    assert Look(Topic.ArchiveName, 0);
  }

  /** Every byte of the file is durable, whatever its name. */
  ghost predicate Synced(d: Disk, ino: Ino) {
    ino in d.bytes && ino in d.synced && d.synced[ino] == |d.bytes[ino]|
  }

  /** Every byte of the file is synced, and the file has a durable name. */
  ghost predicate Durable(d: Disk, ino: Ino) {
    Synced(d, ino) && Named(d.entries, ino)
  }

  ghost predicate ArchiveOk(n: Naming, v: View, a: Archive) {
    && a.file in Current(v.disk) && Current(v.disk)[a.file] == a.ino && Durable(v.disk, a.ino)
    && (!v.detached ==> a.ino != v.active)
    && NamedFor(n, a.time, a.file)
  }

  ghost predicate Increasing(archives: seq<Archive>) {
    forall i, j :: 0 <= i < j < |archives| ==>
      N.Before(archives[i].time, archives[j].time) && archives[i].ino != archives[j].ino
  }

  /** A file that a failed rotation created but did not switch to. */
  ghost predicate Waiting(n: Naming, v: View) {
    n.name in Current(v.disk) ==>
      var ino := Current(v.disk)[n.name];
      && ino in v.disk.bytes && v.disk.bytes[ino] == []
      && forall i :: 0 <= i < |v.archives| ==> v.archives[i].ino != ino
  }

  ghost predicate Place(n: Naming, v: View) {
    && DiskOk(v.disk) && v.active in v.disk.bytes
    && (!v.detached ==> n.name in Current(v.disk) && Current(v.disk)[n.name] == v.active)
    && (v.detached ==> v.archives != [] && v.archives[|v.archives| - 1].ino == v.active && Waiting(n, v))
    && (!v.detached && !v.dirty ==> v.disk.pending == [])
  }

  /** Archives in time order, then the active file, are the bytes in write order. */
  ghost predicate Ordered(v: View) {
    v.active in v.disk.bytes &&
    v.log == Flat(v.archives, v.disk.bytes) + (if v.detached then [] else v.disk.bytes[v.active])
  }

  ghost predicate Archives(n: Naming, v: View) {
    Increasing(v.archives) && forall i :: 0 <= i < |v.archives| ==> ArchiveOk(n, v, v.archives[i])
  }

  ghost predicate Safe(d: Disk, acks: seq<Ack>) {
    forall i :: 0 <= i < |acks| ==> Kept(d, acks[i])
  }

  ghost predicate Ok(n: Naming, v: View) {
    NamingOk(n) && Place(n, v) && Archives(n, v) && Ordered(v) && Safe(v.disk, v.acks)
  }

  /** What no step takes back: promises, bytes, archives, the contents of an archive,
      and any other entry of the directory. */
  ghost predicate Extends(n: Naming, v: View, v': View) {
    && v.acks <= v'.acks && v.log <= v'.log && v.archives <= v'.archives
    && (forall i :: 0 <= i < |v.archives| ==> SameBytes(v.disk.bytes, v'.disk.bytes, v.archives[i].ino))
    && SameEntries(n.name, Current(v.disk), Current(v'.disk))
    && (!v.detached ==> Succeeds(v.active, |v.archives|, v'))
  }

  /** An active file stays the active one, or becomes the very next archive. */
  ghost predicate Succeeds(active: Ino, count: nat, v': View) {
    if |v'.archives| > count then v'.archives[count].ino == active
    else |v'.archives| == count && v'.active == active && !v'.detached
  }

  ghost predicate SameBytes(bytes: map<Ino, Bytes>, bytes': map<Ino, Bytes>, ino: Ino) {
    ino in bytes && ino in bytes' && bytes'[ino] == bytes[ino]
  }

  ghost predicate SameEntries(name: Name, dir: map<Name, Ino>, dir': map<Name, Ino>) {
    forall m :: m in dir && m != name ==> m in dir' && dir'[m] == dir[m]
  }

  /** Changing an inode that is not an archive leaves the archives alone. */
  lemma {:induction false} FlatFrame(archives: seq<Archive>, bytes: map<Ino, Bytes>, bytes': map<Ino, Bytes>)
    requires forall i :: 0 <= i < |archives| ==>
               archives[i].ino in bytes && archives[i].ino in bytes' && bytes'[archives[i].ino] == bytes[archives[i].ino]
    ensures Flat(archives, bytes') == Flat(archives, bytes)
  {
    if archives != [] {
      var front := archives[..|archives| - 1];
      assert forall i :: 0 <= i < |front| ==> front[i] == archives[i];
      FlatFrame(front, bytes, bytes');
    }
  }

  // ---- Steps -------------------------------------------------------------------------

  /** `write` on the data descriptor. */
  function Wrote(v: View, data: Bytes): View
    requires v.active in v.disk.bytes
  {
    v.(disk := Append(v.disk, v.active, data), log := v.log + data)
  }

  lemma WroteOk(n: Naming, v: View, data: Bytes)
    requires Ok(n, v) && !v.detached
    ensures Ok(n, Wrote(v, data)) && Extends(n, v, Wrote(v, data))
  {
    var v' := Wrote(v, data);
    AppendOk(v.disk, v.active, data);
    forall i | 0 <= i < |v.archives| ensures ArchiveOk(n, v', v.archives[i]) { assert ArchiveOk(n, v, v.archives[i]); }
    FlatFrame(v.archives, v.disk.bytes, v'.disk.bytes);
    forall i | 0 <= i < |v.acks| ensures Kept(v'.disk, v.acks[i]) { AppendKeeps(v.disk, v.active, data, v.acks[i]); }
  }

  /** `fsync` of a data descriptor. */
  lemma SyncedOk(n: Naming, v: View, ino: Ino)
    requires Ok(n, v) && ino in v.disk.bytes
    ensures Ok(n, v.(disk := SyncInode(v.disk, ino))) && Extends(n, v, v.(disk := SyncInode(v.disk, ino)))
  {
    var v' := v.(disk := SyncInode(v.disk, ino));
    SyncInodeOk(v.disk, ino);
    forall i | 0 <= i < |v.archives| ensures ArchiveOk(n, v', v.archives[i]) { assert ArchiveOk(n, v, v.archives[i]); }
    forall i | 0 <= i < |v.acks| ensures Kept(v'.disk, v.acks[i]) { SyncInodeKeeps(v.disk, ino, v.acks[i]); }
  }

  /** `fsync` of the directory. */
  lemma DirSyncedOk(n: Naming, v: View)
    requires Ok(n, v)
    ensures Ok(n, v.(disk := SyncEntries(v.disk), dirty := false)) && Extends(n, v, v.(disk := SyncEntries(v.disk), dirty := false))
  {
    var v' := v.(disk := SyncEntries(v.disk), dirty := false);
    SyncEntriesOk(v.disk);
    forall i | 0 <= i < |v.archives| ensures ArchiveOk(n, v', v.archives[i]) { assert ArchiveOk(n, v, v.archives[i]); }
    forall i | 0 <= i < |v.acks| ensures Kept(v'.disk, v.acks[i]) { SyncEntriesKeeps(v.disk, v.acks[i]); }
  }

  /** The archiving rename: from here on the old descriptor belongs to an archive. */
  function Archived(n: Naming, v: View, time: N.Time, file: Name): View {
    v.(disk := Move(v.disk, n.name, file), detached := true, dirty := true,
       archives := v.archives + [Archive(time, file, v.active)])
  }

  lemma ArchivedPlace(n: Naming, v: View, time: N.Time, file: Name)
    requires Ok(n, v) && !v.detached && file !in Current(v.disk)
    ensures Place(n, Archived(n, v, time, file)) && Safe(Archived(n, v, time, file).disk, v.acks)
  {
    MoveOk(v.disk, n.name, file);
    forall i | 0 <= i < |v.acks| ensures Kept(Move(v.disk, n.name, file), v.acks[i]) {
      MoveKeeps(v.disk, n.name, file, v.acks[i]);
    }
  }

  lemma ArchivedArchives(n: Naming, v: View, time: N.Time, file: Name)
    requires Ok(n, v) && !v.detached && file !in Current(v.disk) && Durable(v.disk, v.active)
    requires NamedFor(n, time, file)
    requires v.archives != [] ==> N.Before(v.archives[|v.archives| - 1].time, time)
    ensures Archives(n, Archived(n, v, time, file))
  {
    var v' := Archived(n, v, time, file);
    MoveOk(v.disk, n.name, file);
    forall i | 0 <= i < |v'.archives| ensures ArchiveOk(n, v', v'.archives[i]) {
      if i < |v.archives| {
        assert ArchiveOk(n, v, v.archives[i]);
        ArchiveNotActiveName(n, v, v.archives[i]);
      }
    }
    forall i, j | 0 <= i < j < |v'.archives|
      ensures N.Before(v'.archives[i].time, v'.archives[j].time) && v'.archives[i].ino != v'.archives[j].ino
    {
      if j == |v.archives| {
        var last := |v.archives| - 1;
        assert ArchiveOk(n, v, v.archives[i]);
        assert i < last ==> N.Before(v.archives[i].time, v.archives[last].time);
      }
    }
  }

  lemma FlatOfOneMore(archives: seq<Archive>, a: Archive, bytes: map<Ino, Bytes>)
    requires a.ino in bytes
    ensures Flat(archives + [a], bytes) == Flat(archives, bytes) + bytes[a.ino]
  {
    assert (archives + [a])[..|archives|] == archives;
  }

  lemma ArchivedOrdered(n: Naming, v: View, time: N.Time, file: Name)
    requires Ordered(v) && !v.detached
    ensures Ordered(Archived(n, v, time, file))
  {
    FlatOfOneMore(v.archives, Archive(time, file, v.active), v.disk.bytes);
  }

  lemma ArchivedExtends(n: Naming, v: View, time: N.Time, file: Name)
    requires Ok(n, v) && !v.detached && file !in Current(v.disk)
    ensures Extends(n, v, Archived(n, v, time, file))
  {
    MoveOk(v.disk, n.name, file);
    ExtendsSelf(n, v);
  }

  lemma ArchivedOk(n: Naming, v: View, time: N.Time, file: Name)
    requires Ok(n, v) && !v.detached && file !in Current(v.disk) && Durable(v.disk, v.active)
    requires NamedFor(n, time, file)
    requires v.archives != [] ==> N.Before(v.archives[|v.archives| - 1].time, time)
    ensures Ok(n, Archived(n, v, time, file)) && Extends(n, v, Archived(n, v, time, file))
  {
    ArchivedPlace(n, v, time, file);
    ArchivedArchives(n, v, time, file);
    ArchivedOrdered(n, v, time, file);
    ArchivedExtends(n, v, time, file);
  }

  lemma ArchiveShape(n: Naming, a: Archive)
    requires NamingOk(n) && NamedFor(n, a.time, a.file)
    ensures N.Archive(n.stem, n.ext, a.file)
  {
    NameMade(n, a.time, a.file);
    N.NamesMatch(n.stem, n.ext, n.stamp(a.time.sec), a.time.nsec / 1000);
  }

  lemma ArchiveNotActiveName(n: Naming, v: View, a: Archive)
    requires NamingOk(n) && ArchiveOk(n, v, a)
    ensures a.file != n.name
  {
    ArchiveShape(n, a);
    N.NamesDiffer(n.stem, n.ext, a.file);
  }

  /** Opening the active name when it does not exist. */
  lemma CreatedOk(n: Naming, v: View)
    requires Ok(n, v) && n.name !in Current(v.disk)
    ensures Ok(n, v.(disk := Create(v.disk, n.name))) && Extends(n, v, v.(disk := Create(v.disk, n.name)))
  {
    var v' := v.(disk := Create(v.disk, n.name));
    CreateOk(v.disk, n.name);
    forall i | 0 <= i < |v.archives| ensures ArchiveOk(n, v', v.archives[i]) {
      assert ArchiveOk(n, v, v.archives[i]);
      ArchiveNotActiveName(n, v, v.archives[i]);
    }
    FlatFrame(v.archives, v.disk.bytes, v'.disk.bytes);
    forall i | 0 <= i < |v.acks| ensures Kept(v'.disk, v.acks[i]) { CreateKeeps(v.disk, n.name, v.acks[i]); }
  }

  /** Switching to the file that the active name denotes, after a directory sync. */
  lemma InstalledOk(n: Naming, v: View)
    requires Ok(n, v) && n.name in Current(v.disk) && v.disk.pending == []
    ensures Ok(n, v.(active := Current(v.disk)[n.name], detached := false)) && Extends(n, v, v.(active := Current(v.disk)[n.name], detached := false))
  {
    var v' := v.(active := Current(v.disk)[n.name], detached := false);
    forall i | 0 <= i < |v.archives| ensures ArchiveOk(n, v', v.archives[i]) { assert ArchiveOk(n, v, v.archives[i]); }
  }

  /** A successful sync of bytes at the end of the active file. */
  lemma AckOk(n: Naming, v: View, data: Bytes)
    requires Ok(n, v) && !v.detached && v.disk.pending == []
    requires v.disk.synced[v.active] == |v.disk.bytes[v.active]|
    requires |data| <= |v.disk.bytes[v.active]| && v.disk.bytes[v.active][|v.disk.bytes[v.active]| - |data|..] == data
    ensures Ok(n, v.(acks := v.acks + [Ack(v.active, |v.disk.bytes[v.active]| - |data|, data)])) && Extends(n, v, v.(acks := v.acks + [Ack(v.active, |v.disk.bytes[v.active]| - |data|, data)]))
  {
    var v' := v.(acks := v.acks + [Ack(v.active, |v.disk.bytes[v.active]| - |data|, data)]);
    assert Named(v.disk.entries, v.active) by { assert Current(v.disk) == v.disk.entries; }
    assert Kept(v.disk, v'.acks[|v.acks|]);
    forall i | 0 <= i < |v.archives| ensures ArchiveOk(n, v', v.archives[i]) { assert ArchiveOk(n, v, v.archives[i]); }
  }

  lemma DirtyOk(n: Naming, v: View)
    requires Ok(n, v)
    ensures Ok(n, v.(dirty := true)) && Extends(n, v, v.(dirty := true))
  {
    var v' := v.(dirty := true);
    forall i | 0 <= i < |v.archives| ensures ArchiveOk(n, v', v.archives[i]) { assert ArchiveOk(n, v, v.archives[i]); }
  }

  // ---- Histories ---------------------------------------------------------------------

  /** A history has a view for every moment between two kernel calls. */
  ghost predicate History(n: Naming, trace: seq<View>) {
    && trace != [] && Ok(n, Last(trace))
    && (|trace| > 1 ==>
          && History(n, trace[..|trace| - 1])
          && Extends(n, Last(trace[..|trace| - 1]), Last(trace)))
  }

  ghost function Last(trace: seq<View>): View
    requires trace != []
  {
    trace[|trace| - 1]
  }

  lemma ExtendsTrans(n: Naming, u: View, v: View, w: View)
    requires Extends(n, u, v) && Extends(n, v, w)
    ensures Extends(n, u, w)
  {
    forall i | 0 <= i < |u.archives| ensures SameBytes(u.disk.bytes, w.disk.bytes, u.archives[i].ino) {
      assert SameBytes(u.disk.bytes, v.disk.bytes, u.archives[i].ino);
      assert u.archives[i] == v.archives[i];
      assert SameBytes(v.disk.bytes, w.disk.bytes, v.archives[i].ino);
    }
  }

  lemma ExtendsSelf(n: Naming, v: View)
    requires Ok(n, v)
    ensures Extends(n, v, v)
  {
    forall i | 0 <= i < |v.archives| ensures SameBytes(v.disk.bytes, v.disk.bytes, v.archives[i].ino) {
      assert ArchiveOk(n, v, v.archives[i]);
    }
  }

  /** Every moment is a good one and extends every earlier one. */
  lemma {:induction false} HistoryAll(n: Naming, trace: seq<View>, i: nat, j: nat)
    requires History(n, trace) && i <= j < |trace|
    ensures Ok(n, trace[j]) && Extends(n, trace[i], trace[j])
  {
    var front := trace[..|trace| - 1];
    if i == j == |trace| - 1 {
      ExtendsSelf(n, trace[j]);
    } else if j == |trace| - 1 {
      HistoryAll(n, front, i, j - 1);
      ExtendsTrans(n, trace[i], Last(front), trace[j]);
    } else {
      HistoryAll(n, front, i, j);
    }
  }

  // ---- Steps of a history ------------------------------------------------------------

  /** The past and the present make a history that begins with `mark`. */
  ghost predicate Story(n: Naming, mark: seq<View>, past: seq<View>, v: View) {
    forall k: nat :: Look(Topic.Telling, k) ==> mark <= past + [v] && History(n, past + [v])
  }

  lemma Tell(n: Naming, mark: seq<View>, past: seq<View>, v: View)
    requires Story(n, mark, past, v)
    ensures mark <= past + [v] && History(n, past + [v])
    ensures Ok(n, v) && Story(n, past + [v], past, v)
  {
    assert Look(Topic.Telling, 0);
    assert Last(past + [v]) == v;
  }

  lemma Begin(n: Naming, v: View)
    requires Ok(n, v)
    ensures Story(n, [], [], v)
  {
    assert Last([] + [v]) == v;
  }

  lemma Grow(n: Naming, mark: seq<View>, past: seq<View>, v: View, v': View)
    requires Story(n, mark, past, v) && Ok(n, v') && Extends(n, v, v')
    ensures Story(n, mark, past + [v], v')
  {
    Tell(n, mark, past, v);
    var trace := past + [v];
    assert (trace + [v'])[..|trace|] == trace && Last(trace + [v']) == v';
  }

  lemma SyncedGrows(n: Naming, mark: seq<View>, past: seq<View>, v: View, ino: Ino)
    requires Story(n, mark, past, v) && ino in v.disk.bytes
    ensures Story(n, mark, past + [v], v.(disk := SyncInode(v.disk, ino)))
  {
    Tell(n, mark, past, v);
    SyncedOk(n, v, ino);
    Grow(n, mark, past, v, v.(disk := SyncInode(v.disk, ino)));
  }

  lemma DirSyncedGrows(n: Naming, mark: seq<View>, past: seq<View>, v: View)
    requires Story(n, mark, past, v)
    ensures Story(n, mark, past + [v], v.(disk := SyncEntries(v.disk), dirty := false))
  {
    Tell(n, mark, past, v);
    DirSyncedOk(n, v);
    Grow(n, mark, past, v, v.(disk := SyncEntries(v.disk), dirty := false));
  }

  lemma WroteGrows(n: Naming, mark: seq<View>, past: seq<View>, v: View, data: Bytes)
    requires Story(n, mark, past, v) && !v.detached && v.active in v.disk.bytes
    ensures Story(n, mark, past + [v], Wrote(v, data))
  {
    Tell(n, mark, past, v);
    WroteOk(n, v, data);
    Grow(n, mark, past, v, Wrote(v, data));
  }

  lemma ArchivedGrows(n: Naming, mark: seq<View>, past: seq<View>, v: View, time: N.Time, file: Name)
    requires Story(n, mark, past, v) && !v.detached && file !in Current(v.disk) && Durable(v.disk, v.active)
    requires NamedFor(n, time, file)
    requires v.archives != [] ==> N.Before(v.archives[|v.archives| - 1].time, time)
    ensures Story(n, mark, past + [v], Archived(n, v, time, file))
  {
    Tell(n, mark, past, v);
    ArchivedOk(n, v, time, file);
    Grow(n, mark, past, v, Archived(n, v, time, file));
  }

  lemma CreatedGrows(n: Naming, mark: seq<View>, past: seq<View>, v: View)
    requires Story(n, mark, past, v) && n.name !in Current(v.disk)
    ensures Story(n, mark, past + [v], v.(disk := Create(v.disk, n.name)))
    ensures Current(Create(v.disk, n.name)) == Current(v.disk)[n.name := v.disk.next] && v.disk.next !in v.disk.bytes
  {
    Tell(n, mark, past, v);
    CreatedOk(n, v);
    CreateOk(v.disk, n.name);
    Grow(n, mark, past, v, v.(disk := Create(v.disk, n.name)));
  }

  lemma DirtyGrows(n: Naming, mark: seq<View>, past: seq<View>, v: View)
    requires Story(n, mark, past, v)
    ensures Story(n, mark, past + [v], v.(dirty := true))
  {
    Tell(n, mark, past, v);
    DirtyOk(n, v);
    Grow(n, mark, past, v, v.(dirty := true));
  }

  lemma InstalledGrows(n: Naming, mark: seq<View>, past: seq<View>, v: View)
    requires Story(n, mark, past, v) && n.name in Current(v.disk) && v.disk.pending == []
    ensures Story(n, mark, past + [v], v.(active := Current(v.disk)[n.name], detached := false))
  {
    Tell(n, mark, past, v);
    InstalledOk(n, v);
    Grow(n, mark, past, v, v.(active := Current(v.disk)[n.name], detached := false));
  }

  lemma PromisedGrows(n: Naming, mark: seq<View>, past: seq<View>, v: View, data: Bytes)
    requires Story(n, mark, past, v) && !v.detached && v.disk.pending == []
    requires v.active in v.disk.bytes && v.active in v.disk.synced && |data| <= |v.disk.bytes[v.active]|
    requires v.disk.synced[v.active] == |v.disk.bytes[v.active]|
    requires v.disk.bytes[v.active][|v.disk.bytes[v.active]| - |data|..] == data
    ensures Story(n, mark, past + [v], v.(acks := v.acks + [Ack(v.active, |v.disk.bytes[v.active]| - |data|, data)]))
  {
    Tell(n, mark, past, v);
    AckOk(n, v, data);
    Grow(n, mark, past, v, v.(acks := v.acks + [Ack(v.active, |v.disk.bytes[v.active]| - |data|, data)]));
  }

  /** What the present says about the active file. */
  lemma Present(n: Naming, mark: seq<View>, past: seq<View>, v: View)
    requires Story(n, mark, past, v)
    ensures v.active in v.disk.bytes && v.active in v.disk.synced
    ensures n.name in Current(v.disk) ==> Current(v.disk)[n.name] in v.disk.bytes
    ensures !v.detached ==> n.name in Current(v.disk) && Current(v.disk)[n.name] == v.active
    ensures !v.detached && !v.dirty ==> v.disk.pending == []
    ensures v.detached && n.name in Current(v.disk) ==> v.disk.bytes[Current(v.disk)[n.name]] == []
    ensures !v.detached && v.disk.pending == [] ==> Named(v.disk.entries, v.active)
  {
    Tell(n, mark, past, v);
    assert v.disk.pending == [] ==> v.disk.dir == v.disk.entries;
  }

  lemma LastArchive(n: Naming, mark: seq<View>, past: seq<View>, v: View)
    requires Story(n, mark, past, v) && v.archives != []
    ensures N.TimestampValid(v.archives[|v.archives| - 1].time) && v.archives[|v.archives| - 1].time.nsec % 1000 == 0
  {
    Tell(n, mark, past, v);
    var a := v.archives[|v.archives| - 1];
    assert ArchiveOk(n, v, a);
    NameMade(n, a.time, a.file);
  }

  /** A promise once made holds in every crash image of every later moment. */
  lemma PromisesSurvive(n: Naming, trace: seq<View>, i: nat, j: nat, k: nat, im: Image)
    requires History(n, trace) && i <= j < |trace| && k < |trace[i].acks| && CrashImage(trace[j].disk, im)
    ensures var a := trace[i].acks[k];
            && a.ino in im.bytes && Named(im.dir, a.ino) && a.offset + |a.data| <= |im.bytes[a.ino]|
            && im.bytes[a.ino][a.offset..a.offset + |a.data|] == a.data
  {
    HistoryAll(n, trace, i, j);
    assert trace[j].acks[k] == trace[i].acks[k];
    KeptSurvives(trace[j].disk, trace[i].acks[k], im);
  }

  /** The promised bytes are at position `start` of the log, and they stand in file
      `file`, counted in the order of the archives and then the active file. */
  ghost predicate LogPlace(v: View, file: nat, a: Ack, start: nat) {
    && file <= |v.archives|
    && a.ino == (if file < |v.archives| then v.archives[file].ino else v.active)
    && (file == |v.archives| ==> !v.detached)
    && start == |Flat(v.archives[..file], v.disk.bytes)| + a.offset
    && start + |a.data| <= |v.log| && v.log[start..start + |a.data|] == a.data
  }

  /** Bytes at the end of the active file are at the end of the log. */
  lemma PlacedNow(n: Naming, v: View, data: Bytes)
    requires Ok(n, v) && !v.detached
    requires var bytes := v.disk.bytes[v.active]; |data| <= |bytes| && bytes[|bytes| - |data|..] == data
    ensures |data| <= |v.log|
    ensures LogPlace(v, |v.archives|, Ack(v.active, |v.disk.bytes[v.active]| - |data|, data), |v.log| - |data|)
  {
    assert v.archives[..|v.archives|] == v.archives;
    var flat, bytes := Flat(v.archives, v.disk.bytes), v.disk.bytes[v.active];
    assert v.log == flat + bytes;
    assert v.log[|v.log| - |data|..] == bytes[|bytes| - |data|..];
  }

  /** A place in the log never changes, also when the file is archived. */
  lemma PlaceStays(n: Naming, v: View, v': View, file: nat, a: Ack, start: nat)
    requires LogPlace(v, file, a, start) && Extends(n, v, v')
    ensures LogPlace(v', file, a, start)
  {
    var before := v.archives[..file];
    assert v'.archives[..file] == before;
    assert forall i :: 0 <= i < |before| ==> before[i] == v.archives[i];
    FlatFrame(before, v.disk.bytes, v'.disk.bytes);
    assert v'.log[start..start + |a.data|] == v.log[start..start + |a.data|];
  }

  lemma PlaceLater(n: Naming, trace: seq<View>, i: nat, j: nat, file: nat, a: Ack, start: nat)
    requires History(n, trace) && i <= j < |trace| && LogPlace(trace[i], file, a, start)
    ensures LogPlace(trace[j], file, a, start)
  {
    HistoryAll(n, trace, i, j);
    PlaceStays(n, trace[i], trace[j], file, a, start);
  }

  /** What lies between a marked moment and the present. */
  lemma Since(n: Naming, mark: seq<View>, past: seq<View>, v: View)
    requires Story(n, mark, past, v) && mark != []
    ensures mark <= past + [v] && Extends(n, Last(mark), v) && Ok(n, v)
  {
    Tell(n, mark, past, v);
    HistoryAll(n, past + [v], |mark| - 1, |past|);
    assert (past + [v])[|mark| - 1] == Last(mark);
  }

  // ---- The whole log after a crash ---------------------------------------------------

  function Joined(pieces: seq<Bytes>): Bytes {
    if pieces == [] then [] else Joined(pieces[..|pieces| - 1]) + pieces[|pieces| - 1]
  }

  /** The log is found in one order of named files, each holding its piece from its
      first byte on. */
  ghost predicate LogFound(im: Image, log: Bytes, inos: seq<Ino>, pieces: seq<Bytes>) {
    && |pieces| == |inos| && log == Joined(pieces)
    && (forall i, j :: 0 <= i < j < |inos| ==> inos[i] != inos[j])
    && forall i :: 0 <= i < |inos| ==> inos[i] in im.bytes && Named(im.dir, inos[i]) && pieces[i] <= im.bytes[inos[i]]
  }

  /** The files of a view, oldest first. */
  function Files(v: View): seq<Ino> {
    seq(|v.archives|, i requires 0 <= i < |v.archives| => v.archives[i].ino) + [v.active]
  }

  lemma {:induction false} FlatIsJoined(archives: seq<Archive>, bytes: map<Ino, Bytes>, pieces: seq<Bytes>)
    requires |pieces| == |archives|
    requires forall i :: 0 <= i < |archives| ==> archives[i].ino in bytes && pieces[i] == bytes[archives[i].ino]
    ensures Joined(pieces) == Flat(archives, bytes)
  {
    if archives != [] { FlatIsJoined(archives[..|archives| - 1], bytes, pieces[..|pieces| - 1]); }
  }

  /** The pieces of the log at a moment at which the active file is attached. */
  function LogPieces(v: View): seq<Bytes>
    requires v.active in v.disk.bytes && forall i :: 0 <= i < |v.archives| ==> v.archives[i].ino in v.disk.bytes
  {
    seq(|v.archives|, i requires 0 <= i < |v.archives| => v.disk.bytes[v.archives[i].ino]) + [v.disk.bytes[v.active]]
  }

  lemma LogIsJoined(n: Naming, v: View)
    requires Ok(n, v) && !v.detached
    ensures forall i :: 0 <= i < |v.archives| ==> v.archives[i].ino in v.disk.bytes
    ensures v.log == Joined(LogPieces(v))
  {
    forall i | 0 <= i < |v.archives| ensures v.archives[i].ino in v.disk.bytes { assert ArchiveOk(n, v, v.archives[i]); }
    var pieces := LogPieces(v);
    assert pieces[..|pieces| - 1] == seq(|v.archives|, i requires 0 <= i < |v.archives| => v.disk.bytes[v.archives[i].ino]);
    FlatIsJoined(v.archives, v.disk.bytes, pieces[..|pieces| - 1]);
  }

  lemma FilesDiffer(n: Naming, v: View, i: nat, j: nat)
    requires Ok(n, v) && !v.detached && i < j < |Files(v)|
    ensures Files(v)[i] != Files(v)[j]
  {
    assert ArchiveOk(n, v, v.archives[i]);
  }

  lemma FileFound(n: Naming, trace: seq<View>, i: nat, j: nat, im: Image, f: nat)
    requires History(n, trace) && i <= j < |trace| && CrashImage(trace[j].disk, im)
    requires var v := trace[i];
             && !v.detached && v.active in v.disk.bytes && Ack(v.active, 0, v.disk.bytes[v.active]) in v.acks
             && f <= |v.archives| && forall k :: 0 <= k < |v.archives| ==> v.archives[k].ino in v.disk.bytes
    ensures var ino := Files(trace[i])[f];
            ino in im.bytes && Named(im.dir, ino) && LogPieces(trace[i])[f] <= im.bytes[ino]
  {
    var v := trace[i];
    if f < |v.archives| {
      HistoryAll(n, trace, i, j);
      assert SameBytes(v.disk.bytes, trace[j].disk.bytes, v.archives[f].ino);
      ArchivesSurvive(n, trace[j], f, im);
    } else {
      var k :| 0 <= k < |v.acks| && v.acks[k] == Ack(v.active, 0, v.disk.bytes[v.active]);
      PromisesSurvive(n, trace, i, j, k, im);
    }
  }

  /** From the moment a sync has returned 0, the whole log up to then is found in write
      order in every crash image of every later moment. */
  lemma WholeLogSurvives(n: Naming, trace: seq<View>, i: nat, j: nat, im: Image)
    requires History(n, trace) && i <= j < |trace| && CrashImage(trace[j].disk, im)
    requires var v := trace[i];
             !v.detached && v.active in v.disk.bytes && Ack(v.active, 0, v.disk.bytes[v.active]) in v.acks
    ensures forall k :: 0 <= k < |trace[i].archives| ==> trace[i].archives[k].ino in trace[i].disk.bytes
    ensures LogFound(im, trace[i].log, Files(trace[i]), LogPieces(trace[i]))
  {
    HistoryAll(n, trace, i, i);
    LogIsJoined(n, trace[i]);
    forall f | 0 <= f < |Files(trace[i])|
      ensures var ino := Files(trace[i])[f]; ino in im.bytes && Named(im.dir, ino) && LogPieces(trace[i])[f] <= im.bytes[ino]
    {
      FileFound(n, trace, i, j, im, f);
    }
    forall f, g | 0 <= f < g < |Files(trace[i])| ensures Files(trace[i])[f] != Files(trace[i])[g] {
      FilesDiffer(n, trace[i], f, g);
    }
  }

  /** Once a file is archived it never changes, keeps its name, and stands in the
      same place of the order. */
  lemma ArchivesAreFrozen(n: Naming, trace: seq<View>, i: nat, j: nat, k: nat)
    requires History(n, trace) && i <= j < |trace| && k < |trace[i].archives|
    ensures var a := trace[i].archives[k];
            && k < |trace[j].archives| && trace[j].archives[k] == a
            && a.file in Current(trace[j].disk) && Current(trace[j].disk)[a.file] == a.ino
            && SameBytes(trace[i].disk.bytes, trace[j].disk.bytes, a.ino)
  {
    HistoryAll(n, trace, i, j);
    assert trace[j].archives[k] == trace[i].archives[k];
    assert ArchiveOk(n, trace[j], trace[j].archives[k]);
  }

  /** An archive survives every crash whole and under a name, from the moment it is one. */
  lemma ArchivesSurvive(n: Naming, v: View, k: nat, im: Image)
    requires Ok(n, v) && k < |v.archives| && CrashImage(v.disk, im)
    ensures var ino := v.archives[k].ino; ino in im.bytes && Named(im.dir, ino) && v.disk.bytes[ino] <= im.bytes[ino]
  {
    assert ArchiveOk(n, v, v.archives[k]);
    var ino := v.archives[k].ino;
    KeptSurvives(v.disk, Ack(ino, 0, v.disk.bytes[ino]), im);
  }

  /** Later archives sort after earlier ones, so the directory in name order, then
      the active file, reads as the bytes in write order. */
  lemma NameOrder(n: Naming, v: View, i: nat, j: nat)
    requires Ok(n, v) && i < j < |v.archives|
    ensures N.Less(v.archives[i].file, v.archives[j].file)
    ensures N.Archive(n.stem, n.ext, v.archives[i].file) && v.archives[i].file != n.name
    ensures Current(v.disk)[v.archives[i].file] == v.archives[i].ino
  {
    assert ArchiveOk(n, v, v.archives[i]) && ArchiveOk(n, v, v.archives[j]);
    NameMade(n, v.archives[i].time, v.archives[i].file);
    NameMade(n, v.archives[j].time, v.archives[j].file);
    N.NamesSort(n.stem, n.ext, n.stamp, v.archives[i].time, v.archives[j].time);
    ArchiveShape(n, v.archives[i]);
    ArchiveNotActiveName(n, v, v.archives[i]);
  }
}
