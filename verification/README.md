# A verified model of the c-logger core

This project models, in Dafny, the parts of the C logging library whose safety depends on
several functions at once, and proves what those parts promise. It covers five cores:

- **The asynchronous path.** A bounded multi-producer, single-consumer ring with per-slot
  sequence numbers, a bitmap pool of spill blocks for long texts, the arm/probe/claim
  protocol around the worker's sleep, batches, direct emissions, flush, and the counters.
  `Ring`, `Wakeup` and `Output` are machines of interleaved atomic steps for any number of
  threads; copies into slots and blocks are not atomic and may expose arbitrary bytes while
  they run. `Pipeline` runs the three side by side and states their promises over every run.
  `Queue`, `QueueContent` and `SpillPool` are the same code as one thread runs it: classes
  over arrays, with 64-bit counters that wrap around and a bitmap of 32-bit words.
- **The default slot.** `DefaultSlot` has the packed generation/phase ticket, the control
  mutex, the reader/writer lifetime lock, the borrow flag of every logger, the late clear of
  that flag after both unlocks, and poisoning when an unlock fails.
- **The file backend.** `Disk` is a directory whose unsynced operations survive a crash as
  any prefix and whose files keep only their synced bytes for certain. `FileBackend` has the
  backend as a class; every answer of the kernel and the clock comes from an arbitrary
  script. `FileHistory` says what holds between any two kernel calls, so that a crash in the
  middle of an operation is covered, and `FileRun` which promise of a run is whose.
  `ArchiveName` has the archive names, `WriteLoops` the vector loops.
- **The descriptor registry and the lock-order checker.** `ForkFd` is the bitmap with its
  count, the directory lease and the three fork handlers. `LockDep` is the per-thread stack,
  and a machine of any number of threads that use it; `LockOrder` says exactly when its
  checks rule out circular waits.
- **The line formatter and the syslog backend**, `LineFormat` with `Timestamp`, and `Syslog`.

`Bits`, `BitSet` and `Counters` hold machine words, sets kept as bits and wrapping counters
as mathematical objects; `Record` holds log records and their compact form; `Options` is the
optional value and `Focus` a proof device.

All steps are sequentially consistent. Kernel, clock and lock results are arbitrary inputs.
`dafny verify dfyconfig.toml` checks everything.

## What turned out to need a condition

- An empty write to a file that is already larger than the limit succeeds and leaves it so:
  the size limit is checked only for writes that carry bytes
  (`FileBackend.EmptyWriteOnLargeFile`). For every write that carries bytes the bound holds;
  an empty write leaves the size as it was.
- `logger_stderr_writev_all` reports an error for a non-empty vector whose buffers are all
  empty, because a write of zero bytes ends the loop with `EIO`; the file backend skips empty
  buffers first and succeeds (`WriteLoops.StderrWritevAll`, `FileBackend.LoggerFile.Vall`).
- A piece of a line longer than `INT_MAX` that starts while the buffer has room makes the
  print call fail without advancing the line: the piece vanishes, later pieces take its
  place, and unless they fill the buffer the newline stands before the marker
  (`LineFormat.LongNameIsLost`, `LineFormat.LongPiecesVanish`, `LineFormat.MarkerInPlace`).
  Without such a piece the bounded appends equal one truncation.
- The lock-order checker sees one thread at a time. Checked runs never end in a circle exactly
  when the locks, under the classes the program uses them with, cannot be walked in a circle
  (`LockOrder.CircleExactly`); one rank for every lock is enough for that
  (`LockOrder.OneRankIsEnough`), and a lock used at two ranks can break it
  (`LockDep.OneClassIsNeeded`).
- A registered descriptor is not handed out exactly when the gate let the caller in, the
  registration succeeded and the gate could not be left: then it stays open and registered,
  and the registry is closed for good (`ForkFd.Registry.Acquire`, `ForkFd.LeakedDescriptor`).

## Model

| member | source | states |
|---|---|---|
| `Pipeline.StepKeeps` | src/logger_worker.c:319-464 | every step of every thread, in any interleaving of push, pop, sleep, wake, emission and flush, keeps the invariant of the whole path |
| `Pipeline.RunInv` | src/logger_worker.c:319-464 | every state of every run satisfies that invariant |
| `Pipeline.DeliveryInEveryRun` | src/logger_queue.c:428-495 | in every run the worker has received exactly the messages of the first positions, in reservation order, each once, the text exact and the source strings cut to their storage |
| `Pipeline.RingInEveryRun` | src/logger_queue.c:428-495 | in every run no two producers write one slot and no two own one spill block |
| `Pipeline.NoLostWakeupInAnyRun` | src/logger_worker.c:373-434 | with pthread calls that succeed, a worker asleep on a published record, or after the stop, always has a thread that still owes the signal, and at most five steps of such threads wake it |
| `Pipeline.FlushIsBarrierInEveryRun` | src/logger.c:1159-1289 | a thread that takes its snapshot in one step of a run and returns 0 from that flush in a later step finds, from then on, every position reserved before the snapshot popped as expected, handed to every selected output and not marked failed |
| `Pipeline.FlushKeepsSnapshot` | src/logger.c:1159-1220 | the target of a flush is the reservation counter at the moment it looked, and no step of any thread changes it within the call |
| `Pipeline.AccountsInEveryRun` | src/logger_worker.c:308-340 | emitted plus failed is never below the completions and equals them when no batch and no direct emission is in flight; each accounted record of a batch is in exactly one of the two |
| `Pipeline.DirectCallCountsOnce` | src/logger.c:251-295 | over a whole direct emission the thread adds one to exactly one public counter, and nothing exactly when the formatter rejects a strict record |
| `Pipeline.PublishNeverStuck` | src/logger_queue.c:454-463 | a producer with a packed record can always publish |
| `Pipeline.HeadIsPublished` | src/logger_queue.c:507-515 | the worker's emptiness test sees a record exactly when the next position is reserved and published, outside the two stores of a pop |
| `Ring.StepKeeps` | src/logger_queue.c:428-495 | every atomic step of push and pop keeps slots, sequence numbers, positions, blocks and owners consistent |
| `Ring.InitialInv` | src/logger_queue.c:249-314 | a fresh queue is consistent |
| `Ring.DeliveredInOrder` | src/logger_queue.c:474-495 | what was received is what was sent, in reservation order |
| `Ring.SlotsExclusive` | src/logger_queue.c:448-463 | two producers at work never share a slot, and none has the slot the worker reads |
| `Ring.BlocksExclusive` | src/logger_queue.c:184-247 | a block has one owner, exists, and is marked used |
| `Ring.SequenceTells` | src/logger_queue.c:443-471 | what a slot's sequence number tells a producer about its own position, however stale that position is |
| `Ring.RefusalIsReal` | src/logger_queue.c:464-466 | a push gives up exactly when its position is still the reservation counter and all slots are reserved and unreleased |
| `Ring.RefusalReturnsBlock` | src/logger_queue.c:464-466 | a refused push returns its own block and no other |
| `Ring.DepthBound` | src/logger_queue.c:491-493 | the distance of the counters exceeds the capacity by at most one, and only between the two stores of a pop |
| `Ring.QuietPool` | src/logger_queue.c:184-247 | at rest the number of blocks in use is the number of queued long records |
| `Ring.ModularPush` | src/logger_queue.c:443-471 | the 64-bit tests of push decide like unbounded integers while a stalled position is less than 2^62 behind |
| `Ring.ModularPop` | src/logger_queue.c:474-481 | the 64-bit test of pop and of the emptiness check decides like unbounded integers |
| `Wakeup.StepKeeps` | src/logger_queue.c:350-421 | every step of arm, recheck, wait, probe, claim and signal keeps the sleep invariant |
| `Wakeup.NoLostWakeup` | src/logger_queue.h:112-134 | a sleeping worker with something to do has a thread on its way to the signal |
| `Wakeup.OneThreadWakes` | src/logger_queue.c:350-393 | such a thread, with the mutex free or its own, wakes the worker by itself |
| `Wakeup.WakeupComes` | src/logger_queue.c:350-421 | the worker is woken within five steps of threads that owe the signal or hold the mutex |
| `Output.StepKeeps` | src/logger_worker.c:219-369 | every step of a batch, a direct emission or a flush keeps ledger, counters, sticky errors and flush promises consistent, whatever fails |
| `Output.FlushIsBarrier` | src/logger.c:1236-1289 | every position below a snapshot that a flush ended with successfully stays confirmed by every selected output |
| `Output.GoodIsGathered` | src/logger_worker.c:219-317 | only records already popped are confirmed |
| `Output.AccountsConserved` | src/logger_worker.c:134-217 | the two public counters split the accounted records and the finished direct emissions |
| `Output.DirectCountsOnce` | src/logger_worker.c:134-217 | a direct emission ends after the operation that counted it, or by a strict rejection, and in no other way |
| `Output.ErrorsStick` | src/logger.c:1119-1157 | the first noted error of each kind is never replaced, by no step of the worker, a client or anyone else |
| `Output.ModularFlush` | src/logger.c:1198 | the 64-bit watermark test of a flush decides like unbounded integers while both are less than 2^63 apart |
| `Record.TextLength` | src/logger_record.h:73-87 | the text length is the recorded one when it points at a terminator, else the first terminator found |
| `Record.TextLengthMeaning` | src/logger_record.h:73-87 | the text ends at that length, and the buffer size comes back exactly when there is no terminator |
| `Record.SourceCopy` | src/logger_queue.c:67-78 | the copy fills the buffer with the cut string and a terminator and touches nothing behind it |
| `Record.SourceCutMeaning` | src/logger_queue.c:67-78 | a cut string fits, is the whole string when nothing was lost, and else differs from it only in its last byte, a tilde |
| `Record.BasenameMeaning` | src/logger_queue.c:92-95 | the base name is the longest suffix without a slash |
| `Record.PackUnpack` | src/logger_queue.c:109-172 | a record that went through a slot, and a block when it is long, comes out as expected |
| `Queue.QueueCapacity` | src/logger_queue.c:13-38 | the least power of two, at least two, that holds the request; an error exactly when none within the limits does |
| `Queue.LoggerQueue.Push` | src/logger_queue.c:428-472 | appends the message to the contents, also when the notification then fails, or is refused exactly when the text has no end, a long text finds no block or the ring is full, and then leaves contents and pool alone |
| `Queue.LoggerQueue.TryPop` | src/logger_queue.c:474-495 | takes the first message off the contents and delivers it as expected, and fails exactly on the empty queue |
| `Queue.LoggerQueue.Drain` | src/logger_queue.c:497-505 | delivers the first messages in order, as many as asked for and present |
| `Queue.LoggerQueue.Empty` | src/logger_queue.c:507-515 | tells whether the contents are empty |
| `Queue.LoggerQueue.Depth` | src/logger_queue.c:517-530 | is the number of queued messages across wrap-around |
| `Queue.LoggerQueue.SpillInUse` | src/logger_queue.c:554-569 | the blocks in use are as many as the queued long messages |
| `Queue.SwapIsTake` | src/logger_queue.c:200-222 | a successful compare-and-swap on a bitmap word is the taking step of the ring machine |
| `Queue.ClearIsReturn` | src/logger_queue.c:235-247 | clearing the bit is the returning step of the ring machine, the worker's and a refused producer's |
| `QueueContent.HeadSlot` | src/logger_queue.c:476-481 | the slot at the read position matches exactly when something is queued, and then yields the first message |
| `QueueContent.TailSlot` | src/logger_queue.c:443-471 | the slot at the write position tests as free exactly when there is room, and as smaller exactly when the ring is full |
| `QueueContent.PushContent` | src/logger_queue.c:454-463 | storing a packed record at the write position makes the slots hold one message more |
| `QueueContent.PopContent` | src/logger_queue.c:483-493 | freeing the slot at the read position makes the slots hold the rest |
| `QueueContent.FreeContent` | src/logger_queue.c:491 | the slot's number one lap ahead frees it |
| `QueueContent.WriteBlockHolds` | src/logger_queue.c:214-217 | filling a free block changes no queued message |
| `SpillPool.ValidMaskMeaning` | src/logger_queue.c:174-182 | the mask selects exactly the blocks that exist |
| `SpillPool.TakeInserts` | src/logger_queue.c:200-222 | the swap takes a block that exists and was free, the lowest of its word, and no other |
| `SpillPool.WordIsFull` | src/logger_queue.c:203-205 | a word without an available bit has all its blocks in use |
| `SpillPool.Pool.TryTake` | src/logger_queue.c:184-233 | takes one free block, or finds every block in use and counts an exhaustion |
| `SpillPool.Pool.Put` | src/logger_queue.c:235-247 | removes exactly the given block |
| `SpillPool.Pool.InUse` | src/logger_queue.c:554-569 | counts the blocks in use |
| `Bits.ClearLowest` | src/logger_fork_fd.c:381-384 | `w & (w - 1)` removes exactly the lowest set bit |
| `Bits.IndexOfStored` | src/logger_queue.c:446 | masking a stored position gives the position modulo a power-of-two capacity |
| `Bits.FoldedDistance` | src/logger_queue.c:449-466 | the three tests on an unsigned difference decide order and equality within half the space |
| `DefaultSlot.PackedTickets` | src/logger_global.c:67-82 | packed tickets are equal only when generation and phase are, and parts come back out |
| `DefaultSlot.StepKeeps` | src/logger_global.c:127-355 | every step of setters, readers, poisoning and the host keeps the slot invariant, whatever unlocks fail |
| `DefaultSlot.RunInv` | src/logger_global.c:127-355 | every state of every run satisfies it |
| `DefaultSlot.UseIsSafe` | src/logger_global.c:229-257 | a pinned reader uses the bound logger, which exists, is flagged and cannot be destroyed |
| `DefaultSlot.LateClearIsSafe` | src/logger_global.c:127-156 | when a flag is cleared nobody is pinned on that logger, it is neither bound nor being bound, and no other release of it is pending |
| `DefaultSlot.BorrowFlags` | src/logger_global.c:298-349 | the flag is set while a logger is bound, being bound, or has its release pending |
| `DefaultSlot.NoUseAfterDestroy` | src/logger.c:967-975 | in every run a reader past its checks has a live logger, so its error for a missing one is out of reach |
| `DefaultSlot.RunningHasLogger` | src/logger_global.c:251-255 | in every run a running ticket comes with a logger in the slot: the bound one, alive and flagged |
| `DefaultSlot.FlagsExactly` | src/logger_global.c:298-349 | while no unlock has failed, a flag is set exactly while its logger is bound, being bound, or has its release pending |
| `DefaultSlot.OnlyCommitsCount` | src/logger_global.c:324-349 | only the publishing step of a setter adds to the history of bindings |
| `DefaultSlot.CommitIsCompareAndSwap` | src/logger_global.c:259-355 | a commit replaces what the caller expected, legally, and raises the generation by exactly one |
| `DefaultSlot.NoChangeDuringCommittingCall` | src/logger_global.c:273-349 | no change commits between the first ticket load and the commit of a call, even if the same pointer came back |
| `DefaultSlot.BrokenStays` | src/logger_global.c:93-119 | a poisoned slot stays poisoned and commits nothing |
| `Disk.NamedInEveryPrefix` | src/logger_file.c:682-700 | a durably named file keeps a name after any prefix of the pending directory operations |
| `Disk.KeptSurvives` | src/logger_file.c:404-416 | bytes synced in a durably named file are found whole and in place in every crash image |
| `FileHistory.HistoryAll` | src/logger_file.c:627-727 | at every moment between kernel calls the state is good and extends every earlier one: promises, bytes, archives, archive contents and other entries stay |
| `FileHistory.PromisesSurvive` | src/logger_file.c:863-887 | a promise once made holds in every crash image of every later moment |
| `FileHistory.WholeLogSurvives` | src/logger_file.c:404-416 | once a sync has returned 0, the whole log up to then is found in write order, file after file, in every later crash image |
| `FileHistory.PlaceStays` | src/logger_file.c:676-726 | promised bytes keep their file and their place in the log, also when the file is archived |
| `FileHistory.PlacedNow` | src/logger_file.c:779-806 | bytes at the end of the active file are at the end of the log |
| `FileHistory.ArchivesAreFrozen` | src/logger_file.c:676-726 | an archived file never changes again, keeps its name and its place |
| `FileHistory.ArchivesSurvive` | src/logger_file.c:648-680 | from the moment it is one, an archive is found whole and under a name in every crash image |
| `FileHistory.NameOrder` | src/logger_file.c:639-680 | archives sort by name in the order they were made, are recognized as archives, and are not the active name |
| `FileHistory.ArchivedOk` | src/logger_file.c:676-680 | the archiving rename keeps order, names, promises and earlier archives |
| `FileHistory.CreatedOk` | src/logger_file.c:314-353 | creating the active name keeps all of them |
| `FileHistory.InstalledOk` | src/logger_file.c:356-366 | switching to the file the active name denotes, after a directory sync, keeps all of them |
| `FileHistory.WroteOk` | src/logger_file.c:779-806 | appending to an attached active file keeps all of them |
| `FileRun.PromisedIsFound` | src/logger_file.c:863-887 | the bytes of a write that returned success after a sync are found after a crash at any later moment: at the place of their own promise, in one piece, in a named file, and at their own place in the log |
| `FileBackend.LoggerFile.Run` | src/logger_file.c:404-923 | any run of writes, vector writes, syncs and reopens, with any kernel answers, leaves a good history; the bytes written are those of the operations in order; every synced write that returned 0 has a promise of its own, later than those of earlier operations, for its own bytes at its own place in the log |
| `FileBackend.LoggerFile.Write` | src/logger_file.c:863-887 | writes a prefix of the data, all of it on success; when asked to sync, success adds two promises, for the whole active file and for these bytes at its end; a successful write with bytes stays within the size limit or went into an empty file |
| `FileBackend.LoggerFile.Writev` | src/logger_file.c:889-923 | the same for the concatenated buffers; a wrong total is refused and changes nothing |
| `FileBackend.LoggerFile.Total` | src/logger_file.c:891-907 | the buffers are accepted exactly when their sum is in range |
| `FileBackend.LoggerFile.All` | src/logger_file.c:779-806 | for every schedule of short and interrupted writes a prefix is appended, its exact length reported, success exactly when it is whole |
| `FileBackend.LoggerFile.Vall` | src/logger_file.c:808-850 | the same for vectors, with empty buffers and the limit on buffers per call |
| `FileBackend.LoggerFile.Account` | src/logger_file.c:852-861 | the size saturates |
| `FileBackend.LoggerFile.PrepareWrite` | src/logger_file.c:745-777 | afterwards the file is attached and has room under the size limit or is empty |
| `FileBackend.LoggerFile.Rotate` | src/logger_file.c:627-727 | a successful rotation adds one archive and leaves an empty active file; no failure loses bytes, promises or history |
| `FileBackend.LoggerFile.PickTime` | src/logger_file.c:633-650 | the archive time is valid, on a whole microsecond and after the last archive, for any clock |
| `FileBackend.LoggerFile.Archive` | src/logger_file.c:654-680 | renames to a free name for a time not before the given one, or changes nothing |
| `FileBackend.LoggerFile.SwitchOver` | src/logger_file.c:682-722 | after it the backend is detached or has an empty, durable active file that its name denotes |
| `FileBackend.LoggerFile.Sync` | src/logger_file.c:404-416 | success means attached, nothing pending, everything synced, and promises the whole active file |
| `FileBackend.LoggerFile.Reopen` | src/logger_file.c:418-471 | success attaches, leaves nothing pending and the old file synced; an attached backend keeps its file |
| `FileBackend.LoggerFile.OpenCandidate` | src/logger_file.c:314-353 | yields what the active name denotes; exclusively only a new empty file; no inode changes |
| `FileBackend.LoggerFile.constructor` | src/logger_file.c:368-388 | a backend on an opened or created active file starts a good history |
| `FileBackend.Init` | src/logger_file.c:255-402 | initialization succeeds exactly when all its calls do and the file is not too large to count; a failure leaves the directory alone, up to an empty file under a free name |
| `FileBackend.EmptyWriteOnLargeFile` | src/logger_file.c:755-756 | an empty write succeeds on a file above the limit |
| `WriteLoops.Advance` | src/logger_file.c:837-847 | steps over exactly what was written, shortening the buffer in which it ended |
| `WriteLoops.StderrWritevAll` | src/logger_worker.c:97-132 | emits a prefix; succeeds exactly when everything was emitted, except that a non-empty vector of empty buffers fails |
| `ArchiveName.Matches` | src/logger_file.c:533-559 | accepts exactly the names of the archive shape |
| `ArchiveName.NamesMatch` | src/logger_file.c:515-559 | every generated name has that shape |
| `ArchiveName.NamesFit` | src/logger_file.c:236-237 | under the length rule of path binding a generated name always fits its buffer |
| `ArchiveName.NamesSort` | src/logger_file.c:515-531 | later times give later names |
| `ArchiveName.SplitParts` | src/logger_file.c:240-250 | stem and extension make up the base name, and the extension is the part from the last dot that is not the first character |
| `ForkFd.RegisterInserts` | src/logger_fork_fd.c:123-137 | setting the bit inserts one descriptor |
| `ForkFd.UnregisterRemoves` | src/logger_fork_fd.c:139-143 | clearing the bit removes one descriptor |
| `ForkFd.GrownSame` | src/logger_fork_fd.c:89-114 | a longer mapping registers nothing new |
| `ForkFd.ListingExact` | src/logger_fork_fd.c:374-390 | taking lowest bits word by word lists exactly the registered descriptors, each once, in rising order |
| `ForkFd.Registry.GrowFor` | src/logger_fork_fd.c:89-114 | makes room for the descriptor, or changes nothing exactly when room is missing and the mapping fails |
| `ForkFd.Registry.IsOwned` | src/logger_fork_fd.c:116-121 | tells membership, for every integer |
| `ForkFd.Registry.RegisterFd` | src/logger_fork_fd.c:123-137 | succeeds exactly for a new descriptor that the mapping holds or can be made to hold, adds and counts it; one that is already registered closes the registry |
| `ForkFd.Registry.Acquire` | src/logger_fork_fd.c:160-212 | the descriptor is handed out exactly when the gate lets the caller in, the registration succeeds and the gate can be left; it stays registered without an owner exactly when only the last fails; it is closed once exactly when the registration fails |
| `ForkFd.LeakedDescriptor` | src/logger_fork_fd.c:176-178 | a descriptor that is open and registered although nobody got it |
| `ForkFd.Registry.Retire` | src/logger_fork_fd.c:228-234 | removes, closes once, and gives the mapping back exactly when it was the last |
| `ForkFd.Registry.Close` | src/logger_fork_fd.c:214-240 | closes and removes exactly a registered descriptor, behind the gate |
| `ForkFd.Registry.Fdopendir` | src/logger_fork_fd.c:242-270 | succeeds exactly for an admitted, registered descriptor that opens, and then the gate stays held |
| `ForkFd.Registry.Closedir` | src/logger_fork_fd.c:272-299 | ends only the lease it was given for, and then closes and removes its descriptor |
| `ForkFd.Registry.Prepare` | src/logger_fork_fd.c:301-337 | a snapshot is taken exactly when nothing stands in the way, and is the registry |
| `ForkFd.Registry.Parent` | src/logger_fork_fd.c:339-359 | nested calls only count; the last one leaves the gate |
| `ForkFd.Registry.Child` | src/logger_fork_fd.c:361-398 | after a valid snapshot the child closes exactly the parent's set, each once, and reports the first failure; otherwise it closes nothing |
| `LockDep.HeldLocks.CheckAcquire` | src/logger_lockdep.c:83-101 | accepts exactly the permitted acquisitions |
| `LockDep.HeldLocks.Acquire` | src/logger_lockdep.c:103-109 | pushes a permitted lock and nothing else |
| `LockDep.HeldLocks.Release` | src/logger_lockdep.c:111-127 | pops exactly the top lock |
| `LockDep.HeldLocks.Abandon` | src/logger_lockdep.c:129-141 | removes the lowest matching entry and closes the gap |
| `LockDep.TopIsEnough` | src/logger_lockdep.c:62-101 | a lock that may follow the top ranks above everything held |
| `LockDep.AbandonKeepsRanks` | src/logger_lockdep.c:129-141 | removing any entry keeps the ranks rising |
| `LockDep.DepthBound` | src/logger_lockdep.c:99-100 | at most five locks are held, so the limit of 16 is never met |
| `LockDep.StepKeeps` | src/logger_lockdep.c:83-141 | every request, grant, release and abandonment keeps the threads ranked |
| `LockDep.NoCircularWait` | src/logger_lockdep.c:62-101 | no thread waits for itself over any chain of others |
| `LockDep.SomeoneRuns` | src/logger_lockdep.c:62-101 | from every thread the waits lead to one that waits for nobody |
| `LockDep.RunInv` | src/logger_lockdep.c:83-141 | every state of every checked run with one rank per lock satisfies the premise of both |
| `LockDep.OneClassIsNeeded` | src/logger_lockdep.c:83-101 | a checked run with two ranks per lock that ends in a circle |
| `LockOrder.CircleExactly` | src/logger_lockdep.c:62-101 | checked runs with given uses of locks can end in a circle if and only if the locks can be walked in a circle |
| `LockOrder.CircleNeedsWalk` | src/logger_lockdep.c:83-101 | a circle of waits at the end of a checked run gives a walk that comes back |
| `LockOrder.WalkMakesCircle` | src/logger_lockdep.c:83-101 | a walk that comes back gives a checked run that ends in a circle, with every lock held by one thread only |
| `LockOrder.OneRankIsEnough` | src/logger_lockdep.c:62-81 | with one rank per lock no walk comes back |
| `LockOrder.UsageInEveryRun` | src/logger_lockdep.c:83-141 | in every checked run whatever a thread holds reaches whatever it took or asked for later |
| `LineFormat.LineBuffer.Append` | src/logger_format.c:36-67 | one append does what the specification of a bounded append says, text, mark and error |
| `LineFormat.MarkTruncated` | src/logger_record.h:15-26 | the marker, or a tilde, covers the tail of a full text |
| `LineFormat.FormatLine` | src/logger_format.c:184-239 | given the conversions, the buffer holds the built line with its mark, a newline and a terminator, or an error is returned |
| `LineFormat.Format` | src/logger_format.c:241-267 | after an error the buffer holds the empty string |
| `LineFormat.OneTruncation` | src/logger_format.c:36-67 | the bounded appends equal cutting the ideal line once |
| `LineFormat.OrdinaryLine` | src/logger_format.c:241-253 | for every capacity of at least two: the full line, or its first bytes with the marker over the tail, and a newline |
| `LineFormat.StrictIsWhole` | src/logger_format.c:255-267 | the strict form yields the full line, or an overflow exactly when something does not fit |
| `LineFormat.RecordLine` | src/logger_format.c:188-239 | the ordinary form for the pieces of a record |
| `LineFormat.StrictRecordLine` | src/logger_format.c:188-239 | the strict form for the pieces of a record |
| `LineFormat.FormatRecord` | src/logger_format.c:133-267 | the strict form succeeds exactly for a valid fraction of a second, the text of a real moment and a line that fits, and then is the whole line of the asked second; the ordinary form is the built line |
| `Timestamp.CanonicalTime` | src/logger_format.c:82-131 | accepts exactly a valid cache with the text of a real calendar moment |
| `Timestamp.CanonicalExactly` | src/logger_format.c:82-131 | a text is that of a real moment exactly when it has the shape and its fields are in range |
| `Timestamp.RenderParse` | src/logger_format.c:82-131 | a real moment is read back from its text |
| `LineFormat.PiecesHaveText` | src/logger_format.c:188-232 | every piece of a record has some text |
| `LineFormat.TimestampCache.Refresh` | src/logger_format.c:146-175 | the cached text is that of the second asked for, or the visible fallback when the calendar fails |
| `LineFormat.LongPiecesVanish` | src/logger_format.c:47-54 | the outcome for all texts, with pieces too long for one print call left out |
| `LineFormat.MarkerInPlace` | src/logger_format.c:234-238 | with such a piece the mark is in place exactly when the other pieces fill the buffer |
| `LineFormat.LongNameIsLost` | src/logger_format.c:47-54 | a line that lost a long name without a visible mark |
| `Syslog.PriorityIsSum` | src/logger_syslog.c:25-29 | the value is facility plus severity and both can be read back, as section 4.1.1 of RFC 3164 defines it |
| `Syslog.PackedWhole` | src/logger_syslog.c:274-296 | a datagram is the prefix and the line without its newline, within its buffer |
| `Syslog.AttemptsApart` | src/logger_time.h:20-34 | on a clock that does not run backwards, attempts are an interval apart |
| `Syslog.SyslogBackend.Write` | src/logger_syslog.c:260-354 | every record is counted once, as sent or failed; it is delivered whole and once exactly on success, with at most four sends and one connection attempt |
| `Syslog.SyslogBackend.Run` | src/logger_syslog.c:260-354 | over any run the counts add up, and between two connection attempts some reading lies at or after the earlier one and an interval before the later one |
| `Syslog.SyslogBackend.CountersAddUp` | src/logger_syslog.c:249-258 | the stored counters add up in 64 bits |
| `Syslog.SyslogBackend.Connect` | src/logger_syslog.c:140-182 | one attempt, after the interval has passed, connects or leaves the backend without a socket |
| `Syslog.SyslogBackend.Reread` | src/logger_syslog.c:294-307 | a reading that ran backwards, or the first after a failed one, starts the cooling-off period anew |
| `Syslog.SyslogBackend.SendLoop` | src/logger_syslog.c:328-346 | at most four sends, repeated only after an interruption, and delivery exactly on success |
| `Syslog.SyslogBackend.Disconnect` | src/logger_syslog.c:347-352 | the socket is gone and a new cooling-off period begins |

## Left out

- C11 weak memory orders: all steps are sequentially consistent.
- Failing pthread calls in the wakeup claim: the code then closes the queue on purpose and promises no progress. They are modelled everywhere else.
- Retention: the deletion of old archives after a rotation. Crash safety is stated with retention off.
- Character devices as log files, and the path binding itself apart from the split of the name: every modelled file is a managed regular file.
- Changes to the directory by other processes, a rename that fails after it was performed, and a sync that reports success without making the bytes durable.
- Calendar formatting: archive stamps are an arbitrary function that is fixed in width and sorts by time, and local days are an arbitrary function of the second.
- Endless interruption: a script of kernel answers is finite and then succeeds, so any number of interruptions is covered but not infinitely many.
- Null pointers for data buffers in the file backend: a sequence of bytes is never null.
- The failing paths of syslog initialization: its constructor is the path that connects or defers the first connection.
- What a failing print call leaves behind the end of the line: it never becomes part of the line.
- Masking of SIGPIPE, cancellation, errno saving and thread-local scope flags.
- The console, process admission, runtime mappings, constructor rollback and teardown, configuration checks, redaction and the metric getters.
- Metrics of the file backend, and of syslog all but the counters that the laws speak of.
- `LockDep`: waits on conditions are not edges of the waits-for graph.
- `Queue.LoggerQueue`: one thread at a time; its concurrent form is the ring machine.
- Ring.ModularPush: assumes that a stalled producer's position is less than 2^62 behind, which is the staleness bound the modular tests need.
- ForkFd.Registry.Child: the child's use of the registry after the fork is not modelled, because the mapping of the parent is gone there.
