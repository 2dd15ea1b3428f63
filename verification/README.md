# Verification of monaka-fs

A Dafny model of the parts of monaka-fs that are hardest to get right, with
proofs about it.

* **Sync protocol** (`LockRecord`, `ObjectStore`, `SyncProtocol`, `NoLostUpdate`,
  `QueuedDeletes`, `LockChanges`, `LockTakeover`, `LeaseTiming`, `LeaseExclusion`,
  `ZeroLease`, `AppendJournal`, `AppendSessions`, `SharedClose`, `LostResponse`,
  `OutboundQueue`, `LocalWrites`, `LostWrites`, `Pushes`, `Downloads`, with the shared
  `ControlFlow`, `SoloRuns` and `RequestRuns`). Several instances share a bucket whose only atomic operation is a
  conditional PUT or DELETE (`If-Match` and `If-None-Match`, sections 13.1.1 and
  13.1.2 of RFC 9110; an `If-Match` PUT on a missing key answers NotFound, as the
  in-memory store does). `SyncProtocol` is a transition system: an instance is idle
  or about to make one store request, instances interleave at every request, and
  the environment chooses clock readings, faults and the order hash maps are walked
  in. Properties are about every run; `Pushes` and `Downloads` say of single calls,
  with the others interleaved at every request, what they answer and what they leave
  in the bucket and locally. An entity tag is injective on content.
* **Sync manager loops** (`SyncManager`). Queue, batch flush and poll as a class
  over a bucket with injected faults.
* **In-memory filesystem** (`BlockStorage`, `FileSystem`, `Fs`, `FileTree`,
  `FileRename`, `FileCalls`, `FileReplies`, `FilePositions`, `FilePromises`,
  `FilePaths`, `Snapshot`).
  `FileSystem` has one function per call on a value; the class `Fs` walks paths and
  updates its tables in place and is proved to compute these functions; the other
  files prove what they guarantee over every sequence of calls. `BlockStorage` is the
  class over sparse 4 KiB blocks, proved against a flat byte sequence.
* **RPC server** (`RpcServer`, `RpcOpens`, `ServerContext`): descriptor, flag and
  session maps, the lease references they hold, and what an open registers and finds.
* **RPC adapter** (`RpcAdapter`, `AdapterStreams`, `ReadAhead`): deferred close,
  buffered output, read-ahead input.
* **Embedding** (`Embed`): LEB128 (section 5.2.2 of the WebAssembly Core
  Specification), section headers and the splice that replaces a section.

Inputs from outside become parameters: clocks, store faults, what the sync layer
answered, whether the connection worked, the order a hash map is walked in.

## Where the code and its promises differ

* `read` of a file grown by truncation stops at the last block slot
  (`ReadIsComplete`, `GrownFileReadsShort`); a snapshot heals it (`RoundTrip`).
* `rename` into the source's own subtree is accepted and cuts the subtree off
  (`RenameIntoItself`, `RenameDelivers`); the tree invariant still holds.
* An open with O_CREAT and O_TRUNC for reading only fails after creating the file
  (`FailuresChangeNothing`, `FailedOpenLeavesEmptyFile`).
* O_EXCL is documented to fail on an existing file; no open ever checks it
  (`ExclusiveIsIgnored`, `ExclusiveKeptIff`, `ExclusiveOpensExisting`).
* A comment says an unlinked inode is cleaned up with its last reference; the inode
  table keeps it for good (`UnlinkedInodeStays`, `InodesAreForever`).
* `verify_upload_landed` takes any changed tag for its own. No update is lost exactly
  as long as what it finds is its own (`RunGrounded`, `NoUpdateIsLost`); one lost
  response and a second writer are enough to lose one (`OneFaultLosesAnUpdate`).
* While opens of one path by one instance share a lease, only the last close pushes,
  and the Ok of an earlier one promises nothing (`OkMeansStored`,
  `SharedCloseLosesRecord`).
* A lease of zero seconds is accepted and excludes nobody (`ZeroLeaseIsShared`).
* A write open whose local open fails keeps its lease reference until shutdown
  (`LeasesAreCounted` counts it).
* An empty read of an input stream can report Closed before the end of the file
  (`EmptyReadCloses`).
* A queued delete is flushed without a lease check, and without a condition when
  the tag is unknown (`SafeIffConditional`, `UnseenIsDeletedUnderLease`).
* A queued upload that fails during `on_open_write` is dropped from the queue and
  not queued again (`FailedOpenForgetsWrite`), a read-through refresh overwrites a
  write still queued (`ReadThroughLosesWrite`), a flush takes another writer's object
  for its own upload and returns Ok (`ForeignObjectDropsWrite`), and a conflict met
  by a flush drops a write with a log line only; `WritesSurvive` has the exact list.
* `force_flush` with a batch size of zero never ends (`FlushRounds`).

## Model

| member | source | states |
|---|---|---|
| `AppendSessions.ContentIsConcatenation` | crates/sync/vfs-sync-core/src/sync_manager.rs:414-656 | for any number of instances running open-append-fsync-close sessions, overlapping opens included, under any interleaving, clocks and expiries, over a store that fails only by rejecting conditions: the object is exactly the initial content followed by the records of the sessions (each a hold from first open to last close, or a part of one that an fsync ends) whose fsync or last close returned Ok, in the order of their PUTs, each once |
| `AppendSessions.OkMeansStored` | crates/sync/vfs-sync-core/src/sync_manager.rs:459-588 | when a close returns Ok and something was appended since the hold began or was last pushed, that is in the object if and only if the close gave up the last reference; a close that leaves other opens sends nothing |
| `AppendSessions.FsyncOkMeansStored` | crates/sync/vfs-sync-core/src/sync_manager.rs:591-656 | when an fsync under a lease that had something to push returns, that is in the object if and only if it returned Ok; either way the hold goes on with nothing unsent |
| `SharedClose.SharedCloseLosesRecord` | crates/sync/vfs-sync-core/src/sync_manager.rs:566-588 | a run without any failure in which a close returns Ok, the lease then runs out, and the last close meets a conflict: the record never reaches the object and is left nowhere |
| `AppendSessions.PlayFits` | crates/sync/vfs-sync-core/src/sync_manager.rs:459-645 | the invariant behind it, kept by every event of every run: each instance is where its session says, and the log of landed records spells the object |
| `AppendJournal.StepKeeps` | crates/sync/vfs-sync-core/src/sync_manager.rs:414-645 | each event of a disciplined run keeps the journal invariant |
| `NoLostUpdate.NoUpdateIsLost` | crates/sync/vfs-sync-core/src/sync_manager.rs:181-314 | in every run, with any faults, in which no HEAD after a lost response finds another writer's body: every accepted PUT stores the instance's own local body and creates the object or replaces exactly the version that instance last downloaded or uploaded, and only an accepted PUT makes a file appear or change |
| `NoLostUpdate.RunGrounded` | crates/sync/vfs-sync-core/src/sync_manager.rs:289-375 | every state of a run has all cached tags, lease bases and pending conditions on versions the instance last synced if and only if no HEAD of the run found a foreign body |
| `NoLostUpdate.VerifyGroundedIff` | crates/sync/vfs-sync-core/src/sync_manager.rs:289-314 | the HEAD after a lost response keeps that grounding exactly when the body it takes for its own is its own |
| `NoLostUpdate.ReliableLosesNothing` | crates/sync/vfs-sync-core/src/sync_manager.rs:214-283 | over a store that fails only by rejecting conditions that never arises, so no PUT replaces an unseen version |
| `QueuedDeletes.DeletesRemoveSeen` | crates/sync/vfs-sync-core/src/sync_manager.rs:591-622 | in the same runs only a delete of its path makes a file disappear, and a delete that carries a condition takes away exactly a version its instance once downloaded or uploaded (the other half, that a delete made under a lease or queued is sent and takes effect, is `LeasedDeleteReachesStore` and `QueuedDeleteReachesStore`) |
| `QueuedDeletes.SafeIffConditional` | crates/sync/vfs-sync-core/src/sync_manager.rs:913-917 | a queued delete removes only the version it was queued for, whatever the bucket holds, exactly when it carries a condition |
| `QueuedDeletes.UnseenIsDeletedUnderLease` | crates/sync/vfs-sync-core/src/sync_manager.rs:136-153 | a run without any failure in which an instance that never saw an object deletes it by a queued delete while another instance holds its lease |
| `LocalWrites.WritesSurvive` | crates/sync/vfs-sync-core/src/sync_manager.rs:122-153 | in every run, with any faults: every request leaves the bytes its instance has written and not yet stored either in the store, or in place and queued, on a dirty lease or being uploaded, if and only if none of the listed requests happens: a refresh or read-through that finds other bytes, an upload given up by an open, a HEAD that takes another writer's object for the upload, a conflict the queue drops, the release of a lease whose push failed |
| `LocalWrites.AdvanceKeepsIff` | crates/sync/vfs-sync-core/src/sync_manager.rs:214-563 | the same of each single request, from its guard; stored means that the bucket holds the bytes after it |
| `LostWrites.ReadThroughLosesWrite` | crates/sync/vfs-sync-core/src/sync_manager.rs:383-412 | a run without any failure in which a read-through refresh overwrites a write still in the queue and returns Ok |
| `LostWrites.FailedOpenForgetsWrite` | crates/sync/vfs-sync-core/src/sync_manager.rs:509-545 | a run in which an open takes a queued upload out of the queue, gets no answer for it, fails and does not queue it again |
| `LostWrites.ForeignObjectDropsWrite` | crates/sync/vfs-sync-core/src/sync_manager.rs:289-303 | a run in which a flush gets no answer for its PUT, finds another writer's new object, takes it for its own and returns Ok: the write was in the store at no point and is queued nowhere |
| `LockChanges.LocksChangeLawfully` | crates/sync/vfs-sync-core/src/lease.rs:200-379 | with any faults and any initial lock objects: every change to a lock object is a create from absent, a renewal or delete of the instance's own record, a takeover with epoch 1 of an object that does not parse, or a takeover of a record expired at the reading the taker's pending PUT remembers; nobody deletes another's record |
| `LockTakeover.TakerSawExpiry` | crates/sync/vfs-sync-core/src/lease.rs:215-290 | a readable record of another instance is replaced only by an instance that earlier in the run read that very record while its own clock showed it expired |
| `LockTakeover.AcquireHasSeen` | crates/sync/vfs-sync-core/src/lease.rs:215-290 | what an acquire is about to replace it has read from the store, at the clock reading it remembers |
| `LockChanges.TakeoverRaisesEpoch` | crates/sync/vfs-sync-core/src/lease.rs:200-330 | a takeover writes a higher epoch than it replaces exactly when that was not the largest 64-bit number |
| `LockChanges.RunIsOwned` | crates/sync/vfs-sync-core/src/lease.rs:183-379 | in every reachable state every tag an instance would use to renew, release or verify is that of a record with its own name and path |
| `LeaseExclusion.HoldersExclude` | crates/sync/vfs-sync-core/src/sync_manager.rs:566-588 | one clock, ticks at most half a lease apart, lease above zero: no held record is ever expired, no two instances hold one path, no renewal is refused, and the push a close makes happens while the lock is still held |
| `LeaseExclusion.TimedRunSound` | crates/sync/vfs-sync-core/src/sync_manager.rs:719-763 | the timed invariant of every such run: what an instance holds is exactly the set of lock objects with its name, each living past its next tick |
| `LeaseTiming.TimedExecSound` | crates/sync/vfs-sync-core/src/sync_manager.rs:719-763 | each event of a timely run keeps the timed invariant: the acting instance and every other |
| `LeaseTiming.DuePathsCoverDue` | crates/sync/vfs-sync-core/src/lease.rs:132-140 | the renewal filter leaves out no leased path that is due |
| `ZeroLease.ZeroLeaseIsShared` | crates/sync/vfs-sync-core/src/lease.rs:71-74 | with a lease of zero, which the configuration accepts, two instances that open one path in turn both hold it |
| `LostResponse.HeadRecoversBase` | crates/sync/vfs-sync-core/src/sync_manager.rs:214-314 | sole writer of a leased path whose base matched: after a PUT of unknown outcome and a successful HEAD, the recorded base is the tag of the object there now, or none if there is none, whether or not the PUT landed |
| `LostResponse.OneFaultLosesAnUpdate` | crates/sync/vfs-sync-core/src/sync_manager.rs:289-314 | the recovery is sound for a sole writer only: a run with one lost response and a second writer in which a later PUT overwrites a version its writer never saw |
| `LostResponse.OneFaultScenario` | crates/sync/vfs-sync-core/src/sync_manager.rs:289-314 | that run, from any two idle instances that share a version of any file |
| `OutboundQueue.QueuesStayInOrder` | crates/sync/vfs-sync-core/src/sync_manager.rs:122-153 | in every run, faults included, each queue holds at most one operation per path and no upload of a leased path |
| `OutboundQueue.FlushNextInOrder` | crates/sync/vfs-sync-core/src/sync_manager.rs:850-868 | in such a queue the arm of the flush that skips leased uploads is never taken |
| `OutboundQueue.PollNeverTouches` | crates/sync/vfs-sync-core/src/sync_manager.rs:961-1045 | in every run no request of a poll changes the local bytes of a path that is leased or has a pending operation |
| `Pushes.LeasedDeleteReachesStore` | crates/sync/vfs-sync-core/src/sync_manager.rs:591-622 | an instance that holds a path with one reference and unlinks it, then closes, fsyncs or releases it, with any events of the others before, between and after, and any faults: if the lease had no base the call returns Done; otherwise it returns Done if and only if its first request was answered and the path was absent from the bucket when that took effect. An answered request always leaves the base version gone; a changed object stays as it was, the call returns Conflict, and if the next request is answered the local copy is the object. At most six requests, and the lease survives exactly an fsync |
| `Pushes.LeasedWriteReachesStore` | crates/sync/vfs-sync-core/src/sync_manager.rs:214-283 | the same for a write, over a store that answers: Done with the body stored over the base version, or over nothing, by the one request the table of `StoredBy` names; otherwise Conflict, nothing changed in the bucket by the requests up to the download, and the object in the way as the local copy |
| `Pushes.UnleasedPushReachesStore` | crates/sync/vfs-sync-core/src/sync_manager.rs:181-212 | the same for a push or an fsync without a lease, on condition of the cached version or of there being none |
| `Pushes.QueuedWriteReachesStore` | crates/sync/vfs-sync-core/src/sync_manager.rs:850-908 | the same for a write queued without a lease and then flushed, where a conflict is not reported |
| `Pushes.QueuedDeleteReachesStore` | crates/sync/vfs-sync-core/src/sync_manager.rs:913-946 | a queued delete that is flushed removes the version it was queued for, or whatever is there if none was known; any other version stays in the bucket and becomes the local copy again |
| `Downloads.OpenAdopts` | crates/sync/vfs-sync-core/src/sync_manager.rs:459-563 | an open for writing that returns Done, whatever the others and the store do, holds one clean lease whose base is the object its last request met, with that object as the local copy; any other answer leaves leases and local copies alone. Over a store that answers, a lock found free that nobody takes in between is had within four requests, and a held one is Busy when the time is up |
| `Downloads.PollMatches` | crates/sync/vfs-sync-core/src/sync_manager.rs:969-1078 | a poll while the files in the bucket stay the same, with the events of the others interleaved: every path ends as the object, gone, or untouched if leased or pending, after one request for the listing and at most one per listed path |
| `Downloads.SecondPollIsIdle` | crates/sync/vfs-sync-core/src/sync_manager.rs:969-1056 | another poll after that leaves the instance exactly as it is |
| `SyncManagers.SyncManager.EnqueueUpload` | crates/sync/vfs-sync-core/src/sync_manager.rs:122-133 | replaces any operation on the path by one upload at the end, or marks the lease dirty; keeps the queue order invariant |
| `SyncManagers.SyncManager.EnqueueDelete` | crates/sync/vfs-sync-core/src/sync_manager.rs:136-153 | same for a delete, which takes the cached tag along |
| `SyncManagers.SyncManager.UploadWithCond` | crates/sync/vfs-sync-core/src/sync_manager.rs:214-283 | without faults: rejected exactly when the object does not meet the condition, failed exactly when there is no local copy, otherwise the local body is stored (an object that has gone is created anew), its tag cached and the lease rebased; no other path is touched |
| `SyncManagers.SyncManager.RefreshLocal` | crates/sync/vfs-sync-core/src/sync_manager.rs:344-375 | the local copy, the cached tag and the lease base become the remote ones, or the tag and the base go if there is no object; no other path changes |
| `SyncManagers.SyncManager.FlushDelete` | crates/sync/vfs-sync-core/src/sync_manager.rs:913-946 | a conditional delete, or an unconditional one without a tag; a lost condition restores the remote version |
| `SyncManagers.SyncManager.FlushOutbound` | crates/sync/vfs-sync-core/src/sync_manager.rs:850-908 | a result counts min(batch, queue length) operations taken from the front, all carried out; an error leaves exactly the operations after the failed upload, with that upload at the end; paths not queued are untouched |
| `SyncManagers.SyncManager.ForceFlush` | crates/sync/vfs-sync-core/src/sync_manager.rs:838-848 | with a batch of at least one or an empty queue it terminates; Ok is the initial queue length with the queue empty and every operation carried out; an error leaves a shorter or equal non-empty queue |
| `SyncManagers.SyncManager.FlushRounds` | crates/sync/vfs-sync-core/src/sync_manager.rs:838-855 | with a batch of zero any number of rounds of that loop leaves the queue as it was, so it never ends on a queue that is not empty |
| `SyncManagers.SyncManager.PollInbound` | crates/sync/vfs-sync-core/src/sync_manager.rs:969-1056 | never changes a leased or pending path; without faults and with cached tags matching local copies, everything else ends equal to the bucket, and a second poll downloads and deletes nothing |
| `SyncManagers.SyncManager.DownloadListed` | crates/sync/vfs-sync-core/src/sync_manager.rs:986-1018 | the download loop: each listed path that is neither leased nor pending ends with the object's bytes and tag |
| `SyncManagers.SyncManager.DeleteUnlisted` | crates/sync/vfs-sync-core/src/sync_manager.rs:1020-1036 | the deletion loop: no cached path outside the listing is left, except leased and pending ones |
| `SyncManagers.FileBucket.PutFile` | crates/sync/vfs-sync-core/src/testing.rs:238-258 | the store changes as the compare-and-swap specification says, with at most one injected fault consumed |
| `SyncManagers.FileBucket.DeleteFile` | crates/sync/vfs-sync-core/src/testing.rs:260-281 | same for a conditional delete |
| `SyncManagers.FileBucket.ListFiles` | crates/sync/vfs-sync-core/src/testing.rs:179-203 | lists every file exactly once |
| `LockRecords.RoundTrip` | crates/sync/vfs-sync-core/src/lease.rs:35-69 | parse inverts encode exactly when both names are trimmed and free of newlines and both numbers fit 64 bits |
| `LockRecords.ParseYieldsRepresentable` | crates/sync/vfs-sync-core/src/lease.rs:45-69 | whatever the text, a parsed record is one that round-trips |
| `LockRecords.ParseLoop` | crates/sync/vfs-sync-core/src/lease.rs:45-69 | the line-by-line loop computes the specification of parse, unknown lines ignored and later lines winning |
| `ObjectStores.FileKeyRoundTrip` | crates/sync/vfs-sync-core/src/object_store.rs:53-82 | listing a file key gives back the path, as a file, exactly when the path is canonical |
| `ObjectStores.DirMarkerRoundTrip` | crates/sync/vfs-sync-core/src/object_store.rs:58-82 | the marker key of a canonical path is listed as that directory |
| `ObjectStores.NamespacesDisjoint` | crates/sync/vfs-sync-core/src/object_store.rs:53-82 | file keys, marker keys and lock keys never collide, and different canonical paths have different keys of each kind |
| `BlockStorages.PlayIsFlat` | crates/core/fs-core/src/storage.rs:19-147 | after any mix of writes and truncations the bytes are those of a flat file (the latest change covering each byte), bytes past the slots are zero, and there are at most ceil(size/4096) slots |
| `BlockStorages.ReadIsComplete` | crates/core/fs-core/src/storage.rs:19-65 | a read returns the flat bytes exactly when it does not reach past both its offset and the last slot; otherwise it is short |
| `BlockStorages.GrownFileReadsShort` | crates/core/fs-core/src/storage.rs:31-33 | a file grown from empty to one byte has size 1 and reads as empty |
| `BlockStorages.BlockStorage.Read` | crates/core/fs-core/src/storage.rs:19-65 | fills the buffer with the flat bytes up to min(size, slots*4096) and leaves the rest of it alone |
| `BlockStorages.BlockStorage.Write` | crates/core/fs-core/src/storage.rs:67-107 | the flat bytes are overwritten from the offset, zeros filling any gap; allocated bytes past the size stay zero |
| `BlockStorages.BlockStorage.Truncate` | crates/core/fs-core/src/storage.rs:113-147 | the flat bytes are cut or zero-extended; what was cut is zero if the file grows again |
| `FileTree.RunKeeps` | crates/core/fs-core/src/fs.rs:340-1288 | in every state reached by any calls: each inode is named by at most one entry, the root by none, no entry dangles, directory flags and sizes agree with contents, every descriptor has its inode |
| `FileTree.StepKeeps` | crates/core/fs-core/src/fs.rs:501-1288 | each call keeps that invariant |
| `FileTree.PathsAreUnique` | crates/core/fs-core/src/fs.rs:1155-1288 | in every reachable state, also after a rename into the source's own subtree, different component lists never resolve to the same inode |
| `FileTree.NamesAreUnique` | crates/core/fs-core/src/fs.rs:340-353 | the same for any table whose entries form a tree |
| `FileRename.RenameMovesPaths` | crates/core/fs-core/src/fs.rs:1155-1288 | a successful rename whose target is not below its source makes every path under the target resolve as it did under the source; every path outside both is unchanged; nothing is left under the source |
| `FileRename.RenameDelivers` | crates/core/fs-core/src/fs.rs:1179-1287 | the target then names what the source named if and only if the target is not below the source, which the code does not check; otherwise the subtree is cut off |
| `FileRename.RenameIntoItself` | crates/core/fs-core/src/fs.rs:1179-1287 | any directory can be renamed to a free name inside itself: the call succeeds, and afterwards neither the old nor the new path leads anywhere |
| `FileRename.RenameOntoAncestorFails` | crates/core/fs-core/src/fs.rs:1215-1232 | no rename replaces a directory on the path to its source |
| `FileRename.DescriptorsOutliveNames` | crates/core/fs-core/src/fs.rs:982-1034 | over any sequence of renames, overwrites by rename, unlinks and other calls on names, an open descriptor keeps its handle, its file and the answer to every read |
| `FileRename.NamesKeepFiles` | crates/core/fs-core/src/fs.rs:905-1034 | no call on names changes a file's inode or an open descriptor |
| `FileCalls.FailuresChangeNothing` | crates/core/fs-core/src/fs.rs:501-1288 | a failing call changes nothing at all if and only if it is not an open with O_CREAT and O_TRUNC, read-only, of a free name in an existing directory |
| `FileCalls.FailedOpenLeavesEmptyFile` | crates/core/fs-core/src/fs.rs:525-572 | such an open leaves a new empty file at its path and no other path, and no descriptor |
| `FileCalls.MkdirPAllOrNothing` | crates/core/fs-core/src/fs.rs:939-980 | fails exactly when some prefix is a file, and then changes nothing; otherwise every prefix is a directory, old paths are unchanged and no other path appears |
| `FileCalls.RemovalTakesOnePath` | crates/core/fs-core/src/fs.rs:982-1153 | a successful unlink or rmdir takes away exactly its path |
| `FileCalls.CreateAddsPath` | crates/core/fs-core/src/fs.rs:355-389 | a new entry names the new inode and adds no other path |
| `FileCalls.OpenNamesItsFile` | crates/core/fs-core/src/fs.rs:501-589 | a successful open gives a fresh descriptor at position 0 of the inode the path now names, disturbs no other descriptor or path, and leaves the file as it was unless it created or truncated it |
| `FileReplies.OpenReplyIs` | crates/core/fs-core/src/fs.rs:501-589 | an open by path succeeds if and only if the path is made of slashes, or resolves to an inode that access mode and O_TRUNC do not refuse, or its name is free in an existing directory and O_CREAT may make it; otherwise the error it gives |
| `FileReplies.OpenAtReplyIs` | crates/core/fs-core/src/fs.rs:399-499 | the same relative to a descriptor, with its own refusals: an absolute path, an unknown descriptor, a descriptor of a file, no name |
| `FileReplies.OpenAtNamesItsFile` | crates/core/fs-core/src/fs.rs:399-499 | a successful relative open gives a fresh descriptor at position 0 of the inode the path now leads to from the directory; every other descriptor and file is as before and nothing that could be reached is lost |
| `FileReplies.MkdirMakesDirectory` | crates/core/fs-core/src/fs.rs:905-937 | mkdir succeeds if and only if the name is free in an existing directory; then the path names a new empty directory and every other path resolves as before; otherwise nothing changes and the error says what is in the way |
| `FileReplies.UnlinkReplyIs` | crates/core/fs-core/src/fs.rs:982-1034 | unlink succeeds if and only if the path resolves to a file, and the error otherwise |
| `FileReplies.RmdirReplyIs` | crates/core/fs-core/src/fs.rs:1097-1153 | rmdir succeeds if and only if the path resolves to a directory without entries, and the error otherwise |
| `FileReplies.RenameReplyIs` | crates/core/fs-core/src/fs.rs:1155-1288 | rename succeeds if and only if both paths spell one name, or the source resolves, the directory of the target exists, and what the target names, if anything, may be replaced; and the error otherwise |
| `FilePositions.ReadsAreOneRead` | crates/core/fs-core/src/fs.rs:716-748 | any number of reads of any lengths in a row collect what one read of their sum returns, and leave the descriptor and the filesystem as it does |
| `FilePositions.ReadsContinue` | crates/core/fs-core/src/fs.rs:716-748 | two reads in a row answer together what one read of both lengths answers, with the same state after |
| `FilePositions.ReadContinuesAfter` | crates/core/fs-core/src/fs.rs:752-786 | a read after a positional read continues where that one ended |
| `FilePositions.ReadMoves` | crates/core/fs-core/src/fs.rs:716-786 | a read is a positional read at the position; either answers data exactly on a file open for reading, changes no file, and leaves the descriptor after what it returned |
| `FilePositions.WritesAreOneWrite` | crates/core/fs-core/src/fs.rs:591-634 | any number of writes in a row, with O_APPEND or without, leave files and descriptors as one write of all their data, but for times |
| `FilePositions.WritesFollow` | crates/core/fs-core/src/fs.rs:591-634 | two writes in a row do what one write of both does |
| `FilePositions.WriteContinuesAfter` | crates/core/fs-core/src/fs.rs:638-674 | a write after a positional write follows it |
| `FilePositions.WriteMoves` | crates/core/fs-core/src/fs.rs:591-714 | a write, an append and a positional write differ only in where they take place; each succeeds exactly on a file open for writing and leaves the descriptor after what it wrote |
| `FilePositions.WriteReadsBack` | crates/core/fs-core/src/fs.rs:638-786 | after a write every reading descriptor of the file finds the bytes where they were written, zeros in a gap before them, and everything it could read elsewhere |
| `FilePositions.WriteThenRead` | crates/core/fs-core/src/fs.rs:591-748 | a write, a seek back by its length and a read return what was written |
| `FilePositions.AppendGoesToEnd` | crates/core/fs-core/src/fs.rs:677-714 | with O_APPEND a write goes to the end whatever the position: old bytes stay, the new ones follow the old size |
| `FilePositions.SeekMoves` | crates/core/fs-core/src/fs.rs:853-903 | a seek succeeds exactly with one of the three bases and a result that is not negative, and the next read or write takes place there |
| `FilePositions.FtruncateResizes` | crates/core/fs-core/src/fs.rs:788-808 | afterwards the size is the one asked for; reads are cut at it, or find what they found and zeros behind it |
| `FilePositions.CloseForgets` | crates/core/fs-core/src/fs.rs:810-820 | every later call on the closed descriptor is refused, and no other descriptor has changed |
| `FilePromises.ExclusiveIsIgnored` | crates/core/fs-core/src/fs.rs:399-589 | for every state, path and flags, O_EXCL changes neither the reply nor what an open does, by path or relative to a descriptor |
| `FilePromises.ExclusiveKeptIff` | crates/core/fs-core/src/types.rs:12 | an open by path keeps the promise that O_CREAT with O_EXCL fails on a taken name exactly when it was not asked for, the name is free, or the open is refused for another reason; AlreadyExists is never answered |
| `FilePromises.ExclusiveKeptAtIff` | crates/core/fs-core/src/fs.rs:440-461 | the same for an open relative to a descriptor |
| `FilePromises.ExclusiveOpensExisting` | crates/core/fs-core/src/fs.rs:539-552 | an exclusive create that created a file succeeds again on it |
| `FilePromises.InodesAreForever` | crates/core/fs-core/src/fs.rs:282-303 | no sequence of calls takes an inode out of the table |
| `FilePromises.UnlinkedInodeStays` | crates/core/fs-core/src/fs.rs:1015-1033 | an unlinked file has lost its only name and its inode is still in the table after whatever calls follow |
| `FilePaths.ComponentsRoundTrip` | crates/core/fs-core/src/fs.rs:509-513 | splitting a spelled-out component list gives it back exactly when every component is non-empty and free of slashes |
| `FsObjects.Fs.constructor` | crates/core/fs-core/src/fs.rs:160-187 | the empty filesystem: a root directory, descriptors from 3 |
| `FsObjects.Fs.FindInode` | crates/core/fs-core/src/fs.rs:340-353 | the child of a directory, or why there is none |
| `FsObjects.Fs.CreateInode` | crates/core/fs-core/src/fs.rs:355-389 | a new inode and its entry, refused if the name is taken; tables stay sound |
| `FsObjects.Fs.WalkToParent` | crates/core/fs-core/src/fs.rs:528-537 | the component loop ends at the directory that the whole prefix resolves to, with the same error |
| `FsObjects.Fs.OpenAt` | crates/core/fs-core/src/fs.rs:399-499 | in place, the state and reply of an open relative to a descriptor, all error orders included; `OpenAtReplyIs` and `OpenAtNamesItsFile` say which they are |
| `FsObjects.Fs.OpenPathWithFlags` | crates/core/fs-core/src/fs.rs:501-589 | in place, the state and reply of an open by path; `OpenReplyIs` and `OpenNamesItsFile` say which they are |
| `FsObjects.Fs.WriteCall` | crates/core/fs-core/src/fs.rs:591-634 | position or append, new size and time |
| `FsObjects.Fs.WriteAtCall` | crates/core/fs-core/src/fs.rs:638-674 | writes at the given offset and moves there |
| `FsObjects.Fs.AppendWriteCall` | crates/core/fs-core/src/fs.rs:677-714 | writes at the end whatever the flags |
| `FsObjects.Fs.ReadCall` | crates/core/fs-core/src/fs.rs:716-748 | in place, a read at the position that advances it by what was read; `ReadsAreOneRead` and `ReadMoves` say what that gives a reader |
| `FsObjects.Fs.ReadAtCall` | crates/core/fs-core/src/fs.rs:752-786 | in place, a read at the given offset that moves behind what was read; `ReadContinuesAfter` says what the next read returns |
| `FsObjects.Fs.FtruncateFd` | crates/core/fs-core/src/fs.rs:788-808 | cuts or grows the file and records the size |
| `FsObjects.Fs.CloseFd` | crates/core/fs-core/src/fs.rs:810-820 | forgets exactly this descriptor |
| `FsObjects.Fs.SeekFd` | crates/core/fs-core/src/fs.rs:853-903 | the three bases, refusing other values and negative results |
| `FsObjects.Fs.Stat` | crates/core/fs-core/src/fs.rs:822-845 | metadata of the inode the path resolves to, or the error of the resolution |
| `FsObjects.Fs.MakeDir` | crates/core/fs-core/src/fs.rs:905-937 | in place, the state and reply of a mkdir; `MkdirMakesDirectory` says which they are |
| `FsObjects.Fs.MakeDirs` | crates/core/fs-core/src/fs.rs:939-980 | the loop computes the recursive specification |
| `FsObjects.Fs.UnlinkPath` | crates/core/fs-core/src/fs.rs:982-1034 | in place, the state and reply of an unlink; `UnlinkReplyIs` and `RemovalTakesOnePath` say which they are |
| `FsObjects.Fs.RmdirPath` | crates/core/fs-core/src/fs.rs:1097-1153 | in place, the state and reply of an rmdir; `RmdirReplyIs` and `RemovalTakesOnePath` say which they are |
| `FsObjects.Fs.RenamePath` | crates/core/fs-core/src/fs.rs:1155-1288 | in place, the state and reply of a rename; `RenameReplyIs` and `RenameMovesPaths` say which they are |
| `FsObjects.Fs.MoveEntry` | crates/core/fs-core/src/fs.rs:1234-1283 | the same-directory and the cross-directory arm have one effect: one entry removed, one set |
| `Snapshots.RoundTrip` | crates/core/fs-core/src/snapshot.rs:110-175 | a table rebuilt from any snapshot list of a sound filesystem is sound, every path resolves as before, metadata, directories and file bytes are the same, and every read of every file is complete |
| `Snapshots.SaveAndRestore` | crates/core/fs-core/src/snapshot.rs:119-175 | to_snapshot then from_snapshot gives exactly that filesystem, with the inode counter and no descriptors |
| `Snapshots.ToSnapshot` | crates/core/fs-core/src/snapshot.rs:121-142 | lists every inode exactly once, in whatever order the table is walked |
| `Snapshots.FromSnapshot` | crates/core/fs-core/src/snapshot.rs:145-174 | the insertion loop builds the specified table |
| `Snapshots.MaterializeStorage` | crates/core/fs-core/src/snapshot.rs:110-117 | the data of a storage read into a zeroed buffer of its size is its flat content, whatever its slots |
| `Snapshots.MaterializedIsFlat` | crates/core/fs-core/src/snapshot.rs:110-117 | that is the flat file, grown and sparse files included |
| `Snapshots.RebuildStorage` | crates/core/fs-core/src/snapshot.rs:150-160 | the storage written from saved data and set to the saved size |
| `Snapshots.RebuiltIsComplete` | crates/core/fs-core/src/snapshot.rs:150-160 | a storage rebuilt from its own bytes has all its slots, so no read of it is short |
| `RpcServers.LeasesAreCounted` | crates/rpc/vfs-rpc-server-core/src/lib.rs:86-178 | after any requests and disconnects, the reference count of each path is its registered write descriptors plus the write opens that failed locally after taking the lease, and the lease exists exactly when that is positive |
| `RpcServers.ServeKeeps` | crates/rpc/vfs-rpc-server-core/src/lib.rs:188-258 | each request and each disconnect keeps that, together with: what is registered is open, and sessions own registered descriptors |
| `RpcServers.DisconnectClosesSession` | crates/rpc/vfs-rpc-server-core/src/lib.rs:161-178 | a disconnect closes, on the server and in the filesystem, exactly the descriptors of the session |
| `RpcServers.CloseKeeps` | crates/rpc/vfs-rpc-server-core/src/lib.rs:138-158 | a close keeps the counts and forgets exactly its descriptor |
| `FilePaths.JoinDirComponents` | crates/rpc/vfs-rpc-server-core/src/lib.rs:73-83 | the joined path has the components of the directory followed by those of the relative path |
| `FilePaths.JoinedPathLeadsThere` | crates/rpc/vfs-rpc-server-core/src/lib.rs:234-258 | so the path a relative open is leased under leads to the inode the open reaches, while the directory is still at its path |
| `FilePaths.JoinIsSpelled` | crates/rpc/vfs-rpc-server-core/src/lib.rs:73-83 | when both parts are spelled with single slashes the joined path is the spelling of the components together, so an open by path uses the same lease key |
| `RpcOpens.OpenIsRegistered` | crates/rpc/vfs-rpc-server-core/src/lib.rs:220-232 | an open request is refused by the sync layer exactly for a writer without a lease that is not granted one; one that answers a descriptor adds exactly that descriptor, new and registered under its path, which leads to it, and for a writer the lease of exactly that path has one more reference and no other changes |
| `RpcOpens.RelativeOpenIsRegistered` | crates/rpc/vfs-rpc-server-core/src/lib.rs:234-258 | the same for a relative open through a registered directory: the registered path has the components of the directory followed by the relative ones, the lease is of exactly that path, and while the directory is still at its path the registered path resolves to the inode of the descriptor |
| `RpcOpens.PathlessOpenTakesNothing` | crates/rpc/vfs-rpc-server-core/src/lib.rs:234-258 | through a directory descriptor without a path no lease is touched and the new descriptor has no path |
| `RpcOpens.RefreshWrites` | crates/sync/vfs-sync-core/src/sync_manager.rs:1080-1092 | a downloaded body ends up at its path to the last byte if and only if no directory is there and no file above it; otherwise no open makes or finds a file there |
| `RpcOpens.OpenFindsDownload` | crates/rpc/vfs-rpc-server-core/src/lib.rs:114-129 | a descriptor of a file answered to an open finds exactly what the sync layer downloaded for it |
| `ServerContexts.ServerContext.RegisterFd` | crates/rpc/vfs-rpc-server-core/src/lib.rs:86-98 | the three maps after a registration |
| `ServerContexts.ServerContext.UnregisterFd` | crates/rpc/vfs-rpc-server-core/src/lib.rs:101-109 | the descriptor is gone from every map and every session; its path and write access are returned |
| `ServerContexts.ServerContext.BeforeOpenHook` | crates/rpc/vfs-rpc-server-core/src/lib.rs:114-129 | takes a reference, or the lease, or reports that the open must not go on |
| `ServerContexts.ServerContext.HandleOpen` | crates/rpc/vfs-rpc-server-core/src/lib.rs:220-232 | the maps, the filesystem and the response of an open; `OpenIsRegistered` says what is leased and registered; keeps the counts |
| `ServerContexts.ServerContext.HandleOpenAt` | crates/rpc/vfs-rpc-server-core/src/lib.rs:234-258 | the maps, the filesystem and the response of a relative open; `RelativeOpenIsRegistered` says which path is leased and registered; keeps the counts |
| `ServerContexts.ServerContext.ReleaseOne` | crates/sync/vfs-sync-core/src/sync_manager.rs:566-588 | drops one reference; the last one removes the lease |
| `ServerContexts.ServerContext.CloseDescriptor` | crates/rpc/vfs-rpc-server-core/src/lib.rs:138-158 | computes the specified close and keeps the counts |
| `ServerContexts.ServerContext.CloseSession` | crates/rpc/vfs-rpc-server-core/src/lib.rs:161-178 | the loop closes the session's descriptors, each exactly as a close request would |
| `RpcAdapters.CloseIsSentOnce` | crates/adapters/rpc-adapter/src/lib.rs:303-396 | over any order of opens and drops, the number of Close messages for a descriptor's server fd is 0 while the descriptor or one of its streams is alive, and 1 afterwards |
| `RpcAdapters.FlushFindsServerFd` | crates/adapters/rpc-adapter/src/lib.rs:1146-1163 | whenever a stream is dropped its descriptor is still registered under its server fd, and no Close was sent for it |
| `RpcAdapters.PlayKeeps` | crates/adapters/rpc-adapter/src/lib.rs:331-387 | the registry invariant over every order of events: registered while in use, pending exactly when only streams are left |
| `AdapterStreams.StreamIsOneWrite` | crates/adapters/rpc-adapter/src/lib.rs:1086-1163 | whatever the chunks and flushes, a stream that is dropped has the effect of one write of all its data at its start offset (at the end, for an append stream), and touches no other file or descriptor |
| `AdapterStreams.RpcState.AllocateDescriptor` | crates/adapters/rpc-adapter/src/lib.rs:321-328 | a new handle, mapped both ways |
| `AdapterStreams.RpcState.ReleaseDescriptor` | crates/adapters/rpc-adapter/src/lib.rs:331-338 | forgets the handle everywhere and returns its server fd |
| `AdapterStreams.RpcState.NoteStreamOpened` | crates/adapters/rpc-adapter/src/lib.rs:340-346 | adds the stream to its descriptor's list |
| `AdapterStreams.RpcState.NoteStreamClosed` | crates/adapters/rpc-adapter/src/lib.rs:367-377 | prunes dead streams; releases a pending descriptor without live ones |
| `AdapterStreams.RpcState.NoteDescriptorDropped` | crates/adapters/rpc-adapter/src/lib.rs:381-387 | releases now, or waits for live streams |
| `AdapterStreams.FileOutputStream.FlushBuffer` | crates/adapters/rpc-adapter/src/lib.rs:1096-1143 | empties the buffer, seeks and writes or appends, and advances the offset only on success |
| `ReadAhead.StreamRefinesDirect` | crates/adapters/rpc-adapter/src/lib.rs:984-1070 | for an unchanged file, any sequence of skips and non-empty reads returns what unbuffered reads at the same offsets return, end of file included |
| `ReadAhead.ClosedAtEnd` | crates/adapters/rpc-adapter/src/lib.rs:1045-1057 | a non-empty read reports Closed exactly at or past the last readable byte |
| `ReadAhead.EmptyReadCloses` | crates/adapters/rpc-adapter/src/lib.rs:1001-1049 | an empty read reports Closed also before the end, exactly when it is outside the buffer and fetches nothing |
| `ReadAhead.FileInputStream.BlockingRead` | crates/adapters/rpc-adapter/src/lib.rs:996-1058 | computes the specified buffered read over the server's seek and read |
| `ReadAhead.FileInputStream.BlockingSkip` | crates/adapters/rpc-adapter/src/lib.rs:1064-1068 | moves the offset by the length asked |
| `ReadAhead.BusyBackoffSchedule` | crates/adapters/rpc-adapter/src/lib.rs:83-94 | the delays sum to the budget, each but the last being the doubling delay capped at 500 |
| `Embed.RecoverHeader` | crates/tools/monaka-cli/src/embed.rs:441-469 | for every prefix and every length encoding of up to five bytes, the header start found is the true one exactly when no continuation byte equals the section id, so always for ids below 0x80 |
| `Embed.FindSectionHeaderStart` | crates/tools/monaka-cli/src/embed.rs:441-469 | the nearest acceptable header two to six bytes back, or none if there is none |
| `Embed.WriteLeb128` | crates/tools/monaka-cli/src/embed.rs:471-483 | appends the specified encoding |
| `Embed.DecodeUndoesEncode` | crates/tools/monaka-cli/src/embed.rs:471-483 | decoding inverts the encoder whatever follows |
| `Embed.EncodeIsShortest` | crates/tools/monaka-cli/src/embed.rs:471-483 | no encoding of the number is shorter than the encoder's |
| `Embed.U32Length` | crates/tools/monaka-cli/src/embed.rs:441-483 | a 32-bit length takes one to five bytes, as the look-back assumes |
| `Embed.ReplaceSection` | crates/tools/monaka-cli/src/embed.rs:405-439 | replacing a section's content gives the component with that section built anew, prefix and suffix untouched |

## Left out

- HoldersExclude: takes renewal as instantaneous and all clocks as one, because without that the code promises nothing about exclusion, and names as trimmed and free of newlines; `ZeroLeaseIsShared` shows why the lease must be above zero.
- ContentIsConcatenation: all instances work by open-append-fsync-close sessions, with polls, renewals, flushes and refreshes in between; an fsync is made under a lease, and unlink, shutdown and pushes without a lease do not occur, because they drop or send what belongs to no session.
- LocksChangeLawfully: does not ask that lock objects parse, but needs instance names and paths that are trimmed and free of newlines, because other names do not survive the lock record's text (`LockRecords.RoundTrip`).
- StreamIsOneWrite: for a server descriptor open for writing and without O_APPEND, which the adapter never sets, no failed flush and no other writer in between; a failed flush loses its buffer, as `FlushBuffer` states.
- LeasedWriteReachesStore: over requests that are all answered, as are the next three; what a lost or failed request leaves is stated for every run by `WritesSurvive`, `NoUpdateIsLost` and `HeadRecoversBase`.
- UnleasedPushReachesStore: over requests that are all answered.
- QueuedWriteReachesStore: over requests that are all answered, and a queue with nothing of another path; `SyncManager.FlushOutbound` has longer queues.
- QueuedDeleteReachesStore: as `QueuedWriteReachesStore`.
- OpenAdopts: for a path whose cached tag, if there is one, is that of its local copy and that has no upload queued; otherwise the open first pushes the upload (`FailedOpenForgetsWrite`, `WritesSurvive`).
- ForceFlush: needs a batch size of at least 1 or an empty queue, because otherwise the loop never ends (`FlushRounds`).
- The spelling of paths in the sync layer ("/a" and "a" name one object): the protocol model has canonical paths; the key functions are modelled with their normalisation.
- Bodies and local files of the protocol are text, not bytes, and the local filesystem never fails there.
- Directory markers and directory polling of the sync manager, and the metadata cache beyond tags.
- Lease-disabled and realtime modes, and the plain delete used when a store cannot honour a condition.
- Races between host threads sharing one manager or one filesystem; locks and concurrent maps.
- Files inside `Fs` are the abstract value that `BlockStorage` is proved to have, not storage objects, so aliasing between an inode and its storage is not captured; inodes are entries of the table, not shared references, and the inode's own id field, always its key, is dropped.
- 32-bit and 64-bit overflow of sizes, offsets, inode numbers and descriptors.
- `stat` by descriptor and directory listing: easy readers of the same tables.
- S3 transport, multipart upload, configuration, logging, error-code tables.
- RPC encoding, version negotiation, the socket loop, and the server's read-through refresh.
- A response lost after the server acted on it, in the adapter.
- Module rewriting and memory placement in `modify_core_module`, and `build_snapshot`: the parser and encoder they use are not part of this model.
- Time is a counter, as the default provider has it.
