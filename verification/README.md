# MyDFS: write-ahead log, recovery, worker pool, chunking and chunk store

This project models the parts of MyDFS that keep data, and proves what they promise:

- the metadata server's **write-ahead log with snapshots and recovery**, down to the bytes of the
  segment files and of the snapshot file, together with the **file store** it protects;
- the **retrying worker pool** and the collectors of its callers;
- **chunking and reassembly** of a file;
- the **wire protocol** and the **verified publishing** of chunks on the chunk server.

## How it is organised

| files | what they hold |
|---|---|
| `Results`, `Bytes`, `Frames` | error values, big-endian integers, length-prefixed records |
| `History` | the metadata map, replay of operations, overlapping replay, replay that logs its own deletes |
| `WalCodec`, `Layout`, `WalLog`, `WalScan`, `SnapshotFile` | the log and the snapshot file as values: what each operation of the manager makes of them |
| `WalProtocol`, `WalSafety`, `WalTheorems` | the log, the snapshot goroutine, appenders and crashes as one machine over events; its invariant; what every run guarantees |
| `LogReplay`, `WalRoom`, `WalRecovery`, `WalStability`, `WalClients` | replay as the store does it, with deletes the log may refuse; directories in which it refuses none; what a start-up ends with and when it completes; recovering again and again; what clients and the directory can show |
| `WalStarted`, `WalReplayRun`, `StoreRuns` | the first start, and the log a started server goes on with; start-up, an add, a delete and a snapshot, as the classes perform them, as runs of the machine |
| `WalLimits` | when rotation and appending succeed, and when the files stay without a gap |
| `WalSteps`, `WalExample`, `WalGap`, `WalTorn`, `WalRefusal`, `WalHaste` | concrete runs: one that meets every condition, and runs that cannot start up again, bring a deleted file back, or lose one |
| `WalManager`, `FileStore`, `MetaServer` | the log manager and the store as classes, each method proved against the functions above; start-up |
| `WorkerPool`, `PoolSafety`, `PoolProgress`, `PoolScaling`, `PoolLoad`, `PoolBelowMinimum`, `RetryLoop` | the pool as a machine over events; job conservation and channel safety; how far jobs get; bounds on the number of workers; the order of jobs, where the number of workers settles, shutdown and cancellation; a run below the minimum; one job's attempts |
| `Chunking`, `Reassembly` | cutting, metadata by chunk id, positioned writing; the concurrent download |
| `MessageProtocol`, `StoragePath`, `ChunkStore`, `ChunkServer` | framing; paths; temporary file, check, rename while writes overlap; the connection loop with its handlers |
| `Upload` | a file from end to end: cut, sent, published, read back and put together |

Protobuf and gob are codecs of which only a left inverse is asked, CRC-32 and MD5 (RFC 1321) are
arbitrary functions: every theorem holds for all of them. A crash is a process crash: bytes the writer
has handed to a file survive, buffered bytes are lost, and the buffer may spill into the file at any
point, in the middle of an entry too.

## Conditions on runs of the log

A run is any sequence of events from an empty directory: appends, spills, timer flushes, map updates,
every step of a snapshot, reclaiming of single segments, appends cut short inside a rotation, crashes
with restart, and every step of replay. `WalProtocol.FreeNext` is what the code does; `Next` is the part
of it that meets the conditions below, which the code does not ensure. An event that the code would
answer with an error is not part of a run, except a failed cleanup, which only ends that cleanup, and a
delete of start-up that the log refuses, which the store swallows.

- Room for at least two segment files (`cfg.maxSegs >= 2`). With a limit of one, rotation removes the
  current file before the buffer is flushed into it unless its newest number on disk is above the
  recorded snapshot: `WalLimits.RotationKeepsBufferIff`, and `WalLimits.LimitOneLosesAnEntry` shows two
  appends of which the first is released and lost.
- Updates of the same name reach the map in log order. The store takes no lock for writing, so the
  goroutines released by one flush may race; the order of two updates shows exactly when they are of
  one name and leave different things behind: `History.UpdatesCommuteIff`.
- When the map is cloned for a snapshot, no entry up to the captured number is still on its way to
  the map. The number is taken under the log's lock, the clone later under the store's, and neither
  waits for appenders. What a clone taken too early loses is stated exactly in
  `WalHaste.CloneRightAboutIff`: a name with an update on its way that no retained entry mentions. A run
  that loses an acknowledged file is in `WalHaste.HastyCloneLosesFile`.
- A temporary snapshot left by a crash is not longer than the next image, since the file is opened
  without truncation. A longer one shows through: `SnapshotFile.LeftoverShowsThrough`.
- A restart finds a snapshot file, or a log that leaves nothing behind. Without the file nothing is
  replayed, although the log holds acknowledged entries: the equivalence in
  `WalRecovery.RecoveryIsExact`, and a lost file in `WalExample.LostWithoutSnapshot`.
- At a restart the retained log does not delete a name, with effect, that it adds again later. Replaying
  a delete logs it again behind the whole log, so the next recovery loses that name:
  `History.SecondRecoveryAgrees`, with the input in `History.ReAddedNameIsLost`. Once a restart meets
  the condition, all later ones of the same recovery do: `WalStability.RecoveryIsStable`. Clients that
  never add a deleted name again, and a program that does not crash before its first snapshot, meet it
  always: `WalClients.NeverReaddingIsRecovered`.
- Counters stay below 2^64 and encoded records below 2^32 octets.

Start-up itself appends to the log: it logs again every delete that finds its name. The log may refuse
such a delete, because a rotation it needs fails, and the store swallows the error. Then start-up
completes with the deleted name in its map. Under the conditions above a start-up that completes is exact
if and only if no refused delete is the last retained entry of its name (`WalRecovery.RecoveryIsExact`,
`LogReplay.AppliedIsReplayIff`). The directory shows beforehand when none will be refused: the deletes fit
into the last file, or some file that holds an entry is not newer than the first one a rotation would aim
at (`WalRecovery.RoomKeepsDeletes`). `WalRefusal.DeletedFileReturns` is an error-free run that meets every
condition and after which a deleted file returns. The number recorded by a start-up is always the published
one, and its log is well shaped and safe to reclaim from if and only if no delete was refused after it had
taken its number (`WalStarted.StartedLogIsGoodIff`); `WalRefusal.NumberIsSkipped` is a start-up after which
the numbering has a hole.

Whether a start-up completes is a separate question, with its own answer in
`WalRecovery.RecoveryCompletesIff`. It can fail after an error-free run, in three ways. When rotation has
been refused its oldest file, there are more files than the limit, and a later rotation removes one in
the middle (`WalLimits.RotationKeepsContiguityIff`, `WalGap.RecoveryCanFail`). Cleanup takes the files in
the order of their names, where 10 comes before 8, so a crash in the middle of it leaves a gap
(`WalLimits.ReclaimKeepsContiguityIff`, `WalLimits.CleanupByNameLeavesGap`). And a crash inside a rotation,
after the new file was created and before the old buffer is flushed, leaves an empty file behind one that
may be cut (`WalTorn.CutBeforeEmptyFileFails`).

## Where the code and its comments differ

- `internal/wal/snapshot.go:102` says cleanup deletes all segments before the snapshot's. The code keeps
  those whose newest number is above the recorded snapshot (`internal/wal/manager.go:394-398`), and stops at
  the first segment it cannot read. The model follows the code.
- `internal/wal/write.go:53` speaks of exceeding the limit; the code rotates on reaching it, and with a size
  read before the first rotation, so one append can rotate twice and leave an empty segment.

## Model

| member | source | states |
|---|---|---|
| Bytes.BigEndianRoundTrip | internal/wal/read.go:74-76 | a length or sequence number that fits its octets is read back as it was written |
| Bytes.MostSignificantFirst | internal/wal/read.go:74-76 | octets count from the front, the first one for the most |
| Frames.ParseFrameAll | internal/wal/read.go:52-67 | reading length-prefixed records back gives exactly the records written, in order |
| Frames.ParseIsFrameAll | internal/wal/read.go:70-89 | the converse: a file that reads to the end without error is the concatenation of the records read |
| Frames.ParsePrefix | internal/wal/read.go:70-89 | a file cut anywhere that still reads holds a prefix of the records written to it |
| Frames.WholeMonotone | internal/wal/write.go:61-67 | bytes appended later never disturb the whole records before them |
| Frames.CutFinalRecord | internal/wal/read.go:70-89 | a file cut strictly inside its final record does not read to its end, and keeps every record before |
| History.OverlapNeedsNoFilter | internal/wal/snapshot.go:81-97 | for every history, an image holding each name as of its own point past number m, and every start at most m, replaying the rest of the history on the image gives the map after the whole history |
| History.OverlapIsExact | internal/wal/snapshot.go:89-97 | skipping the first j operations on an image of the first a is right for all histories if and only if j <= a |
| History.ReplayRightAboutIff | internal/wal/snapshot.go:89-97 | replaying a suffix on any image is right about a name if and only if the suffix mentions the name or the image had it right |
| History.LookReplay | internal/files/file_store.go:123-143 | last writer wins: a name mentioned in the replayed entries ends as they leave it wherever replay began, and otherwise keeps its value |
| History.ReplayKeepsKeys | internal/files/file_store.go:33-59 | adds and deletes keep every key equal to the name its metadata carries |
| History.UpdatesCommuteIff | internal/files/file_store.go:28-33 | two updates may reach the map in either order exactly when they are of different names or leave the same behind |
| History.RevivesIffFiredAlive | internal/files/file_store.go:45-61 | replay logs a delete of a name alive at the end exactly when the log deletes, with effect, a name it adds again |
| History.SecondRecoveryAgrees | internal/files/file_store.go:132-135 | recovering the log together with the deletes the first recovery appended gives the same map if and only if the log revives no deleted name |
| History.ReAddedNameIsLost | internal/files/file_store.go:132-135 | adding, deleting and adding a name again is such a log: the second recovery loses the name |
| History.RevivesPersists | internal/files/file_store.go:45-61 | deletes that replay appends change nothing about whether the log revives a name, as long as each names something the replay ends without |
| History.RevivesSuffix | internal/wal/snapshot.go:89-97 | a log that revives nothing still revives nothing when its oldest entries are reclaimed |
| History.NeverReaddingRevivesNothing | internal/files/file_store.go:22-61 | a log without an add of a name after a delete of it revives nothing, on whatever image it is replayed |
| SnapshotFile.DumpRoundTrip | internal/files/file_store.go:63-121 | for every visiting order, restoring a dump into an empty store gives the map back if and only if each key is its metadata's name |
| SnapshotFile.RestoreIsExact | internal/files/file_store.go:95-121 | for any file: restoring puts the whole, decodable records in front on top of the map, and succeeds if and only if nothing follows them; a record cut short or not decodable is an error, with what came before it already in the map |
| SnapshotFile.SnapshotReadsIff | internal/wal/snapshot.go:81-87 | a snapshot file is read if and only if it holds eight octets and then whole records that all decode |
| SnapshotFile.ReachedMapsRoundTrip | internal/files/file_store.go:63-121 | every map reached by adds and deletes survives the dump, in every visiting order |
| SnapshotFile.SnapshotRoundTrip | internal/wal/snapshot.go:38-48 | the snapshot file decodes to the captured number and the cloned map |
| SnapshotFile.LeftoverShowsThrough | internal/wal/snapshot.go:30-48 | the published file is the image exactly when the left-over temporary file was not longer; otherwise its tail is restored on top |
| WalCodec.DecodeEncode | internal/wal/read.go:45-102 | a segment of well-made entries decodes to exactly those entries |
| WalCodec.DecodeCut | internal/wal/read.go:45-102 | what a cut segment still decodes to is a prefix of its entries |
| WalLog.OpenNextKeepsShape | internal/wal/manager.go:355-373 | switching files leaves the log well shaped with every entry logged so far whole on disk |
| WalLog.FlushKeepsShape | internal/wal/write.go:90-105 | after a flush every logged entry is whole on disk |
| WalLog.SpillKeepsShape | internal/wal/write.go:61-67 | an early hand-over of part of the buffer keeps the log well shaped and loses nothing that was on disk |
| WalLog.WriteKeepsShape | internal/wal/write.go:39-69 | writing an entry into the room made for it keeps numbering, tracked size and the segment size limit |
| WalLog.LastNumberIsNewest | internal/wal/manager.go:256-280 | the walk back over empty segments yields the newest number at or before the segment, and succeeds exactly when the predecessors it needs still exist |
| WalLog.RemoveIsSafe | internal/wal/manager.go:382-408 | removing a segment drops no entry above the published number and touches nothing else |
| WalLog.OldestIsOlder | internal/wal/manager.go:376-380 | with room for two segments the unsigned subtraction does not wrap and never aims at the current file |
| WalLog.RotationIsSafe | internal/wal/manager.go:346-374 | a rotation adds one empty segment, puts everything older on disk, closes one generation and removes nothing above the published number |
| WalLog.ReserveIsSafe | internal/wal/write.go:25-59 | the one or two rotations of an append leave room for the entry, or an empty segment, despite the stale size |
| WalLog.AppendIsSafe | internal/wal/write.go:25-71 | a successful append logs exactly one entry more with the next number; what was on disk stays, everything older is on disk if it rotated, and segments stay below the limit or hold one entry |
| WalScan.TailScanIsLastOfDecode | internal/wal/manager.go:282-325 | on a file that decodes in full the tail scan returns the last entry of the full decode |
| WalScan.LastNumberIff | internal/wal/manager.go:256-280 | in any directory the walk back finds a number if and only if it passes over empty files that are all there to one with an entry, whose number it is, or to the empty first file |
| WalScan.CutFileFailsEveryScan | internal/wal/manager.go:282-325 | cut strictly inside its final record, a file fails the tail scan, the full decode and the entry-by-entry read |
| WalScan.ReadFileWhole | internal/wal/read.go:52-67 | stopping at the last sequence number drops no entry |
| WalScan.NothingReadPastStop | internal/wal/read.go:64-66 | the read ends with the entry it was told to stop at, whatever follows it, readable or not |
| WalScan.WrongChecksum | internal/wal/read.go:91-102 | a record with a wrong checksum makes the full decode and the entry-by-entry read fail wherever it stands, and the tail scan of start-up if and only if it is the last |
| WalScan.ScanSuccessMeansContiguous | internal/wal/read.go:13-43 | by counting alone: a start-up scan that succeeds has read every file, their numbers have no gap, and the unsigned start did not wrap |
| WalScan.ScanIsExact | internal/wal/read.go:13-43 | the scan succeeds exactly when the remaining files are contiguous, and then yields every entry on disk in order |
| WalScan.InitResumesNumbering | internal/wal/manager.go:199-226 | start-up after a crash, if it succeeds, finds a well-shaped log of exactly what survived and numbers on just past its last entry |
| WalProtocol.Durable | internal/wal/write.go:90-105 | what is on disk is always a prefix of what was logged |
| WalSafety.CloneIsFresh | internal/files/file_store.go:67-71 | a clone taken with no entry up to the captured number pending holds every name as of a durable point past that number |
| WalSafety.UpdateStep | internal/files/file_store.go:28-34 | a released appender's update keeps the whole invariant of log, map, snapshot and waiters |
| WalSafety.ReclaimStep | internal/wal/snapshot.go:109-124 | a cleanup step, interleaved with anything, keeps the invariant |
| WalSafety.ClientAppend | internal/wal/write.go:10-23 | an append by a client keeps the invariant |
| WalSafety.ReplayReachesDurableMap | internal/wal/snapshot.go:68-100 | replaying the retained entries, unfiltered, on the published snapshot gives the map of everything on disk |
| WalSafety.RestartStep | internal/wal/manager.go:139-151 | crash and start-up keep the invariant and the durable operations |
| WalSafety.ReplayDeleteStep | internal/files/file_store.go:45-57 | a delete that replay logs again keeps the invariant in the middle of recovery |
| WalSafety.EndReplayStep | internal/wal/snapshot.go:93-99 | when replay ends the store holds exactly the map of the log, including the deletes it appended |
| WalTheorems.StepKeepsInv | internal/wal/snapshot.go:24-127 | every event of the machine keeps the invariant |
| WalTheorems.RunsAreGood | internal/wal/snapshot.go:24-127 | every reachable state satisfies the invariant |
| WalTheorems.LogShape | internal/wal/write.go:25-71 | in every run the segments and then the buffer decode to exactly the logged entries, numbered without a gap, none split across files, the tracked size exact and the size limit kept up to single entries |
| WalTheorems.AppendedInOrder | internal/wal/write.go:25-71 | without a crash the log is the run's appends in their order |
| WalTheorems.GroupCommit | internal/wal/write.go:10-23 | in every interleaving an appender is released only when its whole entry is in its segment file, or was until a snapshot covering it was published |
| WalTheorems.GenerationClosesWhenDurable | internal/wal/write.go:90-105 | a flush generation is closed only by a step after which everything logged before it is durable |
| WalTheorems.FlushReleasesAll | internal/wal/write.go:73-105 | one timer flush, once it has the lock, releases every waiting appender |
| WalTheorems.ReclaimingIsSafe | internal/wal/manager.go:382-408 | in every run an entry above the published snapshot's number is in a segment that exists, and that number is of a durable entry |
| WalSafety.InterruptStep | internal/wal/manager.go:346-373 | an append cut short at any point of its first or second rotation keeps the invariant, loses nothing that was on disk, logs nothing, and has closed a generation only if everything logged was on disk |
| LogReplay.LookAfterStartUp | internal/files/file_store.go:45-61 | after start-up a name is as the replayed operations leave it, unless its last entry is a delete the log refused: then the deleted name is there |
| LogReplay.AppliesIffDecodes | internal/files/file_store.go:123-143 | applying the retained entries succeeds if and only if the metadata of each decodes, whatever the log refuses |
| LogReplay.AppliedIsReplayIff | internal/wal/snapshot.go:93-97 | applying the entries one by one, each firing delete appending to the log, ends with the replay of their operations if and only if no refused delete is the last entry of its name |
| LogReplay.RoomInSegment | internal/wal/write.go:25-59 | deletes that together fit into the current segment are never refused |
| WalRoom.RootedNeverRefuses | internal/wal/manager.go:346-408 | while some file with an entry is no newer than the first file a rotation can aim at, no delete of start-up is refused, however many it logs |
| WalRecovery.RecoveryIsExact | internal/wal/snapshot.go:68-100 | after any run with any number of crashes, at any step of it, a start-up that completes gives exactly the map of everything on disk if and only if, with a snapshot file, the log refuses for good none of the deletes start-up logs, and without one, nothing would be left |
| WalRecovery.RoomKeepsDeletes | internal/files/file_store.go:45-61 | a directory that shows room, in its last file or for its rotations, makes start-up lose no delete |
| WalRecovery.InitSucceedsIff | internal/wal/manager.go:183-226 | InitWAL after a crash succeeds if and only if the file the log was writing ends with a whole entry and the walk back over empty segments finds the files it needs, whether or not a cut rotation has left an empty file behind it |
| WalRecovery.RecoveryCompletesIff | internal/wal/snapshot.go:68-100 | after any run and a crash at any step, inside a rotation too, recovery completes if and only if InitWAL succeeds and, with a snapshot file, the segment files have no gap; nothing else can stop it |
| WalRecovery.AcknowledgedUpdateFoundIff | internal/files/file_store.go:22-61 | a name whose updates were all acknowledged is found after recovery as the log left it if and only if its last retained entry is not a delete that start-up is refused; and the store had shown it so before the crash |
| WalRecovery.NoAcknowledgedUpdateLost | internal/files/file_store.go:22-61 | in a directory with room it is always found as the log left it |
| WalStarted.FirstStart | internal/wal/manager.go:190-198 | on an empty directory InitWAL succeeds if and only if the limit allows a file; it is a rotation out of nothing, leaves the one empty file 1 every run begins with, and a restart straight after it finds the same |
| WalStarted.StartedLogIsGoodIff | internal/wal/manager.go:139-151 | after any run with crashes at any step, a start-up that completes has recorded exactly the published number, and its log is well shaped, numbered up to its last entry and holds every entry above that number, if and only if no delete of start-up was refused after its number was taken; it then has added only deletes to what was on disk |
| WalStarted.StartedServerReclaimsSafely | internal/wal/manager.go:346-408 | in such a log every entry above the published number is in a segment that exists, and an append with its rotations keeps it so |
| WalReplayRun.StartUpIsARun | internal/wal/snapshot.go:68-100 | the log, map and layout of a started server, as the classes compute them, are those at the end of a run of the machine: the restart, the steps of replay for each retained entry, the end of replay |
| WalReplayRun.StartedServerIsReached | internal/wal/snapshot.go:68-100 | if the restart meets its condition and no delete is refused, that run meets all conditions, so what holds of every run holds of the started server |
| StoreRuns.AddIsARun | internal/files/file_store.go:22-35 | an add as the class performs it is the run append, flush, update |
| StoreRuns.DeleteIsARun | internal/files/file_store.go:45-61 | so is a delete of a name that is there |
| StoreRuns.SnapshotIsARun | internal/wal/snapshot.go:24-64 | an undisturbed snapshot as the class takes it, with its cleanup and where that stops, is a run of the machine |
| StoreRuns.AnyPartMayBeOnDisk | internal/wal/write.go:61-67 | a crash may find any part of the buffer in the current file |
| WalStability.RecoveryIsStable | internal/wal/snapshot.go:89-97 | if the first restart meets its condition and the directory has room (or no delete is refused), then through any further recovery steps and crashes, inside rotations too, no delete is refused and every later restart meets its condition, on a log that replay has appended deletes to; the log keeps its meaning, and every store that serves again holds the map of what was on disk at the first crash |
| WalClients.NeverReaddingIsRecovered | internal/wal/snapshot.go:68-100 | if no client adds a name that a client deleted before, no crash precedes the first published snapshot, steps are in order and the directory has room at every start-up, then every step of the code is one of the machine and recovery gives exactly the map of everything on disk |
| WalLimits.RotationSucceedsIff | internal/wal/manager.go:346-373 | a rotation succeeds if and only if there is room for a file or the newest number of the one it aims at can be found; a failed one changes nothing |
| WalLimits.AppendSucceedsIff | internal/wal/write.go:25-71 | an append succeeds if and only if it needs no rotation or each of its one or two rotations can be made, told from the files before the call |
| WalLimits.FailedRotationFailsAgain | internal/wal/manager.go:346-373 | a rotation that failed goes on failing, whatever is flushed, as long as the files stay |
| WalLimits.RotationCanFail | internal/wal/manager.go:256-280 | an empty oldest segment whose predecessor was reclaimed makes every rotation fail |
| WalLimits.RotationKeepsContiguityIff | internal/wal/manager.go:376-380 | a rotation leaves no gap between the files if and only if there were no more of them than the limit or it removes none |
| WalLimits.ReclaimKeepsContiguityIff | internal/wal/snapshot.go:109-124 | a cleanup step leaves no gap between the files if and only if it removes nothing or removes the first |
| WalLimits.CleanupByNameLeavesGap | internal/wal/snapshot.go:103-127 | with the files 8 to 12 listed by name, a crash after two removals leaves 8, 9 and 12, which no start-up with a snapshot file reads |
| WalLimits.RotationKeepsBufferIff | internal/wal/manager.go:346-373 | rotation keeps every byte of the current segment if and only if two segments are allowed or its newest number on disk is above the recorded snapshot |
| WalLimits.LimitOneLosesAnEntry | internal/wal/manager.go:347-371 | with a limit of one, the second of two appends releases the first appender while its entry is in no file and no buffer |
| WalGap.RecoveryCanFail | internal/wal/read.go:18-34 | an error-free run that meets every condition and leaves segments 1, 3 and 4 under a published snapshot of acknowledged adds: the next start-up fails |
| WalTorn.CutBeforeEmptyFileFails | internal/wal/manager.go:355-371 | a crash between the creation of the new file and the flush of the old buffer, part of which had been handed over, leaves a cut file before an empty one, and every later start-up fails |
| WalRefusal.DeletedFileReturns | internal/files/file_store.go:54-57 | an error-free run that meets every condition on runs, with a published snapshot of three acknowledged updates: the next start-up completes and the deleted file is back |
| WalRefusal.NumberIsSkipped | internal/wal/write.go:35-59 | that start-up leaves three entries and 4 as the last number: the delete was refused after its number was taken, and whatever is appended next leaves a hole in the numbering |
| WalHaste.CloneRightAboutIff | internal/wal/snapshot.go:25-28 | a recovery from a clone taken at any time is right about a name if and only if a retained entry mentions it or the clone had it right, and always if no update of the name was on its way |
| WalHaste.HastyCloneLosesFile | internal/files/file_store.go:63-71 | a run in which the clone does not wait: both files are acknowledged and shown, and one is gone after a crash |
| WalExample.AddedFileIsRecovered | internal/wal/snapshot.go:68-100 | the conditions can be met together: for any metadata that fits, adding one file and publishing a snapshot is a possible run, and a crash after it followed by a start-up gives back exactly that file |
| WalExample.LostWithoutSnapshot | internal/wal/snapshot.go:74-77 | a crash before the first snapshot loses a file that was added, flushed and shown |
| WalManager.FindLastRecord | internal/wal/manager.go:282-325 | the skip scan, which reads only lengths and may run past the end, agrees with full parsing on every file |
| WalManager.ReadAllEntriesFromFile | internal/wal/read.go:45-68 | reads a file's entries up to the stop number, or fails |
| WalManager.CleanupIsSafe | internal/wal/snapshot.go:103-127 | for every listing order and wherever it stops, cleanup removes only covered segments |
| WalManager.RemoveIsExact | internal/wal/manager.go:382-408 | removing a segment in front of the current one fails if and only if its newest number cannot be found, and otherwise removes it if and only if the recorded snapshot covers its entries |
| WalManager.CleanupIsExact | internal/wal/snapshot.go:109-124 | a cleanup ends without an error if and only if the newest number of each listed older file can be found when its turn comes, and has then removed exactly the listed older segments whose entries the snapshot covers; otherwise exactly those in front of the first that cannot be dealt with |
| WalManager.NoneLeft | internal/wal/snapshot.go:57-60 | when the snapshot covers the whole log, a cleanup without an error leaves no listed older segment |
| WalManager.WAL.FindLastSegmentNumber | internal/wal/manager.go:327-344 | the largest number in the directory, whatever order it is listed in |
| WalManager.WAL.FindLastSequenceNumber | internal/wal/manager.go:256-280 | the newest number at or before a segment |
| WalManager.WAL.InitWAL | internal/wal/manager.go:183-231 | an empty directory gets file 1 if the limit allows any file; otherwise the manager's fields are those derived from the directory |
| WalManager.WAL.ReadAllEntries | internal/wal/read.go:13-43 | the start-up scan over as many files as there are |
| WalManager.WAL.Flush | internal/wal/write.go:90-105 | the buffer reaches the current file and one generation closes |
| WalManager.WAL.RemoveLogFile | internal/wal/manager.go:382-408 | a segment goes only if its newest number is at most the recorded snapshot; errors change nothing |
| WalManager.WAL.AddNewLogFile | internal/wal/manager.go:346-374 | rotation in the code's order: remove, create, then flush the old buffer into the old file |
| WalManager.WAL.AppendEntryLocked | internal/wal/write.go:25-71 | append with both size checks on the size read at the start, including the state left by a failed rotation |
| WalManager.WAL.AppendEntry | internal/wal/write.go:10-23 | append and the flush waited for |
| WalManager.WAL.PerformCleanup | internal/wal/snapshot.go:103-127 | on a well-shaped log, leaves exactly the segments CleanupIsExact says, and reports an error exactly when it stopped early |
| FileStore.MetadataStore.AddFileMetadata | internal/files/file_store.go:22-35 | the map changes only if the log took the entry; its refusal is swallowed |
| FileStore.MetadataStore.DeleteFileMetadata | internal/files/file_store.go:45-61 | unknown names are ignored; a known one is logged and leaves the map unless the log refused |
| FileStore.MetadataStore.Apply | internal/files/file_store.go:123-143 | one replayed entry's effect on map and log |
| FileStore.MetadataStore.Snapshot | internal/files/file_store.go:63-93 | writes one record per file of the clone in some visiting order |
| FileStore.MetadataStore.Restore | internal/files/file_store.go:95-121 | reads records into the map up to the end of the file or the first that cannot be read, without touching the log; succeeds exactly in the first case |
| FileStore.EnableSnapshots | internal/wal/snapshot.go:68-100 | with a snapshot file, succeeds exactly when it decodes, the log scan completes and every entry applies, and then holds all of it and has recorded the number in the file; nothing is read without the file |
| FileStore.TakeSnapshot | internal/wal/snapshot.go:24-64 | the published file, the recorded number and the cleanup of an undisturbed snapshot; without an error no listed segment older than the current one is left |
| MetaServer.NewMetaServer | internal/metaserver/factory.go:18-27 | start-up fails exactly when there is no recovered map, and otherwise holds exactly that map, with the number of the snapshot file recorded, 0 without one |
| MetaServer.StartAfterCrash | internal/metaserver/factory.go:18-27 | a server started on what a crash left, after any run and at any step of it, holds the map of everything on disk if and only if the log refused for good none of start-up's own deletes; its log has recorded the published number and is fit to go on if and only if none was refused after taking its number |
| PoolSafety.ResultSendNeverBlocks | internal/wokers/worker_pool.go:223-227 | a worker holding a job finds its results channel open and with room |
| PoolSafety.CollectorNeverBlocks | internal/client/write_file.go:94-103 | a collector with a result finds room to pass it on, and has not closed its channel |
| PoolSafety.ConservedStep | internal/wokers/worker_pool.go:146-232 | every event keeps each accepted job of every caller in exactly one place |
| PoolSafety.StepNeverPanics | internal/wokers/worker_pool.go:146-183 | no step sends on a closed channel or closes one twice |
| PoolSafety.RunsAreSafe | internal/wokers/worker_pool.go:146-232 | in every interleaving with shutdown and cancellation, channels are used safely and jobs conserved |
| PoolSafety.AcceptedJobsAreConserved | internal/wokers/worker_pool.go:199-232 | without cancellation the accepted jobs of a caller are exactly those queued, held, in its results or passed on |
| PoolSafety.CollectorPassesEveryJobOnce | internal/client/read_file.go:41-51 | a collector that ends has passed on one result for each of its n >= 1 jobs, and nobody is left to send |
| PoolSafety.SendsNeverBlock | internal/wokers/worker_pool.go:223-227 | a result send is always possible and never panics |
| PoolSafety.EmptyBatchNeverFinishes | internal/client/write_file.go:94-104 | the collector of zero jobs never ends and can never take a step |
| PoolSafety.UnfinishedBatchMoves | internal/client/write_file.go:94-104 | while a worker lives, a non-empty submitted batch is never stuck before its collector ends |
| PoolProgress.StepWeight | internal/wokers/worker_pool.go:199-232 | every step made for a job takes from a measure of the work left, and an arrival adds at most seven |
| PoolProgress.ProgressIsBounded | internal/wokers/worker_pool.go:199-232 | in every run the steps made for jobs, and those still to make, are at most seven for each submission and caller |
| PoolProgress.BatchCanFinish | internal/client/write_file.go:94-104 | while a worker lives, a submitted non-empty batch is brought to its end by at most as many steps as there is work left, no other event being needed |
| PoolProgress.SecondShutdownSticks | internal/wokers/worker_pool.go:160-165 | a Shutdown of a closed pool returns with the write lock held |
| PoolProgress.SecondShutdownBlocksSubmits | internal/wokers/worker_pool.go:146-165 | from then on, in every continuation, no Submit passes its check and nothing more is accepted |
| PoolScaling.NeverAboveMaximum | internal/wokers/worker_pool.go:289-317 | if the minimum does not exceed the maximum, running workers never exceed the maximum |
| PoolScaling.NeverBelowMinimum | internal/wokers/worker_pool.go:289-317 | before cancellation, and after a shutdown as long as jobs are queued, workers taking jobs never fall below the minimum if retired ones leave the count before the next tick |
| PoolScaling.RetirementKeepsFloorIff | internal/wokers/worker_pool.go:298-315 | a retirement keeps the minimum if and only if fewer workers have left uncounted than the count exceeds the minimum by |
| PoolLoad.JobsAreTakenInOrder | internal/wokers/worker_pool.go:153-158 | in every run a worker is handed the first of its caller's jobs not handed out yet |
| PoolLoad.SubmitWaitsIffFull | internal/wokers/worker_pool.go:153-158 | in every run a submitter past its check is held up if and only if the queue is as long as the buffer |
| PoolLoad.ResultsKeepTheirOrder | internal/client/write_file.go:94-103 | a caller's results are passed on in the order they arrived |
| PoolLoad.ActiveIsExact | internal/wokers/worker_pool.go:215-221 | in every run the active count is the number of workers running a job |
| PoolLoad.NoNeedlessScaling | internal/wokers/worker_pool.go:298-315 | in every run a tick adds nobody while a worker waits or no more jobs are queued than there are workers, and retires nobody while a job is queued |
| PoolLoad.QuietPoolShrinks | internal/wokers/worker_pool.go:306-313 | with nothing queued ticks shrink the pool to exactly one worker more than twice the active ones, or to the minimum if that is more, and then change nothing |
| PoolLoad.LoadedPoolGrows | internal/wokers/worker_pool.go:302-304 | with all workers busy ticks grow the pool, a worker each, exactly until no more jobs are queued than it has workers or to the maximum, and then change nothing |
| PoolLoad.ShutdownDrains | internal/wokers/worker_pool.go:160-183 | a shutdown leaves no queued job behind: without cancellation the minimum of workers stays until the queue is empty, and every submitted batch can be brought to its end |
| PoolLoad.CancelledPoolWindsDown | internal/wokers/worker_pool.go:207-231 | a cancelled pool can be wound down until no worker runs, by at most four steps of each, whatever is queued and whoever collects |
| PoolBelowMinimum.FloorCanBreak | internal/wokers/worker_pool.go:298-315 | a run whose second tick comes before the retired worker has left the count, and which ends with no worker, below a minimum of one |
| RetryLoop.PerformWork | internal/wokers/worker_pool.go:234-282 | attempts at most limit + 1; success exactly when some attempt succeeds first, with its index; the last error otherwise; scheduled waits delay * (2^(r+1) - 2) |
| RetryLoop.TotalWaitIsGeometric | internal/wokers/worker_pool.go:245-248 | the doubling waits sum to the closed form |
| Chunking.ChunkFiles | internal/client/write_file.go:17-69 | chunk i is the i-th section of the file with its offset and size, and its id is the hash of exactly that section |
| Chunking.CountCovers | internal/client/write_file.go:19-23 | the chunk count is exact: every chunk starts inside the file and the last reaches its end |
| Chunking.ChunksJoinToFile | internal/client/write_file.go:17-69 | the chunks laid end to end are the file |
| Chunking.BuildFileMetadata | internal/client/client.go:408-421 | the metadata map built by the loop, later chunks of one id replacing earlier ones |
| Chunking.InfoIsLast | internal/client/client.go:411-412 | identical chunks share one entry and it is the last one's |
| Chunking.UpdateChunkInfo | internal/client/client.go:460-464 | every chunk takes the reply's entry of its id, or none if the reply lacks it; from a reply that adds addresses to what was registered, identical chunks all take the place of the last one |
| Chunking.WriteAtConcat | internal/adaptors/writer_at.go:17-21 | adjoining positioned writes are one write |
| Chunking.WriterAtAdapter.Write | internal/adaptors/writer_at.go:17-21 | writes at the current offset as much as the file takes, and moves the offset past exactly that, on errors too |
| Chunking.CopyChunk | internal/client/read_file.go:54-80 | a copy in pieces of any size is one write of the chunk at its offset, as far as the payload and the file went; it succeeds exactly when both went far enough |
| Reassembly.StepIsGood | internal/client/read_file.go:21-39 | every piece, restart and completion keeps all written bytes equal to the source and all others zero |
| Reassembly.DownloadOutcome | internal/client/read_file.go:16-52 | in any order, interleaving and retrying, whatever addresses the reply holds, a completed download has the source's length, equals it on every chunk that is the last with its id, and is zero on the earlier ones |
| Reassembly.RoundTripIff | internal/client/read_file.go:16-52 | it equals the source if and only if every chunk that occurs again later is all zeros, hence whenever ids differ |
| Reassembly.LastAttemptIsWhole | internal/client/read_file.go:54-80 | a job has written exactly what its last attempt wrote from the start of the chunk, and one that is done wrote the whole chunk in one attempt |
| Reassembly.DownloadCanCompleteIff | internal/client/read_file.go:16-52 | from wherever it stands a download can be completed, by at most two events for each entry, if and only if every chunk is served in full |
| MessageProtocol.Encode | internal/protocol/protocol.go:68-95 | what reaches the connection, on errors too; success exactly when the length is within the cap and the payload is that long |
| MessageProtocol.Decode | internal/protocol/protocol.go:97-126 | takes up to eight bytes whatever they are; accepts them exactly when they are a header that Encode may have written, and then leaves exactly the bytes behind it |
| MessageProtocol.StreamRoundTrip | internal/protocol/protocol.go:68-126 | messages sent back to back arrive as sent, in order, and nothing else |
| MessageProtocol.AlignedIffConsumed | internal/protocol/protocol.go:122-125 | the next header is where the decoder looks if and only if the whole payload was taken |
| MessageProtocol.HeaderOctets | internal/protocol/protocol.go:73-80 | the eight octets of a header, the length with its most significant octet first |
| MessageProtocol.FailedSendTakesNext | internal/protocol/protocol.go:68-95 | a failed send leaves nothing on the wire above the cap, and otherwise a header with a short payload, whose missing octets the receiver takes from whatever comes next |
| MessageProtocol.FailedSendIsNoticed | internal/protocol/protocol.go:68-126 | on a connection that ends there, the receiver fails if and only if anything of the failed message was sent |
| MessageProtocol.WriteRoundTrip | internal/chunkserver/handler.go:158-167 | a write message splits back into exactly its metadata and its chunk |
| MessageProtocol.WriteFitsCap | internal/client/write_file.go:115-117 | the message fits the cap whenever the encoded metadata is at most 2^20 - 4 octets; for a full chunk exactly then |
| MessageProtocol.RetriedSendNeedsWholePayload | internal/client/write_file.go:56-62 | a retried send succeeds if and only if the first attempt took none of the chunk's one-shot reader |
| StoragePath.DefaultPathTransform | internal/storage/path_transform.go:20-50 | the loop builds the specified directories, failing for a negative depth |
| StoragePath.TransformSpellsKey | internal/storage/path_transform.go:20-50 | the directories spell the key and the file name is the key |
| StoragePath.DirectoriesAreCuts | internal/storage/path_transform.go:34-43 | for a key without slashes there are as many directories as the depth says, the consecutive cuts of the key, each an even share but the last, which takes what is left |
| StoragePath.RenamedIsReadPath | internal/storage/storage.go:106-109 | the renamed path is the one a read of the key opens, for every key |
| StoragePath.TempIsNeverFinal | internal/storage/storage.go:55-61 | no temporary path is the final path of a key that does not itself end in .tmp |
| StoragePath.TempIsFinalIff | internal/storage/storage.go:55-61 | without directories, a final path is some temporary path if and only if its own key ends in .tmp |
| StoragePath.PathsAreInjective | internal/storage/path_transform.go:15-17 | any two different keys have different final and different temporary paths |
| ChunkStore.StepIsGood | internal/chunkserver/handler.go:68-91 | every step of concurrent writes and crashes keeps published files verified, temporary files what was hashed, and each descriptor alone on its file |
| ChunkStore.PublishedChunksAreVerified | internal/chunkserver/handler.go:68-91 | in every run where writers of one key do not overlap, whatever is read under a key hashes to it; overlap is told by the key as a string, so keys that spell one path of a file system in two ways must not occur, which holds when no key has a dot or a slash |
| ChunkStore.OpenKeepsWritersIff | internal/storage/storage.go:61-65 | opening a key's temporary file leaves every writer with what it hashed if and only if no writer of that key has written a byte |
| ChunkStore.RenameKeepsPublishedIff | internal/storage/storage.go:106-109 | in every run, whoever overlaps, a rename keeps what is published verified if and only if the file behind the temporary path hashes to the key |
| ChunkStore.WriteKeepsPublishedIff | internal/storage/storage.go:66-70 | in every run, a write keeps it verified if and only if it goes into no published file, or leaves it hashing to its key |
| ChunkStore.OthersKeepPublished | internal/storage/storage.go:61-65 | no other step publishes or spoils anything |
| ChunkStore.RunsAreTidy | internal/storage/storage.go:47-109 | in every run each path stands for a file of its own, which the three statements above rest on |
| ChunkStore.RefusedWriterIsGone | internal/chunkserver/handler.go:81-83 | a writer whose content does not hash to its key ends with the check, in every continuation |
| ChunkStore.OverlapPublishesUnverified | internal/storage/storage.go:61-65 | a second writer opening between check and rename makes the first publish an empty file, and its descriptor then writes into the published one |
| ChunkStore.EarlyOverlapLeavesHole | internal/storage/storage.go:61-70 | a second writer opening in the middle of the first one's writing, before any check, leaves a hole of zero bytes in the published chunk |
| ChunkServer.Store.Write | internal/storage/storage.go:47-79 | the temporary file holds the data and the returned hash is the hash of the data |
| ChunkServer.Store.HandleWrite | internal/chunkserver/handler.go:68-91 | piecewise writing, check and rename publish exactly when the content hashes to the key in the metadata: then the final path holds the chunk and the temporary one is gone; on a failure every path but the key's temporary one is as before, and all of them if no key was read |
| ChunkServer.Store.Serve | internal/chunkserver/handler.go:33-66 | the loop leaves disk, replies and outcome as one connection's session is specified to, for any bytes that arrive |
| ChunkServer.SessionHandlesInOrder | internal/chunkserver/handler.go:33-66 | messages of known types are handled in order, each on the disk its predecessors left, up to the first that is empty or refused; the session ends without an error if and only if none was refused |
| ChunkServer.CutPingIsAnswered | internal/chunkserver/handler.go:107-119 | a ping cut short is answered with what arrived, and the session ends cleanly |
| ChunkServer.UnknownTypeMisaligns | internal/chunkserver/handler.go:62-64 | after a message of unknown type the loop reads its payload as headers |
| ChunkServer.SessionKeepsVerified | internal/chunkserver/handler.go:33-91 | whatever bytes arrive on a connection, every published chunk still hashes to its key |
| ChunkServer.HandledReads | internal/chunkserver/handler.go:68-119 | an accepted write makes its key name its chunk; no request changes what any other key names |
| ChunkServer.RefusedKeepsReads | internal/chunkserver/handler.go:81-83 | a refused request leaves every key naming what it named before |
| ChunkServer.SessionServesLastWrites | internal/chunkserver/handler.go:33-91 | after any bytes on a connection, refusals included, a key names the last chunk a handled request wrote under it, or what it named before |
| ChunkServer.WriteThenRead | internal/chunkserver/handler.go:68-105 | writing a chunk and reading its hash over one connection sends back exactly one message, whose payload is the chunk |
| ChunkServer.StoredChunkIsReadBack | internal/chunkserver/handler.go:68-105 | after a write message the chunk is what its hash names, and other keys name what they did before |
| Upload.CutChunkIsAccepted | internal/client/write_file.go:28-62 | a write message of a cut chunk, whose metadata names its id, is accepted by every server with the same hash |
| Upload.UploadStores | internal/client/write_file.go:71-122 | after connections in any order that carry every chunk, with anything before, between and after them, the server names each chunk by its id, if nothing else written has such a hash |
| Upload.ReadIsAnswered | internal/chunkserver/handler.go:93-105 | a read of a key that is there is answered with one message holding its file |
| Upload.FileComesBackIff | internal/client/read_file.go:16-52 | cut, uploaded and downloaded, a file comes back if and only if every chunk that occurs again later is all zeros |
| Upload.UploadCanBeFetched | internal/client/read_file.go:16-52 | after the upload the download can be brought to its end from wherever it stands |

## Left out

- Power loss and fsync ordering: only process crashes are modelled.
- Operating-system errors in the middle of an append or a flush.
- Sequence and segment numbers at 2^64: runs stop before the wrap; only the two unsigned subtractions wrap.
- Go's data races on the store's map: reads and updates of the map are atomic steps here.
- Runs that go on after a client's append or a delete of start-up was refused: what start-up itself ends with is stated, later appends are not.
- An append that completes is one step, and so is the part of an interrupted one before its crash; `lastSnapshot` does not change between the two rotations of one append.
- Goroutines of the log, of the pool and of the download are modelled on values, as machines over events; the classes model the sequential code.
- `lastSnapshot`, written without the lock, changes in one step of its own.
- Segment file names: a segment is its number; printing and parsing the decimal suffix is not modelled.
- Upload.UploadStores: connections come one after the other; overlapping ones are in ChunkStore. A write gets no reply, so what is asked is that every message arrived whole.
- WalManager.WAL.AppendEntry: stands for one appender alone, whose flush follows at once; interleaved appenders are in the machine.
- FileStore.TakeSnapshot: nothing interferes between its steps; interference is in the machine.
- RetryLoop.PerformWork: unbounded integers, so an overflow of the wait is not modelled, and job durations are not.
- WorkerPool timing: ticks, the shutdown timeout and waiting for workers are events that may come at any time.
- Normalisation of paths by the file system: paths are compared as strings, so two keys that differ only in `/./` are different files here.
- ChunkStore.PublishedChunksAreVerified: writes under keys that end in .tmp are not part of the runs, because without directories such a key's file is another key's temporary file (StoragePath.TempIsFinalIff).
- FileStore.EnableSnapshots: does not say which entries were applied before one that cannot be; the program ends then.
- A gob decoder that stops before the end of the chunk metadata: the metadata is taken whole.
- Connections, dialling, deadlines, the connection pool, the listener, configuration setters and printing.
- The metadata server's message handler, which only forwards to the store.
- Generated protobuf code, the gob encoder and the hash functions.
