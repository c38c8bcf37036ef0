# The chunk download engine of the CoolDown client, in Dafny

CoolDown is a peer-to-peer file sharing client written in C++. A file is cut into chunks; a job keeps the
missing chunks in a priority queue, picks a peer for each, takes a pooled socket, and starts a task that receives
the chunk under a shared per-second quota, compares its checksum and writes it at its place in the file. This
project models that engine, from the making of a torrent to verified bytes on disk, together with the bitmap and
message formats, the collector, and the job registry with its history file. Everything is proved for all inputs
and all interleavings; the hash function, the header codec, the network's answers and the torrent parser are
parameters.

## How it is built

- `Prelude`, `Streams`, `Arithmetic`, `Bags`, `Picks`: shared names, byte streams, lemmas on products, quotients, sums
  and multisets, and what a loop that keeps some elements of a list has kept.
- `Layout`: how a file is cut. The hashing loop, the sizes that `MakeTorrent` records and the offsets that
  `TorrentFileInfo` computes are three pieces of code that must agree; `LayoutMatchesHashes` says exactly when
  they do.
- `ChunkQueue`, `ChunkSelectors`: the priority queue as a value, and the selector object over the shared maps.
- `SockPool`, `LocalSockManagers`: the socket pool as a value with its invariant over all runs of calls, and the
  manager object.
- `Meter`, `MeterRuns`, `MeterRounds`: the byte counters. Each atomic access (read the quota, receive, add; the
  collector's read, add to the total, reset) is one step, and any sequence of steps is a run.
- `Transfer`: the send and receive loops as objects on a stream, and both ends together.
- `JobMachine`: one job as a transition system. The scheduler thread, the tasks with their failed and finished
  notifications, the collector, and every other user of the pool take atomic steps in any order. A throwing task
  is notified as failed and then as finished; any other task only as finished. `StartThrows` keeps the chunk and
  socket that a throwing task start leaves behind. The proofs are in `JobFrames`, `JobConservation`,
  `JobSockets`, `JobSafety`, `JobRuns`; the results in `JobTheorems`, `JobOutcome`, `JobFiles`, `JobPeers`,
  `JobOwners`, `JobHalt`, `JobOvershoot`, `JobAccounts`, `ShortFile`, `JobHistory`, `JobExample`.
- `Jobs`: the job object, whose loop and callbacks use the selector and socket manager objects. What the other
  threads do before each access and what the network answers is a schedule. `Jobs.Job.Run` asks for owners, fills the
  queue, and then is proved to be a run of `JobMachine`, so all its theorems hold of the object; at the end it copies
  the files.
- `Bitmaps`: the 64-bit block format. `NetPacks`: framing. `Torrents`: wanted files and copies of the same file.
  `Progress`: percentages and reports. `History`, `HistoryTheorems`, `Client`: the registry and its history file.

## Where the code departs from the obvious claim

- `last_chunk_size` is `file_size % chunk_size`, which is 0 when the chunk size divides a nonempty file's size,
  although the hashing loop gives such a file a full last chunk (client/src/client.cc:402,
  client/src/verification.cc:47-51). The recorded sizes then sum to one chunk less than the file
  (`Layout.RecordedSizesSum`), the layout does not match its hashes (`Layout.LayoutMatchesHashes`), and such a
  download never completes unless the empty string has the last checksum (`JobOutcome.DividedFileNeverCompletes`).
- The scheduler leaves its loop when the queue is empty although tasks under way can still fail
  (client/src/job.cc:187-190, 281). `JobExample.LateFailureIsForgotten` is such a run;
  `JobTheorems.JoinedCompleteIff` says exactly when a joined job is complete.
- A task start that throws loses its chunk and its socket (client/src/job.cc:273-275): both are kept as `lost`,
  and completeness needs `lost` to be empty.
- The connection tests use `>` with 10, so a list holds up to 11 entries (client/src/local_sock_manager.cc:49,
  116): `SockPool.RunsKeepPool`, and `SockPool.BoundIsReached` meets the bound.
- The quota is an unsigned difference stored in an `int` (client/src/download_task.cc:110). The overshoot bound
  holds exactly when the largest overshoot fits in an `int` (`MeterRuns.BoundHoldsIffFits` for the counters,
  `JobOvershoot.JobBoundIffFits` for whole jobs): beyond that the sign is wrong and a task that is over the limit goes
  on receiving. Both directions are for limits that are ints, as the default 2^30 is. For a larger limit the bound still
  holds when the overshoot fits (`Meter.OvershootBound`), but the stored quota may be 0 or negative from the start.
- Only the first entry of a file id is downloaded, and the scheduler asserts that it is stored
  (client/src/job.cc:243-247). The assertion fails when of two copies only the second is needed
  (`Torrents.FirstEntryStoredIff`, `Torrents.SecondCopyAlone`).
- `add_file` gives a file its full size only when it creates it (client/src/job_info.cc:75-87). A shorter file that was
  there before stays short; the copy into its mapping drops what is beyond its end, and the chunk is credited
  (client/src/download_task.cc:142-144), unless the mapping ends before the chunk does. So a set bit is true of the disk
  exactly when the file was long enough at the start (`JobTheorems.SetBitsAreVerified`), a complete job can leave a
  short file (`ShortFile.ShortFileIsCredited`, `ShortFile.TrueOnAllRunsIff`), and `Torrents.LongEnoughIff` says when an
  opened file is long enough.
- A file without bytes cannot be mapped. It cannot be hashed, so a torrent that contains one cannot be made
  (client/src/verification.cc:25, 45), and a clear chunk of one that is on disk is never set
  (client/src/download_task.cc:142): `Layout.GetFileChecksumList`, `JobTheorems.SetIffBrought`.
- `time_to_next_report` is reset only by a report, so a job that is not running at one multiple of 30 ticks never
  reports again (client/src/client.cc:778-788): `Progress.ReportsIff`.
- Reloading divides two integers, so a reloaded percentage is 0 or 1 (client/src/client.cc:690), and it divides by
  zero for a file without chunks: `Progress.ReloadedPercentage`, `HistoryTheorems.HistoryRoundTrip`.
- A torrent id stays registered when its job is removed, so the torrent is refused until the next restart
  (client/src/client.cc:536-549, 723): `HistoryTheorems.RegisteredForGood`, `HistoryTheorems.RestartForgetsRemoved`.
- `receiveFrom` asserts on the header length before it looks at the error code, so after a short read the
  assertion sees an unset variable (public/netpack/src/netpack.cc:66-74): `NetPacks.EndOfStream`.

## Model

| member | source | states |
|---|---|---|
| `Layout.GetFileChecksumList` | client/src/verification.cc:39-52 | the splitting loop yields the digests of the file's segments, in order; a file without bytes cannot be mapped and yields none |
| `Layout.RecordChunks` | client/src/client.cc:418-427 | the recording loop pairs each digest with the chunk size, the last one with the remainder |
| `Layout.SegmentsConcatenate` | client/src/verification.cc:46-51 | the hashed segments put together are the file, for every size and chunk size |
| `Layout.SegmentCount` | client/src/verification.cc:47-51 | how many segments there are: all but the last are full, and the last is nonempty and no longer, unless the file is empty |
| `Layout.SegmentAt` | client/src/verification.cc:47-51 | segment i is the slice that starts at i times the chunk size |
| `Layout.LayoutTiles` | client/src/job_info.cc:168-182 | each recorded chunk starts where the one before ends, up to the size that is covered |
| `Layout.RecordedSizesSum` | client/src/client.cc:402-426 | the recorded sizes sum to the file size exactly when the chunk size does not divide it, and otherwise to one chunk less |
| `Layout.ByteInOneChunk` | client/src/job_info.cc:168-182 | every covered byte lies in exactly one chunk |
| `Layout.LastChunkDescribed` | client/src/client.cc:402-426 | what the last entry of a layout records, with and without a remainder |
| `Layout.ChunkDescribed` | client/src/client.cc:418-427 | every chunk but a full last one is recorded as it was hashed |
| `Layout.LayoutMatchesHashes` | client/src/client.cc:402-426 | the recorded ranges hold the hashed bytes exactly when the file is empty or the chunk size does not divide its size, or the empty string has the last checksum |
| `Layout.RangesDisjoint` | client/src/job_info.cc:168-182 | in a layout whose first chunk is its largest, the ranges of two chunks never meet |
| `Layout.MadeLayoutIsEven` | client/src/client.cc:418-427 | every published layout is of that kind |
| `ChunkSelectors.JobInfo.UniqueFileidList` | client/src/job_info.cc:281-284 | the same file ids, each once |
| `ChunkSelectors.ChunkSelector.InitQueue` | client/src/chunk_selector.cc:24-52 | afterwards the queue holds each missing chunk of each needed file once and nothing else; each entry names, in list order, the known owners whose bitmap has the chunk, and is ranked by their number |
| `ChunkSelectors.ChunkSelector.QueueFile` | client/src/chunk_selector.cc:36-49 | the inner loop does so for one file |
| `ChunkSelectors.ChunkSelector.GetPriority` | client/src/chunk_selector.cc:54-80 | the entry names the clients at exactly the positions whose bitmap has the chunk, in list order; its rank is 20 less their number below 5, 10 from 5 on, 0 for none, and 10 or 20 lower for a failed chunk or one without owners |
| `ChunkSelectors.ChunkSelector.GetChunk` | client/src/chunk_selector.cc:82-90 | takes one entry that no other outranks, and leaves the rest |
| `ChunkSelectors.ChunkSelector.ReportSuccessChunk` | client/src/chunk_selector.cc:92-95 | sets this bit and no other |
| `ChunkSelectors.ChunkSelector.ReportFailedChunk` | client/src/chunk_selector.cc:97-105 | pushes one entry for the chunk as failed, which names and is ranked by the owners that are known now to have it |
| `ChunkSelectors.ChunkSelector.ReportNoOwnerChunk` | client/src/chunk_selector.cc:107-117 | pushes one entry for the chunk as without owners, ranked 20 below what the owners that are known now to have it give: -20 when there are none, -1 to -10 when a refresh has found some |
| `ChunkQueue.RarestFirst` | client/src/chunk_selector.cc:70-90 | draining a fresh queue gives each entry once, those with 1, 2, 3, 4, then 5 or more owners, then none, however ties are broken |
| `ChunkQueue.InitialDrain` | client/src/chunk_selector.cc:24-90 | draining the queue that a job starts with gives each missing chunk of each file exactly once, with the owners that have it, ordered by at how many positions of the list such an owner stands |
| `ChunkQueue.MakeTells` | client/src/chunk_selector.cc:54-80 | every entry that is ever queued names the owners known at that moment whose bitmap has the chunk, in list order, and is ranked by their number |
| `ChunkQueue.DrainIsPermutation` | client/src/chunk_selector.cc:82-90 | draining any queue gives exactly its entries |
| `ChunkQueue.NoOwnerChunksComeLast` | client/src/chunk_selector.cc:63-117 | when a chunk without owners is taken, no untried chunk and no failed chunk that had owners is left |
| `LocalSockManagers.LocalSockManager.ConnectClient` | client/src/local_sock_manager.cc:45-67 | new pool and result in each branch: limit, failed connect, new idle entry with a condition |
| `LocalSockManagers.LocalSockManager.GetIdleClientSock` | client/src/local_sock_manager.cc:99-136 | marks and hands out the first idle entry; without one adds a connection, or a null entry after a failed reconnect, unless there are more than 10; nothing for an unknown client |
| `LocalSockManagers.LocalSockManager.ReturnSock` | client/src/local_sock_manager.cc:138-158 | marks the first entry with this socket idle, or changes nothing for a foreign socket or an unknown client |
| `LocalSockManagers.LocalSockManager.GetPayloadPercentage` | client/src/local_sock_manager.cc:167-176 | list length over 10, or 100 for an unknown client |
| `LocalSockManagers.ChoosePeer` | client/src/job.cc:210-221 | the loop over the owners finds the position of the first smallest load |
| `LocalSockManagers.MinElement` | client/src/job.cc:217-219 | the first smallest element |
| `SockPool.RunsKeepPool` | client/src/local_sock_manager.cc:45-165 | after any run of calls: lists have 1 to 11 entries, the first is live, no idle entry is null, every client has a condition, live sockets are pairwise distinct, and the live used entries are exactly the sockets handed out |
| `SockPool.NoDoubleHandout` | client/src/local_sock_manager.cc:99-136 | after any run, a socket that is handed out is held by nobody else |
| `SockPool.TakeKeeps` | client/src/local_sock_manager.cc:99-136 | taking a socket keeps the pool invariant |
| `SockPool.GiveBackKeeps` | client/src/local_sock_manager.cc:138-158 | giving back a held socket keeps the invariant, finds the entry, and meets the condition assertion |
| `SockPool.BoundIsReached` | client/src/local_sock_manager.cc:49-59 | every list length up to 11 is reached |
| `SockPool.PeerChoice` | client/src/job.cc:210-221 | the chosen owner is connected whenever one is, and among connected owners has the fewest pooled sockets |
| `SockPool.GetIdleHandsOut` | client/src/local_sock_manager.cc:99-136 | the pool value does the same: which entry is handed out, which is added, and when neither |
| `SockPool.ReturnTakesBack` | client/src/local_sock_manager.cc:138-158 | and the same for a return |
| `JobPeers.PeerChoiceUnderInterference` | client/src/job.cc:210-226 | the same while other threads use the pool between the readings: the peer is connected if any owner was when the readings began, and the list it had then was no longer than the list any such owner has at the choice |
| `JobOwners.PeerHasOffered` | client/src/job.cc:187-272 | on every run the peer that a task asks for its chunk was listed, at some earlier moment of the run, with a bitmap that has the chunk |
| `JobOwners.AnswerIsStored` | client/src/job.cc:370-386 | on every run the owner that is being greeted is found in the list, as asserted; a good answer becomes the bitmap of the first entry with that id, and no other owner of any file changes |
| `JobMachine.SetBitmapStores` | client/src/job.cc:377-384 | the first owner with the id gets the bitmap, every other entry stays, and nothing changes if there is none |
| `JobHalt.HaltedJobStartsNothing` | client/src/job.cc:167-186 | while a job is stopped, paused or removed it starts at most the task it was about to start; from the head of its loop it pops no chunk, starts nothing and loses nothing |
| `JobHalt.HaltedJobWaits` | client/src/job.cc:173-186 | and it stays there, unless it is removed |
| `JobHalt.HaltedJobReceives` | client/src/download_task.cc:90-117 | from then on its tasks receive no more than those that had passed the gate may ask for |
| `JobHalt.StoppedTaskThrows` | client/src/download_task.cc:91-96 | a task at the head of its loop that finds the job stopped or removed throws, and does nothing else |
| `JobHalt.PausedTaskWaits` | client/src/download_task.cc:98-102 | one that finds it only paused does nothing |
| `Meter.QuotaExact` | client/src/download_task.cc:110 | the stored quota is the real difference exactly when that difference fits in an int, for all limits and counters |
| `Meter.OvershootBound` | client/src/download_task.cc:103-125 | for every limit, in every interleaving the bytes of the current second exceed it by at most one request (no larger than a chunk, the limit and an int) of every thread but one, if that overshoot fits in an int |
| `Meter.QuotaIsReal` | client/src/download_task.cc:110 | then, for a limit that is an int, the quota a task computes is the real difference, its sign included |
| `Meter.QuotaBelow` | client/src/download_task.cc:110-117 | for any limit, a positive quota is at most what is left, short of an overflow of the overshoot |
| `Meter.TotalsNeverOvercount` | client/src/client.cc:772-807 | in every interleaving total plus counter never exceeds the bytes really moved, the collector's snapshot taken into account, for downloads and uploads |
| `Meter.TimelyRunsBalance` | client/src/client.cc:804-807 | equality when no task adds between the collector's read and its reset |
| `Meter.ResetDrops` | client/src/client.cc:804-807 | what a reset throws away is exactly what was added since the read |
| `MeterRuns.OvershootIsReached` | client/src/download_task.cc:103-125 | a run of the counters that reaches the bound, for all int limits, chunk sizes and thread counts |
| `MeterRuns.OvershootBreaks` | client/src/download_task.cc:110-113 | a run of the counters beyond the bound, whenever the overshoot does not fit in an int |
| `MeterRuns.BoundHoldsIffFits` | client/src/download_task.cc:103-125 | on all runs of the counters the bound holds if and only if the largest overshoot fits |
| `JobOvershoot.LiftRun` | client/src/job.cc:167-281 | every run of the counters in which tasks work on largest chunks is the counters of some run of a job with as many such chunks as threads |
| `JobOvershoot.JobReachesBound` | client/src/download_task.cc:103-125 | such a job receives, on some run, exactly as many bytes in a second as the bound allows |
| `JobOvershoot.JobBreaksBound` | client/src/download_task.cc:110-113 | and exceeds the bound on some run, whenever the overshoot does not fit in an int |
| `JobOvershoot.JobBoundIffFits` | client/src/download_task.cc:103-125 | on all runs of such a job, none of whose chunks is larger, the bound holds if and only if the largest overshoot fits |
| `JobOvershoot.PublishedIsRoomy` | client/src/client.cc:402-426 | every published file with a remainder and as many full chunks as threads makes such a job |
| `Transfer.UploadTask.constructor` | client/src/client_connection_handler.cc:147-153 | the task's content is the slice asked for |
| `Transfer.UploadTask.SendOnce` | client/src/upload_task.cc:46-58 | one round: a flag or a failing call throws, else what was sent is the next part of the slice |
| `Transfer.UploadTask.RunTask` | client/src/upload_task.cc:34-62 | what was sent is a prefix of the slice, counted byte for byte; how far and how it ended follow from the flags and the send calls |
| `Transfer.DownloadTask.TakeBytes` | client/src/download_task.cc:118-125 | received bytes go behind those already there, and counters move together |
| `Transfer.DownloadTask.ReceiveOnce` | client/src/download_task.cc:91-126 | one round: a flag or a failing call throws; paused or over the limit at the gate it takes nothing; else at most what the second reading of the counter leaves, and exactly the least of that, the bytes missing and those that arrive; the round makes the four moves of a metered slot |
| `Transfer.DownloadTask.ReceiveAll` | client/src/download_task.cc:90-128 | received plus missing is always the chunk size, buffer plus stream is what the stream held, and no more is received than the rounds were allowed together |
| `MeterRounds.RoundWithinBound` | client/src/download_task.cc:103-125 | a round that makes these moves, with any steps of the other threads between its readings, is part of a run of the counters, so the overshoot bound holds of it |
| `Transfer.DownloadTask.Finish` | client/src/download_task.cc:135-144 | the checksum decides between an exception and the copy, which writes the part of the chunk that is inside the file |
| `Transfer.DownloadTask.RunTask` | client/src/download_task.cc:85-144 | on success the buffer has the chunk's checksum and the file changed only in the chunk's range, to the buffer as far as the file goes; in every other case, a failing mapping included, the file is unchanged |
| `Transfer.RunStopsAtSize` | client/src/download_task.cc:90-133 | the loop never takes more than the chunk, and is done exactly when it has all of it |
| `Transfer.ReceiveRunCompletes` | client/src/download_task.cc:90-128 | the loop completes when nobody stops it and enough rounds find quota and data |
| `Transfer.SendRunCompletes` | client/src/upload_task.cc:45-59 | the send loop completes when every call sends something |
| `Transfer.Interleave` | client/src/upload_task.cc:45-59 | the rounds of both tasks on one stream in any order: what has arrived and what is under way is what was sent, so a full buffer is the sender's slice; unless it is stopped, the sender is done after as many rounds as it has bytes, and so is the receiver after its own, unless a round throws or waits |
| `Transfer.Exchange` | client/src/download_task.cc:90-144 | for every chunk but a full last one of a published file, in any interleaving: a receiver that has its bytes passes the checksum test and writes the published piece at the chunk's offset, unless the mapping fails |
| `Transfer.TransferFidelity` | client/src/upload_task.cc:37-62 | the same on values, however the calls of both ends split the data |
| `Transfer.HonestPeerVerifies` | client/src/download_task.cc:135-140 | for every chunk but a full last one of a published file, what an honest peer sends passes the checksum comparison |
| `JobMachine.FirstMin` | client/src/job.cc:217-218 | the position that min_element returns |
| `JobConservation.StepConserves` | client/src/job.cc:77-104 | every step of every thread keeps: one place for each missing chunk, none for any other, and reports in line with each task's phase |
| `JobSockets.StepKeepsSocks` | client/src/job.cc:223-272 | every step keeps: each socket out of the pool has exactly one holder, who knows its peer |
| `JobSafety.StepKeepsSound` | client/src/download_task.cc:85-144 | every step keeps: the place of a set chunk holds bytes with its checksum as far as the file goes, what each writing or credited task has copied was genuine and is still in place as far as the file goes, and received plus missing is the chunk size |
| `JobSafety.WriteKeepsVerified` | client/src/download_task.cc:142-144 | a write for one chunk leaves the verified bytes of any other chunk as they are |
| `JobTheorems.SetBitsAreVerified` | client/src/job.cc:77-104 | on every run a set bit means that the chunk's place holds, as far as the file goes, bytes with the chunk's checksum, and for a chunk clear at the start these are what a credited task received; the bit is true of the disk if and only if the file was long enough for the chunk at the start |
| `JobTheorems.SetIffBrought` | client/src/download_task.cc:135-144 | on every run a chunk that was clear at the start is set if and only if a task was credited with it; there is then only one, what it received has the chunk's checksum and is on disk as far as the file goes, the file has bytes, and its mapping has room for the chunk |
| `JobTheorems.SetBitIsVerified` | client/src/job.cc:77-104 | the same for every reachable state |
| `JobTheorems.VerdictIsGenuine` | client/src/download_task.cc:127-140 | in every reachable state a task that misses no byte holds as many as its chunk has, and goes on to write exactly if they have its checksum, and throws otherwise |
| `JobTheorems.RunsKeepFiles` | client/src/download_task.cc:142-144 | no run creates, grows or shrinks a file |
| `ShortFile.ShortFileIsCredited` | client/src/download_task.cc:142-144 | if the file that was there can be mapped, with room for the chunk, a job for one chunk has a run that ends complete; a file that is too short keeps its length and holds the start of the chunk, and the bit is then not true of the disk |
| `ShortFile.TrueOnAllRunsIff` | client/src/job_info.cc:75-87 | for such a job the bit is true of the disk on all runs if and only if the file is long enough, or is empty, or its mapping has no room for the chunk |
| `ShortFile.TrueBeyondLastPage` | client/src/download_task.cc:142-144 | if mappings end with the last page of the file: if and only if the file is long enough, or the chunk goes beyond its last page |
| `JobTheorems.ChunksAreConserved` | client/src/job.cc:163-281 | in every reachable state a missing chunk is in exactly one of queue, hand, unreported task, failed start; a set one in none |
| `JobTheorems.OneReportPerTask` | client/src/job.cc:77-104 | a finished task was reported exactly once; a task that owes a report is the only one on its chunk, whose bit is clear |
| `JobTheorems.FailedTaskNeverCredits` | client/src/job.cc:77-93 | no later notification of a failed task sets a bit or reports again |
| `JobTheorems.SocketsAreExclusive` | client/src/job.cc:223-272 | an unfinished task is the only holder of its socket, against the scheduler, the other tasks and all other users |
| `JobTheorems.ReleaseFindsSocket` | client/src/job.cc:87-92 | when a task releases, the pool finds its socket under its peer, the assertion holds, and the socket is free |
| `JobTheorems.SocketsReturnedOnce` | client/src/job.cc:87-92 | on every run a task gives its socket back at most once, and exactly once if it is over |
| `JobTheorems.JoinedReturnsSockets` | client/src/job.cc:281 | once all threads are joined, a socket still out of the pool is with another user or was lost with a failed start |
| `JobTheorems.NoOwnerComesLast` | client/src/job.cc:187-203 | in every reachable state the chunk order above holds for what get_chunk returns |
| `JobTheorems.JoinedCompleteIff` | client/src/job.cc:187-281 | once all threads are joined, the download is complete if and only if the queue is empty and no start failed; after a normal exit only failed chunks are left |
| `JobTheorems.JobOvershootBound` | client/src/job.cc:256-272 | the overshoot bound for all runs of a job, for every limit, the largest chunk of the job being the size it counts with |
| `JobTheorems.DefaultOvershoot` | client/src/job_info.cc:233-234 | with the default limit and four threads: limit plus three largest chunks, if their triple fits in 2^31 |
| `JobTheorems.MeterOfRun` | client/src/download_task.cc:103-125 | the counters of a job's run are those of a run of the counters alone |
| `JobTheorems.StepKeepsBits` | client/src/chunk_selector.cc:92-95 | no step clears a bit |
| `JobAccounts.RunsInBuffers` | client/src/download_task.cc:118-125 | on every run of a job the bytes counted as moved are those in its tasks' buffers |
| `JobAccounts.JobBooks` | client/src/client.cc:804-807 | on every run of a job each byte that its tasks have received is in the total, in the counter, about to be added, or was thrown away by a reset |
| `JobAccounts.JobTotalsNeverOvercount` | client/src/client.cc:804-807 | so total plus counter never exceeds what the tasks have received, the collector's snapshot taken into account |
| `JobAccounts.JobTimelyBalances` | client/src/client.cc:804-807 | and nothing is missing on a run on which no task adds between the collector's read and its reset |
| `JobAccounts.JoinedBooks` | client/src/client.cc:804-807 | once all tasks are over, total plus counter is what they received less what resets threw away, which is nothing on such a run |
| `JobOutcome.PublishedIsGood` | client/src/client.cc:402-426 | a job on published files has separate chunk ranges |
| `JobOutcome.PieceOnDisk` | client/src/download_task.cc:135-144 | for every chunk of every published file that fits into the file on disk, a set bit means that the bytes on disk at its place are the published ones, or collide with them |
| `JobOutcome.PieceReceived` | client/src/download_task.cc:135-144 | whatever the length of the file, a bit set during the run means that the published piece is on disk as far as the file goes, or that what a credited task received collides with it |
| `JobOutcome.SetChunksAreOriginal` | client/src/download_task.cc:135-144 | when every chunk with bytes is set, a file on disk that is long enough for them starts with the published bytes, all of them or all but the last chunk size when that divides the size; or the bytes on disk at some chunk's place collide with the published ones |
| `JobOutcome.NewChunksAreOriginal` | client/src/download_task.cc:135-144 | when they were all set during the run, one of the file on disk, whatever its length, and these bytes is the start of the other; or what a credited task received collides with a published piece |
| `JobOutcome.CompleteFileIsOriginal` | client/src/download_task.cc:135-144 | if the chunk size leaves a remainder, in a complete job the file on disk starts with the published one if and only if it is long enough; or the bytes on disk at some chunk's place collide with the published ones |
| `JobOutcome.NewFileIsOriginal` | client/src/download_task.cc:135-144 | and in a complete job that started with clear bits, one of the two files is the start of the other, whatever their lengths; or what a credited task received collides with a published piece |
| `JobFiles.EveryPathIsOriginal` | client/src/job.cc:281-302 | after the copies every needed path of such a file holds the downloaded file, which starts with the published one if and only if it is long enough, or collides with it on disk |
| `JobFiles.EveryNewPathIsOriginal` | client/src/job.cc:281-302 | and if it started with clear bits, one of what the path holds and the published file is the start of the other, or what a credited task received collides with a published piece |
| `JobOutcome.EmptyChunkVerified` | client/src/client.cc:402-420 | a chunk recorded as empty is credited only if the empty string has its checksum |
| `JobOutcome.DividedFileNeverCompletes` | client/src/client.cc:402-420 | a file whose size the chunk size divides is never complete, short of that collision |
| `JobExample.LateFailureIsForgotten` | client/src/job.cc:187-190 | a run that ends normally with a failed chunk left in the queue, which a connected peer offers |
| `JobExample.ItBegins` | client/src/job.cc:150-165 | a job that satisfies all that the theorems ask of its start |
| `Jobs.Job.constructor` | client/src/job.cc:26-44 | a new job shares the selector's and the manager's state, with no task and no counter |
| `Jobs.Job.OnFailed` | client/src/job.cc:95-104 | requeues the chunk as failed, with the owners known now, then marks the task: two steps of the machine |
| `Jobs.Job.OnFinished` | client/src/job.cc:77-93 | credits the chunk unless reported, marks, and returns the socket and thread: two steps of the machine |
| `Jobs.Job.ReadFlags` | client/src/job.cc:169-186 | removed leaves the loop; it goes on to the queue if and only if it is neither removed nor stopped nor paused; otherwise it waits |
| `Jobs.Job.TakeChunk` | client/src/job.cc:188-191 | a step that takes a best chunk, or ends the loop on an empty queue |
| `Jobs.Job.RequestClients` | client/src/job.cc:308-341 | a nonempty answer replaces the owners of this file by the clients named, in order, with empty bitmaps; any other keeps them |
| `Jobs.Job.ConnectPeer` | client/src/job.cc:125-136 | connects to an owner; a failure is ignored |
| `Jobs.Job.DialPeer` | client/src/job.cc:124-137 | connects exactly when the owner is not connected, and leaves what is known of the owners |
| `Jobs.Job.ShakeHand` | client/src/job.cc:139-143 | a handshake changes no owner but for its bitmap |
| `Jobs.Job.Greet` | client/src/client.cc:446-454 | an owner that is not connected, or that gives no socket, fails an assertion; else the socket the pool hands out is taken |
| `Jobs.Job.EndHandshake` | client/src/job.cc:370-386 | the socket goes back; a good answer's bitmap goes to the first owner of that id, every other entry of this file and every other file being as before |
| `Jobs.Job.PutBackNoOwner` | client/src/job.cc:200-205 | a chunk whose owners were none when it was popped goes back as without owners, naming and ranked by the owners known now |
| `Jobs.Job.ReadLoad` | client/src/job.cc:210-215 | one more load is read, at its own moment |
| `Jobs.Job.PickPeer` | client/src/job.cc:217-222 | the first smallest of the loads read decides |
| `Jobs.Job.TakePeerSock` | client/src/job.cc:223-229 | one try for a socket: ready with what the pool hands out, an assertion failure for a null prototype or an unknown peer, else still waiting |
| `Jobs.Job.StartTask` | client/src/job.cc:256-275 | starts a task with the chunk and socket in hand, or loses both when the start throws |
| `Jobs.Job.FailAssertion` | client/src/job.cc:243-247 | the thread ends with the chunk and the socket in hand |
| `Jobs.Job.Launch` | client/src/job.cc:223-275 | a task starts only for a file whose first entry is stored, and the assertion fails only for one whose is not |
| `Jobs.Job.ReinitFileOwnerInfo` | client/src/job.cc:109-148 | the tracker call and the greeting of every owner are steps of the machine, for any interference; in the end the owners of the file are the clients of a nonempty answer, in order, and otherwise all is as before |
| `Jobs.Job.OnePass` | client/src/job.cc:188-277 | one pass is a run of the machine that ends at the head of the loop, with an empty queue, or with a failed assertion, that on the first entry only if it is not stored; it ends otherwise only with the schedule |
| `Jobs.Job.Loop` | client/src/job.cc:167-281 | so is the loop with the join after it |
| `Jobs.Job.AskOwners` | client/src/job.cc:153-160 | a file without a list of owners gets one that names the clients of the tracker's answer, and one that has a list keeps it; no bit, byte, task or counter changes, and every socket taken is given back, for any interference |
| `Jobs.Job.FillQueue` | client/src/job.cc:163 | it succeeds exactly when every listed bitmap is long enough to rank the missing chunks; then the loop may begin, each entry naming the owners that have its chunk |
| `Jobs.Job.CopyFiles` | client/src/job.cc:282-302 | every path of each file holds what was downloaded, every other path what it held |
| `Jobs.Job.Run` | client/src/job.cc:150-306 | whatever other threads and the network do: every set bit is true of the disk if and only if its file was long enough at the start, no file changes its length, a finished job is complete exactly when the queue is empty and no start failed, and every path of a file holds what was downloaded; it aborts only on a failed assertion |
| `Jobs.StoreBitmap` | client/src/job.cc:377-384 | the first owner with the id, if any, has the bitmap; every other bitmap and every client stays |
| `Bitmaps.RoundTrip` | client/src/job.cc:64-75 | packing a bitmap of any length and rebuilding it gives the same bitmap, hence the same count |
| `Bitmaps.BitAt` | client/src/job.cc:68-69 | bit i is bit i%64 of block i/64 |
| `Bitmaps.DecodeAt` | client/src/job.cc:72-75 | bit i of a received bitmap is bit i%64 of block i/64, and clear where the blocks have ended; the length is the count sent with it |
| `Bitmaps.PackIsCanonical` | client/src/job.cc:68-69 | a packed bitmap has ceil(n/64) blocks and zero padding |
| `Bitmaps.ReencodesIff` | client/src/job.cc:72-75 | a block list re-encodes to itself exactly when it has that form |
| `Bitmaps.ConvertBitmapToTransportFormat` | client/src/job.cc:64-70 | appends the blocks and sets the count, so that an empty message then decodes to the bitmap |
| `Bitmaps.ConvertTransportFormatBitmap` | client/src/job.cc:72-75 | the bits of the blocks, cut or extended to the count |
| `Bitmaps.CountIsFull` | client/src/client.cc:796 | the count equals the size exactly when every bit is set |
| `Bitmaps.CountIs` | client/src/client.cc:796 | the count is the number of set positions |
| `NetPacks.NetworkRoundTrip` | public/netpack/src/netpack.cc:137-161 | every 32-bit length survives the network-order prefix, read back as the signed number with the same bits |
| `NetPacks.NetworkOrder` | public/netpack/src/netpack.cc:137-145 | the four bytes are the digits of the length to base 256, the most significant first |
| `NetPacks.ReceiveCodes` | public/netpack/src/netpack.cc:64-99 | exactly when each error is reported, and what a good reception has read and left |
| `NetPacks.FrameIsReceived` | public/netpack/src/netpack.cc:35-99 | a frame at the front of any stream is received as its pack, and nothing more is consumed |
| `NetPacks.FramesAreReceived` | public/netpack/src/netpack.cc:35-99 | packs written back to back are read as the same sequence, with nothing left over |
| `NetPacks.NetPack.SetMessage` | public/netpack/src/netpack.cc:122-135 | header and fields agree afterwards |
| `NetPacks.NetPack.SendBy` | public/netpack/src/netpack.cc:35-62 | appends exactly the frame of the pack |
| `NetPacks.NetPack.ReceiveFrom` | public/netpack/src/netpack.cc:64-99 | code, fields and rest of the stream in every branch |
| `Torrents.LocalFileInfo.AddFile` | client/src/job_info.cc:49-94 | every path of a file id is kept in order, the first is the one downloaded, and only it is created, unless it is there |
| `Torrents.LocalFileInfo.HasLocalFile` | client/src/job_info.cc:106-114 | whether this path is stored under this id |
| `Torrents.NewJobFiles` | client/src/job_info.cc:246-267 | stored files, bitmaps and file ids of exactly the wanted entries; each bitmap has the chunk count of the last entry of its id and no bit set; what was on disk is as it was, and what is new is zero and of full size |
| `Torrents.ClearBitsAre` | client/src/job_info.cc:262-265 | a new job has one bit per chunk of each wanted file, none of them set |
| `Torrents.WantedAre` | client/src/job_info.cc:246-258 | the wanted entries are the needed ones in torrent order, each as often as it is listed |
| `Torrents.PathsAre` | client/src/job_info.cc:60-62 | the paths of an id are those of its wanted entries, in order |
| `Torrents.WantedMember` | client/src/job_info.cc:254-258 | an entry is wanted exactly when it is listed and its path and name are needed |
| `Torrents.PathsMember` | client/src/job_info.cc:60-62 | a path is stored for an id exactly when a wanted entry of that id has it |
| `Torrents.FirstEntryStoredIff` | client/src/job.cc:243-247 | the scheduler's assertion holds exactly when a needed entry of this id has the first one's path |
| `Torrents.WholeTorrentStored` | client/src/job.cc:243-247 | so it holds for every id when the whole torrent is needed |
| `Torrents.SecondCopyAlone` | client/src/job.cc:243-247 | two copies of which only the second is needed: the assertion fails |
| `Torrents.CopyOne` | client/src/job.cc:290-300 | every path of one file holds what its first path held, and no other path changed |
| `Torrents.CopySameFiles` | client/src/job.cc:282-302 | the same for all files of a job |
| `Progress.Shown` | client/src/client.cc:796 | the percentage of set positions, rounded down, so between 0 and 100, and 100 exactly when every bit is set; for a file without chunks whatever the cast of the undefined quotient gives |
| `Progress.PercentageGrows` | client/src/client.cc:796 | more set bits never lower it |
| `Progress.PercentageIs` | client/src/client.cc:796 | it is the hundredfold of the set positions divided by the size, rounded down |
| `Progress.FullIff` | client/src/client.cc:796 | it is 100 exactly when every bit is set |
| `Progress.ReloadedPercentage` | client/src/client.cc:690 | the reloaded value is 1 exactly when it is 100, and otherwise 0 |
| `Progress.ProgressNeverFalls` | client/src/client.cc:794-797 | over any two moments of any run it does not fall, and it is 100 exactly when every chunk of the file is set |
| `Progress.ReportsIff` | client/src/client.cc:778-788 | tick n reports exactly when n is a multiple of 30 and the job was running at this and all earlier multiples |
| `Progress.SteadyReports` | client/src/client.cc:778-788 | floor(n/30) reports in n ticks of a job that always runs |
| `Progress.ScoreFiles` | client/src/client.cc:794-802 | every file gets its percentage, and a due report lists each file once |
| `Progress.CollectJob` | client/src/client.cc:766-809 | totals, counters, percentages, countdown and report after one tick |
| `History.RunsKeepValid` | client/src/client.cc:536-764 | after any run of calls: live torrents are distinct and registered, handles are never reused, every handle has a path |
| `History.ApplyKeeps` | client/src/client.cc:536-764 | each call keeps this |
| `HistoryTheorems.JobRoundTrip` | client/src/client.cc:673-705 | a saved job comes back with its torrent, top path, totals and bitmaps, needing all files, paused, not stopped and not removed |
| `HistoryTheorems.SaveThenReload` | client/src/client.cc:598-705 | for any valid registry, save and reload into an empty client completes exactly when no live job has a file without chunks, and gives the live jobs in handle order |
| `HistoryTheorems.HistoryRoundTrip` | client/src/client.cc:598-764 | the same after any run of additions, removals, progress and accounting |
| `HistoryTheorems.ReloadSkips` | client/src/client.cc:659-663 | a record whose torrent cannot be parsed makes no difference, wherever it stands |
| `HistoryTheorems.JobAddsUp` | client/src/client.cc:804-807 | on every run of calls a live job keeps its torrent and files, its totals grow by exactly what was collected for it, and a chunk is set exactly if it was or has been finished since |
| `HistoryTheorems.AlterFlags` | client/src/client.cc:507-562 | pausing, resuming and stopping change the flags as named, and no other call on a live job does |
| `JobHistory.EarlierBitsHold` | client/src/client.cc:622-634 | the bits of any moment of a run are true of the disk at any later moment |
| `JobHistory.RestartIsSafe` | client/src/client.cc:673-705 | a job whose bits were saved while it ran, each bit read at its own moment, and that is restarted later on the disk as it then is, begins with true bits, so that all theorems hold of the restarted job |
| `JobHistory.SaveLoopReads` | client/src/client.cc:622-634 | the save loop, which reads the bitmap of each entry at its own moment while tasks set bits, leaves records of that kind |
| `JobHistory.SnapshotReads` | client/src/client.cc:622-634 | so does saving a job whose bitmaps are those of one moment |
| `HistoryTheorems.SaveableIff` | client/src/client.cc:622-634 | a new job can be saved exactly when every file of its torrent has a needed entry with the same content |
| `HistoryTheorems.RunsKeepSaveable` | client/src/client.cc:622-634 | no run of calls changes whether a live job can be saved |
| `HistoryTheorems.RegisteredForGood` | client/src/client.cc:589-596 | a registered torrent id stays registered on every run |
| `HistoryTheorems.RestartForgetsRemoved` | client/src/client.cc:719-731 | after a restart a torrent is refused exactly when its job was live |
| `HistoryTheorems.CoarseIs` | client/src/client.cc:690 | count over size as integers is 1 for a full bitmap and 0 for any other |
| `Client.NewJobInfo` | client/src/job_info.cc:240-268 | a new job on its torrent's wanted files: stopped and paused, nothing counted, one bit per chunk and none set |
| `Client.SaveJob` | client/src/client.cc:616-637 | saves one job exactly when every file of its torrent has a bitmap; as many records as entries, for each entry one with its id, path and name whose blocks decode to the bitmap of its file |
| `Client.CoolClient.AddNewJob` | client/src/client.cc:707-717 | the next handle, the job, and its torrent path |
| `Client.CoolClient.AddNewDownloadJob` | client/src/client.cc:719-731 | refused if the torrent was ever added; else one job more, under the next handle, on the needed files, with no bit set |
| `Client.CoolClient.AddNewUploadJob` | client/src/client.cc:733-764 | the same on all files, with every bit set, each file id once |
| `Client.CoolClient.RemoveJob` | client/src/client.cc:536-549 | the job moves to the removed ones, marked and otherwise as it was; its path and torrent id stay |
| `Client.CoolClient.PauseJob` | client/src/client.cc:517-529 | the job is paused, whether stopped or not stays, and no other job changes |
| `Client.CoolClient.ResumeJob` | client/src/client.cc:551-562 | the job is neither paused nor stopped, and no other job changes |
| `Client.CoolClient.StopJob` | client/src/client.cc:507-515 | the job is stopped, whether paused or not stays, and no other job changes |
| `Client.CoolClient.SaveJobHistory` | client/src/client.cc:598-645 | succeeds exactly when every live job can be saved, with one record for each, in handle order |
| `Client.CoolClient.ReloadOneJob` | client/src/client.cc:673-705 | fails exactly when the torrent is there already or a saved bitmap is empty; else adds one job on the entries of the history, with its totals, paused, the last record of each file giving its bitmap and percentage |
| `Client.CoolClient.ReloadJobHistory` | client/src/client.cc:647-671 | skips what cannot be parsed, and stops with the first failure |
| `Client.AssignFiles` | client/src/client.cc:685-693 | the last record of each id gives its bitmap and percentage, an id without a record keeps its own, and the division fails at an empty bitmap |
| `Client.SetAll` | client/src/client.cc:750-762 | the loop that skips repeated ids sets every bit of every file and changes no length |

## Left out

- Sockets, reactor handlers, shared memory, directories, logging, configuration, `main` and the speed display:
  plumbing around the model. Streams and files are byte sequences.
- Protobuf encoding and SHA-1: a codec with a round trip, and an arbitrary function to digests.
- The tracker: its logic is in SQL; its answer to a request is a parameter.
- Liveness: waits are steps that may be taken. Lost wakeups, time limits and fairness are not modelled.
- Rounding of floating-point division in percentages: exact quotients. What the cast of NaN gives for a file without
  chunks is a parameter.
- `progress_info_to_report_` is swapped, so a report that was not sent yet is dropped: the reporting thread is not
  modelled.
- The same job started twice at once, and several jobs writing one path: one run for each job, one job for each file.
- Different files of one torrent with the same path: `Jobs.Job.Run` asks that no two files share one.
- Directories that `add_file` and the final copies create, and files that grow or shrink by other hands.
- Memory behind a mapping. How far a mapping can be written is a parameter of a job, and a copy beyond it ends the
  process: the run goes no further. What a copy does to other memory that happens to lie there is not modelled.
- `JobFiles.EveryPathIsOriginal`: it speaks of the start of the file; a longer file that was there before keeps its
  tail.
- `JobAccounts.JobBooks`: the download side. Uploads have the same counters without a quota; of them
  `Meter.TotalsNeverOvercount` and `Meter.TimelyRunsBalance` hold as of downloads.
- `Jobs.Job.OnFailed` and the ranking in the loop read the list of owners in one step. No lock covers it
  (client/src/chunk_selector.cc:55-69, client/src/job.cc:338), so in the program a callback can read it while it is
  replaced.
- `Jobs.Job.OnFailed`: an owner whose bitmap is too short makes the ranking abort the process, so the step asks for
  bitmaps that are long enough; where the scheduler ranks, such a bitmap ends the run as aborted.
- `Jobs.Job.OnFinished`: the observer serialises the callbacks, so each of their two parts is one step; setting a bit
  is atomic.
- `Transfer.DownloadTask.RunTask`: the message exchange before the loop is a step of `JobMachine` that can only succeed
  or throw.
- Ties in the priority queue and the sorted order of the distinct file ids: any order is allowed, and the theorems hold
  for each. So does the order of the file records in a saved job.
- Widths of the atomic counters beyond the quota arithmetic: unbounded numbers.
- Jobs in the registry are values that are replaced, not objects shared with running threads, and registry calls are
  serial. An exception in the middle of a call leaves a state that the model does not describe.
- Progress and accounting of a registered job are steps of `History.Apply` without an object method of their own: they
  come from the running job.
