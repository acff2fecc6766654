# SwarmSync in Dafny

A model of SwarmSync, the chunked peer-to-peer file transfer system, and proofs about it. A file is described
by a manifest of chunk hashes; a tracker relays which peer has which chunks; downloaders fetch chunks from
peers, write them into a part file, publish their progress in a resume file, and serve what they have while
they go. `dafny verify dfyconfig.toml` checks the project.

The four concurrent or stateful parts are:

* **The download with its crashes and restarts** (`Download`, `DownloadInvariant`, `DownloadSteps`,
  `DownloadTheorems`, `DownloadProgress`, `DownloadPaths`, `DownloadHalt`, `DownloadRecovery`, `DownloadOutcome`,
  `DownloadFailure`, `DownloadSharing`).
  A step relation in which every file operation, lock operation and access
  to shared state of any number of workers, the heartbeat, the peer server's readers and the main thread is a
  step of its own. The process may be killed between any two steps, losing whatever of the part file was not
  fsynced, and while it is down the files may be changed from outside at will. One inductive invariant is kept by
  every step; the theorems are about every state of every run, and `DownloadOutcome` says exactly which stopped
  downloads can still be finished. The same operations as objects with loops are in
  `PartialFile` and `ResumeStore`.
* **The resume store's dirty/revision protocol** (`ResumeStore`, `ResumeText`): snapshot under the lock, write
  and rename outside it, clear `dirty_` only if nothing was marked meanwhile. It needs at most one flush in
  flight; `DownloadTheorems.OneFlushAtATime` shows that the download supplies this.
* **The tracker's table** (`TrackerTable`, `TrackerLog`, `TrackerServer`, `TrackerRelay`, `Announcements`,
  `TrackerExchange`): a lazily pruned, bounded map of maps that agrees with a reference that has no table, only the
  log of requests, and the way an announcement travels through it to a client.
* **The bounded connection queue** (`ConnectionQueue`, `QueueService`) that the tracker and the peer server share in shape.

They rest on chunk arithmetic (`Geometry`), on printers and parsers (`Text`, `Crypto`, `Manifests`, `ChunkLists`,
`Protocol`, `ResumeText`) and on byte streams that cut what is sent and received anywhere (`Streams`,
`PeerService`). `Base` and `Counting` are helpers.

Conventions: bytes and text are `string`; SHA-256 is a parameter `hash` of which only `ProducesDigests` is used
(every value is 64 lowercase hex digits); an exception is `Err`; where a theorem speaks of equality with the
source file, absence of collisions among the chunks involved is a hypothesis. Integer widths appear as explicit
bounds.

Things the code does that its users may not expect, each shown by a lemma:

* A kill between creating the part file and sizing it leaves an empty file that every later start refuses
  (`KilledWhileSizing`, `ShortForGood`).
* The first announcement of a start is the only one whose failure ends the run, and its header must fit in 8192
  bytes. A download killed with a long list of chunks, short of all of them, can therefore never be started again:
  4089 chunks are too many under any names and on any port, fewer when the numbers are longer
  (`KilledWithLongList`, `UnannounceableForGood`, `AnnouncesIff`).
* Left alone, these two, and a token or peer id that no header can carry, are the only ways to be stopped for good;
  every other stopped download can be finished, with the source as its final file (`RecoverableIff`,
  `WorkersStartIff`).
* One listed peer whose address the tracker writes with an IPv6 zone makes clients reject the whole PEERS answer
  (`ZonedHostIsRefused`, `AnswerOutcome`).
* `now` is read before the table's lock is taken, so two requests may be handled with their readings swapped; a
  query can then miss a peer that is younger than the TTL by the query's own reading
  (`OutOfOrderReadingLosesPeer`). With readings in order this cannot happen (`StandingMeansYoung`).
* The resume loader takes an empty `complete=` value for an empty list; the printer never writes one
  (`ResumeText.ReadMarks`).

## Model

| member | source | states |
|---|---|---|
| `DownloadSteps.RunKeepsInv` | src/download.cpp:214-353 | every state of every run (any workers, interleaving, crashes, restarts, damage while down) satisfies the invariant |
| `DownloadSteps.StepKeepsInv` | src/download.cpp:214-353 | every single step of any thread, a kill or outside damage keeps the invariant |
| `DownloadTheorems.MarkedChunksAreVerified` | src/download.cpp:130-206 | from the end of revalidation on, each chunk marked in memory hashes to its manifest entry in the part file, whatever happened before |
| `DownloadSteps.PwriteLeavesOthers` | src/download.cpp:172-187 | a partial `pwrite` of one chunk leaves every other chunk's bytes, hence its correctness, as they were |
| `DownloadSteps.WholeChunkWritten` | src/download.cpp:172-190 | when the write loop ends, the chunk in the file is the verified one |
| `DownloadTheorems.PublishedChunksAreDurable` | src/download.cpp:188-205 | without outside damage, at every point the published resume file loads, and each chunk it lists was fsynced and is right both now and in whatever a crash at that point may leave of the part file |
| `DownloadSteps.CrashKeepsDisk` | src/resume_store.cpp:52-93 | losing any unsynced chunk bytes keeps the files consistent |
| `DownloadTheorems.ProgressIsKept` | src/resume_store.cpp:185-201 | across any crashes and restarts without outside damage, a chunk once listed in the published file stays listed until the final file exists |
| `DownloadOutcome.RecoverableIff` | src/download.cpp:214-353 | left alone, a download stopped anywhere can be finished, with the source as final file and no part or resume file left, if its part file is not short and its progress can be announced on some port it may get, and can never return otherwise |
| `DownloadOutcome.WorkersStartIff` | src/download.cpp:229-260 | left alone, an unfinished download never gets to its workers again if and only if its part file is short or its progress cannot be announced |
| `DownloadOutcome.AnnouncesIff` | src/tracker.cpp:80-84 | marks can be announced exactly when token and peer id are atoms and the header, whose length is given, is at most 8192 bytes |
| `DownloadOutcome.KilledWithLongList` | src/download.cpp:260-260 | for any source with more than 4089 chunks, a run killed after any number of chunks from 4089 on: undamaged, sized, and stopped for good |
| `DownloadHalt.UnannounceableForGood` | src/download.cpp:343-352 | progress that cannot be announced stays on disk as it is and stops every later start before its workers |
| `DownloadTheorems.FilesRefusedIffShort` | src/download.cpp:222-232 | left alone, the checks on the files refuse a start exactly when the part file was created and never sized |
| `DownloadHalt.KilledWhileSizing` | src/download.cpp:47-54 | a concrete run into that state |
| `DownloadHalt.ShortForGood` | src/download.cpp:41-45 | from that state no later start gets past examining the files until someone else changes them |
| `DownloadTheorems.RestartTrustsEveryMark` | src/download.cpp:130-151 | left alone, loading succeeds with exactly the listed marks, revalidation discards none, and the start goes on to its first announcement |
| `DownloadTheorems.OneFlushAtATime` | src/download.cpp:153-206 | at most one worker is inside the write lock, a flush in flight belongs to one inside `flush`, whoever begins a flush (worker or main thread) finds none in flight, and a clean store is exactly what the disk would load as |
| `DownloadTheorems.EveryChunkClaimedOnce` | src/download.cpp:288-327 | if all workers return and none failed, every index below the count was claimed exactly once in that worker phase and every chunk is marked |
| `DownloadTheorems.OneClaimPerIndex` | src/download.cpp:291-291 | no index is claimed twice in a worker phase, failures or not |
| `DownloadTheorems.CounterBounded` | src/download.cpp:280-327 | `next_index` stays at most chunk count plus worker count, and the branch for missing chunks after the join is never taken |
| `DownloadFailure.FailureEndsInError` | src/download.cpp:306-324 | once a worker's failure is recorded, the run stays on its way to the error path until it stops; it never reaches the final flush, the check, the rename or a normal return |
| `DownloadFailure.JoinOutcome` | src/download.cpp:319-327 | at the join a recorded failure, and nothing else, decides: with one the run is broken off, without one all chunks are there |
| `DownloadFailure.FailsWithEverythingMarked` | src/download.cpp:204-205 | a run in which the last chunk is written, synced and marked and then its flush fails: a failure with every chunk marked |
| `DownloadFailure.FailureStopsClaims` | src/download.cpp:290-291 | once a failure is flagged, at most the workers already past the test claim, each one index more |
| `DownloadSteps.ClaimDoesNotWrap` | src/download.cpp:291-291 | the 32-bit increment never wraps |
| `DownloadSteps.JoinedMeansComplete` | src/download.cpp:319-327 | all workers returned and no failure recorded means all chunks marked |
| `DownloadProgress.WorkersNeverDeadlock` | src/download.cpp:288-318 | while a worker has not returned, some worker can take a step that is not a storage failure, and if that step is giving up a fetch it is the given worker's own: no wait for a lock whose holder waits |
| `DownloadTheorems.FinalAppearsVerified` | src/download.cpp:332-335 | only the rename (or outside damage) changes the final path; the rename happens when there is none, and installs the part file, whose hash is the manifest's |
| `DownloadTheorems.ReturnMeansVerified` | src/download.cpp:222-228 | every normal return has a final file with the manifest's hash, even after arbitrary damage |
| `DownloadTheorems.MarkedPartIsSource` | src/download.cpp:325-334 | for a manifest built from a source, with no colliding chunk in the run, a part file with every chunk marked is the source |
| `DownloadTheorems.WholeFileCheckSucceeds` | src/download.cpp:332-334 | under the same hypotheses the final whole-file check cannot fail |
| `DownloadTheorems.FinalIsSource` | src/download.cpp:335-342 | under the same hypotheses, left alone, whenever a final file exists it equals the source |
| `DownloadTheorems.ReturnedIsSource` | src/download.cpp:222-228 | whatever was done to the files, a normal return has the source as final file unless that file collides with it |
| `DownloadTheorems.AnnouncementsAreTrue` | src/download.cpp:256-259 | an announcement put together from two separately locked reads claims only chunks that are marked and right while it is sent, and its list prints and parses back |
| `DownloadSharing.AnnouncementsAreComplete` | src/download.cpp:256-259 | from the read of its list until it is sent, a worker's announcement names exactly the chunks complete at that read |
| `DownloadSharing.HeartbeatReads` | src/download.cpp:271-272 | the heartbeat's two reads take every mark there is and whether that is all |
| `DownloadOutcome.AnnouncementsArriveIff` | src/download.cpp:301-305 | such an announcement parses at the tracker as exactly what was intended if token and peer id are atoms and the header fits, and is refused before sending otherwise |
| `Announcements.AnnouncementOutcome` | src/tracker.cpp:80-84 | for any names, port and list: the header's exact length, and that the check before sending yields the intended request exactly when the names are atoms, the port is valid and the length is at most 8192 |
| `Announcements.LongListUnsendable` | src/protocol.cpp:86-89 | a list of 4089 chunks or more, short of all, cannot be announced under any names |
| `DownloadTheorems.AdmittedReadsAreVerified` | src/peer_server.cpp:153-175 | a GET admitted by `has_chunk` reads hash-correct bytes while others write, so "corrupt" is not sent, and the reply decodes to them |
| `DownloadSharing.CompleteChunksAreServed` | src/peer_server.cpp:153-166 | in every reachable state of the worker phase a free connection can be admitted for a complete chunk and read all of it |
| `DownloadTheorems.ConfigForIsValid` | src/download.cpp:229-234 | with the real resume format and announcement header the theorems' only assumption on the configuration is that there is a worker and count plus workers fits in 32 bits |
| `PartialFile.PartFile.Prepare` | src/download.cpp:40-59 | an existing file must have the right size and is left alone; a new one becomes zeros, or on failure is missing or empty, including the failure on closing that goes unnoticed |
| `PartialFile.PartFile.Pwrite` | src/download.cpp:175-176 | some front part of the data is written in place and nothing else changes |
| `PartialFile.ChunkMatches` | src/download.cpp:117-128 | for a file of any length, true exactly when the whole chunk can be read and hashes to the manifest's entry |
| `PartialFile.ReadsRightIff` | src/download.cpp:117-128 | that is: all of the chunk lies in the file and it hashes right |
| `PartialFile.RightMeansMatches` | src/download.cpp:117-128 | in a file of the right size that is the slice hashing right |
| `PartialFile.Revalidate` | src/download.cpp:130-151 | exactly the marks that are right survive, for a file of any length; a file that cannot be read is an error unless nothing is marked; a change is published or the old file is untouched |
| `PartialFile.WriteChunk` | src/download.cpp:172-190 | for every way `pwrite` cuts the data the chunk becomes the data and no other chunk changes, also when it fails half way |
| `PartialFile.WriteVerifiedChunk` | src/download.cpp:153-206 | every other marked chunk stays right whatever fails, and so does this one unless it was marked already and rewriting it failed; success means written, marked and saved; failure leaves the published file alone |
| `PeerService.PeerHasChunk` | src/download.cpp:61-64 | for a strictly increasing list the binary search is has-all or membership |
| `PeerService.FetchChunk` | src/download.cpp:66-86 | for every way the reply arrives, the result is what decoding its bytes gives, and over a failing stream that or an error; success means right length and right hash |
| `PeerService.FetchWithRetry` | src/download.cpp:88-115 | succeeds exactly when some round has a usable reply from another peer advertising the chunk, with the verified bytes of the first such reply of the first such round; counts the retries |
| `PeerService.TryPeers` | src/download.cpp:99-105 | one round succeeds exactly when some eligible peer's reply verifies, with the first such reply |
| `PeerService.ServeConnection` | src/peer_server.cpp:142-179 | the reply its checks in order call for, including an unreadable file; over failing streams a front part of it, followed by some of an error reply, or the error reply for a request that could not be read |
| `PeerService.SentIff` | src/peer_server.cpp:144-175 | a chunk is sent exactly for a GET with the peer's own token and swarm id, in range, offered, and whole and right in the file; and then it is that chunk with the manifest's digest |
| `PeerService.ReplyIs` | src/peer_server.cpp:144-178 | any other line is answered with the first reason against it: no GET, another token, another swarm, not offered, not readable, not right |
| `PeerService.WriteOutcome` | src/peer_server.cpp:16-21 | an error line, or header and payload, reaches a healthy stream whole; a failing one gets a front part, and after a cut DATA reply some of an error line |
| `PeerService.DataReplyDecodes` | src/peer_server.cpp:173-175 | a DATA reply decodes to its own payload, even one full of line breaks and followed by more |
| `PeerService.FetchFromPeer` | src/download.cpp:69-85 | any downloader and any peer: the fetch yields the chunk exactly when they share token and manifest and the peer offers and holds it, for a file of any length or none, and an error otherwise |
| `PeerService.DecodedIff` | src/download.cpp:72-85 | a reply is taken exactly when its line announces the manifest's size and digest and the bytes after it are verified |
| `PeerService.Exchange` | src/peer_server.cpp:142-179 | the whole conversation over two streams, for every segmentation of sends and receives |
| `ResumeStore.StoreStepKeepsInv` | src/resume_store.cpp:138-201 | marks at any time and every step of one flush keep the store's invariant; only the rename changes the published file |
| `ResumeStore.RunKeepsStoreInv` | src/resume_store.cpp:138-201 | hence it holds in every state of every run with at most one flush in flight |
| `ResumeStore.CleanMeansSaved` | src/resume_store.cpp:185-201 | in every such state, not dirty means the file on disk would load as exactly the marks in memory |
| `ResumeStore.SecondFlushClobbers` | src/resume_store.cpp:57-58 | from any marks and files, a run of two overlapping flushes that publishes an empty file, which does not load, and calls the store clean |
| `ResumeStore.FileCodecFaithful` | src/resume_store.cpp:203-270 | the real format gives back the marks it printed and never marks of another length |
| `ResumeStore.ResumeFiles.WriteAtomic` | src/resume_store.cpp:52-93 | all of the content under the published name, or the old file untouched |
| `ResumeStore.ChunkStore.LoadOrCreate` | src/resume_store.cpp:105-113 | fails exactly on a file that does not load; otherwise the loaded marks, clean, or no marks, dirty |
| `ResumeStore.ChunkStore.MarkComplete` | src/resume_store.cpp:138-146 | refuses an index out of range; a new mark bumps the revision and dirties the store, an old one changes nothing |
| `ResumeStore.ChunkStore.MarkIncomplete` | src/resume_store.cpp:148-156 | the same for taking a mark away |
| `ResumeStore.MarkEffect` | src/resume_store.cpp:138-156 | a mark becomes what was asked, no other changes, and revision and dirty flag move exactly when something changed |
| `ResumeStore.ChunkStore.AllComplete` | src/resume_store.cpp:164-172 | true exactly when every chunk is marked |
| `ResumeStore.ChunkStore.CompletedChunks` | src/resume_store.cpp:174-183 | the marked indices, in increasing order |
| `ResumeStore.ChunkStore.Flush` | src/resume_store.cpp:185-201 | success means clean and saved; failure leaves flag and published file alone; the marks never change |
| `ResumeStore.LoadExisting` | src/resume_store.cpp:203-247 | the loader's loop computes `Load` |
| `ResumeText.LoadSerialize` | src/resume_store.cpp:203-270 | a printed file loads back as exactly its marks for its own swarm and count, and is refused for any other |
| `ResumeText.SerializeMarks` | src/resume_store.cpp:249-270 | the printing loop computes the text the round trip is about |
| `ResumeText.ReadMarks` | src/resume_store.cpp:222-246 | the list loop accepts exactly strictly increasing in-range lists, `none` and the empty value |
| `ResumeText.ParseMarksIff` | src/resume_store.cpp:222-246 | a list value stands for marks exactly when its numbers are the marked indices, in order and in range |
| `ResumeText.TrailingRefused` | src/resume_store.cpp:215-218 | anything after the list line is refused |
| `ConnectionQueue.RunKeepsInv` | src/peer_server.cpp:57-140 | lock, wake-up, stop and counting invariants hold in every state of every run |
| `ConnectionQueue.NoLostWakeUp` | src/peer_server.cpp:92-140 | with something queued and no notification outstanding some worker is awake; once `stop` has notified nobody sleeps or is about to |
| `ConnectionQueue.AccountingHolds` | src/tracker.cpp:149-234 | the counter is queued plus served plus the acceptor's slot plus what `stop` still owes, admitted connections never exceed the limit, connections leave in order, and after `stop` the counter is zero |
| `ConnectionQueue.BusyOnlyWhenFull` | src/peer_server.cpp:97-102 | whoever is answered "busy" was counted while as many connections as the limit allows were queued or being served |
| `ConnectionQueue.GivenUpMeansStopping` | src/peer_server.cpp:104-116 | a connection is dropped unqueued only once the server is stopping |
| `QueueService.NewcomerIsQueued` | src/peer_server.cpp:92-116 | a client of a running server with a free slot can be queued behind those already there |
| `QueueService.QueuedIsServed` | src/peer_server.cpp:125-140 | in every reachable state of a running server the connection at the front of the queue can get served |
| `QueueService.FirstClientIsServed` | src/tracker.cpp:185-234 | from the start, for every positive limit and any number of workers, a client connects, is queued and is served |
| `ConnectionQueue.CounterNeverUnderflows` | src/tracker.cpp:149-234 | every subtraction from the counter finds enough to subtract from |
| `ConnectionQueue.StepsRunOut` | src/peer_server.cpp:57-83 | from the call of `stop` on, every step of any thread lowers the number still to take |
| `ConnectionQueue.StopTerminates` | src/peer_server.cpp:57-83 | in every run all threads together take at most 13 plus five times the workers more steps after `stop` is called |
| `ConnectionQueue.StopCannotDeadlock` | src/peer_server.cpp:57-83 | from the call of `stop` until it returns some thread can always take a step, so it returns |
| `TrackerTable.TableAgreesWithLog` | src/tracker.cpp:244-321 | whatever the clock readings, the table holds a record exactly when the log has an announcement that was stored, never replaced, and fresh at every later request, and the record is that announcement |
| `TrackerLog.AnnouncementStoredIff` | src/tracker.cpp:249-267 | after any log, in any order of readings, an announcement is stored exactly when its peer is live in the log, or its swarm has live peers but fewer than the limit, or has none and fewer swarms than the limit are live; live is counted in the log alone, with the TTL written out |
| `TrackerLog.EveryoneFits` | src/tracker.cpp:251-267 | while no more swarms and no more peers of the swarm have been named than the limits allow, every announcement is stored |
| `TrackerLog.QueryFindsExactlyTheLive` | src/tracker.cpp:274-290 | a query finds exactly the peers live in the log before it, each as its last kept announcement said |
| `TrackerLog.YoungWhenInOrder` | src/tracker.cpp:305-321 | with readings in order, live means less than the TTL since the last kept announcement |
| `TrackerTable.StandingMeansYoung` | src/tracker.cpp:305-321 | with readings in order this is: last stored announcement, younger than the TTL |
| `TrackerTable.OutOfOrderReadingLosesPeer` | src/tracker.cpp:244-251 | a log with swapped readings in which a young peer is lost |
| `TrackerTable.StoredAtMeaning` | src/tracker.cpp:251-267 | an announcement counts as stored exactly when the table it met, pruned, had room for it |
| `TrackerTable.AnswerAgreesWithLog` | src/tracker.cpp:274-290 | with readings in order each listed peer is its last stored announcement and younger than the TTL; all such are listed if they fit, otherwise exactly the allowed number of distinct ones |
| `TrackerTable.MembersAreLive` | src/tracker.cpp:274-290 | soundness of the table for a query |
| `TrackerTable.LiveAreMembers` | src/tracker.cpp:274-290 | completeness of the table for a query |
| `TrackerTable.FullAnswerListsAll` | src/tracker.cpp:280-288 | an answer with room for everyone lists everyone |
| `TrackerTable.RunsStayWithinBounds` | src/tracker.cpp:244-273 | in any order of clock readings: counts within limits, no empty swarm, every record under its own id with a strictly increasing list |
| `TrackerTable.LivePeerNeverRefused` | src/tracker.cpp:251-267 | a peer still live after pruning is never refused for capacity |
| `TrackerServer.Tracker.HandleConnection` | src/tracker.cpp:236-303 | the table stays what the log makes of an empty one, and every announcement in the log came in an accepted header with the tracker's token; each accepted line adds its request, and the reply is OK, a capacity error, a legal answer from the pruned table, or the right refusal; over failing streams a front part of it and then some of an error line |
| `TrackerServer.TokenDecides` | src/tracker.cpp:238-242 | a line is handled exactly when it parses and carries the tracker's token; one that parses with another token is refused as unauthorized |
| `TrackerExchange.AskForPeers` | src/tracker.cpp:91-109 | query, table and reading together, for every segmentation: improper names are not sent and another token is refused; for a 64-character swarm whose peers announced from atom hosts of at most 70 characters the client gets a legal answer, and with clock readings in order one that agrees with the log |
| `TrackerExchange.MembersAreRelayable` | src/tracker.cpp:246-295 | whatever a reachable table holds for such a swarm survives the trip to a client |
| `TrackerExchange.AnnounceTo` | src/tracker.cpp:80-89 | an announcement that cannot be sent, or carries another token, changes nothing and fails; any other enters the log as intended and succeeds exactly when the tracker had room |
| `TrackerServer.Tracker.Dispatch` | src/tracker.cpp:244-296 | the same for a request that parsed and carried the token: a legal reply, whole or, on failure, a front part of it |
| `TrackerServer.Tracker.Prune` | src/tracker.cpp:305-321 | the erasing double loop leaves exactly the fresh records and no empty swarm |
| `TrackerServer.PrunePeers` | src/tracker.cpp:308-314 | the inner loop keeps exactly the fresh peers |
| `TrackerServer.Tracker.Store` | src/tracker.cpp:249-267 | prunes, then stores exactly when there is room, within limits |
| `TrackerServer.Tracker.Collect` | src/tracker.cpp:274-290 | prunes, then copies out a legal answer |
| `TrackerServer.FirstMembers` | src/tracker.cpp:280-288 | distinct members in whatever order, all of them or exactly the limit |
| `TrackerServer.WriteAnswer` | src/tracker.cpp:291-296 | one line per peer and END, whole, or a proper front part on failure |
| `TrackerRelay.RelayOutcome` | src/tracker.cpp:42-55 | a stored peer's PEER line parses back to the same peer if and only if its host is an atom and both the line and the rebuilt check header fit in 8192 bytes |
| `TrackerRelay.AcceptedAnnounceIsRelayed` | src/tracker.cpp:246-295 | any accepted announcement for a 64-character swarm id from an atom host of at most 70 characters arrives at clients unchanged; no rebuilt text exceeds the limit |
| `TrackerRelay.ZonedHostIsRefused` | src/tracker.cpp:51-51 | a link-local address with its zone does not survive |
| `TrackerRelay.AnswerOutcome` | src/tracker.cpp:98-108 | a PEERS answer is read back peer for peer if every listed peer can be relayed, and rejected whole otherwise |
| `TrackerRelay.ReadAnswer` | src/tracker.cpp:98-108 | the client's loop gives that result for every way the answer arrives, and over a failing stream that or an error |
| `Geometry.ChunkInFile` | src/manifest.cpp:212-227 | every chunk is non-empty and inside the file; product, difference and cast stay in 64, 64 and 32 bits |
| `Manifests.OffsetsArePlatformOffsets` | src/download.cpp:157-161 | every offset of a valid manifest fits a signed 64-bit file offset, so the refusals of larger ones are dead branches |
| `Geometry.ChunksTouch` | src/manifest.cpp:212-227 | consecutive chunks touch, the first starts at 0, the last ends at the file's end |
| `Geometry.LocateChunk` | src/manifest.cpp:33-35 | every byte position lies in a chunk |
| `Geometry.ChunksDisjoint` | src/manifest.cpp:212-227 | and in only one |
| `Geometry.LengthsSumToSize` | src/manifest.cpp:33-35 | chunk lengths add up to the file size |
| `Geometry.WriteLeavesOtherChunks` | src/download.cpp:175-176 | a write inside one chunk changes no other |
| `Geometry.WriteExtendsPrefix` | src/download.cpp:174-187 | a partial write extends what is already in place |
| `Geometry.SlicesDetermineFile` | src/manifest.cpp:212-227 | files of the right size that agree chunk by chunk are equal |
| `Manifests.FromFile` | src/manifest.cpp:64-103 | the read loop yields exactly the expected number of hashes, each of the slice that offset and size name; fails exactly on a bad chunk size, name or chunk count |
| `Manifests.SerializeManifest` | src/manifest.cpp:193-206 | the printing loop computes the text the round trip is about |
| `Manifests.LoadManifest` | src/manifest.cpp:105-155 | the loading loops compute `Load` |
| `Manifests.Load` | src/manifest.cpp:105-155 | whatever loads has passed every check of `validate` |
| `Manifests.LoadedReprints` | src/manifest.cpp:153-154 | what loads reprints to a text that loads as the same manifest |
| `Manifests.StaysInDirectory` | src/manifest.cpp:37-41 | the file and part file of a valid manifest are direct children of the output directory |
| `Manifests.TrailingRefused` | src/manifest.cpp:140-143 | anything after the last chunk line is refused |
| `Manifests.ReadChunkMap` | src/manifest.cpp:127-139 | the chunk-line loop collects the lines, failing on a malformed or duplicate one |
| `Manifests.LineUp` | src/manifest.cpp:145-152 | succeeds exactly when every index below the declared count is present, in order |
| `Manifests.LoadSerialize` | src/manifest.cpp:105-206 | loading a printed valid manifest gives it back, so printing is injective |
| `Manifests.SwarmIdIdentifiesManifest` | src/manifest.cpp:208-210 | if the two texts do not collide, equal swarm ids mean equal manifests |
| `Manifests.LoadIgnoresLineOrder` | src/manifest.cpp:127-152 | permuting the chunk lines does not change what loads |
| `Manifests.LoadKeepsEveryLine` | src/manifest.cpp:127-152 | a manifest that loads has as many hashes as chunk lines, and every line's hash is at its own index |
| `Manifests.KeysAreExactlyTheRange` | src/manifest.cpp:146-152 | as many distinct indices as declared that cover the range are exactly the range |
| `Crypto.HexEncode` | src/crypto.cpp:118-126 | the loop computes the hex text the round trip is about |
| `Crypto.HexDecode` | src/crypto.cpp:128-143 | the loop computes the decoding the round trip is about, failing on odd length or a non-hex digit |
| `Crypto.FromHexIff` | src/crypto.cpp:128-143 | exactly the texts of complete pairs of hexadecimal digits, of either case, decode |
| `Crypto.HexRoundTrip` | src/crypto.cpp:118-143 | decoding what was encoded gives it back |
| `Crypto.HexCanonical` | src/crypto.cpp:118-143 | a text that decodes is printed back unchanged exactly when it is in lower case |
| `ChunkLists.EncodeChunkList` | src/protocol.cpp:497-515 | prints `all`, `none` or the list, refusing one that is not strictly increasing |
| `ChunkLists.ParseChunkList` | src/protocol.cpp:144-170 | the loop computes `ParseList` |
| `ChunkLists.ParseList` | src/protocol.cpp:144-170 | accepts only strictly increasing 32-bit lists, empty exactly for `all` and `none` |
| `ChunkLists.ParseListIff` | src/protocol.cpp:144-170 | a text is accepted exactly when it is `all`, `none` or numerals of a strictly increasing 32-bit list |
| `ChunkLists.ParseEncoded` | src/protocol.cpp:497-515 | parsing inverts printing on every strictly increasing list |
| `ChunkLists.EncodedIff` | src/protocol.cpp:497-515 | the printer refuses a list exactly when no text stands for it, and what it prints stands for the list |
| `ChunkLists.ReencodedNoLonger` | src/protocol.cpp:497-515 | printing a parsed list never makes it longer |
| `ChunkLists.BinarySearch` | src/download.cpp:62-63 | on a strictly increasing list the search is membership |
| `Protocol.SplitHeader` | src/protocol.cpp:86-110 | the scan yields the space-separated fields exactly of printable headers of 1 to 8192 bytes without an empty field |
| `Protocol.HeaderFieldsOf` | src/protocol.cpp:86-110 | fields that are words come back from the header they make exactly when it fits |
| `Protocol.HeaderFieldsIff` | src/protocol.cpp:86-110 | a header has these fields exactly when it is their text, fits, and they are words |
| `Protocol.ParsedAnnounceValid` | src/protocol.cpp:441-463 | an accepted ANNOUNCE has atoms, a port from 1 to 65535 and a strictly increasing list |
| `Protocol.AnnounceRoundTrip` | src/protocol.cpp:441-463 | a valid announcement's header parses back to it exactly when it fits |
| `Protocol.GetRoundTrip` | src/protocol.cpp:475-483 | a GET header parses back to its request |
| `Protocol.DataRoundTrip` | src/protocol.cpp:485-495 | a DATA header parses back to its count and digest |
| `Protocol.ChunkRequestIff` | src/protocol.cpp:475-483 | a line parses as a chunk request exactly when it is GET, two atoms and a numeral within 8192 bytes |
| `Protocol.DataHeaderIff` | src/protocol.cpp:485-495 | a line parses as a data header exactly when it is DATA, a numeral up to the chunk limit and a digest |
| `Protocol.TrackerRequestIff` | src/protocol.cpp:441-473 | a line parses as a tracker request exactly when it is a PEERS of two atoms or an ANNOUNCE of three atoms, a port and a chunk list |
| `Protocol.AddressIsAtom` | src/protocol.cpp:112-123 | unzoned IPv6 and dotted addresses are atoms |
| `Protocol.Ipv4IsAtom` | src/protocol.cpp:112-123 | every IPv4 address is an atom of at most 15 characters |
| `Protocol.NameIsAtom` | src/protocol.cpp:112-123 | letters, digits, hyphens and underscores make an atom of up to 128 characters |
| `Text.ParseNumberIff` | src/protocol.cpp:131-142 | exactly the numerals of numbers in range are parsed, leading zeros allowed |
| `Text.LineEndings` | src/manifest.cpp:43-52 | file lines may end in CR LF, the last one in nothing; at the end there is no line |
| `Streams.WriteAll` | src/protocol.cpp:417-439 | for every way `send` cuts the data, all of it is sent in order, or a front part on failure |
| `Streams.ReadExact` | src/protocol.cpp:400-415 | for every way bytes arrive, the buffer is filled with the next ones, failing exactly when there are too few |
| `Streams.ReadLine` | src/protocol.cpp:368-398 | for every way bytes arrive, the line up to the newline without carriage returns, failing exactly on an unprintable byte, a line over the limit or a missing newline |
| `Streams.LineOfLine` | src/protocol.cpp:368-398 | a printable line that fits is read back exactly, whatever follows |
| `Streams.ReturnsIgnored` | src/protocol.cpp:386-391 | carriage returns in a header line count for nothing, wherever they stand |
| `Streams.UnendedLineRefused` | src/protocol.cpp:374-379 | without a newline there is no line |

## Left out

- Socket set-up, address lookup, polling, timeouts, EINTR retries and descriptor flags: operating-system calls; a connection is a byte stream per direction.
- SHA-256 itself: foreign calls; `hash` is a parameter.
- `secure_token_equal`: modelled as equality of strings; its bit-wise accumulation and timing are not modelled.
- Texts of exceptions and log lines: an exception is `Err`.
- Command-line programs, option parsing, signal handling, logging: user interface.
- Wall-clock behaviour (sleep lengths, heartbeat period, the 50 ms between retries): no time in the model except the tracker's `now`, which is a parameter.
- `start()` of the two servers and its failure path, and `validate_config`: straight-line checks.
- Move constructors and `Socket` ownership: no behaviour of their own.
- Threads of the download and of the connection queue are step relations over values, not classes: Dafny has no threads. The parts that one thread executes alone are methods over objects.
- The claim counter's wrap at 32 bits is modelled and shown not to happen; the 64-bit revision and the connection counter (which needs `max_connections` below 2^32 - 1) are unbounded.
- Loss of a rename or of a directory entry in a power failure: a rename, once made, is taken to last; bytes of the part file count as safe only after fsync.
- Platforms whose file offsets are narrower than 64 bits.
- Download.StartUpStep: sizing the part file succeeds or the run stops; the failure on closing that goes unnoticed, after which writes would grow a short file chunk by chunk, is modelled in `PartialFile.PartFile.Prepare` only.
- Download.BystanderStep: a reader that has been admitted can open and read the part file; the `io_failure` reply is modelled in `PeerService.Decide` only.
- Zero-byte results of `write` and `send`, which would repeat a loop: every call moves at least one byte or fails.
- Termination of a download: depends on peers; absence of deadlock and the existence of a way to finish are proved instead.
