# Data cache node: a verified model

A vehicle records camera and lidar frames into a bounded buffer, pairs the two streams, writes the frames around an
event into an event directory, and uploads finished directories to a receiver. This project models the parts where
several loops, threads or machines have to agree, and proves what they promise:

| part | files | what is at stake |
|---|---|---|
| upload transaction | `Receiver`, `ReceiverNames`, `ReceiverService`, `ReceiverSafety`, `ReceiverPromises`, `PublishSwap`, `UploadSender`, `UploadProtocol`, `UploadCompletion`, `UploadRuns`, `UploadFaults`, `LoneBackup`, `UploadConditions`, `UploadScheduling`, `UploadThread` | a published directory is the sender's whole directory, over a channel that loses, delays, reorders and repeats, with retries, idle pruning, crashes and a failing file system |
| pairing and ledger | `Synchronizer`, `GreedyMatching`, `PairLedger` | front-greedy pairing is maximal, independent of interleaving, and loses no message |
| sensor buffer and windows | `SensorBuffer`, `CaptureWindows` | three limits at once against a mathematical function of the arrivals; which frames an event records |
| event directories | `EventStore*`, `EventCapture`, `StorageJob`, `DiskRetention`, `DirectoryNames`, `NodeNames` | marker files as a transaction over crashes, reserved queue slots, retention beside uploads |
| router | `RouterPolicy` | dedupe and cooldown over whole histories, with releases |
| files | `RecordCsv`, `MalformedCsv`, `ChecksumManifest`, `ManifestLines`, `ManifestExamples`, `EventVerification`, `StoredRecords`, `Decimal`, `Text` | printers and parsers, and three programs that must select the same files |

`dafny verify dfyconfig.toml` checks all of it.

How it is built. Objects whose methods change fields are classes, and loops are loops; each method is proved equal to
a function of the old state, and the lemmas are about that function. Two systems are state machines over single
steps: `UploadProtocol` (senders, receiver and network; the receiver may stop after any operation of the swap, and any
request may meet a failing file system) and `EventStore` (executor, storage thread, upload thread and retention, lock by
lock and file operation by file operation, a directory's removal included; the process may die between any two).
`UploadProtocol` uses the receiver's transaction function, which the class in `ReceiverService` is proved to compute;
the contracts of the monitor, the marker files and the storage thread in `EventCapture` and `StorageJob` are stated with
functions and predicates of the old and the new state (`Recorded`, `Harvested`, `FailedDisk`, `CompletedDisk`,
`Accounted`, `ReconciledAll`), and `EventStoreCalls` proves that given sequences of the `EventStore`'s steps, which say
operation by operation what works and what fails, do just that. What such a function means is proved beside it without
it: over every history of calls where there is one, else as an exact condition in terms of the call's own inputs.

## Assumptions

- The data files of a `.complete` directory do not change, except when retention removes the directory. That the node's
  own threads keep to this is proved (`EventStoreTheorems.CompleteDataNeverChanges`).
- Upload paths are in the normal form of `safe_relative`, and transfer ids hold no dot, as `transferIdFor` makes them.
- Renames are atomic; removing a tree is not.
- The digest is any function. Content equality never rests on it: received files are prefixes of the sender's files,
  and equal sizes do the rest.
- Callbacks of the executor run one after another, as `rclcpp::spin` runs them, and the storage thread is stopped only
  after `spin` has returned (src/main.cc:7-13).

## Where the code does less than one might think

Each of these but the last is a proved exact condition together with a run or an input that shows the failure; the
last but one does no harm, and that is what is proved of it.

- A BEGIN of a live transaction first removes what was received and then makes the directory anew
  (tools/receiver_node.py:147-148). If making it raises, the old bookkeeping stays. When an unfinished file was among what
  was removed, its next chunk makes it again behind a gap of zeros, while its size, and the digest taken from the chunks,
  are right: END publishes a corrupted copy and the sender writes `.uploaded` (`UploadFaults.FailedBeginCorrupts`).
- If the rename into place and then the handler's restoring rename both raise (tools/receiver_node.py:236-241), the
  receiver keeps running with a lone backup: it shows nothing for an event that was published, and the next END of that
  event begins by removing the backup. Cut off there, the next start publishes what is left of it
  (`LoneBackup.LoneBackupCorrupts`). A single swap is crash-safe exactly when no backup stands alone at its start.
- These two failures, and no other loss, delay, repetition, crash or failure of a file operation, break what the receiver
  promises. In all runs, published copies are whole, and uploaded directories are shown as they are, exactly when neither
  happens; and uploaded directories are shown at all exactly when the second does not (`UploadConditions`).
- Retention removes a directory file by file, in the file system's order. Cut short, it can leave `.complete` without its
  rows or its checksum manifest, or without `.uploaded`, so that the remains are uploaded again while retention may go
  on removing them. The promises hold throughout exactly when `.complete` is removed before the one or the other
  (`EventStoreRemoval`).
- An upload lease excludes other upload threads exactly when looking for a lease and writing one is a single step and
  no upload outlasts its lease: two may look before either writes, and one that overstays removes, when it leaves, the
  lease of the next. One node runs one upload thread, so two need two nodes over one record root.
- A file below the top level that is itself called `manifest.sha256`, or a path holding a line break that only
  Python's `splitlines` knows, passes the local verifier, while the receiver refuses the upload every time.
- Under a byte limit, a late small frame that is older than a frame already evicted for its bytes is kept, so the
  buffer is then not the newest frames that fit.
- A frame stamped exactly with the event time that arrives after the trigger is in neither batch of the event.
- Two transactions with valid names can share one staging directory exactly when the id of one is the end of the other's
  after a dot.
- `verifyEventDirectory` ignores the checksum verifier's return value and only looks at its complaints; this does no
  harm, since whatever passes was accepted (`EventVerification.PassedIsAccepted`).
- README.md:212 of the repository says that the receiver checks only file and byte counts; the code, and README.md:100,
  also require a valid `manifest.sha256`. The model follows the code.

## Model

| member | source | states |
|---|---|---|
| UploadProtocol.PublishedIsWholeSource | tools/receiver_node.py:109-248 | over every interleaving of attempts, lost, late, reordered and repeated requests and responses, chunks cut short, repeated BEGINs, idle pruning, file system failures in every request - every rename and sync of the swap included -, and receiver crashes between any two swap operations: whatever a running receiver shows under an event's name is the complete path-to-bytes map of some sender's directory for that event, or the copy that stood there at the start - unless a transaction put it there that a failed BEGIN had robbed of a partly received file, or a swap began while the event's backup stood alone and moved nothing in since |
| UploadProtocol.UploadedIsPublished | include/upload_worker.hpp:143-163 | a directory the sender marks .uploaded has been published and is still published, unless a swap has left its backup standing alone; with one persisted transfer id per event, and unless such a failed BEGIN came before, the published copy is exactly that directory |
| UploadProtocol.NextKeeps | include/upload_worker.hpp:292-432 | every step of the protocol keeps its invariant: live transactions that are not spoiled track their own source, a success for END exists only for a transaction that was put in place, copies neither in doubt nor lost are whole sources, and no backup stands alone but those a swap left so |
| UploadProtocol.Reachable | tools/receiver_node.py:86-299 | the invariant holds in every reachable world, starting from any inbox left by an earlier run |
| UploadProtocol.HandledOk | tools/receiver_node.py:109-204 | any request of a sender's own, however old and whatever fails, leaves every transaction that is not spoiled tracking its source and every event's copies untouched unless it reaches the swap; no END that stops before the swap answers success |
| UploadProtocol.UnhandledOk | tools/receiver_node.py:206-229 | only an END of a live transaction whose checks all passed reaches the swap |
| UploadProtocol.UndisturbedIsSure | tools/receiver_node.py:145-150 | in a run in which no BEGIN fails after taking away part of an unfinished file nothing published is in doubt, and in one in which no swap leaves a backup standing alone no copy is lost or hidden |
| UploadConditions.WholeExactlyWithoutBoth | tools/receiver_node.py:145-243 | for every directory with a file in which the loss shows: published copies are whole in all runs if and only if no BEGIN fails after removing what a live transaction had received of an unfinished file, and no swap leaves a backup standing alone |
| UploadConditions.KeptExactlyWithoutBoth | include/upload_worker.hpp:143-163 | for every such directory: in all runs a running receiver shows exactly the directory that its event's only sender marked .uploaded, if and only if neither happens |
| UploadConditions.PublishedExactlyWithoutLoneBackups | tools/receiver_node.py:236-241 | for every directory an empty receiver takes: in all runs a running receiver shows something for every uploaded directory, if and only if no swap leaves a lone backup; failing BEGINs do not matter |
| LoneBackup.LoneBackupHides | tools/receiver_node.py:230-241 | for every such directory, the run: published and marked .uploaded, its requests arrive once more, both renames of the second END raise, and the running receiver shows nothing for it |
| LoneBackup.LoneBackupCorrupts | tools/receiver_node.py:231-299 | and on: for any one file, the next END's removal of the backup is cut off after that file, recovery takes up the rest, and the running receiver publishes the directory without it; no BEGIN has failed |
| UploadFaults.FailedBeginCorrupts | tools/receiver_node.py:145-148 | for every such directory and file, the run: one repeated BEGIN whose rmtree removes that file and whose mkdir raises; the last chunk makes the file again behind a gap of zeros, END passes every check, the receiver publishes nobody's directory and the sender writes .uploaded |
| UploadFaults.LastChunkRuins | tools/receiver_node.py:180-204 | what that chunk leaves: all bookkeeping of the whole directory, the file hollow |
| UploadFaults.EndOfRuined | tools/receiver_node.py:206-229 | END finds nothing wrong with it: counts, sizes, and digests of bytes that are no longer there |
| UploadFaults.ExampleIsCorruptible | tools/receiver_node.py:145-148 | such a directory exists: one two-byte file and its manifest |
| UploadCompletion.LosslessScriptReachesSwap | include/upload_worker.hpp:292-432 | the converse of safety: a script handled in order, no request later than the idle limit after the previous one, is accepted request by request, and its END passes every check with exactly the source staged |
| UploadCompletion.ChunksRun | include/upload_worker.hpp:353-398 | from any offset, the remaining chunks of a file are each accepted and complete the file |
| UploadSender.ScriptIsGenuine | include/upload_worker.hpp:292-432 | every request of an attempt is the key's BEGIN or END or a true slice of one of its files, BEGIN only first, END only last |
| UploadSender.SizeOfIsTreeBytes | include/upload_worker.hpp:300-325 | the declared byte and file counts are those of the directory |
| UploadSender.TotalSize | include/upload_worker.hpp:300-325 | the size loop refuses exactly the directories whose total does not fit 64 bits, and otherwise computes their total |
| UploadSender.FileIsCutEvenly | include/upload_worker.hpp:353-398 | a file goes out in as few chunks as the chunk size allows, all full but the last, each a true slice beginning where the one before ends |
| UploadSender.SendFile | include/upload_worker.hpp:358-410 | success means exactly the file's chunks were sent and answered with success, all its bytes could be read and its size still was the declared one; otherwise a prefix was sent and the last answer, only that one, was not a success, or a read or the size check failed after a prefix and at most one true slice of the file |
| UploadSender.SendFiles | include/upload_worker.hpp:356-411 | the same for all files in order, with the bytes sent summed up |
| UploadSender.TransferDirectory | include/upload_worker.hpp:292-432 | succeeds exactly when the directory could be traversed, the whole script was sent, every answer was a success and END reported every byte sent; END is sent only when every file could be read to its end and kept its size; an unsendable directory causes no request at all |
| ReceiverSafety.ChunkTracks | tools/receiver_node.py:156-204 | a chunk of the transaction's own source - new, duplicate, overlapping, out of order, into a staging directory that is gone, or cut short by an I/O error - leaves every staged file tracking its source: what counts as received is a prefix of it |
| ReceiverSafety.RemovalTracks | tools/receiver_node.py:147 | whatever else a failed removal takes from under a live transaction does no harm |
| ReceiverSafety.CheckedStagingIsSource | tools/receiver_node.py:206-229 | when END's count, size and checksum checks pass, the staging directory is the whole source and the reported bytes are its size |
| ReceiverService.ReceiverNode.HandleRequest | tools/receiver_node.py:99-130 | prune, validate, dispatch, with any file system failure before, in and after the swap: the new store and the answer are those of the transaction function, or one swap from the pruned and touched store that ends where its faults say |
| ReceiverService.ReceiverNode.BeginTransfer | tools/receiver_node.py:132-154 | all refusals in the source's order; then rmtree, which may leave something, and mkdir, which may raise and then leaves the old bookkeeping; otherwise an empty staging directory and fresh bookkeeping |
| ReceiverService.ReceiverNode.StoreChunk | tools/receiver_node.py:156-204 | files, bookkeeping and answer of one chunk, including a staging directory made again and a write that raises part-way |
| ReceiverService.ReceiverNode.FileAway | tools/receiver_node.py:157-178 | the path, case-collision, declared-size and range rules, and what each refusal still leaves behind |
| ReceiverService.ReceiverNode.Place | tools/receiver_node.py:174-204 | duplicate, overlap, gap and append rules against the staged file |
| ReceiverService.ReceiverNode.SumReceived | tools/receiver_node.py:207 | the loop over the files computes the sum over the map, in whatever order |
| ReceiverService.ReceiverNode.CheckEnd | tools/receiver_node.py:206-229 | the refusal, if any, is the first failing check: counts, bytes, each file's size, checksums |
| ReceiverService.ReceiverNode.SwapIn | tools/receiver_node.py:231-243 | the removals, renames and syncs with the exception handler are a run of the swap's single operations, each able to fail, removals to stay incomplete; where it ends, and that the old backup is gone if it could be removed |
| ReceiverService.ReceiverNode.Finish | tools/receiver_node.py:206-248 | refused with the byte count, failed where a stat or sync raises before the swap, or a swap from the present store; a success forgets the transaction, a failure keeps it |
| ReceiverService.ReceiverNode.PruneIdleTransfers | tools/receiver_node.py:301-307 | the loop drops what the transaction function drops; that this is exactly the transactions silent for ten minutes, and what can be removed of their files, is SilentTransactionsGo |
| ReceiverService.ReceiverNode.RecoverBackups | tools/receiver_node.py:290-299 | afterwards each event's published directory is the copy it had before, only backups that cannot be removed are left, beside their published copies, and no other entry changed |
| ReceiverService.ReceiverNode.constructor | tools/receiver_node.py:88-97 | a restarted receiver publishes the copy every event had, and has no transactions |
| ReceiverPromises.SilentTransactionsGo | tools/receiver_node.py:109-130 | after any request, whatever fails: no transaction is left whose last request is more than 600 seconds old, and nothing of such a one's staging directory that could be removed; every other transaction is as it was; only a BEGIN answered with success adds one |
| ReceiverPromises.AbandonedEventIsFree | tools/receiver_node.py:132-154 | over any run: once a transaction's sender has been silent for ten minutes, a BEGIN of its event under another id starts, if nothing else stands in its way; the abandoned one is gone |
| ReceiverPromises.BeginStartsExactly | tools/receiver_node.py:132-154 | a BEGIN is answered with success if and only if names and counts are within the literal limits, fewer than 16 transactions - or its own - were heard of in the last ten minutes, none of them has the event under another id, and the staging directory can be made; then the bookkeeping is empty |
| ReceiverPromises.LimitsHold | tools/receiver_node.py:132-145 | in every run of any requests and failures: never more than 16 transactions, and never two of one event |
| ReceiverPromises.RunsAreSane | tools/receiver_node.py:109-204 | in every run of any requests, true or not: filed paths are in normal form and no two fold to the same, no file passes its declared size; no success without valid names, nor - but for a BEGIN - without a transaction heard of in the last ten minutes |
| ReceiverPromises.AnyChunkIsSane | tools/receiver_node.py:156-204 | any chunk, whatever fails: no file shrinks or changes its declared size; a success is only for a safe path, the size first declared, and bytes that have all been received |
| ReceiverPromises.ChunkAnswerMeans | tools/receiver_node.py:180-204 | a true slice of the source is answered with success if and only if the file's bytes up to its end have been received and are staged; only the next chunk in turn changes anything, and the answer says how far the file has come |
| ReceiverPromises.EndPassesExactly | tools/receiver_node.py:206-229 | END of a transaction that tracks its source passes if and only if no stat or sync raises, every file has been received and is staged whole and the source's own manifest is in order |
| ReceiverPromises.SwapPublishesExactly | tools/receiver_node.py:230-248 | then it publishes if and only if no sync or rename it needs raises - the first is needed only over a published copy, and raises over an old backup that cannot be emptied; the staged tree stands under the event's name, staging directory and transaction are gone, the backup too if it could be removed, and nothing else in the inbox has changed |
| PublishSwap.CrashSafeIffGuarded | tools/receiver_node.py:231-243 | a swap cut off after any single operation leaves the previous complete copy or the whole new one, for every such run, if and only if no backup stands alone when it starts |
| PublishSwap.SwapRunKeeps | tools/receiver_node.py:231-243 | the swap's own invariant holds after every operation, also while rmtree has removed only some files |
| PublishSwap.InvariantKeepsCopy | tools/receiver_node.py:231-243 | under that invariant the event's copy is the previous one or the staged one, never part of either |
| PublishSwap.DoubleRenameFailure | tools/receiver_node.py:236-241 | when the second rename and the handler's restoring rename both raise, the backup stands alone and the next swap is no longer crash-safe |
| PublishSwap.RecoverStepKeepsCopies | tools/receiver_node.py:290-299 | no single recovery operation changes any event's copy, so recovery itself may be cut short |
| PublishSwap.RecoveredPublishesCopy | tools/receiver_node.py:290-299 | after recovery the published directory is the event's copy, absent exactly if there was none |
| ReceiverNames.SafeRelativeNormalizes | tools/receiver_node.py:50-63 | an accepted path is filed under its slash form, which is accepted again and unchanged |
| ReceiverNames.StagingSharedExactlyByDottedTails | tools/receiver_node.py:145 | for any two valid ids: two different transactions of valid names under them can share one staging directory if and only if one id is the end of the other after a dot |
| ReceiverNames.StagingNameInjective | tools/receiver_node.py:145 | so with transfer ids free of dots staging names determine event and id |
| ReceiverNames.StagingNamesCanCoincide | tools/receiver_node.py:145 | a pair of transactions to which that happens |
| ReceiverNames.InboxNamesDisjoint | tools/receiver_node.py:145-146 | published, backup and staging entries of valid events never share a name |
| NodeNames.EventNamesExactly | tools/receiver_node.py:28-47 | the receiver takes an event directory's name if and only if the event's own name begins with a letter or digit, holds only letters, digits and three marks, and the whole has at most 160 characters |
| NodeNames.IdsAreValid | include/upload_worker.hpp:252 | it always takes the ids that transferIdFor makes, and they hold no dot |
| NodeNames.EntriesAreDirectlyBelow | tools/receiver_node.py:145-146 | published, backup and staging entries of valid names are single parts directly below the inbox |
| NodeNames.AcceptedLeadsDown | tools/receiver_node.py:50-63 | from any directory an accepted path leads down, part by part; no part holds a separator or a drive |
| NodeNames.LocallySafeLeadsDown | include/record_io.hpp:32-50 | so does a path the local verifier takes for safe, whatever its repeated slashes |
| UploadThread.UploadWorker.FindUploadCandidates | include/upload_worker.hpp:103-140 | the scan returns exactly the directories that are complete, not uploaded, under no running lease, and unmarked or marked long enough ago; it removes exactly the leases that do not run and those directories' failure markers, where it can |
| UploadScheduling.LeasesExcludeExactly | include/upload_worker.hpp:177-204 | for any number of upload threads and every interleaving of look, write and removal of one lease: no two ever send under leases that have not run out, if and only if acquiring is atomic and every upload ends before its lease runs out |
| UploadThread.UploadWorker.UploadDirectory | include/upload_worker.hpp:143-163 | nothing is sent unless the lease was free and could be written; it is given back where it can be; .uploaded is there afterwards if and only if it was before, or the whole script went over the channel, was answered with success throughout, END reported every byte, and the marker could be written; the answer is true exactly in the latter case |
| UploadThread.UploadWorker.TransferUnderId | include/upload_worker.hpp:292-320 | the id is asked for once there are files to send; every request sent bears the directory's name and its stored id |
| UploadThread.UploadedExactly | include/upload_worker.hpp:143-163 | over any history of scans and tries on one directory, in any number of lives: it counts as uploaded if and only if it did at the start or some try sent the whole of it under a lease of its own; nothing takes that back |
| UploadThread.TakenUpExactly | include/upload_worker.hpp:103-135 | so it is never taken up again once uploaded, and otherwise exactly when no lease runs and its failure marker, if any, has become old and can be removed |
| UploadThread.UploadWorker.Attempt | include/upload_worker.hpp:439-479 | one turn of the loop: skipped before its time; otherwise a success clears the schedule, a failure is counted, delayed or marked |
| UploadThread.UploadWorker.TransferIdFor | include/upload_worker.hpp:244-256 | a stored id is reused; a new one is used only if it could be stored |
| UploadThread.OneIdForAllTries | include/upload_worker.hpp:244-256 | over any such history: once a try has sent under an id, every later one sends under the same or not at all, and it is the stored one |
| UploadScheduling.CounterIsFailures | include/upload_worker.hpp:461-476 | over any history of tries the counter is the number of failures in a row and its time the end of the last one plus its delay |
| UploadScheduling.RetriesAreSpaced | include/upload_worker.hpp:447-476 | after n failures in a row a directory may be tried again if and only if the n-th delay has passed since the last one ended: the first is retryBackoff, it doubles, and from the seventh on it is 64 times the first |
| UploadScheduling.RetriesAreRationed | include/upload_worker.hpp:117-135 | over any history: a directory that keeps failing is tried at most maxRetries times in any period of failedRescan, and never again when that is off |
| UploadScheduling.FailureIsMarked | include/upload_worker.hpp:461-473 | among as many failures in a row as the limit allows, whatever came before, one is marked |
| UploadScheduling.MarkedForEnoughFailures | include/upload_worker.hpp:461-473 | and it is marked for nothing less: a marked try ends a row of failures as long as the limit, of which no other was marked |
| GreedyMatching.HistoryIsMaximum | include/approximate_synchronizer.hpp:127-155 | for streams each in its own order, without overflow or flush, the matches are, one by one, those of the positions of a one-to-one pairing within tolerance, and no such pairing of the two streams is larger |
| GreedyMatching.GreedyFromHereIsMaximum | include/approximate_synchronizer.hpp:127-155 | no pairing of the rest of two ordered streams beats greedy from there on |
| GreedyMatching.ExchangeFronts | include/approximate_synchronizer.hpp:132-144 | the exchange step: any pairing can be turned into one that uses the two fronts, losing nothing |
| GreedyMatching.GreedyIsPairing | include/approximate_synchronizer.hpp:132-155 | greedy's own choice is one-to-one and within tolerance |
| GreedyMatching.InterleavingIndependent | include/approximate_synchronizer.hpp:33-61 | two interleavings of the same streams end with the same queues, counters, match list and drop list |
| GreedyMatching.HistoryIsBatch | include/approximate_synchronizer.hpp:132-155 | all of these are those of one pairing run over the two whole streams |
| GreedyMatching.DroppedMatchNothingLater | include/approximate_synchronizer.hpp:127-131 | no dropped message is within tolerance of any message of the other stream that arrives after the drop |
| GreedyMatching.DropsAreOvertaken | include/approximate_synchronizer.hpp:145-153 | for every dropped message a message already waiting on the other side is beyond its tolerance |
| Synchronizer.ApproximateSynchronizer.constructor | include/approximate_synchronizer.hpp:28-31 | empty queues, and room for one message at least |
| Synchronizer.ApproximateSynchronizer.AddImageMessage | include/approximate_synchronizer.hpp:33-46 | the object after one image: insert, trim with drops, pair; and exactly the results reported |
| Synchronizer.ApproximateSynchronizer.AddPointCloudMessage | include/approximate_synchronizer.hpp:48-61 | the same for the other stream |
| Synchronizer.ApproximateSynchronizer.FlushUnmatched | include/approximate_synchronizer.hpp:65-79 | both queues drained into counted drops, cameras first |
| Synchronizer.ApproximateSynchronizer.TryMatch | include/approximate_synchronizer.hpp:132-155 | the front-greedy loop computes the pairing function, results in order |
| Synchronizer.InsertOrdered | include/approximate_synchronizer.hpp:104-118 | insertion after every message that is not later |
| Synchronizer.StepSettles | include/approximate_synchronizer.hpp:33-79 | after every call, for input in any order, queues are sorted, within their limit, and one of them is empty |
| PairLedger.HistoryConserves | include/approximate_synchronizer.hpp:33-155 | for any history: reported and waiting messages together are what arrived, counters are the numbers of drops and drops carry consecutive counts, every match is within tolerance |
| PairLedger.FullOnlyWhenOtherSideIsEmpty | include/approximate_synchronizer.hpp:38-42 | a queue-full drop happens only while the other side is empty, is the oldest message of the full queue, the new one included, and is all that happens in the call |
| PairLedger.EveryMessageRecordedOnce | src/datacache_node.cpp:66-78 | after a flush as many records bear a sensor's stamp as messages arrived with it, and records are numbered 1, 2, 3, ... |
| PairLedger.EveryRecordTells | include/pair_index.hpp:25-42 | in any history a record of both sensors is a match, says exactly how far apart they are, and that is within tolerance; one of a single sensor says which |
| PairLedger.PairIndex.AddMatched | include/pair_index.hpp:25-31 | one record more with the next id; the ledger stays the newest 100000 records written |
| PairLedger.PairIndex.AddSingle | include/pair_index.hpp:33-42 | the same for a single-sided record |
| PairLedger.PairIndex.Append | include/pair_index.hpp:27-30 | the shared step of both: numbered, kept, trimmed |
| PairLedger.PairIndex.Trim | include/pair_index.hpp:59-66 | what is left is exactly the newest records up to the limit |
| PairLedger.PairIndex.DataWithinTimeRange | include/pair_index.hpp:44-56 | the records filed within the closed range, in order |
| PairLedger.WithinExactly | include/pair_index.hpp:44-56 | a record is in the range's result if and only if the camera's stamp, or the lidar's if there is none, is in the range; the order is that of the numbers |
| PairLedger.Dispatch | include/approximate_synchronizer.hpp:158-167 | matches first, then drops, each becomes one record |
| SensorBuffer.BufferIsReference | include/databuffer.hpp:24-59 | with counters that never saturate when there is a byte limit: every lane always equals the longest suffix of the stable sort of its arrivals within count, bytes and age, if and only if no arrival slips back |
| SensorBuffer.NoByteLimitIsSmooth | include/databuffer.hpp:24-59 | without a byte limit no arrival ever slips back, in whatever order frames arrive |
| SensorBuffer.InOrderIsSmooth | include/databuffer.hpp:24-59 | nor do frames that arrive in order per sensor, under all three limits |
| SensorBuffer.InOrderIsSorted | include/databuffer.hpp:42-44 | and for those the sorted arrivals are the arrivals |
| SensorBuffer.KeptByCountAndAge | include/databuffer.hpp:35-58 | without a byte limit the reference is the last maxSize sorted arrivals, restricted to the newest stamp of all sensors minus the age |
| SensorBuffer.KeptIsLongest | include/databuffer.hpp:55-58 | every longer suffix breaks one of the limits |
| SensorBuffer.StableSortIsStable | include/databuffer.hpp:42-51 | the reference order is sorted and keeps, for every stamp, the arrivals with it in arrival order |
| SensorBuffer.InsertedIsKept | include/databuffer.hpp:39-58 | one arrival: evicting early and inserting agrees with inserting into all arrivals exactly when the frame does not slip back |
| SensorBuffer.LateSmallFrameSlipsBack | include/databuffer.hpp:45-57 | three concrete arrivals under a byte limit where a late small frame, older than one evicted for bytes, is kept |
| SensorBuffer.CountersStayExact | include/databuffer.hpp:52-57 | without saturation the byte counters are the true payload sums |
| SensorBuffer.SmallFramesNeverSaturate | include/databuffer.hpp:52-57 | frames leaving room beside the limit in 64 bits never saturate the counter |
| SensorBuffer.Trimmed | include/databuffer.hpp:55-57 | the eviction loop ends within the limits, before the queue is empty, because the counter never exceeds the true sum |
| SensorBuffer.DataBuffer.AddData | include/databuffer.hpp:24-59 | the buffer after one arrival, order and counter bounds kept |
| SensorBuffer.DataBuffer.TakeIn | include/databuffer.hpp:39-57 | one lane: ordered insertion, saturating count, eviction by count and bytes |
| SensorBuffer.DataBuffer.EvictExpired | include/databuffer.hpp:98-110 | both lanes without their expired fronts |
| SensorBuffer.DataBuffer.DataWithinTimeRange | include/databuffer.hpp:61-74 | the frames of each lane in the closed range, in order |
| SensorBuffer.InRangeExactly | include/databuffer.hpp:61-74 | of an ordered queue that is the stretch between the frames before the range and those after it |
| CaptureWindows.WindowIsRecorded | include/event_monitor.hpp:103-120 | frames in time order, retained until they are taken, harvest by sensor time: a frame within [start, endTime) is recorded if and only if it is not one stamped eventTime that arrived after the trigger |
| CaptureWindows.BoundaryFrameIsLost | include/event_monitor.hpp:224-231 | three concrete arrivals of which the second, with the trigger's stamp, is held at the harvest and in neither batch |
| CaptureWindows.BatchesAreDisjoint | include/event_monitor.hpp:224-231 | whatever happens in between, the pre and post batches share no frame and stay within [start, eventTime] and (eventTime, endTime] |
| CaptureWindows.TriggerIsNewest | include/event_monitor.hpp:103-108 | the event time is the newest sensor stamp before the trigger |
| CaptureWindows.HeldFramesArrived | include/databuffer.hpp:24-59 | the buffer holds nothing that did not arrive at that sensor |
| CaptureWindows.RemoveBoundary | include/event_monitor.hpp:227-231 | remove_if takes out exactly the frames stamped eventTime |
| EventStoreTheorems.NeverBothDecisions | include/event_state.hpp:84-111 | in every run, with crashes between any two file operations, no directory carries both .complete and .failed |
| EventStoreTheorems.CompleteMeansStored | include/raw_storage_worker.hpp:315-344 | .complete with records=N means: the pre-window job (if any) and then the last job were processed, both without a fault and with N > 0 rows; and until retention has removed something of the directory - or throughout, if .complete is removed before them - manifest.csv holds the N rows and manifest.sha256 is written |
| EventStoreTheorems.ReconciledIsDecided | include/event_state.hpp:118-140 | after a reconciliation without failed operations every event ever begun and untouched by retention has exactly one decision and is not pending |
| EventStoreTheorems.SlotsBelongToCaptures | include/raw_storage_worker.hpp:75-110 | jobs plus reservations never exceed the limit, and between callbacks reservations equal active captures |
| EventStoreTheorems.LastBatchAlwaysHasRoom | include/event_monitor.hpp:221-246 | a capture's last batch is never refused, however full the queue is |
| EventStoreTheorems.AcceptedIsScheduled | include/event_monitor.hpp:134-197 | between callbacks an event that was not refused has handed over all its jobs, or only the first one and is an active capture |
| EventStoreTheorems.RetentionSparesTheUnfinished | include/disk_space_manager.hpp:124-158 | what retention removes, acting on an older scan, is not pending, is no active capture and has no queued or running job; and until something of it is gone - or throughout, if .complete is removed before .uploaded - it is decided, uploaded if it was to be, and not held by the upload thread |
| EventStoreTheorems.UploadsAreComplete | include/upload_worker.hpp:103-163 | what the upload thread holds is complete, not yet uploaded and not being removed, under the same condition |
| EventStoreTheorems.CompleteDataNeverChanges | include/raw_storage_worker.hpp:325-344 | once .complete is there, rows, manifest.sha256 and .complete stay as they are over any number of crashes until retention begins to remove the directory; .complete never comes back with another number |
| EventStoreRemoval.StoredExactlyInOrder | include/disk_space_manager.hpp:228-238 | for a removal that goes file by file and may be cut short anywhere: .complete is never seen without its rows and its checksum manifest, in all runs, if and only if the order of removal takes .complete before manifest.csv and before manifest.sha256 |
| EventStoreRemoval.ApartExactlyInOrder | include/disk_space_manager.hpp:228-238 | retention never works on a directory the upload thread holds, in all runs, if and only if .complete is removed before .uploaded |
| EventStoreRemoval.UploadedAgain | include/disk_space_manager.hpp:228-238 | otherwise, the run: an uploaded directory loses .uploaded first, the removal is cut short, and the remains are taken up for upload while still on retention's list |
| EventStoreTheorems.ExecutorFindsItsDirectory | include/event_monitor.hpp:134-247 | the executor's steps always find the event they are about |
| EventStoreTheorems.StorageFindsItsDirectory | include/raw_storage_worker.hpp:325-344 | the storage thread decides only directories that exist, and a sweep holds only known ones |
| EventStoreSafety.NextKeeps | include/raw_storage_worker.hpp:291-346 | every step of executor, storage thread, uploader, retention file by file, and restart keeps the invariant |
| EventStoreSafety.RunKeeps | include/raw_storage_worker.hpp:291-346 | hence it holds after every run |
| EventStoreSafety.NothingReopened | include/raw_storage_worker.hpp:355-361 | no job ever finds its event's directory gone |
| EventCapture.StorageQueue.Enqueue | include/raw_storage_worker.hpp:70-94 | room rule, appended job, and the reserved slot given back on success and on refusal |
| EventCapture.StorageQueue.ReserveSlot | include/raw_storage_worker.hpp:96-103 | a slot exactly when not stopping and there is room |
| EventCapture.StorageQueue.ReleaseReservation | include/raw_storage_worker.hpp:105-110 | one slot less, never below zero |
| EventCapture.RecordStore.WriteMarker | include/event_state.hpp:42-75 | the marker appears whole or not at all |
| EventCapture.RecordStore.FailDirectory | include/event_state.hpp:84-98 | .failed first; only then .pending and .complete go |
| EventCapture.RecordStore.CompleteDirectory | include/event_state.hpp:100-111 | .complete first; only then .pending and .failed go |
| EventCapture.RecordStore.Reconcile | include/event_state.hpp:118-140 | every listed directory is reconciled, the others untouched: what is not pending stays as it is, a decision made stands and only .pending may go, an undecided pending event has failed wherever that can be written; both counters exact, whichever operations fail where |
| EventCapture.RecordStore.WriteChecksums | include/raw_storage_worker.hpp:330-332 | manifest.sha256 is written or not |
| EventStoreCalls.RecordEventIsSteps | include/event_monitor.hpp:134-197 | on every path, with any failing file operation, what RecordEvent's contract says of queue, captures, directories and answer is done by a sequence of the event store's steps |
| EventStoreCalls.ProcessExpiredIsSteps | include/event_monitor.hpp:201-247 | so is what ProcessExpired's contract says, for any number of due captures, and no batch is refused |
| EventStoreCalls.AccountIsSteps | include/raw_storage_worker.hpp:315-340 | what StorageThread.Account's contract says - progress, checksum manifest, .complete or .failed - is done by just these steps, of which those fail that its parameters say |
| EventStoreCalls.ReconcileIsSteps | include/event_state.hpp:118-140 | what Reconcile's contract says is done by just the restart steps, directory by directory and operation by operation, of which those fail that its parameters say; it counts as clean exactly when nothing went wrong with any |
| EventStoreCalls.CallsAreInRuns | src/main.cc:7-13 | a run of the event store can be continued by what any of these calls does, so all its theorems hold afterwards |
| EventStoreCalls.FailCallIsSteps | include/event_state.hpp:84-98 | so is what FailDirectory's contract says, on the executor, operation by operation |
| EventStoreCalls.CompleteCallIsSteps | include/event_state.hpp:100-111 | so is what CompleteDirectory's contract says, and FailDirectory's after it when .complete cannot be written, operation by operation |
| EventCapture.EventMonitor.RecordEvent | include/event_monitor.hpp:134-197 | accepted exactly when there is a slot, .pending could be written, and with a post window there is room for a capture and for the first batch beside all reservations; then the batch is the queue's last job and the capture holds the slot; every rejection returns exactly its slot and leaves no directory, an empty one or a failed event, as far as the call had come |
| EventCapture.EventMonitor.SubmitFirst | include/event_monitor.hpp:183-194 | the first batch is queued, or capture, slot and event are given up, with the queue's jobs as they were |
| EventCapture.EventMonitor.ProcessExpired | include/event_monitor.hpp:201-247 | exactly the captures leave the table whose sensor time or deadline has come; their last batches are handed over, refused ones marked failed, and slots match captures again |
| EventCapture.CapturesEndInTime | include/event_monitor.hpp:201-219 | over any history of accepted events and looks: a capture is active if and only if no look since has come at or after its sensor time or its deadline |
| EventCapture.EventMonitor.TakeExpired | include/event_monitor.hpp:205-219 | the erasing loop splits the table into due and remaining captures; what remains has neither its sensor time nor its deadline behind it |
| EventCapture.EventMonitor.SubmitLast | include/event_monitor.hpp:221-246 | each due capture's batch uses its own slot |
| StorageJob.FreshBase | include/raw_storage_worker.hpp:391-398 | the naming loop ends, with the first numbered name neither of whose files exists |
| StorageJob.UsedAreFew | include/raw_storage_worker.hpp:393-398 | why it ends: n used numbers need n different files |
| StorageJob.StoreRecord | include/raw_storage_worker.hpp:391-439 | stored if and only if it was compressed and need not be kept raw, or could be written raw; the file is new, is named after the record, and holds its bytes or its compressed form; nothing present is overwritten |
| StorageJob.WriteRecords | include/raw_storage_worker.hpp:379-473 | every row names a different file that was not there before; all goes well exactly when every enabled record can be stored and its row written, and then there is one row per enabled record in order, naming a file that holds it |
| StorageJob.StorageThread.Account | include/raw_storage_worker.hpp:315-340 | progress summed over an event's jobs; at the last one the directory is complete with the total if and only if no job failed, the total is not 0, and checksums and .complete could be written, and has failed otherwise, if that could be written; the progress is forgotten |
| StorageJob.EventIsDecided | include/raw_storage_worker.hpp:315-340 | over all jobs of an event, with other events' jobs between: after the last one its directory is complete with the rows of all of them under just these conditions, else failed |
| StoredRecords.RowReadsBack | include/record_io.hpp:278-298 | a row that the storage thread wrote loads as the record's own bytes, under names that are safe to both verifiers; it is sound if and only if the record's message fits |
| StoredRecords.RecordedEventVerifies | include/record_io.hpp:429-509 | from frames to a verified event: what jobs have stored, with the checksum manifest written over it, passes if and only if there is a record, every message fits, and no file name holds a newline |
| DiskRetention.CapacityDeletesShortestPrefix | include/disk_space_manager.hpp:98-112 | when deletions succeed the capacity pass deletes the shortest oldest-first prefix after which the rest fits |
| DiskRetention.OlderSurvivorsAreStuck | include/disk_space_manager.hpp:104-111 | with failures, whatever survives in front of a deleted directory could not be deleted |
| DiskRetention.ShedIsPrefix | include/disk_space_manager.hpp:104-111 | in general: of the prefix it goes through it deletes exactly what can be deleted, and touches nothing behind it |
| DiskRetention.ShedIsShortest | include/disk_space_manager.hpp:104-111 | that prefix is the shortest one that frees enough |
| DiskRetention.ShedAccounts | include/disk_space_manager.hpp:98-112 | no byte is lost, and either the rest fits or nothing more can be deleted |
| DiskRetention.AgedIsExact | include/disk_space_manager.hpp:84-96 | of an oldest-first list the age pass deletes exactly what is older than the cutoff and can be deleted, although it stops at the first younger one |
| DiskRetention.SweepAchieves | include/disk_space_manager.hpp:70-113 | one whole sweep over an oldest-first list, whatever removals fail: only what can be removed goes, and nothing while something older is left that could; the bytes add up; nothing older than the cutoff is left but what is stuck; and what is left fits, or all of it is stuck |
| DiskRetention.AgedKeepsOrder | include/disk_space_manager.hpp:88-95 | what the age pass leaves to the capacity pass is still oldest first |
| DiskRetention.AgePass | include/disk_space_manager.hpp:88-95 | the erasing loop computes that pass |
| DiskRetention.CapacityPass | include/disk_space_manager.hpp:99-111 | the loop with its running, clamped total computes that pass |
| DiskRetention.CollectEventDirs | include/disk_space_manager.hpp:124-153 | exactly the entries considered, in listing order |
| DiskRetention.ConsideredIsDeletable | include/disk_space_manager.hpp:134-152 | whatever is considered is what the event store allows to be deleted |
| DiskRetention.ConsideredExactly | include/disk_space_manager.hpp:124-153 | an entry is considered if and only if the event store's own looks at a directory, marker by marker, let it pass, it is named like an event, and no lease is just being written |
| DiskRetention.CollectedAre | include/disk_space_manager.hpp:124-153 | a directory is collected if and only if it is that of a considered entry |
| DiskRetention.DiskSpaceManager.EnforceRetention | include/disk_space_manager.hpp:70-113 | nothing without a limit or too soon; otherwise age pass, then capacity pass on what it left |
| DiskRetention.DiskSpaceManager.PrepareForWrite | include/disk_space_manager.hpp:50-67 | writing may go on exactly when space was or became sufficient; cleaning happens only when it was not |
| DirectoryNames.ParseEventTimestamp | include/disk_space_manager.hpp:162-183 | digit by digit in 64-bit arithmetic without overflow, for every string |
| DirectoryNames.ParsedExactly | include/disk_space_manager.hpp:162-183 | non-negative exactly for names ending, after a '_' that is not first, in at least nine digits denoting a 64-bit number |
| DirectoryNames.DirectoryNameRoundTrip | include/event_monitor.hpp:116-118 | the time in a directory name is read back, for every event name and every time of at least nine digits |
| DirectoryNames.DirectoryNamesDiffer | include/event_monitor.hpp:116-118 | the name determines event, sequence number and time |
| RouterPolicy.DecisionsAreTheHistory | include/event_router_policy.hpp:23-39 | Duplicate exactly when an unreleased Accept of the trigger is still within its time, else CoolingDown exactly when an Accept of the event that stands is too recent; both trigger maps have equal keys |
| RouterPolicy.EventsAreACooldownApart | include/event_router_policy.hpp:23-52 | two Accepts of one event, the earlier not undone by a release in between, are at least the cooldown apart |
| RouterPolicy.TriggersAreATtlApart | include/event_router_policy.hpp:23-52 | two Accepts of one trigger with no release between are at least the dedupe time apart |
| RouterPolicy.InvHolds | include/event_router_policy.hpp:23-65 | the three maps always mean what they are for: remembered Accepts, the last standing Accept of each event, and which release undoes it |
| RouterPolicy.EventRouterPolicy.EvaluateTrigger | include/event_router_policy.hpp:23-39 | the maps and the decision after one evaluation |
| RouterPolicy.EventRouterPolicy.ReleaseTrigger | include/event_router_policy.hpp:41-52 | the maps after a release, the event's time erased only if it is that Accept's |
| RouterPolicy.EventRouterPolicy.Prune | include/event_router_policy.hpp:55-64 | exactly the triggers whose time is over are forgotten, in both maps |
| ChecksumManifest.LocalVerifierAcceptsWritten | include/record_io.hpp:362-426 | the local verifier accepts what the printer wrote for normal paths if and only if no file name holds a newline |
| ChecksumManifest.ReceiverAcceptsWritten | tools/receiver_node.py:261-288 | the receiver accepts the selected files with their manifest if and only if it is no bigger than 16 MiB, no path holds one of ten Python line breaks, and no nested file is itself called manifest.sha256 |
| ManifestExamples.NestedManifestIsRefused | tools/receiver_node.py:261-288 | a directory of two files, one a nested manifest.sha256, that the local verifier accepts and the receiver refuses |
| ManifestExamples.PythonBreakIsRefused | tools/receiver_node.py:261-288 | a directory of one file, with a line break in its name that only Python knows, that fares the same |
| ChecksumManifest.BothAcceptSameFiles | tools/receiver_node.py:261-288 | when both verifiers accept one manifest, the file sets and all digests agree if and only if the manifest holds no line break but the newline |
| ChecksumManifest.SelectionsDifferByManifests | include/upload_worker.hpp:206-232 | the uploader selects exactly the hashed files and every file named manifest.sha256 |
| ChecksumManifest.HashedExactly | include/record_io.hpp:396-411 | a path is hashed if and only if what follows its last slash is not the manifest's name, not hidden, and has not the ending .tmp |
| ManifestLines.PythonLinesExactly | tools/receiver_node.py:267-269 | whichever of the ten line ends or CR LF end the rows, the receiver reads just these rows, and what follows the last end |
| ManifestLines.TableExactly | tools/receiver_node.py:267-277 | lines make a table if and only if each is an entry and no two name the same path; it holds just these entries |
| NodeNames.EntriesExactly | include/record_io.hpp:372-386 | a line is an entry if and only if it is 64 lower-case hexadecimal digits, two blanks and a safe path, by the local or by the receiver's rule |
| ChecksumManifest.WriteChecksumManifest | include/raw_storage_worker.hpp:542-576 | one row per hashed file in order; refused exactly when there is none |
| ChecksumManifest.VerifyChecksums | tools/receiver_node.py:261-288 | the first error in the source's order, or none |
| ChecksumManifest.VerifyChecksumManifest | include/record_io.hpp:362-426 | accepted exactly when every line reads, the listed files are the hashed ones and every digest is right; silent also for an empty manifest of no files |
| EventVerification.VerifyEventDirectory | include/record_io.hpp:429-509 | counts, problems and warnings of the report for every directory, sensor filter and limit |
| EventVerification.PassedExactly | include/record_io.hpp:319-327 | a report passes exactly when the checksums hold, every line of manifest.csv reads, and the rows looked at are some and all sound; each of them is counted as verified or failed |
| EventVerification.SoundExactly | include/record_io.hpp:453-499 | a row is sound if and only if its file loads as a message of its sensor and time, every row of the image, or every point of the cloud, lying within the data |
| EventVerification.LookedAtExactly | include/record_io.hpp:442-449 | the rows looked at are those of the sensor asked for, the first ones when there is a limit |
| EventVerification.ReportedExactly | include/record_io.hpp:442-508 | a row looked at is complained of if and only if it is not sound, and warned of if and only if it is but names a converted copy that is not there under a safe path |
| EventVerification.PassedIsAccepted | include/record_io.hpp:432-440 | although the checksum verifier's return value is ignored, a directory that passes was accepted by it |
| EventVerification.WrittenVerifies | include/record_io.hpp:429-509 | a directory as the storage thread leaves it passes exactly when it has a row, every row is sound and no file name holds a newline |
| EventVerification.ChangesAreDetected | include/record_io.hpp:429-509 | whatever happened since manifest.sha256 was written: if the directory passes, the hashed files are the same with the same digests |
| EventVerification.CheckRecord | include/record_io.hpp:453-499 | a record counts as verified exactly when its bytes load, its message reads, its rows or points fit its data and its stamp is the row's |
| EventVerification.LoadRecordBytes | include/record_io.hpp:278-298 | unsafe, missing or oversized files do not load; a zstd record is unpacked |
| EventVerification.FitsByDivision | include/record_io.hpp:489-491 | the division by the point size is the multiplication it stands for, without its overflow |
| RecordCsv.ManifestRoundTrip | include/record_io.hpp:114-155 | whatever batches of plain rows were appended, the reader returns all rows in order and no problem |
| RecordCsv.PairsRoundTrip | include/record_io.hpp:157-200 | the same for pairs.csv, ids and stamps as the same 64-bit numbers |
| RecordCsv.TornManifest | include/record_io.hpp:114-155 | any byte prefix of such a file reads as its complete lines' rows and at most one more entry or problem |
| MalformedCsv.ManifestExactly | include/record_io.hpp:114-155 | for any text: every line after the header but a blank one comes to one entry or one problem; entries are those with four fields and a 64-bit time, field by field; a problem is reported for each other line, under its number, and for no other |
| MalformedCsv.PairsExactly | include/record_io.hpp:157-200 | the same for pairs.csv, where stamps may be left out |
| MalformedCsv.FieldsExactly | include/record_io.hpp:73-86 | carriage returns count for nothing wherever they stand; without them the fields are what stands between the commas |
| RecordCsv.SplitCsvLine | include/record_io.hpp:73-86 | fields between commas, carriage returns skipped |
| RecordCsv.ReadManifest | include/record_io.hpp:114-155 | entries and problems of every line after the header, in order |
| RecordCsv.ReadPairs | include/record_io.hpp:157-200 | the same for pairs.csv |
| RecordCsv.ManifestIsLines | include/raw_storage_worker.hpp:363-371 | appending batch by batch writes the header once, before the first row |
| Decimal.I64RoundTrip | include/record_io.hpp:89-97 | a printed integer reads back exactly when it fits 64 bits |
| Decimal.U64RoundTrip | include/record_io.hpp:99-111 | the same for unsigned numbers |
| Decimal.ReadsExactly | include/record_io.hpp:89-97 | a text reads as a number if and only if it is blanks, at most one sign and digits whose value fits 64 bits |
| Decimal.ReadsUnsignedExactly | include/record_io.hpp:99-111 | the same for unsigned numbers, where a minus after blanks wraps around |

## Left out

- ReceiverPromises.ChunkAnswerMeans: for a path that does not look like another one of the transaction where case does not count; such a one is refused.
- TransferState and FileState objects: values inside the receiver's table, although the source updates them in place; nothing else holds a reference to them.
- UploadSender.TransferDirectory: what is read of a file is a slice of one content; listing, opening, reading and the final size check may fail.
- UploadThread.UploadWorker.UploadDirectory: the channel answers as it likes; what a receiver makes of the requests is in `UploadProtocol`. `.upload_failed` and the retry times are not part of `EventStore`, where the upload thread may take up any candidate at any time.
- UploadScheduling.LeasesExcludeExactly: one clock that does not run backwards; the candidate scan's own removal of a stale lease is the same look without a write.
- UploadScheduling.RetriesAreRationed: one clock, where the source takes the retry time from the steady and the marker's age from the file clock.
- EventStore steps: event directory names are never used twice, across restarts too; within a process `DirectoryNames.DirectoryNamesDiffer` proves it, across processes it rests on the clock in the name. The record files themselves are not followed, only the rows of manifest.csv.
- EventStoreCalls.RecordEventIsSteps: for a storage thread that does nothing between the reservation and the first batch; `EventCapture.EventMonitor.RecordEvent` itself lets it take jobs meanwhile.
- DiskRetention.DiskSpaceManager.EnforceRetention: which directories are deleted, not what a failing `remove_all` leaves of the others; that is in `EventStoreRemoval`.
- Temporary files of `writeAtomically`: not in the model, except the `.uploading.tmp` that retention looks for; in the model a marker or file appears whole.
- EventVerification.VerifyEventDirectory: zstd, deserialization and hashing are parameters, the texts of problems are not modelled; a directory without a file below it does not exist, which can only add a warning about a converted copy.
- StorageJob.WriteRecords: conversion of images and clouds is a given file name or none; a write that fails part-way leaves no file.
- StorageJob.StorageThread.Account: the reason texts of failures are not modelled.
- PairLedger.PairIndex.Append: ids are unbounded; so are the counters of drops, captures and records.
- CaptureWindows.WindowIsRecorded: for a harvest by sensor time; after the wall deadline, or with a buffer that gives up frames of the window before they are taken, only `BatchesAreDisjoint` holds.
- The pair records of an event: the same range and boundary rule as for frames; only the frames are followed.
- `requireSyncedData`: one early rejection that touches no state.
- `std::sort` and directory listings: orders are parameters; SHA-256, UTF-8 decoding, case folding, OpenCV, PCL and CDR serialization too; all clocks are parameters.
- fsync and power loss, symbolic links, Windows renames, errors while iterating over a directory.
- ROS 2 publishers, subscriptions, services and timers, `ConfigManager`, the watchdog, the debouncer, lifecycle polling, the command-line reader, the generators and launch files: glue without a property of its own.
