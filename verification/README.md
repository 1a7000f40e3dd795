# Torrent Intake: a verified model

Torrent Intake scans downloaded torrents through ClamD and promotes a torrent to its final folder only after a clean
verdict. It survives restarts at any point: every decision is a committed row or an atomic file operation. This project
models the parts of the program on which that promise rests and proves it for all inputs, all runs and all crash points.

`dafny verify dfyconfig.toml` checks the whole project (Dafny 4.11).

## How the model is organised

- **Scan queue and promotion** (`ScanModel`, `Promotion`, `ScanStore`, `ScanWorker`, `ScanRuns`, `ScanSafety`,
  `ScanTheorems`, `ScanOutcomes`, `ScanLeases`, `ScanProgress`, `ScanLimits`, `ScanWitness`, `LimitWitness`).
  `ScanModel` and `Promotion` hold the durable rows and what each committed step makes of one record.
  `ScanStore.Controller` is the program: methods that load a record, change a copy and commit it, each proved to make
  exactly the specified step. `ScanWorker` is the worker's loop. `ScanRuns` is the step relation in which all workers,
  users, restarts and promotion passes interleave, with a log of scanner answers, of folders sent and of destinations
  at the moment of clearing. `ScanSafety` proves that every step keeps the invariant, `ScanTheorems` what follows for
  whole runs, and `ScanWitness` exhibits one complete run. `ScanOutcomes` says, apart from the step functions, when a
  job becomes infected, cleared, failed or done, when a folder is sent, and what each answer, ending and request leaves;
  `ScanLeases` how long a lease lasts; `ScanProgress` what a scheduler cycle claims and what a rebuild keeps.
  `ScanLimits` says exactly when two more statements hold of a run, and `LimitWitness` exhibits runs of which they do
  not. An ownership check and its commit are one step, and the clock is read once per scheduler cycle.
- **Uploads** (`Numerals`, `Bencode`, `Metainfo`). The decoder is a class with offset, entry count and kept info bytes;
  its loops are proved against the canonical encoding of BEP 3, "bencoding". `Metainfo` decides which decoded values are
  accepted; file trees follow BEP 52, "file tree".
- **RAR framing** (`RarFraming`, `RarWriter`). The validator's walk, and the fixture writers it inverts. The RAR5 part
  follows the RARLAB "RAR 5.0 archive format" note, "Data types" and "General archive structure". The checksum is an
  arbitrary function with a 32-bit result.
- **Large media** (`MediaWindows`, `ScanReply`, `RangeScan`, `Collector`, `LargeMedia`, `ParallelRanges`,
  `Attachments`). Window plan, adaptive splitting, INSTREAM framing and replies; one range with its shared cancellation
  flag; the parallel collector over every schedule; the file from plan to verdict, with its ranges one after another and
  with their requests interleaved; and the attachment budget. ClamD, FFmpeg and FFprobe are arbitrary
  answers.
- **Archives** (`ArchiveProtocol`, `ArchiveWitness`). The extracting helper over any nested archive, and the parent
  that scans each member before acknowledging it, taking turns over a pipe that may cut lines anywhere. libarchive is an
  arbitrary tree of entries.
- **Restore** (`Restore`), **routed copy** (`CopyComparison`, `RoutedCopy`, `CopyOutcome`, `CopyRuns`). Ordered file
  operations, each of which may be the last before a crash; a raised error leaves the same files as a crash at that
  point. `RoutedCopy` is the program, disturbed by others between any two steps; `CopyOutcome` says how it ends when
  nobody disturbs it; `CopyRuns` lets any number of jobs and other programs share the name of one payload.
- **Hooks** (`Hooks`) and **local capacity** (`Capacity`).

`Options` and `ByteStrings` are shared vocabulary. A class method that changes state is proved equal to a specification
function of the old state; the promises are then lemmas about these functions and their runs, stated without them.

## Where the code falls short of a plain statement

- *No stale journal beside a restored database.* The journals are removed only if the database exists when an attempt
  starts (app/restore.py:123). With a journal but no database when the restore is staged, an attempt without any crash
  ends with the old journal beside the restored database. `Restore.NoStaleJournalExactly` gives the exact condition and
  `Restore.StaleJournal` the failing run.
- *No overcommit of local space.* Jobs on the scan side are passed over by the pass but may still have bytes left
  (app/service.py:1238-1240). `Capacity.NoOvercommit` holds for all jobs the pass decides about;
  `Capacity.RunningFitsExactly` says exactly when it holds with the skipped jobs included.
- *A pending job has no pause request.* A failed attempt returns a job to the queue without looking at the pause request
  (app/scan_coordinator.py:879-889). `ScanLimits.PendingWithoutPauseExactly` gives the exact condition on a run,
  `ScanLimits.CandidateAfterPauseAndResume` what follows, and `LimitWitness.AStuckRunExists` a run.
- *Never more large scans than the cap.* A job's size can grow after its claim (app/scan_coordinator.py:1280-1282).
  `ScanLimits.LargeCapExactly` gives the exact condition on a run, and `LimitWitness.ARunBeyondTheCapExists` a run.
- *A copy writes only into what it made.* rsync is given the name of the new directory (app/copy_action.py:312-325). If
  others take that directory away and put theirs in its place, rsync writes into theirs.
  `CopyRuns.WritesForeignExactly` and `CopyRuns.NoForeignWriteExactly` give the exact condition on a state and on a run,
  `CopyRuns.ForeignWriteNeedsRemoval` and `CopyRuns.RemovalMisleadsRsync` what leads there, and
  `CopyRuns.MisledRunExists` a run.

## Model

| member | source | states |
|---|---|---|
| ScanStore.Controller.QueueJob | app/scan_coordinator.py:84-108 | a queued job is pending, holds no lease, verdict or pause request, and keeps the time it was first queued |
| ScanStore.Controller.RecoverInterruptedScans | app/scan_coordinator.py:110-152 | every queued or post-scan record, and no other, becomes its recovered form; the loop reaches all of them |
| ScanStore.Controller.EnsureControl | app/scan_coordinator.py:60-82 | the slots end between 1 and the hard maximum; slots already there leave the control alone, others move to the nearest bound, and the boost then holds exactly above the default |
| ScanStore.Controller.RelaxBoost | app/scan_coordinator.py:178-186 | the boost survives exactly while something is pending; when it ends the slots are the default ones, and otherwise nothing changes |
| ScanStore.Controller.ClaimInOrder | app/scan_coordinator.py:205-236 | the claim loop hands out the slots along the candidate list, skipping a large job once the large cap is reached |
| ScanStore.Controller.ClaimJobs | app/scan_coordinator.py:154-246 | recovery, clamping, counting and claiming together are one scheduler cycle of the run model |
| ScanStore.Controller.Heartbeat | app/scan_coordinator.py:808-826 | a lease is renewed exactly for the worker that holds it, and nothing changes otherwise; how long it then lasts is `ScanLeases.RenewedLease` |
| ScanStore.SelectPending | app/scan_coordinator.py:329-334 | finds a pending row of smallest size, and none exactly when no row is pending |
| ScanStore.RebuildRows | app/scan_coordinator.py:641-694 | the rows are the reconciled manifest in order, and the four totals are a recount of them |
| ScanStore.Controller.PrepareManifest | app/scan_coordinator.py:608-702 | an owned run's rows, totals, identity and verdict after a rebuild; a lost run is untouched |
| ScanStore.Controller.StartFile | app/scan_coordinator.py:371-385 | starts the smallest pending file under the fingerprint found on disk and adjusts the byte total by the size change; finds none exactly when none is pending; a file that is missing or not regular is refused and nothing changes |
| ScanStore.Controller.RecordAnswer | app/scan_coordinator.py:401-450 | an answer is recorded exactly for the owner, for the row that was in flight; what an infected and a clean answer leave behind is `ScanOutcomes.InfectedAnswerIsRecorded` and `ScanOutcomes.CleanAnswerIsRecorded` |
| ScanStore.Controller.Checkpoint | app/scan_coordinator.py:455-474 | between files a pause request wins over a yield; the lease is given up exactly when one of them applies |
| ScanStore.Controller.FinishCleanScan | app/scan_coordinator.py:794-806 | the clean verdict is recorded exactly for an owned run without pause request and without pending row |
| ScanStore.Controller.HandleInterruption | app/scan_coordinator.py:828-853 | the job rests as paused or pending and rows in progress become pending, for the owner only |
| ScanStore.Controller.HandleFailure | app/scan_coordinator.py:855-893 | failures are counted, the retry delay doubles, and the last failure is terminal; a pause request is not looked at |
| ScanStore.Controller.DeferClaim | app/scan_coordinator.py:895-936 | the job is handed back without counting a failure, with the retry delay only if one is given |
| ScanStore.Controller.HandlePolicyFailure | app/scan_coordinator.py:938-967 | rows in progress are marked refused and the job ends with an error verdict |
| ScanStore.Controller.PrioritizeJob | app/scan_coordinator.py:987-1000 | only pending or scanning jobs are raised, and never lowered |
| ScanStore.Controller.PauseJob | app/scan_coordinator.py:1002-1015 | a pending job pauses at once, a scanning one is asked to; anything else is refused unchanged |
| ScanStore.Controller.ResumeJob | app/scan_coordinator.py:1017-1032 | only a paused job resumes, without pause request and without retry delay |
| ScanStore.Controller.UpdateFinalDestination | app/service.py:62-109 | the destination changes exactly when it is still the expected one and the job is editable |
| ScanStore.Controller.BeginPromotion | app/service.py:993-1000 | a cleared job is marked as promoting to the canonical folder before anything else |
| ScanStore.Controller.ReconcileCleanPromotion | app/service.py:993-1059 | one promotion pass is one step of the run model; when it completes and when it sends a folder is `ScanOutcomes.DoneExactly` and `ScanOutcomes.SentExactly` |
| ScanStore.Controller.PrepareJobForRetry | app/service.py:729-745 | marks of an unfinished scan or promotion are cleared, others stay |
| ScanStore.Controller.RetryJob | app/service.py:310-389 | only a failed job is retried; the row after each outcome of the retry |
| ScanStore.Controller.AttachRetry | app/service.py:331-342 | a job attached to an existing torrent takes the state its marks allow and is queued exactly when its download is complete |
| ScanStore.Controller.ActOnInfection | app/service.py:1061-1183 | holding, quarantining and deleting move an infected job only along the infected states |
| ScanWorker.HandBack | app/scan_coordinator.py:475-484 | each way a scan breaks off is its own committed step |
| ScanWorker.TryToFinish | app/scan_coordinator.py:335-369 | the verdict follows the last rebuild with nothing in between |
| ScanWorker.RoundScans | app/scan_coordinator.py:371-474 | one file: start, answer and checkpoint are enabled steps of the run model |
| ScanWorker.Round | app/scan_coordinator.py:287-474 | one round of the loop is a run of enabled steps and leaves the worker ready or done |
| ScanWorker.RunClaim | app/scan_coordinator.py:248-484 | a whole claim is a run of enabled steps, so it keeps the invariant of the controller; a cleared job was rebuilt and cleared by its last two steps |
| ScanWorker.ReachesKeepsInv | app/scan_coordinator.py:248-484 | any sequence of enabled steps keeps the invariant |
| ScanSafety.CountersAfterUpdate | app/scan_coordinator.py:371-421 | replacing one row moves the recount by exactly that row's old and new share |
| ScanSafety.CountersAfterRelease | app/scan_coordinator.py:140-148 | handing rows back moves no counter |
| ScanSafety.NoInfectedRowsToCount | app/scan_coordinator.py:691-694 | the counts of clean rows kept by a rebuild are the counts of completed rows when none is infected |
| ScanSafety.RebuiltRows | app/scan_coordinator.py:641-694 | after a rebuild the rows are exactly the manifest, and a clean row was clean before with the same path and fingerprint under unchanged engine and policy |
| ScanSafety.RecoveredOk | app/scan_coordinator.py:110-152 | recovery keeps leases, verdict, marks and counters consistent |
| ScanSafety.PreparedOk | app/scan_coordinator.py:608-702 | so does a rebuild, whose rows match the manifest and are clean or pending |
| ScanSafety.StartedOk | app/scan_coordinator.py:371-385 | so does starting a file, through any size change |
| ScanSafety.ScannedOk | app/scan_coordinator.py:401-450 | so does recording an answer |
| ScanSafety.InterruptedOk | app/scan_coordinator.py:828-853 | so does an interruption |
| ScanSafety.DeferredOk | app/scan_coordinator.py:895-936 | so does deferring a claim |
| ScanSafety.AttemptFailedOk | app/scan_coordinator.py:855-893 | so does a failed attempt |
| ScanSafety.PolicyRefusedOk | app/scan_coordinator.py:938-967 | so does a policy refusal |
| ScanSafety.RetriedOk | app/service.py:310-389 | a retry keeps the record consistent |
| ScanSafety.ClaimsAreCapped | app/scan_coordinator.py:205-236 | one cycle claims at most the free slots, and no large job beyond the large cap |
| ScanSafety.ClaimLoopKeepsInv | app/scan_coordinator.py:205-236 | claiming keeps the invariant and stays within the hard slot maximum |
| ScanSafety.ScheduleKeepsInv | app/scan_coordinator.py:154-246 | a whole scheduler cycle keeps the invariant |
| ScanTheorems.StepKeepsInv | app/scan_coordinator.py:84-967 | every enabled step of anybody keeps the invariant: queueing, recovery, claims, heartbeats, rebuilds, starts, answers, pauses, yields, failures, edits, retries, promotion and infected actions |
| ScanTheorems.RunsKeepInv | app/scan_coordinator.py:84-967 | in every reachable state: scanning exactly with worker, lease and heartbeat; nothing held otherwise; counters equal a recount; verdicts agree with states; scanning jobs within the hard maximum |
| ScanTheorems.RebuiltWasPrepared | app/scan_coordinator.py:335-369 | a worker about to finish stands where its last rebuild left it |
| ScanTheorems.OnlyFinishCleanClears | app/scan_coordinator.py:794-806 | no other step moves a job onto the clean side |
| ScanTheorems.CleanGate | app/scan_coordinator.py:335-369 | the clean gate over whole runs, under any interleaving: the rows are the manifest just rebuilt and every entry has a not-infected scan of that path and fingerprint under the run's engine and policy |
| ScanTheorems.WithoutLeaseNothingIsRecorded | app/scan_coordinator.py:401-450 | a worker without its lease changes no row, verdict or lease |
| ScanTheorems.LostLeaseStaysLost | app/scan_coordinator.py:110-152 | over whole runs, a reclaimed worker never holds a lease again |
| ScanTheorems.InfectedIsNeverPromoted | app/service.py:1061-1183 | over whole runs, an infected job stays on the infected side and is never done |
| ScanTheorems.CleanSideHasCleanVerdict | app/service.py:767-778 | every cleared, promoting or done job has a clean verdict, and no retry of a reachable failed job enters the clean or infected states |
| ScanTheorems.ClearedWhenFinished | app/scan_coordinator.py:794-806 | the remembered destination is the one the job had in the step that cleared it |
| ScanTheorems.SentFolderIsTheClearedOne | app/service.py:1021-1032 | every folder sent to qBittorrent is the canonical form of the destination as it stood when the clean verdict was recorded |
| ScanOutcomes.InfectedAnswerIsRecorded | app/scan_coordinator.py:401-447 | an infected answer of the worker in charge ends the scan: the job is infected by that threat, the verdict is recorded, the lease is gone, and the row in flight is infected under the identity it was scanned with |
| ScanOutcomes.CleanAnswerIsRecorded | app/scan_coordinator.py:401-450 | a clean answer of the worker in charge makes exactly the row in flight clean, counts it once, forgets earlier failures and keeps the scan going |
| ScanOutcomes.InfectedExactly | app/scan_coordinator.py:430-437 | in a run a job gets onto the infected side in a step if and only if the step is an infected answer of the worker in charge |
| ScanOutcomes.InfectedAnswerIsForGood | app/scan_coordinator.py:430-447 | over whole runs, a file once answered infected for the worker in charge keeps its job off the clean side for good, under that threat |
| ScanOutcomes.ClearedExactly | app/scan_coordinator.py:794-806 | in a run a job gets onto the clean side in a step if and only if the worker in charge finishes after its last rebuild, no pause is asked for and no row is pending |
| ScanOutcomes.DoneExactly | app/service.py:1003-1056 | in a run a job becomes done in a step if and only if the step is a promotion pass over it that finds its torrent without error, not moving, ours, paused, saved at the canonical cleared folder and accepted there; its content path is then the torrent's |
| ScanOutcomes.SentExactly | app/service.py:1021-1032 | a folder is sent in a step if and only if a promotion pass finds the torrent healthy, paused, saved elsewhere and fit to move; it is the canonical cleared folder, and the job is then promoting to it |
| ScanOutcomes.RequestIsAnswered | app/scan_coordinator.py:987-1032 | each request of a run does exactly what it says to its job, and nothing where the state does not allow it; an infected job moves only along the infected states, each action to its own |
| ScanOutcomes.EditIsAnswered | app/service.py:62-109 | in a run the destination changes exactly when it is the expected one and the job is paused in its scan, or downloads without a scan and without being complete; the other checks cannot fail then |
| ScanOutcomes.RetryIsAnswered | app/service.py:310-389 | what a retry of a failed job leaves: nothing of its earlier download or scan counts, and it is queued afresh exactly when the download is complete |
| ScanOutcomes.EndingIsRecorded | app/scan_coordinator.py:828-967 | each way the worker in charge stops without an answer leaves exactly the state, the rows and the waiting time it should |
| ScanOutcomes.BackoffIsPower | app/scan_coordinator.py:879-889 | the waiting time after n failures is the base times two to the n |
| ScanOutcomes.FailedExactly | app/scan_coordinator.py:855-967 | in a run a job fails in a step if and only if its download does, a policy refuses its scan, or an attempt fails that is the last one allowed |
| ScanLeases.RenewedLease | app/scan_coordinator.py:808-826 | after a claim, a start or a heartbeat at time t the worker holds a lease that ends exactly max(leaseSeconds, 3 * heartbeatSeconds, 30) later |
| ScanLeases.LeaseHoldsExactly | app/scan_coordinator.py:110-152 | over whole runs, as long as nothing of its own renews or ends its scan, no forced recovery comes and the job is not deleted, a worker keeps its scan if and only if every recovery since came before that end; a late one takes it for good |
| ScanLeases.LateRecoveryHandsBack | app/scan_coordinator.py:128-150 | the recovery that is late, or forced, puts the job back to rest and its rows in progress to pending |
| ScanLeases.RestartFreesAll | app/scan_coordinator.py:110-152 | after a forced recovery no job scans and nobody holds a lease |
| ScanProgress.NoSlotIsWasted | app/scan_coordinator.py:154-246 | after a cycle that may claim, a job that is still due has to wait: all slots scan, or it is large and as many large jobs scan as may |
| ScanProgress.ClaimedInTurn | app/scan_coordinator.py:203-236 | of two due jobs the one that comes first in the queue is claimed first, unless it is large and no large job may be added |
| ScanProgress.PrioritizedFirst | app/scan_coordinator.py:1273-1278 | with the queue sorted by its first key, no waiting makes up for a priority that is more than fifty lower |
| ScanProgress.OnlyDueIsClaimed | app/scan_coordinator.py:160-229 | only outside maintenance and with a working scanner, only a pending or expired job that is due and not paused is handed to a new worker, and nothing else of it changes |
| ScanProgress.StartIsRecorded | app/scan_coordinator.py:329-385 | a started file is pending and none pending is smaller; its row gets the fingerprint found on disk and loses its old result if that changed |
| ScanProgress.RebuildKeepsResults | app/scan_coordinator.py:641-702 | a rebuild keeps the clean or pending row of a file when path, fingerprint, root, engine and policy are unchanged; everything else is pending |
| ScanProgress.SlotsAfterStep | app/scan_coordinator.py:60-82 | the slots are those set last, within bounds, or the default once a boost is over, and a boost does not outlive its queue |
| ScanLimits.StuckAfterStep | app/scan_coordinator.py:855-893 | exactly which steps leave a job pending with a pause request: a failure short of the last one, for a worker in charge of a scan that was asked to pause; it lasts until the job is paused |
| ScanLimits.PendingWithoutPauseExactly | app/scan_coordinator.py:879-889 | in a run, no pending job ever has a pause request if and only if no such failure happens |
| ScanLimits.StuckByFailing | app/scan_coordinator.py:879-889 | a job pending with a pause request has been so ever since such a failure |
| ScanLimits.CandidateAfterPauseAndResume | app/scan_coordinator.py:188-200 | what it costs: the job is no candidate for a claim until it is paused once more and then resumed |
| ScanLimits.ExceedsCapExactly | app/scan_coordinator.py:1280-1287 | a step exceeds the large cap exactly when, while as many large jobs scan as may, a worker in charge finds its job large: by the sizes in the manifest it has read, or by the size of the file it is about to scan |
| ScanLimits.LargeCapExactly | app/scan_coordinator.py:1280-1287 | in a run, the large cap holds in every state if and only if no such step happens |
| ScanLimits.ScheduleWithinCap | app/scan_coordinator.py:154-246 | a scheduler cycle never exceeds the cap |
| ScanLimits.SizesDecide | app/scan_coordinator.py:608-702 | whether a rebuild or a start makes a job large is decided by sizes known before it |
| ScanWitness.ARunExists | app/scan_coordinator.py:84-484 | a complete run from submission to promotion exists in the model, through a scanned file and the clean gate |
| LimitWitness.AStuckRunExists | app/scan_coordinator.py:879-889 | a run that ends with a pending job that was asked to pause |
| LimitWitness.ARunBeyondTheCapExists | app/scan_coordinator.py:1280-1282 | a run in which two jobs of unknown size are claimed together and both turn out large under a cap of one |
| Numerals.DigitsOfNumber | app/metainfo.py:72-74 | a numeral without leading zeros is the one printed for its number |
| Numerals.DecimalIsInjective | app/metainfo.py:62-63 | no two integers print alike |
| Bencode.Unique | app/metainfo.py:28-81 | no encoding is a prefix of another value's, at any nesting |
| Bencode.EncodingIsInjective | app/metainfo.py:28-81 | no two values share an encoding |
| Bencode.ReadsOneValue | app/metainfo.py:28-81 | at most one value stands at a place of the input |
| Bencode.ListCursor | app/metainfo.py:39-41 | inside a list, the next byte ends it exactly after its last item, and otherwise starts the next one |
| Bencode.DictCursor | app/metainfo.py:39-48 | the same for the pairs of a dictionary |
| Bencode.OrderedGrows | app/metainfo.py:43-46 | comparing with the previous key alone makes all keys increasing and distinct |
| Bencode.Decoder.ReadInt | app/metainfo.py:55-66 | an integer is read exactly when a canonical 64-bit numeral stands there |
| Bencode.Decoder.ReadStr | app/metainfo.py:67-80 | a byte string is read exactly when its canonical length and all its bytes stand there |
| Bencode.Decoder.ReadPair | app/metainfo.py:43-50 | a key is read exactly when it is a later byte string, and the bytes of info are kept at the top level only |
| Bencode.Decoder.ReadList | app/metainfo.py:35-54 | the item loop reads exactly the list that stands there |
| Bencode.Decoder.ReadDict | app/metainfo.py:35-54 | the pair loop reads exactly the dictionary that stands there |
| Bencode.Decoder.Read | app/metainfo.py:28-81 | a value is read exactly when the canonical encoding of one within the depth, node and 64-bit limits stands there, and exactly its bytes and entries are consumed |
| Bencode.DecodeWhole | app/metainfo.py:102-107 | the whole input decodes exactly when it is the encoding of a value within the limits; decoding then encoding and encoding then decoding are both the identity, and the kept bytes are the encoding of the info value |
| Metainfo.PowersOfTwo | app/metainfo.py:168-169 | n & (n - 1) vanishes exactly for powers of two |
| Metainfo.Parser.AddPath | app/metainfo.py:125-128 | a path is added exactly when it is new |
| Metainfo.Parser.CheckPaths | app/metainfo.py:130-133 | passes exactly when no path lies inside another |
| Metainfo.Parser.ParseEntries | app/metainfo.py:142-158 | a file list is accepted exactly when every entry is valid and no path is repeated; the size is the sum of the lengths |
| Metainfo.Parser.Visit | app/metainfo.py:175-192 | a tree is accepted exactly when it is well formed; the duplicate check never rejects, and the size is the sum of the leaf lengths |
| Metainfo.SiblingsArePrefixFree | app/metainfo.py:175-192 | files below different keys never meet, at any depth |
| Metainfo.TreeIsPrefixFree | app/metainfo.py:175-202 | an accepted tree names every file once and no file inside another |
| Metainfo.DirectoriesHoldFiles | app/metainfo.py:189-191 | every directory of an accepted tree holds a file |
| Metainfo.Parser.ParseV1 | app/metainfo.py:136-163 | the version-1 part is accepted exactly for a valid description, with its size |
| Metainfo.Parser.ParseV2 | app/metainfo.py:167-202 | the version-2 part is accepted exactly for a valid tree; the final path check never rejects it |
| Metainfo.ParseTorrent | app/metainfo.py:102-205 | an upload is accepted exactly when it encodes a valid description, and size, name and identity bytes are those of the decoded info |
| Metainfo.AcceptedV1 | app/metainfo.py:136-163 | an accepted list is duplicate-free and prefix-free with exactly ceil(size / piece length) hashes |
| Metainfo.AcceptedV2 | app/metainfo.py:167-202 | an accepted tree is distinct and prefix-free, holds a file, and its piece length is a power of two from 16384 up |
| Metainfo.LeafHasRoot | app/metainfo.py:183-188 | every file of an accepted tree has its declared length, and a 32-byte root hash unless it is empty |
| Metainfo.DeclaredLengths | app/metainfo.py:93-99 | the sizes of an accepted version-1 list are the integers its entries declare |
| Metainfo.AcceptedPathsStayInside | app/metainfo.py:85-90 | joined and split again at either slash, accepted paths keep their components, and none of these is empty, the directory itself, its parent, or a drive |
| RarFraming.DecodeVint | app/archive_tools.py:244-254 | the loop reads seven bits a byte, least significant first, nine bytes at most |
| RarFraming.VintRoundTrip | tests/archive_fixtures.py:22-28 | an encoded number is read back exactly when it is below 2^63, and refused otherwise |
| RarWriter.LengthIsRead | app/archive_tools.py:308-311 | a header length is accepted exactly below 2^21, though only sixteen bytes are read |
| RarFraming.WriteVint | tests/archive_fixtures.py:22-28 | the writer's loop produces the encoding |
| RarFraming.CheckExtra | app/archive_tools.py:330-340 | the extra area is accepted exactly when its records tile it and none marks encryption |
| RarFraming.ValidateRar | app/archive_tools.py:257-375 | acceptance means blocks that tile the file from the signature to its end with only the last an end block, and one entry per file block in order; refusal means no such blocks exist within the header limit |
| RarFraming.WalkIsPrefix | app/archive_tools.py:267-374 | the walk never leaves the only possible sequence of blocks |
| RarFraming.NextInFrame | app/archive_tools.py:368-374 | each block starts where the one before it ends and lies within the file |
| RarWriter.WriteArchive | tests/archive_fixtures.py:9-42 | the writers fail exactly when a fixed-width field is too small, and otherwise write the archive |
| RarWriter.HeaderOfPayload | app/archive_tools.py:308-314 | a written version-5 header is read back exactly when its payload is below 2^21 bytes |
| RarWriter.MainIsRead | app/archive_tools.py:273-344 | a written main header is accepted exactly without volume or encryption flags |
| RarWriter.FileIsRead | app/archive_tools.py:285-360 | a written file header gives back its size and checksum |
| RarWriter.EndIsRead | app/archive_tools.py:302-374 | a written end header ends the walk |
| RarWriter.ArchiveIsFramed | tests/archive_fixtures.py:9-42 | a written archive is framed by its own blocks, or not at all |
| RarWriter.OneFraming | app/archive_tools.py:257-375 | a file has at most one framing |
| RarWriter.ValidateWritten | app/archive_tools.py:257-375 | validating what the writer produced returns exactly the sizes and checksums it stored, if and only if everything is readable and the header limit allows it |
| RarWriter.ExtraIsRead | app/archive_tools.py:330-340 | an extra area written from any records is accepted if and only if none of them is the encryption record |
| RarWriter.RefusedHeaders | app/archive_tools.py:315-322 | encrypted headers, parts of multi-volume archives and a first block that is no main header are refused |
| RarWriter.MemberIsRead | app/archive_tools.py:345-360 | for any flags: size and checksum of a version-5 file are read back, behind a time stamp or not; unknown sizes, and files without checksum, are refused |
| RarWriter.RefusedHeaders4 | app/archive_tools.py:279-306 | the same refusals for version 4, with split and encrypted files and unknown blocks |
| RarWriter.LargeFileIsRead | app/archive_tools.py:292-301 | version-4 sizes beyond four bytes are put together from their halves |
| MediaWindows.WindowRanges | app/scanner.py:242-265 | the plan steps by window minus overlap from zero to the end, and bad parameters are refused exactly |
| MediaWindows.PlanCovers | app/scanner.py:242-265 | every run of at most overlap + 1 bytes lies inside one planned window |
| MediaWindows.PlanCount | app/scanner.py:242-265 | exactly ceil((total - overlap) / (window - overlap)) windows above the window size |
| MediaWindows.Split | app/scanner.py:268-290 | two halves that overlap by the overlap, cover the window, shrink and respect the minimum; the window stays whole exactly when a half of it would be below the minimum |
| MediaWindows.SplitCovers | app/scanner.py:268-290 | coverage of both halves is coverage of the window |
| MediaWindows.SendWindow | app/scanner.py:1374-1397 | whatever the short reads, ClamD receives exactly the slice of the file |
| MediaWindows.FramesAreRead | app/scanner.py:1376-1397 | length-prefixed chunks are read back one after another |
| MediaWindows.ReceiveReply | app/scanner.py:1440-1463 | a reply is returned exactly when it is terminated and bounded before the connection ends or the scan is interrupted, however it is cut into receipts |
| ScanReply.DetectionIsExact | app/scanner.py:209-231 | for every name without letters that fold to several: a detection is a threat under its own name exactly when the name tells neither of a limit nor of content that needs a review; those become a limit and a policy refusal, never an infection |
| ScanReply.LimitIsNamed | app/scanner.py:213-221 | a limit reported in any casing is a limit of exactly that name |
| ScanReply.MentionedInName | app/scanner.py:25-31 | a limit marker is found in a detection exactly when it lies in the detected name |
| ScanReply.ThreatOfDetection | app/scanner.py:225-226 | the threat taken from a detection is the detected name |
| ScanReply.CleanSaysOk | app/scanner.py:209-231 | whatever is taken for clean reads OK, or ends so after a colon, but for white space and zero bytes around it, and names no limit |
| ScanReply.OkIsTaken | app/scanner.py:222-224 | and such a text is taken for clean |
| ScanReply.TooLargeIsDivisible | app/scanner.py:180-181 | a report of the file limit, in any casing, and the refusal of the stream are limits that smaller windows may resolve |
| ScanReply.OtherLimitIsNot | app/scanner.py:180-181 | a report of any other limit is not |
| ScanReply.FileLimitIsTooLarge | app/scanner.py:213-221 | the words ClamD uses are such a report |
| RangeScan.RangeScanner.ScanRange | app/scanner.py:988-1082 | a clean range is resolved: covered by windows sent as they are and answered OK; a cancelled one saw the flag; when every window is answered OK, or is too large for ClamD while it may still be split, the range ends clean; a limit that splitting cannot resolve, or a changed file, is the last reply and fails the range; a threat is the last reply and makes it infected |
| RangeScan.BoundedIsCalm | app/scanner.py:1029-1060 | a ClamD that answers OK up to some length and reports a size limit beyond it lets every range end clean, if anything longer may be split |
| RangeScan.SplittingCost | app/scanner.py:1028-1074 | splitting conserves length minus overlap, so at most max(1, (length - overlap) / (minimum - overlap)) windows and one request less than twice as many |
| RangeScan.CleanMeansInspected | app/scanner.py:929-986 | with every range resolved, every byte and every run of at most overlap + 1 bytes was sent in one window exactly as in the file and answered OK |
| LargeMedia.CleanHasAll | app/scanner.py:972-978 | a clean verdict has a clean completion for every range of the plan |
| LargeMedia.AllCleanIsClean | app/scanner.py:971-978 | when every range ended clean, in any order, so did the file |
| LargeMedia.ScanLargeMedia | app/scanner.py:886-986 | end to end: if the verdict is clean, then for every file size, parameters, pattern of limit replies, short reads and cancellations, every byte and every run of at most overlap + 1 bytes lies in one window that ClamD received exactly as it is in the file and answered OK; an infected verdict has such a window answered with a threat; and when every reply is OK and nothing interferes, the verdict is clean |
| LargeMedia.CalmIsPossible | app/scanner.py:886-986 | all can go well, also with a ClamD that refuses every window above some size, as long as those may be split |
| ParallelRanges.StepKeepsInv | app/scanner.py:988-1082 | when requests of all ranges interleave: windows answered and windows to do always cover the range, and a range stops otherwise than by itself only after another one caused it |
| ParallelRanges.VerdictOfRanges | app/scanner.py:929-986 | over every interleaving of requests, answers, cancellations and collections: clean exactly when all ranges ended clean, infected exactly when one did, with a delivered window answered with a threat, and never that ranges are missing |
| ParallelRanges.CleanFileIsInspected | app/scanner.py:929-986 | and a clean verdict means that every byte and every run of at most overlap + 1 bytes was delivered in one window as it is in the file and answered OK |
| ParallelRanges.SplittingResolves | app/scanner.py:1029-1074 | over every interleaving, when each window is answered OK or can be split because it is too large for ClamD, the file is clean |
| ParallelRanges.OtherLimitEndsRange | app/scanner.py:1031-1037 | over every interleaving, any other limit ends its range as failed: nothing is split, and the range sends no further window |
| ParallelRanges.ThreatInfectsFile | app/scanner.py:965-974 | over every interleaving, one reply that names a threat makes the file infected |
| ParallelRanges.UnusableIsNotClean | app/scanner.py:1008-1028 | over every interleaving, one answer that did not come, or that is about a changed file, keeps the file from being clean |
| Collector.Collector.Run | app/scanner.py:948-977 | the loop over completed ranges, in any order, gathers the fold of the completions and judges it |
| Collector.LoopFollowsRun | app/scanner.py:948-969 | in every schedule the loop holds what the run has gathered |
| Collector.StepKeepsInv | app/scanner.py:948-969 | a range ends otherwise than by itself only after another one made it stop |
| Collector.VerdictIsScheduleIndependent | app/scanner.py:929-986 | over every order of completions and cancellations the file is clean exactly when all ranges are; ranges are dropped only in infected or failed runs; the missing-range guard is never reached |
| Attachments.ParseProbe | app/scanner.py:395-481 | attachments are admitted exactly within the count, size, index and budget limits |
| Attachments.AllowanceIsFull | app/scanner.py:1188-1201 | while spending stays within reservations, the next attachment is offered all it may ever get: its size, or the per-object allowance when that is unknown, capped only by the native limit |
| Attachments.ScanAttachments | app/scanner.py:1179-1252 | for every admitted probe the budget rejection never happens, extraction stays within the budget, and it is clean exactly when every attachment was extracted completely and is clean; then each had its declared size |
| Attachments.ReadChapterTrack | app/scanner.py:1284-1340 | a chapter track is read exactly when it has as many packets as reported and declared, within the limit, and these are valid, in order, inside the file and within the allowance; nothing of them is left out |
| Attachments.PacketsExactly | app/scanner.py:1306-1335 | packets are valid exactly when each is of this track, whole, inside the file and behind the one before it, and holds the text it states |
| Attachments.PacketsAreDisjoint | app/scanner.py:1306-1340 | no byte of the file is taken twice |
| ArchiveProtocol.FileNamesDiffer | app/archive_tools.py:476-479 | entries with different numbers never share a file name, whatever their suffixes |
| ArchiveProtocol.Extractor.WriteOut | app/archive_tools.py:480-501 | the shared budget is never exceeded, a member is written exactly when its data has the declared size and checksum, and it costs that size |
| ArchiveProtocol.Extractor.Create | app/archive_tools.py:476-482 | the file of a new entry never exists already |
| ArchiveProtocol.Extractor.Hand | app/archive_tools.py:503-510 | a member is scanned while its copy is on disk and acknowledged only when it is acceptable and not infected, and then always if its message fits the parent's limit |
| ArchiveProtocol.Extractor.Extract | app/archive_tools.py:423-513 | for any nested archive: the budget holds, at most depth copies exist at once, names never collide, and exactly the plain files are handed over; it goes through exactly when no entry at any depth is unsupported, everything fits the limits together, and every member passes |
| ArchiveProtocol.CostExactly | app/archive_tools.py:442-513 | the running check of each entry, from any use and depth, refuses exactly what is unsupported or does not fit as a whole, and uses up exactly the entries and bytes that are there |
| ArchiveProtocol.RefusedExactly | app/archive_tools.py:423-513 | from the start, nothing is refused if and only if every entry at every depth is sound and is an empty directory or a file with its declared data, every nested archive is framed and not too deep, and the entries and the bytes of all files are within the limits |
| ArchiveProtocol.Parent.Handle | app/archive_tools.py:163-188 | one line is a closing message, or a member that is scanned before the next line |
| ArchiveProtocol.Parent.Drain | app/archive_tools.py:160-188 | what is known after a chunk is what its complete lines amount to |
| ArchiveProtocol.Parent.Receive | app/archive_tools.py:148-188 | the answer does not depend on how the pipe cuts the output: it is what the lines amount to, unless too much comes without a newline |
| ArchiveProtocol.Parent.Close | app/archive_tools.py:189-194 | with the helper gone, the result is clean exactly for status zero, an empty buffer and a closing line that counts the members scanned |
| ArchiveProtocol.Parent.Run | app/archive_tools.py:145-198 | with any helper, a clean result means status zero, an empty buffer and a closing line that counts exactly the members scanned |
| ArchiveProtocol.ScanArchive | app/archive_tools.py:116-207 | helper and parent in turns: every plain file at any depth was scanned once, in order, while its copy was on disk, and found clean; and, if no message is too long, an archive is clean exactly when everything in it is supported and within the limits and every member passes |
| ArchiveWitness.FaithfulAndShort | app/archive_tools.py:163-188 | for every archive with paths of reasonable length there is an encoding that is read back and whose messages fit the limit, so both halves speak of something |
| Restore.DataDirectory.ApplyPendingRestore | app/restore.py:74-141 | a start that is cut short anywhere leaves what the step model says |
| Restore.DataDirectory.SavePrevious | app/restore.py:108-119 | the previous files are saved once, and the flag is set last |
| Restore.DataDirectory.FoldJournal | app/restore.py:123-131 | the journals of an existing database are folded in and removed |
| Restore.DataDirectory.Install | app/restore.py:132-138 | three copies, then the pending directory goes |
| Restore.RestoreIsCrashSafe | app/restore.py:74-141 | after any crashes: the previous files are in place or in the rollback directory, which never holds another database, opening the data directory finds the previous database until the staged one is copied in, and once the restore is over all three files are the staged ones and the rollback copy is complete |
| Restore.UninterruptedAttemptCompletes | app/restore.py:74-141 | from any reachable state one attempt without a crash completes the restore |
| Restore.NoStaleJournalExactly | app/restore.py:121-134 | no stale journal ever lies beside the installed database if and only if, when the restore was staged, the database existed or there was no journal |
| Restore.StaleJournal | app/restore.py:123-134 | a journal left without its database still lies beside the restored database after an attempt without any crash |
| CopyComparison.Snapshot | app/copy_action.py:65-84 | the worklist visits every entry of the tree exactly as the recursive listing, and refuses special files exactly |
| CopyComparison.SnapshotIsFunction | app/copy_action.py:65-84 | a snapshot says one thing of each path |
| CopyComparison.SameFileBytes | app/copy_action.py:150-171 | chunk by chunk, equal exactly when the bytes are |
| RoutedCopy.CopyTarget.PublishRoutedRecord | app/copy_action.py:181-198 | publication cut short anywhere leaves what the step model says |
| RoutedCopy.CopyTarget.Supersede | app/copy_action.py:193-198 | the superseded receipt gets its second name before it is replaced |
| RoutedCopy.CopyTarget.CopyRouted | app/copy_action.py:255-342 | an attempt cut short anywhere, with anything done by others between two of its steps, leaves what the step model says |
| RoutedCopy.CopyTarget.CopyDirectory | app/copy_action.py:311-329 | the same for a directory: it must be new |
| RoutedCopy.CopyTarget.FillDirectory | app/copy_action.py:312-329 | the same for filling it: the identity is taken from what stands under the name and checked before and after rsync, each of whose writes may depend on what it finds there |
| RoutedCopy.CopyTarget.CopyFile | app/copy_action.py:315-333 | the same for a file: rsync writes a private one, which is linked under a name that must be free |
| RoutedCopy.CopyTarget.PublishConfirmed | app/copy_action.py:336-341 | the same for the receipt: it is written only for a payload that still stands as it was seen |
| CopyRuns.AttemptIsRun | app/copy_action.py:255-342 | an attempt of the program is a part of a run in which jobs and other programs interleave step by step |
| CopyRuns.OnlyItsMakerWrites | app/copy_action.py:274-340 | in every state of every run, no step of a job takes away or replaces a payload that stands there; only rsync changes one, and only that of its own running attempt unless others took a payload away meanwhile |
| CopyRuns.WritesForeignExactly | app/copy_action.py:311-325 | in every state of every run, a step of a job changes a payload its attempt did not make exactly when rsync is about to write, finds another inode under the name than the attempt made, and something there to change |
| CopyRuns.NoForeignWriteExactly | app/copy_action.py:311-325 | so in a run no job ever changes a payload its attempt did not make if and only if no write of rsync is so misled |
| CopyRuns.ForeignWriteNeedsRemoval | app/copy_action.py:311-325 | what it takes to get there: others took a payload away while that attempt was running |
| CopyRuns.RemovalMisleadsRsync | app/copy_action.py:311-325 | what suffices: while an attempt still has to write into its directory, a removal and a new payload in which rsync finds something to change |
| CopyRuns.MisledRunExists | app/copy_action.py:311-325 | such a run exists from every start without a payload |
| CopyRuns.PayloadIsNeverReplaced | app/copy_action.py:274-340 | over whole runs of any number of jobs with crashes: as long as others do not take it away, the payload that stands there stays |
| CopyRuns.ForeignPayloadIsUntouched | app/copy_action.py:274-340 | a payload that no running attempt made is left exactly as it is, also when it appears in the middle of an attempt |
| CopyRuns.StepKeepsReceipts | app/copy_action.py:181-198 | every step leaves each published receipt a lasting name |
| CopyRuns.ReceiptsAreNeverLost | app/copy_action.py:181-198 | over whole runs with crashes, every receipt ever published stays linked and still says the same |
| CopyRuns.CopiedHasTrueReceipt | app/copy_action.py:276-341 | a successful attempt leaves a published receipt for its request and source, and the payload it describes stood under the name while the attempt was running |
| CopyOutcome.UndisturbedAttempt | app/copy_action.py:255-342 | left alone, an attempt acknowledges a payload with a matching receipt, gives one with the contents of the source a receipt, refuses any other one untouched, and without a payload copies exactly when rsync completes: the payload is then what rsync wrote, and its receipt is published |
| Hooks.MatchingRuleWins | app/post_promotion.py:77-82 | the rule found is an enabled ancestor and no enabled ancestor is longer; none is found exactly when there is none |
| Hooks.RuleOrderDoesNotMatter | app/post_promotion.py:77-82 | with unique sources the winner does not depend on the order of the rules |
| Hooks.HookStore.QueuePromotionHook | app/post_promotion.py:85-128 | what is queued, and when nothing is |
| Hooks.QueuedFollowsWinner | app/post_promotion.py:99-110 | a copy without a route goes where the winning rule says and keeps the path below the rule's source; otherwise nothing is queued, and only because copies are off, there is nothing promoted, no rule applies or the content is not below a winning rule's source |
| Hooks.HookStore.RetryHook | app/main.py:325-345 | only a failed or interrupted action is queued again |
| Hooks.HookStore.CancelPromotionCopy | app/main.py:348-367 | only a waiting, failed or interrupted copy is cancelled |
| Hooks.HookStore.RecoverInterrupted | app/post_promotion.py:187-197 | exactly the running actions become interrupted |
| Hooks.HookStore.ClaimNext | app/post_promotion.py:278-320 | a pass fails broken jobs and durably claims the first ready one |
| Hooks.HookStore.FinishClaim | app/post_promotion.py:322-330 | an outcome is recorded exactly for the running attempt of the claim |
| Hooks.HookStore.DeleteJob | app/service.py:409-427 | a job is deleted exactly when none of its actions waits or runs |
| Hooks.PassKeepsInv | app/post_promotion.py:278-320 | a pass keeps the invariant and issues at most one claim, for an attempt nobody held |
| Hooks.StartsAreRequested | app/post_promotion.py:278-330 | over whole runs with crashes and late finishes, the processes started for a job are at most one plus its explicit retries |
| Hooks.AttemptsStrictlyIncrease | app/post_promotion.py:307-319 | every claim of a job takes a later attempt than all claims and starts before it |
| Hooks.StaleFinishIsIgnored | app/post_promotion.py:322-330 | a finish changes a row only if the row runs that very attempt |
| Hooks.StatusAfterStep | app/post_promotion.py:187-330 | over whole runs, the status of an action after each step: only its own events change it, each to exactly one status |
| Hooks.ActiveJobIsNotDeleted | app/service.py:409-427 | only a deletion removes a job, and never one whose action waits or runs |
| Hooks.CopyRouteIsPinned | app/post_promotion.py:85-128 | over whole runs and retries a routed copy keeps destination, root and relative path, and root and relative path lead to the promoted content |
| Capacity.RemainingIsAnEstimate | app/service.py:1334-1348 | the estimate from progress never exceeds the declared size, never grows with progress and ends at zero |
| Capacity.RemainingIsReported | app/service.py:1334-1348 | what is left is what qBittorrent reports; without a report it is the first size that is not zero, or the local limit |
| Capacity.CapacitySnapshot | app/service.py:1454-1501 | the reserved bytes before a job are those of foreign torrents and of the counted jobs created before it; a job counts unless it is on its NAS or paused on the way there |
| Capacity.LocalStaging.ApplyLocalStagingPolicy | app/service.py:1553-1617 | one job after the policy, with what was reserved before it; other jobs are untouched |
| Capacity.LocalStaging.RunPass | app/service.py:934-945 | a pass applies the policy in creation order, each decision seeing the ones before it |
| Capacity.NoOvercommit | app/service.py:1553-1617 | after a pass, foreign bytes and the bytes of all admitted jobs fit together into the free space less the buffer |
| Capacity.RunningFitsExactly | app/service.py:1238-1240 | counting also jobs the pass skips, nothing is ever overcommitted if and only if no skipped job still fetches bytes behind a job the pass may admit |
| Capacity.LateFetchingOvercommits | app/service.py:1238-1240 | an amount of free space for which such a skipped job overcommits |
| Capacity.AdmittedArePrefix | app/service.py:1553-1617 | under the queue policy, whatever the other jobs are, no job within the local limit waits while one created after it is admitted |
| Capacity.NoneIsOvertaken | app/service.py:1553-1617 | under either policy, when a job is admitted every older one within the local limit is admitted too or handed to its NAS |
| Capacity.AdmittedExactly | app/service.py:1553-1617 | under either policy, a job within the local limit is admitted exactly when it fits with what is reserved for the jobs before it |
| Capacity.AdmittedByAge | app/service.py:1553-1617 | under the queue policy, with older jobs local, on the scan side or on their NAS, that is exactly when it fits with the bytes of the older counted jobs as they were before the pass |
| Capacity.DownloadKeepsBound | app/service.py:1469-1501 | downloading k bytes, which leave both the free space and what remains, keeps the bound |

## Left out

- ScanStore.Controller.EnsureControl: does not model the first creation of the control row; there is one from the start.
- ScanStore.Controller.ClaimJobs: the candidates come in an arbitrary order; of the sort key (app/scan_coordinator.py:1273-1278) only its first part, the priority with its waiting time, is stated.
- ScanStore.Controller.PrepareManifest: does not model the fallback to an engine version parsed from an older row format, nor the database definition version, which does not decide reuse.
- ScanStore.Controller.RetryJob: does not model the calls to qBittorrent, the torrent hash and the size and path a retry copies from the torrent while the job waits; their outcome is a parameter.
- ScanStore.Controller.ReconcileCleanPromotion: does not model tags, categories and the guard's checks of mounts and tags; each check is an answer of the environment. Canonicalization of a folder is an arbitrary partial function that changes nothing when applied twice.
- ScanStore.Controller.ActOnInfection: the guard checks and the search for a free quarantine directory are left to the caller; the directory is a parameter.
- ScanWorker.RunClaim: one worker alone, from the environment's answers; interleavings with others are the runs of `ScanRuns`, where each of its commits is a step.
- SQL mechanics and interleavings inside one check-then-commit segment; the name given to an unnamed threat, messages, timestamps that are only displayed, and the choice among pending files of equal size.
- Metainfo.ParseTorrent: the digests in the magnet are represented by the bytes they are computed from; decoding of the display name is left out.
- ScanReply.Parse: a reply is text, so decoding of bytes is left out; letters fold one to one and word characters are those of ASCII; messages are left out.
- ScanReply.DetectionIsExact: says nothing of names with letters that fold to several characters, such as the sharp s or a ligature, because `Parse` does not fold them so.
- ScanReply.LimitIsNamed: says nothing of limit names with word characters outside ASCII, which `Parse` does not take for word characters.
- RangeScan.RangeScanner.ScanRange: deadlines, heartbeats, scan slots and lost connections appear as failed or interrupted requests.
- LargeMedia.ScanLargeMedia: the method scans the ranges one after another, in any order and with any cancellations by siblings; overlapping requests are the runs of `ParallelRanges`.
- CopyComparison.Snapshot: a snapshot is a set of paths with their identities; link and mount checks along each path are left out.
- RoutedCopy.CopyTarget.CopyRouted: does not model the checks of the source, of mounts and of directories other than the payload, which end an attempt like a crash, nor the older wrapper copies (app/copy_action.py:345-438); rsync is any sequence of writes under the payload's name or into the private file, each a function of what it finds, which covers that it leaves existing files alone; that it would make the directory anew where none stands is left out.
- Attachments.ParseProbe: codec, MIME and file-name rules are left out; they only refuse more.
- ArchiveProtocol.Extractor.Extract: entry checks that only refuse (names, encryption, links, manifest agreement) are one flag; scratch space, resource limits and the process group are left out. ZIP end records (app/archive_tools.py:380-400) are left out.
- RarFraming.ValidateRar: works on the file as a byte string; CRC32 is an arbitrary function.
- Restore.StaleJournal: does not say what the restored database reads as, because that depends on how the old journal applies to it.
- Restore.DataDirectory.ApplyPendingRestore: digest, space and symbolic-link checks only stop an attempt; the shared-memory file follows the journal. A database is its content, and a journal is absent, emptied or holds the content it would restore to its own database; what it does to another database is left out.
- Hooks.HookStore.ClaimNext: the checks before a claim are one answer per job; output capture, time limits and process termination are left out.
- Capacity.Remaining: progress is a real number, so floating-point rounding is left out.
- Capacity.LocalStaging.RunPass: free space and remaining bytes are fixed during a pass, and a pause is visible at once.
- Settings, settings editor and view, templates, routes, the admin token, event files, uploads, backup encryption, zip packing, schema migration, activity summaries and ETA: display, plumbing or library behaviour without a deep property.
