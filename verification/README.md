# Verified model of the resumable downloader

A Dafny model of a segmented HTTP downloader (crate `fast_downloader`) with proofs of what it
promises. The centre is the multi-thread resumable download: N workers write
disjoint ranges of one file and publish their positions, a checkpoint task reads
those positions one at a time and replaces a state file by rename, and the process
may be killed or lose power between any two steps while the resource may move to a
newer version at any moment.

`dafny verify dfyconfig.toml` checks the whole project.

## How it is laid out

| file | what it holds |
|---|---|
| `State.dfy`, `Http.dfy` | resume state, its validation loop, the range splitter; probe result, validators, If-Range |
| `Protocol.dfy` | the step system: `Config`, `Sys`, one function per kind of step, `Fire`, `Exec` |
| `ProtocolContent.dfy`, `ProtocolCounts.dfy` | the inductive invariants: content and checkpoints; byte counts and events |
| `ProtocolTheorems.dfy` | the guarantees, over all executions |
| `ProtocolFresh.dfy` | a run that resumes nothing passed over is exact, 416s or not |
| `ProtocolCheckpoints.dfy` | what checkpoints save, and that the next run goes on there |
| `ProtocolVerdicts.dfy` | verdicts, cancellation and progress, from the workers' outcomes |
| `ProtocolSchedules.dfy` | schedule independence |
| `ProtocolRuns.dfy` | runs built step by step, for every configuration; every interrupted download can be completed |
| `ProtocolLimits.dfy` | where the guarantees end, as exact conditions and executions, for every number of threads above one |
| `Segment.dfy`, `RetryLoop.dfy` | one range request and the retry loop around it, as methods over an array and shared counters; when the loop ends, and when it succeeds |
| `ProtocolSegments.dfy` | the retry loop takes the steps of the protocol |
| `SingleThread.dfy`, `SingleThreadTheorems.dfy`, `SingleThreadVerdicts.dfy`, `SingleThreadEvents.dfy` | the single-thread path: methods on a growing file, their functional form, its content, its verdicts and its events |
| `TaskQueue.dfy`, `TaskQueueRuns.dfy` | dispatcher, runners, permits, replies, cancel map; what happens to every task |
| `Progress.dfy` | the sliding-window meter |
| `Disposition.dfy`, `Sanitize.dfy` | header tokenizer and file-name sanitizer |

The step system keeps the page cache (`cache`) and the medium (`disk`) of the data
file apart. Bytes, the file length and the state file's directory entry reach the medium one by
one, in any order, whenever the system likes (`Writeback`, `WritebackLength`,
`WritebackEntry`); a sync moves everything. A power failure keeps the medium and drops the
rest. A worker's write, the store of `current` and the addition to `downloaded` are three
separate steps. A 416 is a step that moves `current` to `end` without writing; the offsets
it passes over are collected in `holes` until somebody fetches them (`diskHoles` for the medium)
and counted in `skipped` for the run.

## Assumptions

* `write_all` has reached the page cache before `current` is stored, as
  `src/downloader.rs:668-671` claims; syncs succeed (their errors are dropped at
  `src/downloader.rs:353`, `498`, `678` and `src/state.rs:166`).
* A 206 body is the requested bytes of one version, perhaps cut short. Servers honour If-Range as
  section 13.1.5 of RFC 9110 says. The probe is atomic.
* `Identifies`: the validators of an older version neither pass for a newer one on resume nor
  are honoured by it. `DistinctStrongTagsIdentify` shows that strong entity-tags that do not
  recur are enough; for one version it is trivially true.
* One run at a time per path, nobody else edits the files, and a path is not downloaded
  in one mode after a partial download in the other.

## Findings

* The splitter's comment (`src/state.rs:187`) promises ranges of at least the minimum.
  1001 bytes with a minimum of 500 give three ranges of about 333. `SplitKeepsMinimumIff` is
  the exact condition; `SplitAtLeastHalfMinimum` is what holds always.
* A 416 is caught by the byte check of the same run, but the shutdown checkpoint has saved the
  skipped range and the size error keeps the state file, so the next run returns Ok
  over bytes nobody fetched (`SkippedRangeFoolsTheNextRun`, `ExactIffNever416`). A run that does
  not resume such a state is exact in spite of 416s (`FreshRunIsExact`).
* The repository's README says a same-size change can never splice two versions. On the
  multi-thread path that needs validators: `NoValidatorsMaySplice` is an execution without, and
  `ChangeIsSafeIff` the exact condition on the validators of two versions.
* On the single-thread path strong validators do not help a second run: it sends the validator
  of its own probe, so a partial file of an older version is completed with the rest of the new
  one. `RerunIsExactIff` and `TwoRunsAreSafeIff` are the exact conditions.
* Single-thread, within one run: if a longer version replaces the probed one and the stream
  breaks exactly at the probed length, the next attempt takes the file for complete
  (`TruncatedVersionMayPass`); if no length is announced, the longer body is cut to the probed
  length (`UnannouncedVersionMayPass`). `FinishedRunIsExactIff` is the exact condition.
* The hard cut of `sanitize` can leave a trailing dot or space, so sanitizing twice can
  differ (`HardCutMayEndInDot`; exact condition on the name in `SecondSanitizeIff`).
* A server that answers a range with a clean empty 206 keeps `worker_loop` going for
  ever, since each one resets the attempts (`EmptyRepliesNeverFinish`; exact condition in
  `EndsIffNeverStarved`).

## Model

| member | source | states |
|---|---|---|
| ProtocolContent.StepKeeps | src/downloader.rs:313-503 | every step of every actor (worker, checkpoint, orchestrator, power failure, kill, server) keeps the content invariant: each claimed byte is the probed version's, state files are honest, snapshots lag behind |
| ProtocolContent.ExecKeeps | src/downloader.rs:313-682 | hence every execution does, whatever the interleaving, crashes and resumes |
| ProtocolContent.WorkerKeeps | src/downloader.rs:703-854 | the invariant across each worker step, the 416 arm and a write abandoned before its position is published included |
| ProtocolContent.SaverKeeps | src/downloader.rs:650-682 | the invariant across reading positions one by one, syncing, writing the temporary file and renaming it |
| ProtocolContent.ProbeKeeps | src/downloader.rs:329-338 | a probe that sees a newer version makes every older state file unusable, also one that was never deleted |
| ProtocolTheorems.CompletedRunIsOneVersion | src/downloader.rs:471-502 | a run that returns Ok leaves, in cache and on the medium, the length and bytes of the one version it probed, outside offsets passed over by a 416 and never fetched since |
| ProtocolTheorems.CompletedRunIsExact | src/downloader.rs:313-503 | with no 416 the file is exactly that version, over all schedules, kills, resumes and changes of the resource |
| ProtocolTheorems.UnchangedResourceIsExact | src/downloader.rs:329-364 | for an unchanged resource the same without any assumption on validators |
| ProtocolTheorems.DatedVersionsAreExact | src/http.rs:86-96 | for versions without strong tags the same, if their dates never recur |
| ProtocolTheorems.LiveClaimsHold | src/downloader.rs:838-843 | in every reachable state every byte below a live position is right |
| ProtocolTheorems.SavedClaimsHold | src/downloader.rs:668-682 | a state file the next run would accept names only right bytes; with durable_resume only bytes already on the medium, and so does the state file a power failure would leave |
| ProtocolTheorems.SnapshotsAreSafe | src/downloader.rs:650-666 | a state assembled from positions read at different moments always validates and is behind the workers |
| ProtocolCheckpoints.CheckpointKeepsPositions | src/downloader.rs:650-682 | a state file a checkpoint installs has, for every worker, at least the position published when that checkpoint began and at most the one published now |
| ProtocolCheckpoints.ReturnedRunHasSavedAll | src/downloader.rs:684-696 | once the workers have stopped and if no checkpoint fails, a run that returns Cancelled, an error or a size mismatch leaves a state file with exactly the published positions; Ok and a changed resource leave none |
| ProtocolCheckpoints.ResumesWhereItStopped | src/downloader.rs:329-338 | and the next run of the same version loads exactly those positions |
| ProtocolRuns.CheckpointCanBeMade | src/downloader.rs:684-692 | whenever no checkpoint is under way, one can be made that saves exactly the published positions |
| ProtocolVerdicts.VerdictFollowsWorkers | src/downloader.rs:447-493 | the verdict is Cancelled if any worker was, else what the first failed worker calls for, else Ok or a size mismatch; only a changed resource drops the state file |
| ProtocolVerdicts.CancelledOnlyIfAsked | src/downloader.rs:198-219 | a run reports Cancelled only if the download was cancelled |
| ProtocolVerdicts.ReportsWhatIsPublished | src/downloader.rs:590-615 | a progress report is the number of published bytes, less those not yet counted and those skipped |
| ProtocolTheorems.ClampNeverBites | src/downloader.rs:659 | the `.min(e)` never changes a position |
| ProtocolTheorems.SavedBytesAreNotRewritten | src/downloader.rs:345-350 | no write of a worker changes a byte below a saved position |
| ProtocolTheorems.BytesAreConserved | src/downloader.rs:363-364 | counted + published-but-uncounted + skipped bytes are the sum of current - start, and at most the file size |
| ProtocolTheorems.ByteCheckPassesIffNothingSkipped | src/downloader.rs:484-493 | when all workers returned Ok the final check passes exactly when this run skipped nothing, and otherwise reports a size mismatch |
| ProtocolTheorems.EventsFormALifeCycle | src/downloader.rs:466-493 | multi-thread: Probing, Started?, Progress*, one terminal event; progress never decreases or passes the total, and is the full size before Completed |
| SingleThreadEvents.EventsFormALifeCycle | src/downloader.rs:188-221 | single-thread: the same shape over all attempts; a Completed reports the size of the file and so does the last progress before it, which is missing only when the file was taken for complete as found |
| SingleThreadEvents.RunReports | src/downloader.rs:957-1024 | across attempts only progress is reported, and the last report is the length of the file |
| ProtocolFresh.ClearRunIsExact | src/downloader.rs:484-493 | a run whose loaded ranges claim nothing a 416 passed over is exact if it returns Ok, whatever 416s come during it |
| ProtocolFresh.FreshRunIsExact | src/downloader.rs:329-338 | in particular a run that finds no usable state, whatever 416s came before |
| ProtocolCounts.StepCounts | src/downloader.rs:800-843 | every step keeps the byte balance |
| ProtocolCounts.StepEvents | src/downloader.rs:561-615 | every step keeps the event sequence well-formed |
| ProtocolSchedules.WorkerStaysInRange | src/downloader.rs:825-840 | a worker's step changes no byte, position or state outside its own range |
| ProtocolSchedules.WorkersCommute | src/downloader.rs:421-442 | steps of two workers are possible in both orders and end in the same state |
| ProtocolSchedules.ScheduleDoesNotMatter | src/downloader.rs:421-442 | two schedules with the same steps per worker are both possible or both not, and end in the same state |
| ProtocolSchedules.CompleteExecutionsAgree | src/downloader.rs:313-503 | any two executions that complete the same version without a 416 end with the same file |
| ProtocolRuns.InterruptedDownloadCanComplete | src/downloader.rs:329-364 | for every configuration and every reachable state with no run in progress, a new run can return Ok with the version the server has then, adds no passed-over offset, and under the content assumptions leaves exactly that version if none was left |
| ProtocolLimits.SkippedRangeFoolsTheNextRun | src/downloader.rs:800-807 | for every non-empty resource and multi-thread configuration: an execution through 416s whose second run returns Ok over a file that has no right byte |
| ProtocolLimits.ExactIffNever416 | src/downloader.rs:684-695 | all executions that complete are exact if and only if no 416 is ever answered |
| ProtocolLimits.PowerLossIsSafeIffDurable | src/downloader.rs:640-682 | for every multi-thread configuration where power may fail, runs are always exact if and only if durable_resume is on |
| ProtocolLimits.NoValidatorsMaySplice | README.md:12-16 | without validators a run of any multi-thread configuration can return Ok over the first worker's part of one version and the rest of another |
| ProtocolLimits.ChangeIsSafeIff | README.md:12-16 | for every multi-thread configuration, a change that does not shorten the resource is safe exactly when the old validators neither pass on resume nor are honoured |
| ProtocolSegments.StreamIsSteps | src/downloader.rs:815-854 | what the segment writer does with any stream is a sequence of that worker's Chunk, Publish and Count steps |
| ProtocolSegments.RoundIsSteps | src/downloader.rs:714-763 | every round of the retry loop, for every reply, cut and cancellation, is a sequence of that worker's steps with the same effect on file, position, counters and outcome |
| ProtocolSegments.LoopIsSteps | src/downloader.rs:714-763 | so is the whole loop, and the worker ends as the loop does |
| State.ResumeDecision | src/state.rs:68-91 | a state is refused exactly if the tags differ, or the dates differ and no equal strong tag says otherwise |
| State.Validate | src/state.rs:94-135 | accepts exactly the version-2 states whose ranges are gap-free, cover the file and hold their positions; each error tells its cause, and the first worker at fault |
| State.EveryOffsetHasOneWorker | src/state.rs:102-104 | in a valid state every offset is in exactly one range |
| State.TotalWithinFile | src/state.rs:138-140 | the byte total neither underflows nor exceeds the file, and equals it exactly when every worker is at its end |
| State.SplitWorkers | src/state.rs:189-215 | the loop computes the specified split |
| State.EffectiveIsMost | src/state.rs:192-197 | the number of ranges is the largest one up to the thread count that leaves each but the last a minimum piece and the last some bytes |
| State.NoMinimumUsesAllThreads | src/state.rs:192-199 | with no minimum there is one range for every thread |
| State.SplitTiles | src/state.rs:189-215 | the split partitions the file with nothing fetched, so it validates |
| State.SplitIsEven | src/state.rs:200-213 | the last range is longer than each other by less than the number of workers |
| State.SplitAtLeastHalfMinimum | src/state.rs:186-199 | no range is empty, and two or more workers get at least half the minimum each |
| State.SplitKeepsMinimumIff | src/state.rs:186-188 | the comment's promise holds exactly when the file has the minimum for all threads or is a multiple of it |
| State.SplitBelowMinimumExample | src/state.rs:186-188 | a file for which it fails |
| Http.SavedStateIsStale | src/state.rs:78-91 | a state saved for an older version is refused for a newer one |
| Http.DistinctStrongTagsIdentify | src/http.rs:90-96 | strong entity-tags that never recur satisfy both halves of the validator assumption |
| Http.DistinctDatesIdentify | src/http.rs:90-96 | so do dates that never recur, without strong tags, whatever weak tags there are |
| Http.OwnValidatorIsHonoured | src/http.rs:90-96 | the validator sent is one the same version honours, and its own state can be resumed |
| Segment.StreamStops | src/downloader.rs:815-848 | what arrives is everything before the stop, and how a stream ends is decided there; the cancellation is polled before an item is looked at |
| Segment.CuttingDoesNotMatter | src/downloader.rs:815-854 | however a body is cut into chunks, empty ones included, all of it arrives |
| Segment.WriteStream | src/downloader.rs:811-854 | the streamed writer is one bulk write of the arriving bytes that fit; current and downloaded move by exactly that; errors only before the end |
| Segment.WriteChunk | src/downloader.rs:825-843 | one chunk, capped at the end of the range |
| Segment.DownloadSegment | src/downloader.rs:767-855 | outcome, file and counters for every status, the 416 arm included |
| RetryLoop.WorkerLoop | src/downloader.rs:703-764 | follows the loop machine; with a byte per well-ended segment makes at most (bytes left + 1) * max(1, max_retries) requests; Ok means the range is fetched or a 416 ended it; each error has the cause it names, read off the reply to the last request; the file has the resource's bytes where the worker fetched and is untouched elsewhere |
| RetryLoop.OneRound | src/downloader.rs:714-763 | one round: poll, ask, and go on or return as the machine says |
| RetryLoop.Request | src/downloader.rs:719-733 | one request of the loop: what is gained, counted and skipped |
| RetryLoop.RoundDecides | src/downloader.rs:734-760 | what a round does, by the reply alone: failed requests and broken streams are retried from where they got to, a 200 ends the loop, a 416 the range, a well-ended stream starts the attempts over |
| RetryLoop.LoopSucceeds | src/downloader.rs:714-763 | if nobody cancels, ranges are served, well-ended segments bring bytes, and of any max_retries requests in a row one ends well, the loop returns Ok |
| RetryLoop.ProductiveEnds | src/downloader.rs:734-751 | the loop ends when every well-ended segment brings a byte |
| RetryLoop.EndsIffNeverStarved | src/downloader.rs:734-751 | for replies that depend on the position alone and no cancellation, the loop ends if and only if it never gets to a position where a 206 ends well without a byte |
| RetryLoop.EmptyRepliesNeverFinish | src/downloader.rs:735-737 | a server that always answers so keeps the loop for ever |
| SingleThread.WriteKept | src/downloader.rs:979-1015 | the read loop appends the specified bytes at the end of the file and ends as specified |
| SingleThread.KeptIsTheBodyCut | src/downloader.rs:979-1015 | written chunk by chunk, that is the arriving body cut to the announced room |
| SingleThread.SingleThreadAttempt | src/downloader.rs:862-1036 | one attempt: early return, resume, truncate and restart, length check |
| SingleThread.SingleThread | src/downloader.rs:505-554 | the retry loop is the specified run |
| SingleThread.PartialFile.WriteAt | src/downloader.rs:999-1000 | a write at the end extends the file and keeps what is before |
| SingleThreadTheorems.AttemptKeepsOneVersion | src/downloader.rs:894-951 | an attempt keeps the file a prefix of one version: the old one, or the one the server has |
| SingleThreadTheorems.RunKeepsOneVersion | src/downloader.rs:505-554 | across all attempts, truncations and changes the file never mixes versions |
| SingleThreadTheorems.AttemptOkIsWhole | src/downloader.rs:1026-1034 | an attempt that ends well has a whole version, or trusted the length of what was there |
| SingleThreadTheorems.FinishedRun | src/downloader.rs:505-554 | so does a finished run |
| SingleThreadTheorems.FinishedRunIsExactIff | src/downloader.rs:876-885 | for a resource that may change from one version to another during the run: every finished run from an empty file that passes the size check has a whole version if and only if the new one is not longer, or continues the old one, or a server that announces every length leaves no room for a second attempt |
| SingleThreadTheorems.UnchangedFinishedRunIsExact | src/downloader.rs:505-554 | while the resource does not change, a finished run is exact |
| SingleThreadTheorems.TruncatedVersionMayPass | src/downloader.rs:881-885 | for any longer new version: an honest server and a run that finishes with the new version cut to the probed length |
| SingleThreadTheorems.UnannouncedVersionMayPass | src/downloader.rs:992-999 | the same in one attempt, when no length is announced |
| SingleThreadTheorems.RerunIsExactIff | src/downloader.rs:887-900 | every run over a leftover file is exact if and only if the leftover is not built upon or is a prefix of the resource |
| SingleThreadTheorems.TwoRunsAreSafeIff | README.md:12-18 | with a change between two runs, every second run is exact, whatever the first left, if and only if one version is a prefix of the other; validators play no part |
| SingleThreadTheorems.LeftoversArePrefixes | src/downloader.rs:979-1015 | what an interrupted run can leave is exactly the prefixes of its version |
| SingleThreadVerdicts.ReadingStops | src/downloader.rs:979-1015 | reading a body ends well when more arrives than was announced, and else as the stream does |
| SingleThreadVerdicts.AttemptFailsFor | src/downloader.rs:904-949 | an attempt reports a cancellation only if one was seen, and an error to be retried only for a missing answer, a status that is no success, a broken body or a wrong length |
| SingleThreadVerdicts.FailedRequestIsTransient | src/downloader.rs:904-949 | a request without an answer or without success is an error to be retried, and leaves the file alone |
| SingleThreadVerdicts.VerdictHasACause | src/downloader.rs:518-552 | Cancelled only if the cancellation is seen at an attempt the run gets to; Exhausted only after exactly max(1, max_retries) attempts that each failed for a reason of the network or the server |
| SingleThreadVerdicts.RunSucceeds | src/downloader.rs:505-554 | if nobody cancels and the answer to some attempt within the limit is complete, the run finishes with exactly the resource |
| SingleThreadVerdicts.CompleteAttempt | src/downloader.rs:911-951 | a complete answer completes whatever prefix is there, with a known length or without |
| SingleThreadVerdicts.UnaskedPartIsMeasuredByProbe | src/downloader.rs:944-948 | the length announced with a 206 nobody asked for does not count |
| TaskQueue.ExecKeeps | src/queue.rs:60-172 | every step of submitters, dispatcher, runners and cancellers keeps permits, replies, places and tokens in order |
| TaskQueue.ConcurrencyIsBounded | src/queue.rs:88-107 | permits are conserved, and at most max_concurrent tasks run |
| TaskQueue.OneReplyPerTask | src/queue.rs:88-118 | a task is replied to at most once, and exactly once when its runner is past the reply; nobody else is |
| TaskQueue.UnansweredTaskIsCancellable | src/queue.rs:134-164 | a task that is arriving, in the channel, pending or running can be cancelled by id or by its handle, alike, and only it is |
| TaskQueue.CancelledPendingTaskBails | src/queue.rs:92-99 | a cancelled task that waits for a permit is answered without one |
| TaskQueueRuns.OutstandingUntilReplied | src/queue.rs:68-131 | a task stays outstanding under every step until it is replied to, unless its send fails or the dispatcher takes a shutdown before it |
| TaskQueueRuns.CanRunIffInTime | src/queue.rs:68-131 | from every reachable state an outstanding task can get to run if and only if no shutdown is ahead of it |
| TaskQueueRuns.OutstandingCanBeAnswered | src/queue.rs:93-113 | and then be replied to exactly once |
| TaskQueueRuns.TakenInOrder | src/queue.rs:70-78 | tasks are taken in the order they were sent |
| TaskQueueRuns.Backpressure | src/queue.rs:62-63 | the channel never holds more than max(1, queue_capacity) messages |
| TaskQueueRuns.CancelAllReachesAll | src/queue.rs:167-172 | cancel_all reaches every outstanding task |
| TaskQueueRuns.EndedTaskIsForgotten | src/queue.rs:112-113 | a task whose runner has ended is not found any more |
| Progress.SpeedMeter.Record | src/progress.rs:107-122 | the samples are always the newest 1024 of those of the whole history inside the window |
| Progress.KeptIsLastFresh | src/progress.rs:107-122 | the part of a history kept by both rules is the end of the filtered history |
| Progress.KeptExactly | src/progress.rs:111-121 | a sample is kept exactly if it is among the newest of the capacity and no older than the window at the last record |
| Progress.DroppedByAge | src/progress.rs:111-121 | dropping by age at each record, then by capacity, agrees with filtering the whole history |
| Disposition.ParseParams | src/filename.rs:75-147 | the index-driven loop ends on every input and yields the grammar's parameters |
| Disposition.RoundTrip | src/filename.rs:75-147 | parsing a rendered list gives back every name and value: quoted with escapes or bare, with blanks anywhere, skipping names without a value and what follows closing quotes |
| Disposition.UnclosedQuoteEndsHeader | src/filename.rs:123-137 | the end of the header closes a quote |
| Sanitize.SanitizeName | src/filename.rs:189-247 | the in-place code computes the specified name |
| Sanitize.SanitizedIsSafe | src/filename.rs:189-247 | for every input: non-empty, at most 200 bytes, no replaced character, no leading dot, space or underscore |
| Sanitize.OnlyForbiddenAreReplaced | src/filename.rs:190-199 | in a short name that begins and ends well exactly the forbidden characters change, each to an underscore in its place |
| Sanitize.NothingLeftFallsBack | src/filename.rs:222-224 | a name with nothing else than forbidden characters, dots, blanks and underscores becomes download.bin |
| Sanitize.ShortExtensionIsKept | src/filename.rs:226-238 | a clean long name keeps an extension of at most 16 bytes after as much of its stem as fits |
| Sanitize.OtherNamesAreCut | src/filename.rs:239-245 | any other clean long name is cut to as much as fits in 200 bytes |
| Sanitize.ExtensionIsKept | src/filename.rs:227-238 | a long name with a short extension is its longest fitting stem and that extension |
| Sanitize.CutStem | src/filename.rs:231-236 | popping to a boundary and truncating gives the longest fitting prefix |
| Sanitize.CutAtBoundary | src/filename.rs:240-245 | so does moving the cut down to a boundary |
| Sanitize.FitIsLongest | src/filename.rs:227-246 | the cut prefix fits and no longer one does |
| Sanitize.EndsWellUnlessHardCut | src/filename.rs:213-245 | outside the hard cut the result does not end in a dot or space |
| Sanitize.SecondSanitizeIff | src/filename.rs:189-247 | a second sanitize changes the result exactly for the names that are cut, without an extension kept, right after a dot or a space; never outside the hard cut |
| Sanitize.HardCutMayEndInDot | src/filename.rs:239-245 | a name for which it does change the result |

## Left out

- RetryLoop.WorkerLoop: requires that the loop ends, since a method that is proved must (`ProductiveEnds` and `EndsIffNeverStarved` say when it does); I/O errors of the file are not modelled.
- Segment.WriteStream: cancellation is polled once per stream item, as in the code; errors of opening, seeking, writing and flushing the file are not modelled.
- SingleThread.SingleThreadAttempt: success statuses other than 200 and 206, which reach `unreachable!` (`src/downloader.rs:950`), and I/O errors are not modelled; nor are its syncs.
- Disposition.RoundTrip: the header is a sequence of one-byte characters; values outside ASCII, percent-decoding, extended values and the choice among parameters are not modelled.
- Progress.SpeedMeter.Record: the floating-point speed computed from the samples is not modelled.
- The step system and the queue are modelled on values, as labelled steps, since they are about interleavings of concurrent tasks; the loops inside one task are methods over arrays and objects. A worker's attempts are nondeterministic in the step system; `ProtocolSegments` shows that the retry loop takes its steps.
- The number of threads, the minimum chunk and durable_resume are the same in all runs of one execution.
- The string edits of the sanitizer and the tokenizer's output are modelled on values.
- HTTP clients, TLS, redirects, header parsing and the body of the probe: network I/O; the probe's result is the version the server has.
- The JSON form of the state file: saving and loading is the identity on states, and what loads is what validates.
- I/O errors of the multi-thread path other than failing to open the file, to checkpoint, or a worker giving up.
- The switch between the two modes on one path (`set_len` makes the file look complete to the single-thread path).
- Checksum verification, timers and backoff delays, error texts, configuration, integer widths (offsets are natural numbers).
- Queue: ids chosen by callers, messages left behind a shutdown, and map entries left when a send fails.
