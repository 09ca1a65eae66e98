# Chainbench web server: verified model

A Dafny model of the stateful core of the chainbench web server, with proofs about whole runs of it.

- **Job protocol and change feed** (`job_model`, `job_feed`, `claims`, `job_holds`, `job_core`, `job_safety`,
  `job_runs`, `job_theorems`, `job_meaning`, `job_server`). `JobServer.WebJobs` is the mutex-protected store with its
  fields and methods; each method's new state is a function of `JobCore`. `JobRuns` is the step system: each locked
  section, each return of the engine, each subscription and each restart is one step, and the engine, clock and disk
  are free. `JobMeaning` says what is recorded and shown in the terms of the engine's answers and the records' fields.
- **Observation archive** (`log_tail`, `log_gaps`, `log_append`, `log_cursor`, `log_collect`, `log_drain`,
  `log_fields`, `gaps`, `gap_view`, `windows`, `archive`, `pages`, `buckets`): tailing a log across bounded reads,
  replacement, failed writes and crashes; the ledger of open and ended gaps and what a reader is shown of it; deletion
  by interval subtraction; paging and downsampling.
- **RLP reader and signature tampering** (`rlp`, `tamper`, `tamper_accepts`), after the Ethereum Yellow Paper,
  Appendix B.
- **ABI encoding and decoding** (`abi`), after the Solidity Contract ABI Specification, section "Formal Specification
  of the Encoding", with 64-bit wrap-around written out.
- **Revisioned documents and bundle import** (`bundle`, `documents`, `document_runs`, `document_store`).

`dafny verify dfyconfig.toml` checks the project.

Randomness, time, permissions decided elsewhere, the outcome of a durable write and everything the engine does are
parameters or free choices. Fresh identifiers (128 random bits in the source) are assumed not to be in use; digests are
assumed injective; a server instance name holds no colon, which its hexadecimal form guarantees.

## Where the code does not meet the obvious statement

- Refusing a job before it runs (`web_job_execution.go:216-231`) leaves a job that was cancelled in the meantime in
  "cancelling" until a restart: `ReturnedExecutor` and `RefusalOutcome` say exactly when, `StrandedFromStart` gives a
  run from a new server.
- The line after an oversized one can be skipped too (`web_monitor_log.go:153,166`): `SkipsAgain`, `ShortLineLost`.
- Lines that fill a whole read are never archived: `EveryLineArchived` says that nothing else is missing exactly when
  there are none.
- When a day record cannot be appended, the background collector saves the flags and identity of the read with the old
  offset (`web_monitor_log.go:162,178,189`, `web_monitor.go:237-257`). `UnstoredReads` says exactly when that is
  harmless; `KeyBlockShown` and `TailShown` say what it costs otherwise: a line of a key block is stored unhidden, the
  tail of an oversized line is stored as a line.
- A failed second observation of a replaced log keeps the new identity with the old offset
  (`web_monitor_log.go:144`): `FailedRestart` says exactly when the start of the log is then lost. A truncation,
  unlike a replacement, keeps an open key block open: `RestartReads`.
- A node is marked drained although the round left it out or found no log (`web_monitor_remote.go:143-147`):
  `MarkedMeaning`, `StoppedNodeLosesItsGap`.
- A gap that continues keeps its start and takes the round's end, so a round that starts earlier or ends earlier loses
  instants: `ContinuingKeepsAll`.
- `DecodeString` panics on offsets or lengths near 2^63, although it documents an empty result for malformed input:
  `DecodePanicsExactly`. `WordAt` wraps likewise: `WordAtExactly`.
- Log cursors of windows longer than 31 days, which runs may have, or before the epoch are issued but never accepted:
  `CursorRoundTrip`, `FollowPartitions`.
- A window shorter than 720 * 720 ns can give more than 721 points: `PointBoundExactly`.
- Actor ids with a colon would share idempotency key texts: `KeyTextInjective`.

## Model

| member | source | states |
|---|---|---|
| JobTheorems.JobSafetyOverRuns | internal/app/web_job_execution.go:54-259 | Over every run with any interleaving and restarts: a job never disappears, an ended job keeps its state and phases, a revocation is never replaced by a user cancellation and keeps retention at "retain", and an ended job has a disposition |
| JobTheorems.RestartEndsEveryJob | internal/app/web_jobs.go:50-106 | After any run the stored snapshot passes the loader's checks, and reopening leaves every job terminal |
| JobTheorems.ExclusionOverRuns | internal/app/web_jobs.go:256-317 | In no reachable state do two unfinished jobs hold overlapping claims; jobs and idempotency keys stay in one-to-one correspondence and every job was accepted once |
| JobTheorems.StartIsExactlyOnce | internal/app/web_jobs.go:256-334 | Once a job is accepted under an actor's key, in every later state of every run, restarts included, that key replays this job for the same plan and is refused for any other; no other key leads to the job |
| JobTheorems.LaunchIsRecorded | internal/app/web_job_execution.go:68-86 | The engine is started only for a job durably recorded as running that nobody has cancelled |
| JobTheorems.ReturnedExecutor | internal/app/web_job_execution.go:54-170 | An executor that returned with all commits done left a terminal job, except exactly when it refused a job it found cancelling, which stays cancelling with no cancel function left |
| JobTheorems.RefusalOutcome | internal/app/web_job_execution.go:216-238 | After a refusal commits, the job is terminal if and only if the refusal found it accepted |
| JobTheorems.RefusalCanStrand | internal/app/web_job_execution.go:216-231 | A concrete run from any freshly accepted job (check fails, owner cancels, refusal commits) that leaves it cancelling with its executor gone |
| JobTheorems.FreshJob | internal/app/web_jobs.go:256-317 | On a new server, plan, begin and finish of a start leave an accepted job whose executor is about to be admitted with a live context |
| JobTheorems.StrandedFromStart | internal/app/web_job_execution.go:216-231 | A run from a new server, for any valid plan of any operator, that ends with the job stranded in cancelling |
| JobTheorems.StuckUntilRestart | internal/app/web_job_execution.go:216-238 | A job stranded that way stays cancelling in every run without a restart |
| JobTheorems.RevokedBeforeDecision | internal/app/web_job_execution.go:87-115 | If a revocation commits before the cleanup decision, no continuation of the run ever calls Cleanup for that job |
| JobTheorems.RevokedDuringCleanup | internal/app/web_job_execution.go:87-115 | In every reachable state in which Cleanup runs for a revoked job, the context it was given has been cancelled |
| JobTheorems.RevocationIsARun | internal/app/web_job_execution.go:268-294 | The revocation loop under one lock equals a run of single revocation steps, so every whole-run theorem covers it |
| JobTheorems.SnapshotPlusReplay | internal/app/web_job_observation.go:60-139 | Within one server instance, folding the journal's events after version v over the jobs of version v gives exactly the present jobs, whatever ran in between, as long as the journal reaches back to v |
| JobTheorems.DeliveredOverRun | internal/app/web_job_observation.go:60-82 | Over every run, a subscriber with as many events as there were versions has an exact replay; it has that many as long as nothing was dropped on any channel or its own channel never lacked room |
| JobTheorems.SubscriberReachesStore | internal/app/web_job_observation.go:95-187 | End to end: snapshot, any run, subscribe with the snapshot's cursor, any run: a subscriber with as many events as versions has each once and in order and their fold over the snapshot is the store; it has that many whenever its own channel never lacked room |
| JobMeaning.EndedAs | internal/app/web_job_execution.go:81-170 | Over every run from a job's admission to the written commit of its end: it is succeeded if and only if it has no cancel reason and neither Execute nor Cleanup failed, cancelled if and only if it has one and no failed cleanup was answered last, else failed; the disposition is the engine's last answer, else "retained" after a revocation, else "unknown" |
| JobMeaning.AnswersOverRun | internal/app/web_job_execution.go:81-120 | What the executor carries, at every point of every run, is whether any engine call of the job failed and what the last one answered |
| JobMeaning.FinishMeaning | internal/app/web_job_execution.go:126-170 | State, disposition, phases, lists and error of an ended job from its reason and the engine's answers |
| JobMeaning.CleanupMeaning | internal/app/web_job_execution.go:99-125 | What Cleanup adds: effects in order, unresolved resources replaced unless it failed, and its disposition |
| JobMeaning.CleanupIsWanted | internal/app/web_job_execution.go:87-98 | Cleanup is called next exactly when the job asks for it and no revocation came before |
| JobMeaning.ViewTells | internal/app/web_job_contract.go:175-183 | A reader's "terminal" holds if and only if the job succeeded, failed, was cancelled or interrupted, and "needsCheck" if and only if a check may begin, that is, it has ended and is interrupted or of unknown disposition |
| JobMeaning.ShownEndIsFinal | internal/app/web_job_contract.go:175-183 | A job shown as ended keeps its state in every later state of every run |
| JobMeaning.EventTells | internal/app/web_job_observation.go:60-82 | A commit's event carries the job it names as just recorded, with the same two answers, under the next version and cursor |
| JobMeaning.CancelPermission | internal/app/web_job_execution.go:179-213 | A cancellation changes a job only for its owner or an administrator and only while it is unfinished; its context then ends |
| JobMeaning.CancelMeaning | internal/app/web_job_execution.go:240-259 | A first reason stays unless a revocation comes, and a revocation retains |
| JobMeaning.RevocationReaches | internal/app/web_job_execution.go:268-294 | A revocation reaches exactly the owner's unfinished jobs whose plan binds the credential to a server or an account, or all when none is named; each is cancelling, retained and without a live context, every other job as before |
| JobMeaning.ReconcileMeaning | internal/app/web_job_reconcile.go:71-86 | Absent: cleaned, nothing unresolved; present: retained, nothing unresolved; unverified: unknown, the rest as it was |
| JobMeaning.ReconciledHolds | internal/app/web_job_reconcile.go:71-86 | A network found absent no longer blocks an overlapping claim; one found present, or not verified, still does unless a later cleanup released it |
| JobMeaning.LaunchedHolds | internal/app/web_resource_holds.go:47-98 | An ended launch that was not cleaned blocks a process on its host exactly while its network is recorded as running that executable, or any |
| JobMeaning.ReleasedByLaterCleanup | internal/app/web_resource_holds.go:47-98 | An ended holder's claim is released if and only if a job of its workspace accepted later ended cleaned, with nothing unresolved and a claim that covers it |
| JobMeaning.StartMeaning | internal/app/web_jobs.go:256-317 | A start is accepted if and only if the key is new, the plan is the actor's and unexpired, the engine's preparation is valid and as planned at every check, and no job blocks its claims; a used key replays its job for the same plan |
| JobMeaning.ReportMeaning | internal/app/web_job_execution.go:18-52 | A phase report is taken exactly while the job is accepted or running, for a planned phase in a state an engine may report |
| JobMeaning.ReopenMeaning | internal/app/web_jobs.go:81-99 | Reopening interrupts exactly the unfinished jobs: disposition unknown, the plan's resources unresolved; everything else stays |
| JobMeaning.ResourcesMeaning | internal/app/web_jobs.go:199-208 | The resources a plan names are those of its claims that will not stay idle, in order: a process by host and executable, any other by host and path |
| JobFeed.ReplayBoundary | internal/app/web_job_observation.go:144-187 | A cursor is replayed if and only if it is this instance's text of a version the journal still covers; then the channel holds exactly the later versions in order, otherwise exactly one resync event; the channel's capacity suffices either way |
| JobFeed.ResyncMeaning | internal/app/web_job_observation.go:144-187 | The one resync event gives the present version and the reason: no cursor, a cursor of another server instance, an outrun one with the versions it misses, or else an invalid one |
| JobFeed.CommitKeepsJournal | internal/app/web_job_observation.go:60-68 | The journal stays a contiguous run that ends at the audit length, and grows by one up to 128 versions |
| JobFeed.FollowsCommit | internal/app/web_job_observation.go:60-82 | One commit that changes at most the job it names carries the replay property one version on |
| JobFeed.DeliveredCommit | internal/app/web_job_observation.go:60-82 | The same for what a subscriber took and has queued, as long as it has every event |
| JobFeed.CommitGains | internal/app/web_job_observation.go:70-82 | A channel with room gets the commit's event, whatever other channels drop, and a commit that drops nothing finds room everywhere |
| JobFeed.CursorText | internal/app/web_job_observation.go:46-48 | A stream cursor splits back into its instance and its version text |
| JobRuns.StepKeepsInv | internal/app/web_job_execution.go:18-296 | Every single step (locked section, engine return, subscription, restart) keeps the whole invariant and undoes nothing that must last |
| JobRuns.RunKeepsInv | internal/app/web_job_execution.go:18-296 | The same over every run |
| JobRuns.InitialInv | internal/app/web_jobs.go:50-106 | A new server satisfies the invariant |
| JobSafety.AcceptOk | internal/app/web_jobs.go:256-317 | The acceptance that Start decides on keeps every store invariant, with the plan re-prepared outside the lock and checked twice |
| JobSafety.ReplacedOk | internal/app/web_jobs.go:108-133 | A commit that moves one job forward keeps every store invariant |
| JobSafety.ReopenSucceeds | internal/app/web_jobs.go:50-106 | Every durable state passes the loader, and the opened store has only ended jobs and later-or-equal records |
| JobSafety.KeyTextInjective | internal/app/web_jobs.go:256-275 | The text hashed for an idempotency key separates actors exactly when ids hold no colon; an id with a colon shares its text with another id |
| JobHolds.ResourceConflicts | internal/app/web_resource_holds.go:47-98 | The scan reports exactly the jobs that block the requested claims |
| JobHolds.LiveHolderBlocks | internal/app/web_resource_holds.go:47-98 | An unfinished holder of an overlapping claim is always among them |
| Claims.PathTestIsContainment | internal/app/web_job_contract.go:40-61 | On cleaned absolute paths the textual prefix test holds if and only if one directory is the other or contains it |
| Claims.OverlapMeaning | internal/app/web_job_contract.go:40-61 | Two claims overlap exactly through the same host and a shared executable, nested data directories or a shared port, never when idle, and symmetrically |
| Claims.ClaimsOverlap | internal/app/web_job_contract.go:40-61 | The branches and nested port loop compute that symmetric relation |
| JobServer.WebJobs.CommitNext | internal/app/web_jobs.go:108-133 | Nothing changes unless the write succeeds; then the new records, one audit entry and one event appear together |
| JobServer.WebJobs.RecordJobChange | internal/app/web_job_observation.go:60-82 | Appends to the bounded journal and offers the event to every channel, counting the full ones as dropped |
| JobServer.Offer | internal/app/web_job_observation.go:70-82 | The loop over subscribers never waits: a full channel is left as it is and counted, every other one gets the event |
| JobServer.WebJobs.Plan | internal/app/web_jobs.go:172-218 | Succeeds if and only if the actor may plan, workspace and retention are usable, the engine prepared a valid plan and the write succeeds; the saved plan is then valid, expires after fifteen minutes and names its resources |
| JobServer.NameResources | internal/app/web_jobs.go:199-208 | The loop over claims names every claim that is not idle |
| JobServer.WebJobs.StartLocked | internal/app/web_jobs.go:277-317 | The second critical section of Start: replays, rejects or accepts exactly as the verdict on the current store says |
| JobServer.WebJobs.ReportPhase | internal/app/web_job_execution.go:18-52 | A phase report is refused on a bad state or phase and otherwise replaces or appends that phase in one commit |
| JobServer.PutPhaseAt | internal/app/web_job_execution.go:36-50 | A reported phase takes the place of the first phase of its name and otherwise stands last; all others stay where they are |
| JobServer.WebJobs.MarkRunningLocked | internal/app/web_job_execution.go:68-80 | Only an accepted job becomes running; any other state is recorded unchanged |
| JobServer.WebJobs.DecideCleanupLocked | internal/app/web_job_execution.go:87-98 | Cleanup is chosen from retention and reason under the lock, and its context replaces and ends the old one |
| JobServer.WebJobs.FinishLocked | internal/app/web_job_execution.go:126-170 | One commit records the ended job and drops its cancel function, or nothing changes; FinishMeaning and EndedAs say what is recorded |
| JobServer.EndJob | internal/app/web_job_execution.go:128-163 | The ended job, with the branches on reason and disposition in the source's order, is the one FinishMeaning and EndedAs speak about |
| JobServer.WebJobs.RefuseLocked | internal/app/web_job_execution.go:216-238 | Refusal ends an accepted job as failed and leaves any other state as it was, but drops its cancel function |
| JobServer.WebJobs.CancelNow | internal/app/web_job_execution.go:240-259 | The cancellation commit: a revocation reason overrides, a user reason never does, then the context ends |
| JobServer.WebJobs.CancelWithMessage | internal/app/web_job_execution.go:179-213 | Permission, ownership and terminal checks, then the cancellation and its note in two commits |
| JobServer.WebJobs.Revoke | internal/app/web_job_execution.go:268-294 | Every matching unfinished job is cancelled in some order, each once, up to the first failed write; success leaves none |
| JobServer.RevokeAllEffect | internal/app/web_job_execution.go:268-294 | A revocation touches exactly the jobs it names and has ended each one's context |
| JobServer.WebJobs.ReconcileLocked | internal/app/web_job_reconcile.go:71-86 | A check's outcome is committed as ReconcileMeaning says, or nothing changes |
| JobServer.WebJobs.SubscribeChanges | internal/app/web_job_observation.go:144-187 | At most the fixed number of subscribers; a new channel opens with exactly the judged replay or resync |
| JobServer.OpenWebJobs | internal/app/web_jobs.go:50-106 | Opening succeeds if and only if the snapshot is valid and, when something was unfinished, the interrupting commit is written |
| JobServer.InterruptLive | internal/app/web_jobs.go:81-99 | The loop interrupts every unfinished job and reports whether there was one |
| JobServer.CheckSnapshot | internal/app/web_jobs.go:68-91 | The loader's checks of plans, keys and jobs hold if and only if the snapshot is valid |
| LogTail.TailingReads | internal/app/web_monitor_log.go:106-196 | For a log that only grows, after every bounded read the position is a line start unless skipping, and everything archived is one left-to-right redaction of the complete lines before it, minus justified skips |
| LogGaps.OneReportPerSkippedLine | internal/app/web_monitor_log.go:106-196 | Over any run of reads of a growing log, exactly one log_line_oversized is reported for each skipped line and for the one being skipped, and nothing else is reported |
| LogGaps.OversizedTells | internal/app/web_monitor_log.go:149-172 | A read reports one oversized line exactly when it begins to skip, or begins again, and no other read reports one |
| LogGaps.ReportsBalance | internal/app/web_monitor_log.go:149-172 | In one read the reports and the line it was in the middle of equal the lines it marks as skipped and the one it ends in the middle of |
| LogGaps.GapsTell | internal/app/web_monitor_log.go:106-148 | log_unavailable exactly for a log that cannot be observed, log_rotated exactly for a replaced file, log_truncated exactly for a log shorter than the position |
| LogGaps.RotatedIsReplaced | internal/app/web_monitor_log.go:121-141 | A log counts as replaced if and only if its known identity changed or, not being shorter than the position, a byte of the remembered head did |
| LogGaps.KeyBlocksHidden | internal/app/web_monitor_log.go:198-216 | After the line that opens a key block, up to and with the one that closes it, every stored text is the placeholder |
| LogGaps.LineMeaning | internal/app/web_monitor_log.go:198-216 | A line outside a block is stored through the shared redaction without what a block opens in it, and cut with a notice past the limit |
| LogTail.ContinuedReads | internal/app/web_monitor_log.go:121-196 | A read that sees no restart goes on with a reading whenever the file agrees with the one read so far on everything before the position, whatever else became of it |
| LogTail.UnnoticedChange | internal/app/web_monitor_log.go:121-196 | A read that sees no restart although another number of lines now ends before the position leaves no reading of the log |
| LogTail.EveryLineArchived | internal/app/web_monitor_log.go:106-216 | What is archived is the redaction of all complete lines before the position, independent of where reads cut the log, if and only if no line fills a whole read |
| LogTail.SkipsAgain | internal/app/web_monitor_log.go:153-172 | A read that ends a skipped line skips again if and only if it was full and has no further newline: the test uses the length before the cut |
| LogTail.ShortLineLost | internal/app/web_monitor_log.go:153-172 | A concrete log whose two-byte second line is lost that way |
| LogTail.RestartReads | internal/app/web_monitor_log.go:121-196 | A replaced or shrunk log is read afresh from its first byte when the second observation succeeds, whatever that finds; replacement clears the key-block flag, truncation keeps it |
| LogTail.FailedRestart | internal/app/web_monitor_log.go:142-148 | When the second observation fails, the new identity is kept with the old offset: the next read starts over if and only if the log is then still shorter than that offset, and otherwise goes on from the middle |
| LogTail.FailedRestartLosesTheStart | internal/app/web_monitor_log.go:142-148 | In particular a log already that long goes on from the middle at once |
| LogTail.ShortMoveReachesEnd | internal/app/web_monitor_log.go:149-195 | With lines of at most half a read, a read that moved less than half a read stopped after the last newline of the log |
| LogCursor.RedactLines | internal/app/web_monitor_log.go:177-216 | The line loop with its key-block flag equals the redaction fold over the lines of the chunk |
| LogCursor.Cursor.ArchiveLog | internal/app/web_monitor_log.go:106-196 | The cursor entries of this node become exactly the specified outcome, with the offset alone left behind when a day record cannot be appended; every other node's entries stay |
| LogCursor.FilledARead | internal/app/web_monitor_remote.go:111-125 | True if and only if some position moved by at least half a read |
| LogCursor.DrainedRound | internal/app/web_monitor_remote.go:87-152 | A round in which no position filled a read left every node read at the last newline of its unreplaced log |
| LogDrain.MarkDrained | internal/app/web_monitor_remote.go:127-152 | Exactly the nodes with a position and no open collector error are marked, with the present time |
| LogDrain.MarkedMeaning | internal/app/web_monitor_remote.go:87-152 | After a round in which no position filled a read, the marked nodes are exactly those read, those without a log, and those left out of the round that have a position; a marked node that was read was read to its last newline |
| LogDrain.StoppedNodeLosesItsGap | internal/app/web_monitor_remote.go:127-152 | A round that leaves a stopped node out still marks it, and its "no collection job" gap is then no longer shown, whatever its log still holds |
| LogFields.BackgroundAlone | internal/app/web_monitor.go:254-257 | Over every interleaving of background and remote rounds, crashes included, the background collector's positions, open gaps and last round are what its own rounds alone would have made of them |
| LogFields.RemoteAlone | internal/app/web_monitor_remote.go:223-261 | And the remote collectors' positions, open gaps, last round and rounds in flight are what their own steps alone would have made of them |
| LogAppend.UnstoredReads | internal/app/web_monitor_log.go:162-194 | After a failed append the saved position is still a reading if and only if it stands at a line's start and the complete lines of the read leave the key-block flag as they find it |
| LogAppend.UnstoredRestart | internal/app/web_monitor_log.go:142-194 | A failed append after a restart leaves the new identity with the old offset: the next read starts over if and only if the log is still shorter |
| LogAppend.KeyBlockShown | internal/app/web_monitor_log.go:174-216 | For every key block whose first line was archived and whose next line and end arrive together: if their append fails once, the next read archives that line through the single-line redaction only, which a successful append would have hidden |
| LogAppend.KeyBlockExample | internal/app/web_monitor_log.go:174-216 | A concrete such block |
| LogAppend.TailShown | internal/app/web_monitor_log.go:154-194 | If the append of a line after an oversized one fails once, the next read archives the tail of the oversized line as a line of its own |
| LogAppend.TailExample | internal/app/web_monitor_log.go:154-194 | A concrete such log |
| LogCollect.GroupByDay | internal/app/web_monitor_log.go:174-184 | Sorting a read's lines into day records keeps, per day, exactly its lines in order |
| LogCollect.StepKeepsInv | internal/app/web_monitor_remote.go:174-261 | Every step (growth, replacement, read with or without a second observation, append, save, failed append saved by the background collector, dropped round, forgotten positions, crash) keeps the lines of the saved position archived |
| LogCollect.NothingLostOverRuns | internal/app/web_monitor_remote.go:174-261 | Over every run of those steps with any number of collectors, every line the saved position stands for is in its day's record, in order, and the position is a reading of the log it last saw whenever every step since its last restart kept it one |
| LogCollect.StepKeepsReadings | internal/app/web_monitor.go:237-257 | While every position is a reading of its log, a step over a log unchanged before the positions keeps it so if and only if every offset it leaves behind, by a failed second observation or a failed append, restarted or not, stands at a line's start with its key-block flag as it was |
| LogCollect.ReadKeepsReading | internal/app/web_monitor_log.go:121-195 | One read from a reading ends in a reading, except exactly when its second observation fails and the position left behind is mid-line or has another key-block flag |
| LogCollect.FallenReads | internal/app/web_monitor_log.go:185-194 | A failed append over a log unchanged before the position leaves a reading if and only if the position stands at a line's start and the key-block flag came out as it was |
| LogCollect.RestartRepairs | internal/app/web_monitor_log.go:139-195 | Whatever became of a position before, a read that restarts and observes the log again is a reading of it |
| LogCollect.ReadingsOverRuns | internal/app/web_monitor.go:237-257 | Over every run of harmless steps every position stays a reading of the log it last saw |
| LogCollect.GrowingLogIsRead | internal/app/web_monitor_remote.go:174-261 | Over every run in which the log only grows and no background append fails, at every crash point, the saved position is a reading of the log as it is, from its first byte |
| LogCollect.NewLogInv | internal/app/web_monitor_remote.go:174-261 | A log nobody has read satisfies the invariant |
| GapLedger.MergeGaps | internal/app/web_monitor.go:264-287 | The three loops with their two maps give the specified next and ended gaps |
| GapLedger.RoundCoverage | internal/app/web_monitor.go:229-243 | One round adds to what the ledger covers exactly its own failures and the bridges of at most a second, and never opens a cause twice |
| GapLedger.LedgerCoverage | internal/app/web_monitor.go:185-287 | Over any time-ordered rounds, archived plus open gaps cover exactly the failing rounds' intervals and the bridges between consecutive failing rounds; open causes are distinct and are the last round's |
| GapLedger.StreakIsOneGap | internal/app/web_monitor.go:264-287 | Consecutive failing rounds grow one open gap: same start, last round's end, nothing of that cause archived meanwhile |
| GapLedger.ContinuingKeepsAll | internal/app/web_monitor.go:270-276 | A continuing gap keeps all instants of both intervals if and only if the round neither starts before the gap nor ends before it |
| GapLedger.SweepGaps | internal/app/web_monitor_read.go:425-442 | The merging loop over the sorted gaps: result intervals of a cause are more than a second apart, every listed gap lies within one, and nothing is shown that listed gaps do not explain |
| GapLedger.SweepUnion | internal/app/web_monitor_read.go:425-442 | For proper intervals the sweep shows exactly the listed instants and the joints of at most a second |
| GapView.CoverageGaps | internal/app/web_monitor_read.go:425-442 | Sorting and merging gaps in any order shows, for proper gaps, exactly the instants of the wanted gaps that touch the window and the joints of at most a second |
| GapView.TriedCoverage | internal/app/web_monitor.go:246-261 | Rounds whose gap append or cursor write fails change nothing that the ledger covers, and the next round goes on from the same open gaps |
| GapView.LedgerOfRounds | internal/app/web_monitor.go:185-287 | Every gap of the ledger starts and ends with a failing round, and every failing round lies within one gap |
| GapView.ShownAreFailures | internal/app/web_monitor_read.go:399-442 | End to end over any run, failed writes included: a reader is shown, within the window, exactly the instants of saved failing rounds, the bridges between consecutive ones, and the joints between any two at most a second apart |
| GapView.RecordedProper | internal/app/web_monitor_read.go:399-442 | The gaps a run records are proper, so the sweep's contract applies to them |
| GapLedger.DropDrained | internal/app/web_monitor_read.go:379-394 | The loop that trims gaps a drain has covered equals its specification |
| GapLedger.DrainedMeaning | internal/app/web_monitor_read.go:379-394 | Exactly the "no collection job" instants before a node's drain disappear |
| Windows.CutParts | internal/app/web_monitor_archive.go:151-166 | The inner subtraction loop |
| Windows.Unprotected | internal/app/web_monitor_archive.go:146-168 | The nested loops compute what is left of a window after all protected ones |
| Windows.RemainingMeaning | internal/app/web_monitor_archive.go:146-168 | Interval subtraction agrees with the per-instant predicate: unprotected instants of the window remain, and no remaining interior is protected |
| Windows.WindowOfRun | internal/app/web_history_observations.go:40-62 | The phase loop computes the window that WindowMeaning describes, or none |
| Windows.WindowMeaning | internal/app/web_history_observations.go:40-62 | A job has a window if and only if it names a network and, once ended, some phase finished after its creation; the window covers an instant if and only if the job was created by then and, once ended, some phase finished at or after it |
| Windows.LastFinishIsLatest | internal/app/web_history_observations.go:49-53 | The recorded end is no earlier than any phase's end |
| Windows.ProtectedWindows | internal/app/web_history_observations.go:106-118 | The collected windows protect exactly the instants that another execution's run spans, from its job's creation to its last finished phase, or that another unfinished job of the network has reached since its creation |
| ObservationArchive.DropArchived | internal/app/web_monitor_archive.go:111-140 | One segment is rewritten without exactly the owned lines; unreadable and partial lines stay |
| ObservationArchive.MonitorDays | internal/app/web_monitor_read.go:449-455 | The day loop lists exactly the days from the start's to the last that begins by the end |
| ObservationArchive.Monitor.DeleteWindow | internal/app/web_monitor_archive.go:60-108 | Gap lines first, then segments, stopping at the first failure; what was touched was swept, nothing else changed, and the result is one that DeletionAgrees and SuccessLeavesNothing speak about |
| ObservationArchive.KeptMeaning | internal/app/web_monitor_archive.go:111-140 | The kept lines are exactly those not dropped |
| ObservationArchive.SweepIdempotent | internal/app/web_monitor_archive.go:60-140 | Sweeping a segment again changes nothing |
| ObservationArchive.DeletionAgrees | internal/app/web_monitor_archive.go:60-140 | Wherever a deletion stopped, a line that disappeared was covered by the window, protected by nothing, and lies in a recorded deleted interval |
| ObservationArchive.SuccessLeavesNothing | internal/app/web_monitor_archive.go:60-140 | After success no owned readable line is left and a retry changes no record |
| ObservationArchive.OthersKeepTheirLines | internal/app/web_history_observations.go:97-123 | End to end: a line that disappears lies at an instant that no other execution on the network spans and no other unfinished job there has reached |
| ObservationArchive.DeleteObservations | internal/app/web_history_observations.go:97-124 | On the records' and jobs' own fields: without a window nothing is deleted and it succeeds, for an unfinished job nothing is deleted and it fails; else only readable lines go that lie in the job's span and in nobody else's, in recorded intervals of the record, and after success none of them is left |
| ObservationArchive.KeptInOrder | internal/app/web_monitor_archive.go:111-140 | The kept lines stand in their order, each as often as before |
| Rlp.SignatureRLPAt | internal/accounts/tamper_raw.go:64-96 | The reader's byte loop in 64-bit arithmetic equals the specification with no overflow and no index out of range |
| Rlp.SignatureRLPFields | internal/accounts/tamper_raw.go:98-112 | The scanning loop accepts exactly when the items fill the list and count as asked |
| Rlp.AcceptedIsCanonical | internal/accounts/tamper_raw.go:64-96 | Encoding an accepted item's payload again gives back its bytes (Yellow Paper, Appendix B) |
| Rlp.CanonicalIsAccepted | internal/accounts/tamper_raw.go:64-96 | Every canonical encoding is accepted wherever it stands |
| Rlp.FieldsPartition | internal/accounts/tamper_raw.go:98-112 | Accepted fields tile the payload: each starts where the one before ends and the last ends at its end |
| Tamper.TamperFeeDelegatedRaw | internal/accounts/tamper_raw.go:10-62 | Succeeds exactly on accepted envelopes and known signature names, and writes a fresh array only |
| Tamper.TamperPreservesParse | internal/accounts/tamper_raw.go:10-62 | The result has the same item boundaries, passes every check again, differs in exactly one byte, and a second application restores the input unless the component was the one-byte value 1 |
| TamperAccepts.AcceptedExactly | internal/accounts/tamper_raw.go:10-62 | Bytes are accepted if and only if they are at most 1 MiB and the canonical encoding, behind 0x16, of sender fields and payer fields in their ranges: integers and components of up to 32 bytes without leading zero, parities empty or one, addresses of 20 bytes |
| TamperAccepts.WrittenIsAccepted | internal/accounts/tamper_raw.go:64-112 | Every such encoding is accepted and scanned into just those fields |
| TamperAccepts.AcceptedIsWritten | internal/accounts/tamper_raw.go:64-112 | The scanned fields of accepted bytes, encoded again, are the bytes |
| Abi.EncodeABI | internal/accounts/abi_encode.go:59-73 | The head and tail buffers of the loop concatenate to the specified encoding |
| Abi.EncodedLayout | internal/accounts/abi_encode.go:59-73 | Whole words; a static argument is its own head word; a dynamic head word is the position of its own tail, and tails follow each other without holes |
| Abi.BytesAtHead | internal/accounts/abi_encode.go:38-73 | At the position a head word names lie the value's length word, its data and zeros, fewer than a word of them, up to the whole word where the next tail starts |
| Abi.UintValue | internal/accounts/abi_encode.go:22-27 | A number's word holds it if and only if it is a uint256 |
| Abi.WordValue | internal/accounts/abi_encode.go:30-32 | A raw word keeps the value of up to 32 bytes, and of more the first 32 |
| Abi.DecodeRoundTrip | internal/accounts/decode.go:14-37 | Decoding the hexadecimal encoding of one bytes or string value gives the value |
| Abi.DecodePanicsExactly | internal/accounts/decode.go:14-37 | The call panics if and only if one of its two sums leaves 64 bits, and otherwise returns the value in exact arithmetic, or nothing |
| Abi.DecodePanicExample | internal/accounts/decode.go:14-37 | Sixty-four bytes on which it panics |
| Abi.WordAtInvertsHead | internal/accounts/abi_encode.go:89-96 | WordAt reads back each static argument's word from the encoding's text |
| Abi.WordAtExactly | internal/accounts/abi_encode.go:89-96 | Once blanks and prefix are trimmed, WordAt agrees with exact arithmetic if and only if the index is negative, its end fits 64 bits, or the wrapped end still lies past the text |
| Abi.HexRoundTrip | internal/accounts/decode.go:15-18 | Hexadecimal text decodes to the bytes it was written from |
| Abi.HexOfDecoded | internal/accounts/decode.go:15-18 | Text decodes if and only if it is an even number of hexadecimal digits, and the bytes are then written as the same text in lower case |
| Bundle.BundlePresets | internal/app/document_bundle.go:150-169 | The index loop of a bundle's presets |
| Bundle.PresetsMeaning | internal/app/document_bundle.go:150-169 | The index holds an id at a position if and only if that entry alone declares it, and marks it unusable when several do |
| Bundle.PreviewDocuments | internal/app/document_import.go:202-236 | Valid if and only if there are entries, each becomes a document by its own text, the presets the bundle carries and the contract, and no kind and name repeats; then one document per entry at the entry's position, otherwise none |
| Bundle.PreviewContents | internal/app/document_bundle.go:178-259 | In a valid preview every document has its entry's kind and name; anything but a case has the entry's text itself; a case its text as prepared with exactly the one entry its reference points at, which alone declares the preset it names, or with none |
| Bundle.ImportMeaning | internal/app/document_bundle.go:178-259 | An entry imports if and only if it is usable, a run definition stands in a bundle, a bundle's case is inlined with the one entry that alone declares the preset it names or without any, and the contract accepts what is stored |
| Bundle.PreviewPoints | internal/app/document_bundle.go:178-259 | In a valid preview a case with a reference points at the entry declaring the preset it names, and was judged against that entry's content |
| Bundle.PreviewNamesDistinct | internal/app/document_import.go:206-218 | A valid bundle preview has no two documents of one kind and name |
| Bundle.PreviewStillValid | internal/app/document_import.go:282-316 | A valid preview passes every validation of the commit again, each case with the preset content of the preview |
| Documents.CasePresets | internal/app/deployment_presets.go:35-56 | The reference loop stops at the first reference that is missing, no preset, without an id, or twice the same id |
| Documents.CasePinsMeaning | internal/app/deployment_presets.go:35-56 | It succeeds if and only if all references pin presets and as many ids as references result, and returns their contents |
| Documents.ValidateDocument | internal/app/deployment_presets.go:13-74 | Accepts exactly documents that satisfy the contract against the presets they pin, naming exactly those |
| Documents.AcceptsMeaning | internal/app/deployment_presets.go:13-74 | A document with references is accepted if and only if it is a case with a single one, to a stored revision of the chain preset it names, with whose content it is inlined and satisfies the contract; one without references if and only if it satisfies the contract alone |
| Documents.AcceptedIsJudged | internal/app/deployment_presets.go:13-74 | What validation accepts satisfies the contract against exactly the pinned revisions |
| Documents.JudgedStable | internal/app/deployment_store.go:305-323 | A judgement stays true in every later store, since pinned revisions never change |
| DocumentRuns.AppendKeepsHistories | internal/app/deployment_store.go:174-233 | Appending next revisions keeps numbering, ids and kinds, and every earlier history as a prefix |
| DocumentRuns.RunKeepsStore | internal/app/deployment_store.go:174-382 | Over any run of saves, previews and imports: revision i+1 sits at index i, the kind never changes, workspace and preset pins resolve, every stored revision satisfies the contract against its pins, and no history is ever rewritten |
| DocumentRuns.ReadRevisionNeverChanges | internal/app/deployment_store.go:305-323 | A revision once read reads the same in every later state, with its own number, id and kind |
| DocumentRuns.ResolvedPins | internal/app/document_import.go:330-356 | Once saved, the resolved references pin exactly the contents their positions pointed at |
| DocumentRuns.ImportedCasePinsPreview | internal/app/document_import.go:261-357 | A case imported with its bundle pins, then and in every later state, the very preset entry it was validated against at preview |
| DocumentRuns.ImportedEntryIsStored | internal/app/document_import.go:261-357 | What an import saved for an entry reads, then and in every later state, with the entry's kind and name and, unless it is a case, its text itself; a case with its text as prepared with the entry it names, or with none |
| DocumentStore.FindPlace | internal/app/document_import.go:287-303 | The candidate loop, in any order, fails exactly on a stale, ambiguous or used replacement and otherwise finds the one match |
| DocumentStore.PlaceAll | internal/app/document_import.go:277-312 | Placing succeeds if and only if each named replacement is current and replaces exactly one document and none is replaced twice |
| DocumentStore.FitsFew | internal/app/document_import.go:274-276 | More replacements than documents can never fit, so the early refusal is no extra condition |
| DocumentStore.ResolveRefs | internal/app/document_import.go:330-356 | The reference loop resolves if and only if every reference names the position of a usable preset |
| DocumentStore.ResolveAll | internal/app/document_import.go:313-322 | Rewriting references in place succeeds if and only if every document still satisfies the contract against its pointed presets |
| DocumentStore.PreviewFits | internal/app/document_import.go:261-357 | A valid bundle preview passes the commit's validation, and its replacements fit if and only if they are current, each replaces something and no two replace the same |
| DocumentStore.ImportPlaces | internal/app/document_import.go:277-312 | A named replacement takes exactly the one document of its latest kind and name, as its next revision; a document no replacement matches becomes the first revision of a new id |
| DocumentStore.DeploymentStore.SaveDocument | internal/app/deployment_store.go:201-233 | Creates or appends exactly under the optimistic revision and fixed kind; a failure changes nothing |
| DocumentStore.DeploymentStore.WorkspaceDocuments | internal/app/deployment_store.go:326-354 | True if and only if the two pins are one existing server set and one existing workspace config |
| DocumentStore.DeploymentStore.SaveWorkspace | internal/app/deployment_store.go:357-382 | Saves exactly when the pins resolve and the base revision is current |
| DocumentStore.DeploymentStore.PreviewImport | internal/app/document_import.go:154-256 | Keeps the preview with its owner and with the documents PreviewContents describes, valid exactly as PreviewDocuments says, drops expired ones, and leaves documents and workspaces alone |
| DocumentStore.DeploymentStore.CommitImport | internal/app/document_import.go:261-328 | Commits all documents or none, if and only if the actor owns a valid, unexpired, uncommitted preview that still validates and whose replacements fit |
| Pages.LogPage | internal/app/web_monitor_read.go:300-322 | The scan's page is exactly the slice of the matching lines, with the constant total and the next index; it has as many lines as asked for, within 100, unless fewer are left |
| Pages.MatchingMeaning | internal/app/web_monitor_read.go:300-322 | The matching lines of a log are those of its parts, in order, and a line is among them just when it matches |
| Pages.CursorRoundTrip | internal/app/web_monitor_read.go:349-373 | A cursor reads back if and only if its window starts at or after the epoch, runs forward and spans at most 31 days |
| Pages.FollowPartitions | internal/app/web_monitor_read.go:279-375 | Following the cursors gives every matching line once in order, and is refused exactly when a second page is needed in a window whose cursors cannot be read back, such as a longer run window |
| Pages.ReadEvidence | internal/app/web_history_evidence.go:196-255 | The page loop makes progress, stays within the byte bound, and stops only at the end, the line limit or the line that would pass the bound; a line of up to 64 KiB is shown as it is, a longer one by its tidied first 64 KiB and the number of bytes cut |
| Pages.FullPageUnique | internal/app/web_history_evidence.go:241-255 | Those conditions determine the page's end uniquely |
| Pages.CutLineBounded | internal/app/web_history_evidence.go:98-104 | A cut line stays within 64 KiB and its notice, below the page bound |
| Pages.EvidencePagesPartition | internal/app/web_history_evidence.go:241-255 | Following NextOffset shows every line once in order, in at most one page a line |
| Pages.EvidencePagesEnd | internal/app/web_history_evidence.go:241-255 | For any positive limits, following NextOffset from the start of a file comes to its end |
| Buckets.Downsample | internal/app/web_monitor_read.go:457-484 | The running bucket with its flush equals grouping consecutive samples by bucket |
| Buckets.PointsAreBucketMeans | internal/app/web_monitor_read.go:457-484 | For ordered samples each point stands a whole number of spans after the start, strictly after the one before, and is the mean of exactly the samples within a span from it |
| Buckets.DownsampleConserves | internal/app/web_monitor_read.go:457-484 | Weighted by their counts the points add up to the samples, and every sample counts once |
| Buckets.PointBoundExactly | internal/app/web_monitor_read.go:457-484 | At most 721 points for every ordered series of a window if and only if 720 whole buckets leave less than one bucket over; so for every window of at least 720 * 720 ns |

## Left out

- The engine (Prepare, Execute, Cleanup, Reconcile and the machines behind them): free choices of the step system.
- Replan, Get, List and the other reads of jobs and documents that only copy records; copies through JSON are values.
- Request ids, credential references, case lists and start times of jobs; they take part in no decision modelled here.
- Networks in the feed's snapshot; the jobs, version and cursor are modelled.
- Hashing, encryption, passwords and the encrypted import source.
- JSON and YAML decoding of an import source, and choosing the kind of a single document without one: an import starts from decoded entries. Entries that are unusable or cannot be written are cases of the model.
- Case references of run definitions in bundles (linkBundleCases, resolveBundleCaseRefs).
- The contract that document texts must satisfy (validateDeploymentDocument), inlining of presets and migration of cases: function parameters, the same at preview, save and commit of a run.
- Quarantine of legacy documents and credentials with their bindings: the runs are runs of saves, previews and imports.
- Single-line redaction, UTF-8 repair, line truncation and timestamps: parameters; the key-block flag is modelled.
- RPC and metric sampling: a round's gaps are its input, all over one interval as collectNetwork makes them.
- The crash runs follow one node; LogFields covers several nodes and both kinds of collectors, without their archives.
- WebHistory.Sync and WebHistory.Delete beyond the deletion of observations: captures, tombstones and session directories.
- Corrupt-record counting, response forms of gaps and query permission checks.
- Windows.RemainingMeaning: protection and remaining parts may share end points, as the source's closed intervals do, so nothing is said about a part's two ends.
- Buckets.Downsample: values are real numbers, so rounding is not modelled.
- GapView.CoverageGaps: the library's stable sort is modelled as stable insertion by start.
- Gaps that bypass the ledger (collector_stopped, collector_stale, not_collected) are part of what a reader merges but not of ShownAreFailures.
- LogCollect.StepKeepsReadings: when the log changed before a position without notice, only ContinuedReads and UnnoticedChange say what becomes of the reading.
- LogDrain.MarkedMeaning: logs read in the round are unreplaced and have no line above half a read; a replaced log is outside the guarantee.
- Pages.LogPage: lines arrive as one sequence over the days; reading records from disk is not modelled.
- Abi.WordAtExactly: white space beyond ASCII around the text is not trimmed in the model.
