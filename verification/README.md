# RepoMesh verification

A model of RepoMesh's coordination protocol, its incremental indexer and the algorithms around them, with proofs.
`dafny verify dfyconfig.toml` checks the whole project.

## What is modelled

**Coordination** (`Coordination.dfy` to `CoordinationRepository.dfy`, `Claims.dfy`, `JobEndings.dfy`, `Leases.dfy`,
`Submissions.dfy`, `AttemptLedger.dfy`, `Metrics.dfy`, `Sessions.dfy`, `Worker.dfy`). Workers compete for indexing jobs in PostgreSQL. Each transaction is one atomic function
over the tables; a run is any sequence of transactions, clock ticks, guard entries and exits, storage writes and crashes
(a crash is a worker that takes no further step; its guard is released when its connection closes). The class `CoordinationRepository`
carries out the same transactions statement by statement on mutable tables and is proved equal to the functions; the
theorems hold over all runs. Two histories that the program does not store, the snapshots handed out by claims and the
log of guarded storage writes, are kept in the state so that fencing can be stated.

**Watching** (`Watches.dfy`, `WatchStates.dfy`, `WatchRepository.dfy`, `Fingerprints.dfy`). Debounce, coalescing and
submission over runs of the same protocol, the state the listing shows, and the two digests that the watcher compares.

**Indexing** (`IndexStore.dfy`, `Indexing.dfy`, `IndexingTheorems.dfy`, `IndexingConvergence.dfy`,
`IndexingReports.dfy`, `RepositoryIndexer.dfy`). A pass is a function of the store it finds, the tree, and the way each of its calls ends:
success, unavailability, another exception, or the end of the pass there. The vector store may be left after any partial
effect. A boundary check and the call after it are one point, so a cut is possible between any two writes. The classes
`Database`, `VectorStore` and `RepositoryIndexer` are proved equal to that function.

**Both together** (`IndexingWrites.dfy`, `DistributedIndexing.dfy`). A pass is taken apart into its storage writes, and
workers run such passes against shared stores under the protocol: each write takes effect only inside the guard, while
the read with which a pass begins is not protected. Every store then has a sequential history of cut passes, which is what
the theorems about indexing start from.

**Audit, chunking, retrieval, citations** (`Audit.dfy`, `Chunking.dfy`, `Retrieval.dfy`, `Citations.dfy`, `Answers.dfy`).

## Where the code does less than its documentation promises

- Discovery sorts path objects, the manifest digest sorts strings. For a repository that holds, say, `a.py` and
  `a/b.py`, the two digests never agree, and the watcher submits a job again each time the last one has completed, though
  nothing changes. `docs/WATCH_OPERATIONS.md:53-55` describes this reconciliation as the repair of an edit that was
  reverted. The exact condition is `Fingerprints.SettledIndexMatchesDisk`; the loop is
  `Watches.DisagreementResubmitsForever`. A symbolic link to another listed file has the same effect, and makes the
  announced total exceed the counters (`IndexerProgram.RepositoryIndexer.Index`).
- Two symbols on the same lines get the same chunk id, so their file fails on the unique id. A version indexed earlier
  then stays, out of sync. `IndexingConvergence.IncrementalEqualsFull` has the exact condition.
  `Chunking.DistinctExactlyWhen` says which files are hit, and `Chunking.SharedLinesCollide` shows how a tree comes to it.
- The audit's sweep compares with rows in claim order only; attempts of one repository claimed at the same instant can
  raise an alarm without overlap (`Audit.AuditVerdict`), and a run reaches such a log (`Audit.TieIsReachable`),
  though attempts never overlap (`Audit.AttemptsNeverOverlap`).
- Sanitising guarantees what the pattern finds, not every substring it accepts: with an allowed label such as `[[a:1-2]`
  an unverified `[a:1-2]` survives inside it (`Citations.InnerLabelSurvives`), and where `[a:1-2]` is removed elsewhere the
  allowed label goes with it (`Citations.AllowedMatchesSurvive`). Appending sources can add
  a foreign match when a path holds brackets (`Answers.AnswerMatchesAreAllowed`).
- A first insert that is interrupted leaves points without a row. If the file then disappears, nothing removes them
  (`IndexingTheorems.PassKeepsDebts`); search never returns them (`Retrieval.ResultsAreIndexed`).

## Model

| member | source | states |
|---|---|---|
| CoordinationRuns.ReachableInv | src/repomesh/coordination/repository.py:78-561 | Every state reachable from empty tables, by any interleaving of submissions, registrations, polls, heartbeats, clock ticks, guards, storage writes, finishes, retries, cancellations, imports, observations and crashes, satisfies the joint invariant of all tables. |
| CoordinationRuns.StepInv | src/repomesh/coordination/repository.py:244-332 | One transaction keeps that invariant and only evolves rows in the permitted direction: generations and attempts never fall, ended attempts and terminal jobs never change, identities stay. |
| CoordinationTheorems.WritesFormBlocks | src/repomesh/coordination/repository.py:399-414 | Storage fencing: over any run each repository's guarded storage writes are consecutive blocks by one (job, generation). |
| CoordinationTheorems.SupersededNeverWrites | src/repomesh/worker.py:90-107 | An author outside its guard whose lease is lost never writes again, in any continuation. |
| CoordinationTheorems.GuardExcludesTakeover | src/repomesh/coordination/repository.py:253-259 | While a guard is held, even past its holder's lease expiry, no job of the repository is claimable, its job still runs under the same generation, and no finish takes effect. |
| CoordinationTheorems.ReservationIsExact | src/repomesh/coordination/repository.py:300-311 | active_job_id names a job exactly when that job is running; at most one job runs per repository. |
| CoordinationTheorems.ConstraintsHold | src/repomesh/coordination/migrations/001_coordination.sql:6-43 | No reachable row trips the schema's checks on status, worker and lease, or its unique keys and unique parents. |
| CoordinationTheorems.BudgetOfWaitingJobs | src/repomesh/coordination/repository.py:269-296 | A queued or retrying job is not cancelled and has budget left, legacy imports included, so the cleanup branch of a claim only meets expired running jobs. |
| CoordinationTheorems.OwnershipLossIsPermanent | src/repomesh/coordination/repository.py:334-367 | A lease lost by expiry, reclaim or finish is never revived under its generation: every later fenced update with that snapshot fails and changes nothing. |
| CoordinationTheorems.FinishSurrendersOwnership | src/repomesh/coordination/repository.py:431-465 | At most one finish, retry or cancellation takes effect per (job, generation). |
| CoordinationTheorems.TerminalIsFinal | src/repomesh/coordination/repository.py:20-21 | A terminal job row never changes again. |
| CoordinationTheorems.CancellationWins | src/repomesh/coordination/repository.py:416-429 | A live job whose cancellation is requested is never claimed again and can only end as cancelled. |
| CoordinationTheorems.MovesBurnFuel | src/repomesh/coordination/repository.py:244-332 | Claims, reclaims, retries, finishes and cancels of a job together never exceed what 2*(max_attempts-attempt)+[running] allows; the measure strictly falls on each. |
| CoordinationTheorems.AllMovesBurnFuel | src/repomesh/coordination/repository.py:244-332 | Summed over the jobs there are: the moves a run makes with them never exceed what the summed measure loses. |
| CoordinationTheorems.EveryMoveLowersTheSum | src/repomesh/coordination/repository.py:244-332 | A single move of any job strictly lowers the sum. |
| CoordinationTheorems.SubmittedJobsTerminate | src/repomesh/coordination/repository.py:476-484 | A submitted job makes at most 2*max_attempts such moves and is claimed at most max_attempts times, over any run. |
| CoordinationTheorems.NoDeadlock | src/repomesh/coordination/repository.py:248-268 | With no guard held and all availability and lease times passed, unfinished work always has a claimable candidate. |
| CoordinationTheorems.PollMakesProgress | src/repomesh/coordination/repository.py:244-332 | A poll then returns a job or makes some unfinished job terminal. |
| CoordinationTheorems.SubmissionIsIdempotent | src/repomesh/coordination/repository.py:78-109 | After a keyed submission, in any later state, the same request answers with the same job and changes nothing, and the key is refused for another repository, mode or priority. |
| CoordinationTheorems.ResubmissionIsIdempotent | src/repomesh/coordination/repository.py:169-192 | Resubmitting a finished job again, in any later state, answers with the one successor. |
| CoordinationTheorems.RetriesFormAForest | src/repomesh/coordination/migrations/002_watch_and_operations.sql:3 | Parent links are injective and acyclic, stay within a repository, and every ancestor stays terminal. |
| CoordinationTheorems.EndedAttemptsAreFinal | src/repomesh/coordination/repository.py:270-298 | An ended attempt row is never rewritten. |
| CoordinationTheorems.RetryWaitsOutBackoff | src/repomesh/coordination/repository.py:476-484 | A scheduled retry gives up lease and reservation, only with budget left, and nobody can claim the job before its delay is over. |
| CoordinationTheorems.BackoffIsBounded | src/repomesh/coordination/repository.py:479-483 | The delay lies between the base, or the cap if smaller, and the cap, and under the same jitter never shrinks with more attempts. |
| CoordinationTheorems.BackoffGrows | src/repomesh/coordination/repository.py:479-483 | With a jitter drawn anew for each retry, a later attempt never waits less, exactly when the earlier one is at most the twentieth or the cap cuts the largest product off. |
| JobEndings.BackoffDoubles | src/repomesh/coordination/repository.py:479-483 | The equations that determine the delay: the base for the first attempt, doubled for each further one up to the twenty-first, plus the jitter, cut at the cap. |
| Claims.ClaimTakesTheFirst | src/repomesh/coordination/repository.py:248-262 | A poll takes the most urgent job: no job that was obtainable before it has a higher priority; at equal priority none was available earlier, then none created earlier, then none has a smaller id. |
| Claims.ClaimTakesOver | src/repomesh/coordination/repository.py:300-331 | The job a poll answers with runs under the next generation with one more attempt spent, a full lease and cleared progress; its repository is reserved, its worker busy, its attempt on record, marked as reclaimed exactly when it takes over from an expired one. Only an unregistered session is refused, and changes nothing. |
| Claims.ClaimBuriesTheLost | src/repomesh/coordination/repository.py:269-299 | Every other job is left alone by a poll, attempts included, or it was running past its lease, cancelled or out of budget, and ends as cancelled or failed together with its open attempt. |
| Claims.PollsKeepAccounts | src/repomesh/coordination/repository.py:288-298 | Exactly the workers whose own job a poll buried as failed have one more failure, none has one more success, and a worker that takes no job is idle if its own was buried and else as before. |
| Claims.EmptyPollsAreDeserved | src/repomesh/coordination/repository.py:253-268 | A poll that finds nothing although a job was obtainable has made 32 jobs terminal. |
| Leases.NoPrematureTakeover | src/repomesh/coordination/repository.py:257-275 | Over any run: an attempt is taken over only after its lease, which lasts at least one lease from its claim, and an attempt that completed or retried did so within its lease. |
| JobEndings.OwnershipIsTheGeneration | src/repomesh/coordination/repository.py:22-23 | A snapshot owns its job exactly while no later claim was made, the job runs and its lease has not run out; worker and reservation then agree with it. |
| JobEndings.RequestedCancellationWins | src/repomesh/coordination/repository.py:416-429 | After a request to cancel a job that is not finished, in every continuation: it is flagged, it is never claimed again, and cancelled is the only status it can end with; a waiting job is cancelled at once. No other job changes. |
| JobEndings.EveryEndingHasItsStatus | src/repomesh/coordination/repository.py:431-474 | Completing, completing with errors, cancelling and failing each end job, attempt, reservation and the worker's work together with their own status and message, cancelled if that was requested; for anyone but the owner, or under a guard, they change nothing. |
| JobEndings.RetryOrFail | src/repomesh/coordination/repository.py:476-484 | A failed attempt's owner gets a retry after the backoff while budget is left, a failed job at the end of it, and a cancelled job if that was requested. |
| JobEndings.RetriesRunAgain | src/repomesh/coordination/repository.py:476-484 | A failed attempt ends an uncancelled job exactly when its budget is spent. Otherwise, in every continuation until it is cancelled or claimed: it is retrying, not obtainable before its delay, and obtainable whenever the largest delay has passed and its repository is free and unguarded. |
| JobEndings.RenewalExtends | src/repomesh/coordination/repository.py:352-367 | A renewal moves the end of the lease to one lease from now, on job and attempt; until then the job is owned and not claimable, and at that instant it is lost. Nothing else changes. |
| JobEndings.ProgressIsRecorded | src/repomesh/coordination/repository.py:369-397 | A report by the owner replaces the counters, with done as their sum, and adds a file error exactly when path and error are given. |
| JobEndings.GuardAdmitsTheOwner | src/repomesh/coordination/repository.py:399-414 | The guard opens exactly for the owner of an unguarded repository; what is written inside is logged under the author's own claim, outside nothing is. |
| Submissions.RequestsAreAnswered | src/repomesh/coordination/repository.py:78-109 | A request is refused exactly for its mode, an empty key or a key of another request; otherwise it is answered with the job that has its key, or with a new queued one with its whole budget, available now. |
| Submissions.RetriesAreAnswered | src/repomesh/coordination/repository.py:169-192 | A finished job is retried by a new incremental job of its repository and priority, or by the successor it has; every watch that tracked the job tracks that one. |
| Submissions.ImportIsRestartSafe | src/repomesh/coordination/repository.py:517-561 | Every job an import adds carries one of the rows, with finished rows kept and unfinished ones waiting with budget left; the answer counts them; importing the rows again in any later state adds nothing. |
| Sessions.OldSessionsAreFenced | src/repomesh/coordination/repository.py:194-231 | Registering a live worker id is refused; registering a stale one fences the former session for good: it can no longer beat, claim or stop. |
| Sessions.RegistrationIsExclusive | src/repomesh/coordination/repository.py:194-210 | Registering succeeds exactly for an id that is new, stopped or silent for longer than the offline interval. |
| Sessions.LiveSessionsAreSafe | src/repomesh/coordination/repository.py:194-223 | A worker that was seen keeps its identity for the whole offline interval, over any run in which it does not stop: nobody can register its id, and its session goes on working. |
| Sessions.BeatsAndStops | src/repomesh/coordination/repository.py:212-231 | A beat or a stop counts only under the current session, and leaves the row it should. |
| AttemptLedger.AttemptHistory | src/repomesh/coordination/repository.py:263-331 | A job's attempt rows carry distinct generations; all but the current one ended expired or retrying; the current one is open exactly while the job runs; a row is reclaimed exactly when the one before it expired. |
| AttemptLedger.AttemptHistoryIsComplete | src/repomesh/coordination/repository.py:313-326 | The generations with a row are exactly 1..lease_generation. |
| AttemptLedger.ClaimsAreConserved | src/repomesh/coordination/repository.py:498-503 | Over any run the number of claims equals the completed, failed, retried, cancelled and reclaimed attempts plus the running jobs. |
| CoordinationStore.CoordinationRepository.SubmitJob | src/repomesh/coordination/repository.py:78-109 | The statements of the transaction end in the state its specification commits, reply included, and keep the tables valid. |
| CoordinationStore.CoordinationRepository.ResubmitJob | src/repomesh/coordination/repository.py:169-192 | The same for resubmission, with the existing successor found and watches redirected. |
| CoordinationStore.CoordinationRepository.RegisterWorker | src/repomesh/coordination/repository.py:194-210 | A live id is refused; otherwise a fresh session replaces the old one. |
| CoordinationStore.CoordinationRepository.ClaimJob | src/repomesh/coordination/repository.py:244-332 | The loop of up to 32 rounds equals its specification: it buries exhausted or cancelled candidates, else grants one under a new generation with its attempt row and reservation; nothing obtainable was more urgent than the job it hands out. |
| CoordinationStore.CoordinationRepository.RenewLease | src/repomesh/coordination/repository.py:352-367 | Extends job and attempt row only for the unexpired owner and reports a cancellation. |
| CoordinationStore.CoordinationRepository.UpdateProgress | src/repomesh/coordination/repository.py:369-398 | Fenced progress and file errors. |
| CoordinationStore.CoordinationRepository.EnterGuard | src/repomesh/coordination/repository.py:399-414 | Takes the row lock only for the reserved, live owner. |
| CoordinationStore.CoordinationRepository.Finish | src/repomesh/coordination/repository.py:431-465 | A fenced finish ends the job, its attempt row and the reservation together; cancellation overrides the requested status; it waits out while a guard holds the row. |
| CoordinationStore.CoordinationRepository.ScheduleRetry | src/repomesh/coordination/repository.py:476-484 | Equals its specification; for the owner of an uncancelled job on an unguarded repository the job is retrying while budget is left, else failed. |
| CoordinationStore.CoordinationRepository.RequestCancel | src/repomesh/coordination/repository.py:416-429 | Waiting jobs end at once as cancelled, running jobs are flagged, finished ones are left alone. |
| CoordinationStore.CoordinationRepository.WasReclaimed | src/repomesh/coordination/repository.py:344-350 | Whether this attempt took over from an expired one: its row is marked reclaimed, and then the row of the generation before ended as expired. |
| CoordinationStore.CoordinationRepository.Snapshot | src/repomesh/coordination/repository.py:486-515 | Every counter and histogram bucket is its own count, live leases and live workers included; the buckets are cumulative and never exceed the number of ended attempts; together the counters balance: claimed equals completed, failed, retried, reclaimed and cancelled attempts plus the active jobs, and all others have ended. |
| Metrics.Aggregate | src/repomesh/coordination/repository.py:504-515 | One pass over the attempts gives the number of ended ones, their total duration and the count within each bound. |
| Metrics.EndedRowsBalance | src/repomesh/coordination/repository.py:498-515 | The ended attempts in the histogram and the running jobs make up all claims. |
| Metrics.CountsAreSizes | src/repomesh/coordination/repository.py:498-515 | The counters are the sizes of the sets of attempts they name. |
| CoordinationStore.CoordinationRepository.ImportLegacyJobs | src/repomesh/coordination/repository.py:517-561 | The import loop inserts what is missing, skips what is there, and keeps every invariant. |
| WorkerProgram.Execution.Heartbeat | src/repomesh/worker.py:69-80 | A beat that does not renew an owned lease sets lost for good and changes nothing; a requested cancellation is noticed. |
| WorkerProgram.Execution.EnterMutation | src/repomesh/worker.py:90-107 | Work enters a guard only as live, uncancelled owner, checked again inside after any pause; otherwise the lock is released and no table changed. |
| WorkerProgram.Execution.Conclude | src/repomesh/worker.py:124-165 | However the indexer ends, at most one fenced update takes effect; a lost execution reports nothing, and whatever took effect gave the lease up. |
| Audit.Audit | benchmarks/harness.py:191-212 | The sweep with its dictionary of latest ends counts, per key, the rows claimed before some earlier listed row of the key had ended. |
| Audit.AlarmsAreCounted | benchmarks/harness.py:197-206 | The two numbers count the attempts claimed while an attempt listed earlier, of the same job or of the same repository, had neither ended nor run out of its lease. |
| Audit.ZeroMeansDisjoint | benchmarks/harness.py:196-206 | On rows sorted by claim time with non-empty intervals, a zero count means exactly that no two intervals of one key overlap. |
| Audit.AuditVerdict | benchmarks/harness.py:191-212 | On every reachable attempt log the count is zero exactly when the sort lists no two attempts of a key, claimed at the same instant, against their order while the later is active. |
| Audit.AttemptsNeverOverlap | benchmarks/harness.py:196-206 | In every reachable log no two attempts of one job or one repository were active at the same instant. |
| Audit.ListedAttemptsAreDisjoint | benchmarks/harness.py:191-212 | So in whatever order such a log is listed no two intervals of one key intersect, and every alarm is false. |
| Audit.DistinctClaimsPass | benchmarks/harness.py:191-212 | With claim times distinct per repository the protocol always yields zero for jobs and repositories. |
| Audit.TieRaisesFalseAlarm | benchmarks/harness.py:196-206 | A tie in claim times raises an alarm for intervals that do not overlap, if the sort lists the later claim first. |
| Audit.TieIsReachable | benchmarks/harness.py:191-212 | Under any settings a run of the protocol, with a job completed and the next one claimed before the clock moves, leaves such a log: the count is one while no two intervals overlap. |
| Watches.DebounceIsSound | src/repomesh/coordination/watches.py:103-119 | Over any run, a submission means that every observation since the streak began, at least a debounce interval ago, saw this fingerprint, or that changes had been pending for the maximum wait. |
| Watches.PendingNeverMoves | src/repomesh/coordination/watches.py:103-112 | While every observation differs from the submission, pending_since does not move. |
| Watches.WaitIsBounded | src/repomesh/coordination/watches.py:113-134 | Then the first observation of the idle repository at or after pending_since+max_wait submits. |
| Watches.ChangesAreSubmittedInTime | src/repomesh/coordination/watches.py:103-134 | From the first observation that differs from the submission, made at time t, however the content keeps changing, the first observation of the idle repository at or after t+max_wait submits. |
| Watches.WatchJobsCoalesce | src/repomesh/coordination/watches.py:113-134 | A repository has at most one active job that the watcher submitted, and none is submitted beside it. |
| Watches.SameContentIsNotResubmitted | src/repomesh/coordination/watches.py:93-112 | After submitting a fingerprint, any number of observations of it submits nothing, unless the last job completed and the manifest digest differs. |
| Watches.ResubmittedExactlyWhen | src/repomesh/coordination/watches.py:93-134 | The exact condition under which unchanged content is submitted again. |
| Watches.DisagreementResubmitsForever | src/repomesh/coordination/watches.py:93-102 | If the manifest digest of unchanged content keeps differing, each completed job is followed by another submission. |
| Submissions.ObservationsAreRecorded | src/repomesh/coordination/watches.py:81-136 | What an observation leaves in the row, and the one job it may add: queued, incremental, by the watcher, of priority zero, with its whole budget. |
| WatchStates.PendingChangesAreSubmitted | src/repomesh/coordination/watches.py:53-68 | In every reachable state a watch shown as pending_changes has a waiting time, after which an observation of the idle repository submits. |
| WatchStates.ShownExactlyWhen | src/repomesh/coordination/watches.py:53-68 | For each shown state the exact condition under which it is shown. |
| WatchStates.WatchesStartBlank | src/repomesh/coordination/watches.py:17-27 | A repository gets a blank watch once, switched as asked or by default; existing watches stay. |
| WatchStates.PreferencesAreKept | src/repomesh/coordination/watches.py:29-37 | Switching changes nothing else, except that a resumed watch forgets its submission and waits from now. |
| WatchStore.WatchRepository.Observe | src/repomesh/coordination/watches.py:81-136 | The statements of observe end in the state its specification commits and keep the tables valid. |
| WatchStore.WatchRepository.SetEnabled | src/repomesh/coordination/watches.py:29-37 | Resuming forgets the submission and restarts the wait; pausing keeps both. |
| WatchStore.WatchRepository.List | src/repomesh/coordination/watches.py:39-72 | Every watch, and no other, is shown in the state derived from its row, its last job and the clock. |
| IndexingTheorems.PassKeepsHealth | src/repomesh/indexing.py:83-183 | Crash safety: wherever a pass is cut and however its calls fail, a manifest row names exactly its chunks at its commit, and a row marked in sync exactly the points in the vector store. |
| IndexingTheorems.HistoriesKeepHealth | src/repomesh/indexing.py:53-183 | The same after any series of passes over changing trees, each cut anywhere. |
| IndexingTheorems.TombstoneIsPaid | src/repomesh/indexing.py:86-94 | In any turn of either loop, a tombstone leaves only when the file's vectors are gone or its row is in sync with them. |
| IndexingTheorems.PassKeepsDebts | src/repomesh/indexing.py:83-106 | In any pass, a file off disk whose vectors a row or a tombstone accounts for stays accounted for; unaccounted vectors are left alone. |
| IndexingTheorems.OrphansWereOnDisk | src/repomesh/indexing.py:143-169 | Vectors that nothing accounts for can only come from a path that an earlier pass found on disk: an interrupted first insert. |
| IndexingConvergence.CalmPass | src/repomesh/indexing.py:83-183 | An undisturbed pass, file by file: the share each path ends with, the counters, and the repository row. |
| IndexingConvergence.IncrementalEqualsFull | src/repomesh/indexing.py:108-183 | From any healthy store, an undisturbed pass in any mode leaves what a full pass over an empty index leaves, exactly when no file on disk with colliding chunk ids still has an untombstoned row. |
| IndexingConvergence.AnyHistorySettles | src/repomesh/indexing.py:53-183 | After any series of interrupted passes one undisturbed pass over a tree without collisions settles the index; the next incremental pass skips every file and changes nothing. |
| IndexingConvergence.SettledPassIsIdle | src/repomesh/indexing.py:113-122 | Over a settled index an incremental pass skips every file and changes nothing. |
| IndexingConvergence.CountersAddUp | src/repomesh/indexing.py:80-106 | Every path of the two loops is counted once, as indexed, skipped, deleted or failed, unless the pass ends early. |
| IndexingConvergence.CollisionKeepsStaleRow | src/repomesh/db.py:215-237 | A file with colliding chunk ids keeps its old row, out of sync and at the old commit, where a full pass over an empty index leaves none. |
| IndexingReports.ReportsAreHonest | src/repomesh/indexing.py:113-171 | In any weather and cut anywhere, a pass counts as skipped only files whose digest, synchronisation mark and tombstone allow it, as indexed only others, with their chunks; in any mode but incremental it skips nothing. |
| IndexingReports.CalmReport | src/repomesh/indexing.py:83-171 | An undisturbed pass reports exactly the doomed paths, the unchanged files of an incremental pass, the files indexed with the sum of their chunks, and the files whose chunks collide. |
| IndexingReports.SurvivingReport | src/repomesh/indexing.py:83-177 | The exact report of every pass that nothing stops: each path that fails is one error and nothing else, an outage is none; the others are deleted, skipped or indexed, with their chunks. |
| IndexingReports.FailuresStayLocal | src/repomesh/indexing.py:99-105 | In a pass that is not cut, a file whose own calls succeed ends as in an undisturbed pass, however many others fail. |
| IndexingReports.FailuresDoNotStopThePass | src/repomesh/indexing.py:172-177 | Whatever fails file by file, the pass reaches its end, records its commit and accounts for every path. |
| IndexingReports.OutageCostsOnlyVectors | docs/DISTRIBUTED_DESIGN.md:139-140 | While the vector store is unavailable, at any calls and after any part of each, a pass reports and leaves what an undisturbed one does, the vectors and the mark of being in sync aside. |
| IndexStore.RowsCount | src/repomesh/db.py:219-229 | The inserted rows are as many as the chunks exactly when no two chunk ids collide. |
| IndexStore.RowsHoldPieces | src/repomesh/db.py:219-229 | Without collisions each chunk's id maps to that chunk, in the table and in the vector store. |
| IndexerProgram.Database.ReplaceFileChunks | src/repomesh/db.py:205-237 | The insertion loop replaces a file's rows, or fails and restores them exactly when two chunk ids collide. |
| IndexerProgram.Database.DeleteFile | src/repomesh/db.py:239-250 | Tombstone, chunks and row change in one transaction. |
| IndexerProgram.VectorStore.Upsert | src/repomesh/indexing.py:148-157 | The batch is stored completely, or up to the reached points when the call fails. |
| IndexerProgram.RepositoryIndexer.SyncFile | src/repomesh/indexing.py:108-171 | The writes of one file in their order, with the handlers of the program, equal the specification. |
| IndexerProgram.RepositoryIndexer.Index | src/repomesh/indexing.py:53-183 | The two loops equal the specification of a pass; in any mode but incremental nothing is skipped; the counters add up to the announced total exactly when discovery repeats no file. |
| IndexingWrites.PassIsItsWrites | src/repomesh/indexing.py:83-182 | A pass leaves what its storage writes, in program order, make of the store it found; which writes those are is fixed by what it read at its start and how its calls end. |
| IndexingWrites.EveryCutIsAPass | src/repomesh/indexing.py:83-182 | The store after any number of these writes is one that a pass leaves that ends there. |
| DistributedIndexing.StoresAreSequential | src/repomesh/worker.py:90-134 | Both cores together: for every interleaving of claims, expiries, reclaims, crashes, guards and storage writes of any number of workers, each repository's store is one that a series of passes leaves, each cut somewhere, one after the other; a current author finds only its own writes since it read. |
| DistributedIndexing.StoresSettle | docs/DISTRIBUTED_DESIGN.md:116-119 | So after any such run each store is healthy, and one undisturbed pass over a tree without collisions settles it. |
| DistributedIndexing.ProtocolIsUndisturbed | src/repomesh/worker.py:90-107 | The protocol part of a combined run is a run of the protocol, so its theorems hold there. |
| Fingerprints.StreamIsDecodable | src/repomesh/watcher.py:24-31 | For parts without NUL the digest stream determines commit and entries. |
| Fingerprints.FirstDifferenceDecides | src/repomesh/repositories.py:181 | The character at which two paths first differ decides both orders: strings by the character, paths with the slash below every other. |
| Fingerprints.OrdersAgreeOnPair | src/repomesh/repositories.py:181 | Sorting by path components and sorting strings agree on two paths exactly when they do not first differ in a slash against a smaller character. |
| Fingerprints.ListingsAgree | src/repomesh/watcher.py:72-78 | The two sorted listings of one set are equal exactly when no two paths cross and discovery repeats none. |
| Fingerprints.DigestsAgree | src/repomesh/watcher.py:72-78 | Source and manifest digests agree exactly when commits and path-to-hash maps agree, discovery repeats no file and no two paths cross. |
| Fingerprints.SettledIndexMatchesDisk | src/repomesh/watcher.py:66-79 | Right after a settling pass the watcher sees no difference exactly under that condition on the paths. |
| Fingerprints.DotAgainstSlash | src/repomesh/repositories.py:181 | a.py and a/b.py are ordered differently by the two sorts. |
| Fingerprints.Feed | src/repomesh/watcher.py:24-31 | The update loop produces exactly the encoded stream. |
| Citations.Sanitise | src/repomesh/api.py:318-320 | The find-all and replace-all loop equals removing every disallowed match. |
| Citations.SanitisedMatchesAreAllowed | src/repomesh/api.py:317-320 | For every text and label set, whatever the pattern finds afterwards is allowed and was found before: replacement creates no label. |
| Citations.SanitisedLabelsAreAllowed | src/repomesh/api.py:317-320 | Every substring the pattern accepts is allowed, for all texts, exactly when the allowed labels are closed under label suffixes. |
| Citations.InnerLabelSurvives | src/repomesh/api.py:317-320 | The allowed label [[a:1-2] leaves the unverified [a:1-2] inside it in the text. |
| Citations.InnerBracketsSuffice | src/repomesh/models.py:129-131 | Labels without an inner opening bracket are closed in that sense. |
| Citations.AllowedMatchesSurvive | src/repomesh/api.py:317-320 | Sanitising keeps every allowed match, in order, and drops the others, for every text, exactly when the allowed labels are closed under label suffixes. |
| Citations.CleanTextIsKept | src/repomesh/api.py:318-320 | A text whose matches are all allowed is left as it is. |
| Citations.ReferenceIsLabel | src/repomesh/api.py:318 | The pattern accepts every path without closing brackets and line breaks, followed by a colon, digits, a dash and digits, in brackets. |
| Citations.LabelIsReference | src/repomesh/api.py:318 | It accepts nothing else. |
| Citations.ReplaceIsSplitAndJoin | src/repomesh/api.py:320 | Replacing a label puts the marker in the place of each occurrence and leaves what is between them as it is. |
| Answers.Fit | src/repomesh/api.py:297-304 | The contexts are the longest prefix of the results within the character budget. |
| Answers.Answer | src/repomesh/api.py:297-326 | The endpoint's loops equal the composed answer over the fitted contexts. |
| Answers.AnswerMatchesAreAllowed | src/repomesh/api.py:317-326 | Sources suffix included, every match in the answer is allowed, exactly when the text already cites a context or the named labels hold no foreign match. |
| Answers.AnswerIsGrounded | src/repomesh/api.py:308-326 | With non-empty paths free of closing brackets and line breaks every match is allowed, and an answer with citations names one. |
| Answers.LabelIsAccepted | src/repomesh/models.py:129-131 | The pattern accepts a citation's label exactly when its path is of that form. |
| Answers.BracketsInPathsLeak | src/repomesh/api.py:321-324 | A path with brackets puts a match into the answer that is no context's label. |
| Answers.SourcesAreNamed | src/repomesh/api.py:321-324 | With well-formed paths a text that cites a context is the answer; any other is followed by the labels of the first three contexts and nothing else. |
| Answers.StrippedEndsInText | src/repomesh/api.py:323 | What is stripped before the sources is white space, and all of it at the end. |
| Answers.DecimalReadsBack | src/repomesh/models.py:129-131 | A line number in a label reads back as itself, without a leading zero. |
| Answers.LabelsIdentify | src/repomesh/models.py:129-131 | Equal labels have equal paths and lines, whatever characters the paths hold. |
| Chunking.LineWindows | src/repomesh/chunking.py:253-292 | For any settings, window i starts i steps after the first line, until one ends at the last line or none can start. |
| Chunking.WindowsTile | src/repomesh/chunking.py:267-292 | Starts and ends strictly increase from the first to the last line, no window exceeds the size, and neighbours share exactly size minus step lines. |
| Chunking.WindowCount | src/repomesh/chunking.py:267-292 | One window when everything fits, else one more per started step of the remainder. |
| Chunking.WindowsRebuild | src/repomesh/chunking.py:267-292 | Concatenating the windows without shared lines gives back the lines. |
| Chunking.WindowsCover | src/repomesh/chunking.py:268-270 | For any settings, every line is covered exactly when windows can hold a line and the overlap is not negative or one window suffices. |
| Chunking.Walk | src/repomesh/chunking.py:156-174 | The explicit-stack walk yields the symbols in document order. |
| Chunking.SubtreesInOrder | src/repomesh/chunking.py:156-174 | In that order a node comes before its children and each child's symbols before the next child's. |
| Chunking.OrderedByPosition | src/repomesh/chunking.py:175 | Symbols are ordered by first line, then by last line. |
| Chunking.OrderedIsStable | src/repomesh/chunking.py:175 | The order by position loses and invents nothing and keeps document order among symbols on the same lines. |
| Chunking.CutSymbols | src/repomesh/chunking.py:142-212 | Each symbol becomes one chunk, or its windows when it is too long, in that order. |
| Chunking.SharedLinesCollide | src/repomesh/chunking.py:311-314 | Two unsplit symbols on the same lines always give colliding chunk ids. |
| Chunking.DistinctExactlyWhen | src/repomesh/chunking.py:310-314 | Chunk ids are distinct exactly when no two chunks of the file have the same lines. |
| Chunking.LineWindowsAreDistinct | src/repomesh/chunking.py:253-292 | A file cut by line windows alone, with windows that hold a line, never has colliding ids. |
| Retrieval.Fuse | src/repomesh/retrieval.py:88-95 | The nested loops compute, for exactly the listed ids in the order of their first listing, the sum over the rankings of 1/(k+rank), and raise exactly when a denominator is zero. |
| Retrieval.AgreementWins | src/repomesh/retrieval.py:88-95 | With two duplicate-free rankings no longer than k+1, an id in both outscores every id in one. |
| Retrieval.AgreementBoundIsTight | src/repomesh/retrieval.py:88-95 | At length k+2 that can become a tie. |
| Retrieval.FusionIsMonotone | src/repomesh/retrieval.py:88-95 | An id ranked no worse wherever another appears scores no lower. |
| Retrieval.AgreementRanksFirst | src/repomesh/retrieval.py:45-47 | So a hybrid search lists every id of both stores before every id of one. |
| Retrieval.ByScoreFalls | src/repomesh/retrieval.py:47 | The ranking falls by score and is a rearrangement of the fused ids. |
| Retrieval.ByScoreIsStable | src/repomesh/retrieval.py:47 | Ids of equal score keep their given order. |
| Retrieval.FirstSeenInOrder | src/repomesh/retrieval.py:91-95 | The fused ids stand in the order in which the rankings first list them. |
| Retrieval.LastScoreCounts | src/repomesh/retrieval.py:48-49 | Of several hits with one id the last score counts. |
| Retrieval.Search | src/repomesh/retrieval.py:19-71 | By place: the results are, in the ranked order, the ids at the first top_k ranks that still have a chunk row, with that row and each store's score; in hybrid mode the ranks fall by fused score, ties in the order of first listing, and no id left out by top_k scores higher. |
| Retrieval.ResultsAreIndexed | src/repomesh/retrieval.py:51-54 | Over a healthy store every result is a chunk of its file's recorded content, so leftover points never reach a result. |

## Left out

- HTTP routes, authentication, health and metrics exposition, command line, settings, logging, dashboard and the read-only listings of jobs and workers: plumbing.
- PostgreSQL, SQLite, Qdrant, Ollama, git and Tree-sitter: transactions and row locks are atomic steps, vector operations fallible map updates, syntax trees a datatype, SHA-256 and UUIDv5 injective, the chunker a fixed function. A statement timeout while a guard holds a row is an error reply.
- Each transaction reads the clock once. Time is real-valued and never runs backwards; identifiers are natural numbers.
- Columns that only inform (heartbeat_at, updated_at, started_at, host names).
- A guard also blocks inserts that reference its repository row for a moment; here they are not delayed.
- Network partitions in which a vector request outlives its PostgreSQL session, which docs/DISTRIBUTED_DESIGN.md:102-107 excludes.
- The index store of one repository. Ids of different repositories cannot meet, since the repository is part of every id.
- Files edited during a pass. Path and content are fixed per pass; a change of the embedding model between passes is not modelled.
- File names with a backslash, which the chunker rewrites to a slash in its rows.
- The manifest and the tombstones are read in one action when workers are interleaved. The program reads them one after the other, which makes a difference only to an author that is superseded meanwhile and so never writes.
- The deletion loop's alphabetical order: every order is allowed, which is stronger.
- Full-text ranking, cosine scores and floating-point rounding: store answers are given, scores are real numbers.
- The difference between splitlines and syntax-tree rows, import lists, and the trimming of chunk text: the text of a line range is a given function.
- Digits in citations other than ASCII, and white space beyond the Latin-1 range when a text is stripped.
- The watcher's session lock that elects one scanner, and its scan loop: any number of observations by any process is allowed.
- The worker's signal handling, its polling loop and the choice of incremental mode for later attempts.
- Random generators: session tokens, job ids and retry jitter are parameters.
