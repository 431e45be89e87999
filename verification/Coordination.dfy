/**
 The PostgreSQL coordination tables and one function per transaction of
 CoordinationRepository and WatchRepository. A transaction that raises leaves the
 tables as they were, so every function returns the state it commits together
 with a result or an error.
 */
module Coordination {
  import opened Basics

  type JobId = nat
  type RepoId = nat
  type WorkerId = nat
  type Session = nat
  type Fingerprint = string
  type Time = real

  datatype Status = Queued | Running | Retrying | Completed | CompletedWithErrors | Failed | Cancelled {
    predicate Terminal() {
      Completed? || CompletedWithErrors? || Failed? || Cancelled?
    }

    predicate Waiting() {
      Queued? || Retrying?
    }
  }

  datatype Trigger = Manual | Watch | Retry

  datatype Progress = Progress(done: nat, total: nat, indexedFiles: nat, indexedChunks: nat,
                               deletedFiles: nat, skippedFiles: nat, errorCount: nat)

  const NO_PROGRESS := Progress(0, 0, 0, 0, 0, 0, 0)

  /** A row of jobs; the same type is the snapshot a worker carries after a claim.
      serial numbers the insertions and only serves to state that parent links are acyclic. */
  datatype Job = Job(
    id: JobId, repo: RepoId, mode: string, status: Status, priority: int,
    attempt: nat, maxAttempts: nat, key: Option<string>,
    worker: Option<WorkerId>, generation: nat,
    createdAt: Time, availableAt: Time, completedAt: Option<Time>, leaseExpiresAt: Option<Time>,
    cancelRequested: bool, progress: Progress, error: Option<string>,
    trigger: Trigger, parent: Option<JobId>, serial: nat)

  datatype AttemptOutcome = Expired | Ended(status: Status)

  /** A row of job_attempts; the table is kept in insertion order. */
  datatype Attempt = Attempt(
    job: JobId, generation: nat, worker: WorkerId, attempt: nat,
    claimedAt: Time, leaseExpiresAt: Time, endedAt: Option<Time>,
    outcome: Option<AttemptOutcome>, reclaimed: bool, error: Option<string>)

  datatype WorkerStatus = Idle | Busy | Stopped

  datatype WorkerRow = WorkerRow(
    session: Session, status: WorkerStatus, lastSeen: Time, currentJob: Option<JobId>,
    completedJobs: nat, failedJobs: nat)

  datatype WatchRow = WatchRow(
    enabled: bool, observed: Option<Fingerprint>, submitted: Option<Fingerprint>,
    stableSince: Option<Time>, pendingSince: Option<Time>, lastChecked: Option<Time>,
    lastJob: Option<JobId>, error: Option<string>)

  datatype FileError = FileError(job: JobId, generation: nat, path: string, error: string)

  /** One write to SQLite or the vector store; claim is the index of the author's attempt row. */
  datatype StorageWrite = StorageWrite(repo: RepoId, job: JobId, generation: nat, claim: nat)

  datatype Settings = Settings(
    lease: real, maxRetries: nat, retryBase: real, retryMax: real, offline: real,
    debounce: real, maxWait: real, watchDefault: bool)

  predicate ValidSettings(c: Settings) {
    && c.lease > 0.0 && c.maxRetries >= 1 && c.retryBase > 0.0 && c.retryMax > 0.0
    && c.offline > 0.0 && c.debounce >= 0.0 && c.maxWait > 0.0 && c.debounce <= c.maxWait
  }

  /** guards are the repository_execution row locks held by open mutation guards.
      issued and writes are history: every snapshot a claim handed out, every guarded storage write. */
  datatype State = State(
    cfg: Settings, now: Time,
    execution: map<RepoId, Option<JobId>>, jobs: map<JobId, Job>,
    workers: map<WorkerId, WorkerRow>, attempts: seq<Attempt>, fileErrors: seq<FileError>,
    watches: map<RepoId, WatchRow>, guards: map<RepoId, Job>,
    issued: set<Job>, writes: seq<StorageWrite>)

  function Initial(c: Settings, now: Time): State {
    State(c, now, map[], map[], map[], [], [], map[], map[], {}, [])
  }

  datatype Error = LeaseLost | ValueError | LookupError | WorkerIdentityInUse | LockTimeout | IntegrityError

  datatype Reply<T> = Reply(state: State, result: Result<T, Error>)

  // ---------- submission ----------

  predicate ValidMode(mode: string) {
    mode == "full" || mode == "incremental"
  }

  function EnsureExecution(s: State, repo: RepoId): State {
    if repo in s.execution then s else s.(execution := s.execution[repo := None])
  }

  function NewJob(s: State, id: JobId, repo: RepoId, mode: string, key: Option<string>, priority: int,
                  trigger: Trigger, parent: Option<JobId>): Job {
    Job(id, repo, mode, Queued, priority, 0, s.cfg.maxRetries, key, None, 0, s.now, s.now, None, None,
        false, NO_PROGRESS, None, trigger, parent, |s.jobs|)
  }

  function Insert(s: State, job: Job): State {
    s.(jobs := s.jobs[job.id := job])
  }

  predicate HasKey(s: State, j: JobId, key: string) {
    j in s.jobs && s.jobs[j].key == Some(key)
  }

  ghost function KeyHolder(s: State, key: string): (j: JobId)
    requires exists i :: HasKey(s, i, key)
    ensures HasKey(s, j, key)
  {
    var j :| HasKey(s, j, key); j
  }

  ghost function SubmitJob(s: State, repo: RepoId, mode: string, key: Option<string>, priority: int,
                           newId: JobId): Reply<Job> {
    if !ValidMode(mode) || key == Some("") then
      Reply(s, Err(ValueError))
    else if key.Some? && exists j :: HasKey(s, j, key.value) then
      var row := s.jobs[KeyHolder(s, key.value)];
      if row.repo == repo && row.mode == mode && row.priority == priority then
        Reply(EnsureExecution(s, repo), Ok(row))
      else
        Reply(s, Err(ValueError))
    else if newId in s.jobs then
      Reply(s, Err(IntegrityError))
    else
      var job := NewJob(s, newId, repo, mode, key, priority, Manual, None);
      Reply(Insert(EnsureExecution(s, repo), job), Ok(job))
  }

  predicate IsChild(s: State, j: JobId, parent: JobId) {
    j in s.jobs && s.jobs[j].parent == Some(parent)
  }

  ghost function Child(s: State, parent: JobId): (j: JobId)
    requires exists i :: IsChild(s, i, parent)
    ensures IsChild(s, j, parent)
  {
    var j :| IsChild(s, j, parent); j
  }

  /** UPDATE repository_watches SET last_job_id=to WHERE last_job_id=from. */
  function Redirect(watches: map<RepoId, WatchRow>, from: JobId, to: JobId): map<RepoId, WatchRow> {
    map r | r in watches ::
      if watches[r].lastJob == Some(from) then watches[r].(lastJob := Some(to)) else watches[r]
  }

  ghost function ResubmitJob(s: State, id: JobId, newId: JobId): Reply<Job> {
    if id !in s.jobs then
      Reply(s, Err(LookupError))
    else if !s.jobs[id].status.Terminal() then
      Reply(s, Err(ValueError))
    else if exists j :: IsChild(s, j, id) then
      var child := Child(s, id);
      Reply(s.(watches := Redirect(s.watches, id, child)), Ok(s.jobs[child]))
    else if newId in s.jobs then
      Reply(s, Err(IntegrityError))
    else
      var prior := s.jobs[id];
      var job := NewJob(s, newId, prior.repo, "incremental", None, prior.priority, Retry, Some(id));
      Reply(Insert(s, job).(watches := Redirect(s.watches, id, newId)), Ok(job))
  }

  // ---------- worker registry ----------

  function RegisterWorker(s: State, w: WorkerId, session: Session): Reply<Session> {
    if w in s.workers && !s.workers[w].status.Stopped? && s.workers[w].lastSeen >= s.now - s.cfg.offline then
      Reply(s, Err(WorkerIdentityInUse))
    else
      var row := if w in s.workers
                 then s.workers[w].(session := session, status := Idle, lastSeen := s.now, currentJob := None)
                 else WorkerRow(session, Idle, s.now, None, 0, 0);
      Reply(s.(workers := s.workers[w := row]), Ok(session))
  }

  predicate Registered(s: State, w: WorkerId, session: Session) {
    w in s.workers && s.workers[w].session == session && !s.workers[w].status.Stopped?
  }

  function HeartbeatWorker(s: State, w: WorkerId, session: Session, current: Option<JobId>): Reply<()> {
    if !Registered(s, w, session) then
      Reply(s, Err(LeaseLost))
    else
      var row := s.workers[w].(lastSeen := s.now, currentJob := current,
                               status := if current.Some? then Busy else Idle);
      Reply(s.(workers := s.workers[w := row]), Ok(()))
  }

  function StopWorker(s: State, w: WorkerId, session: Session): State {
    if w in s.workers && s.workers[w].session == session then
      s.(workers := s.workers[w := s.workers[w].(status := Stopped, currentJob := None, lastSeen := s.now)])
    else s
  }

  // ---------- claims ----------

  /** The WHERE clause of the claim query; SKIP LOCKED hides guarded repositories. */
  predicate Claimable(s: State, j: JobId) {
    && j in s.jobs
    && s.jobs[j].repo in s.execution
    && s.jobs[j].repo !in s.guards
    && (s.execution[s.jobs[j].repo] == None || s.execution[s.jobs[j].repo] == Some(j))
    && (|| (s.jobs[j].status.Waiting() && s.jobs[j].availableAt <= s.now)
        || (s.jobs[j].status.Running? && s.jobs[j].leaseExpiresAt.Some? && s.jobs[j].leaseExpiresAt.value <= s.now))
  }

  /** ORDER BY priority DESC, available_at, created_at, id. */
  predicate Precedes(a: Job, b: Job) {
    || a.priority > b.priority
    || (a.priority == b.priority && a.availableAt < b.availableAt)
    || (a.priority == b.priority && a.availableAt == b.availableAt && a.createdAt < b.createdAt)
    || (a.priority == b.priority && a.availableAt == b.availableAt && a.createdAt == b.createdAt && a.id < b.id)
  }

  ghost predicate IsFirst(s: State, j: JobId) {
    && Claimable(s, j)
    && forall k :: Claimable(s, k) && k != j ==> Precedes(s.jobs[j], s.jobs[k])
  }

  ghost function Candidate(s: State): (c: Option<JobId>)
    ensures c.Some? ==> IsFirst(s, c.value)
  {
    if exists j :: IsFirst(s, j) then (var j :| IsFirst(s, j); Some(j)) else None
  }

  predicate IsRow(a: Attempt, j: JobId, g: nat) {
    a.job == j && a.generation == g
  }

  /** Closes the attempt row (j, g); error is the new error column, if the statement sets it. */
  function CloseRow(rows: seq<Attempt>, j: JobId, g: nat, now: Time, outcome: AttemptOutcome,
                    error: Option<Option<string>>): (r: seq<Attempt>)
    ensures |r| == |rows|
  {
    seq(|rows|, i requires 0 <= i < |rows| =>
      if IsRow(rows[i], j, g)
      then rows[i].(endedAt := Some(now), outcome := Some(outcome),
                    error := if error.Some? then error.value else rows[i].error)
      else rows[i])
  }

  function ExtendRow(rows: seq<Attempt>, j: JobId, g: nat, lease: Time): (r: seq<Attempt>)
    ensures |r| == |rows|
  {
    seq(|rows|, i requires 0 <= i < |rows| =>
      if IsRow(rows[i], j, g) then rows[i].(leaseExpiresAt := lease) else rows[i])
  }

  predicate Exhausted(job: Job) {
    job.cancelRequested || job.attempt >= job.maxAttempts
  }

  /** UPDATE workers ... WHERE worker_id=w AND current_job_id=j. */
  function ReleaseWorker(workers: map<WorkerId, WorkerRow>, w: Option<WorkerId>, j: JobId,
                         completed: nat, failed: nat): map<WorkerId, WorkerRow> {
    if w.Some? && w.value in workers && workers[w.value].currentJob == Some(j) then
      var row := workers[w.value];
      workers[w.value := row.(completedJobs := row.completedJobs + completed,
                              failedJobs := row.failedJobs + failed,
                              status := Idle, currentJob := None)]
    else workers
  }

  /** The cleanup branch of claim_job: a cancelled or exhausted candidate becomes terminal. */
  function Discard(s: State, j: JobId): State
    requires Claimable(s, j)
  {
    var row := s.jobs[j];
    var terminal := if row.cancelRequested then Cancelled else Failed;
    var done := row.(status := terminal, worker := None, leaseExpiresAt := None, completedAt := Some(s.now),
                     error := if terminal.Failed? then Some("attempt budget exhausted after lease expiry") else None);
    s.(jobs := s.jobs[j := done],
       execution := s.execution[row.repo := None],
       attempts := if row.status.Running? then CloseRow(s.attempts, j, row.generation, s.now, Ended(terminal), None)
                   else s.attempts,
       workers := if row.status.Running?
                  then ReleaseWorker(s.workers, row.worker, j, 0, if terminal.Failed? then 1 else 0)
                  else s.workers)
  }

  function Claimed(s: State, j: JobId, w: WorkerId): Job
    requires j in s.jobs
  {
    s.jobs[j].(status := Running, worker := Some(w), generation := s.jobs[j].generation + 1,
               attempt := s.jobs[j].attempt + 1, leaseExpiresAt := Some(s.now + s.cfg.lease),
               progress := NO_PROGRESS, error := None)
  }

  /** The granting branch of claim_job. */
  function Grant(s: State, j: JobId, w: WorkerId): State
    requires Claimable(s, j) && w in s.workers
  {
    var row := s.jobs[j];
    var job := Claimed(s, j, w);
    var closed := if row.status.Running? then CloseRow(s.attempts, j, row.generation, s.now, Expired, None)
                  else s.attempts;
    var attempt := Attempt(j, job.generation, w, job.attempt, s.now, s.now + s.cfg.lease, None, None,
                           row.status.Running?, None);
    s.(jobs := s.jobs[j := job],
       execution := s.execution[row.repo := Some(j)],
       attempts := closed + [attempt],
       workers := s.workers[w := s.workers[w].(status := Busy, currentJob := Some(j), lastSeen := s.now)],
       issued := s.issued + {job})
  }

  const CLAIM_ROUNDS: nat := 32

  ghost function ClaimRounds(s: State, w: WorkerId, rounds: nat): (r: (State, Option<Job>))
    requires w in s.workers
    decreases rounds
  {
    var c := Candidate(s);
    if rounds == 0 || c.None? then
      (s, None)
    else if Exhausted(s.jobs[c.value]) then
      ClaimRounds(Discard(s, c.value), w, rounds - 1)
    else
      (Grant(s, c.value, w), Some(Claimed(s, c.value, w)))
  }

  ghost function ClaimJob(s: State, w: WorkerId, session: Session): Reply<Option<Job>> {
    if !Registered(s, w, session) then
      Reply(s, Err(LeaseLost))
    else
      var r := ClaimRounds(s, w, CLAIM_ROUNDS);
      Reply(r.0, Ok(r.1))
  }

  // ---------- owned updates ----------

  /** The OWNED predicate of the repository: identity, generation, running and an unexpired lease. */
  predicate Owned(s: State, h: Job) {
    && h.id in s.jobs
    && h.worker.Some?
    && s.jobs[h.id].worker == h.worker
    && s.jobs[h.id].generation == h.generation
    && s.jobs[h.id].status.Running?
    && s.jobs[h.id].leaseExpiresAt.Some?
    && s.jobs[h.id].leaseExpiresAt.value > s.now
  }

  function AssertOwnership(s: State, h: Job): Result<bool, Error> {
    if Owned(s, h) then Ok(s.jobs[h.id].cancelRequested) else Err(LeaseLost)
  }

  function RenewLease(s: State, h: Job): Reply<bool> {
    if !Owned(s, h) then
      Reply(s, Err(LeaseLost))
    else
      var lease := s.now + s.cfg.lease;
      Reply(s.(jobs := s.jobs[h.id := s.jobs[h.id].(leaseExpiresAt := Some(lease))],
               attempts := ExtendRow(s.attempts, h.id, h.generation, lease)),
            Ok(s.jobs[h.id].cancelRequested))
  }

  function UpdateProgress(s: State, h: Job, p: Progress, path: string, error: string): Reply<()> {
    if !Owned(s, h) then
      Reply(s, Err(LeaseLost))
    else
      var row := s.jobs[h.id].(progress := p.(done := p.indexedFiles + p.skippedFiles + p.deletedFiles + p.errorCount));
      Reply(s.(jobs := s.jobs[h.id := row],
               fileErrors := if error != "" && path != ""
                             then s.fileErrors + [FileError(h.id, h.generation, path, Truncate(error, 2000))]
                             else s.fileErrors),
            Ok(()))
  }

  function EnterGuard(s: State, h: Job): Reply<bool> {
    if h.repo in s.guards then
      Reply(s, Err(LockTimeout))
    else if h.repo !in s.execution || s.execution[h.repo] != Some(h.id) || !Owned(s, h) then
      Reply(s, Err(LeaseLost))
    else
      Reply(s.(guards := s.guards[h.repo := h]), Ok(s.jobs[h.id].cancelRequested))
  }

  predicate Guarding(s: State, h: Job) {
    h.repo in s.guards && s.guards[h.repo] == h
  }

  predicate HasRow(rows: seq<Attempt>, j: JobId, g: nat) {
    exists i :: 0 <= i < |rows| && IsRow(rows[i], j, g)
  }

  ghost function RowIndex(rows: seq<Attempt>, j: JobId, g: nat): (i: nat)
    requires HasRow(rows, j, g)
    ensures i < |rows| && IsRow(rows[i], j, g)
  {
    var i :| 0 <= i < |rows| && IsRow(rows[i], j, g); i
  }

  /** A storage write inside the guard's with-block. */
  ghost function GuardedWrite(s: State, h: Job): State {
    if Guarding(s, h) && HasRow(s.attempts, h.id, h.generation) then
      s.(writes := s.writes + [StorageWrite(h.repo, h.id, h.generation, RowIndex(s.attempts, h.id, h.generation))])
    else s
  }

  /** Commit, exception or a crash that closes the connection: each drops the row lock. */
  function LeaveGuard(s: State, repo: RepoId): State {
    s.(guards := s.guards - {repo})
  }

  function RequestCancel(s: State, id: JobId): Reply<Job> {
    if id !in s.jobs then
      Reply(s, Err(ValueError))
    else if s.jobs[id].status.Terminal() then
      Reply(s, Ok(s.jobs[id]))
    else
      var row := if s.jobs[id].status.Waiting()
                 then s.jobs[id].(cancelRequested := true, status := Cancelled, completedAt := Some(s.now))
                 else s.jobs[id].(cancelRequested := true);
      Reply(s.(jobs := s.jobs[id := row]), Ok(row))
  }

  /** _finish; releasing the reservation needs the repository row, so it waits for an open guard. */
  function Finish(s: State, h: Job, status: Status, error: Option<string>, delay: real): Reply<Job> {
    if !Owned(s, h) then
      Reply(s, Err(LeaseLost))
    else if h.repo in s.guards then
      Reply(s, Err(LockTimeout))
    else
      var prior := s.jobs[h.id];
      var final := if prior.cancelRequested then Cancelled else status;
      var row := prior.(status := final, worker := None, leaseExpiresAt := None,
                      completedAt := if status.Retrying? && !prior.cancelRequested then None else Some(s.now),
                      availableAt := s.now + delay, error := error);
      Reply(s.(jobs := s.jobs[h.id := row],
               execution := if h.repo in s.execution && s.execution[h.repo] == Some(h.id)
                            then s.execution[h.repo := None] else s.execution,
               attempts := CloseRow(s.attempts, h.id, h.generation, s.now, Ended(final), Some(error)),
               workers := ReleaseWorker(s.workers, h.worker, h.id,
                                        if final.Completed? || final.CompletedWithErrors? then 1 else 0,
                                        if final.Failed? then 1 else 0)),
            Ok(row))
  }

  function CompleteJob(s: State, h: Job, withErrors: bool): Reply<Job> {
    Finish(s, h, if withErrors then CompletedWithErrors else Completed, None, 0.0)
  }

  function CancelJob(s: State, h: Job): Reply<Job> {
    Finish(s, h, Cancelled, None, 0.0)
  }

  function FailJob(s: State, h: Job, error: string): Reply<Job> {
    Finish(s, h, Failed, Some(Truncate(error, 2000)), 0.0)
  }

  function Power2(n: nat): real {
    if n == 0 then 1.0 else 2.0 * Power2(n - 1)
  }

  /** min(base * 2 ** min(attempt - 1, 20) + jitter, max). */
  function Backoff(c: Settings, attempt: nat, jitter: real): real {
    var factor := if attempt == 0 then 0.5 else Power2(Min(attempt - 1, 20));
    MinReal(c.retryBase * factor + jitter, c.retryMax)
  }

  function ScheduleRetry(s: State, h: Job, error: string, jitter: real): Reply<Job> {
    if h.attempt >= h.maxAttempts then
      FailJob(s, h, error)
    else
      Finish(s, h, Retrying, Some(Truncate(error, 2000)), Backoff(s.cfg, h.attempt, jitter))
  }

  // ---------- legacy import ----------

  datatype LegacyRow = LegacyRow(
    id: JobId, repo: RepoId, mode: string, status: Status, attempt: nat, key: Option<string>,
    createdAt: Time, updatedAt: Time, cancelRequested: bool, progress: Progress, error: Option<string>)

  function LegacyJob(s: State, prior: LegacyRow): Job {
    var terminal := prior.status.Terminal();
    Job(prior.id, prior.repo, prior.mode,
        if terminal then prior.status else if prior.cancelRequested then Cancelled else Queued,
        0,
        if terminal then prior.attempt else Max(1, prior.attempt),
        Max(Max(s.cfg.maxRetries, prior.attempt + 1), 2),
        prior.key, None, 0, prior.createdAt, s.now,
        if terminal || prior.cancelRequested then Some(prior.updatedAt) else None, None,
        prior.cancelRequested, prior.progress, prior.error, Manual, None, |s.jobs|)
  }

  /** INSERT ... ON CONFLICT DO NOTHING of one legacy row. */
  ghost predicate Conflicts(s: State, prior: LegacyRow) {
    prior.id in s.jobs || (prior.key.Some? && exists j :: HasKey(s, j, prior.key.value))
  }

  ghost function ImportRow(s: State, prior: LegacyRow): State {
    var t := EnsureExecution(s, prior.repo);
    if Conflicts(t, prior) then t else Insert(t, LegacyJob(t, prior))
  }

  ghost function ImportRows(s: State, rows: seq<LegacyRow>): (r: (State, nat))
    decreases |rows|
  {
    if rows == [] then (s, 0)
    else
      var rest := ImportRows(ImportRow(s, rows[0]), rows[1..]);
      (rest.0, rest.1 + if Conflicts(EnsureExecution(s, rows[0].repo), rows[0]) then 0 else 1)
  }

  /** The jobs.mode CHECK constraint fails the whole transaction. */
  ghost function ImportLegacyJobs(s: State, rows: seq<LegacyRow>): Reply<nat> {
    if exists i :: 0 <= i < |rows| && !ValidMode(rows[i].mode) then
      Reply(s, Err(IntegrityError))
    else
      var r := ImportRows(s, rows);
      Reply(r.0, Ok(r.1))
  }

  // ---------- watches ----------

  function EnsureWatch(s: State, repo: RepoId, enabled: Option<bool>): State {
    var t := EnsureExecution(s, repo);
    if repo in t.watches then t
    else t.(watches := t.watches[repo := WatchRow(if enabled.Some? then enabled.value else s.cfg.watchDefault,
                                                  None, None, None, None, None, None, None)])
  }

  /** The second transaction of set_enabled. */
  function SwitchWatch(s: State, repo: RepoId, enabled: bool): State {
    if repo !in s.watches then s
    else
      var w := s.watches[repo];
      var resumed := enabled && !w.enabled;
      s.(watches := s.watches[repo := w.(enabled := enabled,
                                         submitted := if resumed then None else w.submitted,
                                         pendingSince := if resumed then Some(s.now) else w.pendingSince)])
  }

  function RecordWatchError(s: State, repo: RepoId, error: string): State {
    if repo in s.watches && s.watches[repo].enabled then
      s.(watches := s.watches[repo := s.watches[repo].(error := Some(Truncate(error, 2000)), lastChecked := Some(s.now))])
    else s
  }

  predicate IsActive(s: State, j: JobId, repo: RepoId) {
    j in s.jobs && s.jobs[j].repo == repo && !s.jobs[j].status.Terminal()
  }

  ghost predicate Busyness(s: State, repo: RepoId) {
    exists j :: IsActive(s, j, repo)
  }

  predicate LastCompleted(s: State, w: WatchRow) {
    w.lastJob.Some? && w.lastJob.value in s.jobs && s.jobs[w.lastJob.value].status.Completed?
  }

  /** First statement of observe: a completed job whose manifest disagrees reopens the submission. */
  ghost function Reconcile(s: State, repo: RepoId, w: WatchRow, f: Fingerprint, indexed: Option<Fingerprint>): WatchRow {
    if indexed.Some? && indexed.value != f && w.submitted == Some(f) && LastCompleted(s, w) && !Busyness(s, repo)
    then w.(submitted := None) else w
  }

  function Note(now: Time, w: WatchRow, f: Fingerprint): WatchRow {
    w.(stableSince := if w.observed != Some(f) then Some(now) else w.stableSince,
       pendingSince := if w.submitted == Some(f) then None
                       else if w.pendingSince.Some? then w.pendingSince else Some(now),
       observed := Some(f), lastChecked := Some(now), error := None)
  }

  ghost predicate Ready(s: State, repo: RepoId, w: WatchRow) {
    && w.observed != w.submitted
    && (|| (w.stableSince.Some? && w.stableSince.value <= s.now - s.cfg.debounce)
        || (w.pendingSince.Some? && w.pendingSince.value <= s.now - s.cfg.maxWait))
    && !Busyness(s, repo)
  }

  ghost function Observe(s: State, repo: RepoId, f: Fingerprint, indexed: Option<Fingerprint>, newId: JobId): Reply<Option<Job>> {
    if repo !in s.watches || !s.watches[repo].enabled then
      Reply(s, Ok(None))
    else
      var w := Note(s.now, Reconcile(s, repo, s.watches[repo], f, indexed), f);
      if !Ready(s, repo, w) then
        Reply(s.(watches := s.watches[repo := w]), Ok(None))
      else if newId in s.jobs then
        Reply(s, Err(IntegrityError))
      else
        var job := NewJob(s, newId, repo, "incremental", None, 0, Watch, None);
        Reply(Insert(s, job).(watches := s.watches[repo := w.(submitted := Some(f), lastJob := Some(newId), pendingSince := None)]),
              Ok(Some(job)))
  }
}
