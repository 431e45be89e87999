/** What the holder of a job can do with it: report, renew, guard, finish, retry; and what a request to cancel does to it. */
module JobEndings {
  import opened Basics
  import opened Coordination
  import opened CoordinationInvariants
  import opened CoordinationSteps
  import opened CoordinationRuns
  import opened CoordinationTheorems
  import opened Claims

  /** The tables of t are those of s but for the row of job j and what is listed. */
  ghost predicate OnlyJob(s: State, t: State, j: JobId) {
    && t.jobs.Keys == s.jobs.Keys
    && forall k | k in s.jobs && k != j :: t.jobs[k] == s.jobs[k]
  }

  lemma HolderRow(s: State, h: Job)
    requires Inv(s) && h in s.issued
    ensures RowOk(h.id, s.jobs[h.id]) && HandleOk(s, h)
    ensures h.repo in s.execution && (s.jobs[h.id].status.Running? ==> s.execution[h.repo] == Some(h.id))
    ensures ValidSettings(s.cfg)
  {
    hide Guards, Writes, UniqueKeys, Forest, Watching, History;
    HandleAt(s, h);
    RowAt(s, h.id);
  }

  /** The generation alone decides: a snapshot owns its job exactly while no later claim was made, the job runs and its lease
      has not run out. Worker and reservation then agree with it. */
  lemma OwnershipIsTheGeneration(s: State, h: Job)
    requires Inv(s) && h in s.issued
    ensures h.id in s.jobs
    ensures Owned(s, h) <==> s.jobs[h.id].generation == h.generation && s.jobs[h.id].status == Running
                             && s.jobs[h.id].leaseExpiresAt.Some? && s.now < s.jobs[h.id].leaseExpiresAt.value
    ensures Owned(s, h) ==> s.jobs[h.id].worker == h.worker && h.repo in s.execution && s.execution[h.repo] == Some(h.id)
    ensures AssertOwnership(s, h) == if Owned(s, h) then Ok(s.jobs[h.id].cancelRequested) else Err(LeaseLost)
  {
    hide Inv;
    HolderRow(s, h);
  }

  // ---------- cancellation ----------

  /** A request on a job that still waits ends it at once; a running job is flagged, is never claimed again, and whatever
      happens later can only end as cancelled; a finished job stays as it is; an unknown id is an error. No other job
      and no other table changes. */
  lemma RequestedCancellationWins(s: State, j: JobId, es: seq<Event>)
    requires Inv(s)
    ensures var r := RequestCancel(s, j); var t := r.state; var u := Run(t, es);
            && t == s.(jobs := t.jobs) && OnlyJob(s, t, j)
            && (j !in s.jobs ==> r == Reply(s, Err(ValueError)))
            && (j in s.jobs ==> j in u.jobs && r.result == Ok(t.jobs[j]))
            && (j in s.jobs && s.jobs[j].status.Terminal() ==> t == s && u.jobs[j] == s.jobs[j])
            && (j in s.jobs && !s.jobs[j].status.Terminal() ==>
                  && u.jobs[j].cancelRequested
                  && u.jobs[j].generation == s.jobs[j].generation && u.jobs[j].attempt == s.jobs[j].attempt
                  && (u.jobs[j].status.Terminal() ==> u.jobs[j].status == Cancelled)
                  && (s.jobs[j].status != Running ==> u.jobs[j].status == Cancelled && u.jobs[j].completedAt == Some(s.now))
                  && (s.jobs[j].status == Running ==> t.jobs[j] == s.jobs[j].(cancelRequested := true)))
  {
    hide Inv, Run, Evolves;
    RequestCancelInv(s, j);
    var t := RequestCancel(s, j).state;
    if j in s.jobs {
      if t.jobs[j].status.Terminal() {
        TerminalIsFinal(t, es, j);
      } else {
        CancellationWins(t, es, j);
      }
    }
  }

  // ---------- finishing ----------

  /** Row b is row a given up by its worker at the given time. */
  ghost predicate GivenUp(a: Job, b: Job, now: Time, delay: real, error: Option<string>) {
    && b == a.(status := b.status, completedAt := b.completedAt, worker := None, leaseExpiresAt := None,
               availableAt := now + delay, error := error)
    && b.completedAt == if b.status == Retrying then None else Some(now)
  }

  /** The attempt of generation g ends with the job's status; no other attempt changes. */
  ghost predicate AttemptEnded(a: Attempt, b: Attempt, j: JobId, g: nat, now: Time, status: Status, error: Option<string>) {
    b == if a.job == j && a.generation == g then a.(endedAt := Some(now), outcome := Some(Ended(status)), error := error) else a
  }

  /** The worker that was busy with job j is idle again, with the outcome on its account; all others are as they were. */
  ghost predicate WorkerFreed(s: State, t: State, w: WorkerId, j: JobId, status: Status) {
    && t.workers.Keys == s.workers.Keys
    && (forall v | v in s.workers && (v != w || s.workers[v].currentJob != Some(j)) :: t.workers[v] == s.workers[v])
    && (w in s.workers && s.workers[w].currentJob == Some(j) ==>
          && t.workers[w].status == Idle && t.workers[w].currentJob.None?
          && t.workers[w].session == s.workers[w].session && t.workers[w].lastSeen == s.workers[w].lastSeen
          && t.workers[w].completedJobs
             == s.workers[w].completedJobs + (if status == Completed || status == CompletedWithErrors then 1 else 0)
          && t.workers[w].failedJobs == s.workers[w].failedJobs + (if status == Failed then 1 else 0))
  }

  /** The job and its repository's reservation after an accepted update that ends generation h; no other table changes but
      attempts and workers. */
  ghost predicate RowEnds(s: State, h: Job, r: Reply<Job>, status: Status, error: Option<string>, delay: real)
    requires h.id in s.jobs
  {
    var t := r.state;
    && OnlyJob(s, t, h.id) && r.result == Ok(t.jobs[h.id]) && t.jobs[h.id].status == status
    && GivenUp(s.jobs[h.id], t.jobs[h.id], s.now, delay, error)
    && h.repo in s.execution && t.execution == s.execution[h.repo := None]
    && t == s.(jobs := t.jobs, execution := t.execution, attempts := t.attempts, workers := t.workers)
  }

  /** Everything such an update does. */
  ghost predicate EndsWith(s: State, h: Job, r: Reply<Job>, status: Status, error: Option<string>, delay: real)
    requires h.id in s.jobs && h.worker.Some?
  {
    && RowEnds(s, h, r, status, error, delay)
    && |r.state.attempts| == |s.attempts|
    && (forall i | 0 <= i < |s.attempts| ::
          AttemptEnded(s.attempts[i], r.state.attempts[i], h.id, h.generation, s.now, status, error))
    && WorkerFreed(s, r.state, h.worker.value, h.id, status)
  }

  lemma ReleaseFrees(s: State, t: State, w: WorkerId, j: JobId, status: Status)
    requires t.workers == ReleaseWorker(s.workers, Some(w), j, if status.Completed? || status.CompletedWithErrors? then 1 else 0,
                                        if status.Failed? then 1 else 0)
    ensures WorkerFreed(s, t, w, j, status)
  {
  }

  lemma CloseEnds(rows: seq<Attempt>, j: JobId, g: nat, now: Time, status: Status, error: Option<string>)
    ensures var closed := CloseRow(rows, j, g, now, Ended(status), Some(error));
            forall i | 0 <= i < |rows| :: AttemptEnded(rows[i], closed[i], j, g, now, status, error)
  {
  }

  lemma FinishEnds(s: State, h: Job, status: Status, error: Option<string>, delay: real)
    requires Inv(s) && h in s.issued && (status.Terminal() || status.Retrying?)
    requires Owned(s, h) && h.repo !in s.guards
    ensures h.id in s.jobs && h.worker.Some?
    ensures EndsWith(s, h, Finish(s, h, status, error, delay), if s.jobs[h.id].cancelRequested then Cancelled else status, error, delay)
  {
    hide Inv, ReleaseWorker, WorkerFreed, CloseRow, AttemptEnded, RowEnds, RowOk, ValidSettings;
    HolderRow(s, h);
    var final := if s.jobs[h.id].cancelRequested then Cancelled else status;
    FinishEndsRow(s, h, status, error, delay);
    ReleaseFrees(s, Finish(s, h, status, error, delay).state, h.worker.value, h.id, final);
    CloseEnds(s.attempts, h.id, h.generation, s.now, final, error);
  }

  lemma FinishEndsRow(s: State, h: Job, status: Status, error: Option<string>, delay: real)
    requires Inv(s) && h in s.issued && (status.Terminal() || status.Retrying?)
    requires Owned(s, h) && h.repo !in s.guards && h.id in s.jobs
    ensures RowEnds(s, h, Finish(s, h, status, error, delay), if s.jobs[h.id].cancelRequested then Cancelled else status, error, delay)
  {
    hide Inv, ReleaseWorker, CloseRow, RowOk, ValidSettings;
    HolderRow(s, h);
  }

  /** Finishing is for the owner alone, and waits while a guard is open on the repository. */
  lemma FinishRefuses(s: State, h: Job, status: Status, error: Option<string>, delay: real)
    requires !Owned(s, h) || h.repo in s.guards
    ensures Finish(s, h, status, error, delay) == Reply(s, Err(if Owned(s, h) then LockTimeout else LeaseLost))
  {
  }

  /** An error message as it is stored. */
  function Stored(error: string): string {
    if |error| <= 2000 then error else error[..2000]
  }

  /** Completing, cancelling and failing end the job, its attempt, its reservation and its worker's work together, each with its
      own status, unless a cancellation was requested; for anyone but the owner, and while a guard is open, they change
      nothing. */
  lemma EveryEndingHasItsStatus(s: State, h: Job, withErrors: bool, error: string)
    requires Inv(s) && h in s.issued
    ensures h.id in s.jobs && h.worker.Some?
    ensures var cancelled := s.jobs[h.id].cancelRequested;
            Owned(s, h) && h.repo !in s.guards ==>
              && EndsWith(s, h, CompleteJob(s, h, withErrors),
                          if cancelled then Cancelled else if withErrors then CompletedWithErrors else Completed, None, 0.0)
              && EndsWith(s, h, CancelJob(s, h), Cancelled, None, 0.0)
              && EndsWith(s, h, FailJob(s, h, error), if cancelled then Cancelled else Failed, Some(Stored(error)), 0.0)
    ensures var refused: Reply<Job> := Reply(s, Err(if Owned(s, h) then LockTimeout else LeaseLost));
            !Owned(s, h) || h.repo in s.guards ==>
              CompleteJob(s, h, withErrors) == refused && CancelJob(s, h) == refused && FailJob(s, h, error) == refused
  {
    hide Inv, EndsWith, Owned, Finish;
    HolderRow(s, h);
    if Owned(s, h) && h.repo !in s.guards {
      FinishEnds(s, h, if withErrors then CompletedWithErrors else Completed, None, 0.0);
      FinishEnds(s, h, Cancelled, None, 0.0);
      FinishEnds(s, h, Failed, Some(Truncate(error, 2000)), 0.0);
    } else {
      FinishRefuses(s, h, if withErrors then CompletedWithErrors else Completed, None, 0.0);
      FinishRefuses(s, h, Cancelled, None, 0.0);
      FinishRefuses(s, h, Failed, Some(Truncate(error, 2000)), 0.0);
    }
  }

  // ---------- retrying ----------

  /** The delay before a retry: the base for the first attempt, doubled for each further one up to the twenty-first, plus the
      jitter, and never more than the cap. These equations determine it. */
  lemma BackoffDoubles(c: Settings, attempt: nat, jitter: real)
    requires ValidSettings(c) && attempt >= 1 && jitter >= 0.0
    ensures Backoff(c, 1, 0.0) == MinReal(c.retryBase, c.retryMax)
    ensures attempt <= 20 ==> Backoff(c, attempt + 1, 0.0) == MinReal(2.0 * Backoff(c, attempt, 0.0), c.retryMax)
    ensures attempt > 20 ==> Backoff(c, attempt + 1, jitter) == Backoff(c, attempt, jitter)
    ensures Backoff(c, attempt, jitter) == MinReal(Backoff(c, attempt, 0.0) + jitter, c.retryMax)
  {
    hide Power2, Backoff;
    var product := c.retryBase * Power2(Min(attempt - 1, 20));
    var next := c.retryBase * Power2(Min(attempt, 20));
    BackoffOf(c, 1, 0.0, c.retryBase * Power2(0));
    BackoffOf(c, attempt, 0.0, product);
    BackoffOf(c, attempt, jitter, product);
    BackoffOf(c, attempt + 1, 0.0, next);
    BackoffOf(c, attempt + 1, jitter, next);
    assert Power2(0) == 1.0 by { PowerOfZero(); }
    if attempt <= 20 {
      NextPower(c.retryBase, attempt - 1);
    }
  }

  lemma PowerOfZero()
    ensures Power2(0) == 1.0
  {
  }

  lemma NextPower(base: real, n: nat)
    ensures base * Power2(n + 1) == 2.0 * (base * Power2(n))
  {
    var x := Power2(n);
    assert Power2(n + 1) == 2.0 * x;
    assert base * (2.0 * x) == 2.0 * (base * x);
  }

  /** What the owner of a failed attempt gets: a cancelled job ends as cancelled; at the end of its budget the job fails; before
      that it retries after the delay. Nobody else gets anything. */
  lemma RetryOrFail(s: State, h: Job, error: string, jitter: real)
    requires Inv(s) && h in s.issued
    ensures h.id in s.jobs && h.worker.Some?
    ensures var row := s.jobs[h.id];
            Owned(s, h) && h.repo !in s.guards ==>
              EndsWith(s, h, ScheduleRetry(s, h, error, jitter),
                       if row.cancelRequested then Cancelled else if row.attempt < row.maxAttempts then Retrying else Failed,
                       Some(Stored(error)), if row.attempt < row.maxAttempts then Backoff(s.cfg, row.attempt, jitter) else 0.0)
    ensures !Owned(s, h) || h.repo in s.guards ==>
              ScheduleRetry(s, h, error, jitter) == Reply(s, Err(if Owned(s, h) then LockTimeout else LeaseLost))
  {
    hide Inv, EndsWith, Finish, Backoff;
    HolderRow(s, h);
    if Owned(s, h) && h.repo !in s.guards {
      FinishEnds(s, h, Failed, Some(Truncate(error, 2000)), 0.0);
      FinishEnds(s, h, Retrying, Some(Truncate(error, 2000)), Backoff(s.cfg, h.attempt, jitter));
    } else {
      FinishRefuses(s, h, Failed, Some(Truncate(error, 2000)), 0.0);
      FinishRefuses(s, h, Retrying, Some(Truncate(error, 2000)), Backoff(s.cfg, h.attempt, jitter));
    }
  }

  /** A failed attempt of a job that nobody cancelled ends the job exactly when its budget is spent. Otherwise the job is
      retrying, and stays so in every continuation until it is cancelled or claimed again: it is not obtainable before the delay
      is over, and obtainable whenever the largest delay has passed while its repository is free and unguarded. */
  lemma RetriesRunAgain(s: State, h: Job, error: string, jitter: real, es: seq<Event>)
    requires Inv(s) && h in s.issued && Owned(s, h) && h.repo !in s.guards && !s.jobs[h.id].cancelRequested && jitter >= 0.0
    ensures var t := ScheduleRetry(s, h, error, jitter).state; var u := Run(t, es);
            && h.id in t.jobs && h.id in u.jobs
            && (t.jobs[h.id].status.Terminal() <==> s.jobs[h.id].attempt == s.jobs[h.id].maxAttempts)
            && (t.jobs[h.id].status.Terminal() ==> t.jobs[h.id].status == Failed && u.jobs[h.id] == t.jobs[h.id])
            && (!t.jobs[h.id].status.Terminal() ==> t.jobs[h.id].status == Retrying && t.jobs[h.id].generation == h.generation)
            && (!t.jobs[h.id].status.Terminal() && u.jobs[h.id].generation == h.generation && !u.jobs[h.id].cancelRequested ==>
                  && u.jobs[h.id].status == Retrying
                  && (u.now < s.now + MinReal(s.cfg.retryBase, s.cfg.retryMax) ==> !Obtainable(u, h.id))
                  && (s.now + s.cfg.retryMax <= u.now && h.repo in u.execution && u.execution[h.repo].None? && h.repo !in u.guards
                      ==> Obtainable(u, h.id)))
  {
    hide Inv, Run, ScheduleRetry, Backoff, Evolves, Owned, EndsWith, Obtainable, MinReal;
    var r := ScheduleRetry(s, h, error, jitter);
    var t, u := r.state, Run(r.state, es);
    HolderRow(s, h);
    OwnershipIsTheGeneration(s, h);
    RetryOrFail(s, h, error, jitter);
    ScheduleRetryInv(s, h, error, jitter);
    RunInv(t, es);
    if s.jobs[h.id].attempt < s.jobs[h.id].maxAttempts {
      var delay := Backoff(s.cfg, s.jobs[h.id].attempt, jitter);
      BackoffIsBounded(s.cfg, h.attempt, jitter, h.attempt);
      RowGivenUp(s, h, r, Retrying, Some(Stored(error)), delay);
      Waits(t, u, h.id, s.now + delay);
    } else {
      RowGivenUp(s, h, r, Failed, Some(Stored(error)), 0.0);
      TerminalIsFinal(t, es, h.id);
    }
  }

  lemma RowGivenUp(s: State, h: Job, r: Reply<Job>, status: Status, error: Option<string>, delay: real)
    requires h.id in s.jobs && h.worker.Some? && EndsWith(s, h, r, status, error, delay)
    ensures h.id in r.state.jobs
    ensures var b := r.state.jobs[h.id];
            && b.status == status && b.availableAt == s.now + delay && b.generation == s.jobs[h.id].generation
            && b.repo == s.jobs[h.id].repo && b.attempt == s.jobs[h.id].attempt && b.maxAttempts == s.jobs[h.id].maxAttempts
  {
    hide AttemptEnded, WorkerFreed;
  }

  /** A retrying job waits for its time, whatever else happens. */
  lemma Waits(t: State, u: State, j: JobId, due: Time)
    requires Inv(u) && Evolves(t, u) && j in t.jobs && t.jobs[j].status.Retrying? && t.jobs[j].availableAt == due
    ensures j in u.jobs && u.jobs[j].repo == t.jobs[j].repo
    ensures u.jobs[j].generation == t.jobs[j].generation && !u.jobs[j].cancelRequested ==>
              && u.jobs[j].status == Retrying
              && (u.now < due ==> !Obtainable(u, j))
              && (due <= u.now && u.jobs[j].repo in u.execution && u.execution[u.jobs[j].repo].None? && u.jobs[j].repo !in u.guards
                  ==> Obtainable(u, j))
  {
    hide Inv, AttemptsEvolve, Rows, Reservation, Handles, Guards;
    InvRows(u);
    assert JobEvolves(t.jobs[j], u.jobs[j], t.now);
    RowAt(u, j);
  }

  // ---------- keeping a job ----------

  /** A renewal by the owner moves the end of the lease, on the job and on its attempt alike, to one lease from now: until then
      the job stays owned and nobody can claim it, and at that instant it is lost. Nothing else changes. */
  lemma RenewalExtends(s: State, h: Job)
    requires Inv(s) && h in s.issued
    ensures h.id in s.jobs
    ensures var r := RenewLease(s, h); var t := r.state; var end := s.now + s.cfg.lease;
            if !Owned(s, h) then r == Reply(s, Err(LeaseLost))
            else
              && r.result == Ok(s.jobs[h.id].cancelRequested)
              && OnlyJob(s, t, h.id) && t.jobs[h.id] == s.jobs[h.id].(leaseExpiresAt := Some(end))
              && (forall later | s.now <= later < end :: Owned(t.(now := later), h) && !Claimable(t.(now := later), h.id))
              && !Owned(t.(now := end), h)
              && |t.attempts| == |s.attempts|
              && (forall i | 0 <= i < |s.attempts| ::
                    t.attempts[i] == if IsRow(s.attempts[i], h.id, h.generation)
                                     then s.attempts[i].(leaseExpiresAt := end) else s.attempts[i])
              && t == s.(jobs := t.jobs, attempts := t.attempts)
  {
    hide Inv;
    HolderRow(s, h);
  }

  /** A report by the owner replaces the job's counters, with done as their sum, and adds a file error exactly when it names a
      path and an error. */
  lemma ProgressIsRecorded(s: State, h: Job, p: Progress, path: string, error: string)
    requires Inv(s) && h in s.issued
    ensures h.id in s.jobs
    ensures var r := UpdateProgress(s, h, p, path, error); var t := r.state;
            if !Owned(s, h) then r == Reply(s, Err(LeaseLost))
            else
              && r.result.Ok? && OnlyJob(s, t, h.id)
              && t.jobs[h.id] == s.jobs[h.id].(progress := t.jobs[h.id].progress)
              && (var q := t.jobs[h.id].progress;
                  && q.total == p.total && q.indexedChunks == p.indexedChunks
                  && q.indexedFiles == p.indexedFiles && q.deletedFiles == p.deletedFiles
                  && q.skippedFiles == p.skippedFiles && q.errorCount == p.errorCount
                  && q.done == q.indexedFiles + q.skippedFiles + q.deletedFiles + q.errorCount)
              && (path == "" || error == "" ==> t.fileErrors == s.fileErrors)
              && (path != "" && error != "" ==>
                    t.fileErrors == s.fileErrors + [FileError(h.id, h.generation, path, Stored(error))])
              && t == s.(jobs := t.jobs, fileErrors := t.fileErrors)
  {
    hide Inv;
    HolderRow(s, h);
  }

  /** The guard opens for the owner alone, while nobody else is inside, and is open until it is left; what is written inside
      goes to the log in the author's name, under its own claim. Outside nothing is written. */
  lemma GuardAdmitsTheOwner(s: State, h: Job)
    requires Inv(s) && h in s.issued
    ensures h.id in s.jobs
    ensures var r := EnterGuard(s, h);
            && (r.result.Ok? <==> Owned(s, h) && h.repo !in s.guards)
            && (r.result.Ok? ==> r == Reply(s.(guards := s.guards[h.repo := h]), Ok(s.jobs[h.id].cancelRequested)))
            && (r.result.Err? ==> r == Reply(s, Err(if h.repo in s.guards then LockTimeout else LeaseLost)))
    ensures var t := LeaveGuard(s, h.repo);
            h.repo !in t.guards && t == s.(guards := t.guards)
            && forall r | r != h.repo :: (r in t.guards <==> r in s.guards) && (r in s.guards ==> t.guards[r] == s.guards[r])
    ensures var t := GuardedWrite(s, h);
            && (!(h.repo in s.guards && s.guards[h.repo] == h) ==> t == s)
            && (h.repo in s.guards && s.guards[h.repo] == h ==>
                  && t == s.(writes := t.writes) && |t.writes| == |s.writes| + 1 && s.writes <= t.writes
                  && var w := t.writes[|s.writes|];
                     && w.repo == h.repo && w.job == h.id && w.generation == h.generation && w.claim < |s.attempts|
                     && s.attempts[w.claim].job == h.id && s.attempts[w.claim].generation == h.generation)
  {
    hide Inv, Writes, UniqueKeys, Forest, Watching, Guards, AttemptRows, UniqueRows, Links, Timeline, HasRow;
    HolderRow(s, h);
    OwnershipIsTheGeneration(s, h);
    InvParts(s);
    HolderHasRow(s, h);
  }

  /** Whatever snapshot it is given, issued or not, the guard opens only for the job that has the reservation. */
  lemma GuardNeedsTheReservation(s: State, h: Job)
    requires EnterGuard(s, h).result.Ok?
    ensures h.repo in s.execution && s.execution[h.repo] == Some(h.id) && h.repo !in s.guards && Owned(s, h)
  {
  }

  lemma HolderHasRow(s: State, h: Job)
    requires CompleteRows(s) && HandleOk(s, h)
    ensures HasRow(s.attempts, h.id, h.generation)
  {
    hide HasRow;
  }
}
