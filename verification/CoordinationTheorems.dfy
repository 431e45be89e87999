/** What the protocol promises over whole runs, stated about any run from any reachable state. */
module CoordinationTheorems {
  import opened Basics
  import opened Coordination
  import opened CoordinationInvariants
  import opened CoordinationSteps
  import opened CoordinationRuns

  // ---------- reservation ----------

  /** active_job_id[r]=j exactly when j is a running job of r; so at most one job runs per repository, which is
      what the partial unique index on running jobs checks. */
  lemma ReservationIsExact(c: Settings, now: Time, es: seq<Event>, j: JobId, k: JobId)
    requires ValidSettings(c)
    requires var s := Run(Initial(c, now), es); j in s.jobs && k in s.jobs
    ensures var s := Run(Initial(c, now), es);
            && s.jobs[j].repo in s.execution
            && (s.execution[s.jobs[j].repo] == Some(j) <==> s.jobs[j].status.Running?)
            && (s.jobs[j].status.Running? && s.jobs[k].status.Running? && s.jobs[j].repo == s.jobs[k].repo ==> j == k)
  {
    hide Run, Inv;
    ReachableInv(c, now, es);
    InvRows(Run(Initial(c, now), es));
    RowAt(Run(Initial(c, now), es), j);
  }

  /** No reachable row trips a constraint of the schema: the checks on jobs, and the unique keys and parents. */
  lemma ConstraintsHold(c: Settings, now: Time, es: seq<Event>, j: JobId, k: JobId)
    requires ValidSettings(c)
    requires var s := Run(Initial(c, now), es); j in s.jobs && k in s.jobs
    ensures var s := Run(Initial(c, now), es);
            var a, b := s.jobs[j], s.jobs[k];
            && ValidMode(a.mode) && a.maxAttempts > 0
            && (a.status.Running? <==> a.worker.Some? && a.leaseExpiresAt.Some?)
            && (!a.status.Running? ==> a.worker.None? && a.leaseExpiresAt.None?)
            && (a.key.Some? && a.key == b.key ==> j == k)
            && (a.parent.Some? && a.parent == b.parent ==> j == k)
  {
    hide Run, Inv, Rows, RowOk, Guards, Handles, Writes, History, Watching, Reservation;
    var s := Run(Initial(c, now), es);
    ReachableInv(c, now, es);
    InvRows(s);
    InvUnique(s);
    RowChecks(s, j);
  }

  lemma InvUnique(s: State)
    requires Inv(s)
    ensures UniqueKeys(s) && Forest(s)
  {
    hide Rows, Guards, Handles, Writes, History, Watching, Reservation, UniqueKeys, Forest;
  }

  lemma RowChecks(s: State, j: JobId)
    requires Rows(s) && j in s.jobs
    ensures var a := s.jobs[j];
            && ValidMode(a.mode) && a.maxAttempts > 0
            && (a.status.Running? <==> a.worker.Some?) && (a.status.Running? <==> a.leaseExpiresAt.Some?)
  {
    RowAt(s, j);
  }

  /** The hidden budget: whatever still waits may run, so the cleanup branch of claim_job only ever meets
      expired running jobs. */
  lemma BudgetOfWaitingJobs(c: Settings, now: Time, es: seq<Event>, j: JobId)
    requires ValidSettings(c)
    requires j in Run(Initial(c, now), es).jobs
    ensures var s := Run(Initial(c, now), es);
            && (s.jobs[j].status.Waiting() ==> !s.jobs[j].cancelRequested && s.jobs[j].attempt < s.jobs[j].maxAttempts)
            && s.jobs[j].attempt <= s.jobs[j].maxAttempts
            && (Claimable(s, j) && Exhausted(s.jobs[j]) ==> s.jobs[j].status.Running?)
  {
    hide Run, Inv;
    ReachableInv(c, now, es);
    InvRows(Run(Initial(c, now), es));
    RowAt(Run(Initial(c, now), es), j);
  }

  // ---------- storage fencing ----------

  ghost predicate SameAuthor(a: StorageWrite, b: StorageWrite) {
    a.job == b.job && a.generation == b.generation
  }

  /** Per repository, once another author has written, an earlier author never writes again. */
  ghost predicate ConsecutiveBlocks(log: seq<StorageWrite>) {
    forall p, q, m :: 0 <= p < q < m < |log| && log[p].repo == log[q].repo == log[m].repo && SameAuthor(log[p], log[m]) ==>
      SameAuthor(log[p], log[q])
  }

  lemma WritesFormBlocksIn(s: State)
    requires UniqueRows(s.attempts) && Writes(s)
    ensures ConsecutiveBlocks(s.writes)
  {
    forall p, q, m | 0 <= p < q < m < |s.writes| && s.writes[p].repo == s.writes[q].repo == s.writes[m].repo
                     && SameAuthor(s.writes[p], s.writes[m])
      ensures SameAuthor(s.writes[p], s.writes[q])
    {
      assert WriteOk(s, s.writes[p]) && WriteOk(s, s.writes[q]) && WriteOk(s, s.writes[m]);
      assert s.writes[p].claim <= s.writes[q].claim <= s.writes[m].claim;
    }
  }

  /** For every run: each repository's storage writes are consecutive blocks by one (job, generation). */
  lemma WritesFormBlocks(c: Settings, now: Time, es: seq<Event>)
    requires ValidSettings(c)
    ensures ConsecutiveBlocks(Run(Initial(c, now), es).writes)
  {
    hide Run, Inv, Rows, Reservation, Guards, UniqueKeys, Forest, Watching, Handles;
    ReachableInv(c, now, es);
    var s := Run(Initial(c, now), es);
    assert Writes(s) && UniqueRows(s.attempts) by { InvParts(s); }
    WritesFormBlocksIn(s);
  }

  lemma InvParts(s: State)
    requires Inv(s)
    ensures AttemptRows(s) && UniqueRows(s.attempts) && CompleteRows(s) && Links(s.attempts) && Timeline(s)
    ensures Writes(s) && UniqueKeys(s) && Forest(s) && Watching(s) && Guards(s)
  {
    hide Rows, Reservation, Guards, UniqueKeys, Forest, Watching, Handles, Writes, AttemptRows, UniqueRows, CompleteRows, Links, Timeline;
  }

  /** A lost lease: the snapshot was handed out by a claim and no longer satisfies OWNED. */
  ghost predicate Lost(s: State, h: Job) {
    h in s.issued && !Owned(s, h)
  }

  lemma LostStays(s: State, t: State, h: Job)
    requires HandleOk(s, h) && Lost(s, h) && Evolves(s, t)
    requires RowOk(h.id, s.jobs[h.id])
    ensures Lost(t, h)
  {
    assert JobEvolves(s.jobs[h.id], t.jobs[h.id], s.now);
  }

  lemma LostStaysIn(s: State, t: State, h: Job)
    requires Inv(s) && Lost(s, h) && Evolves(s, t)
    ensures Lost(t, h)
  {
    hide Inv, Rows, Reservation, Handles, Guards, Evolves, Owned;
    InvRows(s);
    HandleAt(s, h);
    RowAt(s, h.id);
    LostStays(s, t, h);
  }

  /** An expired lease is never revived under its own generation, not even if nobody claims the job: whatever
      happens later, ownership stays lost, so every fenced update with that snapshot fails. */
  lemma OwnershipLossIsPermanent(s: State, es: seq<Event>, h: Job)
    requires Inv(s) && Lost(s, h)
    ensures Lost(Run(s, es), h)
    ensures var t := Run(s, es);
            && AssertOwnership(t, h).Err? && RenewLease(t, h).result.Err? && EnterGuard(t, h).result.Err?
            && CompleteJob(t, h, false).result.Err? && CompleteJob(t, h, true).result.Err? && CancelJob(t, h).result.Err?
            && (forall error, jitter :: ScheduleRetry(t, h, error, jitter) == Reply(t, Err(LeaseLost)))
            && (forall p, path, error :: UpdateProgress(t, h, p, path, error) == Reply(t, Err(LeaseLost)))
  {
    hide Run, Inv, Evolves;
    RunInv(s, es);
    LostStaysIn(s, Run(s, es), h);
  }

  /** At most one finish, retry or cancellation succeeds per (job, generation): success gives the lease up. */
  lemma FinishSurrendersOwnership(s: State, h: Job, status: Status, error: Option<string>, delay: real)
    requires Inv(s) && h in s.issued && (status.Terminal() || (status.Retrying? && h.attempt < h.maxAttempts))
    requires Finish(s, h, status, error, delay).result.Ok?
    ensures var t := Finish(s, h, status, error, delay).state;
            && Inv(t) && Lost(t, h)
            && forall es, later, e, d :: Finish(Run(t, es), h, later, e, d) == Reply(Run(t, es), Err(LeaseLost))
  {
    hide Inv, Evolves;
    FinishInv(s, h, status, error, delay);
    var t := Finish(s, h, status, error, delay).state;
    forall es, later, e, d ensures Finish(Run(t, es), h, later, e, d) == Reply(Run(t, es), Err(LeaseLost)) {
      OwnershipLossIsPermanent(t, es, h);
    }
  }

  ghost predicate WrittenBy(w: StorageWrite, h: Job) {
    w.job == h.id && w.generation == h.generation
  }

  lemma ClaimKeepsGuards(s: State, w: WorkerId, rounds: nat)
    requires w in s.workers
    ensures ClaimRounds(s, w, rounds).0.guards == s.guards && ClaimRounds(s, w, rounds).0.writes == s.writes
    decreases rounds
  {
    var c := Candidate(s);
    if rounds > 0 && c.Some? && Exhausted(s.jobs[c.value]) {
      ClaimKeepsGuards(Discard(s, c.value), w, rounds - 1);
    }
  }

  /** A guard opens only for an owner. */
  ghost predicate GuardsOpenedByOwners(s: State, t: State) {
    forall r | r in t.guards ::
      || (r in s.guards && s.guards[r] == t.guards[r])
      || (Owned(s, t.guards[r]) && t.guards[r].repo == r)
  }

  /** Only the holder of an open guard writes. */
  ghost predicate WrittenByHolder(s: State, t: State, e: Event) {
    || t.writes == s.writes
    || (&& |t.writes| == |s.writes| + 1 && s.writes <= t.writes
        && e.StorageWritten? && Guarding(s, e.handle) && e.handle in s.issued
        && WrittenBy(t.writes[|s.writes|], e.handle))
  }

  lemma HolderStepGuards(s: State, e: Event)
    requires e.Holder().Some?
    ensures GuardsOpenedByOwners(s, Step(s, e)) && WrittenByHolder(s, Step(s, e), e)
  {
    hide Owned;
  }

  lemma SubmitKeepsGuards(s: State, repo: RepoId, mode: string, key: Option<string>, priority: int, newId: JobId)
    ensures var t := SubmitJob(s, repo, mode, key, priority, newId).state; t.guards == s.guards && t.writes == s.writes
  {
  }

  lemma ResubmitKeepsGuards(s: State, job: JobId, newId: JobId)
    ensures var t := ResubmitJob(s, job, newId).state; t.guards == s.guards && t.writes == s.writes
  {
  }

  lemma SubmissionStepGuards(s: State, e: Event)
    requires e.Submitted? || e.Resubmitted? || e.LegacyImported?
    ensures Step(s, e).guards == s.guards && Step(s, e).writes == s.writes
  {
    hide SubmitJob, ResubmitJob;
    match e
    case Submitted(repo, mode, key, priority, newId) => SubmitKeepsGuards(s, repo, mode, key, priority, newId);
    case Resubmitted(job, newId) => ResubmitKeepsGuards(s, job, newId);
    case LegacyImported(rows) => ImportFrame(s, rows);
  }

  lemma ObserveStepGuards(s: State, e: Event)
    requires e.WatchObserved?
    ensures Step(s, e).guards == s.guards && Step(s, e).writes == s.writes
  {
  }

  lemma PlainStepGuards(s: State, e: Event)
    requires e.Holder().None? && !(e.Submitted? || e.Resubmitted? || e.WatchObserved? || e.LegacyImported?)
    ensures Step(s, e).writes == s.writes
    ensures forall r | r in Step(s, e).guards :: r in s.guards && s.guards[r] == Step(s, e).guards[r]
  {
    if e.ClaimPolled? && Registered(s, e.worker, e.session) {
      ClaimKeepsGuards(s, e.worker, CLAIM_ROUNDS);
    }
  }

  lemma StepGuards(s: State, e: Event)
    ensures GuardsOpenedByOwners(s, Step(s, e)) && WrittenByHolder(s, Step(s, e), e)
  {
    hide Step;
    if e.Holder().Some? {
      HolderStepGuards(s, e);
    } else if e.WatchObserved? {
      ObserveStepGuards(s, e);
    } else if e.Submitted? || e.Resubmitted? || e.LegacyImported? {
      SubmissionStepGuards(s, e);
    } else {
      PlainStepGuards(s, e);
    }
  }

  ghost predicate Outside(s: State, h: Job) {
    Lost(s, h) && !Guarding(s, h)
  }

  lemma OutsideStep(s: State, e: Event, h: Job)
    requires Inv(s) && Outside(s, h)
    ensures var t := Step(s, e); Inv(t) && Outside(t, h) && s.writes <= t.writes
    ensures var t := Step(s, e); forall p :: |s.writes| <= p < |t.writes| ==> !WrittenBy(t.writes[p], h)
  {
    hide Inv, Evolves, Owned, Step, Rows, Reservation, Handles;
    var t := Step(s, e);
    StepInv(s, e);
    StepGuards(s, e);
    LostStaysIn(s, t, h);
    if t.writes != s.writes && WrittenBy(t.writes[|s.writes|], h) {
      InvRows(s);
      SnapshotsUnique(s, e.handle, h);
    }
  }

  lemma SnapshotsUnique(s: State, h: Job, k: Job)
    requires Guards(s) && Handles(s) && Guarding(s, h) && k in s.issued && h.id == k.id && h.generation == k.generation
    ensures h == k
  {
  }

  /** A superseded author never writes again: once its lease is lost and it is not inside a guard, no later
      step of any run writes on behalf of that (job, generation). */
  lemma {:induction false} SupersededNeverWrites(s: State, es: seq<Event>, h: Job)
    requires Inv(s) && Outside(s, h)
    ensures s.writes <= Run(s, es).writes
    ensures var t := Run(s, es); forall p :: |s.writes| <= p < |t.writes| ==> !WrittenBy(t.writes[p], h)
    decreases |es|
  {
    hide Inv, Outside, Step;
    if es != [] {
      OutsideStep(s, es[0], h);
      SupersededNeverWrites(Step(s, es[0]), es[1..], h);
    }
  }

  /** While a guard is held its holder stays the repository's running claim, even past its lease expiry: no
      candidate of that repository is visible to claim_job, and the job cannot be finished by anyone. */
  lemma GuardExcludesTakeover(c: Settings, now: Time, es: seq<Event>, r: RepoId)
    requires ValidSettings(c)
    requires r in Run(Initial(c, now), es).guards
    ensures var s := Run(Initial(c, now), es); var h := s.guards[r];
            && h.id in s.jobs && s.jobs[h.id].status.Running? && s.jobs[h.id].generation == h.generation
            && r in s.execution && s.execution[r] == Some(h.id)
            && (forall j | j in s.jobs && s.jobs[j].repo == r :: !Claimable(s, j))
            && (forall k, status, error, delay | k in s.issued && k.repo == r :: Finish(s, k, status, error, delay).state == s)
  {
    hide Run, Inv;
    ReachableInv(c, now, es);
    InvRows(Run(Initial(c, now), es));
  }

  // ---------- absorbing states ----------

  lemma TerminalIsFinal(s: State, es: seq<Event>, j: JobId)
    requires Inv(s) && j in s.jobs && s.jobs[j].status.Terminal()
    ensures j in Run(s, es).jobs && Run(s, es).jobs[j] == s.jobs[j]
  {
    hide Run, Inv, AttemptsEvolve;
    RunInv(s, es);
  }

  /** A cancelled live job is never claimed again, and can only end as cancelled. */
  lemma CancellationWins(s: State, es: seq<Event>, j: JobId)
    requires Inv(s) && j in s.jobs && s.jobs[j].cancelRequested && !s.jobs[j].status.Terminal()
    ensures j in Run(s, es).jobs
    ensures var b := Run(s, es).jobs[j];
            && b.cancelRequested && b.generation == s.jobs[j].generation && b.attempt == s.jobs[j].attempt
            && (b.status.Terminal() ==> b.status.Cancelled?)
  {
    hide Run, Inv, AttemptsEvolve;
    RunInv(s, es);
  }

  /** Attempt rows that ended are history: nothing rewrites them. */
  lemma EndedAttemptsAreFinal(s: State, es: seq<Event>, i: nat)
    requires Inv(s) && i < |s.attempts| && s.attempts[i].endedAt.Some?
    ensures i < |Run(s, es).attempts| && Run(s, es).attempts[i] == s.attempts[i]
  {
    hide Run, Inv, JobsEvolve;
    RunInv(s, es);
    assert AttemptEvolves(s.attempts[i], Run(s, es).attempts[i]);
  }

  // ---------- termination ----------

  function Fuel(job: Job): int {
    if job.status.Terminal() then 0
    else 2 * (job.maxAttempts - job.attempt) + (if job.status.Running? then 1 else 0)
  }

  ghost predicate Moved(a: Job, b: Job) {
    a.status != b.status || a.generation != b.generation
  }

  lemma FuelFalls(a: Job, b: Job, now: Time)
    requires RowOk(a.id, a) && RowOk(b.id, b) && JobEvolves(a, b, now)
    ensures 0 <= Fuel(b) <= Fuel(a)
    ensures Moved(a, b) ==> Fuel(b) < Fuel(a)
  {
  }

  /** How often a run claims, reclaims, retries, finishes or cancels job j. */
  ghost function Moves(s: State, es: seq<Event>, j: JobId): nat
    decreases |es|
  {
    if es == [] then 0
    else
      var t := Step(s, es[0]);
      (if j in s.jobs && j in t.jobs && Moved(s.jobs[j], t.jobs[j]) then 1 else 0) + Moves(t, es[1..], j)
  }

  lemma {:induction false} PowersGrow(n: nat, m: nat)
    requires n <= m
    ensures 1.0 <= Power2(n) <= Power2(m)
    decreases m
  {
    if m > n {
      PowersGrow(n, m - 1);
    } else if n > 0 {
      PowersGrow(n - 1, n - 1);
    }
  }

  /** One capped product, for factors that are at least one and grow. */
  lemma CappedProducts(base: real, x: real, y: real, jitter: real, cap: real)
    requires base > 0.0 && jitter >= 0.0 && 1.0 <= x <= y
    ensures MinReal(base, cap) <= MinReal(base * x + jitter, cap) <= MinReal(base * y + jitter, cap) <= cap
  {
    assert base * (x - 1.0) >= 0.0;
    assert base * (y - x) >= 0.0;
    assert base * x == base + base * (x - 1.0);
    assert base * y == base * x + base * (y - x);
  }

  /** The delay lies between the base, or the cap if smaller, and the cap, and doubling attempts never shorten it. */
  lemma BackoffIsBounded(c: Settings, attempt: nat, jitter: real, more: nat)
    requires ValidSettings(c) && 1 <= attempt <= more && jitter >= 0.0
    ensures MinReal(c.retryBase, c.retryMax) <= Backoff(c, attempt, jitter) <= Backoff(c, more, jitter) <= c.retryMax
  {
    hide Power2, MinReal;
    PowersGrow(Min(attempt - 1, 20), Min(more - 1, 20));
    CappedProducts(c.retryBase, Power2(Min(attempt - 1, 20)), Power2(Min(more - 1, 20)), jitter, c.retryMax);
  }

  lemma Doubled(n: nat, m: nat)
    requires n < m
    ensures 2.0 * Power2(n) <= Power2(m)
  {
    PowersGrow(n, m - 1);
  }

  lemma DoubledProducts(base: real, x: real, y: real, p: real, q: real)
    requires base > 0.0 && 1.0 <= x && 2.0 * x <= y && p == base * x && q == base * y
    ensures p + base <= q
  {
    assert base * (x - 1.0) >= 0.0;
    assert base * (y - 2.0 * x) >= 0.0;
    assert base * x == base + base * (x - 1.0);
    assert base * y == base * x + base * x + base * (y - 2.0 * x);
  }

  lemma BackoffOf(c: Settings, attempt: nat, jitter: real, product: real)
    requires attempt >= 1 && product == c.retryBase * Power2(Min(attempt - 1, 20))
    ensures Backoff(c, attempt, jitter) == MinReal(product + jitter, c.retryMax)
  {
    hide Power2, MinReal;
  }

  lemma DoublingCoversJitter(c: Settings, attempt: nat, jitter: real, more: nat, later: real)
    requires ValidSettings(c) && 1 <= attempt < more && attempt <= 20 && 0.0 <= jitter <= c.retryBase && later >= 0.0
    ensures Backoff(c, attempt, jitter) <= Backoff(c, more, later)
  {
    hide Power2, Backoff;
    var x, y := Power2(Min(attempt - 1, 20)), Power2(Min(more - 1, 20));
    var p, q := c.retryBase * x, c.retryBase * y;
    Doubled(Min(attempt - 1, 20), Min(more - 1, 20));
    PowersGrow(Min(attempt - 1, 20), Min(attempt - 1, 20));
    DoubledProducts(c.retryBase, x, y, p, q);
    BackoffOf(c, attempt, jitter, p);
    BackoffOf(c, more, later, q);
  }

  /** Beyond the largest exponent the base product is the same for all attempts. */
  lemma LateBackoffs(c: Settings, attempt: nat, jitter: real, more: nat, later: real, product: real)
    requires attempt > 20 && more > 20 && product == c.retryBase * Power2(20) && jitter >= 0.0 && later >= 0.0
    ensures product >= c.retryMax ==> Backoff(c, attempt, jitter) == Backoff(c, more, later)
    ensures product < c.retryMax && jitter > 0.0 && later == 0.0 ==> Backoff(c, attempt, jitter) > Backoff(c, more, later)
  {
    hide Power2, Backoff;
    BackoffOf(c, attempt, jitter, product);
    BackoffOf(c, more, later, product);
  }

  /** Each retry draws its own jitter up to the base. A later attempt never waits less, whatever the two draws are, exactly
      when the doubling has not reached its largest exponent yet or the cap has cut it off. */
  lemma BackoffGrows(c: Settings, attempt: nat, more: nat)
    requires ValidSettings(c) && 1 <= attempt < more
    ensures (forall jitter: real, later: real | 0.0 <= jitter <= c.retryBase && 0.0 <= later <= c.retryBase ::
               Backoff(c, attempt, jitter) <= Backoff(c, more, later))
            <==> attempt <= 20 || c.retryBase * Power2(20) >= c.retryMax
  {
    hide Power2, Backoff;
    var product := c.retryBase * Power2(20);
    if attempt <= 20 || product >= c.retryMax {
      forall jitter: real, later: real | 0.0 <= jitter <= c.retryBase && 0.0 <= later <= c.retryBase
        ensures Backoff(c, attempt, jitter) <= Backoff(c, more, later) {
        if attempt <= 20 {
          DoublingCoversJitter(c, attempt, jitter, more, later);
        } else {
          LateBackoffs(c, attempt, jitter, more, later, product);
        }
      }
    } else {
      LateBackoffs(c, attempt, c.retryBase, more, 0.0, product);
    }
  }

  lemma OwnedAttempt(s: State, h: Job)
    requires Inv(s) && h in s.issued && Owned(s, h)
    ensures ValidSettings(s.cfg) && h.attempt >= 1
  {
    hide Guards, Writes, History, Watching, Reservation, UniqueKeys, Forest;
    HandleAt(s, h);
    RowAt(s, h.id);
  }

  /** A scheduled retry gives up the lease and the reservation, and nobody can claim the job before its delay is over. */
  lemma RetryWaitsOutBackoff(c: Settings, now: Time, es: seq<Event>, h: Job, error: string, jitter: real, later: Time)
    requires ValidSettings(c) && jitter >= 0.0
    requires var s := Run(Initial(c, now), es); h in s.issued && ScheduleRetry(s, h, error, jitter).result.Ok?
    ensures var s := Run(Initial(c, now), es); var t := ScheduleRetry(s, h, error, jitter).state;
            && h.id in t.jobs && !t.jobs[h.id].status.Running?
            && (t.jobs[h.id].status.Retrying? && later < s.now + MinReal(s.cfg.retryBase, s.cfg.retryMax)
                ==> !Claimable(t.(now := later), h.id))
            && (t.jobs[h.id].status.Retrying? ==> h.attempt < h.maxAttempts)
  {
    hide Run, Inv, Backoff, CloseRow, ReleaseWorker;
    var s := Run(Initial(c, now), es);
    ReachableInv(c, now, es);
    OwnedAttempt(s, h);
    if h.attempt < h.maxAttempts {
      BackoffIsBounded(s.cfg, h.attempt, jitter, h.attempt);
    }
  }

  /** Every claim, reclaim, retry, finish and cancel of a job burns fuel; nothing gives it back. */
  lemma {:induction false} MovesBurnFuel(s: State, es: seq<Event>, j: JobId)
    requires Inv(s) && j in s.jobs
    ensures j in Run(s, es).jobs
    ensures Moves(s, es, j) + Fuel(Run(s, es).jobs[j]) <= Fuel(s.jobs[j])
    ensures 0 <= Fuel(Run(s, es).jobs[j])
    decreases |es|
  {
    hide Inv, Step, Rows, Reservation, Handles, Guards, AttemptsEvolve, Fuel, Moved, JobEvolves;
    InvRows(s);
    RowAt(s, j);
    if es == [] {
      assert JobEvolves(s.jobs[j], s.jobs[j], s.now) by { EvolvesRefl(s); }
      FuelFalls(s.jobs[j], s.jobs[j], s.now);
    } else {
      var t := Step(s, es[0]);
      StepInv(s, es[0]);
      InvRows(t);
      RowAt(t, j);
      FuelFalls(s.jobs[j], t.jobs[j], s.now);
      MovesBurnFuel(t, es[1..], j);
    }
  }

  /** The measure of all the jobs in a set with ids below n, as the rows in jobs have it. */
  function TotalFuel(jobs: map<JobId, Job>, ids: set<JobId>, n: nat): int {
    if n == 0 then 0 else TotalFuel(jobs, ids, n - 1) + if n - 1 in ids && n - 1 in jobs then Fuel(jobs[n - 1]) else 0
  }

  ghost function TotalMoves(s: State, es: seq<Event>, ids: set<JobId>, n: nat): nat
    decreases n
  {
    if n == 0 then 0 else TotalMoves(s, es, ids, n - 1) + if n - 1 in ids then Moves(s, es, n - 1) else 0
  }

  /** The system's measure: the moves a run makes with all the jobs there were never exceed what they lose together. With n
      above every id these are all jobs, and in a run that inserts none these are all moves. */
  lemma {:induction false} AllMovesBurnFuel(s: State, es: seq<Event>, n: nat)
    requires Inv(s)
    ensures var t := Run(s, es);
            && TotalMoves(s, es, s.jobs.Keys, n) + TotalFuel(t.jobs, s.jobs.Keys, n) <= TotalFuel(s.jobs, s.jobs.Keys, n)
            && 0 <= TotalFuel(t.jobs, s.jobs.Keys, n)
    decreases n
  {
    hide Inv, Run, Moves, Fuel;
    if n > 0 {
      AllMovesBurnFuel(s, es, n - 1);
      if n - 1 in s.jobs {
        MovesBurnFuel(s, es, n - 1);
      }
    }
  }

  lemma {:induction false} OneMoveCounts(s: State, es: seq<Event>, j: JobId, n: nat)
    requires j in s.jobs && j < n
    ensures Moves(s, es, j) <= TotalMoves(s, es, s.jobs.Keys, n)
    decreases n
  {
    hide Moves;
    if n > 0 && j < n - 1 {
      OneMoveCounts(s, es, j, n - 1);
    }
  }

  /** A move of any job lowers it. */
  lemma EveryMoveLowersTheSum(s: State, e: Event, j: JobId, n: nat)
    requires Inv(s) && j in s.jobs && j < n
    requires var t := Step(s, e); j in t.jobs && Moved(s.jobs[j], t.jobs[j])
    ensures TotalFuel(Step(s, e).jobs, s.jobs.Keys, n) < TotalFuel(s.jobs, s.jobs.Keys, n)
  {
    hide Inv, Step, Moved, TotalFuel, TotalMoves;
    assert Moves(s, [e], j) == 1 by { assert [e][1..] == []; }
    assert Run(s, [e]) == Step(s, e) by { assert [e][1..] == []; }
    AllMovesBurnFuel(s, [e], n);
    OneMoveCounts(s, [e], j, n);
  }

  /** A submitted job makes at most 2 * max_attempts moves, and is claimed at most max_attempts times. */
  lemma SubmittedJobsTerminate(s: State, repo: RepoId, mode: string, key: Option<string>, priority: int, newId: JobId, es: seq<Event>)
    requires Inv(s) && newId !in s.jobs
    requires var r := SubmitJob(s, repo, mode, key, priority, newId); r.result.Ok? && r.result.value.id == newId
    ensures var t := SubmitJob(s, repo, mode, key, priority, newId).state;
            && Moves(t, es, newId) <= 2 * s.cfg.maxRetries
            && newId in Run(t, es).jobs && Run(t, es).jobs[newId].generation <= s.cfg.maxRetries
  {
    hide Inv, AttemptsEvolve, Moves, Run, Rows, Reservation, Handles, Guards;
    var t := SubmitJob(s, repo, mode, key, priority, newId).state;
    SubmitInv(s, repo, mode, key, priority, newId);
    assert t.jobs[newId] == NewJob(EnsureExecution(s, repo), newId, repo, mode, key, priority, Manual, None) by {
      KeyedElsewhere(s, repo, mode, key, priority, newId);
    }
    MovesBurnFuel(t, es, newId);
    RunInv(t, es);
    InvRows(Run(t, es));
    RowAt(Run(t, es), newId);
  }

  // ---------- no deadlock ----------

  lemma {:induction false} FirstAmong(s: State, among: set<JobId>) returns (first: JobId)
    requires among != {} && forall j | j in among :: j in s.jobs && s.jobs[j].id == j
    ensures first in among && forall k | k in among && k != first :: Precedes(s.jobs[first], s.jobs[k])
    decreases among
  {
    var j :| j in among;
    if among == {j} {
      first := j;
    } else {
      var rest := FirstAmong(s, among - {j});
      first := if Precedes(s.jobs[j], s.jobs[rest]) then j else rest;
      forall k | k in among && k != first ensures Precedes(s.jobs[first], s.jobs[k]) {
        if k != j && k != rest {
          assert k in among - {j};
        }
      }
    }
  }

  /** The query returns a row whenever one qualifies. */
  lemma CandidateFound(s: State, j: JobId)
    requires Rows(s) && Claimable(s, j)
    ensures Candidate(s).Some?
  {
    var among := set k | k in s.jobs && Claimable(s, k);
    assert forall k | k in among :: RowOk(k, s.jobs[k]);
    assert j in among;
    var first := FirstAmong(s, among);
    assert IsFirst(s, first);
  }

  ghost predicate Due(s: State, j: JobId)
    requires j in s.jobs
  {
    && (s.jobs[j].status.Waiting() ==> s.jobs[j].availableAt <= s.now)
    && (s.jobs[j].status.Running? && s.jobs[j].leaseExpiresAt.Some? ==> s.jobs[j].leaseExpiresAt.value <= s.now)
  }

  /** With no guard held and every availability and lease time passed, unfinished work is always claimable. */
  lemma NoDeadlock(s: State, j: JobId)
    requires Rows(s) && Reservation(s) && s.guards == map[]
    requires j in s.jobs && !s.jobs[j].status.Terminal()
    requires forall i | i in s.jobs :: Due(s, i)
    ensures Candidate(s).Some?
  {
    RowAt(s, j);
    var holder := s.execution[s.jobs[j].repo];
    var c := if holder.Some? then holder.value else j;
    RowAt(s, c);
    assert Due(s, c) && Due(s, j);
    CandidateFound(s, c);
  }

  /** So a poll by a registered worker then either obtains a job or buries an exhausted one. */
  lemma PollMakesProgress(c: Settings, now: Time, es: seq<Event>, j: JobId, w: WorkerId, session: Session)
    requires ValidSettings(c)
    requires var s := Run(Initial(c, now), es);
             && s.guards == map[] && j in s.jobs && !s.jobs[j].status.Terminal() && Registered(s, w, session)
             && (forall i | i in s.jobs :: Due(s, i))
    ensures var s := Run(Initial(c, now), es); var r := ClaimJob(s, w, session);
            && r.result.Ok?
            && (|| r.result.value.Some?
                || exists i :: i in s.jobs && i in r.state.jobs && !s.jobs[i].status.Terminal() && r.state.jobs[i].status.Terminal())
  {
    hide Run, Inv, Rows, Reservation, Handles, Guards, AttemptsEvolve;
    var s := Run(Initial(c, now), es);
    ReachableInv(c, now, es);
    InvRows(s);
    NoDeadlock(s, j);
    var first := Candidate(s).value;
    if Exhausted(s.jobs[first]) {
      DiscardInv(s, first);
      DiscardShape(s, first);
      ClaimRoundsInv(Discard(s, first), w, CLAIM_ROUNDS - 1);
      var t := ClaimRounds(Discard(s, first), w, CLAIM_ROUNDS - 1).0;
      assert t == ClaimRounds(s, w, CLAIM_ROUNDS).0;
      assert first in t.jobs && t.jobs[first].status.Terminal();
    }
  }

  // ---------- idempotent submission ----------

  lemma KeyedElsewhere(s: State, repo: RepoId, mode: string, key: Option<string>, priority: int, newId: JobId)
    requires Inv(s) && newId !in s.jobs
    requires var r := SubmitJob(s, repo, mode, key, priority, newId); r.result.Ok? && r.result.value.id == newId
    ensures var r := SubmitJob(s, repo, mode, key, priority, newId);
            newId in r.state.jobs && r.state.jobs[newId] == NewJob(EnsureExecution(s, repo), newId, repo, mode, key, priority, Manual, None)
  {
    if key.Some? && exists j :: HasKey(s, j, key.value) {
      RowAt(s, KeyHolder(s, key.value));
      assert false;
    }
  }

  lemma KeyFound(s: State, j: JobId, key: string)
    requires UniqueKeys(s) && HasKey(s, j, key)
    ensures KeyHolder(s, key) == j
  {
  }

  /** A keyed submission that is accepted leaves the answered job as the holder of the key. */
  lemma KeyTaken(s: State, repo: RepoId, mode: string, key: string, priority: int, newId: JobId)
    requires Rows(s) && SubmitJob(s, repo, mode, Some(key), priority, newId).result.Ok?
    ensures var r := SubmitJob(s, repo, mode, Some(key), priority, newId);
            var j := r.result.value.id;
            && HasKey(r.state, j, key) && r.state.jobs[j] == r.result.value
            && r.result.value.repo == repo && r.result.value.mode == mode && r.result.value.priority == priority
            && ValidMode(mode) && key != ""
  {
    if exists i :: HasKey(s, i, key) {
      RowAt(s, KeyHolder(s, key));
    }
  }

  lemma KeyedAgain(s: State, j: JobId, key: string, repo: RepoId, mode: string, priority: int, newId: JobId)
    requires Rows(s) && UniqueKeys(s) && HasKey(s, j, key) && key != ""
    ensures SubmitJob(s, repo, mode, Some(key), priority, newId)
            == Reply(s, if (repo, mode, priority) == (s.jobs[j].repo, s.jobs[j].mode, s.jobs[j].priority)
                        then Ok(s.jobs[j]) else Err(ValueError))
  {
    RowAt(s, j);
    KeyFound(s, j, key);
  }

  /** Over any later run, repeating a keyed submission answers with the same job and changes nothing, and using
      the key for another repository, mode or priority is refused. */
  lemma SubmissionIsIdempotent(s: State, repo: RepoId, mode: string, key: string, priority: int, id1: JobId, es: seq<Event>,
                               repo2: RepoId, mode2: string, priority2: int, id2: JobId)
    requires Inv(s) && SubmitJob(s, repo, mode, Some(key), priority, id1).result.Ok?
    ensures var first := SubmitJob(s, repo, mode, Some(key), priority, id1);
            var t := Run(first.state, es);
            var again := SubmitJob(t, repo2, mode2, Some(key), priority2, id2);
            && again.state == t
            && (if repo2 == repo && mode2 == mode && priority2 == priority
                then again.result.Ok? && again.result.value.id == first.result.value.id
                else again.result == Err(ValueError))
  {
    hide Inv, Run, Rows, Reservation, Handles, Guards, AttemptsEvolve, Forest, Watching, Writes, Links, Timeline,
         AttemptRows, UniqueRows, CompleteRows, UniqueKeys, SubmitJob, ValidMode;
    var first := SubmitJob(s, repo, mode, Some(key), priority, id1);
    var t := Run(first.state, es);
    var j := first.result.value.id;
    InvRows(s);
    KeyTaken(s, repo, mode, key, priority, id1);
    SubmitInv(s, repo, mode, Some(key), priority, id1);
    RunInv(first.state, es);
    assert JobEvolves(first.state.jobs[j], t.jobs[j], first.state.now);
    InvParts(t);
    InvRows(t);
    RowAt(t, j);
    KeyedAgain(t, j, key, repo2, mode2, priority2, id2);
  }

  /** Resubmitting twice answers with the one successor. */
  lemma ResubmissionIsIdempotent(s: State, job: JobId, id1: JobId, es: seq<Event>, id2: JobId)
    requires Inv(s) && ResubmitJob(s, job, id1).result.Ok?
    ensures var first := ResubmitJob(s, job, id1);
            var t := Run(first.state, es);
            var again := ResubmitJob(t, job, id2);
            && again.result.Ok? && again.result.value.id == first.result.value.id
            && again.result.value.parent == Some(job)
            && again.state.jobs == t.jobs
  {
    hide Inv, Run, Rows, Reservation, Handles, Guards, AttemptsEvolve, Watching, Writes, Links, Timeline, AttemptRows,
         UniqueRows, CompleteRows, UniqueKeys, Redirect, Forest;
    var first := ResubmitJob(s, job, id1);
    ResubmitInv(s, job, id1);
    var j := first.result.value.id;
    assert IsChild(first.state, j, job) by {
      InvRows(s);
      if exists i :: IsChild(s, i, job) { RowAt(s, Child(s, job)); }
    }
    RunInv(first.state, es);
    var t := Run(first.state, es);
    assert JobEvolves(first.state.jobs[j], t.jobs[j], first.state.now);
    assert IsChild(t, j, job);
    InvParts(t);
    ChildFound(t, j, job);
    InvRows(t);
    RowAt(t, j);
    TerminalIsFinal(first.state, es, job);
  }

  lemma ChildFound(s: State, j: JobId, parent: JobId)
    requires Forest(s) && IsChild(s, j, parent)
    ensures Child(s, parent) == j && parent in s.jobs && s.jobs[parent].status.Terminal()
  {
    assert ParentOk(s, j, s.jobs[j].parent.value);
  }

  /** j is reached from k by following n parent links. */
  ghost predicate Descends(s: State, k: JobId, j: JobId, n: nat)
    decreases n
  {
    && k in s.jobs
    && if n == 0 then j == k
       else s.jobs[k].parent.Some? && Descends(s, s.jobs[k].parent.value, j, n - 1)
  }

  lemma {:induction false} AncestorsAreEarlier(s: State, k: JobId, j: JobId, n: nat)
    requires Forest(s) && Descends(s, k, j, n) && n > 0
    ensures j in s.jobs && s.jobs[j].serial < s.jobs[k].serial && s.jobs[j].repo == s.jobs[k].repo && s.jobs[j].status.Terminal()
    decreases n
  {
    assert ParentOk(s, k, s.jobs[k].parent.value);
    if n > 1 {
      AncestorsAreEarlier(s, s.jobs[k].parent.value, j, n - 1);
    }
  }

  /** The retry links form a forest: no job descends from itself, each parent has one successor, and every
      ancestor is a finished job of the same repository. */
  lemma RetriesFormAForest(c: Settings, now: Time, es: seq<Event>, k: JobId, j: JobId, n: nat)
    requires ValidSettings(c) && n > 0
    requires Descends(Run(Initial(c, now), es), k, j, n)
    ensures var s := Run(Initial(c, now), es);
            && j != k && j in s.jobs && s.jobs[j].status.Terminal() && s.jobs[j].repo == s.jobs[k].repo
            && forall a, b | IsChild(s, a, j) && IsChild(s, b, j) :: a == b
  {
    hide Run, Inv, AttemptRows, UniqueRows, CompleteRows, Links, Timeline, Writes, UniqueKeys, Watching, Guards, Descends;
    ReachableInv(c, now, es);
    var s := Run(Initial(c, now), es);
    InvParts(s);
    AncestorsAreEarlier(s, k, j, n);
  }
}
