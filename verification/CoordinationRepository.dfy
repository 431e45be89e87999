/**
 CoordinationRepository: the tables as fields, one method per transaction, statement by statement. Each method
 ends in the state its transaction function commits, and a transaction that raises restores what it had changed.
 */
module CoordinationStore {
  import opened Basics
  import opened Coordination
  import opened CoordinationInvariants
  import opened CoordinationSteps
  import opened CoordinationTheorems
  import opened AttemptLedger
  import Claims
  import JobEndings
  import Metrics

  /** UPDATE job_attempts SET ended_at=now,outcome='expired' WHERE job_id=j AND lease_generation=g AND ended_at IS NULL. */
  function Expire(rows: seq<Attempt>, j: JobId, g: nat, now: Time): (r: seq<Attempt>)
    ensures |r| == |rows|
  {
    seq(|rows|, i requires 0 <= i < |rows| =>
      if IsRow(rows[i], j, g) && rows[i].endedAt.None?
      then rows[i].(endedAt := Some(now), outcome := Some(Expired)) else rows[i])
  }

  /** UPDATE job_attempts SET outcome=... WHERE job_id=j AND lease_generation=g. */
  function SetOutcome(rows: seq<Attempt>, j: JobId, g: nat, outcome: AttemptOutcome): (r: seq<Attempt>)
    ensures |r| == |rows|
  {
    seq(|rows|, i requires 0 <= i < |rows| => if IsRow(rows[i], j, g) then rows[i].(outcome := Some(outcome)) else rows[i])
  }

  /** The row of a running job is open, so expiring it closes it, and overwriting the outcome closes it with that. */
  lemma ExpireCloses(s: State, j: JobId, outcome: AttemptOutcome)
    requires Sound(s) && j in s.jobs && s.jobs[j].status.Running?
    ensures var expired := Expire(s.attempts, j, s.jobs[j].generation, s.now);
            && expired == CloseRow(s.attempts, j, s.jobs[j].generation, s.now, Expired, None)
            && SetOutcome(expired, j, s.jobs[j].generation, outcome)
               == CloseRow(s.attempts, j, s.jobs[j].generation, s.now, outcome, None)
  {
    hide Inv, Writes, UniqueKeys, Forest, Watching, Guards, UniqueRows, CompleteRows, Links, Timeline;
    InvParts(s);
    forall i | 0 <= i < |s.attempts| && IsRow(s.attempts[i], j, s.jobs[j].generation) ensures s.attempts[i].endedAt.None? {
      assert AttemptOk(s, s.attempts[i]);
    }
  }

  lemma FirstIsUnique(s: State, j: JobId, k: JobId)
    requires Rows(s) && IsFirst(s, j) && IsFirst(s, k)
    ensures j == k
  {
    assert RowOk(j, s.jobs[j]) && RowOk(k, s.jobs[k]);
  }

  // ---------- the object invariant ----------

  ghost predicate Sound(s: State) {
    Inv(s) && Tally(s)
  }

  lemma PlainSound(s: State, t: State)
    requires Sound(s) && SameCore(s, t) && t.execution == s.execution && t.guards == s.guards && t.watches == s.watches
    ensures Sound(t)
  {
    hide Inv, Tally, Evolves;
    SameCoreInv(s, t);
    QuietTally(s, t);
  }

  lemma SubmitSound(s: State, repo: RepoId, mode: string, key: Option<string>, priority: int, newId: JobId)
    requires Sound(s)
    ensures Sound(Coordination.SubmitJob(s, repo, mode, key, priority, newId).state)
  {
    hide Inv, Tally, Evolves, Inserts, Coordination.SubmitJob;
    SubmitInv(s, repo, mode, key, priority, newId);
    SubmitInserts(s, repo, mode, key, priority, newId);
    InsertsTally(s, Coordination.SubmitJob(s, repo, mode, key, priority, newId).state, newId);
  }

  lemma ResubmitSound(s: State, job: JobId, newId: JobId)
    requires Sound(s)
    ensures Sound(Coordination.ResubmitJob(s, job, newId).state)
  {
    hide Inv, Tally, Evolves, Inserts, Coordination.ResubmitJob;
    ResubmitInv(s, job, newId);
    ResubmitInserts(s, job, newId);
    InsertsTally(s, Coordination.ResubmitJob(s, job, newId).state, newId);
  }

  lemma ObserveSound(s: State, repo: RepoId, f: Fingerprint, indexed: Option<Fingerprint>, newId: JobId)
    requires Sound(s)
    ensures Sound(Coordination.Observe(s, repo, f, indexed, newId).state)
  {
    hide Inv, Tally, Evolves, Inserts, Coordination.Observe;
    ObserveInv(s, repo, f, indexed, newId);
    ObserveInserts(s, repo, f, indexed, newId);
    InsertsTally(s, Coordination.Observe(s, repo, f, indexed, newId).state, newId);
  }

  lemma ClaimSound(s: State, w: WorkerId, session: Session)
    requires Sound(s)
    ensures Sound(Coordination.ClaimJob(s, w, session).state)
  {
    hide Inv, Tally, Evolves, ClaimRounds;
    ClaimInv(s, w, session);
    if Registered(s, w, session) {
      ClaimTally(s, w, CLAIM_ROUNDS);
    }
  }

  lemma RenewSound(s: State, h: Job)
    requires Sound(s)
    ensures Sound(Coordination.RenewLease(s, h).state)
  {
    hide Inv, Tally, Evolves, Quiet, Coordination.RenewLease;
    RenewLeaseInv(s, h);
    RenewQuiet(s, h);
    QuietTally(s, Coordination.RenewLease(s, h).state);
  }

  lemma ProgressSound(s: State, h: Job, p: Progress, path: string, error: string)
    requires Sound(s)
    ensures Sound(Coordination.UpdateProgress(s, h, p, path, error).state)
  {
    hide Inv, Tally, Evolves, Quiet, Coordination.UpdateProgress;
    ProgressInv(s, h, p, path, error);
    FencedQuiet(s, h);
    QuietTally(s, Coordination.UpdateProgress(s, h, p, path, error).state);
  }

  lemma EnterSound(s: State, h: Job)
    requires Sound(s)
    ensures h in s.issued ==> Sound(Coordination.EnterGuard(s, h).state)
  {
    hide Inv, Tally, Evolves, Quiet, Coordination.EnterGuard;
    if h in s.issued {
      EnterGuardInv(s, h);
      FencedQuiet(s, h);
      QuietTally(s, Coordination.EnterGuard(s, h).state);
    }
  }

  lemma LeaveSound(s: State, repo: RepoId)
    requires Sound(s)
    ensures Sound(Coordination.LeaveGuard(s, repo))
  {
    hide Inv, Tally, Evolves;
    LeaveGuardInv(s, repo);
    QuietTally(s, Coordination.LeaveGuard(s, repo));
  }

  lemma CancelSound(s: State, id: JobId)
    requires Sound(s)
    ensures Sound(Coordination.RequestCancel(s, id).state)
  {
    hide Inv, Tally, Evolves, Quiet, Coordination.RequestCancel;
    RequestCancelInv(s, id);
    CancelQuiet(s, id);
    QuietTally(s, Coordination.RequestCancel(s, id).state);
  }

  lemma FinishSound(s: State, h: Job, status: Status, error: Option<string>, delay: real)
    requires Sound(s) && (status.Terminal() || (status.Retrying? && h.attempt < h.maxAttempts))
    ensures h in s.issued ==> Sound(Coordination.Finish(s, h, status, error, delay).state)
  {
    hide Inv, Tally, Evolves, Coordination.Finish;
    if h in s.issued {
      FinishInv(s, h, status, error, delay);
      FinishTally(s, h, status, error, delay);
    }
  }

  lemma ImportSound(s: State, rows: seq<LegacyRow>)
    requires Sound(s)
    ensures Sound(Coordination.ImportLegacyJobs(s, rows).state)
  {
    hide Inv, Tally, Evolves, Quiet, ImportRows;
    ImportInv(s, rows);
    ImportQuiet(s, rows);
    var t := Coordination.ImportLegacyJobs(s, rows).state;
    if t != s {
      QuietTally(s, t);
    }
  }

  /** The SET clause of _finish. */
  function EndedRow(row: Job, now: Time, status: Status, error: Option<string>, delay: real): Job {
    row.(status := if row.cancelRequested then Cancelled else status,
         worker := None, leaseExpiresAt := None,
         completedAt := if status.Retrying? && !row.cancelRequested then None else Some(now),
         availableAt := now + delay, error := error)
  }

  lemma EndedShape(s: State, h: Job, status: Status, error: Option<string>, delay: real, row: Job)
    requires Owned(s, h) && h.repo !in s.guards && row == EndedRow(s.jobs[h.id], s.now, status, error, delay)
    ensures Coordination.Finish(s, h, status, error, delay)
            == Reply(s.(jobs := s.jobs[h.id := row],
                        execution := if h.repo in s.execution && s.execution[h.repo] == Some(h.id)
                                     then s.execution[h.repo := None] else s.execution,
                        attempts := CloseRow(s.attempts, h.id, h.generation, s.now, Ended(row.status), Some(error)),
                        workers := ReleaseWorker(s.workers, h.worker, h.id,
                                                 if row.status.Completed? || row.status.CompletedWithErrors? then 1 else 0,
                                                 if row.status.Failed? then 1 else 0)),
                     Ok(row))
  {
    hide CloseRow, ReleaseWorker;
  }

  class CoordinationRepository {
    const settings: Settings
    var now: Time
    var execution: map<RepoId, Option<JobId>>
    var jobs: map<JobId, Job>
    var workers: map<WorkerId, WorkerRow>
    var attempts: seq<Attempt>
    var fileErrors: seq<FileError>
    var watches: map<RepoId, WatchRow>
    var guards: map<RepoId, Job>
    var issued: set<Job>
    var writes: seq<StorageWrite>

    function Tables(): State
      reads this
    {
      State(settings, now, execution, jobs, workers, attempts, fileErrors, watches, guards, issued, writes)
    }

    ghost predicate Valid()
      reads this
    {
      Sound(Tables())
    }

    constructor (settings: Settings, now: Time)
      requires ValidSettings(settings)
      ensures Valid() && Tables() == Initial(settings, now)
    {
      this.settings := settings;
      this.now := now;
      execution, jobs, workers, attempts, fileErrors, watches := map[], map[], map[], [], [], map[];
      guards, issued, writes := map[], {}, [];
      new;
      InitialInv(settings, now);
      assert RunningJobs(Tables()) == {};
    }

    /** clock_timestamp() never runs backwards. */
    method Tick(elapsed: real)
      requires Valid() && elapsed >= 0.0
      modifies this`now
      ensures Valid() && now == old(now) + elapsed
    {
      hide Sound;
      now := now + elapsed;
      PlainSound(old(Tables()), Tables());
    }

    // ---------- submission ----------

    method SubmitJob(repo: RepoId, mode: string, key: Option<string>, priority: int, newId: JobId) returns (r: Result<Job, Error>)
      requires Valid()
      modifies this
      ensures Valid() && Reply(Tables(), r) == Coordination.SubmitJob(old(Tables()), repo, mode, key, priority, newId)
    {
      hide Sound, Coordination.SubmitJob, ValidMode, EnsureExecution, NewJob;
      ghost var prior := Tables();
      SubmitSound(prior, repo, mode, key, priority, newId);
      if !ValidMode(mode) || key == Some("") {
        SubmitRefused(prior, repo, mode, key, priority, newId);
        return Err(ValueError);
      }
      var before := execution;
      EnsureRepository(repo);
      var holder := SelectByKey(key);
      if holder.Some? {
        SubmitHeld(prior, repo, mode, key, priority, newId, holder.value);
        var row := jobs[holder.value];
        if row.repo != repo || row.mode != mode || row.priority != priority {
          execution := before;
          return Err(ValueError);
        }
        return Ok(row);
      }
      SubmitUnheld(prior, repo, mode, key, priority, newId);
      if newId in jobs {
        execution := before;
        return Err(IntegrityError);
      }
      var job := NewJob(Tables(), newId, repo, mode, key, priority, Manual, None);
      EnsuringKeepsNewJobs(prior, newId, repo, mode, key, priority);
      jobs := jobs[newId := job];
      return Ok(job);
    }

    /** INSERT INTO repository_execution ... ON CONFLICT DO NOTHING. */
    method EnsureRepository(repo: RepoId)
      modifies this`execution
      ensures Tables() == EnsureExecution(old(Tables()), repo)
    {
      if repo !in execution {
        execution := execution[repo := None];
      }
    }

    /** SELECT * FROM jobs WHERE idempotency_key=key; no row has a NULL key. */
    method SelectByKey(key: Option<string>) returns (holder: Option<JobId>)
      ensures holder.Some? ==> key.Some? && holder.value in jobs && jobs[holder.value].key == key
      ensures holder.None? ==> forall j | j in jobs :: key.None? || jobs[j].key != key
    {
      if j :| j in jobs && key.Some? && jobs[j].key == key {
        return Some(j);
      }
      return None;
    }

    method ResubmitJob(id: JobId, newId: JobId) returns (r: Result<Job, Error>)
      requires Valid()
      modifies this
      ensures Valid() && Reply(Tables(), r) == Coordination.ResubmitJob(old(Tables()), id, newId)
    {
      hide Sound;
      ResubmitSound(Tables(), id, newId);
      if id !in jobs {
        return Err(LookupError);
      }
      var prior := jobs[id];
      if !prior.status.Terminal() {
        return Err(ValueError);
      }
      var successor: JobId;
      if j :| j in jobs && jobs[j].parent == Some(id) {
        assert IsChild(old(Tables()), j, id);
        ChildIs(old(Tables()), j, id);
        successor := j;
      } else {
        assert forall j :: !IsChild(old(Tables()), j, id);
        if newId in jobs {
          return Err(IntegrityError);
        }
        jobs := jobs[newId := NewJob(Tables(), newId, prior.repo, "incremental", None, prior.priority, Retry, Some(id))];
        successor := newId;
      }
      watches := Redirect(watches, id, successor);
      return Ok(jobs[successor]);
    }

    // ---------- worker registry ----------

    method RegisterWorker(w: WorkerId, session: Session) returns (r: Result<Session, Error>)
      requires Valid()
      modifies this`workers
      ensures Valid() && Reply(Tables(), r) == Coordination.RegisterWorker(old(Tables()), w, session)
    {
      hide Sound;
      PlainSound(Tables(), Coordination.RegisterWorker(Tables(), w, session).state);
      if w !in workers {
        workers := workers[w := WorkerRow(session, Idle, now, None, 0, 0)];
      } else if workers[w].status.Stopped? || workers[w].lastSeen < now - settings.offline {
        workers := workers[w := workers[w].(session := session, status := Idle, lastSeen := now, currentJob := None)];
      } else {
        return Err(WorkerIdentityInUse);
      }
      return Ok(session);
    }

    method HeartbeatWorker(w: WorkerId, session: Session, current: Option<JobId>) returns (r: Result<(), Error>)
      requires Valid()
      modifies this`workers
      ensures Valid() && Reply(Tables(), r) == Coordination.HeartbeatWorker(old(Tables()), w, session, current)
    {
      hide Sound;
      PlainSound(Tables(), Coordination.HeartbeatWorker(Tables(), w, session, current).state);
      if !Registered(Tables(), w, session) {
        return Err(LeaseLost);
      }
      var status := if current.Some? then Busy else Idle;
      workers := workers[w := workers[w].(lastSeen := now, status := status, currentJob := current)];
      return Ok(());
    }

    method StopWorker(w: WorkerId, session: Session)
      requires Valid()
      modifies this`workers
      ensures Valid() && Tables() == Coordination.StopWorker(old(Tables()), w, session)
    {
      hide Sound;
      PlainSound(Tables(), Coordination.StopWorker(Tables(), w, session));
      if w in workers && workers[w].session == session {
        workers := workers[w := workers[w].(status := Stopped, currentJob := None, lastSeen := now)];
      }
    }

    // ---------- claims ----------

    /** SELECT ... ORDER BY ... LIMIT 1 FOR UPDATE SKIP LOCKED. */
    method SelectCandidate() returns (c: Option<JobId>)
      requires Rows(Tables())
      ensures c == Candidate(Tables())
    {
      if j :| j in jobs && Claimable(Tables(), j)
              && forall k | k in jobs :: k != j && Claimable(Tables(), k) ==> Precedes(jobs[j], jobs[k]) {
        assert IsFirst(Tables(), j);
        FirstIsUnique(Tables(), j, Candidate(Tables()).value);
        return Some(j);
      }
      return None;
    }

    /** The cleanup branch: the exhausted or cancelled candidate becomes terminal and frees its repository. */
    method DiscardCandidate(j: JobId)
      requires Sound(Tables()) && Claimable(Tables(), j) && Exhausted(jobs[j])
      modifies this
      ensures Tables() == Discard(old(Tables()), j)
    {
      hide Sound;
      var row := jobs[j];
      var reclaimed := row.status.Running?;
      if reclaimed {
        ExpireCloses(Tables(), j, Ended(if row.cancelRequested then Cancelled else Failed));
        attempts := Expire(attempts, j, row.generation, now);
      }
      var terminal := if row.cancelRequested then Cancelled else Failed;
      jobs := jobs[j := row.(status := terminal, worker := None, leaseExpiresAt := None, completedAt := Some(now),
                             error := if terminal.Failed? then Some("attempt budget exhausted after lease expiry") else None)];
      execution := execution[row.repo := None];
      if reclaimed {
        attempts := SetOutcome(attempts, j, row.generation, Ended(terminal));
        workers := ReleaseWorker(workers, row.worker, j, 0, if terminal.Failed? then 1 else 0);
      }
    }

    method GrantCandidate(j: JobId, w: WorkerId) returns (job: Job)
      requires Sound(Tables()) && Claimable(Tables(), j) && !Exhausted(jobs[j]) && w in workers
      modifies this
      ensures Tables() == Grant(old(Tables()), j, w) && job == Claimed(old(Tables()), j, w)
    {
      hide Sound, Expire, CloseRow, Exhausted;
      var row := jobs[j];
      var reclaimed := row.status.Running?;
      if reclaimed {
        ExpireCloses(Tables(), j, Expired);
        attempts := Expire(attempts, j, row.generation, now);
      }
      job := row.(status := Running, worker := Some(w), generation := row.generation + 1, attempt := row.attempt + 1,
                  leaseExpiresAt := Some(now + settings.lease), progress := NO_PROGRESS, error := None);
      jobs := jobs[j := job];
      execution := execution[row.repo := Some(j)];
      attempts := attempts + [Attempt(j, job.generation, w, job.attempt, now, job.leaseExpiresAt.value, None, None, reclaimed, None)];
      workers := workers[w := workers[w].(status := Busy, currentJob := Some(j), lastSeen := now)];
      issued := issued + {job};
    }

    method ClaimJob(w: WorkerId, session: Session) returns (r: Result<Option<Job>, Error>)
      requires Valid()
      modifies this
      ensures Valid() && Reply(Tables(), r) == Coordination.ClaimJob(old(Tables()), w, session)
      // The job it hands out is taken over, and nothing obtainable was more urgent.
      ensures r.Ok? && r.value.Some? ==>
                && Claims.Taken(old(Tables()), Tables(), w, r.value.value)
                && forall k | Claims.Obtainable(old(Tables()), k) ::
                     Claims.NoLessUrgent(old(jobs)[r.value.value.id], old(jobs)[k])
    {
      hide Sound, Discard, Grant, Claimed, Exhausted, Claims.Taken, Claims.Obtainable, Claims.NoLessUrgent;
      ClaimSound(Tables(), w, session);
      ClaimOrder(Tables(), w, session);
      if !Registered(Tables(), w, session) {
        return Err(LeaseLost);
      }
      for round := 0 to CLAIM_ROUNDS
        invariant Valid() && w in workers
        invariant ClaimRounds(Tables(), w, CLAIM_ROUNDS - round) == ClaimRounds(old(Tables()), w, CLAIM_ROUNDS)
      {
        SoundRows(Tables());
        var c := SelectCandidate();
        if c.None? {
          return Ok(None);
        }
        if Exhausted(jobs[c.value]) {
          DiscardSound(Tables(), c.value, w);
          DiscardCandidate(c.value);
          continue;
        }
        var job := GrantCandidate(c.value, w);
        return Ok(Some(job));
      }
      return Ok(None);
    }

    // ---------- updates by the holder of a snapshot ----------

    method AssertOwnership(h: Job) returns (r: Result<bool, Error>)
      ensures r == Coordination.AssertOwnership(Tables(), h)
    {
      if !Owned(Tables(), h) {
        return Err(LeaseLost);
      }
      return Ok(jobs[h.id].cancelRequested);
    }

    method WasReclaimed(h: Job) returns (reclaimed: bool)
      requires Valid()
      ensures reclaimed <==> exists i :: 0 <= i < |attempts| && IsRow(attempts[i], h.id, h.generation) && attempts[i].reclaimed
      // The attempt before this one expired: a reclaimed generation resumes work that a crash interrupted.
      ensures reclaimed && h in issued ==> h.generation > 1 && HasExpired(attempts, h.id, h.generation - 1)
    {
      reclaimed := exists i :: 0 <= i < |attempts| && IsRow(attempts[i], h.id, h.generation) && attempts[i].reclaimed;
      if reclaimed && h in issued {
        PriorRow(Tables(), h);
      }
    }

    method RenewLease(h: Job) returns (r: Result<bool, Error>)
      requires Valid()
      modifies this`jobs, this`attempts
      ensures Reply(Tables(), r) == Coordination.RenewLease(old(Tables()), h)
      ensures h in issued ==> Valid()
    {
      hide Sound;
      RenewSound(Tables(), h);
      if !Owned(Tables(), h) {
        return Err(LeaseLost);
      }
      var lease := now + settings.lease;
      jobs := jobs[h.id := jobs[h.id].(leaseExpiresAt := Some(lease))];
      attempts := ExtendRow(attempts, h.id, h.generation, lease);
      return Ok(jobs[h.id].cancelRequested);
    }

    method UpdateProgress(h: Job, p: Progress, path: string, error: string) returns (r: Result<(), Error>)
      requires Valid()
      modifies this`jobs, this`fileErrors
      ensures Reply(Tables(), r) == Coordination.UpdateProgress(old(Tables()), h, p, path, error)
      ensures h in issued ==> Valid()
    {
      hide Sound;
      ProgressSound(Tables(), h, p, path, error);
      if !Owned(Tables(), h) {
        return Err(LeaseLost);
      }
      var done := p.indexedFiles + p.skippedFiles + p.deletedFiles + p.errorCount;
      jobs := jobs[h.id := jobs[h.id].(progress := p.(done := done))];
      if error != "" && path != "" {
        fileErrors := fileErrors + [FileError(h.id, h.generation, path, Truncate(error, 2000))];
      }
      return Ok(());
    }

    /** Entering the mutation guard: lock the repository row, compare the reservation, check ownership. */
    method EnterGuard(h: Job) returns (r: Result<bool, Error>)
      requires Valid()
      modifies this`guards
      ensures Reply(Tables(), r) == Coordination.EnterGuard(old(Tables()), h)
      ensures h in issued ==> Valid()
    {
      hide Sound;
      EnterSound(Tables(), h);
      if h.repo in guards {
        return Err(LockTimeout);
      }
      if h.repo !in execution || execution[h.repo] != Some(h.id) {
        return Err(LeaseLost);
      }
      if !Owned(Tables(), h) {
        return Err(LeaseLost);
      }
      guards := guards[h.repo := h];
      return Ok(jobs[h.id].cancelRequested);
    }

    method LeaveGuard(repo: RepoId)
      requires Valid()
      modifies this`guards
      ensures Valid() && Tables() == Coordination.LeaveGuard(old(Tables()), repo)
    {
      hide Sound;
      LeaveSound(Tables(), repo);
      guards := guards - {repo};
    }

    method RequestCancel(id: JobId) returns (r: Result<Job, Error>)
      requires Valid()
      modifies this`jobs
      ensures Valid() && Reply(Tables(), r) == Coordination.RequestCancel(old(Tables()), id)
      ensures id in old(jobs) && !old(jobs)[id].status.Terminal() ==>
                id in jobs && jobs[id].cancelRequested && (old(jobs)[id].status == Running || jobs[id].status == Cancelled)
    {
      hide Sound;
      CancelSound(Tables(), id);
      if id !in jobs {
        return Err(ValueError);
      }
      if !jobs[id].status.Terminal() {
        var waiting := jobs[id].status.Waiting();
        jobs := jobs[id := jobs[id].(cancelRequested := true,
                                     status := if waiting then Cancelled else jobs[id].status,
                                     completedAt := if waiting then Some(now) else jobs[id].completedAt)];
      }
      return Ok(jobs[id]);
    }

    method Finish(h: Job, status: Status, error: Option<string>, delay: real) returns (r: Result<Job, Error>)
      modifies this`jobs, this`execution, this`attempts, this`workers
      ensures Reply(Tables(), r) == Coordination.Finish(old(Tables()), h, status, error, delay)
    {
      if !Owned(Tables(), h) {
        return Err(LeaseLost);
      }
      if h.repo in guards {
        return Err(LockTimeout);
      }
      var row := EndedRow(jobs[h.id], now, status, error, delay);
      EndedShape(Tables(), h, status, error, delay, row);
      hide Owned, CloseRow, ReleaseWorker, Coordination.Finish;
      jobs := jobs[h.id := row];
      if h.repo in execution && execution[h.repo] == Some(h.id) {
        execution := execution[h.repo := None];
      }
      attempts := CloseRow(attempts, h.id, h.generation, now, Ended(row.status), Some(error));
      workers := ReleaseWorker(workers, h.worker, h.id,
                               if row.status.Completed? || row.status.CompletedWithErrors? then 1 else 0,
                               if row.status.Failed? then 1 else 0);
      return Ok(row);
    }

    method CompleteJob(h: Job, withErrors: bool) returns (r: Result<Job, Error>)
      requires Valid()
      modifies this
      ensures Reply(Tables(), r) == Coordination.CompleteJob(old(Tables()), h, withErrors)
      ensures h in issued ==> Valid()
    {
      hide Sound;
      FinishSound(Tables(), h, if withErrors then CompletedWithErrors else Completed, None, 0.0);
      r := Finish(h, if withErrors then CompletedWithErrors else Completed, None, 0.0);
    }

    method CancelJob(h: Job) returns (r: Result<Job, Error>)
      requires Valid()
      modifies this
      ensures Reply(Tables(), r) == Coordination.CancelJob(old(Tables()), h)
      ensures h in issued ==> Valid()
    {
      hide Sound;
      FinishSound(Tables(), h, Cancelled, None, 0.0);
      r := Finish(h, Cancelled, None, 0.0);
    }

    method FailJob(h: Job, error: string) returns (r: Result<Job, Error>)
      requires Valid()
      modifies this
      ensures Reply(Tables(), r) == Coordination.FailJob(old(Tables()), h, error)
      ensures h in issued ==> Valid()
    {
      hide Sound;
      FinishSound(Tables(), h, Failed, Some(Truncate(error, 2000)), 0.0);
      r := Finish(h, Failed, Some(Truncate(error, 2000)), 0.0);
    }

    method ScheduleRetry(h: Job, error: string, jitter: real) returns (r: Result<Job, Error>)
      requires Valid()
      modifies this
      ensures Reply(Tables(), r) == Coordination.ScheduleRetry(old(Tables()), h, error, jitter)
      ensures h in issued ==> Valid()
      ensures h in issued && Owned(old(Tables()), h) && h.repo !in old(guards) && !old(jobs)[h.id].cancelRequested ==>
                h.id in jobs
                && jobs[h.id].status == if old(jobs)[h.id].attempt < old(jobs)[h.id].maxAttempts then Retrying else Failed
    {
      hide Sound, Owned, JobEndings.EndsWith;
      RetryStatus(Tables(), h, error, jitter);
      if h.attempt >= h.maxAttempts {
        r := FailJob(h, error);
      } else {
        FinishSound(Tables(), h, Retrying, Some(Truncate(error, 2000)), Backoff(settings, h.attempt, jitter));
        r := Finish(h, Retrying, Some(Truncate(error, 2000)), Backoff(settings, h.attempt, jitter));
      }
    }

    // ---------- metrics ----------

    /** The counters and the histogram the metrics endpoint exposes, and how they balance: nothing claimed is ever
        unaccounted for. */
    method Snapshot() returns (m: Metrics.Snapshot)
      requires Valid()
      ensures m.queueDepth == |set j | j in jobs && jobs[j].status.Waiting()|
      ensures m.activeJobs == |RunningJobs(Tables())|
      ensures m.activeLeases == |Metrics.LiveLeases(Tables())| <= m.activeJobs
      ensures Metrics.LiveLeases(Tables())
              == set j | j in RunningJobs(Tables()) && jobs[j].leaseExpiresAt.Some? && now < jobs[j].leaseExpiresAt.value
      ensures m.activeWorkers == |set w | w in workers && workers[w].status != Stopped && now - workers[w].lastSeen < settings.offline|
      ensures m.claimed == |attempts|
      ensures m.completed == Count(attempts, WithOutcome(Ended(Completed))) + Count(attempts, WithOutcome(Ended(CompletedWithErrors)))
      ensures m.failed == Count(attempts, WithOutcome(Ended(Failed)))
      ensures m.retried == Count(attempts, WithOutcome(Ended(Retrying)))
      ensures m.reclaimed == Count(attempts, Reclaimed)
      ensures m.claimed == m.completed + m.failed + m.retried + m.reclaimed + m.activeJobs
                           + Count(attempts, WithOutcome(Ended(Cancelled)))
      ensures m.durations.count == Metrics.EndedRows(attempts) == m.claimed - m.activeJobs
      ensures m.durations.sum == Metrics.TotalDuration(attempts)
      ensures |m.durations.within| == |Metrics.BOUNDS| && Metrics.BOUNDS == [1.0, 5.0, 10.0, 30.0, 60.0, 300.0, 900.0]
      ensures forall b | 0 <= b < |Metrics.BOUNDS| :: m.durations.within[b] == Metrics.Within(attempts, Metrics.BOUNDS[b])
      ensures forall b, c | 0 <= b <= c < |Metrics.BOUNDS| :: m.durations.within[b] <= m.durations.within[c] <= m.durations.count
    {
      hide Inv, Tally, Count;
      Metrics.LiveLeasesRun(Tables());
      ConservedIn(Tables());
      Metrics.EndedRowsBalance(Tables());
      var durations := Metrics.Aggregate(attempts);
      forall b, c | 0 <= b <= c < |Metrics.BOUNDS| ensures durations.within[b] <= durations.within[c] <= durations.count {
        Metrics.WithinGrows(attempts, Metrics.BOUNDS[b], Metrics.BOUNDS[c]);
      }
      assert (set j | j in jobs && jobs[j].status.Running?) == RunningJobs(Tables());
      assert (set w | w in workers && workers[w].status != Stopped && now - workers[w].lastSeen < settings.offline)
             == Metrics.LiveWorkers(Tables());
      m := Metrics.Snapshot(
        |set j | j in jobs && jobs[j].status.Waiting()|,
        |set j | j in jobs && jobs[j].status.Running?|,
        |Metrics.LiveLeases(Tables())|,
        |Metrics.LiveWorkers(Tables())|,
        |attempts|,
        Count(attempts, WithOutcome(Ended(Completed))) + Count(attempts, WithOutcome(Ended(CompletedWithErrors))),
        Count(attempts, WithOutcome(Ended(Failed))),
        Count(attempts, WithOutcome(Ended(Retrying))),
        Count(attempts, Reclaimed),
        durations);
    }

    // ---------- legacy import ----------

    method ImportLegacyJobs(rows: seq<LegacyRow>) returns (r: Result<nat, Error>)
      requires Valid()
      modifies this`jobs, this`execution
      ensures Valid() && Reply(Tables(), r) == Coordination.ImportLegacyJobs(old(Tables()), rows)
    {
      hide Sound, ImportRow;
      ImportSound(Tables(), rows);
      var count := 0;
      var executionBefore, jobsBefore := execution, jobs;
      assert rows[0..] == rows;
      for i := 0 to |rows|
        invariant forall k :: 0 <= k < i ==> ValidMode(rows[k].mode)
        invariant ImportRows(Tables(), rows[i..]).0 == ImportRows(old(Tables()), rows).0
        invariant count + ImportRows(Tables(), rows[i..]).1 == ImportRows(old(Tables()), rows).1
      {
        assert rows[i..][0] == rows[i] && rows[i..][1..] == rows[i + 1..];
        if !ValidMode(rows[i].mode) {
          execution, jobs := executionBefore, jobsBefore;
          return Err(IntegrityError);
        }
        var inserted := ImportLegacyRow(rows[i]);
        count := count + if inserted then 1 else 0;
      }
      return Ok(count);
    }

    /** The two INSERT ... ON CONFLICT DO NOTHING statements of one legacy row. */
    method ImportLegacyRow(row: LegacyRow) returns (inserted: bool)
      modifies this`jobs, this`execution
      ensures Tables() == ImportRow(old(Tables()), row)
      ensures inserted <==> !Conflicts(EnsureExecution(old(Tables()), row.repo), row)
    {
      EnsureRepository(row.repo);
      inserted := row.id !in jobs && !(exists j | j in jobs :: row.key.Some? && jobs[j].key == row.key);
      if inserted {
        assert row.key.Some? ==> forall j :: !HasKey(Tables(), j, row.key.value);
        jobs := jobs[row.id := LegacyJob(Tables(), row)];
      } else if row.id !in jobs {
        var j :| j in jobs && jobs[j].key == row.key;
        assert HasKey(Tables(), j, row.key.value);
      }
    }
  }

  lemma ClaimOrder(s: State, w: WorkerId, session: Session)
    requires Sound(s)
    ensures var r := Coordination.ClaimJob(s, w, session);
            r.result.Ok? && r.result.value.Some? ==>
              && Claims.Taken(s, r.state, w, r.result.value.value) && r.result.value.value.id in s.jobs
              && forall k | Claims.Obtainable(s, k) :: k in s.jobs && Claims.NoLessUrgent(s.jobs[r.result.value.value.id], s.jobs[k])
  {
    hide Inv, Tally, Coordination.ClaimJob, Claims.Taken, Claims.Obtainable, Claims.NoLessUrgent;
    var r := Coordination.ClaimJob(s, w, session);
    Claims.ClaimTakesOver(s, w, session);
    if r.result.Ok? && r.result.value.Some? {
      TakenWasThere(s, r.state, w, r.result.value.value);
      forall k | Claims.Obtainable(s, k) ensures k in s.jobs && Claims.NoLessUrgent(s.jobs[r.result.value.value.id], s.jobs[k]) {
        Claims.ObtainableIsClaimable(s, k);
        Claims.ClaimTakesTheFirst(s, w, session, k);
      }
    }
  }

  lemma TakenWasThere(s: State, t: State, w: WorkerId, job: Job)
    requires Claims.Taken(s, t, w, job)
    ensures job.id in s.jobs
  {
  }

  lemma RetryStatus(s: State, h: Job, error: string, jitter: real)
    requires Sound(s)
    ensures h in s.issued ==>
              && h.id in s.jobs
              && (Owned(s, h) && h.repo !in s.guards && !s.jobs[h.id].cancelRequested ==>
                    var t := Coordination.ScheduleRetry(s, h, error, jitter).state;
                    h.id in t.jobs && t.jobs[h.id].status == if s.jobs[h.id].attempt < s.jobs[h.id].maxAttempts then Retrying else Failed)
  {
    hide Inv, Tally, Owned, Coordination.ScheduleRetry, Backoff;
    if h in s.issued {
      JobEndings.RetryOrFail(s, h, error, jitter);
    }
  }

  lemma EnsuringKeepsNewJobs(s: State, id: JobId, repo: RepoId, mode: string, key: Option<string>, priority: int)
    ensures NewJob(EnsureExecution(s, repo), id, repo, mode, key, priority, Manual, None)
            == NewJob(s, id, repo, mode, key, priority, Manual, None)
    ensures NewJob(s, id, repo, mode, key, priority, Manual, None).id == id
  {
  }

  lemma SubmitRefused(s: State, repo: RepoId, mode: string, key: Option<string>, priority: int, newId: JobId)
    requires !ValidMode(mode) || key == Some("")
    ensures Coordination.SubmitJob(s, repo, mode, key, priority, newId) == Reply(s, Err(ValueError))
  {
  }

  lemma SubmitHeld(s: State, repo: RepoId, mode: string, key: Option<string>, priority: int, newId: JobId, j: JobId)
    requires Sound(s) && ValidMode(mode) && key != Some("")
    requires key.Some? && j in s.jobs && s.jobs[j].key == key
    ensures var row := s.jobs[j];
            Coordination.SubmitJob(s, repo, mode, key, priority, newId)
            == if row.repo == repo && row.mode == mode && row.priority == priority then Reply(EnsureExecution(s, repo), Ok(row))
               else Reply(s, Err(ValueError))
  {
    hide Sound, EnsureExecution, ValidMode;
    assert HasKey(s, j, key.value);
    KeyHolderIs(s, j, key.value);
  }

  lemma SubmitUnheld(s: State, repo: RepoId, mode: string, key: Option<string>, priority: int, newId: JobId)
    requires ValidMode(mode) && key != Some("") && forall j | j in s.jobs :: key.None? || s.jobs[j].key != key
    ensures Coordination.SubmitJob(s, repo, mode, key, priority, newId)
            == if newId in s.jobs then Reply(s, Err(IntegrityError))
               else var job := NewJob(s, newId, repo, mode, key, priority, Manual, None);
                    Reply(Insert(EnsureExecution(s, repo), job), Ok(job))
  {
    hide EnsureExecution, ValidMode, NewJob, Insert;
  }

  lemma KeyHolderIs(s: State, j: JobId, key: string)
    requires Sound(s) && HasKey(s, j, key)
    ensures KeyHolder(s, key) == j
  {
    hide Inv, Writes, Forest, Watching, Guards, AttemptRows, UniqueRows, CompleteRows, Links, Timeline;
    InvParts(s);
    KeyFound(s, j, key);
  }

  lemma ChildIs(s: State, j: JobId, parent: JobId)
    requires Sound(s) && IsChild(s, j, parent)
    ensures Child(s, parent) == j
  {
    hide Inv, Writes, UniqueKeys, Watching, Guards, AttemptRows, UniqueRows, CompleteRows, Links, Timeline;
    InvParts(s);
    ChildFound(s, j, parent);
  }

  lemma SoundRows(s: State)
    requires Sound(s)
    ensures Rows(s)
  {
    hide Inv, Tally, Rows;
    InvRows(s);
  }

  lemma DiscardSound(s: State, j: JobId, w: WorkerId)
    requires Sound(s) && Claimable(s, j) && Exhausted(s.jobs[j]) && w in s.workers
    ensures Sound(Discard(s, j)) && w in Discard(s, j).workers
  {
    hide Inv, Tally, Evolves, EndState, CanEnd;
    InvRows(s);
    DiscardInv(s, j);
    DiscardShape(s, j);
    EndTally(s, j, Discard(s, j).jobs[j], None, Discard(s, j).workers);
  }

  /** Generation g of job j has a row, which expired. */
  ghost predicate HasExpired(rows: seq<Attempt>, j: JobId, g: nat) {
    exists i :: 0 <= i < |rows| && IsRow(rows[i], j, g) && rows[i].outcome == Some(Expired)
  }

  lemma PriorRow(s: State, h: Job)
    requires Sound(s) && h in s.issued
    requires exists i :: 0 <= i < |s.attempts| && IsRow(s.attempts[i], h.id, h.generation) && s.attempts[i].reclaimed
    ensures h.generation > 1 && HasExpired(s.attempts, h.id, h.generation - 1)
  {
    hide Inv, Writes, UniqueKeys, Forest, Watching, Guards, UniqueRows, Timeline, Rows, Reservation, AttemptRows, CompleteRows;
    InvParts(s);
    InvRows(s);
    HandleAt(s, h);
    var i :| 0 <= i < |s.attempts| && IsRow(s.attempts[i], h.id, h.generation) && s.attempts[i].reclaimed;
    EarlierRow(s, h.id, h.generation - 1);
    var k := RowIndex(s.attempts, h.id, h.generation - 1);
    assert Successive(s.attempts[k], s.attempts[i]);
  }

  lemma EarlierRow(s: State, j: JobId, g: nat)
    requires CompleteRows(s) && j in s.jobs && 1 <= g <= s.jobs[j].generation
    ensures HasRow(s.attempts, j, g)
  {
  }
}
