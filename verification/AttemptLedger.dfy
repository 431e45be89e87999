/** The attempt history as a ledger: its shape per job, and the conservation law behind the metrics snapshot. */
module AttemptLedger {
  import opened Basics
  import opened Coordination
  import opened CoordinationInvariants
  import opened CoordinationSteps
  import opened CoordinationRuns
  import opened CoordinationTheorems

  /** A job's rows are exactly its generations 1..lease_generation, one each. All but the current one ended as
      expired or retrying, the current one is open exactly while the job runs, and a row is marked reclaimed
      exactly when the row before it expired. */
  lemma AttemptHistory(c: Settings, now: Time, es: seq<Event>, j: JobId, g: nat, i: nat, k: nat)
    requires ValidSettings(c)
    requires var s := Run(Initial(c, now), es);
             j in s.jobs && i < |s.attempts| && k < |s.attempts| && IsRow(s.attempts[i], j, g)
    ensures var s := Run(Initial(c, now), es); var job := s.jobs[j]; var a := s.attempts[i];
            && 1 <= g <= job.generation
            && (IsRow(s.attempts[k], j, g) ==> k == i)
            && (g < job.generation ==> a.endedAt.Some? && (a.outcome == Some(Expired) || a.outcome == Some(Ended(Retrying))))
            && (a.endedAt.None? <==> g == job.generation && job.status.Running?)
            && (g == 1 ==> !a.reclaimed)
            && (IsRow(s.attempts[k], j, g + 1) ==> (s.attempts[k].reclaimed <==> a.outcome == Some(Expired)))
  {
    hide Run, Inv, Writes, UniqueKeys, Forest, Watching, Guards;
    var s := Run(Initial(c, now), es);
    ReachableInv(c, now, es);
    InvParts(s);
    assert AttemptOk(s, s.attempts[i]);
    assert IsRow(s.attempts[k], j, g + 1) ==> Successive(s.attempts[i], s.attempts[k]);
  }

  lemma AttemptHistoryIsComplete(c: Settings, now: Time, es: seq<Event>, j: JobId, g: nat)
    requires ValidSettings(c)
    requires j in Run(Initial(c, now), es).jobs
    ensures var s := Run(Initial(c, now), es); HasRow(s.attempts, j, g) <==> 1 <= g <= s.jobs[j].generation
  {
    hide Run, Inv, Writes, UniqueKeys, Forest, Watching, Guards, UniqueRows, Links, Timeline;
    var s := Run(Initial(c, now), es);
    ReachableInv(c, now, es);
    InvParts(s);
    if HasRow(s.attempts, j, g) {
      assert AttemptOk(s, s.attempts[RowIndex(s.attempts, j, g)]);
    }
  }

  // ---------- counting ----------

  datatype Kind = Open | WithOutcome(outcome: AttemptOutcome) | Reclaimed

  predicate Matches(a: Attempt, kind: Kind) {
    match kind
    case Open => a.outcome.None?
    case WithOutcome(o) => a.outcome == Some(o)
    case Reclaimed => a.reclaimed
  }

  /** count(*) FILTER (WHERE ...). */
  function Count(rows: seq<Attempt>, kind: Kind): nat
    decreases |rows|
  {
    if rows == [] then 0
    else Count(rows[..|rows| - 1], kind) + if Matches(rows[|rows| - 1], kind) then 1 else 0
  }

  lemma {:induction false} CountSame(a: seq<Attempt>, b: seq<Attempt>, kind: Kind)
    requires |a| == |b| && forall i :: 0 <= i < |a| ==> Matches(a[i], kind) == Matches(b[i], kind)
    ensures Count(a, kind) == Count(b, kind)
    decreases |a|
  {
    if a != [] {
      CountSame(a[..|a| - 1], b[..|b| - 1], kind);
    }
  }

  lemma {:induction false} CountChanged(a: seq<Attempt>, b: seq<Attempt>, at: nat, kind: Kind)
    requires |a| == |b| && at < |a|
    requires forall i :: 0 <= i < |a| && i != at ==> Matches(a[i], kind) == Matches(b[i], kind)
    ensures Count(b, kind) - (if Matches(b[at], kind) then 1 else 0) == Count(a, kind) - (if Matches(a[at], kind) then 1 else 0)
    decreases |a|
  {
    if at == |a| - 1 {
      CountSame(a[..at], b[..at], kind);
    } else {
      CountChanged(a[..|a| - 1], b[..|b| - 1], at, kind);
    }
  }

  lemma CountAppended(a: seq<Attempt>, row: Attempt, kind: Kind)
    ensures Count(a + [row], kind) == Count(a, kind) + if Matches(row, kind) then 1 else 0
  {
    assert (a + [row])[..|a|] == a;
  }

  ghost function RunningJobs(s: State): set<JobId> {
    set j | j in s.jobs && s.jobs[j].status.Running?
  }

  /** Open rows are the running jobs, and every expired row has been reclaimed. */
  ghost predicate Tally(s: State) {
    && Count(s.attempts, Open) == |RunningJobs(s)|
    && Count(s.attempts, WithOutcome(Expired)) == Count(s.attempts, Reclaimed)
  }

  /** Nothing the tally looks at changed. */
  ghost predicate Quiet(s: State, t: State) {
    && |t.attempts| == |s.attempts|
    && (forall i :: 0 <= i < |s.attempts| ==>
          t.attempts[i].outcome == s.attempts[i].outcome && t.attempts[i].reclaimed == s.attempts[i].reclaimed)
    && RunningJobs(t) == RunningJobs(s)
  }

  lemma QuietTally(s: State, t: State)
    requires Tally(s) && Quiet(s, t)
    ensures Tally(t)
  {
    CountSame(s.attempts, t.attempts, Open);
    CountSame(s.attempts, t.attempts, WithOutcome(Expired));
    CountSame(s.attempts, t.attempts, Reclaimed);
  }

  /** Closing the open row of a running job moves one unit from open to its outcome. */
  lemma ClosedCounts(s: State, j: JobId, outcome: AttemptOutcome, error: Option<Option<string>>)
    requires AttemptRows(s) && UniqueRows(s.attempts) && CompleteRows(s)
    requires j in s.jobs && s.jobs[j].status.Running? && 0 < s.jobs[j].generation
    ensures var closed := CloseRow(s.attempts, j, s.jobs[j].generation, s.now, outcome, error);
            && Count(closed, Open) == Count(s.attempts, Open) - 1
            && Count(closed, WithOutcome(Expired)) == Count(s.attempts, WithOutcome(Expired)) + (if outcome == Expired then 1 else 0)
            && Count(closed, Reclaimed) == Count(s.attempts, Reclaimed)
  {
    var closed := CloseRow(s.attempts, j, s.jobs[j].generation, s.now, outcome, error);
    assert HasRow(s.attempts, j, s.jobs[j].generation);
    var i := RowIndex(s.attempts, j, s.jobs[j].generation);
    assert AttemptOk(s, s.attempts[i]);
    CountChanged(s.attempts, closed, i, Open);
    CountChanged(s.attempts, closed, i, WithOutcome(Expired));
    CountChanged(s.attempts, closed, i, Reclaimed);
  }

  lemma EndTally(s: State, j: JobId, row: Job, error: Option<Option<string>>, workers: map<WorkerId, WorkerRow>)
    requires Inv(s) && Tally(s) && CanEnd(s, j, row)
    ensures Tally(EndState(s, j, row, error, workers))
  {
    hide Inv, Rows, Reservation, Handles, Guards, Writes, UniqueKeys, Forest, Watching, Links, Timeline;
    InvParts(s);
    InvRows(s);
    RowAt(s, j);
    var t := EndState(s, j, row, error, workers);
    ClosedCounts(s, j, Ended(row.status), error);
    assert RunningJobs(t) == RunningJobs(s) - {j};
  }

  lemma FreshRowCounts(rows: seq<Attempt>, row: Attempt)
    requires row.outcome.None?
    ensures Count(rows + [row], Open) == Count(rows, Open) + 1
    ensures Count(rows + [row], WithOutcome(Expired)) == Count(rows, WithOutcome(Expired))
    ensures Count(rows + [row], Reclaimed) == Count(rows, Reclaimed) + if row.reclaimed then 1 else 0
  {
    CountAppended(rows, row, Open);
    CountAppended(rows, row, WithOutcome(Expired));
    CountAppended(rows, row, Reclaimed);
  }

  lemma GrantTally(s: State, j: JobId, w: WorkerId)
    requires Inv(s) && Tally(s) && Claimable(s, j) && w in s.workers
    ensures Tally(Grant(s, j, w))
  {
    hide Inv, Rows, Reservation, Handles, Guards, Writes, UniqueKeys, Forest, Watching, Links, Timeline,
         AttemptRows, UniqueRows, CompleteRows, Count, Matches, CloseRow, RunningJobs;
    InvParts(s);
    InvRows(s);
    RowAt(s, j);
    var t := Grant(s, j, w);
    var reclaimed := s.jobs[j].status.Running?;
    var closed := if reclaimed then CloseRow(s.attempts, j, s.jobs[j].generation, s.now, Expired, None) else s.attempts;
    var row := t.attempts[|s.attempts|];
    assert t.attempts == closed + [row];
    if reclaimed {
      ClosedCounts(s, j, Expired, None);
    }
    FreshRowCounts(closed, row);
    GrantRuns(s, j, w);
  }

  lemma GrantRuns(s: State, j: JobId, w: WorkerId)
    requires Claimable(s, j) && w in s.workers
    ensures |RunningJobs(Grant(s, j, w))| == |RunningJobs(s)| + if s.jobs[j].status.Running? then 0 else 1
  {
    hide CloseRow;
    var t := Grant(s, j, w);
    assert forall k :: k in RunningJobs(t) <==> k in RunningJobs(s) || k == j;
    assert RunningJobs(t) == RunningJobs(s) + {j};
    assert s.jobs[j].status.Running? ==> RunningJobs(t) == RunningJobs(s);
    assert !s.jobs[j].status.Running? ==> j !in RunningJobs(s);
  }

  lemma {:induction false} ClaimTally(s: State, w: WorkerId, rounds: nat)
    requires Inv(s) && Tally(s) && w in s.workers
    ensures Tally(ClaimRounds(s, w, rounds).0)
    decreases rounds
  {
    hide Inv, Tally, Rows, Reservation, Handles, Guards, Evolves, Grant, EndState, CanEnd, Precedes;
    var c := Candidate(s);
    if rounds > 0 && c.Some? {
      if Exhausted(s.jobs[c.value]) {
        var t := Discard(s, c.value);
        DiscardInv(s, c.value);
        InvRows(s);
        DiscardShape(s, c.value);
        EndTally(s, c.value, t.jobs[c.value], None, t.workers);
        ClaimTally(t, w, rounds - 1);
      } else {
        GrantTally(s, c.value, w);
      }
    }
  }

  lemma FinishTally(s: State, h: Job, status: Status, error: Option<string>, delay: real)
    requires Inv(s) && Tally(s) && h in s.issued && (status.Terminal() || (status.Retrying? && h.attempt < h.maxAttempts))
    ensures Tally(Finish(s, h, status, error, delay).state)
  {
    hide Inv, Tally, Rows, Reservation, Handles, Guards;
    if Owned(s, h) && h.repo !in s.guards {
      InvRows(s);
      HandleAt(s, h);
      FinishShape(s, h, status, error, delay);
      var r := Finish(s, h, status, error, delay);
      EndTally(s, h.id, r.result.value, Some(error), r.state.workers);
    }
  }

  lemma ImportQuiet(s: State, rows: seq<LegacyRow>)
    ensures Quiet(s, ImportRows(s, rows).0)
  {
    hide ImportRows;
    ImportFrame(s, rows);
    var t := ImportRows(s, rows).0;
    assert forall j :: j in RunningJobs(t) <==> j in RunningJobs(s);
  }

  lemma RenewQuiet(s: State, h: Job)
    ensures Quiet(s, RenewLease(s, h).state)
  {
  }

  lemma FencedQuiet(s: State, h: Job)
    ensures forall p, path, error :: Quiet(s, UpdateProgress(s, h, p, path, error).state)
    ensures Quiet(s, EnterGuard(s, h).state) && Quiet(s, GuardedWrite(s, h))
  {
  }

  /** At most one job was inserted, and it does not run. */
  ghost predicate Inserts(s: State, t: State, id: JobId) {
    && t.attempts == s.attempts
    && (t.jobs == s.jobs || (id !in s.jobs && id in t.jobs && t.jobs == s.jobs[id := t.jobs[id]] && t.jobs[id].status.Queued?))
  }

  lemma InsertsTally(s: State, t: State, id: JobId)
    requires Inserts(s, t, id) && Tally(s)
    ensures Tally(t)
  {
    QuietTally(s, t);
  }

  lemma SubmitInserts(s: State, repo: RepoId, mode: string, key: Option<string>, priority: int, newId: JobId)
    ensures Inserts(s, SubmitJob(s, repo, mode, key, priority, newId).state, newId)
  {
  }

  lemma ResubmitInserts(s: State, job: JobId, newId: JobId)
    ensures Inserts(s, ResubmitJob(s, job, newId).state, newId)
  {
  }

  lemma ObserveInserts(s: State, repo: RepoId, f: Fingerprint, indexed: Option<Fingerprint>, newId: JobId)
    ensures Inserts(s, Observe(s, repo, f, indexed, newId).state, newId)
  {
  }

  lemma CancelQuiet(s: State, id: JobId)
    ensures Quiet(s, RequestCancel(s, id).state)
  {
  }

  lemma PlainQuiet(s: State, e: Event)
    requires e.WorkerRegistered? || e.WorkerBeat? || e.WorkerStopped? || e.GuardLeft? || e.CancelRequested?
             || e.WatchEnsured? || e.WatchSwitched? || e.WatchFailed? || e.Ticked?
    ensures Quiet(s, Step(s, e))
  {
    hide Quiet, SubmitJob, ResubmitJob, ClaimJob, Observe, ImportLegacyJobs, CompleteJob, CancelJob, FailJob, ScheduleRetry,
         RenewLease, UpdateProgress, EnterGuard, GuardedWrite, RequestCancel, RegisterWorker, HeartbeatWorker, StopWorker,
         LeaveGuard, EnsureWatch, SwitchWatch, RecordWatchError;
    if e.CancelRequested? {
      CancelQuiet(s, e.job);
    } else {
      if e.WorkerRegistered? || e.WorkerBeat? || e.WorkerStopped? {
        WorkersQuiet(s, e);
      } else {
        WatchesQuiet(s, e);
      }
      UnchangedRowsAreQuiet(s, Step(s, e));
    }
  }

  lemma UnchangedRowsAreQuiet(s: State, t: State)
    requires t.jobs == s.jobs && t.attempts == s.attempts
    ensures Quiet(s, t)
  {
  }

  lemma WorkersQuiet(s: State, e: Event)
    requires e.WorkerRegistered? || e.WorkerBeat? || e.WorkerStopped?
    ensures Step(s, e).jobs == s.jobs && Step(s, e).attempts == s.attempts
  {
    hide SubmitJob, ResubmitJob, ClaimJob, Observe, ImportLegacyJobs, CompleteJob, CancelJob, FailJob, ScheduleRetry,
         RenewLease, UpdateProgress, EnterGuard, GuardedWrite, LeaveGuard, RequestCancel, EnsureWatch, SwitchWatch,
         RecordWatchError;
  }

  lemma WatchesQuiet(s: State, e: Event)
    requires e.GuardLeft? || e.WatchEnsured? || e.WatchSwitched? || e.WatchFailed? || e.Ticked?
    ensures Step(s, e).jobs == s.jobs && Step(s, e).attempts == s.attempts
  {
    hide SubmitJob, ResubmitJob, ClaimJob, Observe, ImportLegacyJobs, CompleteJob, CancelJob, FailJob, ScheduleRetry,
         RenewLease, UpdateProgress, EnterGuard, GuardedWrite, RequestCancel, RegisterWorker, HeartbeatWorker, StopWorker;
  }

  lemma HolderStepTally(s: State, e: Event)
    requires Inv(s) && Tally(s) && e.Holder().Some? && e.Holder().value in s.issued
    ensures Tally(Step(s, e))
  {
    hide Inv, Tally, Finish, Quiet, RenewLease, UpdateProgress, EnterGuard, GuardedWrite;
    match e
    case JobCompleted(h, withErrors) => FinishTally(s, h, if withErrors then CompletedWithErrors else Completed, None, 0.0);
    case JobCancelled(h) => FinishTally(s, h, Cancelled, None, 0.0);
    case JobFailed(h, error) => FinishTally(s, h, Failed, Some(Truncate(error, 2000)), 0.0);
    case RetryScheduled(h, error, jitter) =>
      if h.attempt >= h.maxAttempts {
        FinishTally(s, h, Failed, Some(Truncate(error, 2000)), 0.0);
      } else {
        FinishTally(s, h, Retrying, Some(Truncate(error, 2000)), Backoff(s.cfg, h.attempt, jitter));
      }
    case LeaseRenewed(h) => RenewQuiet(s, h); QuietTally(s, Step(s, e));
    case ProgressReported(h, _, _, _) => FencedQuiet(s, h); QuietTally(s, Step(s, e));
    case GuardEntered(h) => FencedQuiet(s, h); QuietTally(s, Step(s, e));
    case StorageWritten(h) => FencedQuiet(s, h); QuietTally(s, Step(s, e));
  }

  lemma StepTally(s: State, e: Event)
    requires Inv(s) && Tally(s)
    ensures Tally(Step(s, e))
  {
    hide Inv, Tally, Quiet, Inserts, SubmitJob, ResubmitJob, Observe, RequestCancel;
    if e.Holder().Some? {
      if e.Holder().value in s.issued { HolderStepTally(s, e); }
    } else {
      match e
      case ClaimPolled(w, session) => if Registered(s, w, session) { ClaimTally(s, w, CLAIM_ROUNDS); }
      case LegacyImported(rows) =>
        assert Quiet(s, s) by { ImportQuiet(s, []); }
        ImportQuiet(s, rows);
        QuietTally(s, Step(s, e));
      case Submitted(repo, mode, key, priority, newId) =>
        SubmitInserts(s, repo, mode, key, priority, newId);
        InsertsTally(s, Step(s, e), newId);
      case Resubmitted(job, newId) =>
        ResubmitInserts(s, job, newId);
        InsertsTally(s, Step(s, e), newId);
      case WatchObserved(repo, f, indexed, newId) =>
        ObserveInserts(s, repo, f, indexed, newId);
        InsertsTally(s, Step(s, e), newId);
      case _ => PlainQuiet(s, e); QuietTally(s, Step(s, e));
    }
  }

  lemma {:induction false} RunTally(s: State, es: seq<Event>)
    requires Inv(s) && Tally(s)
    ensures Tally(Run(s, es))
    decreases |es|
  {
    hide Inv, Tally, Step;
    if es != [] {
      StepInv(s, es[0]);
      StepTally(s, es[0]);
      RunTally(Step(s, es[0]), es[1..]);
    }
  }

  ghost predicate KnownOutcome(a: Attempt) {
    a.outcome.Some? ==>
      a.outcome.value in {Expired, Ended(Retrying), Ended(Completed), Ended(CompletedWithErrors), Ended(Failed), Ended(Cancelled)}
  }

  lemma {:induction false} CountsPartition(rows: seq<Attempt>)
    requires forall i :: 0 <= i < |rows| ==> KnownOutcome(rows[i])
    ensures |rows| == Count(rows, Open) + Count(rows, WithOutcome(Expired)) + Count(rows, WithOutcome(Ended(Retrying)))
                      + Count(rows, WithOutcome(Ended(Completed))) + Count(rows, WithOutcome(Ended(CompletedWithErrors)))
                      + Count(rows, WithOutcome(Ended(Failed))) + Count(rows, WithOutcome(Ended(Cancelled)))
    decreases |rows|
  {
    if rows != [] {
      CountsPartition(rows[..|rows| - 1]);
      assert KnownOutcome(rows[|rows| - 1]);
    }
  }

  /** Conservation in the metrics: claimed = completed (with or without errors) + failed + retried + cancelled
      + reclaimed + active. */
  ghost predicate Conserved(s: State) {
    |s.attempts| == Count(s.attempts, WithOutcome(Ended(Completed))) + Count(s.attempts, WithOutcome(Ended(CompletedWithErrors)))
                    + Count(s.attempts, WithOutcome(Ended(Failed))) + Count(s.attempts, WithOutcome(Ended(Retrying)))
                    + Count(s.attempts, WithOutcome(Ended(Cancelled))) + Count(s.attempts, Reclaimed) + |RunningJobs(s)|
  }

  lemma ConservedIn(s: State)
    requires Inv(s) && Tally(s)
    ensures Conserved(s)
  {
    hide Inv, Rows, Reservation, Handles, Guards, Writes, UniqueKeys, Forest, Watching, UniqueRows, CompleteRows, Links, Timeline;
    InvParts(s);
    InvRows(s);
    forall i | 0 <= i < |s.attempts| ensures KnownOutcome(s.attempts[i]) {
      assert AttemptOk(s, s.attempts[i]);
      RowAt(s, s.attempts[i].job);
    }
    CountsPartition(s.attempts);
  }

  lemma ClaimsAreConserved(c: Settings, now: Time, es: seq<Event>)
    requires ValidSettings(c)
    ensures Conserved(Run(Initial(c, now), es))
  {
    hide Run, Inv, Conserved;
    InitialInv(c, now);
    assert RunningJobs(Initial(c, now)) == {};
    RunTally(Initial(c, now), es);
    RunInv(Initial(c, now), es);
    ConservedIn(Run(Initial(c, now), es));
  }
}
