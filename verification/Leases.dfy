/** How long an attempt is safe from being taken over, over whole runs. */
module Leases {
  import opened Basics
  import opened Coordination
  import opened CoordinationInvariants
  import opened CoordinationSteps
  import opened CoordinationRuns
  import opened CoordinationTheorems
  import opened AttemptLedger

  /** An attempt's lease lasts at least one lease from its claim and never more than one lease from the last moment it was open.
      It is expired only once that lease is over, and its own worker ends it only before. */
  ghost predicate Leased(a: Attempt, lease: real, now: Time) {
    && a.claimedAt + lease <= a.leaseExpiresAt
    && a.leaseExpiresAt <= (if a.endedAt.Some? then a.endedAt.value else now) + lease
    && (a.outcome == Some(Expired) ==> a.endedAt.Some? && a.leaseExpiresAt <= a.endedAt.value)
    && (a.outcome.Some? && a.outcome.value.Ended? && a.outcome.value.status in {Completed, CompletedWithErrors, Retrying} ==>
          a.endedAt.Some? && a.endedAt.value < a.leaseExpiresAt)
  }

  ghost predicate AllLeased(s: State) {
    forall i :: 0 <= i < |s.attempts| ==> Leased(s.attempts[i], s.cfg.lease, s.now)
  }

  lemma SameAttempts(s: State, t: State)
    requires AllLeased(s) && t.attempts == s.attempts && t.cfg == s.cfg && s.now <= t.now
    ensures AllLeased(t)
  {
    forall i | 0 <= i < |t.attempts| ensures Leased(t.attempts[i], t.cfg.lease, t.now) {
      assert Leased(s.attempts[i], s.cfg.lease, s.now);
    }
  }

  lemma EndLeased(s: State, j: JobId, row: Job, error: Option<Option<string>>, workers: map<WorkerId, WorkerRow>)
    requires Inv(s) && AllLeased(s) && CanEnd(s, j, row)
    requires row.status in {Completed, CompletedWithErrors, Retrying} ==> s.now < s.jobs[j].leaseExpiresAt.value
    ensures AllLeased(EndState(s, j, row, error, workers))
  {
    hide Inv, Writes, UniqueKeys, Forest, Watching, Guards, UniqueRows, CompleteRows, Links, Timeline;
    InvParts(s);
    var t := EndState(s, j, row, error, workers);
    forall i | 0 <= i < |t.attempts| ensures Leased(t.attempts[i], t.cfg.lease, t.now) {
      assert Leased(s.attempts[i], s.cfg.lease, s.now) && AttemptOk(s, s.attempts[i]);
    }
  }

  lemma FinishLeased(s: State, h: Job, status: Status, error: Option<string>, delay: real)
    requires Inv(s) && AllLeased(s) && h in s.issued && (status.Terminal() || (status.Retrying? && h.attempt < h.maxAttempts))
    ensures AllLeased(Finish(s, h, status, error, delay).state)
  {
    hide Inv, AllLeased, Rows, Reservation, Handles, Guards;
    if Owned(s, h) && h.repo !in s.guards {
      InvRows(s);
      HandleAt(s, h);
      FinishShape(s, h, status, error, delay);
      var r := Finish(s, h, status, error, delay);
      EndLeased(s, h.id, r.result.value, Some(error), r.state.workers);
    }
  }

  lemma RenewLeased(s: State, h: Job)
    requires Inv(s) && AllLeased(s)
    ensures AllLeased(RenewLease(s, h).state)
  {
    hide Inv, Writes, UniqueKeys, Forest, Watching, Guards, UniqueRows, CompleteRows, Links, Timeline;
    InvParts(s);
    var t := RenewLease(s, h).state;
    forall i | 0 <= i < |t.attempts| ensures Leased(t.attempts[i], t.cfg.lease, t.now) {
      assert Leased(s.attempts[i], s.cfg.lease, s.now) && AttemptOk(s, s.attempts[i]);
    }
  }

  lemma GrantLeased(s: State, j: JobId, w: WorkerId)
    requires Inv(s) && AllLeased(s) && Claimable(s, j) && w in s.workers
    ensures AllLeased(Grant(s, j, w))
  {
    hide Inv, Writes, UniqueKeys, Forest, Watching, Guards, UniqueRows, CompleteRows, Links, Timeline;
    InvParts(s);
    var t := Grant(s, j, w);
    forall i | 0 <= i < |t.attempts| ensures Leased(t.attempts[i], t.cfg.lease, t.now) {
      assert i < |s.attempts| ==> Leased(s.attempts[i], s.cfg.lease, s.now) && AttemptOk(s, s.attempts[i]);
    }
  }

  lemma {:induction false} RoundsLeased(s: State, w: WorkerId, rounds: nat)
    requires Inv(s) && AllLeased(s) && w in s.workers
    ensures AllLeased(ClaimRounds(s, w, rounds).0)
    decreases rounds
  {
    hide Inv, AllLeased, Rows, Reservation, Handles, Guards, Evolves, Grant, EndState, CanEnd, Precedes;
    var c := Candidate(s);
    if rounds > 0 && c.Some? {
      if Exhausted(s.jobs[c.value]) {
        var t := Discard(s, c.value);
        DiscardInv(s, c.value);
        InvRows(s);
        DiscardShape(s, c.value);
        DiscardStatus(s, c.value);
        EndLeased(s, c.value, t.jobs[c.value], None, t.workers);
        RoundsLeased(t, w, rounds - 1);
      } else {
        GrantLeased(s, c.value, w);
      }
    }
  }

  lemma DiscardStatus(s: State, j: JobId)
    requires Claimable(s, j)
    ensures Discard(s, j).jobs[j].status in {Cancelled, Failed}
  {
    hide CloseRow, ReleaseWorker;
  }

  lemma HolderStepLeased(s: State, e: Event)
    requires Inv(s) && AllLeased(s) && e.Holder().Some? && e.Holder().value in s.issued
    ensures AllLeased(Step(s, e))
  {
    hide Inv, AllLeased, Finish, RenewLease;
    match e
    case JobCompleted(h, withErrors) => FinishLeased(s, h, if withErrors then CompletedWithErrors else Completed, None, 0.0);
    case JobCancelled(h) => FinishLeased(s, h, Cancelled, None, 0.0);
    case JobFailed(h, error) => FinishLeased(s, h, Failed, Some(Truncate(error, 2000)), 0.0);
    case RetryScheduled(h, error, jitter) =>
      if h.attempt >= h.maxAttempts {
        FinishLeased(s, h, Failed, Some(Truncate(error, 2000)), 0.0);
      } else {
        FinishLeased(s, h, Retrying, Some(Truncate(error, 2000)), Backoff(s.cfg, h.attempt, jitter));
      }
    case LeaseRenewed(h) => RenewLeased(s, h);
    case _ => SameAttempts(s, Step(s, e));
  }

  /** Events without a snapshot, polls apart, leave the attempts alone. */
  lemma PlainAttempts(s: State, e: Event)
    requires e.Holder().None? && !e.ClaimPolled?
    ensures Step(s, e).attempts == s.attempts
  {
    hide SubmitJob, ResubmitJob, ClaimJob, Observe, ImportLegacyJobs, CompleteJob, CancelJob, FailJob, ScheduleRetry,
         RenewLease, UpdateProgress, EnterGuard, GuardedWrite, RequestCancel, RegisterWorker, HeartbeatWorker, StopWorker,
         LeaveGuard, EnsureWatch, SwitchWatch, RecordWatchError;
    match e
    case Submitted(repo, mode, key, priority, newId) => SubmitInserts(s, repo, mode, key, priority, newId);
    case Resubmitted(job, newId) => ResubmitInserts(s, job, newId);
    case WatchObserved(repo, f, indexed, newId) => ObserveInserts(s, repo, f, indexed, newId);
    case LegacyImported(rows) => LegacyAttempts(s, rows);
    case CancelRequested(job) => CancelAttempts(s, job);
    case WorkerRegistered(_, _) => WorkersQuiet(s, e);
    case WorkerBeat(_, _, _) => WorkersQuiet(s, e);
    case WorkerStopped(_, _) => WorkersQuiet(s, e);
    case _ => WatchesQuiet(s, e);
  }

  lemma LegacyAttempts(s: State, rows: seq<LegacyRow>)
    ensures ImportLegacyJobs(s, rows).state.attempts == s.attempts
  {
    ImportFrame(s, rows);
  }

  lemma CancelAttempts(s: State, job: JobId)
    ensures RequestCancel(s, job).state.attempts == s.attempts
  {
  }

  lemma StepLeased(s: State, e: Event)
    requires Inv(s) && AllLeased(s)
    ensures AllLeased(Step(s, e))
  {
    hide Inv, AllLeased, Step, JobsEvolve, AttemptsEvolve;
    StepInv(s, e);
    if e.Holder().Some? {
      if e.Holder().value in s.issued {
        HolderStepLeased(s, e);
      } else {
        Unissued(s, e);
      }
    } else if e.ClaimPolled? {
      PollLeased(s, e);
    } else {
      PlainAttempts(s, e);
      SameAttempts(s, Step(s, e));
    }
  }

  lemma Unissued(s: State, e: Event)
    requires e.Holder().Some? && e.Holder().value !in s.issued
    ensures Step(s, e) == s
  {
  }

  lemma PollLeased(s: State, e: Event)
    requires Inv(s) && AllLeased(s) && e.ClaimPolled?
    ensures AllLeased(Step(s, e))
  {
    hide Inv, AllLeased;
    if Registered(s, e.worker, e.session) {
      RoundsLeased(s, e.worker, CLAIM_ROUNDS);
    }
  }

  lemma {:induction false} RunLeased(s: State, es: seq<Event>)
    requires Inv(s) && AllLeased(s)
    ensures AllLeased(Run(s, es))
    decreases |es|
  {
    hide Inv, AllLeased, Step;
    if es != [] {
      StepInv(s, es[0]);
      StepLeased(s, es[0]);
      RunLeased(Step(s, es[0]), es[1..]);
    }
  }

  /** Over any run: no attempt is taken over within one lease of its claim, or of its last renewal; an expired attempt's lease
      was over when it was taken over; an attempt that completed or retried did so within its lease. */
  lemma NoPrematureTakeover(c: Settings, now: Time, es: seq<Event>, i: nat)
    requires ValidSettings(c) && i < |Run(Initial(c, now), es).attempts|
    ensures var a := Run(Initial(c, now), es).attempts[i];
            && a.claimedAt + c.lease <= a.leaseExpiresAt
            && (a.outcome == Some(Expired) ==> a.endedAt.Some? && a.leaseExpiresAt <= a.endedAt.value <= Run(Initial(c, now), es).now)
            && (a.outcome in {Some(Ended(Completed)), Some(Ended(CompletedWithErrors)), Some(Ended(Retrying))} ==>
                  a.endedAt.Some? && a.endedAt.value < a.leaseExpiresAt <= a.endedAt.value + c.lease)
  {
    hide Run, Inv, AllLeased, JobsEvolve, AttemptsEvolve, Writes, UniqueKeys, Forest, Watching, Guards, UniqueRows, CompleteRows,
         Links, Timeline;
    var s := Run(Initial(c, now), es);
    InitialInv(c, now);
    NothingLeased(c, now);
    RunLeased(Initial(c, now), es);
    RunInv(Initial(c, now), es);
    LeasedAt(s, i);
    InvParts(s);
    assert AttemptOk(s, s.attempts[i]);
  }

  lemma NothingLeased(c: Settings, now: Time)
    ensures AllLeased(Initial(c, now))
  {
  }

  lemma LeasedAt(s: State, i: nat)
    requires AllLeased(s) && i < |s.attempts|
    ensures Leased(s.attempts[i], s.cfg.lease, s.now)
  {
  }
}
