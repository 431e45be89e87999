/** Worker registry sessions: reusing a worker id fences the process that held it before. */
module Sessions {
  import opened Basics
  import opened Coordination
  import opened CoordinationInvariants
  import opened CoordinationSteps
  import opened CoordinationRuns

  ghost predicate SameSession(s: State, t: State, w: WorkerId) {
    (w in t.workers <==> w in s.workers) && (w in s.workers ==> t.workers[w].session == s.workers[w].session)
  }

  /** A worker that is seen stays so, and does not stop. */
  ghost predicate KeptAlive(s: State, t: State, w: WorkerId) {
    w in s.workers ==>
      && w in t.workers && (t.workers[w].lastSeen == s.workers[w].lastSeen || t.workers[w].lastSeen == s.now)
      && (t.workers[w].status.Stopped? ==> s.workers[w].status.Stopped?)
  }

  lemma DiscardKeepsSessions(s: State, j: JobId, w: WorkerId)
    requires Claimable(s, j)
    ensures SameSession(s, Discard(s, j), w) && KeptAlive(s, Discard(s, j), w) && Discard(s, j).now == s.now
  {
    hide Claimable, CloseRow;
  }

  lemma GrantKeepsSessions(s: State, j: JobId, claimant: WorkerId, w: WorkerId)
    requires Claimable(s, j) && claimant in s.workers
    ensures SameSession(s, Grant(s, j, claimant), w) && KeptAlive(s, Grant(s, j, claimant), w)
  {
    hide Claimable, CloseRow;
  }

  lemma {:induction false} RoundsKeepSessions(s: State, claimant: WorkerId, rounds: nat, w: WorkerId)
    requires claimant in s.workers
    ensures SameSession(s, ClaimRounds(s, claimant, rounds).0, w) && KeptAlive(s, ClaimRounds(s, claimant, rounds).0, w)
    decreases rounds
  {
    hide Exhausted, Discard, Grant;
    var c := Candidate(s);
    if rounds > 0 && c.Some? {
      if Exhausted(s.jobs[c.value]) {
        DiscardKeepsSessions(s, c.value, w);
        DiscardKeepsSessions(s, c.value, claimant);
        RoundsKeepSessions(Discard(s, c.value), claimant, rounds - 1, w);
      } else {
        GrantKeepsSessions(s, c.value, claimant, w);
      }
    }
  }

  lemma PollKeepsSessions(s: State, claimant: WorkerId, session: Session, w: WorkerId)
    ensures SameSession(s, ClaimJob(s, claimant, session).state, w) && KeptAlive(s, ClaimJob(s, claimant, session).state, w)
  {
    if Registered(s, claimant, session) {
      RoundsKeepSessions(s, claimant, CLAIM_ROUNDS, w);
    }
  }

  lemma LegacyKeepsWorkers(s: State, rows: seq<LegacyRow>)
    ensures ImportLegacyJobs(s, rows).state.workers == s.workers
  {
    ImportFrame(s, rows);
  }

  lemma SubmitKeepsWorkers(s: State, repo: RepoId, mode: string, key: Option<string>, priority: int, newId: JobId)
    ensures SubmitJob(s, repo, mode, key, priority, newId).state.workers == s.workers
  {
  }

  lemma ResubmitKeepsWorkers(s: State, job: JobId, newId: JobId)
    ensures ResubmitJob(s, job, newId).state.workers == s.workers
  {
    hide Redirect;
  }

  lemma ObserveKeepsWorkers(s: State, repo: RepoId, f: Fingerprint, indexed: Option<Fingerprint>, newId: JobId)
    ensures Observe(s, repo, f, indexed, newId).state.workers == s.workers
  {
    hide LastCompleted, Busyness;
  }

  lemma FinishKeepsSessions(s: State, h: Job, status: Status, error: Option<string>, delay: real, w: WorkerId)
    ensures SameSession(s, Finish(s, h, status, error, delay).state, w) && KeptAlive(s, Finish(s, h, status, error, delay).state, w)
  {
    hide Owned, CloseRow;
  }

  lemma HolderKeepsSessions(s: State, e: Event, w: WorkerId)
    requires e.Holder().Some?
    ensures SameSession(s, Step(s, e), w) && KeptAlive(s, Step(s, e), w)
  {
    hide Owned, CloseRow, ExtendRow, Finish;
    match e
    case JobCompleted(h, withErrors) => FinishKeepsSessions(s, h, if withErrors then CompletedWithErrors else Completed, None, 0.0, w);
    case JobCancelled(h) => FinishKeepsSessions(s, h, Cancelled, None, 0.0, w);
    case JobFailed(h, error) => FinishKeepsSessions(s, h, Failed, Some(Truncate(error, 2000)), 0.0, w);
    case RetryScheduled(h, error, jitter) =>
      FinishKeepsSessions(s, h, Failed, Some(Truncate(error, 2000)), 0.0, w);
      FinishKeepsSessions(s, h, Retrying, Some(Truncate(error, 2000)), Backoff(s.cfg, h.attempt, jitter), w);
    case _ =>
  }

  lemma PlainKeepsWorkers(s: State, e: Event)
    requires e.GuardLeft? || e.CancelRequested? || e.WatchEnsured? || e.WatchSwitched? || e.WatchFailed? || e.Ticked?
    ensures Step(s, e).workers == s.workers
  {
    hide SubmitJob, ResubmitJob, Observe, ClaimJob, ImportLegacyJobs, CompleteJob, CancelJob, FailJob, ScheduleRetry,
         RenewLease, UpdateProgress, EnterGuard, GuardedWrite, RegisterWorker, HeartbeatWorker, StopWorker;
  }

  lemma RegistryKeepsSessions(s: State, e: Event, w: WorkerId)
    requires e.WorkerRegistered? || e.WorkerBeat? || e.WorkerStopped?
    requires !(e.WorkerRegistered? && e.worker == w)
    ensures SameSession(s, Step(s, e), w)
    ensures !(e.WorkerStopped? && e.worker == w && w in s.workers && e.session == s.workers[w].session) ==> KeptAlive(s, Step(s, e), w)
  {
    hide SubmitJob, ResubmitJob, Observe, ClaimJob, ImportLegacyJobs, CompleteJob, CancelJob, FailJob, ScheduleRetry,
         RenewLease, UpdateProgress, EnterGuard, GuardedWrite, LeaveGuard, RequestCancel, EnsureWatch, SwitchWatch, RecordWatchError;
  }

  lemma SessionFrame(s: State, e: Event, w: WorkerId)
    requires !(e.WorkerRegistered? && e.worker == w)
    ensures SameSession(s, Step(s, e), w)
    ensures !(e.WorkerStopped? && e.worker == w && w in s.workers && e.session == s.workers[w].session) ==> KeptAlive(s, Step(s, e), w)
  {
    hide SubmitJob, ResubmitJob, Observe, ClaimJob, ImportLegacyJobs, CompleteJob, CancelJob, FailJob, ScheduleRetry,
         RenewLease, UpdateProgress, EnterGuard, GuardedWrite, RegisterWorker, HeartbeatWorker, StopWorker, LeaveGuard,
         RequestCancel, EnsureWatch, SwitchWatch, RecordWatchError;
    if e.Holder().Some? {
      HolderKeepsSessions(s, e, w);
    } else if e.WorkerRegistered? || e.WorkerBeat? || e.WorkerStopped? {
      RegistryKeepsSessions(s, e, w);
    } else {
      match e
      case Submitted(repo, mode, key, priority, newId) => SubmitKeepsWorkers(s, repo, mode, key, priority, newId);
      case Resubmitted(job, newId) => ResubmitKeepsWorkers(s, job, newId);
      case WatchObserved(repo, f, indexed, newId) => ObserveKeepsWorkers(s, repo, f, indexed, newId);
      case ClaimPolled(claimant, session) => PollKeepsSessions(s, claimant, session, w);
      case LegacyImported(rows) => LegacyKeepsWorkers(s, rows);
      case _ => PlainKeepsWorkers(s, e);
    }
  }

  /** Another session holds the worker id. */
  ghost predicate Superseded(s: State, w: WorkerId, session: Session) {
    w in s.workers && s.workers[w].session != session
  }

  lemma {:induction false} SupersededStays(s: State, es: seq<Event>, w: WorkerId, session: Session)
    requires Superseded(s, w, session) && forall i | 0 <= i < |es| :: es[i] != WorkerRegistered(w, session)
    ensures Superseded(Run(s, es), w, session)
    decreases |es|
  {
    hide Step;
    if es != [] {
      if es[0].WorkerRegistered? && es[0].worker == w {
        Registering(s, w, es[0].session);
      } else {
        SessionFrame(s, es[0], w);
      }
      SupersededStays(Step(s, es[0]), es[1..], w, session);
    }
  }

  lemma Registering(s: State, w: WorkerId, session: Session)
    ensures var t := Step(s, WorkerRegistered(w, session));
            w in t.workers && (t.workers[w].session == session || (w in s.workers && t == s))
  {
  }

  /** Registering a live id is refused; registering a stale one fences the old session for good: until that very token is
      registered again, whatever happens, it can neither beat, nor claim, nor stop the worker. */
  lemma OldSessionsAreFenced(s: State, w: WorkerId, former: Session, session: Session, es: seq<Event>)
    requires session != former && RegisterWorker(s, w, session).result.Ok?
    requires forall i | 0 <= i < |es| :: es[i] != WorkerRegistered(w, former)
    ensures w in s.workers ==> s.workers[w].status.Stopped? || s.workers[w].lastSeen < s.now - s.cfg.offline
    ensures var t := Run(RegisterWorker(s, w, session).state, es);
            && (forall current :: HeartbeatWorker(t, w, former, current) == Reply(t, Err(LeaseLost)))
            && ClaimJob(t, w, former) == Reply(t, Err(LeaseLost))
            && StopWorker(t, w, former) == t
  {
    hide Run, ClaimRounds;
    SupersededStays(RegisterWorker(s, w, session).state, es, w, former);
  }

  // ---------- sessions that are in use ----------

  /** Registering succeeds exactly for an id that is new, stopped, or silent for longer than the offline interval. The id then
      starts over under the new session, its account of jobs aside. */
  lemma RegistrationIsExclusive(s: State, w: WorkerId, session: Session)
    ensures var r := RegisterWorker(s, w, session); var t := r.state;
            && (r.result.Ok? <==> w !in s.workers || s.workers[w].status == Stopped || s.workers[w].lastSeen + s.cfg.offline < s.now)
            && (r.result.Err? ==> r == Reply(s, Err(WorkerIdentityInUse)))
            && (r.result.Ok? ==>
                  && r.result.value == session && t == s.(workers := s.workers[w := t.workers[w]])
                  && Registered(t, w, session) && t.workers[w].status == Idle && t.workers[w].lastSeen == s.now
                  && t.workers[w].currentJob.None?
                  && t.workers[w].completedJobs == (if w in s.workers then s.workers[w].completedJobs else 0)
                  && t.workers[w].failedJobs == (if w in s.workers then s.workers[w].failedJobs else 0))
  {
  }

  /** Beats and stops count under the current session only. A beat says what the worker is at; a stopped worker is at nothing. */
  lemma BeatsAndStops(s: State, w: WorkerId, session: Session, current: Option<JobId>)
    ensures var r := HeartbeatWorker(s, w, session, current); var t := r.state;
            && (r.result.Ok? <==> w in s.workers && s.workers[w].session == session && s.workers[w].status != Stopped)
            && (r.result.Err? ==> r == Reply(s, Err(LeaseLost)))
            && (r.result.Ok? ==>
                  && t == s.(workers := s.workers[w := t.workers[w]])
                  && t.workers[w] == s.workers[w].(status := t.workers[w].status, lastSeen := s.now, currentJob := current)
                  && (t.workers[w].status == Idle <==> current.None?) && (t.workers[w].status == Busy <==> current.Some?))
    ensures var t := StopWorker(s, w, session);
            if w in s.workers && s.workers[w].session == session then
              && t == s.(workers := s.workers[w := t.workers[w]])
              && t.workers[w] == s.workers[w].(status := Stopped, lastSeen := s.now, currentJob := None)
            else t == s
  {
  }

  lemma {:induction false} LiveSessionStays(s: State, es: seq<Event>, w: WorkerId, session: Session, since: Time)
    requires Inv(s) && Registered(s, w, session) && since <= s.workers[w].lastSeen && since <= s.now
    requires (forall i | 0 <= i < |es| :: es[i] != WorkerStopped(w, session)) && Run(s, es).now <= since + s.cfg.offline
    ensures Registered(Run(s, es), w, session) && since <= Run(s, es).workers[w].lastSeen
    decreases |es|
  {
    hide Inv, Step, JobsEvolve, AttemptsEvolve;
    if es != [] {
      var t := Step(s, es[0]);
      StepInv(s, es[0]);
      RunInv(t, es[1..]);
      if es[0].WorkerRegistered? && es[0].worker == w {
        LiveIdIsRefused(s, w, es[0].session);
      } else {
        SessionFrame(s, es[0], w);
      }
      LiveSessionStays(t, es[1..], w, session, since);
    }
  }

  lemma LiveIdIsRefused(s: State, w: WorkerId, session: Session)
    requires w in s.workers && !s.workers[w].status.Stopped? && s.now <= s.workers[w].lastSeen + s.cfg.offline
    ensures Step(s, WorkerRegistered(w, session)) == s
  {
  }

  /** A worker that was seen keeps its identity for the whole offline interval, whatever happens, unless it stops: nobody can
      register its id, and its session goes on working. */
  lemma LiveSessionsAreSafe(s: State, w: WorkerId, session: Session, es: seq<Event>, other: Session)
    requires Inv(s) && Registered(s, w, session) && s.workers[w].lastSeen <= s.now
    requires forall i | 0 <= i < |es| :: es[i] != WorkerStopped(w, session)
    requires Run(s, es).now <= s.workers[w].lastSeen + s.cfg.offline
    ensures var t := Run(s, es);
            && RegisterWorker(t, w, other) == Reply(t, Err(WorkerIdentityInUse))
            && HeartbeatWorker(t, w, session, None).result.Ok? && ClaimJob(t, w, session).result.Ok?
  {
    hide Inv, Run, ClaimRounds, JobsEvolve, AttemptsEvolve;
    RunInv(s, es);
    LiveSessionStays(s, es, w, session, s.workers[w].lastSeen);
  }
}
