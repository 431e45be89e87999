/**
 Runs of the protocol: any interleaving of submissions, claims, heartbeats, progress reports, guards,
 storage writes, crashes, finishes, cancellations, imports, watch observations and clock ticks.
 A worker may use any snapshot it was ever handed, however stale.
 */
module CoordinationRuns {
  import opened Basics
  import opened Coordination
  import opened CoordinationInvariants
  import opened CoordinationSteps

  datatype Event =
    | Submitted(repo: RepoId, mode: string, key: Option<string>, priority: int, newId: JobId)
    | Resubmitted(job: JobId, newId: JobId)
    | WorkerRegistered(worker: WorkerId, session: Session)
    | WorkerBeat(worker: WorkerId, session: Session, current: Option<JobId>)
    | WorkerStopped(worker: WorkerId, session: Session)
    | ClaimPolled(worker: WorkerId, session: Session)
    | LeaseRenewed(handle: Job)
    | ProgressReported(handle: Job, progress: Progress, path: string, error: string)
    | GuardEntered(handle: Job)
    | StorageWritten(handle: Job)
    | GuardLeft(repo: RepoId)
    | CancelRequested(job: JobId)
    | JobCompleted(handle: Job, withErrors: bool)
    | JobCancelled(handle: Job)
    | JobFailed(handle: Job, error: string)
    | RetryScheduled(handle: Job, error: string, jitter: real)
    | LegacyImported(rows: seq<LegacyRow>)
    | WatchEnsured(repo: RepoId, initially: Option<bool>)
    | WatchSwitched(repo: RepoId, enabled: bool)
    | WatchFailed(repo: RepoId, error: string)
    | WatchObserved(repo: RepoId, fingerprint: Fingerprint, indexed: Option<Fingerprint>, newId: JobId)
    | Ticked(elapsed: real)
  {
    /** The snapshot an event acts with, if it acts with one. */
    ghost function Holder(): Option<Job> {
      match this
      case LeaseRenewed(h) => Some(h)
      case ProgressReported(h, _, _, _) => Some(h)
      case GuardEntered(h) => Some(h)
      case StorageWritten(h) => Some(h)
      case JobCompleted(h, _) => Some(h)
      case JobCancelled(h) => Some(h)
      case JobFailed(h, _) => Some(h)
      case RetryScheduled(h, _, _) => Some(h)
      case _ => None
    }
  }

  ghost function Apply(s: State, e: Event): State {
    match e
    case Submitted(repo, mode, key, priority, newId) => SubmitJob(s, repo, mode, key, priority, newId).state
    case Resubmitted(job, newId) => ResubmitJob(s, job, newId).state
    case WorkerRegistered(w, session) => RegisterWorker(s, w, session).state
    case WorkerBeat(w, session, current) => HeartbeatWorker(s, w, session, current).state
    case WorkerStopped(w, session) => StopWorker(s, w, session)
    case ClaimPolled(w, session) => ClaimJob(s, w, session).state
    case LeaseRenewed(h) => RenewLease(s, h).state
    case ProgressReported(h, p, path, error) => UpdateProgress(s, h, p, path, error).state
    case GuardEntered(h) => EnterGuard(s, h).state
    case StorageWritten(h) => GuardedWrite(s, h)
    case GuardLeft(repo) => LeaveGuard(s, repo)
    case CancelRequested(job) => RequestCancel(s, job).state
    case JobCompleted(h, withErrors) => CompleteJob(s, h, withErrors).state
    case JobCancelled(h) => CancelJob(s, h).state
    case JobFailed(h, error) => FailJob(s, h, error).state
    case RetryScheduled(h, error, jitter) => ScheduleRetry(s, h, error, jitter).state
    case LegacyImported(rows) => ImportLegacyJobs(s, rows).state
    case WatchEnsured(repo, enabled) => EnsureWatch(s, repo, enabled)
    case WatchSwitched(repo, enabled) => SwitchWatch(s, repo, enabled)
    case WatchFailed(repo, error) => RecordWatchError(s, repo, error)
    case WatchObserved(repo, f, indexed, newId) => Observe(s, repo, f, indexed, newId).state
    case Ticked(elapsed) => if elapsed < 0.0 then s else s.(now := s.now + elapsed)
  }

  /** Nobody can act with a snapshot that no claim handed out. */
  ghost function Step(s: State, e: Event): State {
    if e.Holder().Some? && e.Holder().value !in s.issued then s else Apply(s, e)
  }

  ghost function Run(s: State, es: seq<Event>): State
    decreases |es|
  {
    if es == [] then s else Run(Step(s, es[0]), es[1..])
  }

  lemma RunOfMore(s: State, e: Event, es: seq<Event>)
    ensures Run(s, [e] + es) == Run(Step(s, e), es)
  {
    hide Step;
    assert ([e] + es)[1..] == es;
  }

  lemma {:induction false} RunInParts(s: State, es: seq<Event>, more: seq<Event>)
    ensures Run(s, es + more) == Run(Run(s, es), more)
    decreases |es|
  {
    hide Step;
    if es == [] {
      assert es + more == more;
    } else {
      assert (es + more)[1..] == es[1..] + more;
      RunInParts(Step(s, es[0]), es[1..], more);
    }
  }

  // ---------- the invariant over runs ----------

  lemma SwitchWatchInv(s: State, repo: RepoId, enabled: bool)
    requires Inv(s)
    ensures Inv(SwitchWatch(s, repo, enabled)) && Evolves(s, SwitchWatch(s, repo, enabled))
  {
    hide Inv, Evolves;
    EvolvesRefl(s);
    if repo in s.watches {
      WatchRowInv(s, repo, SwitchWatch(s, repo, enabled).watches[repo]);
    }
  }

  lemma WatchFailedInv(s: State, repo: RepoId, error: string)
    requires Inv(s)
    ensures Inv(RecordWatchError(s, repo, error)) && Evolves(s, RecordWatchError(s, repo, error))
  {
    hide Inv, Evolves;
    EvolvesRefl(s);
    if repo in s.watches && s.watches[repo].enabled {
      WatchRowInv(s, repo, RecordWatchError(s, repo, error).watches[repo]);
    }
  }

  /** The events that act with a snapshot. */
  lemma HolderStepInv(s: State, e: Event)
    requires Inv(s) && e.Holder().Some? && e.Holder().value in s.issued
    ensures Inv(Step(s, e)) && Evolves(s, Step(s, e))
  {
    hide Inv, Evolves, RenewLease, UpdateProgress, EnterGuard, GuardedWrite, Finish, ScheduleRetry;
    match e
    case LeaseRenewed(h) => RenewLeaseInv(s, h);
    case ProgressReported(h, p, path, error) => ProgressInv(s, h, p, path, error);
    case GuardEntered(h) => EnterGuardInv(s, h);
    case StorageWritten(h) => GuardedWriteInv(s, h);
    case JobCompleted(h, withErrors) => FinishInv(s, h, if withErrors then CompletedWithErrors else Completed, None, 0.0);
    case JobCancelled(h) => FinishInv(s, h, Cancelled, None, 0.0);
    case JobFailed(h, error) => FinishInv(s, h, Failed, Some(Truncate(error, 2000)), 0.0);
    case RetryScheduled(h, error, jitter) => ScheduleRetryInv(s, h, error, jitter);
  }

  /** Registry and clock leave everything but workers and time alone. */
  lemma RegistryStep(s: State, e: Event)
    requires e.WorkerRegistered? || e.WorkerBeat? || e.WorkerStopped? || e.Ticked?
    ensures var t := Step(s, e);
            SameCore(s, t) && t.execution == s.execution && t.guards == s.guards && t.watches == s.watches
  {
    hide SubmitJob, ResubmitJob, ClaimJob, LeaveGuard, RequestCancel, ImportLegacyJobs, EnsureWatch, SwitchWatch, RecordWatchError,
         Observe, RenewLease, UpdateProgress, EnterGuard, GuardedWrite, CompleteJob, CancelJob, FailJob, ScheduleRetry;
  }

  lemma StepInv(s: State, e: Event)
    requires Inv(s)
    ensures Inv(Step(s, e)) && Evolves(s, Step(s, e))
  {
    hide Inv, Evolves, SubmitJob, ResubmitJob, ClaimJob, LeaveGuard, RequestCancel, ImportLegacyJobs, EnsureWatch,
         SwitchWatch, RecordWatchError, Observe, RegisterWorker, HeartbeatWorker, StopWorker, SameCore;
    if e.Holder().Some? {
      EvolvesRefl(s);
      if e.Holder().value in s.issued {
        HolderStepInv(s, e);
      }
    } else {
      match e
      case Submitted(repo, mode, key, priority, newId) => SubmitInv(s, repo, mode, key, priority, newId);
      case Resubmitted(job, newId) => ResubmitInv(s, job, newId);
      case WorkerRegistered(w, session) => RegistryStep(s, e); SameCoreInv(s, Step(s, e));
      case WorkerBeat(w, session, current) => RegistryStep(s, e); SameCoreInv(s, Step(s, e));
      case WorkerStopped(w, session) => RegistryStep(s, e); SameCoreInv(s, Step(s, e));
      case ClaimPolled(w, session) => ClaimInv(s, w, session);
      case GuardLeft(repo) => LeaveGuardInv(s, repo);
      case CancelRequested(job) => RequestCancelInv(s, job);
      case LegacyImported(rows) => ImportInv(s, rows);
      case WatchEnsured(repo, initially) => EnsureWatchInv(s, repo, initially);
      case WatchSwitched(repo, enabled) => SwitchWatchInv(s, repo, enabled);
      case WatchFailed(repo, error) => WatchFailedInv(s, repo, error);
      case WatchObserved(repo, f, indexed, newId) => ObserveInv(s, repo, f, indexed, newId);
      case Ticked(elapsed) => RegistryStep(s, e); SameCoreInv(s, Step(s, e));
    }
  }

  lemma {:induction false} RunInv(s: State, es: seq<Event>)
    requires Inv(s)
    ensures Inv(Run(s, es)) && Evolves(s, Run(s, es))
    decreases |es|
  {
    hide Inv, Evolves, Step;
    if es == [] {
      EvolvesRefl(s);
    } else {
      StepInv(s, es[0]);
      RunInv(Step(s, es[0]), es[1..]);
      EvolvesTrans(s, Step(s, es[0]), Run(s, es));
    }
  }

  /** Every state the protocol reaches from empty tables satisfies the invariant. */
  lemma ReachableInv(c: Settings, now: Time, es: seq<Event>)
    requires ValidSettings(c)
    ensures Inv(Run(Initial(c, now), es))
  {
    hide Inv, Evolves, Run;
    InitialInv(c, now);
    RunInv(Initial(c, now), es);
  }
}
