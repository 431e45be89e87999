/** The per-job program of a worker: heartbeat thread, boundary checks, and how an execution ends. */
module WorkerProgram {
  import opened Basics
  import opened Coordination
  import opened CoordinationStore

  /** How the indexer call ended: normally, or by one of the exceptions the worker tells apart. */
  datatype Ending = Indexed(fileErrors: nat) | Cancellation | OwnershipLost | Failure(error: string)

  /** lost and cancel are the two events shared with the heartbeat thread. An outage flag on a call means that
      PostgreSQL raised before the transaction took effect. */
  class Execution {
    const store: CoordinationRepository
    const job: Job
    var lost: bool
    var cancel: bool

    constructor (store: CoordinationRepository, job: Job)
      ensures this.store == store && this.job == job && !lost && !cancel
    {
      this.store, this.job := store, job;
      lost, cancel := false, false;
    }

    /** The snapshot comes from a claim. */
    ghost predicate Valid()
      reads this, store
    {
      store.Valid() && job in store.issued
    }

    /** One beat. Any failure to renew sets lost for good and ends the heartbeat thread. */
    method Heartbeat(w: WorkerId, session: Session, outage: bool) returns (alive: bool)
      requires Valid()
      modifies this, store`jobs, store`attempts, store`workers
      ensures Valid()
      ensures alive ==> !outage && Owned(old(store.Tables()), job) && lost == old(lost)
      ensures !alive ==> lost
      ensures old(lost) ==> lost
      ensures old(cancel) ==> cancel
      ensures alive && old(store.jobs)[job.id].cancelRequested ==> cancel
      ensures !Owned(old(store.Tables()), job) || outage ==> lost && store.Tables() == old(store.Tables())
    {
      hide Sound;
      if outage {
        lost := true;
        return false;
      }
      var renewed := store.RenewLease(job);
      if renewed.Err? {
        lost := true;
        return false;
      }
      if renewed.value {
        cancel := true;
      }
      var beat := store.HeartbeatWorker(w, session, Some(job.id));
      if beat.Err? {
        lost := true;
        return false;
      }
      return true;
    }

    /** True means cancellation was requested; raising LeaseLost is the only other way out. */
    method Check(outage: bool) returns (r: Result<bool, Error>)
      modifies this`lost
      ensures r.Ok? <==> !old(lost) && (cancel || (!outage && Owned(store.Tables(), job)))
      ensures r.Ok? ==> lost == old(lost)
      ensures old(lost) ==> lost
      ensures r.Ok? ==> r.value == (cancel || store.jobs[job.id].cancelRequested)
    {
      if lost {
        return Err(LeaseLost);
      }
      if cancel {
        return Ok(true);
      }
      if outage {
        lost := true;
        return Err(LeaseLost);
      }
      r := store.AssertOwnership(job);
    }

    /** Entering mutation(): the free check, then the guard, then the first boundary. Time may pass before the
        boundary and the heartbeat thread may report a lost lease meanwhile. Only a holder that is neither lost nor
        cancelled comes out inside the guard; otherwise the guard is released and no table has changed. */
    method EnterMutation(outage: bool, pause: real, lostMeanwhile: bool) returns (entered: bool)
      requires Valid() && pause >= 0.0
      modifies this`lost, store`guards, store`now
      ensures Valid()
      ensures entered ==> !lost && !cancel && Owned(store.Tables(), job) && Guarding(store.Tables(), job)
                          && !store.jobs[job.id].cancelRequested
      ensures !entered ==> store.guards == old(store.guards)
      ensures store.Tables() == old(store.Tables()).(now := store.now, guards := store.guards)
      ensures old(lost) ==> lost
    {
      hide Sound;
      var checked := Check(outage);
      if checked.Err? || checked.value {
        return false;
      }
      var guarded := store.EnterGuard(job);
      if guarded.Err? {
        return false;
      }
      store.Tick(pause);
      if lostMeanwhile {
        lost := true;
      }
      entered := Boundary();
      if !entered {
        store.LeaveGuard(job.repo);
      }
    }

    /** The check handed to the indexer inside the guard: false when it raises LeaseLost or IndexCancelled. */
    method Boundary() returns (mayWrite: bool)
      ensures mayWrite <==> !lost && Owned(store.Tables(), job) && !store.jobs[job.id].cancelRequested
    {
      if lost {
        return false;
      }
      var owned := store.AssertOwnership(job);
      return owned.Ok? && !owned.value;
    }

    /** The end of execute. At most one fenced update takes effect; a lost execution reports nothing, except that an
        observed cancellation may still be acknowledged; and whatever took effect surrendered the lease. */
    method Conclude(ending: Ending, outageAtCheck: bool, outageAtFinish: bool, outageAtRetry: bool, jitter: real)
      requires Valid()
      modifies this`lost, store
      ensures Valid()
      ensures ending.OwnershipLost? ==> store.Tables() == old(store.Tables())
      ensures ending.Cancellation? ==>
                store.Tables() == if outageAtFinish then old(store.Tables()) else CancelJob(old(store.Tables()), job).state
      ensures old(lost) && !ending.Cancellation? ==> store.Tables() == old(store.Tables())
      ensures ending.Failure? && !old(lost) ==>
                store.Tables() == if outageAtRetry then old(store.Tables())
                                  else ScheduleRetry(old(store.Tables()), job, ending.error, jitter).state
      ensures ending.Indexed? && !old(lost) ==>
                store.Tables() == old(store.Tables())
                || store.Tables() == CompleteJob(old(store.Tables()), job, ending.fileErrors > 0).state
                || exists message :: store.Tables() == ScheduleRetry(old(store.Tables()), job, message, jitter).state
      ensures ending.Indexed? && !old(lost) && !outageAtCheck && !outageAtFinish && job.repo !in old(store.guards) ==>
                store.Tables() == CompleteJob(old(store.Tables()), job, ending.fileErrors > 0).state
      ensures store.Tables() != old(store.Tables()) ==> !Owned(store.Tables(), job)
    {
      hide Sound;
      match ending {
        case OwnershipLost =>
        case Cancellation =>
          if !outageAtFinish {
            var _ := store.CancelJob(job);
          }
        case Failure(error) =>
          Retry(error, outageAtRetry, jitter);
        case Indexed(fileErrors) =>
          var checked := Check(outageAtCheck);
          if checked.Ok? {
            if outageAtFinish {
              Retry("PostgreSQL unavailable", outageAtRetry, jitter);
            } else {
              var finished := store.CompleteJob(job, fileErrors > 0);
              if finished == Err(LockTimeout) {
                Retry("canceling statement due to statement timeout", outageAtRetry, jitter);
              }
            }
          }
      }
    }

    /** The generic exception handler: a lost execution raises LeaseLost instead of scheduling a retry. */
    method Retry(error: string, outage: bool, jitter: real)
      requires Valid()
      modifies store
      ensures Valid()
      ensures store.Tables() == if lost || outage then old(store.Tables())
                                else ScheduleRetry(old(store.Tables()), job, error, jitter).state
    {
      hide Sound;
      if !lost && !outage {
        var _ := store.ScheduleRetry(job, error, jitter);
      }
    }
  }
}
