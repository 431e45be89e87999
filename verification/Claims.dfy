/** What a poll takes, what it makes of the job it takes, and what it cleans up on the way. */
module Claims {
  import opened Basics
  import opened Coordination
  import opened CoordinationInvariants
  import opened CoordinationSteps
  import opened CoordinationTheorems

  /** Nothing stands between job j and a worker: it waits and its time has come, or its lease is over; it is not cancelled and
      has budget left; and its repository is neither guarded nor reserved by another job. */
  ghost predicate Obtainable(s: State, j: JobId) {
    && j in s.jobs
    && !s.jobs[j].cancelRequested && s.jobs[j].attempt < s.jobs[j].maxAttempts
    && s.jobs[j].repo in s.execution && s.jobs[j].repo !in s.guards
    && (s.execution[s.jobs[j].repo].Some? ==> s.execution[s.jobs[j].repo].value == j)
    && (if s.jobs[j].status.Running? then s.jobs[j].leaseExpiresAt.Some? && s.jobs[j].leaseExpiresAt.value <= s.now
        else (s.jobs[j].status.Queued? || s.jobs[j].status.Retrying?) && s.jobs[j].availableAt <= s.now)
  }

  lemma ObtainableIsClaimable(s: State, j: JobId)
    ensures Obtainable(s, j) <==> Claimable(s, j) && !Exhausted(s.jobs[j])
    ensures Obtainable(s, j) ==> j in s.jobs
  {
  }

  lemma DiscardElsewhere(s: State, j: JobId, k: JobId)
    requires Claimable(s, j) && j != k
    ensures var t := Discard(s, j);
            && t.now == s.now && t.cfg == s.cfg && t.jobs.Keys == s.jobs.Keys && |t.attempts| == |s.attempts|
            && (k in s.jobs ==> t.jobs[k] == s.jobs[k])
            && (Obtainable(s, k) ==> Obtainable(t, k))
            && forall i | 0 <= i < |s.attempts| && s.attempts[i].job == k :: t.attempts[i] == s.attempts[i]
  {
    hide ReleaseWorker;
  }

  // ---------- the order of claims ----------

  /** Not a lower priority; at equal priority not available later; then not created later; then not a greater id. */
  ghost predicate NoLessUrgent(a: Job, b: Job) {
    && a.priority >= b.priority
    && (a.priority == b.priority ==>
          && a.availableAt <= b.availableAt
          && (a.availableAt == b.availableAt ==> a.createdAt <= b.createdAt && (a.createdAt == b.createdAt ==> a.id <= b.id)))
  }

  lemma FirstOfTwo(s: State, j: JobId, k: JobId)
    requires Rows(s) && IsFirst(s, j) && Claimable(s, k)
    ensures NoLessUrgent(s.jobs[j], s.jobs[k])
  {
    RowAt(s, j);
    RowAt(s, k);
  }

  lemma {:induction false} RoundsTakeTheFirst(s: State, w: WorkerId, rounds: nat, k: JobId)
    requires Inv(s) && w in s.workers && ClaimRounds(s, w, rounds).1.Some? && Obtainable(s, k)
    ensures var j := ClaimRounds(s, w, rounds).1.value.id;
            j in s.jobs && NoLessUrgent(s.jobs[j], s.jobs[k])
    decreases rounds
  {
    hide Inv, Rows, Reservation, Handles, Guards, Evolves, Obtainable, Claimable, Exhausted, Discard, IsFirst;
    var c := Candidate(s).value;
    FirstQualifies(s, c);
    InvRows(s);
    RowAt(s, c);
    ObtainableIsClaimable(s, k);
    if Exhausted(s.jobs[c]) {
      DiscardEnds(s, c);
      assert c != k;
      DiscardElsewhere(s, c, k);
      DiscardInv(s, c);
      RoundsTakeTheFirst(Discard(s, c), w, rounds - 1, k);
      RoundsTakeWhatRuns(Discard(s, c), w, rounds - 1);
      DiscardElsewhere(s, c, ClaimRounds(s, w, rounds).1.value.id);
    } else {
      FirstOfTwo(s, c, k);
    }
  }

  lemma FirstQualifies(s: State, j: JobId)
    requires IsFirst(s, j)
    ensures Claimable(s, j) && j in s.jobs
  {
  }

  lemma DiscardEnds(s: State, j: JobId)
    requires Claimable(s, j)
    ensures j in Discard(s, j).jobs && Discard(s, j).jobs[j].status.Terminal()
    ensures Discard(s, j).jobs.Keys == s.jobs.Keys && Discard(s, j).workers.Keys == s.workers.Keys && Discard(s, j).now == s.now
  {
    hide CloseRow;
  }

  lemma {:induction false} RoundsTakeWhatRuns(s: State, w: WorkerId, rounds: nat)
    requires Inv(s) && w in s.workers && ClaimRounds(s, w, rounds).1.Some?
    ensures var j := ClaimRounds(s, w, rounds).1.value.id; j in s.jobs && !s.jobs[j].status.Terminal()
    decreases rounds
  {
    hide Inv, Rows, Reservation, Handles, Guards, Evolves, Exhausted, Discard;
    var c := Candidate(s).value;
    InvRows(s);
    RowAt(s, c);
    if Exhausted(s.jobs[c]) {
      DiscardInv(s, c);
      DiscardEnds(s, c);
      RoundsTakeWhatRuns(Discard(s, c), w, rounds - 1);
      DiscardElsewhere(s, c, ClaimRounds(s, w, rounds).1.value.id);
    }
  }

  /** A poll takes the most urgent job there is: no obtainable job has a higher priority; among those of equal priority none
      was available earlier; then none was created earlier; then none has a smaller id. */
  lemma ClaimTakesTheFirst(s: State, w: WorkerId, session: Session, k: JobId)
    requires Inv(s) && Obtainable(s, k)
    requires var r := ClaimJob(s, w, session).result; r.Ok? && r.value.Some?
    ensures var j := ClaimJob(s, w, session).result.value.value.id;
            j in s.jobs && NoLessUrgent(s.jobs[j], s.jobs[k])
  {
    hide Inv, Obtainable;
    RoundsTakeTheFirst(s, w, CLAIM_ROUNDS, k);
  }

  // ---------- what a granted job looks like ----------

  /** A job whose time has come: its availability, or the end of its lease. */
  ghost predicate Pending(a: Job, now: Time) {
    if a.status.Running? then a.leaseExpiresAt.Some? && a.leaseExpiresAt.value <= now
    else (a.status.Queued? || a.status.Retrying?) && a.availableAt <= now
  }

  /** Row b of a job after worker w claimed it as row a at the given time. */
  ghost predicate Started(a: Job, b: Job, w: WorkerId, now: Time, lease: real) {
    && SameIdentity(a, b) && b.availableAt == a.availableAt
    && b.status.Running? && b.worker == Some(w) && b.leaseExpiresAt == Some(now + lease)
    && b.generation == a.generation + 1 && b.attempt == a.attempt + 1 <= b.maxAttempts
    && b.completedAt.None? && b.error.None? && !b.cancelRequested
    && b.progress == Progress(0, 0, 0, 0, 0, 0, 0)
  }

  /** The attempt row a claim opens. */
  ghost predicate Opened(a: Attempt, job: Job, now: Time, reclaimed: bool) {
    && a.job == job.id && a.generation == job.generation && Some(a.worker) == job.worker && a.attempt == job.attempt
    && a.claimedAt == now && Some(a.leaseExpiresAt) == job.leaseExpiresAt
    && a.endedAt.None? && a.outcome.None? && a.error.None? && (a.reclaimed <==> reclaimed)
  }

  ghost predicate ExpiredAt(a: Attempt, b: Attempt, now: Time) {
    b == a.(endedAt := Some(now), outcome := Some(Expired))
  }

  /** The claimed job runs under a new generation, its repository is reserved, its worker busy, its attempt on record, and the
      attempt it takes over from, if any, expired. */
  ghost predicate Taken(s: State, t: State, w: WorkerId, job: Job) {
    && job.id in s.jobs && Pending(s.jobs[job.id], s.now) && Started(s.jobs[job.id], job, w, s.now, s.cfg.lease)
    && job.id in t.jobs && t.jobs[job.id] == job && job in t.issued
    && job.repo in t.execution && t.execution[job.repo] == Some(job.id)
    && w in t.workers && t.workers[w].status.Busy? && t.workers[w].currentJob == Some(job.id) && t.workers[w].lastSeen == s.now
    && |t.attempts| == |s.attempts| + 1
    && Opened(t.attempts[|s.attempts|], job, s.now, s.jobs[job.id].status.Running?)
    && (s.jobs[job.id].status.Running? ==>
          forall i | 0 <= i < |s.attempts| && IsRow(s.attempts[i], job.id, s.jobs[job.id].generation) ::
            ExpiredAt(s.attempts[i], t.attempts[i], s.now))
  }

  lemma GrantTakes(s: State, j: JobId, w: WorkerId)
    requires Rows(s) && Claimable(s, j) && !Exhausted(s.jobs[j]) && w in s.workers
    ensures Taken(s, Grant(s, j, w), w, Claimed(s, j, w))
  {
    RowAt(s, j);
  }

  /** Cleaning up another job first makes no difference. */
  lemma TakenAfterDiscard(s: State, j: JobId, t: State, w: WorkerId, job: Job)
    requires Claimable(s, j) && Taken(Discard(s, j), t, w, job) && job.id in s.jobs && job.id != j
    ensures Taken(s, t, w, job)
  {
    hide Discard, Started, Opened;
    DiscardElsewhere(s, j, job.id);
    assert forall i | 0 <= i < |s.attempts| && s.attempts[i].job == job.id :: Discard(s, j).attempts[i] == s.attempts[i];
  }

  lemma {:induction false} RoundsTake(s: State, w: WorkerId, rounds: nat)
    requires Inv(s) && w in s.workers && ClaimRounds(s, w, rounds).1.Some?
    ensures var r := ClaimRounds(s, w, rounds); Taken(s, r.0, w, r.1.value) && Owned(r.0, r.1.value)
    decreases rounds
  {
    hide Inv, Rows, Reservation, Handles, Guards, Evolves, Exhausted, Discard, Grant, Taken, Claimable, IsFirst;
    var c := Candidate(s).value;
    FirstQualifies(s, c);
    InvRows(s);
    if Exhausted(s.jobs[c]) {
      var t := Discard(s, c);
      DiscardInv(s, c);
      DiscardEnds(s, c);
      RoundsTake(t, w, rounds - 1);
      RoundsTakeWhatRuns(t, w, rounds - 1);
      TakenAfterDiscard(s, c, ClaimRounds(s, w, rounds).0, w, ClaimRounds(s, w, rounds).1.value);
    } else {
      GrantTakes(s, c, w);
      GrantOwns(s, c, w);
    }
  }

  lemma GrantOwns(s: State, j: JobId, w: WorkerId)
    requires Inv(s) && Claimable(s, j) && w in s.workers
    ensures Owned(Grant(s, j, w), Claimed(s, j, w))
  {
    hide Rows, Reservation, Handles, Guards, Writes, UniqueKeys, Forest, Watching, History, CloseRow;
    RowAt(s, j);
  }

  /** A poll that answers with a job has taken it: the job runs under a new generation and lease with one more attempt spent
      and its progress cleared, the worker owns it, and a predecessor's expired attempt is on record as such. Only a worker
      that is not registered under its session is refused, and then nothing changes. */
  lemma ClaimTakesOver(s: State, w: WorkerId, session: Session)
    requires Inv(s)
    ensures var r := ClaimJob(s, w, session);
            && (r.result.Err? <==> !(w in s.workers && s.workers[w].session == session && s.workers[w].status != Stopped))
            && (r.result.Err? ==> r == Reply(s, Err(LeaseLost)))
            && (r.result.Ok? && r.result.value.Some? ==>
                  Taken(s, r.state, w, r.result.value.value) && Owned(r.state, r.result.value.value))
  {
    hide Inv, Taken, Owned;
    if Registered(s, w, session) && ClaimRounds(s, w, CLAIM_ROUNDS).1.Some? {
      RoundsTake(s, w, CLAIM_ROUNDS);
    }
  }

  // ---------- cleaning up ----------

  /** What becomes of a job that a worker left behind for good: cancelled if that was requested, failed at the end of its
      budget. */
  ghost predicate Buried(a: Job, b: Job, now: Time) {
    && a.status.Running? && a.leaseExpiresAt.Some? && a.leaseExpiresAt.value <= now
    && b == a.(status := b.status, error := b.error, worker := None, leaseExpiresAt := None, completedAt := Some(now))
    && (if a.cancelRequested then b.status == Cancelled && b.error.None?
        else a.attempt == a.maxAttempts && b.status == Failed && b.error == Some("attempt budget exhausted after lease expiry"))
  }

  /** A poll's effect on a job it does not hand out and on that job's attempts. */
  ghost predicate LeftOrBuried(s: State, t: State, j: JobId)
    requires j in s.jobs
  {
    && j in t.jobs && |s.attempts| <= |t.attempts|
    && (t.jobs[j] == s.jobs[j] || Buried(s.jobs[j], t.jobs[j], s.now))
    && forall i | 0 <= i < |s.attempts| && s.attempts[i].job == j ::
         t.attempts[i] == if t.jobs[j] != s.jobs[j] && s.attempts[i].generation == s.jobs[j].generation
                          then s.attempts[i].(endedAt := Some(s.now), outcome := Some(Ended(t.jobs[j].status)))
                          else s.attempts[i]
  }

  lemma DiscardBuries(s: State, j: JobId)
    requires Rows(s) && Claimable(s, j) && Exhausted(s.jobs[j])
    ensures var t := Discard(s, j); LeftOrBuried(s, t, j) && t.jobs[j] != s.jobs[j] && t.jobs[j].status.Terminal()
  {
    hide ReleaseWorker;
    RowAt(s, j);
  }

  lemma OthersStay(s: State, j: JobId, k: JobId)
    requires Claimable(s, j) && k in s.jobs && k != j
    ensures LeftOrBuried(s, Discard(s, j), k) && Discard(s, j).jobs[k] == s.jobs[k]
  {
    hide Discard;
    DiscardElsewhere(s, j, k);
  }

  lemma GrantLeavesOthers(s: State, j: JobId, w: WorkerId, k: JobId)
    requires Claimable(s, j) && w in s.workers && k in s.jobs && k != j
    ensures LeftOrBuried(s, Grant(s, j, w), k)
  {
  }

  lemma BuriedOnce(s: State, u: State, t: State, k: JobId)
    requires k in s.jobs && LeftOrBuried(s, u, k) && LeftOrBuried(u, t, k) && u.now == s.now
    requires u.jobs[k] == s.jobs[k] || u.jobs[k].status.Terminal()
    ensures LeftOrBuried(s, t, k)
  {
  }

  lemma {:induction false} RoundsBury(s: State, w: WorkerId, rounds: nat, k: JobId)
    requires Inv(s) && w in s.workers && k in s.jobs
    ensures var r := ClaimRounds(s, w, rounds); (r.1.Some? && r.1.value.id == k) || LeftOrBuried(s, r.0, k)
    decreases rounds
  {
    hide Inv, Rows, Reservation, Handles, Guards, Evolves, Exhausted, Discard, Grant, LeftOrBuried, Claimable, IsFirst;
    var c := Candidate(s);
    if rounds == 0 || c.None? {
      NothingHappened(s, k);
    } else {
      FirstQualifies(s, c.value);
      InvRows(s);
      if Exhausted(s.jobs[c.value]) {
        var t := Discard(s, c.value);
        DiscardInv(s, c.value);
        DiscardEnds(s, c.value);
        RoundsBury(t, w, rounds - 1, k);
        if k == c.value {
          DiscardBuries(s, k);
        } else {
          OthersStay(s, c.value, k);
        }
        if LeftOrBuried(t, ClaimRounds(t, w, rounds - 1).0, k) {
          BuriedOnce(s, t, ClaimRounds(t, w, rounds - 1).0, k);
        }
      } else if k != c.value {
        GrantLeavesOthers(s, c.value, w, k);
      } else {
        RowAt(s, k);
      }
    }
  }

  lemma NothingHappened(s: State, k: JobId)
    requires k in s.jobs
    ensures LeftOrBuried(s, s, k)
  {
  }

  /** Whatever a poll answers, every job but the one it hands out is left alone, its attempts too, or it was running past its
      lease, cancelled or at the end of its budget, and is buried with its open attempt. */
  lemma ClaimBuriesTheLost(s: State, w: WorkerId, session: Session, k: JobId)
    requires Inv(s) && k in s.jobs
    ensures var r := ClaimJob(s, w, session);
            (r.result.Ok? && r.result.value.Some? && r.result.value.value.id == k) || LeftOrBuried(s, r.state, k)
  {
    hide Inv, LeftOrBuried;
    if Registered(s, w, session) {
      RoundsBury(s, w, CLAIM_ROUNDS, k);
    } else {
      NothingHappened(s, k);
    }
  }

  /** The worker's own job was buried by the poll. */
  ghost predicate Abandoned(s: State, t: State, v: WorkerId)
    requires v in s.workers
  {
    && s.workers[v].currentJob.Some?
    && var j := s.workers[v].currentJob.value;
       && j in s.jobs && j in t.jobs && s.jobs[j].status.Running? && s.jobs[j].worker == Some(v) && t.jobs[j].status.Terminal()
  }

  /** A worker's account after a poll: one more failure exactly if its own job was buried as failed. */
  ghost predicate Accounted(s: State, t: State, v: WorkerId)
    requires v in s.workers
  {
    && v in t.workers && t.workers[v].session == s.workers[v].session
    && t.workers[v].completedJobs == s.workers[v].completedJobs
    && t.workers[v].failedJobs
       == s.workers[v].failedJobs + (if Abandoned(s, t, v) && t.jobs[s.workers[v].currentJob.value].status.Failed? then 1 else 0)
  }

  /** A worker that does not take a job is idle if its job was buried, and else as before. */
  ghost predicate FreedOrSame(s: State, t: State, v: WorkerId)
    requires v in s.workers
  {
    && Accounted(s, t, v)
    && t.workers[v] == if Abandoned(s, t, v)
                       then s.workers[v].(status := Idle, currentJob := None, failedJobs := t.workers[v].failedJobs)
                       else s.workers[v]
  }

  lemma DiscardFrees(s: State, j: JobId, v: WorkerId)
    requires Claimable(s, j) && v in s.workers
    ensures FreedOrSame(s, Discard(s, j), v)
    ensures Discard(s, j).jobs[j].worker.None?
  {
    hide CloseRow;
  }

  /** A later cleanup finds a freed worker idle, and a kept one with its job as it was. */
  lemma FreedOnce(s: State, u: State, t: State, v: WorkerId)
    requires v in s.workers && FreedOrSame(s, u, v) && t.jobs.Keys == u.jobs.Keys == s.jobs.Keys
    requires forall j | j in s.jobs ::
               u.jobs[j] == s.jobs[j] || (u.jobs[j].status.Terminal() && u.jobs[j].worker.None? && t.jobs[j] == u.jobs[j])
    ensures Accounted(u, t, v) ==> Accounted(s, t, v)
    ensures FreedOrSame(u, t, v) ==> FreedOrSame(s, t, v)
  {
  }

  lemma GrantAccounts(s: State, j: JobId, w: WorkerId, v: WorkerId)
    requires Claimable(s, j) && w in s.workers && v in s.workers
    ensures Accounted(s, Grant(s, j, w), v) && (v != w ==> FreedOrSame(s, Grant(s, j, w), v))
  {
    hide CloseRow;
  }

  lemma SameAccounts(s: State, v: WorkerId)
    requires v in s.workers
    ensures FreedOrSame(s, s, v)
  {
  }

  lemma {:induction false} RoundsAccount(s: State, w: WorkerId, rounds: nat, v: WorkerId)
    requires Inv(s) && w in s.workers && v in s.workers
    ensures var r := ClaimRounds(s, w, rounds);
            && Accounted(s, r.0, v) && (r.1.None? || v != w ==> FreedOrSame(s, r.0, v)) && r.0.jobs.Keys == s.jobs.Keys
            && forall j | j in s.jobs && s.jobs[j].status.Terminal() :: r.0.jobs[j] == s.jobs[j]
    decreases rounds
  {
    hide Inv, Rows, Reservation, Handles, Guards, Evolves, Exhausted, Discard, Grant, Accounted, FreedOrSame, Claimable, IsFirst;
    var c := Candidate(s);
    if rounds == 0 || c.None? {
      SameAccounts(s, v);
      assert Accounted(s, s, v) by { AccountOf(s, s, v); }
    } else {
      FirstQualifies(s, c.value);
      if Exhausted(s.jobs[c.value]) {
        var u := Discard(s, c.value);
        DiscardInv(s, c.value);
        DiscardEnds(s, c.value);
        DiscardFrees(s, c.value, v);
        RoundsAccount(u, w, rounds - 1, v);
        var t := ClaimRounds(u, w, rounds - 1).0;
        forall j | j in s.jobs
          ensures j != c.value ==> u.jobs[j] == s.jobs[j]
          ensures u.jobs[j] == s.jobs[j] || (u.jobs[j].status.Terminal() && u.jobs[j].worker.None? && t.jobs[j] == u.jobs[j])
        {
          if j != c.value {
            DiscardElsewhere(s, c.value, j);
          }
        }
        CandidateRuns(s, c.value);
        FreedOnce(s, u, t, v);
      } else {
        GrantAccounts(s, c.value, w, v);
        GrantKeys(s, c.value, w);
      }
    }
  }

  lemma AccountOf(s: State, t: State, v: WorkerId)
    requires v in s.workers && FreedOrSame(s, t, v)
    ensures Accounted(s, t, v)
  {
  }

  lemma CandidateRuns(s: State, j: JobId)
    requires Claimable(s, j)
    ensures j in s.jobs && !s.jobs[j].status.Terminal()
  {
  }

  lemma GrantKeys(s: State, j: JobId, w: WorkerId)
    requires Claimable(s, j) && w in s.workers
    ensures Grant(s, j, w).jobs.Keys == s.jobs.Keys
    ensures forall k | k in s.jobs && s.jobs[k].status.Terminal() :: Grant(s, j, w).jobs[k] == s.jobs[k]
  {
    hide CloseRow;
  }

  /** A poll keeps the workers' accounts: exactly those whose own job it buried as failed have one more failure, nobody has one
      more success, and whoever does not take the job is idle if its own was buried, and else as before. */
  lemma PollsKeepAccounts(s: State, w: WorkerId, session: Session, v: WorkerId)
    requires Inv(s) && v in s.workers
    ensures var r := ClaimJob(s, w, session);
            && Accounted(s, r.state, v)
            && (r.result.Err? || r.result.value.None? || v != w ==> FreedOrSame(s, r.state, v))
  {
    hide Inv, Accounted, FreedOrSame;
    if Registered(s, w, session) {
      RoundsAccount(s, w, CLAIM_ROUNDS, v);
    } else {
      SameAccounts(s, v);
      AccountOf(s, s, v);
    }
  }

  // ---------- polls that come back empty ----------

  ghost function Finished(s: State): set<JobId> {
    set j | j in s.jobs && s.jobs[j].status.Terminal()
  }

  lemma DiscardFinishesOne(s: State, j: JobId)
    requires Claimable(s, j)
    ensures |Finished(Discard(s, j))| == |Finished(s)| + 1
  {
    hide CloseRow, ReleaseWorker;
    assert Finished(Discard(s, j)) == Finished(s) + {j};
  }

  lemma {:induction false} EmptyRounds(s: State, w: WorkerId, rounds: nat, k: JobId)
    requires Inv(s) && w in s.workers && ClaimRounds(s, w, rounds).1.None? && Obtainable(s, k)
    ensures |Finished(ClaimRounds(s, w, rounds).0)| == |Finished(s)| + rounds
    decreases rounds
  {
    hide Inv, Rows, Reservation, Handles, Guards, Evolves, Exhausted, Discard, Grant, Claimable, IsFirst, Obtainable, Finished;
    if rounds > 0 {
      InvRows(s);
      ObtainableIsClaimable(s, k);
      CandidateFound(s, k);
      var c := Candidate(s).value;
      FirstQualifies(s, c);
      assert Exhausted(s.jobs[c]) && c != k;
      DiscardInv(s, c);
      DiscardEnds(s, c);
      DiscardFinishesOne(s, c);
      DiscardElsewhere(s, c, k);
      EmptyRounds(Discard(s, c), w, rounds - 1, k);
    }
  }

  /** A poll comes back empty only when there was nothing to take, or after it has buried 32 jobs. */
  lemma EmptyPollsAreDeserved(s: State, w: WorkerId, session: Session, k: JobId)
    requires Inv(s) && ClaimJob(s, w, session).result == Ok(None) && Obtainable(s, k)
    ensures |Finished(ClaimJob(s, w, session).state)| == |Finished(s)| + 32
  {
    hide Inv, Finished, Obtainable;
    EmptyRounds(s, w, CLAIM_ROUNDS, k);
  }
}
