/**
 What every transaction keeps: table constraints, the per-repository reservation, the hidden
 attempt budget, the attempt history, snapshot and guard fencing, unique keys and the retry forest.
 */
module CoordinationInvariants {
  import opened Basics
  import opened Coordination

  // ---------- the invariant ----------

  /** The CHECK constraints of jobs, and the budget every runnable job still has. */
  ghost predicate RowOk(j: JobId, job: Job) {
    && job.id == j
    && ValidMode(job.mode)
    && (job.status.Running? <==> job.worker.Some?)
    && (job.status.Running? <==> job.leaseExpiresAt.Some?)
    && (job.status.Terminal() <==> job.completedAt.Some?)
    && 0 < job.maxAttempts
    && job.attempt <= job.maxAttempts
    && (job.status.Waiting() ==> !job.cancelRequested && job.attempt < job.maxAttempts)
    && job.generation <= job.attempt
    && (job.status.Queued? ==> job.generation == 0)
    && (job.status.Running? || job.status.Retrying? ==> 0 < job.generation)
  }

  ghost predicate Rows(s: State) {
    forall j | j in s.jobs :: RowOk(j, s.jobs[j]) && s.jobs[j].repo in s.execution && s.jobs[j].serial < |s.jobs|
  }

  ghost predicate Reservation(s: State) {
    && (forall r | r in s.execution && s.execution[r].Some? ::
          s.execution[r].value in s.jobs && s.jobs[s.execution[r].value].repo == r
          && s.jobs[s.execution[r].value].status.Running?)
    && (forall j | j in s.jobs && s.jobs[j].status.Running? ::
          s.jobs[j].repo in s.execution && s.execution[s.jobs[j].repo] == Some(j))
  }

  ghost predicate Closed(a: Attempt, now: Time) {
    a.endedAt.Some? && a.endedAt.value <= now && a.outcome.Some?
  }

  /** An attempt row against its job: earlier generations ended as expired or retrying, the current
      one is open exactly while the job runs. */
  ghost predicate AttemptOk(s: State, a: Attempt) {
    && a.job in s.jobs
    && 1 <= a.generation <= s.jobs[a.job].generation
    && a.claimedAt <= s.now
    && var job := s.jobs[a.job];
       if a.generation < job.generation then
         Closed(a, s.now) && (a.outcome == Some(Expired) || a.outcome == Some(Ended(Retrying)))
       else if job.status.Running? then
         a.endedAt.None? && a.outcome.None? && job.leaseExpiresAt == Some(a.leaseExpiresAt) && job.worker == Some(a.worker)
       else
         Closed(a, s.now)
         && (a.outcome == Some(Ended(job.status)) || (job.status.Cancelled? && a.outcome == Some(Ended(Retrying))))
  }

  ghost predicate AttemptRows(s: State) {
    forall i :: 0 <= i < |s.attempts| ==> AttemptOk(s, s.attempts[i])
  }

  ghost predicate UniqueRows(rows: seq<Attempt>) {
    forall i, k :: 0 <= i < k < |rows| ==> !(rows[i].job == rows[k].job && rows[i].generation == rows[k].generation)
  }

  ghost predicate CompleteRows(s: State) {
    forall j, g | j in s.jobs && 1 <= g <= s.jobs[j].generation :: HasRow(s.attempts, j, g)
  }

  ghost predicate Successive(a: Attempt, b: Attempt) {
    a.job == b.job && b.generation == a.generation + 1
  }

  /** Row g+1 is marked reclaimed exactly when row g expired. */
  ghost predicate Links(rows: seq<Attempt>) {
    && (forall i :: 0 <= i < |rows| && rows[i].generation == 1 ==> !rows[i].reclaimed)
    && (forall i, k | 0 <= i < |rows| && 0 <= k < |rows| && Successive(rows[i], rows[k]) ::
          rows[k].reclaimed <==> rows[i].outcome == Some(Expired))
  }

  ghost predicate SameRepo(s: State, a: Attempt, b: Attempt) {
    a.job in s.jobs && b.job in s.jobs && s.jobs[a.job].repo == s.jobs[b.job].repo
  }

  /** Claims are recorded in time order, and an earlier attempt on a repository ended before the next claim. */
  ghost predicate Timeline(s: State) {
    forall i, k :: 0 <= i < k < |s.attempts| ==>
      && s.attempts[i].claimedAt <= s.attempts[k].claimedAt
      && (SameRepo(s, s.attempts[i], s.attempts[k]) ==>
            s.attempts[i].endedAt.Some? && s.attempts[i].endedAt.value <= s.attempts[k].claimedAt)
  }

  ghost predicate History(s: State) {
    AttemptRows(s) && UniqueRows(s.attempts) && CompleteRows(s) && Links(s.attempts) && Timeline(s)
  }

  /** A snapshot agrees with the row on everything a worker decides by, while the generation is current. */
  ghost predicate HandleOk(s: State, h: Job) {
    && h.id in s.jobs
    && h.repo == s.jobs[h.id].repo
    && h.worker.Some?
    && 1 <= h.generation <= s.jobs[h.id].generation
    && h.maxAttempts == s.jobs[h.id].maxAttempts
    && (h.generation == s.jobs[h.id].generation ==> h.attempt == s.jobs[h.id].attempt)
    && (h.generation == s.jobs[h.id].generation && s.jobs[h.id].status.Running? ==> s.jobs[h.id].worker == h.worker)
  }

  ghost predicate Handles(s: State) {
    && (forall h | h in s.issued :: HandleOk(s, h))
    && (forall h, k | h in s.issued && k in s.issued && h.id == k.id && h.generation == k.generation :: h == k)
  }

  /** The holder of a guard is the running, current claim of its repository, expired or not. */
  ghost predicate Guards(s: State) {
    forall r | r in s.guards ::
      && s.guards[r] in s.issued
      && s.guards[r].repo == r
      && s.guards[r].id in s.jobs
      && s.jobs[s.guards[r].id].repo == r
      && s.jobs[s.guards[r].id].status.Running?
      && s.jobs[s.guards[r].id].generation == s.guards[r].generation
  }

  ghost predicate WriteOk(s: State, w: StorageWrite) {
    && w.claim < |s.attempts|
    && IsRow(s.attempts[w.claim], w.job, w.generation)
    && w.job in s.jobs
    && s.jobs[w.job].repo == w.repo
  }

  /** Writes to one repository follow the order of its claims. */
  ghost predicate Writes(s: State) {
    && (forall p :: 0 <= p < |s.writes| ==> WriteOk(s, s.writes[p]))
    && (forall p, q :: 0 <= p < q < |s.writes| && s.writes[p].repo == s.writes[q].repo ==>
          s.writes[p].claim <= s.writes[q].claim)
  }

  ghost predicate UniqueKeys(s: State) {
    forall i, j | i in s.jobs && j in s.jobs && s.jobs[i].key.Some? && s.jobs[i].key == s.jobs[j].key :: i == j
  }

  ghost predicate Forest(s: State) {
    && (forall i, j {:trigger s.jobs[i].parent, s.jobs[j].parent} |
          i in s.jobs && j in s.jobs && s.jobs[i].parent.Some? && s.jobs[i].parent == s.jobs[j].parent :: i == j)
    && (forall j {:trigger s.jobs[j].parent} | j in s.jobs && s.jobs[j].parent.Some? :: ParentOk(s, j, s.jobs[j].parent.value))
  }

  ghost predicate ParentOk(s: State, j: JobId, p: JobId)
    requires j in s.jobs
  {
    && p in s.jobs && s.jobs[p].status.Terminal()
    && s.jobs[p].serial < s.jobs[j].serial && s.jobs[p].repo == s.jobs[j].repo
  }

  /** At most one active job of a repository was submitted by the watcher. */
  ghost predicate Watching(s: State) {
    && (forall i, j | i in s.jobs && j in s.jobs && s.jobs[i].trigger.Watch? && s.jobs[j].trigger.Watch?
          && s.jobs[i].repo == s.jobs[j].repo && !s.jobs[i].status.Terminal() && !s.jobs[j].status.Terminal() :: i == j)
    && (forall r | r in s.watches :: r in s.execution
          && (s.watches[r].lastJob.Some? ==> s.watches[r].lastJob.value in s.jobs && s.jobs[s.watches[r].lastJob.value].repo == r))
  }

  ghost predicate Inv(s: State) {
    && ValidSettings(s.cfg)
    && Rows(s) && Reservation(s) && History(s) && Handles(s) && Guards(s) && Writes(s)
    && UniqueKeys(s) && Forest(s) && Watching(s)
  }

  lemma InitialInv(c: Settings, now: Time)
    requires ValidSettings(c)
    ensures Inv(Initial(c, now))
  {
  }

  // ---------- how one step may change the tables ----------

  ghost predicate SameIdentity(a: Job, b: Job) {
    && b.id == a.id && b.repo == a.repo && b.mode == a.mode && b.priority == a.priority
    && b.maxAttempts == a.maxAttempts && b.key == a.key && b.createdAt == a.createdAt
    && b.trigger == a.trigger && b.parent == a.parent && b.serial == a.serial
  }

  /** now is the clock at a. Generations and attempts rise together, terminal rows are frozen, a requested
      cancellation admits no further claim, a waiting job keeps the time it waits for, and neither a closed nor an expired
      lease comes back under its generation. */
  ghost predicate JobEvolves(a: Job, b: Job, now: Time) {
    && SameIdentity(a, b)
    && a.generation <= b.generation
    && b.attempt - a.attempt == b.generation - a.generation
    && (a.status.Terminal() ==> b == a)
    && (a.cancelRequested ==> b.cancelRequested)
    && (a.cancelRequested && !a.status.Terminal() ==>
          b.generation == a.generation && (b.status == a.status || b.status.Cancelled?))
    && (a.generation == b.generation && a.status.Waiting() ==> b.status == a.status || (b.status.Cancelled? && b.cancelRequested))
    && (a.generation == b.generation && a.status.Waiting() && b.status == a.status ==> b.availableAt == a.availableAt)
    && (a.generation == b.generation && a.status.Running? && a.leaseExpiresAt.Some? && a.leaseExpiresAt.value <= now
        && b.status.Running? ==>
          b.leaseExpiresAt == a.leaseExpiresAt)
    && (a.generation == b.generation && a.status.Running? && b.status.Running? ==> b.worker == a.worker)
    && (a.generation < b.generation ==> !b.status.Queued?)
    && (a.status.Running? ==> !b.status.Queued?)
  }

  /** An attempt row that ended never changes again. */
  ghost predicate AttemptEvolves(a: Attempt, b: Attempt) {
    && b.job == a.job && b.generation == a.generation && b.worker == a.worker && b.attempt == a.attempt
    && b.claimedAt == a.claimedAt && b.reclaimed == a.reclaimed
    && (a.endedAt.Some? ==> b == a)
  }

  ghost predicate JobsEvolve(s: State, t: State) {
    forall j | j in s.jobs :: j in t.jobs && JobEvolves(s.jobs[j], t.jobs[j], s.now)
  }

  ghost predicate AttemptsEvolve(s: State, t: State) {
    && |s.attempts| <= |t.attempts|
    && forall i :: 0 <= i < |s.attempts| ==> AttemptEvolves(s.attempts[i], t.attempts[i])
  }

  ghost predicate Evolves(s: State, t: State) {
    && t.cfg == s.cfg && s.now <= t.now
    && JobsEvolve(s, t) && AttemptsEvolve(s, t)
    && s.issued <= t.issued && s.writes <= t.writes
  }

  lemma OneJobEvolves(s: State, t: State, j: JobId)
    requires j in s.jobs && j in t.jobs && t.jobs == s.jobs[j := t.jobs[j]]
    requires JobEvolves(s.jobs[j], t.jobs[j], s.now)
    ensures JobsEvolve(s, t) && t.jobs.Keys == s.jobs.Keys
  {
  }

  /** What follows from an evolution that inserts no job, for every part of the invariant about identity. */
  lemma IdentityKept(s: State, t: State)
    requires UniqueKeys(s) && Forest(s) && Watching(s)
    requires JobsEvolve(s, t) && t.jobs.Keys == s.jobs.Keys
    requires t.watches == s.watches && s.execution.Keys <= t.execution.Keys
    ensures UniqueKeys(t) && Forest(t) && Watching(t)
  {
    assert forall j | j in t.jobs :: j in s.jobs && SameIdentity(s.jobs[j], t.jobs[j]);
    forall j | j in t.jobs && t.jobs[j].parent.Some? ensures ParentOk(t, j, t.jobs[j].parent.value) {
      assert ParentOk(s, j, s.jobs[j].parent.value);
    }
  }

  /** Replacing one row by another legal row of the same job. */
  lemma RowsKept(s: State, t: State, j: JobId)
    requires Rows(s) && j in s.jobs && j in t.jobs && t.jobs == s.jobs[j := t.jobs[j]]
    requires RowOk(j, t.jobs[j]) && SameIdentity(s.jobs[j], t.jobs[j])
    requires s.execution.Keys <= t.execution.Keys
    ensures Rows(t)
  {
    assert |t.jobs| == |s.jobs|;
  }

  /** A row that runs exactly if it ran before needs no change of reservations. */
  lemma ReservationKept(s: State, t: State, j: JobId)
    requires Reservation(s) && j in s.jobs && j in t.jobs && t.jobs == s.jobs[j := t.jobs[j]]
    requires t.execution == s.execution && t.jobs[j].repo == s.jobs[j].repo
    requires t.jobs[j].status.Running? <==> s.jobs[j].status.Running?
    ensures Reservation(t)
  {
  }

  /** A row under no guard may change freely; a guarded one must keep running its generation. */
  lemma GuardsKept(s: State, t: State, j: JobId)
    requires Guards(s) && j in s.jobs && j in t.jobs && t.jobs == s.jobs[j := t.jobs[j]]
    requires t.guards == s.guards && s.issued <= t.issued
    requires t.jobs[j].repo == s.jobs[j].repo
    requires s.jobs[j].repo in s.guards && s.jobs[j].status.Running? ==>
               t.jobs[j].status.Running? && t.jobs[j].generation == s.jobs[j].generation
    ensures Guards(t)
  {
  }

  lemma HandlesKept(s: State, t: State)
    requires Handles(s) && JobsEvolve(s, t) && t.issued == s.issued
    ensures Handles(t)
  {
    forall h | h in t.issued ensures HandleOk(t, h) {
      assert HandleOk(s, h);
    }
  }

  lemma WritesKept(s: State, t: State)
    requires Writes(s) && JobsEvolve(s, t) && AttemptsEvolve(s, t) && t.writes == s.writes
    ensures Writes(t)
  {
    forall p | 0 <= p < |t.writes| ensures WriteOk(t, t.writes[p]) {
      assert WriteOk(s, s.writes[p]);
    }
  }

  /** Rows may be closed or extended as long as what had ended stays as it was. */
  lemma TimelineKept(s: State, t: State)
    requires Timeline(s) && AttemptRows(s) && JobsEvolve(s, t) && AttemptsEvolve(s, t) && |t.attempts| == |s.attempts|
    ensures Timeline(t)
  {
    forall i, k | 0 <= i < k < |t.attempts|
      ensures t.attempts[i].claimedAt <= t.attempts[k].claimedAt
      ensures SameRepo(t, t.attempts[i], t.attempts[k]) ==>
                t.attempts[i].endedAt.Some? && t.attempts[i].endedAt.value <= t.attempts[k].claimedAt
    {
      assert AttemptEvolves(s.attempts[i], t.attempts[i]) && AttemptEvolves(s.attempts[k], t.attempts[k]);
      assert AttemptOk(s, s.attempts[i]) && AttemptOk(s, s.attempts[k]);
      assert SameRepo(t, t.attempts[i], t.attempts[k]) ==> SameRepo(s, s.attempts[i], s.attempts[k]);
    }
  }

  lemma LinksKept(a: seq<Attempt>, b: seq<Attempt>)
    requires Links(a) && |a| == |b|
    requires forall i :: 0 <= i < |a| ==> AttemptEvolves(a[i], b[i]) && a[i].outcome == b[i].outcome
    ensures Links(b)
  {
    forall i, k | 0 <= i < |b| && 0 <= k < |b| && Successive(b[i], b[k])
      ensures b[k].reclaimed <==> b[i].outcome == Some(Expired)
    {
      assert Successive(a[i], a[k]);
    }
  }

  lemma CompleteKept(s: State, t: State, j: JobId)
    requires CompleteRows(s) && AttemptsEvolve(s, t) && j in s.jobs
    ensures forall g | 1 <= g <= s.jobs[j].generation :: HasRow(t.attempts, j, g)
  {
    forall g | 1 <= g <= s.jobs[j].generation ensures HasRow(t.attempts, j, g) {
      assert HasRow(s.attempts, j, g);
      var i :| 0 <= i < |s.attempts| && IsRow(s.attempts[i], j, g);
      assert IsRow(t.attempts[i], j, g);
    }
  }

  lemma RowAt(s: State, j: JobId)
    requires Rows(s) && j in s.jobs
    ensures RowOk(j, s.jobs[j]) && s.jobs[j].repo in s.execution
  {
  }

  // ---------- transactions that leave jobs and attempts alone ----------

  ghost predicate SameTables(s: State, t: State) {
    t.cfg == s.cfg && s.now <= t.now && t.jobs == s.jobs && t.attempts == s.attempts
  }

  ghost predicate SameCore(s: State, t: State) {
    SameTables(s, t) && t.issued == s.issued && t.writes == s.writes
  }

  lemma SameCoreEvolves(s: State, t: State)
    requires SameTables(s, t) && s.issued <= t.issued && s.writes <= t.writes
    ensures Evolves(s, t)
  {
  }

  lemma SameHistory(s: State, t: State)
    requires History(s) && SameTables(s, t)
    ensures History(t)
  {
    forall i | 0 <= i < |t.attempts| ensures AttemptOk(t, t.attempts[i]) {
      assert AttemptOk(s, s.attempts[i]);
    }
  }

  lemma SameCoreInv(s: State, t: State)
    requires Inv(s) && SameCore(s, t) && t.execution == s.execution
    requires t.guards == s.guards && t.watches == s.watches
    ensures Inv(t) && Evolves(s, t)
  {
    SameCoreEvolves(s, t);
    SameHistory(s, t);
    IdentityKept(s, t);
    HandlesKept(s, t);
    WritesKept(s, t);
  }

  // ---------- inserting a job ----------

  ghost predicate Insertable(s: State, job: Job) {
    && job.id !in s.jobs
    && RowOk(job.id, job)
    && !job.status.Running?
    && job.generation == 0
    && job.serial == |s.jobs|
    && job.repo in s.execution
    && (job.key.Some? ==> !(exists j :: HasKey(s, j, job.key.value)))
    && (job.parent.Some? ==> job.parent.value in s.jobs && s.jobs[job.parent.value].status.Terminal()
                             && s.jobs[job.parent.value].repo == job.repo
                             && !(exists j :: IsChild(s, j, job.parent.value)))
    && (job.trigger.Watch? ==> !Busyness(s, job.repo))
  }

  lemma EnsureRows(s: State, repo: RepoId)
    requires Rows(s)
    ensures Rows(EnsureExecution(s, repo))
  {
  }

  lemma EnsureReservation(s: State, repo: RepoId)
    requires Reservation(s)
    ensures Reservation(EnsureExecution(s, repo))
  {
  }

  lemma SameGuards(s: State, t: State)
    requires Guards(s) && t.guards == s.guards && t.jobs == s.jobs && s.issued <= t.issued
    ensures Guards(t)
  {
  }

  lemma EnsureShape(s: State, repo: RepoId)
    ensures var t := EnsureExecution(s, repo);
            SameCore(s, t) && t.guards == s.guards && t.watches == s.watches && s.execution.Keys <= t.execution.Keys
  {
  }

  lemma EnsureInv(s: State, repo: RepoId)
    requires Inv(s)
    ensures Inv(EnsureExecution(s, repo)) && Evolves(s, EnsureExecution(s, repo))
  {
    var t := EnsureExecution(s, repo);
    EnsureShape(s, repo);
    hide EnsureExecution, Rows, Reservation, Guards, History, UniqueKeys, Forest, Watching, Handles, Writes, Evolves, JobsEvolve,
         AttemptsEvolve;
    SameCoreEvolves(s, t);
    EnsureRows(s, repo);
    EnsureReservation(s, repo);
    assert Guards(t) by { SameGuards(s, t); }
    SameHistory(s, t);
    IdentityKept(s, t);
    HandlesKept(s, t);
    WritesKept(s, t);
  }

  lemma InsertHistory(s: State, job: Job)
    requires History(s) && Insertable(s, job)
    ensures History(Insert(s, job))
  {
    var t := Insert(s, job);
    forall i | 0 <= i < |t.attempts| ensures AttemptOk(t, t.attempts[i]) {
      assert AttemptOk(s, s.attempts[i]);
    }
  }

  lemma InsertUnique(s: State, job: Job)
    requires UniqueKeys(s) && Insertable(s, job)
    ensures UniqueKeys(Insert(s, job))
  {
    var t := Insert(s, job);
    forall i, j | i in t.jobs && j in t.jobs && t.jobs[i].key.Some? && t.jobs[i].key == t.jobs[j].key ensures i == j {
      if i != j && job.id in {i, j} {
        assert HasKey(s, if i == job.id then j else i, job.key.value);
      }
    }
  }

  lemma InsertForest(s: State, job: Job)
    requires Forest(s) && Rows(s) && Insertable(s, job)
    ensures Forest(Insert(s, job))
  {
    var t := Insert(s, job);
    forall i, j | i in t.jobs && j in t.jobs && t.jobs[i].parent.Some? && t.jobs[i].parent == t.jobs[j].parent ensures i == j {
      if i != j && job.id in {i, j} {
        assert IsChild(s, if i == job.id then j else i, job.parent.value);
      }
    }
    forall j | j in t.jobs && t.jobs[j].parent.Some? ensures ParentOk(t, j, t.jobs[j].parent.value) {
      if j != job.id {
        assert ParentOk(s, j, s.jobs[j].parent.value);
      }
    }
  }

  lemma InsertWatching(s: State, job: Job)
    requires Watching(s) && Insertable(s, job)
    ensures Watching(Insert(s, job))
  {
    var t := Insert(s, job);
    forall i, j | i in t.jobs && j in t.jobs && t.jobs[i].trigger.Watch? && t.jobs[j].trigger.Watch?
                  && t.jobs[i].repo == t.jobs[j].repo && !t.jobs[i].status.Terminal() && !t.jobs[j].status.Terminal()
      ensures i == j
    {
      if i != j && job.id in {i, j} {
        assert IsActive(s, if i == job.id then j else i, job.repo);
      }
    }
  }

  lemma InsertRows(s: State, job: Job)
    requires Rows(s) && Insertable(s, job)
    ensures Rows(Insert(s, job))
  {
    assert |Insert(s, job).jobs| == |s.jobs| + 1;
  }

  lemma InsertReservation(s: State, job: Job)
    requires Reservation(s) && Insertable(s, job)
    ensures Reservation(Insert(s, job))
  {
  }

  lemma InsertGuards(s: State, job: Job)
    requires Guards(s) && Insertable(s, job)
    ensures Guards(Insert(s, job))
  {
  }

  lemma InsertInv(s: State, job: Job)
    requires Inv(s) && Insertable(s, job)
    ensures Inv(Insert(s, job)) && Evolves(s, Insert(s, job))
  {
    hide Rows, Reservation, Guards, History, UniqueKeys, Forest, Watching, Handles, Writes;
    var t := Insert(s, job);
    InsertRows(s, job);
    InsertReservation(s, job);
    InsertGuards(s, job);
    InsertHistory(s, job);
    InsertUnique(s, job);
    InsertForest(s, job);
    InsertWatching(s, job);
    HandlesKept(s, t);
    WritesKept(s, t);
  }

  // ---------- patching one job row ----------

  /** Keeps identity, lease and generation; it may only end a waiting job. */
  ghost predicate Patched(a: Job, b: Job) {
    && SameIdentity(a, b)
    && b.attempt == a.attempt && b.generation == a.generation
    && b.worker == a.worker && b.leaseExpiresAt == a.leaseExpiresAt && b.availableAt == a.availableAt
    && !a.status.Terminal()
    && (a.cancelRequested ==> b.cancelRequested)
    && (b.status == a.status || (a.status.Waiting() && b.status.Cancelled? && b.cancelRequested))
  }

  lemma PatchHistory(s: State, j: JobId, row: Job)
    requires Rows(s) && History(s) && j in s.jobs && Patched(s.jobs[j], row)
    ensures History(s.(jobs := s.jobs[j := row]))
  {
    var t := s.(jobs := s.jobs[j := row]);
    forall i | 0 <= i < |t.attempts| ensures AttemptOk(t, t.attempts[i]) {
      assert AttemptOk(s, s.attempts[i]);
    }
    forall i, k | 0 <= i < k < |t.attempts| && SameRepo(t, t.attempts[i], t.attempts[k])
      ensures SameRepo(s, s.attempts[i], s.attempts[k])
    {
    }
  }

  lemma PatchInv(s: State, j: JobId, row: Job)
    requires Inv(s) && j in s.jobs && Patched(s.jobs[j], row) && RowOk(j, row)
    ensures Inv(s.(jobs := s.jobs[j := row])) && Evolves(s, s.(jobs := s.jobs[j := row]))
  {
    hide Rows, Reservation, Guards, History, UniqueKeys, Forest, Watching, Handles, Writes, JobsEvolve;
    var t := s.(jobs := s.jobs[j := row]);
    OneJobEvolves(s, t, j);
    RowsKept(s, t, j);
    ReservationKept(s, t, j);
    GuardsKept(s, t, j);
    PatchHistory(s, j, row);
    IdentityKept(s, t);
    HandlesKept(s, t);
    WritesKept(s, t);
  }

  // ---------- renewing a lease ----------

  lemma RenewAttempts(s: State, h: Job)
    requires Rows(s) && AttemptRows(s) && UniqueRows(s.attempts) && Owned(s, h)
    ensures AttemptRows(RenewLease(s, h).state)
    ensures AttemptsEvolve(s, RenewLease(s, h).state)
  {
    var t := RenewLease(s, h).state;
    forall i | 0 <= i < |t.attempts| ensures AttemptOk(t, t.attempts[i]) && AttemptEvolves(s.attempts[i], t.attempts[i]) {
      assert AttemptOk(s, s.attempts[i]);
    }
  }

  lemma RenewJobs(s: State, h: Job)
    requires Owned(s, h)
    ensures JobsEvolve(s, RenewLease(s, h).state) && RenewLease(s, h).state.jobs.Keys == s.jobs.Keys
    ensures forall j | j in s.jobs :: RenewLease(s, h).state.jobs[j].generation == s.jobs[j].generation
  {
    OneJobEvolves(s, RenewLease(s, h).state, h.id);
  }

  lemma RenewHistory(s: State, h: Job)
    requires Rows(s) && History(s) && Owned(s, h)
    ensures History(RenewLease(s, h).state)
  {
    hide Rows, AttemptRows, Timeline, JobsEvolve, Owned;
    var t := RenewLease(s, h).state;
    RenewAttempts(s, h);
    RenewJobs(s, h);
    TimelineKept(s, t);
    LinksKept(s.attempts, t.attempts);
    forall j, g | j in t.jobs && 1 <= g <= t.jobs[j].generation ensures HasRow(t.attempts, j, g) {
      CompleteKept(s, t, j);
    }
  }

  lemma RenewInv(s: State, h: Job)
    requires Inv(s) && Owned(s, h)
    ensures Inv(RenewLease(s, h).state) && Evolves(s, RenewLease(s, h).state)
  {
    hide Rows, Reservation, Guards, UniqueKeys, Forest, Watching, Handles, Writes, JobsEvolve, AttemptsEvolve,
         AttemptRows, UniqueRows, CompleteRows, Links, Timeline;
    var t := RenewLease(s, h).state;
    RenewJobs(s, h);
    assert RowOk(h.id, s.jobs[h.id]) by { RowAt(s, h.id); }
    RowsKept(s, t, h.id);
    ReservationKept(s, t, h.id);
    GuardsKept(s, t, h.id);
    RenewHistory(s, h);
    RenewAttempts(s, h);
    IdentityKept(s, t);
    HandlesKept(s, t);
    WritesKept(s, t);
  }

  // ---------- ending the running generation: finish, retry, and the cleanup of claim_job ----------

  /** Common shape of _finish and of discarding an expired job: the row stops running, the reservation is
      released and the open attempt is closed with the row's new status. */
  function EndState(s: State, j: JobId, row: Job, error: Option<Option<string>>, workers: map<WorkerId, WorkerRow>): State
    requires j in s.jobs
  {
    s.(jobs := s.jobs[j := row],
       execution := s.execution[row.repo := None],
       attempts := CloseRow(s.attempts, j, s.jobs[j].generation, s.now, Ended(row.status), error),
       workers := workers)
  }

  ghost predicate CanEnd(s: State, j: JobId, row: Job) {
    && j in s.jobs
    && s.jobs[j].status.Running?
    && s.jobs[j].repo !in s.guards
    && SameIdentity(s.jobs[j], row)
    && row.generation == s.jobs[j].generation && row.attempt == s.jobs[j].attempt
    && (row.status.Terminal() || row.status.Retrying?)
    && row.cancelRequested == s.jobs[j].cancelRequested
    && (row.cancelRequested ==> row.status.Cancelled?)
    && RowOk(j, row)
  }

  lemma EndAttempts(s: State, j: JobId, row: Job, error: Option<Option<string>>, workers: map<WorkerId, WorkerRow>)
    requires Rows(s) && AttemptRows(s) && CanEnd(s, j, row)
    ensures AttemptRows(EndState(s, j, row, error, workers))
    ensures AttemptsEvolve(s, EndState(s, j, row, error, workers))
  {
    var t := EndState(s, j, row, error, workers);
    forall i | 0 <= i < |t.attempts| ensures AttemptOk(t, t.attempts[i]) && AttemptEvolves(s.attempts[i], t.attempts[i]) {
      assert AttemptOk(s, s.attempts[i]);
    }
  }

  lemma EndLinks(s: State, j: JobId, row: Job, error: Option<Option<string>>, workers: map<WorkerId, WorkerRow>)
    requires AttemptRows(s) && Links(s.attempts) && CanEnd(s, j, row)
    ensures Links(EndState(s, j, row, error, workers).attempts)
  {
    var t := EndState(s, j, row, error, workers);
    forall i, k | 0 <= i < |t.attempts| && 0 <= k < |t.attempts| && Successive(t.attempts[i], t.attempts[k])
      ensures t.attempts[k].reclaimed <==> t.attempts[i].outcome == Some(Expired)
    {
      assert Successive(s.attempts[i], s.attempts[k]);
      assert AttemptOk(s, s.attempts[i]) && AttemptOk(s, s.attempts[k]);
    }
  }

  lemma EndUnique(s: State, j: JobId, outcome: AttemptOutcome, error: Option<Option<string>>)
    requires j in s.jobs && UniqueRows(s.attempts)
    ensures UniqueRows(CloseRow(s.attempts, j, s.jobs[j].generation, s.now, outcome, error))
  {
  }

  lemma EndComplete(s: State, t: State, j: JobId)
    requires CompleteRows(s) && AttemptsEvolve(s, t) && j in s.jobs && t.jobs.Keys == s.jobs.Keys
    requires forall i | i in s.jobs :: t.jobs[i].generation == s.jobs[i].generation
    ensures CompleteRows(t)
  {
    hide AttemptsEvolve;
    forall i, g | i in t.jobs && 1 <= g <= t.jobs[i].generation ensures HasRow(t.attempts, i, g) {
      CompleteKept(s, t, i);
    }
  }

  lemma EndHistory(s: State, j: JobId, row: Job, error: Option<Option<string>>, workers: map<WorkerId, WorkerRow>)
    requires Rows(s) && History(s) && CanEnd(s, j, row)
    ensures History(EndState(s, j, row, error, workers))
    ensures AttemptsEvolve(s, EndState(s, j, row, error, workers))
  {
    hide Rows, AttemptRows, UniqueRows, CompleteRows, Links, Timeline, AttemptsEvolve, JobsEvolve, RowOk;
    var t := EndState(s, j, row, error, workers);
    EndAttempts(s, j, row, error, workers);
    EndLinks(s, j, row, error, workers);
    EndUnique(s, j, Ended(row.status), error);
    OneJobEvolves(s, t, j);
    TimelineKept(s, t);
    EndComplete(s, t, j);
  }

  lemma EndReservation(s: State, j: JobId, row: Job, error: Option<Option<string>>, workers: map<WorkerId, WorkerRow>)
    requires Reservation(s) && CanEnd(s, j, row)
    ensures Reservation(EndState(s, j, row, error, workers))
  {
  }

  lemma EndInv(s: State, j: JobId, row: Job, error: Option<Option<string>>, workers: map<WorkerId, WorkerRow>)
    requires Inv(s) && CanEnd(s, j, row)
    ensures Inv(EndState(s, j, row, error, workers)) && Evolves(s, EndState(s, j, row, error, workers))
  {
    hide Rows, Reservation, Guards, UniqueKeys, Forest, Watching, Handles, Writes, JobsEvolve, AttemptsEvolve, History;
    var t := EndState(s, j, row, error, workers);
    OneJobEvolves(s, t, j);
    RowsKept(s, t, j);
    EndReservation(s, j, row, error, workers);
    GuardsKept(s, t, j);
    EndHistory(s, j, row, error, workers);
    IdentityKept(s, t);
    HandlesKept(s, t);
    WritesKept(s, t);
  }

  /** The row and the state a finish leaves, in the common shape. */
  lemma FinishShape(s: State, h: Job, status: Status, error: Option<string>, delay: real)
    requires Rows(s) && Reservation(s) && HandleOk(s, h)
    requires Owned(s, h) && h.repo !in s.guards && (status.Terminal() || (status.Retrying? && h.attempt < h.maxAttempts))
    ensures var r := Finish(s, h, status, error, delay);
            && r.result.Ok? && CanEnd(s, h.id, r.result.value)
            && r.state == EndState(s, h.id, r.result.value, Some(error), r.state.workers)
  {
    var r := Finish(s, h, status, error, delay);
    assert r.state.attempts == CloseRow(s.attempts, h.id, s.jobs[h.id].generation, s.now, Ended(r.result.value.status), Some(error));
  }

  /** The budget invariant confines the cleanup branch to expired running jobs. */
  lemma DiscardShape(s: State, j: JobId)
    requires Rows(s) && Claimable(s, j) && Exhausted(s.jobs[j])
    ensures s.jobs[j].status.Running?
    ensures var t := Discard(s, j); CanEnd(s, j, t.jobs[j]) && t == EndState(s, j, t.jobs[j], None, t.workers)
  {
    var t := Discard(s, j);
    assert t.attempts == CloseRow(s.attempts, j, s.jobs[j].generation, s.now, Ended(t.jobs[j].status), None);
  }

  // ---------- granting a claim ----------

  lemma GrantAttempts(s: State, j: JobId, w: WorkerId)
    requires Rows(s) && AttemptRows(s) && Claimable(s, j) && !Exhausted(s.jobs[j]) && w in s.workers
    ensures AttemptRows(Grant(s, j, w))
    ensures AttemptsEvolve(s, Grant(s, j, w))
  {
    var t := Grant(s, j, w);
    forall i | 0 <= i < |s.attempts| ensures AttemptOk(t, t.attempts[i]) && AttemptEvolves(s.attempts[i], t.attempts[i]) {
      assert AttemptOk(s, s.attempts[i]);
    }
  }

  lemma GrantUnique(s: State, j: JobId, w: WorkerId)
    requires AttemptRows(s) && UniqueRows(s.attempts) && Claimable(s, j) && w in s.workers
    ensures UniqueRows(Grant(s, j, w).attempts)
  {
    var t := Grant(s, j, w);
    forall i, k | 0 <= i < k < |t.attempts|
      ensures !(t.attempts[i].job == t.attempts[k].job && t.attempts[i].generation == t.attempts[k].generation)
    {
      assert AttemptOk(s, s.attempts[i]);
    }
  }

  lemma GrantComplete(s: State, j: JobId, w: WorkerId)
    requires Rows(s) && AttemptRows(s) && CompleteRows(s) && Claimable(s, j) && !Exhausted(s.jobs[j]) && w in s.workers
    ensures CompleteRows(Grant(s, j, w))
  {
    var t := Grant(s, j, w);
    GrantAttempts(s, j, w);
    forall i, g | i in t.jobs && 1 <= g <= t.jobs[i].generation ensures HasRow(t.attempts, i, g) {
      if i == j && g == t.jobs[j].generation {
        assert IsRow(t.attempts[|s.attempts|], i, g);
      } else {
        CompleteKept(s, t, i);
      }
    }
  }

  lemma GrantLinks(s: State, j: JobId, w: WorkerId)
    requires Rows(s) && AttemptRows(s) && Links(s.attempts) && Claimable(s, j) && w in s.workers
    ensures Links(Grant(s, j, w).attempts)
  {
    var t := Grant(s, j, w);
    var n := |s.attempts|;
    forall i | 0 <= i < |t.attempts| && t.attempts[i].generation == 1 ensures !t.attempts[i].reclaimed {
    }
    forall i, k | 0 <= i < |t.attempts| && 0 <= k < |t.attempts| && Successive(t.attempts[i], t.attempts[k])
      ensures t.attempts[k].reclaimed <==> t.attempts[i].outcome == Some(Expired)
    {
      if i < n { assert AttemptOk(s, s.attempts[i]); }
      if k < n { assert AttemptOk(s, s.attempts[k]); }
      if i < n && k < n { assert Successive(s.attempts[i], s.attempts[k]); }
    }
  }

  /** Whatever earlier attempt the repository had has ended by now: its job is not running, or is the job reclaimed here. */
  lemma GrantTimeline(s: State, j: JobId, w: WorkerId)
    requires Rows(s) && Reservation(s) && AttemptRows(s) && Timeline(s) && Claimable(s, j) && w in s.workers
    ensures Timeline(Grant(s, j, w))
  {
    var t := Grant(s, j, w);
    var n := |s.attempts|;
    forall i, k | 0 <= i < k < |t.attempts|
      ensures t.attempts[i].claimedAt <= t.attempts[k].claimedAt
      ensures SameRepo(t, t.attempts[i], t.attempts[k]) ==>
                t.attempts[i].endedAt.Some? && t.attempts[i].endedAt.value <= t.attempts[k].claimedAt
    {
      assert AttemptOk(s, s.attempts[i]);
      if k < n {
        assert AttemptOk(s, s.attempts[k]);
        assert SameRepo(t, t.attempts[i], t.attempts[k]) ==> SameRepo(s, s.attempts[i], s.attempts[k]);
      }
    }
  }

  lemma GrantHistory(s: State, j: JobId, w: WorkerId)
    requires Rows(s) && Reservation(s) && History(s) && Claimable(s, j) && !Exhausted(s.jobs[j]) && w in s.workers
    ensures History(Grant(s, j, w)) && AttemptsEvolve(s, Grant(s, j, w))
  {
    hide Rows, Reservation, AttemptRows, UniqueRows, CompleteRows, Links, Timeline, Claimable, Exhausted, Grant, AttemptsEvolve;
    GrantAttempts(s, j, w);
    GrantUnique(s, j, w);
    GrantComplete(s, j, w);
    GrantLinks(s, j, w);
    GrantTimeline(s, j, w);
  }

  lemma GrantReservation(s: State, j: JobId, w: WorkerId)
    requires Reservation(s) && Claimable(s, j) && w in s.workers
    ensures Reservation(Grant(s, j, w))
  {
  }

  lemma GrantHandles(s: State, j: JobId, w: WorkerId)
    requires Handles(s) && Claimable(s, j) && s.jobs[j].id == j && w in s.workers
    ensures Handles(Grant(s, j, w))
  {
    var t := Grant(s, j, w);
    forall h | h in s.issued ensures HandleOk(t, h) && !(h.id == j && h.generation == t.jobs[j].generation) {
      assert HandleOk(s, h);
    }
  }

  lemma GrantJobs(s: State, j: JobId, w: WorkerId)
    requires Rows(s) && Claimable(s, j) && !Exhausted(s.jobs[j]) && w in s.workers
    ensures JobsEvolve(s, Grant(s, j, w)) && Grant(s, j, w).jobs.Keys == s.jobs.Keys
  {
    OneJobEvolves(s, Grant(s, j, w), j);
  }

  lemma GrantInv(s: State, j: JobId, w: WorkerId)
    requires Inv(s) && Claimable(s, j) && !Exhausted(s.jobs[j]) && w in s.workers
    ensures Inv(Grant(s, j, w)) && Evolves(s, Grant(s, j, w))
  {
    hide Rows, Reservation, Guards, UniqueKeys, Forest, Watching, Handles, Writes, JobsEvolve, AttemptsEvolve, History;
    var t := Grant(s, j, w);
    GrantJobs(s, j, w);
    RowAt(s, j);
    RowsKept(s, t, j);
    GrantReservation(s, j, w);
    GuardsKept(s, t, j);
    GrantHistory(s, j, w);
    GrantHandles(s, j, w);
    IdentityKept(s, t);
    WritesKept(s, t);
  }
}
