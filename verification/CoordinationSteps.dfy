/** Every transaction keeps the invariant and evolves the tables monotonically. */
module CoordinationSteps {
  import opened Basics
  import opened Coordination
  import opened CoordinationInvariants

  // ---------- evolution composes ----------

  lemma EvolvesRefl(s: State)
    ensures Evolves(s, s)
  {
  }

  lemma JobsCompose(s: State, t: State, u: State)
    requires JobsEvolve(s, t) && JobsEvolve(t, u) && s.now <= t.now
    ensures JobsEvolve(s, u)
  {
    forall j | j in s.jobs ensures j in u.jobs && JobEvolves(s.jobs[j], u.jobs[j], s.now) {
      assert JobEvolves(s.jobs[j], t.jobs[j], s.now);
      assert JobEvolves(t.jobs[j], u.jobs[j], t.now);
    }
  }

  lemma AttemptsCompose(s: State, t: State, u: State)
    requires AttemptsEvolve(s, t) && AttemptsEvolve(t, u)
    ensures AttemptsEvolve(s, u)
  {
    forall i | 0 <= i < |s.attempts| ensures AttemptEvolves(s.attempts[i], u.attempts[i]) {
      assert AttemptEvolves(s.attempts[i], t.attempts[i]) && AttemptEvolves(t.attempts[i], u.attempts[i]);
    }
  }

  lemma EvolvesTrans(s: State, t: State, u: State)
    requires Evolves(s, t) && Evolves(t, u)
    ensures Evolves(s, u)
  {
    hide JobsEvolve, AttemptsEvolve;
    JobsCompose(s, t, u);
    AttemptsCompose(s, t, u);
  }

  // ---------- submission ----------

  lemma SubmitInv(s: State, repo: RepoId, mode: string, key: Option<string>, priority: int, newId: JobId)
    requires Inv(s)
    ensures var r := SubmitJob(s, repo, mode, key, priority, newId); Inv(r.state) && Evolves(s, r.state)
  {
    hide Rows, Reservation, Guards, UniqueKeys, Forest, Watching, Handles, Writes, History, Evolves;
    var t := EnsureExecution(s, repo);
    EvolvesRefl(s);
    EnsureInv(s, repo);
    var r := SubmitJob(s, repo, mode, key, priority, newId);
    if r.state != s && r.state != t {
      var job := NewJob(s, newId, repo, mode, key, priority, Manual, None);
      assert key.Some? ==> forall j :: HasKey(s, j, key.value) <==> HasKey(t, j, key.value);
      InsertInv(t, job);
      EvolvesTrans(s, t, r.state);
    }
  }

  // ---------- changes of watches alone ----------

  lemma WatchesOnly(s: State, t: State)
    requires Inv(s) && SameCore(s, t) && t.execution == s.execution && t.guards == s.guards && Watching(t)
    ensures Inv(t) && Evolves(s, t)
  {
    hide Evolves, History, Guards, Rows, Reservation, UniqueKeys, Forest, Watching, Handles, Writes;
    SameCoreEvolves(s, t);
    SameHistory(s, t);
    RestKept(s, t);
    SameGuards(s, t);
  }

  lemma RedirectInv(s: State, from: JobId, to: JobId)
    requires Inv(s) && from in s.jobs && to in s.jobs && s.jobs[from].repo == s.jobs[to].repo
    ensures var t := s.(watches := Redirect(s.watches, from, to)); Inv(t) && Evolves(s, t)
  {
    hide Rows, Reservation, Guards, UniqueKeys, Forest, Handles, Writes, History, Evolves;
    var t := s.(watches := Redirect(s.watches, from, to));
    assert Watching(t);
    WatchesOnly(s, t);
  }

  lemma ResubmitInv(s: State, id: JobId, newId: JobId)
    requires Inv(s)
    ensures var r := ResubmitJob(s, id, newId); Inv(r.state) && Evolves(s, r.state)
  {
    hide Rows, Reservation, Guards, UniqueKeys, Watching, Handles, Writes, History, Evolves;
    EvolvesRefl(s);
    if id in s.jobs && s.jobs[id].status.Terminal() {
      if exists j :: IsChild(s, j, id) {
        var child := Child(s, id);
        assert ParentOk(s, child, s.jobs[child].parent.value);
        RedirectInv(s, id, child);
      } else if newId !in s.jobs {
        var prior := s.jobs[id];
        var job := NewJob(s, newId, prior.repo, "incremental", None, prior.priority, Retry, Some(id));
        assert prior.repo in s.execution by { RowAt(s, id); }
        InsertInv(s, job);
        RedirectInv(Insert(s, job), id, newId);
        EvolvesTrans(s, Insert(s, job), ResubmitJob(s, id, newId).state);
      }
    }
  }

  lemma NewWatchInv(s: State, repo: RepoId, w: WatchRow)
    requires Inv(s) && repo in s.execution && repo !in s.watches && w.lastJob.None?
    ensures var t := s.(watches := s.watches[repo := w]); Inv(t) && Evolves(s, t)
  {
    hide Rows, Reservation, Guards, UniqueKeys, Forest, Handles, Writes, History, Evolves;
    var t := s.(watches := s.watches[repo := w]);
    assert Watching(t);
    WatchesOnly(s, t);
  }

  lemma EnsureWatchInv(s: State, repo: RepoId, enabled: Option<bool>)
    requires Inv(s)
    ensures var t := EnsureWatch(s, repo, enabled); Inv(t) && Evolves(s, t)
  {
    hide Inv, Evolves;
    var e := EnsureExecution(s, repo);
    var t := EnsureWatch(s, repo, enabled);
    EnsureInv(s, repo);
    if t != e {
      NewWatchInv(e, repo, t.watches[repo]);
      EvolvesTrans(s, e, t);
    }
  }

  /** Rewriting one watch row without retargeting its job. */
  lemma WatchRowInv(s: State, repo: RepoId, w: WatchRow)
    requires Inv(s) && repo in s.watches && w.lastJob == s.watches[repo].lastJob
    ensures var t := s.(watches := s.watches[repo := w]); Inv(t) && Evolves(s, t)
  {
    hide Rows, Reservation, Guards, UniqueKeys, Forest, Handles, Writes, History, Evolves;
    var t := s.(watches := s.watches[repo := w]);
    assert Watching(t);
    WatchesOnly(s, t);
  }

  lemma ObserveInv(s: State, repo: RepoId, f: Fingerprint, indexed: Option<Fingerprint>, newId: JobId)
    requires Inv(s)
    ensures var r := Observe(s, repo, f, indexed, newId); Inv(r.state) && Evolves(s, r.state)
  {
    hide Rows, Reservation, Guards, UniqueKeys, Forest, Handles, Writes, History, Evolves;
    EvolvesRefl(s);
    var r := Observe(s, repo, f, indexed, newId);
    if repo in s.watches && s.watches[repo].enabled {
      var w := Note(s.now, Reconcile(s, repo, s.watches[repo], f, indexed), f);
      if !Ready(s, repo, w) {
        WatchRowInv(s, repo, w);
      } else if newId !in s.jobs {
        var job := NewJob(s, newId, repo, "incremental", None, 0, Watch, None);
        InsertInv(s, job);
        assert Watching(r.state);
        WatchesOnly(Insert(s, job), r.state);
        EvolvesTrans(s, Insert(s, job), r.state);
      }
    }
  }

  // ---------- legacy import ----------

  /** An import only ensures repositories and adds jobs, none of them running. */
  ghost predicate OnlyImports(s: State, t: State) {
    && t == s.(jobs := t.jobs, execution := t.execution)
    && (forall j | j in s.jobs :: j in t.jobs && t.jobs[j] == s.jobs[j])
    && (forall j | j in t.jobs && j !in s.jobs :: !t.jobs[j].status.Running?)
  }

  lemma ImportRowFrame(s: State, row: LegacyRow)
    ensures OnlyImports(s, ImportRow(s, row))
  {
    hide LegacyJob, Conflicts;
    LegacyJobWaitsOrEnded(EnsureExecution(s, row.repo), row);
  }

  lemma LegacyJobWaitsOrEnded(s: State, row: LegacyRow)
    ensures LegacyJob(s, row).id == row.id && !LegacyJob(s, row).status.Running?
    ensures Conflicts(s, row) || row.id !in s.jobs
  {
  }

  lemma {:induction false} ImportFrame(s: State, rows: seq<LegacyRow>)
    ensures OnlyImports(s, ImportRows(s, rows).0)
    decreases |rows|
  {
    hide ImportRow;
    if rows != [] {
      ImportRowFrame(s, rows[0]);
      ImportFrame(ImportRow(s, rows[0]), rows[1..]);
    }
  }

  lemma ImportRowInv(s: State, row: LegacyRow)
    requires Inv(s) && ValidMode(row.mode)
    ensures Inv(ImportRow(s, row)) && Evolves(s, ImportRow(s, row))
  {
    hide Rows, Reservation, Guards, UniqueKeys, Forest, Watching, Handles, Writes, History, Evolves;
    var t := EnsureExecution(s, row.repo);
    EnsureInv(s, row.repo);
    if !Conflicts(t, row) {
      InsertInv(t, LegacyJob(t, row));
      EvolvesTrans(s, t, ImportRow(s, row));
    }
  }

  lemma {:induction false} ImportRowsInv(s: State, rows: seq<LegacyRow>)
    requires Inv(s) && forall i :: 0 <= i < |rows| ==> ValidMode(rows[i].mode)
    ensures Inv(ImportRows(s, rows).0) && Evolves(s, ImportRows(s, rows).0)
    decreases |rows|
  {
    hide Inv, Evolves;
    if rows == [] {
      EvolvesRefl(s);
    } else {
      ImportRowInv(s, rows[0]);
      ImportRowsInv(ImportRow(s, rows[0]), rows[1..]);
      EvolvesTrans(s, ImportRow(s, rows[0]), ImportRows(s, rows).0);
    }
  }

  lemma ImportInv(s: State, rows: seq<LegacyRow>)
    requires Inv(s)
    ensures var r := ImportLegacyJobs(s, rows); Inv(r.state) && Evolves(s, r.state)
  {
    hide Inv, Evolves;
    EvolvesRefl(s);
    if forall i :: 0 <= i < |rows| ==> ValidMode(rows[i].mode) {
      ImportRowsInv(s, rows);
    }
  }

  // ---------- claims ----------

  lemma DiscardInv(s: State, j: JobId)
    requires Inv(s) && Claimable(s, j) && Exhausted(s.jobs[j])
    ensures Inv(Discard(s, j)) && Evolves(s, Discard(s, j))
  {
    hide Inv, Evolves;
    InvRows(s);
    DiscardShape(s, j);
    EndInv(s, j, Discard(s, j).jobs[j], None, Discard(s, j).workers);
  }

  lemma InvRows(s: State)
    requires Inv(s)
    ensures Rows(s) && Reservation(s) && Handles(s) && Guards(s)
  {
    hide Rows, Reservation, Handles, Guards;
  }

  lemma {:induction false} ClaimRoundsInv(s: State, w: WorkerId, rounds: nat)
    requires Inv(s) && w in s.workers
    ensures var t := ClaimRounds(s, w, rounds).0; Inv(t) && Evolves(s, t)
    decreases rounds
  {
    hide Inv, Evolves;
    EvolvesRefl(s);
    var c := Candidate(s);
    if rounds > 0 && c.Some? {
      if Exhausted(s.jobs[c.value]) {
        DiscardInv(s, c.value);
        var t := Discard(s, c.value);
        ClaimRoundsInv(t, w, rounds - 1);
        EvolvesTrans(s, t, ClaimRounds(s, w, rounds).0);
      } else {
        GrantInv(s, c.value, w);
      }
    }
  }

  lemma ClaimInv(s: State, w: WorkerId, session: Session)
    requires Inv(s)
    ensures var r := ClaimJob(s, w, session); Inv(r.state) && Evolves(s, r.state)
  {
    hide Inv, Evolves;
    EvolvesRefl(s);
    if Registered(s, w, session) {
      ClaimRoundsInv(s, w, CLAIM_ROUNDS);
    }
  }

  // ---------- updates by the holder of a snapshot ----------

  lemma RenewLeaseInv(s: State, h: Job)
    requires Inv(s)
    ensures var r := RenewLease(s, h); Inv(r.state) && Evolves(s, r.state)
  {
    hide Inv, Evolves;
    EvolvesRefl(s);
    if Owned(s, h) {
      RenewInv(s, h);
    }
  }

  lemma ProgressInv(s: State, h: Job, p: Progress, path: string, error: string)
    requires Inv(s)
    ensures var r := UpdateProgress(s, h, p, path, error); Inv(r.state) && Evolves(s, r.state)
  {
    hide Evolves, Inv;
    EvolvesRefl(s);
    if Owned(s, h) {
      var r := UpdateProgress(s, h, p, path, error);
      InvRows(s);
      assert RowOk(h.id, s.jobs[h.id]);
      var t := s.(jobs := s.jobs[h.id := r.state.jobs[h.id]]);
      PatchInv(s, h.id, r.state.jobs[h.id]);
      SameCoreInv(t, r.state);
      EvolvesTrans(s, t, r.state);
    }
  }

  lemma RequestCancelInv(s: State, id: JobId)
    requires Inv(s)
    ensures var r := RequestCancel(s, id); Inv(r.state) && Evolves(s, r.state)
  {
    hide Evolves, Inv;
    EvolvesRefl(s);
    if id in s.jobs && !s.jobs[id].status.Terminal() {
      InvRows(s);
      assert RowOk(id, s.jobs[id]);
      PatchInv(s, id, RequestCancel(s, id).state.jobs[id]);
    }
  }

  lemma FinishInv(s: State, h: Job, status: Status, error: Option<string>, delay: real)
    requires Inv(s) && h in s.issued && (status.Terminal() || (status.Retrying? && h.attempt < h.maxAttempts))
    ensures var r := Finish(s, h, status, error, delay); Inv(r.state) && Evolves(s, r.state)
  {
    hide Evolves, Inv;
    EvolvesRefl(s);
    if Owned(s, h) && h.repo !in s.guards {
      InvRows(s);
      assert HandleOk(s, h);
      var r := Finish(s, h, status, error, delay);
      FinishShape(s, h, status, error, delay);
      EndInv(s, h.id, r.result.value, Some(error), r.state.workers);
    }
  }

  lemma ScheduleRetryInv(s: State, h: Job, error: string, jitter: real)
    requires Inv(s) && h in s.issued
    ensures var r := ScheduleRetry(s, h, error, jitter); Inv(r.state) && Evolves(s, r.state)
  {
    hide Evolves, Inv, Finish;
    if h.attempt >= h.maxAttempts {
      FinishInv(s, h, Failed, Some(Truncate(error, 2000)), 0.0);
    } else {
      FinishInv(s, h, Retrying, Some(Truncate(error, 2000)), Backoff(s.cfg, h.attempt, jitter));
    }
  }

  // ---------- the mutation guard ----------

  lemma GuardsOnly(s: State, t: State)
    requires Inv(s) && SameCore(s, t) && t.execution == s.execution && t.watches == s.watches && Guards(t)
    ensures Inv(t) && Evolves(s, t)
  {
    hide Evolves, History, Guards, Rows, Reservation, UniqueKeys, Forest, Watching, Handles, Writes;
    SameCoreEvolves(s, t);
    SameHistory(s, t);
    RestKept(s, t);
  }

  lemma SameRowsKept(s: State, t: State)
    requires t.jobs == s.jobs && t.execution == s.execution && Rows(s) && Reservation(s)
    ensures Rows(t) && Reservation(t)
  {
  }

  lemma SameJobsKept(s: State, t: State)
    requires t.jobs == s.jobs && UniqueKeys(s) && Forest(s)
    ensures UniqueKeys(t) && Forest(t)
  {
    assert forall j | j in t.jobs && t.jobs[j].parent.Some? ::
        ParentOk(s, j, t.jobs[j].parent.value) ==> ParentOk(t, j, t.jobs[j].parent.value);
  }

  lemma SameWatchesKept(s: State, t: State)
    requires t.jobs == s.jobs && t.execution == s.execution && t.watches == s.watches && Watching(s)
    ensures Watching(t)
  {
  }

  /** Everything the invariant says about rows that both states share. */
  lemma RestKept(s: State, t: State)
    requires SameCore(s, t) && t.execution == s.execution
    requires Rows(s) && Reservation(s) && Handles(s) && UniqueKeys(s) && Forest(s) && Writes(s)
    ensures Rows(t) && Reservation(t) && Handles(t) && UniqueKeys(t) && Forest(t) && Writes(t)
    ensures Watching(s) && t.watches == s.watches ==> Watching(t)
  {
    hide Rows, Reservation, Handles, UniqueKeys, Forest, Writes, Watching, JobsEvolve, AttemptsEvolve;
    SameRowsKept(s, t);
    SameJobsKept(s, t);
    SameCoreEvolves(s, t);
    HandlesKept(s, t);
    WritesKept(s, t);
    if Watching(s) && t.watches == s.watches {
      SameWatchesKept(s, t);
    }
  }

  lemma EnterGuards(s: State, h: Job)
    requires Guards(s) && HandleOk(s, h) && h in s.issued && EnterGuard(s, h).result.Ok?
    ensures Guards(EnterGuard(s, h).state)
  {
  }

  lemma HandleAt(s: State, h: Job)
    requires Handles(s) && h in s.issued
    ensures HandleOk(s, h)
  {
  }

  lemma EnterGuardInv(s: State, h: Job)
    requires Inv(s) && h in s.issued
    ensures var r := EnterGuard(s, h); Inv(r.state) && Evolves(s, r.state)
  {
    hide Evolves, Inv, Rows, Reservation, Handles, Guards;
    EvolvesRefl(s);
    var r := EnterGuard(s, h);
    if r.result.Ok? {
      InvRows(s);
      HandleAt(s, h);
      EnterGuards(s, h);
      GuardsOnly(s, r.state);
    }
  }

  lemma LeaveGuardInv(s: State, repo: RepoId)
    requires Inv(s)
    ensures Inv(LeaveGuard(s, repo)) && Evolves(s, LeaveGuard(s, repo))
  {
    hide Inv, Evolves;
    InvRows(s);
    assert Guards(LeaveGuard(s, repo));
    GuardsOnly(s, LeaveGuard(s, repo));
  }

  /** The guard's holder is the open attempt, and the open attempt is its repository's latest. */
  lemma OpenRowIsLatest(s: State, i: nat, k: nat)
    requires AttemptRows(s) && Timeline(s)
    requires i < |s.attempts| && k < |s.attempts| && SameRepo(s, s.attempts[i], s.attempts[k])
    requires s.attempts[i].generation == s.jobs[s.attempts[i].job].generation && s.jobs[s.attempts[i].job].status.Running?
    ensures k <= i
  {
    assert AttemptOk(s, s.attempts[i]);
  }

  lemma HistoryParts(s: State)
    requires History(s)
    ensures AttemptRows(s) && Timeline(s)
  {
  }

  lemma WrittenInv(s: State, t: State)
    requires Inv(s) && t == s.(writes := t.writes) && s.writes <= t.writes && Writes(t)
    ensures Inv(t) && Evolves(s, t)
  {
    hide Writes, History, Evolves, Rows, Reservation, Guards, UniqueKeys, Forest, Watching, Handles;
    SameCoreEvolves(s, t);
    SameHistory(s, t);
    WrittenRows(s, t);
  }

  lemma WrittenRows(s: State, t: State)
    requires t == s.(writes := t.writes)
    requires Rows(s) && Reservation(s) && Handles(s) && Guards(s) && UniqueKeys(s) && Forest(s) && Watching(s)
    ensures Rows(t) && Reservation(t) && Handles(t) && Guards(t) && UniqueKeys(t) && Forest(t) && Watching(t)
  {
    assert forall h | h in t.issued :: HandleOk(s, h) ==> HandleOk(t, h);
    assert forall j | j in t.jobs && t.jobs[j].parent.Some? ::
             ParentOk(s, j, t.jobs[j].parent.value) ==> ParentOk(t, j, t.jobs[j].parent.value);
  }

  lemma GuardedWriteInv(s: State, h: Job)
    requires Inv(s)
    ensures Inv(GuardedWrite(s, h)) && Evolves(s, GuardedWrite(s, h))
  {
    hide Rows, Reservation, UniqueKeys, Forest, Watching, Handles, History;
    var t := GuardedWrite(s, h);
    if t != s {
      assert AttemptRows(s) && Timeline(s) by { HistoryParts(s); }
      var i := RowIndex(s.attempts, h.id, h.generation);
      assert WriteOk(s, t.writes[|s.writes|]);
      forall p | 0 <= p < |s.writes| && s.writes[p].repo == h.repo ensures s.writes[p].claim <= i {
        assert WriteOk(s, s.writes[p]);
        OpenRowIsLatest(s, i, s.writes[p].claim);
      }
      assert Writes(t);
      WrittenInv(s, t);
    }
  }
}
