/** What the ways of submitting work put into the tables: requests, resubmissions, observed changes and legacy imports. */
module Submissions {
  import opened Basics
  import opened Coordination
  import opened CoordinationInvariants
  import opened CoordinationSteps
  import opened CoordinationRuns
  import opened CoordinationTheorems
  import opened Claims

  /** A job nobody has touched yet: it waits since now and has its whole budget. */
  ghost predicate Untouched(job: Job, now: Time, budget: nat) {
    && job.status == Queued && job.attempt == 0 && job.generation == 0 && job.maxAttempts == budget
    && job.createdAt == now && job.availableAt == now && job.completedAt.None?
    && job.worker.None? && job.leaseExpiresAt.None? && !job.cancelRequested && job.error.None?
    && job.progress == Progress(0, 0, 0, 0, 0, 0, 0)
  }

  /** Exactly this job was added. */
  ghost predicate Added(s: State, t: State, job: Job) {
    job.id !in s.jobs && t.jobs == s.jobs[job.id := job] && Untouched(job, s.now, s.cfg.maxRetries)
  }

  /** A new job can be claimed at once unless its repository is busy. */
  lemma AddedIsObtainable(s: State, t: State, job: Job)
    requires ValidSettings(s.cfg) && Added(s, t, job) && t.now == s.now && t.guards == s.guards
    requires job.repo in t.execution && t.execution[job.repo].None? && job.repo !in s.guards
    ensures Obtainable(t, job.id)
  {
  }

  ghost predicate KeyedOtherwise(s: State, j: JobId, key: string, repo: RepoId, mode: string, priority: int) {
    j in s.jobs && s.jobs[j].key == Some(key) && !(s.jobs[j].repo == repo && s.jobs[j].mode == mode && s.jobs[j].priority == priority)
  }

  /** A request is refused for its mode, for an empty key, or because its key belongs to a different request. Otherwise it is
      answered with the job that has its key, or else with a new one. Nothing else changes but that the repository is known. */
  lemma RequestsAreAnswered(s: State, repo: RepoId, mode: string, key: Option<string>, priority: int, newId: JobId)
    requires Inv(s)
    ensures var r := SubmitJob(s, repo, mode, key, priority, newId); var t := r.state;
            && (r.result == Err(ValueError) <==>
                  || (mode != "full" && mode != "incremental") || key == Some("")
                  || (key.Some? && exists j :: KeyedOtherwise(s, j, key.value, repo, mode, priority)))
            && (r.result.Err? ==> t == s && (r.result == Err(ValueError) || (newId in s.jobs && r.result == Err(IntegrityError))))
            && (r.result.Ok? ==>
                  && var job := r.result.value;
                     && t == s.(jobs := t.jobs, execution := t.execution)
                     && repo in t.execution && t.execution == (if repo in s.execution then s.execution else s.execution[repo := None])
                     && job.repo == repo && job.mode == mode && job.priority == priority && job.key == key
                     && (t.jobs == s.jobs ==> key.Some? && job.id in s.jobs && s.jobs[job.id] == job)
                     && (t.jobs != s.jobs ==> job.id == newId && Added(s, t, job) && job.trigger == Manual && job.parent.None?))
  {
    hide Inv, SubmitJob, Added;
    InvRows(s);
    InvUnique(s);
    if key.Some? && exists j :: HasKey(s, j, key.value) {
      HeldKeyAnswers(s, repo, mode, key.value, priority, newId, KeyHolder(s, key.value));
    } else {
      FreeKeyAnswers(s, repo, mode, key, priority, newId);
      assert key.Some? ==> forall j :: KeyedOtherwise(s, j, key.value, repo, mode, priority) ==> HasKey(s, j, key.value);
    }
  }

  lemma HeldKeyAnswers(s: State, repo: RepoId, mode: string, key: string, priority: int, newId: JobId, j: JobId)
    requires Rows(s) && UniqueKeys(s) && HasKey(s, j, key)
    ensures KeyedOtherwise(s, j, key, repo, mode, priority)
            || (s.jobs[j].repo == repo && s.jobs[j].mode == mode && s.jobs[j].priority == priority)
    ensures forall i :: KeyedOtherwise(s, i, key, repo, mode, priority) ==> i == j
    ensures s.jobs[j].id == j && s.jobs[j].key == Some(key) && s.jobs[j].repo in s.execution
    ensures SubmitJob(s, repo, mode, Some(key), priority, newId)
            == if (mode == "full" || mode == "incremental") && key != ""
                  && s.jobs[j].repo == repo && s.jobs[j].mode == mode && s.jobs[j].priority == priority
               then Reply(s, Ok(s.jobs[j])) else Reply(s, Err(ValueError))
  {
    RowAt(s, j);
    KeyFound(s, j, key);
    assert forall i :: KeyedOtherwise(s, i, key, repo, mode, priority) ==> HasKey(s, i, key);
  }

  lemma FreeKeyAnswers(s: State, repo: RepoId, mode: string, key: Option<string>, priority: int, newId: JobId)
    requires key.Some? ==> forall j :: !HasKey(s, j, key.value)
    ensures var r := SubmitJob(s, repo, mode, key, priority, newId); var t := r.state;
            if (mode != "full" && mode != "incremental") || key == Some("") then r == Reply(s, Err(ValueError))
            else if newId in s.jobs then r == Reply(s, Err(IntegrityError))
            else
              && r.result.Ok? && Added(s, t, r.result.value) && t.jobs != s.jobs
              && t == s.(jobs := t.jobs, execution := if repo in s.execution then s.execution else s.execution[repo := None])
              && var job := r.result.value;
                 && job.id == newId && job.repo == repo && job.mode == mode && job.priority == priority && job.key == key
                 && job.trigger == Manual && job.parent.None?
  {
  }

  /** A finished job is retried by a new incremental job of the same repository and priority that names it as parent; a job that
      was retried already answers with that successor. Every watch that tracked the job tracks the successor. */
  lemma RetriesAreAnswered(s: State, id: JobId, newId: JobId)
    requires Inv(s)
    ensures var r := ResubmitJob(s, id, newId); var t := r.state;
            && (r.result == Err(LookupError) <==> id !in s.jobs)
            && (r.result == Err(ValueError) <==> id in s.jobs && !s.jobs[id].status.Terminal())
            && (r.result.Err? ==> t == s)
            && (r.result.Ok? ==>
                  && id in s.jobs && t == s.(jobs := t.jobs, watches := t.watches)
                  && var job := r.result.value;
                     && job.parent == Some(id) && job.repo == s.jobs[id].repo
                     && (t.jobs == s.jobs ==> job.id in s.jobs && s.jobs[job.id] == job)
                     && (t.jobs != s.jobs ==>
                           && job.id == newId && Added(s, t, job) && job.mode == "incremental" && job.priority == s.jobs[id].priority
                           && job.key.None? && job.trigger == Retry)
                     && t.watches.Keys == s.watches.Keys
                     && forall v | v in s.watches ::
                          t.watches[v] == if s.watches[v].lastJob == Some(id) then s.watches[v].(lastJob := Some(job.id)) else s.watches[v])
  {
    hide Reservation, History, Handles, Guards, Writes, UniqueKeys, Watching;
    if id in s.jobs && s.jobs[id].status.Terminal() && exists j :: IsChild(s, j, id) {
      var child := Child(s, id);
      assert ParentOk(s, child, s.jobs[child].parent.value);
      RowAt(s, child);
    }
  }

  /** What an observation leaves. A watch that is missing or switched off ignores it. Otherwise the row remembers the content and
      the time and forgets an error; either no job is added, or one untouched incremental job of the watcher's is, and then the
      row names it and its content and nothing is pending. */
  lemma ObservationsAreRecorded(s: State, repo: RepoId, f: Fingerprint, indexed: Option<Fingerprint>, newId: JobId)
    requires Inv(s)
    ensures var r := Observe(s, repo, f, indexed, newId); var t := r.state;
            && (repo !in s.watches || !s.watches[repo].enabled ==> r == Reply(s, Ok(None)))
            && (r.result.Err? ==> r == Reply(s, Err(IntegrityError)) && newId in s.jobs)
            && (r.result.Ok? && repo in s.watches && s.watches[repo].enabled ==>
                  && t == s.(jobs := t.jobs, watches := t.watches) && t.watches == s.watches[repo := t.watches[repo]]
                  && var w := t.watches[repo];
                     && w.enabled && w.observed == Some(f) && w.lastChecked == Some(s.now) && w.error.None?
                     && w.stableSince == (if s.watches[repo].observed == Some(f) then s.watches[repo].stableSince else Some(s.now))
                     && (r.result.value.None? ==> t.jobs == s.jobs && w.lastJob == s.watches[repo].lastJob
                                                  && (w.submitted == Some(f) ==> w.pendingSince.None?)
                                                  && (w.submitted != Some(f) ==> w.pendingSince.Some?))
                     && (r.result.value.Some? ==>
                           && var job := r.result.value.value;
                              && job.id == newId && Added(s, t, job) && job.repo == repo
                              && job.mode == "incremental" && job.trigger == Watch && job.priority == 0 && job.key.None? && job.parent.None?
                              && w.submitted == Some(f) && w.lastJob == Some(newId) && w.pendingSince.None?))
  {
    hide Inv, Busyness, LastCompleted;
  }

  // ---------- the legacy import ----------

  /** A legacy row as a job: finished ones keep their status and attempts; of the others a cancelled one ends as cancelled, and
      the rest wait, with at least one attempt counted as spent and at least one left. */
  ghost predicate Carried(row: LegacyRow, job: Job, now: Time, budget: nat) {
    && job.id == row.id && job.repo == row.repo && job.mode == row.mode && job.key == row.key && job.createdAt == row.createdAt
    && job.cancelRequested == row.cancelRequested && job.progress == row.progress && job.error == row.error
    && job.worker.None? && job.leaseExpiresAt.None? && job.generation == 0 && job.priority == 0 && job.availableAt == now
    && job.trigger == Manual && job.parent.None?
    && row.attempt < job.maxAttempts && budget <= job.maxAttempts && 2 <= job.maxAttempts
    && job.maxAttempts in {budget, row.attempt + 1, 2}
    && (row.status.Terminal() ==>
          job.status == row.status && job.attempt == row.attempt && job.completedAt == Some(row.updatedAt))
    && (!row.status.Terminal() ==> job.attempt == if row.attempt == 0 then 1 else row.attempt)
    && (!row.status.Terminal() && row.cancelRequested ==> job.status == Cancelled && job.completedAt == Some(row.updatedAt))
    && (!row.status.Terminal() && !row.cancelRequested ==>
          job.status == Queued && job.completedAt.None? && job.attempt < job.maxAttempts)
  }

  ghost predicate CarriedFrom(rows: seq<LegacyRow>, job: Job, now: Time, budget: nat) {
    exists i :: 0 <= i < |rows| && Carried(rows[i], job, now, budget)
  }

  /** The row's job is there, or its key is taken. */
  ghost predicate Present(s: State, row: LegacyRow) {
    row.id in s.jobs || (row.key.Some? && exists j :: HasKey(s, j, row.key.value))
  }

  lemma RowIsCarried(s: State, row: LegacyRow)
    ensures var t := ImportRow(s, row);
            && t == s.(jobs := t.jobs, execution := t.execution) && row.repo in t.execution && Present(t, row)
            && (if Conflicts(EnsureExecution(s, row.repo), row) then t.jobs == s.jobs
                else row.id !in s.jobs && row.id in t.jobs && t.jobs == s.jobs[row.id := t.jobs[row.id]]
                     && Carried(row, t.jobs[row.id], s.now, s.cfg.maxRetries))
  {
  }

  lemma PresentStays(s: State, t: State, row: LegacyRow)
    requires JobsEvolve(s, t) && Present(s, row)
    ensures Present(t, row)
  {
    if row.id !in s.jobs {
      var j :| HasKey(s, j, row.key.value);
      assert JobEvolves(s.jobs[j], t.jobs[j], s.now);
      assert HasKey(t, j, row.key.value);
    }
  }

  lemma CarriedFromMore(rows: seq<LegacyRow>, job: Job, now: Time, budget: nat)
    requires rows != []
    requires Carried(rows[0], job, now, budget) || CarriedFrom(rows[1..], job, now, budget)
    ensures CarriedFrom(rows, job, now, budget)
  {
    hide Carried;
    if CarriedFrom(rows[1..], job, now, budget) {
      var i :| 0 <= i < |rows[1..]| && Carried(rows[1..][i], job, now, budget);
      assert Carried(rows[i + 1], job, now, budget);
    }
  }

  lemma {:induction false} RowsAreCarried(s: State, rows: seq<LegacyRow>)
    requires Inv(s) && forall i :: 0 <= i < |rows| ==> ValidMode(rows[i].mode)
    ensures var r := ImportRows(s, rows); var t := r.0;
            && t.now == s.now && t.cfg == s.cfg
            && (forall j | j in s.jobs :: j in t.jobs && t.jobs[j] == s.jobs[j])
            && (forall j | j in t.jobs && j !in s.jobs :: CarriedFrom(rows, t.jobs[j], s.now, s.cfg.maxRetries))
            && (forall i | 0 <= i < |rows| :: Present(t, rows[i]))
            && |t.jobs| == |s.jobs| + r.1
    decreases |rows|
  {
    hide Inv, Evolves, ImportRow, Conflicts, Carried, CarriedFrom, Present, ValidMode;
    if rows != [] {
      var u := ImportRow(s, rows[0]);
      RowIsCarried(s, rows[0]);
      ImportRowInv(s, rows[0]);
      RowsAreCarried(u, rows[1..]);
      ImportRowsInv(u, rows[1..]);
      var t := ImportRows(s, rows).0;
      assert JobsEvolve(u, t) by { EvolvingJobs(u, t); }
      PresentStays(u, t, rows[0]);
      forall i | 0 <= i < |rows| ensures Present(t, rows[i]) {
        if i > 0 { assert rows[i] == rows[1..][i - 1]; }
      }
      forall j | j in t.jobs && j !in s.jobs ensures CarriedFrom(rows, t.jobs[j], s.now, s.cfg.maxRetries) {
        CarriedFromMore(rows, t.jobs[j], s.now, s.cfg.maxRetries);
      }
    }
  }

  lemma EvolvingJobs(s: State, t: State)
    requires Evolves(s, t)
    ensures JobsEvolve(s, t)
  {
  }

  lemma {:induction false} PresentRowsAreSkipped(s: State, rows: seq<LegacyRow>)
    requires forall i | 0 <= i < |rows| :: Present(s, rows[i])
    ensures ImportRows(s, rows).0.jobs == s.jobs && ImportRows(s, rows).1 == 0
    decreases |rows|
  {
    hide Present, ImportRow;
    if rows != [] {
      var t := ImportRow(s, rows[0]);
      PresentConflicts(s, rows[0]);
      forall i | 0 <= i < |rows[1..]| ensures Present(t, rows[1..][i]) {
        assert Present(s, rows[i + 1]);
        SameJobsPresent(s, t, rows[i + 1]);
      }
      PresentRowsAreSkipped(t, rows[1..]);
    }
  }

  lemma PresentConflicts(s: State, row: LegacyRow)
    requires Present(s, row)
    ensures Conflicts(EnsureExecution(s, row.repo), row) && ImportRow(s, row).jobs == s.jobs
  {
    if row.id !in s.jobs {
      var j :| HasKey(s, j, row.key.value);
      assert HasKey(EnsureExecution(s, row.repo), j, row.key.value);
    }
  }

  lemma SameJobsPresent(s: State, t: State, row: LegacyRow)
    requires Present(s, row) && t.jobs == s.jobs
    ensures Present(t, row)
  {
    if row.id !in s.jobs {
      var j :| HasKey(s, j, row.key.value);
      assert HasKey(t, j, row.key.value);
    }
  }

  /** The import takes all rows or, for an invalid mode, none. Every job it adds carries one of the rows; nothing that was there
      changes; the answer counts the jobs added. And it is restart-safe: importing the same rows again, in any later state,
      adds nothing. */
  lemma ImportIsRestartSafe(s: State, rows: seq<LegacyRow>, es: seq<Event>)
    requires Inv(s)
    ensures var r := ImportLegacyJobs(s, rows); var t := r.state; var u := Run(t, es);
            && (r.result.Err? <==> exists i :: 0 <= i < |rows| && rows[i].mode != "full" && rows[i].mode != "incremental")
            && (r.result.Err? ==> r == Reply(s, Err(IntegrityError)))
            && (r.result.Ok? ==>
                  && |t.jobs| == |s.jobs| + r.result.value
                  && (forall j | j in s.jobs :: j in t.jobs && t.jobs[j] == s.jobs[j])
                  && (forall j | j in t.jobs && j !in s.jobs :: CarriedFrom(rows, t.jobs[j], s.now, s.cfg.maxRetries))
                  && (forall i | 0 <= i < |rows| :: Present(t, rows[i]))
                  && ImportLegacyJobs(u, rows).result == Ok(0) && ImportLegacyJobs(u, rows).state.jobs == u.jobs)
  {
    hide Inv, Evolves, Run, ImportRows, CarriedFrom, Present;
    if forall i :: 0 <= i < |rows| ==> ValidMode(rows[i].mode) {
      RowsAreCarried(s, rows);
      ImportInv(s, rows);
      var t := ImportLegacyJobs(s, rows).state;
      RunInv(t, es);
      EvolvingJobs(t, Run(t, es));
      forall i | 0 <= i < |rows| ensures Present(Run(t, es), rows[i]) {
        PresentStays(t, Run(t, es), rows[i]);
      }
      PresentRowsAreSkipped(Run(t, es), rows);
    }
  }
}
