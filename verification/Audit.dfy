/** The benchmark harness' audit of the attempt log: a sweep that counts overlapping leases per job and per repository. */
module Audit {
  import opened Basics
  import opened Coordination
  import opened CoordinationInvariants
  import opened CoordinationRuns
  import opened CoordinationTheorems

  datatype AuditRow = AuditRow(job: JobId, repo: RepoId, claimedAt: Time, leaseExpiresAt: Time, endedAt: Option<Time>)

  datatype Field = ByJob | ByRepository

  function Key(row: AuditRow, field: Field): nat {
    match field
    case ByJob => row.job
    case ByRepository => row.repo
  }

  /** The instant from which the attempt no longer counts as active. */
  function End(row: AuditRow): Time {
    MinReal(row.leaseExpiresAt, if row.endedAt.Some? then row.endedAt.value else row.leaseExpiresAt)
  }

  /** Row k was claimed while an earlier listed row of its key was still active. */
  predicate Covered(rows: seq<AuditRow>, k: nat, field: Field)
    requires k < |rows|
  {
    exists i :: 0 <= i < k && Key(rows[i], field) == Key(rows[k], field) && rows[k].claimedAt < End(rows[i])
  }

  function Overlaps(rows: seq<AuditRow>, field: Field): nat
    decreases |rows|
  {
    if rows == [] then 0
    else Overlaps(rows[..|rows| - 1], field) + if Covered(rows, |rows| - 1, field) then 1 else 0
  }

  /** ends maps every key seen in the rows to the latest end among them. */
  ghost predicate LatestEnds(ends: map<nat, Time>, rows: seq<AuditRow>, field: Field) {
    && (forall i :: 0 <= i < |rows| ==> Key(rows[i], field) in ends && End(rows[i]) <= ends[Key(rows[i], field)])
    && (forall x | x in ends :: exists i :: 0 <= i < |rows| && Key(rows[i], field) == x && End(rows[i]) == ends[x])
  }

  method Audit(rows: seq<AuditRow>) returns (duplicates: nat, repositoryOverlaps: nat)
    ensures duplicates == Overlaps(rows, ByJob)
    ensures repositoryOverlaps == Overlaps(rows, ByRepository)
  {
    duplicates, repositoryOverlaps := 0, 0;
    var fields := [ByJob, ByRepository];
    for f := 0 to 2
      invariant duplicates == if f > 0 then Overlaps(rows, ByJob) else 0
      invariant repositoryOverlaps == if f > 1 then Overlaps(rows, ByRepository) else 0
    {
      var ends: map<nat, Time> := map[];
      for k := 0 to |rows|
        invariant LatestEnds(ends, rows[..k], fields[f])
        invariant duplicates == if f == 0 then Overlaps(rows[..k], ByJob) else Overlaps(rows, ByJob)
        invariant repositoryOverlaps == if f == 1 then Overlaps(rows[..k], ByRepository) else 0
      {
        var row := rows[k];
        var key := Key(row, fields[f]);
        var end := End(row);
        CoveredByLatest(rows, k, fields[f], ends);
        OverlapsStep(rows, k, fields[f]);
        LatestEndsStep(rows[..k], row, fields[f], ends);
        assert rows[..k + 1] == rows[..k] + [row];
        if key in ends && row.claimedAt < ends[key] {
          if f == 0 {
            duplicates := duplicates + 1;
          } else {
            repositoryOverlaps := repositoryOverlaps + 1;
          }
        }
        ends := ends[key := if key in ends then MaxReal(ends[key], end) else end];
      }
      assert rows[..|rows|] == rows;
    }
  }

  lemma OverlapsStep(rows: seq<AuditRow>, k: nat, field: Field)
    requires k < |rows|
    ensures Overlaps(rows[..k + 1], field) == Overlaps(rows[..k], field) + if Covered(rows, k, field) then 1 else 0
  {
    var next := rows[..k + 1];
    assert next[..k] == rows[..k];
    assert forall i :: 0 <= i <= k ==> next[i] == rows[i];
    assert Covered(next, k, field) <==> Covered(rows, k, field);
  }

  /** Comparing with the latest end decides whether any earlier row covers this one. */
  lemma CoveredByLatest(rows: seq<AuditRow>, k: nat, field: Field, ends: map<nat, Time>)
    requires k < |rows| && LatestEnds(ends, rows[..k], field)
    ensures Covered(rows, k, field) <==> Key(rows[k], field) in ends && rows[k].claimedAt < ends[Key(rows[k], field)]
  {
    var head, key := rows[..k], Key(rows[k], field);
    if key in ends && rows[k].claimedAt < ends[key] {
      var i :| 0 <= i < |head| && Key(head[i], field) == key && End(head[i]) == ends[key];
      assert Key(rows[i], field) == key && rows[k].claimedAt < End(rows[i]);
    }
    if Covered(rows, k, field) {
      var i :| 0 <= i < k && Key(rows[i], field) == key && rows[k].claimedAt < End(rows[i]);
      assert head[i] == rows[i];
    }
  }

  lemma LatestEndsStep(head: seq<AuditRow>, row: AuditRow, field: Field, ends: map<nat, Time>)
    requires LatestEnds(ends, head, field)
    ensures var key := Key(row, field);
            LatestEnds(ends[key := if key in ends then MaxReal(ends[key], End(row)) else End(row)], head + [row], field)
  {
    var key := Key(row, field);
    var next := head + [row];
    var later := ends[key := if key in ends then MaxReal(ends[key], End(row)) else End(row)];
    forall x | x in later ensures exists i :: 0 <= i < |next| && Key(next[i], field) == x && End(next[i]) == later[x] {
      if x == key && (key !in ends || End(row) == later[x]) {
        assert next[|head|] == row;
      } else {
        var i :| 0 <= i < |head| && Key(head[i], field) == x && End(head[i]) == ends[x];
        assert next[i] == head[i];
      }
    }
  }

  // ---------- what the verdict means ----------

  /** The sweep reports nothing exactly when every row was claimed after all earlier listed rows of its key ended. */
  lemma {:induction false} ZeroMeansNoneCovered(rows: seq<AuditRow>, field: Field)
    ensures Overlaps(rows, field) == 0 <==> forall k :: 0 <= k < |rows| ==> !Covered(rows, k, field)
    decreases |rows|
  {
    if rows != [] {
      var head := rows[..|rows| - 1];
      ZeroMeansNoneCovered(head, field);
      assert forall k :: 0 <= k < |head| ==> (Covered(head, k, field) <==> Covered(rows, k, field));
      if forall k :: 0 <= k < |rows| ==> !Covered(rows, k, field) {
        assert forall k :: 0 <= k < |head| ==> !Covered(head, k, field);
      }
    }
  }

  ghost predicate SortedByClaim(rows: seq<AuditRow>) {
    forall i, k :: 0 <= i < k < |rows| ==> rows[i].claimedAt <= rows[k].claimedAt
  }

  /** The attempt's lease runs at that time and it has not ended. */
  ghost predicate ActiveAt(row: AuditRow, at: Time) {
    at < row.leaseExpiresAt && (row.endedAt.Some? ==> at < row.endedAt.value)
  }

  ghost predicate JobTaken(rows: seq<AuditRow>, k: int) {
    0 <= k < |rows| && exists i :: 0 <= i < k && rows[i].job == rows[k].job && ActiveAt(rows[i], rows[k].claimedAt)
  }

  ghost predicate RepoTaken(rows: seq<AuditRow>, k: int) {
    0 <= k < |rows| && exists i :: 0 <= i < k && rows[i].repo == rows[k].repo && ActiveAt(rows[i], rows[k].claimedAt)
  }

  lemma CoveredMeansTaken(rows: seq<AuditRow>, k: nat)
    requires k < |rows|
    ensures Covered(rows, k, ByJob) <==> JobTaken(rows, k)
    ensures Covered(rows, k, ByRepository) <==> RepoTaken(rows, k)
  {
    forall i | 0 <= i < k ensures rows[k].claimedAt < End(rows[i]) <==> ActiveAt(rows[i], rows[k].claimedAt) {
    }
  }

  lemma TakenInPrefix(rows: seq<AuditRow>, n: nat, k: int)
    requires n <= |rows| && k < n
    ensures (JobTaken(rows[..n], k) <==> JobTaken(rows, k)) && (RepoTaken(rows[..n], k) <==> RepoTaken(rows, k))
  {
    if 0 <= k {
      assert forall i | 0 <= i <= k :: rows[..n][i] == rows[i];
    }
  }

  ghost function JobsTaken(rows: seq<AuditRow>): set<int> {
    set k | 0 <= k < |rows| && JobTaken(rows, k)
  }

  ghost function ReposTaken(rows: seq<AuditRow>): set<int> {
    set k | 0 <= k < |rows| && RepoTaken(rows, k)
  }

  /** What the two numbers of the audit count: the attempts claimed while an attempt listed earlier, of the same job or of the
      same repository, was active. */
  lemma {:induction false} AlarmsAreCounted(rows: seq<AuditRow>)
    ensures Overlaps(rows, ByJob) == |JobsTaken(rows)| && Overlaps(rows, ByRepository) == |ReposTaken(rows)|
    decreases |rows|
  {
    hide JobTaken, RepoTaken, Covered, JobsTaken, ReposTaken;
    if rows == [] {
      NobodyTaken();
    } else {
      AlarmsAreCounted(rows[..|rows| - 1]);
      CoveredMeansTaken(rows, |rows| - 1);
      JobsTakenMore(rows);
      ReposTakenMore(rows);
    }
  }

  lemma NobodyTaken()
    ensures JobsTaken([]) == {} && ReposTaken([]) == {}
  {
  }

  lemma JobsTakenMore(rows: seq<AuditRow>)
    requires rows != []
    ensures |JobsTaken(rows)| == |JobsTaken(rows[..|rows| - 1])| + if JobTaken(rows, |rows| - 1) then 1 else 0
  {
    hide JobTaken, RepoTaken;
    var n := |rows| - 1;
    forall k | k < n ensures JobTaken(rows[..n], k) <==> JobTaken(rows, k) {
      TakenInPrefix(rows, n, k);
    }
    assert JobsTaken(rows) == if JobTaken(rows, n) then JobsTaken(rows[..n]) + {n} else JobsTaken(rows[..n]);
  }

  lemma ReposTakenMore(rows: seq<AuditRow>)
    requires rows != []
    ensures |ReposTaken(rows)| == |ReposTaken(rows[..|rows| - 1])| + if RepoTaken(rows, |rows| - 1) then 1 else 0
  {
    hide JobTaken, RepoTaken;
    var n := |rows| - 1;
    forall k | k < n ensures RepoTaken(rows[..n], k) <==> RepoTaken(rows, k) {
      TakenInPrefix(rows, n, k);
    }
    assert ReposTaken(rows) == if RepoTaken(rows, n) then ReposTaken(rows[..n]) + {n} else ReposTaken(rows[..n]);
  }

  /** Two half-open intervals share an instant. */
  ghost predicate Intersect(a: AuditRow, b: AuditRow) {
    MaxReal(a.claimedAt, b.claimedAt) < MinReal(End(a), End(b))
  }

  /** On rows sorted by claim time with non-empty intervals, zero means pairwise disjoint, and conversely. */
  lemma ZeroMeansDisjoint(rows: seq<AuditRow>, field: Field)
    requires SortedByClaim(rows) && forall i :: 0 <= i < |rows| ==> rows[i].claimedAt < End(rows[i])
    ensures Overlaps(rows, field) == 0 <==>
            forall i, k :: 0 <= i < k < |rows| && Key(rows[i], field) == Key(rows[k], field) ==> !Intersect(rows[i], rows[k])
  {
    ZeroMeansNoneCovered(rows, field);
    if forall k :: 0 <= k < |rows| ==> !Covered(rows, k, field) {
      forall i, k | 0 <= i < k < |rows| && Key(rows[i], field) == Key(rows[k], field) ensures !Intersect(rows[i], rows[k]) {
        assert !Covered(rows, k, field);
      }
    }
    if forall i, k :: 0 <= i < k < |rows| && Key(rows[i], field) == Key(rows[k], field) ==> !Intersect(rows[i], rows[k]) {
      forall k | 0 <= k < |rows| ensures !Covered(rows, k, field) {
        forall i | 0 <= i < k && Key(rows[i], field) == Key(rows[k], field) ensures rows[k].claimedAt >= End(rows[i]) {
          assert !Intersect(rows[i], rows[k]);
        }
      }
    }
  }

  // ---------- the audit of the protocol's own log ----------

  ghost function RowOf(s: State, a: Attempt): AuditRow
    requires a.job in s.jobs
  {
    AuditRow(a.job, s.jobs[a.job].repo, a.claimedAt, a.leaseExpiresAt, a.endedAt)
  }

  /** The safety behind the audit: whatever a run does, no two attempts of one job or of one repository were ever active at
      the same instant. */
  lemma AttemptsNeverOverlap(c: Settings, now: Time, es: seq<Event>, i: nat, k: nat, field: Field)
    requires ValidSettings(c)
    requires var s := Run(Initial(c, now), es); i < |s.attempts| && k < |s.attempts| && i != k
    ensures var s := Run(Initial(c, now), es);
            && s.attempts[i].job in s.jobs && s.attempts[k].job in s.jobs
            && var a, b := RowOf(s, s.attempts[i]), RowOf(s, s.attempts[k]);
               Key(a, field) == Key(b, field) ==> !Intersect(a, b)
  {
    hide Run, Inv, AttemptRows, UniqueRows, CompleteRows, Links, Writes, UniqueKeys, Forest, Watching, Guards;
    var s := Run(Initial(c, now), es);
    ReachableInv(c, now, es);
    InvParts(s);
    AttemptHasJob(s, i);
    AttemptHasJob(s, k);
    var a, b := s.attempts[i], s.attempts[k];
    assert Key(RowOf(s, a), field) == Key(RowOf(s, b), field) ==> SameRepo(s, a, b) && SameRepo(s, b, a);
  }

  lemma AttemptHasJob(s: State, i: nat)
    requires AttemptRows(s) && i < |s.attempts|
    ensures s.attempts[i].job in s.jobs
  {
    assert AttemptOk(s, s.attempts[i]);
  }

  /** So no listing of the log, in whatever order, holds two intervals of one key that intersect; an alarm on a reachable log
      is always false. */
  lemma ListedAttemptsAreDisjoint(c: Settings, now: Time, es: seq<Event>, rows: seq<AuditRow>, order: seq<nat>, field: Field)
    requires ValidSettings(c) && Listing(Run(Initial(c, now), es), rows, order)
    ensures forall i, k | 0 <= i < k < |rows| && Key(rows[i], field) == Key(rows[k], field) :: !Intersect(rows[i], rows[k])
  {
    hide Run, Intersect;
    forall i, k | 0 <= i < k < |rows| && Key(rows[i], field) == Key(rows[k], field) ensures !Intersect(rows[i], rows[k]) {
      AttemptsNeverOverlap(c, now, es, order[i], order[k], field);
    }
  }

  /** rows is the attempt table joined with jobs, ORDER BY claimed_at; order says which attempt each row is. */
  ghost predicate Listing(s: State, rows: seq<AuditRow>, order: seq<nat>) {
    && |order| == |rows|
    && (forall i :: 0 <= i < |order| ==> order[i] < |s.attempts| && s.attempts[order[i]].job in s.jobs)
    && (forall i, k :: 0 <= i < k < |order| ==> order[i] != order[k])
    && (forall i :: 0 <= i < |rows| ==> rows[i] == RowOf(s, s.attempts[order[i]]))
    && SortedByClaim(rows)
  }

  /** A pair of one key that the sort listed against the order of the claims, while the later claim was still active. */
  ghost predicate Misordered(rows: seq<AuditRow>, order: seq<nat>, field: Field, i: int, k: int)
    requires |order| == |rows| && 0 <= i < k < |rows|
  {
    Key(rows[i], field) == Key(rows[k], field) && order[k] < order[i] && rows[k].claimedAt < End(rows[i])
  }

  lemma ListedInOrder(s: State, rows: seq<AuditRow>, order: seq<nat>, field: Field, i: nat, k: nat)
    requires Timeline(s) && Listing(s, rows, order)
    requires i < k < |rows| && Key(rows[i], field) == Key(rows[k], field)
    ensures order[i] < order[k] ==> End(rows[i]) <= rows[k].claimedAt
    ensures order[k] < order[i] ==> rows[i].claimedAt == rows[k].claimedAt && End(rows[k]) <= rows[k].claimedAt
  {
    var a, b := s.attempts[order[i]], s.attempts[order[k]];
    assert SameRepo(s, a, b) && SameRepo(s, b, a);
  }

  /** The exact verdict on any reachable attempt log: a false alarm happens exactly when two attempts of one key
      were claimed at the same instant and the sort lists the later, still active one first. */
  lemma AuditVerdict(c: Settings, now: Time, es: seq<Event>, rows: seq<AuditRow>, order: seq<nat>, field: Field)
    requires ValidSettings(c) && Listing(Run(Initial(c, now), es), rows, order)
    ensures Overlaps(rows, field) == 0 <==> forall i, k :: 0 <= i < k < |rows| ==> !Misordered(rows, order, field, i, k)
    ensures forall i, k :: 0 <= i < k < |rows| && Misordered(rows, order, field, i, k) ==> rows[i].claimedAt == rows[k].claimedAt
  {
    hide Run, Inv, AttemptRows, UniqueRows, CompleteRows, Links, Timeline, Writes, UniqueKeys, Forest, Watching, Guards;
    var s := Run(Initial(c, now), es);
    ReachableInv(c, now, es);
    InvParts(s);
    ZeroMeansNoneCovered(rows, field);
    forall i, k | 0 <= i < k < |rows| && Misordered(rows, order, field, i, k)
      ensures rows[i].claimedAt == rows[k].claimedAt && Covered(rows, k, field)
    {
      ListedInOrder(s, rows, order, field, i, k);
    }
    forall k | 0 <= k < |rows| && Covered(rows, k, field)
      ensures exists i :: 0 <= i < k && Misordered(rows, order, field, i, k)
    {
      var i :| 0 <= i < k && Key(rows[i], field) == Key(rows[k], field) && rows[k].claimedAt < End(rows[i]);
      ListedInOrder(s, rows, order, field, i, k);
      assert Misordered(rows, order, field, i, k);
    }
  }

  /** With claim times distinct per repository, the protocol always passes: zero for jobs and for repositories. */
  lemma DistinctClaimsPass(c: Settings, now: Time, es: seq<Event>, rows: seq<AuditRow>, order: seq<nat>)
    requires ValidSettings(c) && Listing(Run(Initial(c, now), es), rows, order)
    requires forall i, k :: 0 <= i < k < |rows| && rows[i].repo == rows[k].repo ==> rows[i].claimedAt != rows[k].claimedAt
    ensures Overlaps(rows, ByJob) == 0 && Overlaps(rows, ByRepository) == 0
  {
    hide Run;
    AuditVerdict(c, now, es, rows, order, ByJob);
    AuditVerdict(c, now, es, rows, order, ByRepository);
    forall i, k | 0 <= i < k < |rows|
      ensures !Misordered(rows, order, ByJob, i, k) && !Misordered(rows, order, ByRepository, i, k)
    {
      assert rows[i].job == rows[k].job ==> rows[i].repo == rows[k].repo;
    }
  }

  /** The false alarm exists: attempt one ended the instant it was claimed, attempt two was claimed at that same
      instant, and the sort may list two before one. */
  lemma TieRaisesFalseAlarm(repo: RepoId, lease: real)
    requires lease > 0.0
    ensures var one := AuditRow(1, repo, 0.0, lease, Some(0.0));
            var two := AuditRow(2, repo, 0.0, lease, None);
            && SortedByClaim([two, one]) && !Intersect(one, two) && !Intersect(two, one)
            && Overlaps([two, one], ByRepository) == 1
            && Overlaps([one, two], ByRepository) == 0
  {
    var one := AuditRow(1, repo, 0.0, lease, Some(0.0));
    var two := AuditRow(2, repo, 0.0, lease, None);
    assert Key([two, one][0], ByRepository) == repo && End(two) == lease && End(one) == 0.0;
    assert Covered([two, one], 1, ByRepository) && !Covered([one, two], 1, ByRepository);
    assert [two, one][..1] == [two] && [one, two][..1] == [one];
    assert [two][..0] == [] && [one][..0] == [];
    assert Overlaps([two], ByRepository) == 0 && Overlaps([one], ByRepository) == 0;
  }

  // ---------- a run that raises it ----------

  /** Worker w is registered and nothing is waiting, running or guarded. */
  ghost predicate AtRest(s: State, w: WorkerId, session: Session, repo: RepoId) {
    && ValidSettings(s.cfg) && Registered(s, w, session) && s.guards == map[]
    && (forall j | j in s.jobs :: s.jobs[j].status.Terminal())
    && (repo in s.execution ==> s.execution[repo].None?)
  }

  ghost function Turn(w: WorkerId, session: Session, repo: RepoId, j: JobId): seq<Event> {
    [Submitted(repo, "full", None, 0, j), ClaimPolled(w, session)]
  }

  ghost function Submission(s: State, repo: RepoId, j: JobId): State {
    SubmitJob(s, repo, "full", None, 0, j).state
  }

  lemma SoleCandidateIsGranted(s: State, w: WorkerId, session: Session, j: JobId)
    requires Registered(s, w, session) && Claimable(s, j) && !Exhausted(s.jobs[j])
    requires forall k | Claimable(s, k) :: k == j
    ensures ClaimJob(s, w, session).state == Grant(s, j, w)
  {
    hide Grant, Exhausted, Claimed;
    assert IsFirst(s, j);
  }

  lemma SubmissionIsSole(s: State, w: WorkerId, session: Session, repo: RepoId, j: JobId)
    requires AtRest(s, w, session, repo) && j !in s.jobs
    ensures var t := Submission(s, repo, j);
            && Registered(t, w, session) && Claimable(t, j) && !Exhausted(t.jobs[j])
            && (forall k | Claimable(t, k) :: k == j)
            && t == s.(jobs := s.jobs[j := t.jobs[j]], execution := t.execution)
            && t.jobs[j].id == j && t.jobs[j].repo == repo && t.jobs[j].generation == 0 && t.jobs[j].attempt == 0
            && t.jobs[j].status.Queued?
  {
  }

  /** Submitting one job to the resting system and polling once claims that job at this very instant. */
  lemma TurnClaims(s: State, w: WorkerId, session: Session, repo: RepoId, j: JobId)
    requires AtRest(s, w, session, repo) && j !in s.jobs
    ensures var t := Run(s, Turn(w, session, repo, j));
            && t == Grant(Submission(s, repo, j), j, w)
            && t.now == s.now
            && t.attempts == s.attempts + [Attempt(j, 1, w, 1, s.now, s.now + s.cfg.lease, None, None, false, None)]
            && t.jobs == s.jobs[j := t.jobs[j]] && t.jobs[j].repo == repo
  {
    hide Step, SubmitJob, ClaimJob, AtRest;
    var u := Submission(s, repo, j);
    SubmissionIsSole(s, w, session, repo, j);
    SoleCandidateIsGranted(u, w, session, j);
    RunOfMore(s, Submitted(repo, "full", None, 0, j), [ClaimPolled(w, session)]);
    RunOfMore(u, ClaimPolled(w, session), []);
    assert Turn(w, session, repo, j) == [Submitted(repo, "full", None, 0, j)] + ([ClaimPolled(w, session)] + []);
    TurnSteps(s, w, session, repo, j);
  }

  lemma TurnSteps(s: State, w: WorkerId, session: Session, repo: RepoId, j: JobId)
    ensures Step(s, Submitted(repo, "full", None, 0, j)) == Submission(s, repo, j)
    ensures var u := Submission(s, repo, j); Step(u, ClaimPolled(w, session)) == ClaimJob(u, w, session).state
  {
    hide SubmitJob, ClaimJob;
  }

  lemma ClaimIsOwned(u: State, j: JobId, w: WorkerId)
    requires Claimable(u, j) && w in u.workers && u.cfg.lease > 0.0 && u.jobs[j].id == j
    ensures var g, h := Grant(u, j, w), Claimed(u, j, w); Owned(g, h) && h in g.issued
  {
    hide CloseRow;
  }

  /** Finishing a claim at once: the rows afterwards. */
  lemma CompletionEnds(u: State, j: JobId, w: WorkerId)
    requires Claimable(u, j) && w in u.workers && u.cfg.lease > 0.0 && u.jobs[j].id == j && !u.jobs[j].cancelRequested
    requires u.guards == map[] && u.attempts == [] && u.jobs[j].status.Queued? && u.jobs[j].generation == 0 && u.jobs[j].attempt == 0
    ensures var g, h := Grant(u, j, w), Claimed(u, j, w);
            var t := CompleteJob(g, h, false).state;
            && t.guards == map[] && t.now == u.now && t.cfg == u.cfg && t.jobs == u.jobs[j := t.jobs[j]]
            && t.jobs[j].repo == u.jobs[j].repo && t.jobs[j].status.Completed?
            && t.execution == u.execution[u.jobs[j].repo := None]
            && w in t.workers && t.workers[w].session == u.workers[w].session && t.workers[w].status.Idle?
            && t.attempts == [Attempt(j, 1, w, 1, u.now, u.now + u.cfg.lease, Some(u.now), Some(Ended(Completed)), false, None)]
  {
    hide Owned;
    ClaimIsOwned(u, j, w);
  }

  lemma CompletedStep(g: State, h: Job)
    requires h in g.issued
    ensures Step(g, JobCompleted(h, false)) == CompleteJob(g, h, false).state
  {
    hide CompleteJob;
  }

  /** Completing it at once puts the system to rest again, with the attempt ended the instant it was claimed. */
  lemma CompletionRests(s: State, w: WorkerId, session: Session, repo: RepoId, j: JobId)
    requires AtRest(s, w, session, repo) && j !in s.jobs && s.attempts == []
    ensures var u := Submission(s, repo, j);
            Claimable(u, j) && w in u.workers
            && var h := Claimed(u, j, w);
               var t := Step(Grant(u, j, w), JobCompleted(h, false));
               && AtRest(t, w, session, repo) && t.now == s.now && t.cfg == s.cfg
               && t.jobs.Keys == s.jobs.Keys + {j} && t.jobs[j].repo == repo
               && t.attempts == [Attempt(j, 1, w, 1, s.now, s.now + s.cfg.lease, Some(s.now), Some(Ended(Completed)), false, None)]
  {
    hide SubmitJob, Step, CompleteJob, Grant, Claimed;
    SubmissionIsSole(s, w, session, repo, j);
    var u := Submission(s, repo, j);
    ClaimIsOwned(u, j, w);
    CompletionEnds(u, j, w);
    CompletedStep(Grant(u, j, w), Claimed(u, j, w));
  }

  lemma RegistrationRests(c: Settings, repo: RepoId)
    requires ValidSettings(c)
    ensures var s := Run(Initial(c, 0.0), [WorkerRegistered(1, 1)]);
            AtRest(s, 1, 1, repo) && s.jobs == map[] && s.attempts == [] && s.now == 0.0 && s.cfg == c
  {
    var s := Initial(c, 0.0);
    assert [WorkerRegistered(1, 1)][1..] == [];
    assert Run(s, [WorkerRegistered(1, 1)]) == Step(s, WorkerRegistered(1, 1));
  }

  /** And the protocol reaches it, under any settings: one worker completes a job and claims the repository's next one
      before the clock moves. The sweep over a listing of that log counts one overlap, and no two intervals intersect. */
  lemma TieIsReachable(c: Settings, repo: RepoId) returns (es: seq<Event>, rows: seq<AuditRow>, order: seq<nat>)
    requires ValidSettings(c)
    ensures Listing(Run(Initial(c, 0.0), es), rows, order)
    ensures Overlaps(rows, ByRepository) == 1
    ensures forall i, k | 0 <= i < k < |rows| :: !Intersect(rows[i], rows[k])
  {
    hide Run, Step, SubmitJob, Grant, Claimed, AtRest, Overlaps, Turn;
    var s := Run(Initial(c, 0.0), [WorkerRegistered(1, 1)]);
    RegistrationRests(c, repo);
    var u := Submission(s, repo, 1);
    CompletionRests(s, 1, 1, repo, 1);
    var done := JobCompleted(Claimed(u, 1, 1), false);
    TurnClaims(s, 1, 1, repo, 1);
    var t := Step(Grant(u, 1, 1), done);
    TurnClaims(t, 1, 1, repo, 2);
    es := [WorkerRegistered(1, 1)] + (Turn(1, 1, repo, 1) + ([done] + Turn(1, 1, repo, 2)));
    RunInParts(Initial(c, 0.0), [WorkerRegistered(1, 1)], Turn(1, 1, repo, 1) + ([done] + Turn(1, 1, repo, 2)));
    RunInParts(s, Turn(1, 1, repo, 1), [done] + Turn(1, 1, repo, 2));
    RunOfMore(Grant(u, 1, 1), done, Turn(1, 1, repo, 2));
    rows := [AuditRow(2, repo, 0.0, c.lease, None), AuditRow(1, repo, 0.0, c.lease, Some(0.0))];
    order := [1, 0];
    TieRaisesFalseAlarm(repo, c.lease);
  }
}
