/** The watcher's debounce and submission rules over whole runs of the protocol. */
module Watches {
  import opened Basics
  import opened Coordination
  import opened CoordinationInvariants
  import opened CoordinationSteps
  import opened CoordinationRuns
  import opened CoordinationTheorems

  // ---------- only observe and set_enabled move a watch's timers ----------

  ghost predicate SameTimers(v: WatchRow, w: WatchRow) {
    && w.enabled == v.enabled && w.observed == v.observed && w.submitted == v.submitted
    && w.stableSince == v.stableSince && w.pendingSince == v.pendingSince
  }

  ghost predicate Untracked(w: WatchRow) {
    w.observed.None? && w.submitted.None? && w.stableSince.None? && w.pendingSince.None?
  }

  /** Rows survive with their timers; a new row starts blank. */
  ghost predicate TimersKept(s: State, t: State, r: RepoId) {
    && (r in s.watches ==> r in t.watches && SameTimers(s.watches[r], t.watches[r]))
    && (r !in s.watches && r in t.watches ==> Untracked(t.watches[r]))
  }

  ghost predicate Touches(e: Event, r: RepoId) {
    (e.WatchObserved? && e.repo == r) || (e.WatchSwitched? && e.repo == r)
  }

  lemma ClaimKeepsWatches(s: State, w: WorkerId, rounds: nat)
    requires w in s.workers
    ensures ClaimRounds(s, w, rounds).0.watches == s.watches
    decreases rounds
  {
    var c := Candidate(s);
    if rounds > 0 && c.Some? && Exhausted(s.jobs[c.value]) {
      ClaimKeepsWatches(Discard(s, c.value), w, rounds - 1);
    }
  }

  lemma HolderKeepsWatches(s: State, e: Event)
    requires e.Holder().Some?
    ensures Step(s, e).watches == s.watches
  {
    hide Owned;
  }

  lemma SubmitKeepsWatches(s: State, repo: RepoId, mode: string, key: Option<string>, priority: int, newId: JobId)
    ensures SubmitJob(s, repo, mode, key, priority, newId).state.watches == s.watches
  {
  }

  lemma ResubmitKeepsTimers(s: State, job: JobId, newId: JobId, r: RepoId)
    ensures TimersKept(s, ResubmitJob(s, job, newId).state, r)
  {
    hide NewJob, Child, IsChild;
  }

  lemma ObserveElsewhere(s: State, repo: RepoId, f: Fingerprint, indexed: Option<Fingerprint>, newId: JobId, r: RepoId)
    requires repo != r || repo !in s.watches
    ensures TimersKept(s, Observe(s, repo, f, indexed, newId).state, r)
  {
  }

  lemma TimerFrame(s: State, e: Event, r: RepoId)
    requires r in s.watches ==> !Touches(e, r)
    ensures TimersKept(s, Step(s, e), r)
  {
    hide SubmitJob, ResubmitJob, Observe, ClaimJob, ImportLegacyJobs;
    if e.Holder().Some? {
      HolderKeepsWatches(s, e);
    } else {
      match e
      case Submitted(repo, mode, key, priority, newId) => SubmitKeepsWatches(s, repo, mode, key, priority, newId);
      case Resubmitted(job, newId) => ResubmitKeepsTimers(s, job, newId, r);
      case WatchObserved(repo, f, indexed, newId) => ObserveElsewhere(s, repo, f, indexed, newId, r);
      case ClaimPolled(w, session) => PollKeepsWatches(s, w, session);
      case LegacyImported(rows) => LegacyKeepsWatches(s, rows);
      case _ =>
    }
  }

  lemma PollKeepsWatches(s: State, w: WorkerId, session: Session)
    ensures ClaimJob(s, w, session).state.watches == s.watches
  {
    if Registered(s, w, session) { ClaimKeepsWatches(s, w, CLAIM_ROUNDS); }
  }

  lemma LegacyKeepsWatches(s: State, rows: seq<LegacyRow>)
    ensures ImportLegacyJobs(s, rows).state.watches == s.watches
  {
    ImportFrame(s, rows);
  }

  // ---------- coalescing ----------

  ghost predicate Submits(s: State, e: Event, r: RepoId) {
    && e.WatchObserved? && e.repo == r
    && Observe(s, r, e.fingerprint, e.indexed, e.newId).result.Ok?
    && Observe(s, r, e.fingerprint, e.indexed, e.newId).result.value.Some?
  }

  /** On every reachable state a repository has at most one active job that the watcher submitted, and the watcher
      submits only while the repository has no active job at all. */
  lemma WatchJobsCoalesce(c: Settings, now: Time, es: seq<Event>, i: JobId, j: JobId, e: Event)
    requires ValidSettings(c)
    requires var s := Run(Initial(c, now), es);
             && i in s.jobs && j in s.jobs && s.jobs[i].repo == s.jobs[j].repo
             && s.jobs[i].trigger.Watch? && s.jobs[j].trigger.Watch?
             && !s.jobs[i].status.Terminal() && !s.jobs[j].status.Terminal()
    ensures i == j
    ensures !Submits(Run(Initial(c, now), es), e, Run(Initial(c, now), es).jobs[i].repo)
  {
    hide Run, Inv, AttemptRows, UniqueRows, CompleteRows, Links, Timeline, Writes, UniqueKeys, Forest, Guards;
    ReachableInv(c, now, es);
    var s := Run(Initial(c, now), es);
    InvParts(s);
    assert IsActive(s, i, s.jobs[i].repo);
  }

  // ---------- no endless resubmission ----------

  /** Events under which nothing may be submitted for r: other repositories' events, worker activity, and
      observations of f that do not expose a completed job whose manifest disagrees. */
  ghost predicate Settled(s: State, e: Event, r: RepoId, f: Fingerprint) {
    && !(e.WatchSwitched? && e.repo == r)
    && (e.WatchObserved? && e.repo == r ==>
          e.fingerprint == f
          && !(e.indexed.Some? && e.indexed.value != f && r in s.watches && LastCompleted(s, s.watches[r])))
  }

  ghost predicate SettledRun(s: State, es: seq<Event>, r: RepoId, f: Fingerprint)
    decreases |es|
  {
    es == [] || (Settled(s, es[0], r, f) && SettledRun(Step(s, es[0]), es[1..], r, f))
  }

  ghost function Submissions(s: State, es: seq<Event>, r: RepoId): nat
    decreases |es|
  {
    if es == [] then 0
    else (if Submits(s, es[0], r) then 1 else 0) + Submissions(Step(s, es[0]), es[1..], r)
  }

  lemma SettledStep(s: State, e: Event, r: RepoId, f: Fingerprint)
    requires r in s.watches && s.watches[r].submitted == Some(f) && Settled(s, e, r, f)
    ensures !Submits(s, e, r)
    ensures var t := Step(s, e); r in t.watches && t.watches[r].submitted == Some(f) && t.watches[r].enabled == s.watches[r].enabled
  {
    if !(e.WatchObserved? && e.repo == r) {
      TimerFrame(s, e, r);
    }
  }

  /** After fingerprint f was submitted, any number of observations of f, interleaved with any other activity that
      leaves the preference alone, submits nothing, unless the last job completed and the manifest disagrees. */
  lemma {:induction false} SameContentIsNotResubmitted(s: State, es: seq<Event>, r: RepoId, f: Fingerprint)
    requires r in s.watches && s.watches[r].submitted == Some(f) && SettledRun(s, es, r, f)
    ensures Submissions(s, es, r) == 0
    ensures r in Run(s, es).watches && Run(s, es).watches[r].submitted == Some(f)
    decreases |es|
  {
    hide Step, Submits, Settled;
    if es != [] {
      SettledStep(s, es[0], r, f);
      SameContentIsNotResubmitted(Step(s, es[0]), es[1..], r, f);
    }
  }

  /** The exact condition for submitting unchanged content again. */
  lemma ResubmittedExactlyWhen(s: State, r: RepoId, f: Fingerprint, indexed: Option<Fingerprint>, newId: JobId)
    requires r in s.watches && s.watches[r].enabled && s.watches[r].submitted == Some(f) && newId !in s.jobs
    requires ValidSettings(s.cfg)
    ensures var w := s.watches[r];
            Submits(s, WatchObserved(r, f, indexed, newId), r) <==>
            && indexed.Some? && indexed.value != f && LastCompleted(s, w) && !Busyness(s, r)
            && (|| (w.observed == Some(f) && w.stableSince.Some? && w.stableSince.value <= s.now - s.cfg.debounce)
                || (w.observed != Some(f) && s.cfg.debounce == 0.0)
                || (w.pendingSince.Some? && w.pendingSince.value <= s.now - s.cfg.maxWait))
  {
  }

  /** Content that stays put while its manifest digest keeps disagreeing. */
  ghost predicate Disagreeing(s: State, r: RepoId, f: Fingerprint) {
    && r in s.watches && s.watches[r].enabled
    && s.watches[r].submitted == Some(f) && s.watches[r].observed == Some(f)
    && s.watches[r].stableSince.Some? && s.watches[r].stableSince.value <= s.now - s.cfg.debounce
  }

  lemma DisagreementPersists(s: State, e: Event, r: RepoId, f: Fingerprint)
    requires Inv(s) && Disagreeing(s, r, f) && !Touches(e, r)
    ensures Disagreeing(Step(s, e), r, f)
  {
    hide Inv, JobsEvolve, AttemptsEvolve, Step;
    StepInv(s, e);
    TimerFrame(s, e, r);
  }

  lemma {:induction false} DisagreementPersistsOver(s: State, es: seq<Event>, r: RepoId, f: Fingerprint)
    requires Inv(s) && Disagreeing(s, r, f) && forall i :: 0 <= i < |es| ==> !Touches(es[i], r)
    ensures Disagreeing(Run(s, es), r, f)
    decreases |es|
  {
    hide Inv, Disagreeing, Step;
    if es != [] {
      DisagreementPersists(s, es[0], r, f);
      StepInv(s, es[0]);
      DisagreementPersistsOver(Step(s, es[0]), es[1..], r, f);
    }
  }

  lemma DisagreementResubmits(s: State, r: RepoId, f: Fingerprint, d: Fingerprint, newId: JobId)
    requires Disagreeing(s, r, f) && d != f && LastCompleted(s, s.watches[r]) && !Busyness(s, r) && newId !in s.jobs
    ensures var e := WatchObserved(r, f, Some(d), newId); Submits(s, e, r) && Disagreeing(Step(s, e), r, f)
  {
    hide LastCompleted, Busyness;
  }

  /** The loop the reconciliation rule permits: if the manifest digest d differs from f although nothing changes,
      then every time the submitted job has completed, the next observation submits another one. */
  lemma DisagreementResubmitsForever(s: State, r: RepoId, f: Fingerprint, d: Fingerprint, id1: JobId, es: seq<Event>, id2: JobId)
    requires Inv(s) && Disagreeing(s, r, f) && d != f && LastCompleted(s, s.watches[r]) && !Busyness(s, r) && id1 !in s.jobs
    requires forall i :: 0 <= i < |es| ==> !Touches(es[i], r)
    requires var t := Run(Step(s, WatchObserved(r, f, Some(d), id1)), es);
             r in t.watches && LastCompleted(t, t.watches[r]) && !Busyness(t, r) && id2 !in t.jobs
    ensures var e := WatchObserved(r, f, Some(d), id1); var t := Run(Step(s, e), es);
            Submits(s, e, r) && Submits(t, WatchObserved(r, f, Some(d), id2), r) && Disagreeing(t, r, f)
  {
    hide Inv, Evolves, Run, Step, Submits, Disagreeing, LastCompleted, Busyness;
    var e := WatchObserved(r, f, Some(d), id1);
    StepInv(s, e);
    DisagreementResubmits(s, r, f, d, id1);
    DisagreementPersistsOver(Step(s, e), es, r, f);
    DisagreementResubmits(Run(Step(s, e), es), r, f, d, id2);
  }

  lemma ConfigKept(s: State, es: seq<Event>)
    requires Inv(s)
    ensures Run(s, es).cfg == s.cfg
  {
    hide Inv, JobsEvolve, AttemptsEvolve, Run;
    RunInv(s, es);
  }

  // ---------- debounce ----------

  datatype Sighting = Sighting(at: Time, fingerprint: Fingerprint)

  /** The observations of r that a run recorded: the watch existed, was enabled, and the transaction committed. */
  ghost function Sightings(s: State, es: seq<Event>, r: RepoId): seq<Sighting>
    decreases |es|
  {
    if es == [] then []
    else Seen(s, es[0], r) + Sightings(Step(s, es[0]), es[1..], r)
  }

  ghost function Seen(s: State, e: Event, r: RepoId): seq<Sighting> {
    if e.WatchObserved? && e.repo == r && r in s.watches && s.watches[r].enabled
       && Observe(s, r, e.fingerprint, e.indexed, e.newId).result.Ok?
    then [Sighting(s.now, e.fingerprint)] else []
  }

  /** Where the last unbroken streak of one fingerprint begins. */
  function StreakStart(log: seq<Sighting>): (k: nat)
    requires log != []
    ensures k < |log|
    ensures forall i :: k <= i < |log| ==> log[i].fingerprint == log[|log| - 1].fingerprint
    ensures k > 0 ==> log[k - 1].fingerprint != log[k].fingerprint
    decreases |log|
  {
    var n := |log|;
    if n == 1 || log[n - 1].fingerprint != log[n - 2].fingerprint then n - 1
    else StreakStart(log[..n - 1])
  }

  ghost predicate Tracks(w: WatchRow, log: seq<Sighting>) {
    if log == [] then w.observed.None? && w.stableSince.None?
    else && w.observed == Some(log[|log| - 1].fingerprint)
         && w.stableSince == Some(log[StreakStart(log)].at)
  }

  ghost predicate Tracked(s: State, r: RepoId, log: seq<Sighting>) {
    if r in s.watches then Tracks(s.watches[r], log) else log == []
  }

  lemma NoteTracks(w: WatchRow, log: seq<Sighting>, now: Time, f: Fingerprint)
    requires Tracks(w, log)
    ensures Tracks(Note(now, w, f), log + [Sighting(now, f)])
  {
    var next := log + [Sighting(now, f)];
    if log != [] {
      assert next[..|next| - 1] == log;
    }
  }

  lemma ObserveTracks(s: State, e: Event, r: RepoId, log: seq<Sighting>)
    requires Tracked(s, r, log) && r in s.watches && e.WatchObserved? && e.repo == r
    ensures Tracked(Observe(s, r, e.fingerprint, e.indexed, e.newId).state, r, log + Seen(s, e, r))
  {
    hide Tracks, Ready, Note, LastCompleted, Busyness;
    if Seen(s, e, r) == [] {
      assert log + Seen(s, e, r) == log;
    } else {
      var w := Reconcile(s, r, s.watches[r], e.fingerprint, e.indexed);
      assert Tracks(w, log) by { ReconcileTracks(s, r, s.watches[r], e.fingerprint, e.indexed, log); }
      NoteTracks(w, log, s.now, e.fingerprint);
      SubmittedTracks(Note(s.now, w, e.fingerprint), log + Seen(s, e, r), e.fingerprint, e.newId);
    }
  }

  lemma ReconcileTracks(s: State, r: RepoId, w: WatchRow, f: Fingerprint, indexed: Option<Fingerprint>, log: seq<Sighting>)
    requires Tracks(w, log)
    ensures Tracks(Reconcile(s, r, w, f, indexed), log)
  {
  }

  lemma SubmittedTracks(w: WatchRow, log: seq<Sighting>, f: Fingerprint, job: JobId)
    requires Tracks(w, log)
    ensures Tracks(w.(submitted := Some(f), lastJob := Some(job), pendingSince := None), log)
  {
  }

  lemma StepTracks(s: State, e: Event, r: RepoId, log: seq<Sighting>)
    requires Tracked(s, r, log)
    ensures Tracked(Step(s, e), r, log + Seen(s, e, r))
  {
    hide Tracks, Observe;
    if r in s.watches && e.WatchObserved? && e.repo == r {
      ObserveTracks(s, e, r, log);
    } else {
      assert Seen(s, e, r) == [] && log + Seen(s, e, r) == log;
      if r in s.watches && Touches(e, r) {
        assert Tracks(Step(s, e).watches[r], log) by { SwitchTracks(s, r, e.enabled, log); }
      } else {
        TimerFrame(s, e, r);
        FrameTracks(s, Step(s, e), r, log);
      }
    }
  }

  lemma SwitchTracks(s: State, r: RepoId, enabled: bool, log: seq<Sighting>)
    requires r in s.watches && Tracks(s.watches[r], log)
    ensures Tracks(SwitchWatch(s, r, enabled).watches[r], log)
  {
  }

  lemma FrameTracks(s: State, t: State, r: RepoId, log: seq<Sighting>)
    requires TimersKept(s, t, r) && (r in t.watches ==> r in s.watches || log == [])
    requires Tracked(s, r, log)
    ensures Tracked(t, r, log)
  {
  }

  lemma {:induction false} RunTracks(s: State, es: seq<Event>, r: RepoId, log: seq<Sighting>)
    requires Tracked(s, r, log)
    ensures Tracked(Run(s, es), r, log + Sightings(s, es, r))
    decreases |es|
  {
    hide Step, Tracked, Seen;
    if es == [] {
      assert log + Sightings(s, es, r) == log;
    } else {
      StepTracks(s, es[0], r, log);
      RunTracks(Step(s, es[0]), es[1..], r, log + Seen(s, es[0], r));
      assert log + Sightings(s, es, r) == log + Seen(s, es[0], r) + Sightings(Step(s, es[0]), es[1..], r);
    }
  }

  /** Debounce soundness over any run: a submission means either that every observation since the streak began, at
      least a debounce interval ago, saw this very fingerprint, or that changes had been pending for the maximum wait. */
  lemma DebounceIsSound(c: Settings, now: Time, es: seq<Event>, r: RepoId, f: Fingerprint, indexed: Option<Fingerprint>, newId: JobId)
    requires ValidSettings(c)
    requires Submits(Run(Initial(c, now), es), WatchObserved(r, f, indexed, newId), r)
    ensures var s := Run(Initial(c, now), es);
            var log := Sightings(Initial(c, now), es, r) + [Sighting(s.now, f)];
            var k := StreakStart(log);
            || (log[k].at <= s.now - c.debounce && forall i :: k <= i < |log| ==> log[i].fingerprint == f)
            || (r in s.watches && s.watches[r].pendingSince.Some? && s.watches[r].pendingSince.value <= s.now - c.maxWait)
  {
    hide Run, Inv;
    var s := Run(Initial(c, now), es);
    var log := Sightings(Initial(c, now), es, r);
    InitialInv(c, now);
    ConfigKept(Initial(c, now), es);
    RunTracks(Initial(c, now), es, r, []);
    assert [] + log == log;
    var w := Reconcile(s, r, s.watches[r], f, indexed);
    NoteTracks(w, log, s.now, f);
    assert Ready(s, r, Note(s.now, w, f));
  }

  // ---------- bounded wait ----------

  /** Every observation of r so far differs from what was submitted, and none of them submitted. */
  ghost predicate StillPending(s: State, es: seq<Event>, r: RepoId, submitted: Option<Fingerprint>)
    decreases |es|
  {
    es == []
    || (&& !(es[0].WatchSwitched? && es[0].repo == r)
        && (es[0].WatchObserved? && es[0].repo == r ==> Some(es[0].fingerprint) != submitted)
        && !Submits(s, es[0], r)
        && StillPending(Step(s, es[0]), es[1..], r, submitted))
  }

  ghost predicate PendingSince(s: State, r: RepoId, submitted: Option<Fingerprint>, since: Time) {
    && r in s.watches && s.watches[r].enabled
    && s.watches[r].submitted == submitted && s.watches[r].pendingSince == Some(since)
  }

  lemma PendingStep(s: State, e: Event, r: RepoId, submitted: Option<Fingerprint>, since: Time)
    requires PendingSince(s, r, submitted, since)
    requires !(e.WatchSwitched? && e.repo == r) && (e.WatchObserved? && e.repo == r ==> Some(e.fingerprint) != submitted)
    requires !Submits(s, e, r)
    ensures PendingSince(Step(s, e), r, submitted, since)
  {
    if !Touches(e, r) {
      TimerFrame(s, e, r);
    }
  }

  lemma {:induction false} PendingNeverMoves(s: State, es: seq<Event>, r: RepoId, submitted: Option<Fingerprint>, since: Time)
    requires PendingSince(s, r, submitted, since) && StillPending(s, es, r, submitted)
    ensures PendingSince(Run(s, es), r, submitted, since)
    decreases |es|
  {
    hide Step, PendingSince, Submits;
    if es != [] {
      PendingStep(s, es[0], r, submitted, since);
      PendingNeverMoves(Step(s, es[0]), es[1..], r, submitted, since);
    }
  }

  /** Bounded wait: however the content keeps changing, the first observation of an idle repository at or after
      pending_since + max_wait submits. */
  lemma WaitIsBounded(s: State, es: seq<Event>, r: RepoId, submitted: Option<Fingerprint>, since: Time,
                      f: Fingerprint, indexed: Option<Fingerprint>, newId: JobId)
    requires Inv(s) && PendingSince(s, r, submitted, since) && StillPending(s, es, r, submitted)
    requires var t := Run(s, es);
             Some(f) != submitted && since + s.cfg.maxWait <= t.now && !Busyness(t, r) && newId !in t.jobs
    ensures Submits(Run(s, es), WatchObserved(r, f, indexed, newId), r)
    ensures var t := Step(Run(s, es), WatchObserved(r, f, indexed, newId));
            t.watches[r].submitted == Some(f) && t.watches[r].pendingSince.None? && t.watches[r].lastJob == Some(newId)
  {
    hide Run, Inv, Busyness;
    PendingNeverMoves(s, es, r, submitted, since);
    ConfigKept(s, es);
  }

  /** The first differing observation starts the wait. */
  lemma WaitStarts(s: State, r: RepoId, f: Fingerprint, indexed: Option<Fingerprint>, newId: JobId)
    requires r in s.watches && s.watches[r].enabled && s.watches[r].pendingSince.None?
    requires s.watches[r].submitted != Some(f) && !Submits(s, WatchObserved(r, f, indexed, newId), r) && newId !in s.jobs
    ensures PendingSince(Step(s, WatchObserved(r, f, indexed, newId)), r, s.watches[r].submitted, s.now)
  {
  }

  /** The whole promise: from the first observation that differs from the submission, made at time t, however the content
      keeps changing, the first observation of the idle repository at or after t + max_wait submits. */
  lemma ChangesAreSubmittedInTime(s: State, r: RepoId, f: Fingerprint, indexed: Option<Fingerprint>, newId: JobId,
                                  es: seq<Event>, g: Fingerprint, indexedNow: Option<Fingerprint>, nextId: JobId)
    requires Inv(s) && r in s.watches && s.watches[r].enabled && s.watches[r].pendingSince.None?
    requires s.watches[r].submitted != Some(f) && newId !in s.jobs
    requires var e := WatchObserved(r, f, indexed, newId);
             var t := Run(Step(s, e), es);
             && !Submits(s, e, r) && StillPending(Step(s, e), es, r, s.watches[r].submitted)
             && Some(g) != s.watches[r].submitted && s.now + s.cfg.maxWait <= t.now && !Busyness(t, r) && nextId !in t.jobs
    ensures var t := Run(s, [WatchObserved(r, f, indexed, newId)] + es);
            Submits(t, WatchObserved(r, g, indexedNow, nextId), r)
  {
    hide Inv, Step, Run, Submits, Busyness, StillPending, PendingSince, JobsEvolve, AttemptsEvolve;
    var e := WatchObserved(r, f, indexed, newId);
    RunOfMore(s, e, es);
    StepInv(s, e);
    WaitStarts(s, r, f, indexed, newId);
    WaitIsBounded(Step(s, e), es, r, s.watches[r].submitted, s.now, g, indexedNow, nextId);
  }
}
