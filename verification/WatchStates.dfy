/** The state the watch listing shows, and what 'pending_changes' promises. */
module WatchStates {
  import opened Basics
  import opened Coordination
  import opened CoordinationInvariants
  import opened CoordinationRuns
  import opened Watches

  datatype Shown = Paused | ScanError | WatcherUnavailable | Job(status: Status) | PendingChanges | NeedsAttention | Watching

  /** The status of the job a watch submitted last, when it still exists. */
  function LastStatus(s: State, w: WatchRow): Option<Status> {
    if w.lastJob.Some? && w.lastJob.value in s.jobs then Some(s.jobs[w.lastJob.value].status) else None
  }

  function StateOf(s: State, w: WatchRow, poll: real): Shown {
    var job := LastStatus(s, w);
    if !w.enabled then Paused
    else if w.error.Some? && w.error.value != "" then ScanError
    else if w.lastChecked.None? || w.lastChecked.value <= s.now - MaxReal(30.0, poll * 3.0) then WatcherUnavailable
    else if job.Some? && !job.value.Terminal() then Shown.Job(job.value)
    else if w.observed != w.submitted then PendingChanges
    else if job.Some? && (job.value.Failed? || job.value.Cancelled? || job.value.CompletedWithErrors?) then NeedsAttention
    else Shown.Watching
  }

  /** Content that differs from the submission is waiting since some instant. */
  ghost predicate Timed(s: State, r: RepoId) {
    r in s.watches && s.watches[r].observed != s.watches[r].submitted ==> s.watches[r].pendingSince.Some?
  }

  lemma SwitchTimed(s: State, r: RepoId, enabled: bool)
    requires Timed(s, r)
    ensures Timed(SwitchWatch(s, r, enabled), r)
  {
  }

  lemma ObserveTimed(s: State, r: RepoId, f: Fingerprint, indexed: Option<Fingerprint>, newId: JobId)
    requires Timed(s, r)
    ensures Timed(Observe(s, r, f, indexed, newId).state, r)
  {
    hide LastCompleted, Busyness;
  }

  lemma StepTimed(s: State, e: Event, r: RepoId)
    requires Timed(s, r)
    ensures Timed(Step(s, e), r)
  {
    hide Observe, SwitchWatch;
    if e.WatchObserved? && e.repo == r {
      ObserveTimed(s, r, e.fingerprint, e.indexed, e.newId);
    } else if e.WatchSwitched? && e.repo == r {
      SwitchTimed(s, r, e.enabled);
    } else {
      TimerFrame(s, e, r);
      FrameTimed(s, Step(s, e), r);
    }
  }

  lemma FrameTimed(s: State, t: State, r: RepoId)
    requires Timed(s, r) && TimersKept(s, t, r)
    ensures Timed(t, r)
  {
  }

  lemma {:induction false} RunTimed(s: State, es: seq<Event>, r: RepoId)
    requires Timed(s, r)
    ensures Timed(Run(s, es), r)
    decreases |es|
  {
    hide Timed, Step;
    if es != [] {
      StepTimed(s, es[0], r);
      RunTimed(Step(s, es[0]), es[1..], r);
    }
  }

  /** In every reachable state a watch shown as 'pending_changes' has a waiting time, and from there, while its content
      keeps differing from the submission, an observation of the idle repository max_wait later submits. */
  lemma PendingChangesAreSubmitted(c: Settings, now: Time, es: seq<Event>, r: RepoId, poll: real)
    requires ValidSettings(c)
    requires var s := Run(Initial(c, now), es); r in s.watches && StateOf(s, s.watches[r], poll).PendingChanges?
    ensures var s := Run(Initial(c, now), es);
            var w := s.watches[r];
            w.pendingSince.Some?
            && forall more: seq<Event>, f: Fingerprint, indexed: Option<Fingerprint>, newId: JobId
                 | StillPending(s, more, r, w.submitted) && Some(f) != w.submitted
                   && w.pendingSince.value + s.cfg.maxWait <= Run(s, more).now
                   && !Busyness(Run(s, more), r) && newId !in Run(s, more).jobs
                 :: Submits(Run(s, more), WatchObserved(r, f, indexed, newId), r)
  {
    hide Run, Inv, Busyness, Submits, StillPending;
    var s := Run(Initial(c, now), es);
    ReachableInv(c, now, es);
    RunTimed(Initial(c, now), es, r);
    var w := s.watches[r];
    forall more: seq<Event>, f: Fingerprint, indexed: Option<Fingerprint>, newId: JobId
      | StillPending(s, more, r, w.submitted) && Some(f) != w.submitted
        && w.pendingSince.value + s.cfg.maxWait <= Run(s, more).now
        && !Busyness(Run(s, more), r) && newId !in Run(s, more).jobs
      ensures Submits(Run(s, more), WatchObserved(r, f, indexed, newId), r)
    {
      WaitIsBounded(s, more, r, w.submitted, w.pendingSince.value, f, indexed, newId);
    }
  }

  /** The watch has not been looked at for half a minute, or for three polling intervals if those are longer. */
  ghost predicate Silent(s: State, w: WatchRow, poll: real) {
    w.lastChecked.None? || (s.now - w.lastChecked.value >= 30.0 && s.now - w.lastChecked.value >= poll * 3.0)
  }

  ghost predicate LastIn(s: State, w: WatchRow, statuses: set<Status>) {
    w.lastJob.Some? && w.lastJob.value in s.jobs && s.jobs[w.lastJob.value].status in statuses
  }

  /** What each shown state means: they exclude one another in this order, and one of them always applies. */
  lemma ShownExactlyWhen(s: State, w: WatchRow, poll: real)
    ensures var shown := StateOf(s, w, poll);
            var failing := w.error.Some? && w.error.value != "";
            var scanned := w.enabled && !failing && !Silent(s, w, poll);
            var active := LastIn(s, w, {Queued, Running, Retrying});
            && (shown.Paused? <==> !w.enabled)
            && (shown.ScanError? <==> w.enabled && failing)
            && (shown.WatcherUnavailable? <==> w.enabled && !failing && Silent(s, w, poll))
            && (shown.Job? <==> scanned && active)
            && (shown.Job? ==> shown.status == s.jobs[w.lastJob.value].status)
            && (shown.PendingChanges? <==> scanned && !active && w.observed != w.submitted)
            && (shown.NeedsAttention? <==>
                  scanned && w.observed == w.submitted && LastIn(s, w, {Failed, Cancelled, CompletedWithErrors}))
            && (shown.Watching? <==>
                  scanned && w.observed == w.submitted && !active && !LastIn(s, w, {Failed, Cancelled, CompletedWithErrors}))
  {
    var job := LastStatus(s, w);
    assert job.Some? ==> job.value.Terminal() || job.value in {Queued, Running, Retrying};
  }

  /** A repository gets a blank watch once, switched as asked or by default. */
  lemma WatchesStartBlank(s: State, r: RepoId, wish: Option<bool>)
    ensures var t := EnsureWatch(s, r, wish);
            && t == s.(watches := t.watches, execution := t.execution) && r in t.watches && r in t.execution
            && (forall q | q in s.watches :: q in t.watches && t.watches[q] == s.watches[q])
            && (forall q | q in t.watches && q !in s.watches :: q == r)
            && (forall q | q in s.execution :: q in t.execution && t.execution[q] == s.execution[q])
            && (r !in s.watches ==>
                  t.watches[r] == WatchRow(if wish == None then s.cfg.watchDefault else wish == Some(true),
                                           None, None, None, None, None, None, None))
  {
  }

  /** Switching a watch changes nothing else, except that a resumed one forgets what it submitted and waits from now. A scan
      error is noted on an enabled watch only. */
  lemma PreferencesAreKept(s: State, r: RepoId, enabled: bool, error: string)
    ensures var t := SwitchWatch(s, r, enabled);
            && (r !in s.watches ==> t == s)
            && (r in s.watches ==>
                  && t == s.(watches := s.watches[r := t.watches[r]])
                  && (var a, b := s.watches[r], t.watches[r];
                      && b == a.(enabled := enabled, submitted := b.submitted, pendingSince := b.pendingSince)
                      && (if !a.enabled && b.enabled then b.submitted.None? && b.pendingSince == Some(s.now)
                          else b.submitted == a.submitted && b.pendingSince == a.pendingSince)))
    ensures var t := RecordWatchError(s, r, error);
            if r in s.watches && s.watches[r].enabled then
              && t == s.(watches := s.watches[r := t.watches[r]])
              && t.watches[r] == s.watches[r].(error := Some(if |error| <= 2000 then error else error[..2000]), lastChecked := Some(s.now))
            else t == s
  {
  }
}
