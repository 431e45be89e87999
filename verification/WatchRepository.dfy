/** WatchRepository: durable observations and job submission, on the coordination repository's tables. */
module WatchStore {
  import opened Basics
  import opened Coordination
  import opened CoordinationInvariants
  import opened CoordinationSteps
  import opened CoordinationRuns
  import opened AttemptLedger
  import opened CoordinationStore
  import WatchStates

  lemma EnsureWatchSound(s: State, repo: RepoId, enabled: Option<bool>)
    requires Sound(s)
    ensures Sound(EnsureWatch(s, repo, enabled))
  {
    hide Inv, Tally, Evolves;
    EnsureWatchInv(s, repo, enabled);
    QuietTally(s, EnsureWatch(s, repo, enabled));
  }

  lemma SwitchWatchSound(s: State, repo: RepoId, enabled: bool)
    requires Sound(s)
    ensures Sound(SwitchWatch(s, repo, enabled))
  {
    hide Inv, Tally, Evolves;
    SwitchWatchInv(s, repo, enabled);
    QuietTally(s, SwitchWatch(s, repo, enabled));
  }

  lemma WatchErrorSound(s: State, repo: RepoId, error: string)
    requires Sound(s)
    ensures Sound(RecordWatchError(s, repo, error))
  {
    hide Inv, Tally, Evolves;
    WatchFailedInv(s, repo, error);
    QuietTally(s, RecordWatchError(s, repo, error));
  }

  class WatchRepository {
    const coordination: CoordinationRepository

    constructor (coordination: CoordinationRepository)
      ensures this.coordination == coordination
    {
      this.coordination := coordination;
    }

    method Ensure(repo: RepoId, enabled: Option<bool>)
      requires coordination.Valid()
      modifies coordination
      ensures coordination.Valid() && coordination.Tables() == EnsureWatch(old(coordination.Tables()), repo, enabled)
    {
      hide Sound;
      EnsureWatchSound(coordination.Tables(), repo, enabled);
      coordination.EnsureRepository(repo);
      if repo !in coordination.watches {
        var initially := if enabled.Some? then enabled.value else coordination.settings.watchDefault;
        coordination.watches := coordination.watches[repo := WatchRow(initially, None, None, None, None, None, None, None)];
      }
    }

    method SetEnabled(repo: RepoId, enabled: bool)
      requires coordination.Valid()
      modifies coordination
      ensures coordination.Valid()
      ensures coordination.Tables() == SwitchWatch(EnsureWatch(old(coordination.Tables()), repo, Some(enabled)), repo, enabled)
      // Resuming forgets the submission, so unchanged content is submitted afresh.
      ensures repo in coordination.watches && coordination.watches[repo].enabled == enabled
      ensures enabled && repo in old(coordination.watches) && !old(coordination.watches)[repo].enabled ==>
                coordination.watches[repo].submitted.None? && coordination.watches[repo].pendingSince == Some(coordination.now)
    {
      hide Sound;
      Ensure(repo, Some(enabled));
      SwitchWatchSound(coordination.Tables(), repo, enabled);
      var w := coordination.watches[repo];
      var resumed := enabled && !w.enabled;
      coordination.watches := coordination.watches[repo := w.(enabled := enabled,
        submitted := if resumed then None else w.submitted,
        pendingSince := if resumed then Some(coordination.now) else w.pendingSince)];
    }

    method RecordError(repo: RepoId, error: string)
      requires coordination.Valid()
      modifies coordination`watches
      ensures coordination.Valid() && coordination.Tables() == RecordWatchError(old(coordination.Tables()), repo, error)
    {
      hide Sound;
      WatchErrorSound(coordination.Tables(), repo, error);
      if repo in coordination.watches && coordination.watches[repo].enabled {
        coordination.watches := coordination.watches[repo :=
          coordination.watches[repo].(error := Some(Truncate(error, 2000)), lastChecked := Some(coordination.now))];
      }
    }

    /** The listing loop: the state shown for every watch. */
    method List(poll: real) returns (shown: map<RepoId, WatchStates.Shown>)
      ensures shown.Keys == coordination.watches.Keys
      ensures forall r | r in shown :: shown[r] == WatchStates.StateOf(coordination.Tables(), coordination.watches[r], poll)
    {
      shown := map[];
      var rest := coordination.watches.Keys;
      while rest != {}
        invariant rest <= coordination.watches.Keys && shown.Keys == coordination.watches.Keys - rest
        invariant forall r | r in shown :: shown[r] == WatchStates.StateOf(coordination.Tables(), coordination.watches[r], poll)
        decreases rest
      {
        var r :| r in rest;
        shown, rest := shown[r := WatchStates.StateOf(coordination.Tables(), coordination.watches[r], poll)], rest - {r};
      }
    }

    /** NOT EXISTS(SELECT 1 FROM jobs WHERE repository_id=repo AND status IN ('queued','running','retrying')). */
    method Idle(repo: RepoId) returns (idle: bool)
      ensures idle <==> !Busyness(coordination.Tables(), repo)
    {
      idle := forall j | j in coordination.jobs :: coordination.jobs[j].repo == repo ==> coordination.jobs[j].status.Terminal();
      if idle {
        assert forall j :: !IsActive(coordination.Tables(), j, repo);
      } else {
        var j :| j in coordination.jobs && coordination.jobs[j].repo == repo && !coordination.jobs[j].status.Terminal();
        assert IsActive(coordination.Tables(), j, repo);
      }
    }

    method Observe(repo: RepoId, f: Fingerprint, indexed: Option<Fingerprint>, newId: JobId) returns (r: Result<Option<Job>, Error>)
      requires coordination.Valid()
      modifies coordination`watches, coordination`jobs
      ensures coordination.Valid()
      ensures Reply(coordination.Tables(), r) == Coordination.Observe(old(coordination.Tables()), repo, f, indexed, newId)
    {
      hide Sound, Busyness;
      ObserveSound(coordination.Tables(), repo, f, indexed, newId);
      var before := coordination.watches;
      ghost var prior := coordination.Tables();
      var now, settings := coordination.now, coordination.settings;
      if repo !in coordination.watches || !coordination.watches[repo].enabled {
        return Ok(None);
      }
      var idle := Idle(repo);
      var w := coordination.watches[repo];
      if indexed.Some? && indexed.value != f {
        if w.submitted == Some(f) && LastCompleted(coordination.Tables(), w) && idle {
          w := w.(submitted := None);
        }
      }
      w := w.(stableSince := if w.observed != Some(f) then Some(now) else w.stableSince,
              pendingSince := if w.submitted == Some(f) then None
                              else if w.pendingSince.Some? then w.pendingSince else Some(now),
              observed := Some(f), lastChecked := Some(now), error := None);
      coordination.watches := coordination.watches[repo := w];
      assert w == Note(now, Reconcile(prior, repo, before[repo], f, indexed), f);
      var stable := w.stableSince.Some? && w.stableSince.value <= now - settings.debounce;
      var overdue := w.pendingSince.Some? && w.pendingSince.value <= now - settings.maxWait;
      if w.observed == w.submitted || !(stable || overdue) || !idle {
        return Ok(None);
      }
      assert Ready(prior, repo, w);
      if newId in coordination.jobs {
        coordination.watches := before;
        return Err(IntegrityError);
      }
      var job := NewJob(coordination.Tables(), newId, repo, "incremental", None, 0, Watch, None);
      coordination.jobs := coordination.jobs[newId := job];
      coordination.watches := coordination.watches[repo := w.(submitted := Some(f), lastJob := Some(newId), pendingSince := None)];
      assert coordination.Tables() == Coordination.Observe(prior, repo, f, indexed, newId).state;
      return Ok(Some(job));
    }
  }
}
