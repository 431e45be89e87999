/** The metrics snapshot: counters over jobs, workers and attempts, and the histogram of attempt durations. */
module Metrics {
  import opened Coordination
  import opened CoordinationInvariants
  import opened CoordinationTheorems
  import opened AttemptLedger

  /** within counts, per bound, the ended attempts that took no longer. */
  datatype Durations = Durations(count: nat, sum: real, within: seq<nat>)

  datatype Snapshot = Snapshot(queueDepth: nat, activeJobs: nat, activeLeases: nat, activeWorkers: nat, claimed: nat,
                               completed: nat, failed: nat, retried: nat, reclaimed: nat, durations: Durations)

  const BOUNDS: seq<real> := [1.0, 5.0, 10.0, 30.0, 60.0, 300.0, 900.0]

  function Duration(a: Attempt): real {
    if a.endedAt.Some? then a.endedAt.value - a.claimedAt else 0.0
  }

  function EndedRows(rows: seq<Attempt>): nat
    decreases |rows|
  {
    if rows == [] then 0
    else EndedRows(rows[..|rows| - 1]) + if rows[|rows| - 1].endedAt.Some? then 1 else 0
  }

  function Within(rows: seq<Attempt>, bound: real): nat
    decreases |rows|
  {
    if rows == [] then 0
    else
      var last := rows[|rows| - 1];
      Within(rows[..|rows| - 1], bound) + if last.endedAt.Some? && Duration(last) <= bound then 1 else 0
  }

  function TotalDuration(rows: seq<Attempt>): real
    decreases |rows|
  {
    if rows == [] then 0.0 else TotalDuration(rows[..|rows| - 1]) + Duration(rows[|rows| - 1])
  }

  ghost function Ended(rows: seq<Attempt>): set<int> {
    set i | 0 <= i < |rows| && rows[i].endedAt.Some?
  }

  ghost function EndedWithin(rows: seq<Attempt>, bound: real): set<int> {
    set i | 0 <= i < |rows| && rows[i].endedAt.Some? && rows[i].endedAt.value - rows[i].claimedAt <= bound
  }

  ghost function Matching(rows: seq<Attempt>, kind: Kind): set<int> {
    set i | 0 <= i < |rows| && Matches(rows[i], kind)
  }

  /** The counts read independently, as sizes of sets of rows. */
  lemma {:induction false} CountsAreSizes(rows: seq<Attempt>, bound: real, kind: Kind)
    ensures EndedRows(rows) == |Ended(rows)| && Within(rows, bound) == |EndedWithin(rows, bound)|
    ensures Count(rows, kind) == |Matching(rows, kind)|
    decreases |rows|
  {
    hide Ended, EndedWithin, Matching, Matches;
    if rows == [] {
      NoneEnded(bound, kind);
    } else {
      CountsAreSizes(rows[..|rows| - 1], bound, kind);
      EndedMore(rows, bound);
      MatchingMore(rows, kind);
    }
  }

  lemma NoneEnded(bound: real, kind: Kind)
    ensures Ended([]) == {} && EndedWithin([], bound) == {} && Matching([], kind) == {}
  {
  }

  lemma EndedMore(rows: seq<Attempt>, bound: real)
    requires rows != []
    ensures var n, last := |rows| - 1, rows[|rows| - 1];
            && |Ended(rows)| == |Ended(rows[..n])| + (if last.endedAt.Some? then 1 else 0)
            && |EndedWithin(rows, bound)|
               == |EndedWithin(rows[..n], bound)| + (if last.endedAt.Some? && Duration(last) <= bound then 1 else 0)
  {
    var n := |rows| - 1;
    assert Ended(rows) == if rows[n].endedAt.Some? then Ended(rows[..n]) + {n} else Ended(rows[..n]);
    assert EndedWithin(rows, bound)
           == if rows[n].endedAt.Some? && Duration(rows[n]) <= bound then EndedWithin(rows[..n], bound) + {n}
              else EndedWithin(rows[..n], bound);
  }

  lemma MatchingMore(rows: seq<Attempt>, kind: Kind)
    requires rows != []
    ensures |Matching(rows, kind)| == |Matching(rows[..|rows| - 1], kind)| + if Matches(rows[|rows| - 1], kind) then 1 else 0
  {
    hide Matches;
    var n := |rows| - 1;
    assert Matching(rows, kind) == if Matches(rows[n], kind) then Matching(rows[..n], kind) + {n} else Matching(rows[..n], kind);
  }

  /** The aggregate over the ended rows, row by row. */
  method Aggregate(rows: seq<Attempt>) returns (d: Durations)
    ensures d.count == EndedRows(rows) && d.sum == TotalDuration(rows)
    ensures |d.within| == |BOUNDS| && forall b | 0 <= b < |BOUNDS| :: d.within[b] == Within(rows, BOUNDS[b])
  {
    var count, sum, within := 0, 0.0, seq(|BOUNDS|, _ => 0);
    for i := 0 to |rows|
      invariant count == EndedRows(rows[..i]) && sum == TotalDuration(rows[..i])
      invariant |within| == |BOUNDS| && forall b | 0 <= b < |BOUNDS| :: within[b] == Within(rows[..i], BOUNDS[b])
    {
      assert rows[..i + 1][..i] == rows[..i];
      if rows[i].endedAt.Some? {
        count, sum := count + 1, sum + Duration(rows[i]);
        within := seq(|BOUNDS|, b requires 0 <= b < |BOUNDS| && |within| == |BOUNDS| =>
          within[b] + if Duration(rows[i]) <= BOUNDS[b] then 1 else 0);
      }
    }
    assert rows[..|rows|] == rows;
    return Durations(count, sum, within);
  }

  lemma {:induction false} WithinGrows(rows: seq<Attempt>, bound: real, wider: real)
    requires bound <= wider
    ensures Within(rows, bound) <= Within(rows, wider) <= EndedRows(rows)
    decreases |rows|
  {
    if rows != [] {
      WithinGrows(rows[..|rows| - 1], bound, wider);
    }
  }

  lemma {:induction false} EndedOrOpen(rows: seq<Attempt>)
    requires forall i :: 0 <= i < |rows| ==> (rows[i].endedAt.None? <==> rows[i].outcome.None?)
    ensures EndedRows(rows) + Count(rows, Open) == |rows|
    decreases |rows|
  {
    if rows != [] {
      EndedOrOpen(rows[..|rows| - 1]);
    }
  }

  /** Every claimed attempt that is not a running job's has ended and is in the histogram. */
  lemma EndedRowsBalance(s: State)
    requires Inv(s) && Tally(s)
    ensures EndedRows(s.attempts) + |RunningJobs(s)| == |s.attempts|
  {
    hide Inv, Rows, Reservation, Handles, Guards, Writes, UniqueKeys, Forest, Watching, UniqueRows, CompleteRows, Links,
         Timeline, EndedRows, Count;
    InvParts(s);
    forall i | 0 <= i < |s.attempts| ensures s.attempts[i].endedAt.None? <==> s.attempts[i].outcome.None? {
      assert AttemptOk(s, s.attempts[i]);
    }
    EndedOrOpen(s.attempts);
  }

  /** Running jobs whose lease has not expired. */
  function LiveLeases(s: State): set<JobId> {
    set j | j in s.jobs && s.jobs[j].status.Running? && s.jobs[j].leaseExpiresAt.Some? && s.jobs[j].leaseExpiresAt.value > s.now
  }

  function LiveWorkers(s: State): set<WorkerId> {
    set w | w in s.workers && !s.workers[w].status.Stopped? && s.workers[w].lastSeen > s.now - s.cfg.offline
  }

  lemma LiveLeasesRun(s: State)
    ensures LiveLeases(s) <= RunningJobs(s) && |LiveLeases(s)| <= |RunningJobs(s)|
  {
    assert RunningJobs(s) == LiveLeases(s) + (RunningJobs(s) - LiveLeases(s));
  }
}
