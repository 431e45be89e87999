/**
 A pass as the sequence of its storage writes. Each write is fixed by what the pass read at its start and by the way its
 calls end, not by the store it meets; and a pass that is cut after any of its writes is again a pass.
 */
module IndexingWrites {
  import opened Basics
  import opened IndexStore
  import opened Indexing

  /** One call that changes a store. reached is None for a vector operation that went through, else what it reached. */
  datatype Write =
    | Remove(path: Path)
    | Dirty(path: Path)
    | Advance(path: Path, commit: Commit)
    | Sweep(path: Path, reached: Option<set<ChunkId>>)
    | Upsert(path: Path, pieces: seq<Piece>, reached: Option<set<ChunkId>>)
    | Refresh(path: Path, content: string, commit: Commit, pieces: seq<Piece>, synced: bool)
    | Settle(path: Path)
    | Conclude(commit: Commit)

  function Perform(s: Store, write: Write): Store {
    match write
    case Remove(p) => DeleteFile(s, p)
    case Dirty(p) => MarkVectorDirty(s, p)
    case Advance(p, commit) => UpdateFileCommit(s, p, commit)
    case Sweep(p, reached) =>
      s.(vectors := if reached.None? then Without(s.vectors, p) else SweepPoints(s.vectors, p, reached.value))
    case Upsert(p, pieces, reached) =>
      s.(vectors := if reached.None? then s.vectors + Points(p, pieces) else UpsertPoints(s.vectors, Points(p, pieces), reached.value))
    case Refresh(p, content, commit, pieces, synced) =>
      var replaced := ReplaceFileChunks(s, p, Sha(content), commit, pieces, synced);
      if replaced.None? then s else replaced.value
    case Settle(p) => FinishVectorDeletion(s, p)
    case Conclude(commit) => UpdateRepository(s, commit)
  }

  function PerformAll(s: Store, writes: seq<Write>): Store
    decreases |writes|
  {
    if writes == [] then s else PerformAll(Perform(s, writes[0]), writes[1..])
  }

  lemma {:induction false} PerformInParts(s: Store, writes: seq<Write>, more: seq<Write>)
    ensures PerformAll(s, writes + more) == PerformAll(PerformAll(s, writes), more)
    decreases |writes|
  {
    hide Perform;
    if writes == [] {
      assert writes + more == more;
    } else {
      assert (writes + more)[1..] == writes[1..] + more;
      PerformInParts(Perform(s, writes[0]), writes[1..], more);
    }
  }

  // ---------- the writes of one file ----------

  function Reach(signal: Signal): Option<set<ChunkId>> {
    if signal.Go? then None else Some(signal.reached)
  }

  function DropWrites(p: Path, w: Weather): seq<Write> {
    if !w(Dropping(p, Checkpoint)).Go? || !w(Dropping(p, Spot.Write)).Go? then []
    else
      var sweep := w(Dropping(p, Spot.Sweep));
      [Remove(p), Write.Sweep(p, Reach(sweep))]
      + if sweep.Go? && w(Dropping(p, Finish)).Go? then [Settle(p)] else []
  }

  function CommitWrites(p: Path, content: string, commit: Commit, pieces: seq<Piece>, synced: bool, w: Weather): seq<Write> {
    if !w(Syncing(p, Replace)).Go? then []
    else
      [Refresh(p, content, commit, pieces, synced)]
      + if synced && Distinct(p, pieces) && w(Syncing(p, Finish)).Go? then [Settle(p)] else []
  }

  function ReindexWrites(p: Path, content: string, commit: Commit, pieces: seq<Piece>, w: Weather): seq<Write> {
    if !w(Syncing(p, Spot.Write)).Go? then []
    else
      var sweep, upsert := w(Syncing(p, Spot.Sweep)), w(Syncing(p, Spot.Upsert));
      [Dirty(p), Write.Sweep(p, Reach(sweep))]
      + if sweep.Unavailable? then CommitWrites(p, content, commit, pieces, false, w)
        else if !sweep.Go? then []
        else [Write.Upsert(p, pieces, Reach(upsert))]
             + if upsert.Go? || upsert.Unavailable? then CommitWrites(p, content, commit, pieces, upsert.Go?, w) else []
  }

  function SyncWrites(chunker: Chunker, p: Path, content: string, skip: bool, commit: Commit, w: Weather): seq<Write> {
    if !w(Syncing(p, Checkpoint)).Go? || !w(Syncing(p, Hash)).Go? then []
    else if skip then (if w(Syncing(p, Spot.Write)).Go? then [Advance(p, commit)] else [])
    else if !w(Syncing(p, Embed)).Go? then []
    else ReindexWrites(p, content, commit, chunker(p, content), w)
  }

  lemma PerformOne(s: Store, a: Write)
    ensures PerformAll(s, [a]) == Perform(s, a)
  {
    hide Perform;
    assert [a][1..] == [];
  }

  lemma PerformFirst(s: Store, a: Write, more: seq<Write>)
    ensures PerformAll(s, [a] + more) == PerformAll(Perform(s, a), more)
  {
    hide Perform;
    assert ([a] + more)[1..] == more;
  }

  lemma DropFileWrites(s: Store, p: Path, w: Weather)
    ensures DropFile(s, p, w).store == PerformAll(s, DropWrites(p, w))
  {
    hide DeleteFile, SweepPoints, Without, FinishVectorDeletion, PerformAll;
    var sweep := Write.Sweep(p, Reach(w(Dropping(p, Spot.Sweep))));
    PerformNone(s);
    PerformFirst(s, Remove(p), [sweep]);
    PerformOne(Perform(s, Remove(p)), sweep);
    assert [Remove(p), sweep] == [Remove(p)] + [sweep];
    PerformInParts(s, [Remove(p), sweep], [Settle(p)]);
    PerformOne(PerformAll(s, [Remove(p), sweep]), Settle(p));
    assert [Remove(p), sweep] + [] == [Remove(p), sweep];
  }

  lemma PerformNone(s: Store)
    ensures PerformAll(s, []) == s
  {
  }

  lemma CommitFileWrites(s: Store, p: Path, content: string, commit: Commit, pieces: seq<Piece>, synced: bool, w: Weather)
    ensures CommitFile(s, p, content, commit, pieces, synced, w).store
            == PerformAll(s, CommitWrites(p, content, commit, pieces, synced, w))
  {
    hide PerformAll, Distinct, FinishVectorDeletion;
    var refresh := Refresh(p, content, commit, pieces, synced);
    PerformNone(s);
    PerformOne(s, refresh);
    PerformFirst(s, refresh, [Settle(p)]);
    PerformOne(Perform(s, refresh), Settle(p));
    assert [refresh] + [] == [refresh];
  }

  lemma PerformTwo(s: Store, a: Write, b: Write, more: seq<Write>)
    ensures PerformAll(s, [a, b] + more) == PerformAll(Perform(Perform(s, a), b), more)
  {
    hide Perform, PerformAll;
    assert [a, b] + more == [a] + ([b] + more);
    PerformFirst(s, a, [b] + more);
    PerformFirst(Perform(s, a), b, more);
  }

  lemma ReindexFileWrites(s: Store, p: Path, content: string, commit: Commit, pieces: seq<Piece>, w: Weather)
    ensures ReindexFile(s, p, content, commit, pieces, w).store == PerformAll(s, ReindexWrites(p, content, commit, pieces, w))
  {
    hide PerformAll, CommitFile, CommitWrites, MarkVectorDirty, Without, SweepPoints, UpsertPoints, Points;
    var sweep, upsert := w(Syncing(p, Spot.Sweep)), w(Syncing(p, Spot.Upsert));
    var swept := Perform(Perform(s, Dirty(p)), Write.Sweep(p, Reach(sweep)));
    var store := Write.Upsert(p, pieces, Reach(upsert));
    var rest := if upsert.Go? || upsert.Unavailable? then CommitWrites(p, content, commit, pieces, upsert.Go?, w) else [];
    PerformNone(s);
    PerformNone(swept);
    PerformNone(Perform(swept, store));
    PerformTwo(s, Dirty(p), Write.Sweep(p, Reach(sweep)), []);
    PerformTwo(s, Dirty(p), Write.Sweep(p, Reach(sweep)), CommitWrites(p, content, commit, pieces, false, w));
    PerformTwo(s, Dirty(p), Write.Sweep(p, Reach(sweep)), [store] + rest);
    PerformFirst(swept, store, rest);
    CommitFileWrites(swept, p, content, commit, pieces, false, w);
    CommitFileWrites(Perform(swept, store), p, content, commit, pieces, upsert.Go?, w);
  }

  lemma SyncFileWrites(chunker: Chunker, s: Store, p: Path, content: string, skip: bool, commit: Commit, w: Weather)
    ensures SyncFile(chunker, s, p, content, skip, commit, w).store
            == PerformAll(s, SyncWrites(chunker, p, content, skip, commit, w))
  {
    hide PerformAll, ReindexFile, ReindexWrites, UpdateFileCommit;
    PerformNone(s);
    PerformOne(s, Advance(p, commit));
    ReindexFileWrites(s, p, content, commit, chunker(p, content), w);
  }

  // ---------- the writes of a pass ----------

  /** Whether a turn lets the loop go on; that does not depend on the store. */
  predicate DropGoesOn(p: Path, w: Weather) {
    !DropFile(Registered(""), p, w).ending.Aborted? && w(Dropping(p, Report)).Go?
  }

  predicate SyncGoesOn(chunker: Chunker, p: Path, content: string, skip: bool, commit: Commit, w: Weather) {
    !SyncFile(chunker, Registered(""), p, content, skip, commit, w).ending.Aborted? && w(Syncing(p, Report)).Go?
  }

  lemma CommitEnding(s: Store, t: Store, p: Path, content: string, commit: Commit, pieces: seq<Piece>, synced: bool, w: Weather)
    ensures CommitFile(s, p, content, commit, pieces, synced, w).ending == CommitFile(t, p, content, commit, pieces, synced, w).ending
  {
    hide Distinct, Without, Rows;
  }

  lemma ReindexEnding(s: Store, t: Store, p: Path, content: string, commit: Commit, pieces: seq<Piece>, w: Weather)
    ensures ReindexFile(s, p, content, commit, pieces, w).ending == ReindexFile(t, p, content, commit, pieces, w).ending
  {
    hide CommitFile, MarkVectorDirty, Without, SweepPoints, UpsertPoints, Points;
    forall a: Store, b: Store, synced: bool
      ensures CommitFile(a, p, content, commit, pieces, synced, w).ending == CommitFile(b, p, content, commit, pieces, synced, w).ending {
      CommitEnding(a, b, p, content, commit, pieces, synced, w);
    }
  }

  lemma DropEnding(s: Store, t: Store, p: Path, w: Weather)
    ensures DropFile(s, p, w).ending == DropFile(t, p, w).ending
  {
    hide Without, SweepPoints;
  }

  lemma SyncEnding(chunker: Chunker, s: Store, t: Store, p: Path, content: string, skip: bool, commit: Commit, w: Weather)
    ensures SyncFile(chunker, s, p, content, skip, commit, w).ending == SyncFile(chunker, t, p, content, skip, commit, w).ending
  {
    hide ReindexFile, Advanced;
    ReindexEnding(s, t, p, content, commit, chunker(p, content), w);
  }

  function DropAllWrites(gone: seq<Path>, w: Weather): seq<Write>
    decreases |gone|
  {
    if gone == [] then []
    else DropWrites(gone[0], w) + if DropGoesOn(gone[0], w) then DropAllWrites(gone[1..], w) else []
  }

  predicate DropAllGoesOn(gone: seq<Path>, w: Weather) {
    forall i | 0 <= i < |gone| :: DropGoesOn(gone[i], w)
  }

  function TurnWrites(plan: Plan, p: Path, w: Weather): seq<Write>
    requires p in plan.tree
  {
    SyncWrites(plan.chunker, p, plan.tree[p], plan.Skips(p), plan.commit, w)
  }

  predicate TurnGoesOn(plan: Plan, p: Path, w: Weather)
    requires p in plan.tree
  {
    SyncGoesOn(plan.chunker, p, plan.tree[p], plan.Skips(p), plan.commit, w)
  }

  function SyncAllWrites(plan: Plan, order: seq<Path>, w: Weather): seq<Write>
    requires forall p | p in order :: p in plan.tree
    decreases |order|
  {
    if order == [] then []
    else TurnWrites(plan, order[0], w) + if TurnGoesOn(plan, order[0], w) then SyncAllWrites(plan, order[1..], w) else []
  }

  predicate SyncAllGoesOn(plan: Plan, order: seq<Path>, w: Weather)
    requires forall p | p in order :: p in plan.tree
  {
    forall i | 0 <= i < |order| :: TurnGoesOn(plan, order[i], w)
  }

  /** The writes of a whole pass, in order. */
  function PassWrites(plan: Plan, order: seq<Path>, gone: seq<Path>, w: Weather): seq<Write>
    requires forall p | p in order :: p in plan.tree
  {
    if !w(Opening).Go? then []
    else
      DropAllWrites(gone, w)
      + if !DropAllGoesOn(gone, w) then []
        else SyncAllWrites(plan, order, w) + if SyncAllGoesOn(plan, order, w) && w(Closing).Go? then [Conclude(plan.commit)] else []
  }

  lemma {:induction false} DropAllIsItsWrites(s: Store, stats: IndexStats, gone: seq<Path>, w: Weather)
    ensures DropAll(s, stats, gone, w).store == PerformAll(s, DropAllWrites(gone, w))
    ensures DropAll(s, stats, gone, w).aborted <==> !DropAllGoesOn(gone, w)
    decreases |gone|
  {
    hide DropFile, DropWrites, PerformAll, DropGoesOn, Count;
    PerformNone(s);
    if gone != [] {
      var p := gone[0];
      var turn := DropFile(s, p, w);
      DropFileWrites(s, p, w);
      DropTurn(s, p, w);
      PerformInParts(s, DropWrites(p, w), DropAllWrites(gone[1..], w));
      DropAllIsItsWrites(turn.store, Count(stats, turn.ending), gone[1..], w);
      assert DropWrites(p, w) + [] == DropWrites(p, w);
      assert DropAllGoesOn(gone, w) <==> DropGoesOn(p, w) && DropAllGoesOn(gone[1..], w) by {
        assert forall i | 0 <= i < |gone[1..]| :: gone[1..][i] == gone[i + 1];
        assert forall i | 0 < i < |gone| :: gone[i] == gone[1..][i - 1];
      }
    }
  }

  lemma DropTurn(s: Store, p: Path, w: Weather)
    ensures DropGoesOn(p, w) <==> !DropFile(s, p, w).ending.Aborted? && w(Dropping(p, Report)).Go?
  {
    hide DropFile;
    DropEnding(s, Registered(""), p, w);
  }

  lemma SyncTurn(plan: Plan, s: Store, p: Path, w: Weather)
    requires p in plan.tree
    ensures TurnGoesOn(plan, p, w)
            <==> !SyncFile(plan.chunker, s, p, plan.tree[p], plan.Skips(p), plan.commit, w).ending.Aborted? && w(Syncing(p, Report)).Go?
  {
    hide SyncFile, MaySkip;
    SyncEnding(plan.chunker, s, Registered(""), p, plan.tree[p], plan.Skips(p), plan.commit, w);
  }

  lemma {:induction false} SyncAllIsItsWrites(plan: Plan, s: Store, stats: IndexStats, order: seq<Path>, w: Weather)
    requires forall p | p in order :: p in plan.tree
    ensures SyncAll(plan, s, stats, order, w).store == PerformAll(s, SyncAllWrites(plan, order, w))
    ensures SyncAll(plan, s, stats, order, w).aborted <==> !SyncAllGoesOn(plan, order, w)
    decreases |order|
  {
    hide SyncFile, SyncWrites, PerformAll, TurnGoesOn, Count, MaySkip;
    PerformNone(s);
    if order != [] {
      var p := order[0];
      var turn := SyncFile(plan.chunker, s, p, plan.tree[p], plan.Skips(p), plan.commit, w);
      SyncFileWrites(plan.chunker, s, p, plan.tree[p], plan.Skips(p), plan.commit, w);
      SyncTurn(plan, s, p, w);
      PerformInParts(s, TurnWrites(plan, p, w), SyncAllWrites(plan, order[1..], w));
      SyncAllIsItsWrites(plan, turn.store, Count(stats, turn.ending), order[1..], w);
      assert TurnWrites(plan, p, w) + [] == TurnWrites(plan, p, w);
      assert SyncAllGoesOn(plan, order, w) <==> TurnGoesOn(plan, p, w) && SyncAllGoesOn(plan, order[1..], w) by {
        assert forall i | 0 <= i < |order[1..]| :: order[1..][i] == order[i + 1];
        assert forall i | 0 < i < |order| :: order[i] == order[1..][i - 1];
      }
    }
  }

  /** A pass leaves what its writes make of the store it found. */
  lemma PassIsItsWrites(chunker: Chunker, s: Store, tree: map<Path, string>, order: seq<Path>, gone: seq<Path>, mode: string,
                        commit: Commit, w: Weather)
    requires Enumerates(order, tree.Keys) && Enumerates(gone, Doomed(s, tree))
    ensures Index(chunker, s, tree, order, gone, mode, commit, w).store
            == PerformAll(s, PassWrites(PlanOf(chunker, s, tree, mode, commit), order, gone, w))
  {
    hide DropAll, SyncAll, DropAllWrites, SyncAllWrites, PerformAll, Doomed, DropAllGoesOn, SyncAllGoesOn;
    var plan := PlanOf(chunker, s, tree, mode, commit);
    var drops, syncs := DropAllWrites(gone, w), SyncAllWrites(plan, order, w);
    DropAllIsItsWrites(s, NO_STATS, gone, w);
    var dropped := DropAll(s, NO_STATS, gone, w);
    SyncAllIsItsWrites(plan, dropped.store, dropped.stats, order, w);
    PerformNone(s);
    PerformInParts(s, drops, syncs);
    PerformInParts(s, drops, syncs + [Conclude(commit)]);
    PerformInParts(dropped.store, syncs, [Conclude(commit)]);
    PerformOne(PerformAll(dropped.store, syncs), Conclude(commit));
    assert drops + [] == drops && syncs + [] == syncs;
  }

  // ---------- a pass cut after any of its writes is a pass ----------

  /** The same weather, but the pass ends at this point without reaching anything more. */
  function Stopped(w: Weather, at: Point): Weather {
    point => if point == at then Stop({}) else w(point)
  }

  /** The weathers agree outside the points of one file in one loop. */
  ghost predicate DiffersInDrop(w: Weather, w': Weather, p: Path) {
    forall point: Point :: !(point.Dropping? && point.path == p) ==> w'(point) == w(point)
  }

  ghost predicate DiffersInSync(w: Weather, w': Weather, p: Path) {
    forall point: Point :: !(point.Syncing? && point.path == p) ==> w'(point) == w(point)
  }

  lemma ReachingNothing(s: Store, p: Path, pieces: seq<Piece>)
    ensures Perform(s, Write.Sweep(p, Some({}))) == s
    ensures Perform(s, Write.Upsert(p, pieces, Some({}))) == s
  {
    hide Points;
    assert SweepPoints(s.vectors, p, {}) == s.vectors;
    assert UpsertPoints(s.vectors, Points(p, pieces), {}) == s.vectors;
  }

  lemma TrailingIdle(s: Store, writes: seq<Write>, idle: Write)
    requires forall t: Store :: Perform(t, idle) == t
    ensures PerformAll(s, writes + [idle]) == PerformAll(s, writes)
  {
    hide Perform;
    PerformInParts(s, writes, [idle]);
    PerformOne(PerformAll(s, writes), idle);
  }

  lemma DropCut(s: Store, p: Path, w: Weather, n: nat) returns (w': Weather)
    requires n <= |DropWrites(p, w)|
    ensures DiffersInDrop(w, w', p) && !DropGoesOn(p, w')
    ensures PerformAll(s, DropWrites(p, w')) == PerformAll(s, DropWrites(p, w)[..n])
  {
    hide PerformAll, Perform;
    var writes := DropWrites(p, w);
    var spot := if n == 0 then Checkpoint else if n == |writes| then Report else if n == 1 then Spot.Sweep else Finish;
    w' := Stopped(w, Dropping(p, spot));
    if n == |writes| {
      assert writes[..n] == writes;
    } else if n == 1 {
      forall t: Store ensures Perform(t, Write.Sweep(p, Some({}))) == t {
        ReachingNothing(t, p, []);
      }
      assert DropWrites(p, w') == writes[..1] + [Write.Sweep(p, Some({}))];
      TrailingIdle(s, writes[..1], Write.Sweep(p, Some({})));
    } else {
      assert DropWrites(p, w') == writes[..n];
    }
  }

  /** Where to end a file's turn so that exactly its first n writes happen. */
  function CutSpot(plan: Plan, p: Path, w: Weather, n: nat): Spot
    requires p in plan.tree && n <= |TurnWrites(plan, p, w)|
  {
    if n == 0 then Checkpoint
    else if n == |TurnWrites(plan, p, w)| then Report
    else if n == 1 then Spot.Sweep
    else if n == 2 && w(Syncing(p, Spot.Sweep)).Go? then Spot.Upsert
    else if n == 2 || n == 3 then Replace
    else Finish
  }

  lemma CutStops(plan: Plan, p: Path, w: Weather, n: nat)
    requires p in plan.tree && n <= |TurnWrites(plan, p, w)|
    ensures !TurnGoesOn(plan, p, Stopped(w, Syncing(p, CutSpot(plan, p, w, n))))
  {
    hide MaySkip, Points, Rows, Without, SweepPoints, UpsertPoints, Advanced;
  }

  lemma CutWrites(plan: Plan, s: Store, p: Path, w: Weather, n: nat)
    requires p in plan.tree && n <= |TurnWrites(plan, p, w)|
    ensures PerformAll(s, TurnWrites(plan, p, Stopped(w, Syncing(p, CutSpot(plan, p, w, n)))))
            == PerformAll(s, TurnWrites(plan, p, w)[..n])
  {
    hide PerformAll, Perform, Distinct, MaySkip;
    var writes := TurnWrites(plan, p, w);
    var pieces := plan.chunker(p, plan.tree[p]);
    var spot := CutSpot(plan, p, w, n);
    var w' := Stopped(w, Syncing(p, spot));
    if n == |writes| {
      assert writes[..n] == writes;
    } else if spot.Sweep? || spot.Upsert? {
      var idle := if spot.Sweep? then Write.Sweep(p, Some({})) else Write.Upsert(p, pieces, Some({}));
      forall t: Store ensures Perform(t, idle) == t {
        ReachingNothing(t, p, pieces);
      }
      assert TurnWrites(plan, p, w') == writes[..n] + [idle];
      TrailingIdle(s, writes[..n], idle);
    } else {
      assert TurnWrites(plan, p, w') == writes[..n];
    }
  }

  lemma SyncCut(plan: Plan, s: Store, p: Path, w: Weather, n: nat) returns (w': Weather)
    requires p in plan.tree && n <= |TurnWrites(plan, p, w)|
    ensures DiffersInSync(w, w', p) && !TurnGoesOn(plan, p, w')
    ensures PerformAll(s, TurnWrites(plan, p, w')) == PerformAll(s, TurnWrites(plan, p, w)[..n])
  {
    hide PerformAll, TurnWrites, TurnGoesOn, CutSpot;
    w' := Stopped(w, Syncing(p, CutSpot(plan, p, w, n)));
    CutStops(plan, p, w, n);
    CutWrites(plan, s, p, w, n);
  }

  lemma DropElsewhere(w: Weather, w': Weather, p: Path, q: Path)
    requires DiffersInDrop(w, w', p) && q != p
    ensures DropWrites(q, w') == DropWrites(q, w) && (DropGoesOn(q, w') <==> DropGoesOn(q, w))
  {
    hide DeleteFile, Without, SweepPoints, FinishVectorDeletion;
    assert forall spot :: w'(Dropping(q, spot)) == w(Dropping(q, spot));
  }

  lemma SyncElsewhere(plan: Plan, w: Weather, w': Weather, p: Path, q: Path)
    requires DiffersInSync(w, w', p) && q != p && q in plan.tree
    ensures TurnWrites(plan, q, w') == TurnWrites(plan, q, w) && (TurnGoesOn(plan, q, w') <==> TurnGoesOn(plan, q, w))
  {
    hide MaySkip, Points, Rows, Without, SweepPoints, UpsertPoints, Advanced, Distinct;
    assert forall spot :: w'(Syncing(q, spot)) == w(Syncing(q, spot));
  }

  lemma {:induction false} DropAllCut(s: Store, gone: seq<Path>, w: Weather, n: nat) returns (w': Weather, p: Path)
    requires gone != [] && n <= |DropAllWrites(gone, w)| && forall i, j :: 0 <= i < j < |gone| ==> gone[i] != gone[j]
    ensures p in gone && DiffersInDrop(w, w', p) && !DropAllGoesOn(gone, w')
    ensures PerformAll(s, DropAllWrites(gone, w')) == PerformAll(s, DropAllWrites(gone, w)[..n])
    decreases |gone|
  {
    hide PerformAll, DropWrites, DropGoesOn, DiffersInDrop;
    var q, own := gone[0], DropWrites(gone[0], w);
    if n <= |own| {
      p := q;
      w' := DropCut(s, q, w, n);
      assert DropAllWrites(gone, w)[..n] == own[..n];
      assert DropAllWrites(gone, w') == DropWrites(q, w') + [] == DropWrites(q, w');
    } else {
      var rest := gone[1..];
      w', p := DropAllCut(PerformAll(s, own), rest, w, n - |own|);
      DropElsewhere(w, w', p, q);
      assert DropAllWrites(gone, w)[..n] == own + DropAllWrites(rest, w)[..n - |own|];
      PerformInParts(s, own, DropAllWrites(rest, w)[..n - |own|]);
      PerformInParts(s, own, DropAllWrites(rest, w'));
      var i :| 0 <= i < |rest| && !DropGoesOn(rest[i], w');
      assert gone[i + 1] == rest[i];
    }
  }

  lemma {:induction false} SyncAllCut(plan: Plan, s: Store, order: seq<Path>, w: Weather, n: nat) returns (w': Weather, p: Path)
    requires order != [] && forall p | p in order :: p in plan.tree
    requires n <= |SyncAllWrites(plan, order, w)| && forall i, j :: 0 <= i < j < |order| ==> order[i] != order[j]
    ensures p in order && DiffersInSync(w, w', p) && !SyncAllGoesOn(plan, order, w')
    ensures PerformAll(s, SyncAllWrites(plan, order, w')) == PerformAll(s, SyncAllWrites(plan, order, w)[..n])
    decreases |order|
  {
    hide PerformAll, TurnWrites, TurnGoesOn, DiffersInSync;
    var q := order[0];
    var own := TurnWrites(plan, q, w);
    if n <= |own| {
      p := q;
      w' := SyncCut(plan, s, q, w, n);
      assert SyncAllWrites(plan, order, w)[..n] == own[..n];
      assert SyncAllWrites(plan, order, w') == TurnWrites(plan, q, w') + [] == TurnWrites(plan, q, w');
    } else {
      var rest := order[1..];
      w', p := SyncAllCut(plan, PerformAll(s, own), rest, w, n - |own|);
      SyncElsewhere(plan, w, w', p, q);
      assert SyncAllWrites(plan, order, w)[..n] == own + SyncAllWrites(plan, rest, w)[..n - |own|];
      PerformInParts(s, own, SyncAllWrites(plan, rest, w)[..n - |own|]);
      PerformInParts(s, own, SyncAllWrites(plan, rest, w'));
      var i :| 0 <= i < |rest| && !TurnGoesOn(plan, rest[i], w');
      assert order[i + 1] == rest[i];
    }
  }

  lemma {:induction false} DropAllElsewhere(gone: seq<Path>, w: Weather, w': Weather)
    requires forall p: Path, spot: Spot :: w'(Dropping(p, spot)) == w(Dropping(p, spot))
    ensures DropAllWrites(gone, w') == DropAllWrites(gone, w) && (DropAllGoesOn(gone, w') <==> DropAllGoesOn(gone, w))
    decreases |gone|
  {
    hide DropWrites, DropGoesOn;
    forall p: Path ensures DropWrites(p, w') == DropWrites(p, w) && (DropGoesOn(p, w') <==> DropGoesOn(p, w)) {
      SameDropPoints(p, w, w');
    }
    if gone != [] {
      DropAllElsewhere(gone[1..], w, w');
    }
  }

  lemma SameDropPoints(p: Path, w: Weather, w': Weather)
    requires forall spot: Spot :: w'(Dropping(p, spot)) == w(Dropping(p, spot))
    ensures DropWrites(p, w') == DropWrites(p, w) && (DropGoesOn(p, w') <==> DropGoesOn(p, w))
  {
    hide DeleteFile, Without, SweepPoints, FinishVectorDeletion;
  }

  /** For every number of its writes there is a weather in which a pass performs just these and ends. */
  lemma PassCut(plan: Plan, s: Store, order: seq<Path>, gone: seq<Path>, w: Weather, n: nat) returns (w': Weather)
    requires Enumerates(order, plan.tree.Keys) && forall i, j :: 0 <= i < j < |gone| ==> gone[i] != gone[j]
    requires n <= |PassWrites(plan, order, gone, w)|
    ensures PerformAll(s, PassWrites(plan, order, gone, w')) == PerformAll(s, PassWrites(plan, order, gone, w)[..n])
  {
    hide PerformAll, DropAllWrites, SyncAllWrites, DropAllGoesOn, SyncAllGoesOn;
    var writes := PassWrites(plan, order, gone, w);
    var drops, syncs := DropAllWrites(gone, w), SyncAllWrites(plan, order, w);
    if n == 0 {
      w' := Stopped(w, Opening);
      assert writes[..0] == [];
    } else if n == |writes| {
      w' := w;
      assert writes[..n] == writes;
    } else if n <= |drops| {
      var p;
      DropsNeedPaths(gone, w);
      w', p := DropAllCut(s, gone, w, n);
      assert writes[..n] == drops[..n];
      assert PassWrites(plan, order, gone, w') == DropAllWrites(gone, w') + [] == DropAllWrites(gone, w');
    } else {
      var p;
      SyncsNeedPaths(plan, order, w);
      var m := n - |drops|;
      w', p := SyncAllCut(plan, PerformAll(s, drops), order, w, m);
      DropAllElsewhere(gone, w, w');
      assert writes[..n] == drops + syncs[..m];
      assert PassWrites(plan, order, gone, w') == drops + SyncAllWrites(plan, order, w');
      PerformInParts(s, drops, syncs[..m]);
      PerformInParts(s, drops, SyncAllWrites(plan, order, w'));
    }
  }

  lemma DropsNeedPaths(gone: seq<Path>, w: Weather)
    ensures gone == [] ==> DropAllWrites(gone, w) == []
  {
  }

  lemma SyncsNeedPaths(plan: Plan, order: seq<Path>, w: Weather)
    requires forall p | p in order :: p in plan.tree
    ensures order == [] ==> SyncAllWrites(plan, order, w) == []
  {
  }

  /** The store a pass has made after any of its writes is one that a pass leaves that is cut there. */
  lemma EveryCutIsAPass(chunker: Chunker, s: Store, tree: map<Path, string>, order: seq<Path>, gone: seq<Path>, mode: string,
                        commit: Commit, w: Weather, n: nat) returns (w': Weather)
    requires Enumerates(order, tree.Keys) && Enumerates(gone, Doomed(s, tree))
    requires n <= |PassWrites(PlanOf(chunker, s, tree, mode, commit), order, gone, w)|
    ensures Index(chunker, s, tree, order, gone, mode, commit, w').store
            == PerformAll(s, PassWrites(PlanOf(chunker, s, tree, mode, commit), order, gone, w)[..n])
  {
    hide PassWrites, PerformAll, Index, Doomed;
    w' := PassCut(PlanOf(chunker, s, tree, mode, commit), s, order, gone, w, n);
    PassIsItsWrites(chunker, s, tree, order, gone, mode, commit, w');
  }
}
