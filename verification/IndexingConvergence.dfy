/** What an undisturbed pass leaves, from any healthy store: incremental reindexing equals a full one, and settles. */
module IndexingConvergence {
  import opened Basics
  import opened IndexStore
  import opened Indexing
  import opened IndexingTheorems

  /** No outage, no error, no crash, no lost lease and no cancellation. */
  ghost predicate Calm(w: Weather) {
    forall point: Point :: w(point).Go?
  }

  /** The same for the calls about one file. */
  ghost predicate CalmFor(w: Weather, p: Path) {
    (forall spot :: w(Dropping(p, spot)).Go?) && (forall spot :: w(Syncing(p, spot)).Go?)
  }

  const GONE := View(None, map[], false, map[])

  /** The share of a file that is indexed in sync. */
  function Canonical(p: Path, content: string, commit: Commit, pieces: seq<Piece>): View {
    View(Some(FileRow(Sha(content), commit, |pieces|, true)), Rows(p, pieces, commit), false, Points(p, pieces))
  }

  /** What an undisturbed turn makes of a file's share: with colliding chunk ids the replacement rolls back, after the
      row was marked out of sync and the new points were stored. */
  function Refresh(v: View, p: Path, content: string, commit: Commit, pieces: seq<Piece>): View {
    if Distinct(p, pieces) then Canonical(p, content, commit, pieces)
    else v.(row := Dirtied(v.row), vectors := Points(p, pieces))
  }

  function CalmEnding(p: Path, skip: bool, pieces: seq<Piece>): Ending {
    if skip then Skipped else if Distinct(p, pieces) then Indexed(|pieces|) else Errored
  }

  lemma CalmReindex(s: Store, p: Path, content: string, commit: Commit, pieces: seq<Piece>, w: Weather)
    requires CalmFor(w, p)
    ensures var turn := ReindexFile(s, p, content, commit, pieces, w);
            && ViewOf(turn.store, p) == Refresh(ViewOf(s, p), p, content, commit, pieces)
            && turn.ending == CalmEnding(p, false, pieces)
  {
    hide ViewOf, Slice, Without, Points, Rows, Distinct;
    var dirty := MarkVectorDirty(s, p);
    var swept := dirty.(vectors := Without(dirty.vectors, p));
    var stored := swept.(vectors := swept.vectors + Points(p, pieces));
    MarkVectorDirtyView(s, p, p);
    WithoutPointsView(dirty, p, p);
    UpsertAllView(swept, p, pieces, p);
    if Distinct(p, pieces) {
      ReplaceFileChunksView(stored, p, Sha(content), commit, pieces, true, p);
      FinishVectorDeletionView(ReplaceFileChunks(stored, p, Sha(content), commit, pieces, true).value, p, p);
    }
  }

  lemma CalmSync(chunker: Chunker, s: Store, p: Path, content: string, skip: bool, commit: Commit, w: Weather)
    requires CalmFor(w, p) && Healthy(chunker, p, ViewOf(s, p))
    requires skip ==> p in s.files && s.files[p].sha == Sha(content) && s.files[p].synced && p !in s.tombstones
    ensures var turn := SyncFile(chunker, s, p, content, skip, commit, w);
            && ViewOf(turn.store, p) == Refresh(ViewOf(s, p), p, content, commit, chunker(p, content))
            && turn.ending == CalmEnding(p, skip, chunker(p, content))
  {
    hide Slice, Advanced, ReindexFile, UpdateFileCommit, Distinct, Rows, Points;
    if skip {
      UpdateFileCommitView(s, p, commit, p);
      AdvancedRows(p, chunker(p, content), s.files[p].commit, commit);
    } else {
      CalmReindex(s, p, content, commit, chunker(p, content), w);
    }
  }

  function Tallied(stats: IndexStats, plan: Plan, order: seq<Path>): IndexStats
    requires forall p | p in order :: p in plan.tree
    decreases |order|
  {
    if order == [] then stats
    else
      var p := order[0];
      Tallied(Count(stats, CalmEnding(p, plan.Skips(p), plan.chunker(p, plan.tree[p]))), plan, order[1..])
  }

  lemma {:induction false} CalmDropAll(s: Store, stats: IndexStats, gone: seq<Path>, w: Weather, q: Path)
    requires Calm(w)
    ensures var pass := DropAll(s, stats, gone, w);
            && !pass.aborted && pass.stats == stats.(deleted := stats.deleted + |gone|)
            && ViewOf(pass.store, q) == if q in gone then GONE else ViewOf(s, q)
    decreases |gone|
  {
    hide ViewOf;
    if gone != [] {
      DropFileView(s, gone[0], q, w);
      DropFileView(s, gone[0], gone[0], w);
      DropFileFrame(s, gone[0], w);
      var turn := DropFile(s, gone[0], w);
      assert turn.ending == Deleted;
      CalmDropAll(turn.store, Count(stats, turn.ending), gone[1..], w, q);
      if q == gone[0] && q !in gone[1..] {
        assert ViewOf(turn.store, q) == GONE;
      }
    }
  }

  /** A file that is skipped has, in the store, the row the manifest showed. */
  ghost predicate Faithful(plan: Plan, s: Store, p: Path)
    requires p in plan.tree
  {
    plan.Skips(p) ==> p in s.files && s.files[p] == plan.manifest[p] && p !in s.tombstones
  }

  lemma {:induction false} CalmSyncAll(plan: Plan, s: Store, stats: IndexStats, order: seq<Path>, w: Weather, q: Path)
    requires Calm(w) && Sound(plan.chunker, s)
    requires forall p | p in order :: p in plan.tree && Faithful(plan, s, p)
    requires forall i, j :: 0 <= i < j < |order| ==> order[i] != order[j]
    ensures var pass := SyncAll(plan, s, stats, order, w);
            && !pass.aborted && pass.stats == Tallied(stats, plan, order)
            && ViewOf(pass.store, q) == if q in order
                                        then Refresh(ViewOf(s, q), q, plan.tree[q], plan.commit, plan.chunker(q, plan.tree[q]))
                                        else ViewOf(s, q)
    decreases |order|
  {
    hide Sound, SyncFile, Count, Refresh, Slice, SyncOutcome, Refreshed;
    if order != [] {
      var p := order[0];
      var skip := plan.Skips(p);
      assert Faithful(plan, s, p);
      SoundAt(plan.chunker, s, p);
      assert CalmFor(w, p);
      CalmSync(plan.chunker, s, p, plan.tree[p], skip, plan.commit, w);
      SyncFileSound(plan.chunker, s, p, plan.tree[p], skip, plan.commit, w);
      SyncFileView(plan.chunker, s, p, plan.tree[p], skip, plan.commit, w, q);
      var turn := SyncFile(plan.chunker, s, p, plan.tree[p], skip, plan.commit, w);
      forall r | r in order[1..] ensures r in plan.tree && Faithful(plan, turn.store, r) {
        assert Faithful(plan, s, r);
        SyncFileView(plan.chunker, s, p, plan.tree[p], skip, plan.commit, w, r);
      }
      CalmSyncAll(plan, turn.store, Count(stats, turn.ending), order[1..], w, q);
    }
  }

  lemma SoundAt(chunker: Chunker, s: Store, p: Path)
    requires Sound(chunker, s)
    ensures Healthy(chunker, p, ViewOf(s, p))
  {
  }

  /** The share a file has when the file loop begins. */
  function AfterDeletions(s: Store, tree: map<Path, string>, p: Path): View {
    if p in Doomed(s, tree) then GONE else ViewOf(s, p)
  }

  /** An undisturbed pass, file by file. */
  lemma CalmPass(chunker: Chunker, s: Store, tree: map<Path, string>, order: seq<Path>, gone: seq<Path>, mode: string,
                 commit: Commit, w: Weather, p: Path)
    requires Calm(w) && Sound(chunker, s) && Enumerates(order, tree.Keys) && Enumerates(gone, Doomed(s, tree))
    ensures var pass := Index(chunker, s, tree, order, gone, mode, commit, w);
            && !pass.aborted && pass.store.head == commit && pass.store.ready
            && pass.stats == Tallied(IndexStats(0, 0, |gone|, 0, 0), PlanOf(chunker, s, tree, mode, commit), order)
            && ViewOf(pass.store, p) == if p in tree
                                        then Refresh(AfterDeletions(s, tree, p), p, tree[p], commit, chunker(p, tree[p]))
                                        else AfterDeletions(s, tree, p)
  {
    hide Sound, Calm, DropAll, SyncAll, Slice, Refresh, Tallied;
    var stats := NO_STATS;
    var dropped := DropAll(s, stats, gone, w);
    var plan := PlanOf(chunker, s, tree, mode, commit);
    assert w(Opening).Go? && w(Closing).Go? by {
      CalmAt(w, Opening);
      CalmAt(w, Closing);
    }
    CalmDropAll(s, stats, gone, w, p);
    DropAllSound(chunker, s, stats, gone, w);
    forall r | r in order ensures r in tree && Faithful(plan, dropped.store, r) {
      CalmDropAll(s, stats, gone, w, r);
    }
    CalmSyncAll(plan, dropped.store, dropped.stats, order, w, p);
    HeadLeavesViews(SyncAll(plan, dropped.store, dropped.stats, order, w).store, commit, p);
  }

  lemma CalmAt(w: Weather, point: Point)
    requires Calm(w)
    ensures w(point).Go?
  {
  }

  /** Same manifest, chunks, commit provenance and tombstones, and the same vectors for every path on disk. */
  ghost predicate SameIndex(s: Store, t: Store, tree: map<Path, string>) {
    && s.files == t.files && s.chunks == t.chunks && s.tombstones == t.tombstones
    && s.head == t.head && s.ready == t.ready
    && forall p | p in tree :: Slice(s.vectors, p) == Slice(t.vectors, p)
  }

  ghost predicate SameShare(v: View, v': View, onDisk: bool) {
    v.row == v'.row && v.chunks == v'.chunks && v.tombstone == v'.tombstone && (onDisk ==> v.vectors == v'.vectors)
  }

  lemma SameSharesSameIndex(s: Store, t: Store, tree: map<Path, string>)
    requires s.head == t.head && s.ready == t.ready
    ensures SameIndex(s, t, tree) <==> forall p: Path :: SameShare(ViewOf(s, p), ViewOf(t, p), p in tree)
  {
    if forall p: Path :: SameShare(ViewOf(s, p), ViewOf(t, p), p in tree) {
      var s', t' := s.(vectors := map[]), t.(vectors := map[]);
      forall p: Path ensures ViewOf(s', p) == ViewOf(t', p) {
        assert SameShare(ViewOf(s, p), ViewOf(t, p), p in tree);
        assert Slice(s'.vectors, p) == Slice(t'.vectors, p);
      }
      ViewsDetermineStore(s', t');
      forall p | p in tree ensures Slice(s.vectors, p) == Slice(t.vectors, p) {
        assert SameShare(ViewOf(s, p), ViewOf(t, p), p in tree);
      }
    }
  }

  ghost predicate Collides(chunker: Chunker, tree: map<Path, string>, p: Path)
    requires p in tree
  {
    !Distinct(p, chunker(p, tree[p]))
  }

  /** Incremental equals full. From any healthy store, so from any cut of any earlier passes, an undisturbed pass in any
      mode leaves what a full pass over an empty index leaves, exactly when no file on disk with colliding chunk ids
      still has a row from an earlier version. */
  lemma IncrementalEqualsFull(chunker: Chunker, s: Store, tree: map<Path, string>, order: seq<Path>, gone: seq<Path>,
                              mode: string, commit: Commit, w: Weather, head: Commit, order': seq<Path>, w': Weather)
    requires Calm(w) && Calm(w') && Sound(chunker, s)
    requires Enumerates(order, tree.Keys) && Enumerates(order', tree.Keys) && Enumerates(gone, Doomed(s, tree))
    ensures SameIndex(Index(chunker, s, tree, order, gone, mode, commit, w).store,
                      Index(chunker, Registered(head), tree, order', [], "full", commit, w').store, tree)
            <==> forall p | p in tree && Collides(chunker, tree, p) :: p !in s.files || p in s.tombstones
  {
    var incremental := Index(chunker, s, tree, order, gone, mode, commit, w);
    var full := Index(chunker, Registered(head), tree, order', [], "full", commit, w');
    hide Index, Calm, Sound, Enumerates, SameIndex, Slice, Rows, Points, Distinct;
    RegisteredIsSound(chunker, head);
    forall p: Path ensures SameShare(ViewOf(incremental.store, p), ViewOf(full.store, p), p in tree)
                           <==> (p in tree && Collides(chunker, tree, p) ==> p !in s.files || p in s.tombstones) {
      CalmPass(chunker, s, tree, order, gone, mode, commit, w, p);
      CalmPass(chunker, Registered(head), tree, order', [], "full", commit, w', p);
      SoundAt(chunker, s, p);
      RegisteredView(head, p);
    }
    CalmPass(chunker, s, tree, order, gone, mode, commit, w, "");
    CalmPass(chunker, Registered(head), tree, order', [], "full", commit, w', "");
    SameSharesSameIndex(incremental.store, full.store, tree);
  }

  lemma RegisteredView(head: Commit, p: Path)
    ensures ViewOf(Registered(head), p) == GONE
  {
    assert Slice(Registered(head).chunks, p) == map[];
    assert Slice(Registered(head).vectors, p) == map[];
  }

  // ---------- settling ----------

  /** Every file on disk has its canonical share, nothing else has a row, and no deletion is pending. */
  ghost predicate Settled(chunker: Chunker, s: Store, tree: map<Path, string>, commit: Commit) {
    && s.files.Keys == tree.Keys && s.tombstones == {} && s.head == commit && s.ready
    && forall p | p in tree :: ViewOf(s, p) == Canonical(p, tree[p], commit, chunker(p, tree[p]))
  }

  lemma CalmPassSettles(chunker: Chunker, s: Store, tree: map<Path, string>, order: seq<Path>, gone: seq<Path>, mode: string,
                        commit: Commit, w: Weather)
    requires Calm(w) && Sound(chunker, s) && Enumerates(order, tree.Keys) && Enumerates(gone, Doomed(s, tree))
    requires forall p | p in tree :: !Collides(chunker, tree, p)
    ensures Settled(chunker, Index(chunker, s, tree, order, gone, mode, commit, w).store, tree, commit)
  {
    hide Index, Calm, Sound, Enumerates, Slice, Rows, Points, Distinct;
    var t := Index(chunker, s, tree, order, gone, mode, commit, w).store;
    forall p: Path ensures (p in t.files <==> p in tree) && p !in t.tombstones
                           && (p in tree ==> ViewOf(t, p) == Canonical(p, tree[p], commit, chunker(p, tree[p]))) {
      CalmPass(chunker, s, tree, order, gone, mode, commit, w, p);
      assert p in t.files <==> ViewOf(t, p).row.Some?;
      assert p in t.tombstones <==> ViewOf(t, p).tombstone;
    }
    CalmPass(chunker, s, tree, order, gone, mode, commit, w, "");
  }

  lemma AdvancingIsIdle(chunker: Chunker, s: Store, p: Path, content: string, commit: Commit)
    requires ViewOf(s, p) == Canonical(p, content, commit, chunker(p, content))
    ensures UpdateFileCommit(s, p, commit) == s
  {
    hide ViewOf, Rows, Points;
    forall q: Path ensures ViewOf(UpdateFileCommit(s, p, commit), q) == ViewOf(s, q) {
      UpdateFileCommitView(s, p, commit, q);
      AdvancedRows(p, chunker(p, content), commit, commit);
    }
    UpdateFileCommitHead(s, p, commit);
    ViewsDetermineStore(UpdateFileCommit(s, p, commit), s);
  }

  lemma {:induction false} SkippingAll(plan: Plan, s: Store, stats: IndexStats, order: seq<Path>, w: Weather)
    requires Calm(w)
    requires forall p | p in order :: p in plan.tree && plan.Skips(p)
                                      && ViewOf(s, p) == Canonical(p, plan.tree[p], plan.commit, plan.chunker(p, plan.tree[p]))
    ensures SyncAll(plan, s, stats, order, w) == Pass(s, stats.(skipped := stats.skipped + |order|), false)
    decreases |order|
  {
    hide ViewOf, Canonical, MaySkip, UpdateFileCommit;
    if order != [] {
      var p := order[0];
      AdvancingIsIdle(plan.chunker, s, p, plan.tree[p], plan.commit);
      assert SyncFile(plan.chunker, s, p, plan.tree[p], plan.Skips(p), plan.commit, w) == Turn(s, Skipped);
      SkippingAll(plan, s, Count(stats, Skipped), order[1..], w);
    }
  }

  lemma ListsSomething(xs: seq<Path>)
    ensures xs == [] || exists p :: p in xs
  {
    if xs != [] {
      assert xs[0] in xs;
    }
  }

  /** An incremental pass over a settled index skips every file, deletes nothing and changes nothing. */
  lemma SettledPassIsIdle(chunker: Chunker, s: Store, tree: map<Path, string>, order: seq<Path>, gone: seq<Path>,
                          commit: Commit, w: Weather)
    requires Calm(w) && Settled(chunker, s, tree, commit)
    requires Enumerates(order, tree.Keys) && Enumerates(gone, Doomed(s, tree))
    ensures Index(chunker, s, tree, order, gone, "incremental", commit, w)
            == Pass(s, IndexStats(0, 0, 0, |order|, 0), false)
  {
    hide Slice, Rows, Points, SyncAll;
    assert Doomed(s, tree) == {};
    ListsSomething(gone);
    var plan := PlanOf(chunker, s, tree, "incremental", commit);
    SkippingAll(plan, s, NO_STATS, order, w);
  }

  /** Crash safety and convergence together: after any series of passes, each cut and failing anywhere, one undisturbed
      pass over a tree without collisions settles the index, and the incremental pass after that is idle. */
  lemma AnyHistorySettles(chunker: Chunker, head: Commit, history: seq<Attempt>, s: Store, tree: map<Path, string>,
                          order: seq<Path>, gone: seq<Path>, mode: string, commit: Commit, w: Weather)
    requires Reached(chunker, Registered(head), history, s)
    requires Calm(w) && Enumerates(order, tree.Keys) && Enumerates(gone, Doomed(s, tree))
    requires forall p | p in tree :: !Collides(chunker, tree, p)
    ensures var t := Index(chunker, s, tree, order, gone, mode, commit, w).store;
            && Sound(chunker, s) && Settled(chunker, t, tree, commit)
            && SameIndex(t, Index(chunker, Registered(head), tree, order, [], "full", commit, w).store, tree)
            && Enumerates([], Doomed(t, tree))
            && Index(chunker, t, tree, order, [], "incremental", commit, w) == Pass(t, IndexStats(0, 0, 0, |order|, 0), false)
  {
    var t := Index(chunker, s, tree, order, gone, mode, commit, w).store;
    hide Index, Calm, Sound, Reached, SameIndex, Slice, Rows, Points, ViewOf;
    RegisteredIsSound(chunker, head);
    HistoriesKeepHealth(chunker, Registered(head), history, s);
    CalmPassSettles(chunker, s, tree, order, gone, mode, commit, w);
    IncrementalEqualsFull(chunker, s, tree, order, gone, mode, commit, w, head, order, w);
    SettledPassIsIdle(chunker, t, tree, order, [], commit, w);
  }

  // ---------- counters ----------

  function Counted(stats: IndexStats): nat {
    stats.indexed + stats.deleted + stats.skipped + stats.errors
  }

  lemma {:induction false} DropAllCounts(s: Store, stats: IndexStats, gone: seq<Path>, w: Weather)
    ensures var pass := DropAll(s, stats, gone, w);
            if pass.aborted then Counted(pass.stats) <= Counted(stats) + |gone| else Counted(pass.stats) == Counted(stats) + |gone|
    decreases |gone|
  {
    hide DropFile;
    if gone != [] {
      var turn := DropFile(s, gone[0], w);
      DropAllCounts(turn.store, Count(stats, turn.ending), gone[1..], w);
    }
  }

  lemma {:induction false} SyncAllCounts(plan: Plan, s: Store, stats: IndexStats, order: seq<Path>, w: Weather)
    requires forall p | p in order :: p in plan.tree
    ensures var pass := SyncAll(plan, s, stats, order, w);
            if pass.aborted then Counted(pass.stats) <= Counted(stats) + |order| else Counted(pass.stats) == Counted(stats) + |order|
    decreases |order|
  {
    hide SyncFile, MaySkip;
    if order != [] {
      var p := order[0];
      var turn := SyncFile(plan.chunker, s, p, plan.tree[p], plan.Skips(p), plan.commit, w);
      SyncAllCounts(plan, turn.store, Count(stats, turn.ending), order[1..], w);
    }
  }

  lemma NothingCounted()
    ensures Counted(NO_STATS) == 0
  {
  }

  lemma ListedInTree(order: seq<Path>, tree: map<Path, string>)
    requires Enumerates(order, tree.Keys)
    ensures forall p | p in order :: p in tree
  {
  }

  /** Each path of the two loops is counted once, as indexed, skipped, deleted or failed, unless the pass ends early. */
  lemma CountersAddUp(chunker: Chunker, s: Store, tree: map<Path, string>, order: seq<Path>, gone: seq<Path>, mode: string,
                      commit: Commit, w: Weather)
    requires Enumerates(order, tree.Keys) && Enumerates(gone, Doomed(s, tree))
    ensures var pass := Index(chunker, s, tree, order, gone, mode, commit, w);
            if pass.aborted then Counted(pass.stats) <= |order| + |gone| else Counted(pass.stats) == |order| + |gone|
  {
    hide DropAll, SyncAll, Doomed, Enumerates, Counted;
    var stats := NO_STATS;
    assert Counted(stats) == 0 by { NothingCounted(); }
    ListedInTree(order, tree);
    DropAllCounts(s, stats, gone, w);
    var dropped := DropAll(s, stats, gone, w);
    SyncAllCounts(PlanOf(chunker, s, tree, mode, commit), dropped.store, dropped.stats, order, w);
  }

  // ---------- the failing family has members ----------

  /** Two symbols on one line: the same lines, the same text, different names. */
  function OneLiners(p: Path, content: string): seq<Piece> {
    if content == "" then [] else [Piece(1, 1, content, Some("f")), Piece(1, 1, content, Some("g"))]
  }

  /** A file that was empty and now holds two symbols on its one line: no pass indexes it, and its old row stays, out of
      sync, where a full pass over an empty index leaves no row. */
  lemma CollisionKeepsStaleRow(w: Weather)
    requires Calm(w)
    ensures var before := Index(OneLiners, Registered("c1"), map["a.js" := ""], ["a.js"], [], "full", "c1", w).store;
            && Sound(OneLiners, before)
            && Enumerates([], Doomed(before, map["a.js" := "f();g()"]))
            && var after := Index(OneLiners, before, map["a.js" := "f();g()"], ["a.js"], [], "full", "c2", w);
               && after.stats.errors == 1 && !after.aborted && after.store.head == "c2"
               && "a.js" in after.store.files && after.store.files["a.js"] == FileRow(Sha(""), "c1", 0, false)
               && "a.js" !in Index(OneLiners, Registered("c1"), map["a.js" := "f();g()"], ["a.js"], [], "full", "c2", w).store.files
  {
    var t0, t1 := map["a.js" := ""], map["a.js" := "f();g()"];
    hide Calm, Sound, Index, Slice;
    RegisteredIsSound(OneLiners, "c1");
    var before := Index(OneLiners, Registered("c1"), t0, ["a.js"], [], "full", "c1", w).store;
    PassKeepsHealth(OneLiners, Registered("c1"), t0, ["a.js"], [], "full", "c1", w);
    CalmPassSettles(OneLiners, Registered("c1"), t0, ["a.js"], [], "full", "c1", w);
    assert ViewOf(before, "a.js") == Canonical("a.js", "", "c1", []);
    CalmPass(OneLiners, before, t1, ["a.js"], [], "full", "c2", w, "a.js");
    RegisteredView("c1", "a.js");
    CalmPass(OneLiners, Registered("c1"), t1, ["a.js"], [], "full", "c2", w, "a.js");
    assert IdOf("a.js", OneLiners("a.js", "f();g()")[0]) == IdOf("a.js", OneLiners("a.js", "f();g()")[1]);
    assert !Distinct("a.js", OneLiners("a.js", "f();g()"));
  }
}
