/** What every cut of a pass keeps, and what a pass that nothing disturbs achieves. */
module IndexingTheorems {
  import opened Basics
  import opened IndexStore
  import opened Indexing

  // ---------- crash safety ----------

  /** A file without a manifest row has no chunks. A file with one has exactly the chunk rows of the content its digest
      names, all at the row's commit, and a row marked in sync has exactly those chunks' points in the vector store. */
  ghost predicate Healthy(chunker: Chunker, p: Path, v: View) {
    match v.row
    case None => v.chunks == map[]
    case Some(row) =>
      var pieces := chunker(p, row.sha.content);
      && Distinct(p, pieces)
      && row.count == |pieces|
      && v.chunks == Rows(p, pieces, row.commit)
      && (row.synced ==> v.vectors == Points(p, pieces))
  }

  ghost predicate Sound(chunker: Chunker, s: Store) {
    forall p: Path :: Healthy(chunker, p, ViewOf(s, p))
  }

  /** A file's turn touches that file's share only. */
  ghost predicate TouchesOnly(s: Store, t: Store, p: Path) {
    && (forall q: Path :: q != p ==> ViewOf(t, q) == ViewOf(s, q))
    && t.head == s.head && t.ready == s.ready
  }

  lemma DropFileFrame(s: Store, p: Path, w: Weather)
    ensures TouchesOnly(s, DropFile(s, p, w).store, p)
  {
    hide ViewOf, Slice, Without, SweepPoints;
    forall q: Path | q != p ensures ViewOf(DropFile(s, p, w).store, q) == ViewOf(s, q) {
      DropFileView(s, p, q, w);
    }
    DropFileHead(s, p, w);
  }

  lemma DropFileHead(s: Store, p: Path, w: Weather)
    ensures DropFile(s, p, w).store.head == s.head && DropFile(s, p, w).store.ready == s.ready
  {
  }

  /** What a deletion leaves of a file: all of it, or no row and no chunk, and then a tombstone unless the points are gone. */
  lemma DropFileView(s: Store, p: Path, q: Path, w: Weather)
    ensures var v, v' := ViewOf(s, q), ViewOf(DropFile(s, p, w).store, q);
            || v' == v
            || (q == p && v'.row.None? && v'.chunks == map[] && (v'.tombstone || v'.vectors == map[]))
    ensures (forall spot :: w(Dropping(p, spot)).Go?) && q == p ==>
              ViewOf(DropFile(s, p, w).store, q) == View(None, map[], false, map[])
  {
    hide ViewOf, Slice, Without, SweepPoints;
    DeleteFileView(s, p, q);
    var removed := DeleteFile(s, p);
    var swept := removed.(vectors := Without(removed.vectors, p));
    WithoutPointsView(removed, p, q);
    FinishVectorDeletionView(swept, p, q);
    match w(Dropping(p, Sweep)) {
      case Go =>
      case Unavailable(reached) => SweepPointsView(removed, p, reached, q);
      case Fail(reached) => SweepPointsView(removed, p, reached, q);
      case Stop(reached) => SweepPointsView(removed, p, reached, q);
    }
  }

  /** The row of a file whose vectors are about to change. */
  function Dirtied(row: Option<FileRow>): Option<FileRow> {
    if row.Some? then Some(row.value.(synced := false)) else None
  }

  /** A refreshed file has the rows of its content; marked in sync it also has the points, and only then may its
      tombstone have gone. */
  ghost predicate Refreshed(v: View, v': View, p: Path, content: string, commit: Commit, pieces: seq<Piece>) {
    && v'.row.Some? && v'.row.value == FileRow(Sha(content), commit, |pieces|, v'.row.value.synced)
    && Distinct(p, pieces)
    && v'.chunks == Rows(p, pieces, commit)
    && (v'.row.value.synced ==> v'.vectors == Points(p, pieces))
    && (v'.tombstone ==> v.tombstone)
    && (v.tombstone ==> v'.tombstone || v'.row.value.synced)
  }

  /** What an interrupted or failed refresh leaves: the old rows, no longer in sync, and unknown vectors. */
  ghost predicate HalfDone(v: View, v': View) {
    v'.row == Dirtied(v.row) && v'.chunks == v.chunks && v'.tombstone == v.tombstone
  }

  lemma CommitFileView(s: Store, p: Path, content: string, commit: Commit, pieces: seq<Piece>, synced: bool, w: Weather, q: Path)
    requires synced ==> ViewOf(s, p).vectors == Points(p, pieces)
    ensures var turn, v := CommitFile(s, p, content, commit, pieces, synced, w), ViewOf(s, q);
            var v' := ViewOf(turn.store, q);
            && turn.store.head == s.head && turn.store.ready == s.ready
            && (q != p ==> v' == v)
            && (q == p ==> v' == v || Refreshed(v, v', p, content, commit, pieces))
            && (q == p && turn.ending.Indexed? ==> Refreshed(v, v', p, content, commit, pieces))
  {
    hide ViewOf, Slice, Without, Rows, Points, Distinct;
    if Distinct(p, pieces) {
      ReplaceFileChunksView(s, p, Sha(content), commit, pieces, synced, q);
      FinishVectorDeletionView(ReplaceFileChunks(s, p, Sha(content), commit, pieces, synced).value, p, q);
    }
  }

  /** t is s with the vectors of p in some state and the row of p marked out of sync. */
  ghost predicate Staged(s: Store, t: Store, p: Path, q: Path) {
    && t.head == s.head && t.ready == s.ready
    && (q != p ==> ViewOf(t, q) == ViewOf(s, q))
    && (q == p ==> HalfDone(ViewOf(s, q), ViewOf(t, q)))
  }

  lemma DirtiedView(s: Store, p: Path, q: Path)
    ensures Staged(s, MarkVectorDirty(s, p), p, q)
  {
    hide ViewOf;
    MarkVectorDirtyView(s, p, q);
    assert MarkVectorDirty(s, p).head == s.head && MarkVectorDirty(s, p).ready == s.ready;
  }

  lemma SweptView(s: Store, p: Path, reached: set<ChunkId>, q: Path)
    ensures var dirty := MarkVectorDirty(s, p);
            Staged(s, dirty.(vectors := SweepPoints(dirty.vectors, p, reached)), p, q)
  {
    hide ViewOf, SweepPoints, MarkVectorDirty;
    DirtiedView(s, p, q);
    SweepPointsView(MarkVectorDirty(s, p), p, reached, q);
  }

  lemma UpsertedView(s: Store, p: Path, pieces: seq<Piece>, reached: set<ChunkId>, q: Path)
    ensures var dirty := MarkVectorDirty(s, p);
            var swept := dirty.(vectors := Without(dirty.vectors, p));
            && Staged(s, swept.(vectors := UpsertPoints(swept.vectors, Points(p, pieces), reached)), p, q)
            && Staged(s, swept.(vectors := swept.vectors + Points(p, pieces)), p, q)
            && (q == p ==> ViewOf(swept.(vectors := swept.vectors + Points(p, pieces)), q).vectors == Points(p, pieces))
  {
    hide ViewOf, Without, UpsertPoints, Points, MarkVectorDirty;
    var dirty := MarkVectorDirty(s, p);
    var swept := dirty.(vectors := Without(dirty.vectors, p));
    DirtiedView(s, p, q);
    WithoutPointsView(dirty, p, q);
    UpsertPointsView(swept, p, pieces, reached, q);
    UpsertAllView(swept, p, pieces, q);
  }

  lemma UpsertAllView(s: Store, p: Path, pieces: seq<Piece>, q: Path)
    requires q == p ==> ViewOf(s, q).vectors == map[]
    ensures ViewOf(s.(vectors := s.vectors + Points(p, pieces)), q) ==
            var v := ViewOf(s, q);
            if q == p then v.(vectors := Points(p, pieces)) else v
  {
    var points := Points(p, pieces);
    UpsertPointsView(s, p, pieces, points.Keys, q);
    assert UpsertPoints(s.vectors, points, points.Keys) == s.vectors + points;
    if q == p {
      assert UpsertPoints(map[], points, points.Keys) == points;
    }
  }

  lemma StagedCommit(s: Store, t: Store, p: Path, content: string, commit: Commit, pieces: seq<Piece>, synced: bool, w: Weather, q: Path)
    requires Staged(s, t, p, q) && (synced ==> ViewOf(t, p).vectors == Points(p, pieces))
    ensures ReindexOutcome(s, CommitFile(t, p, content, commit, pieces, synced, w), p, content, commit, pieces, q)
  {
    hide ViewOf, Rows, Points, Distinct, CommitFile;
    CommitFileView(t, p, content, commit, pieces, synced, w, q);
  }

  ghost predicate ReindexOutcome(s: Store, turn: Turn, p: Path, content: string, commit: Commit, pieces: seq<Piece>, q: Path) {
    var v, v' := ViewOf(s, q), ViewOf(turn.store, q);
    && turn.store.head == s.head && turn.store.ready == s.ready
    && (q != p ==> v' == v)
    && (q == p ==> v' == v || HalfDone(v, v') || Refreshed(v, v', p, content, commit, pieces))
    && (q == p && turn.ending.Indexed? ==> Refreshed(v, v', p, content, commit, pieces))
  }

  lemma ReindexFileView(s: Store, p: Path, content: string, commit: Commit, pieces: seq<Piece>, w: Weather, q: Path)
    ensures ReindexOutcome(s, ReindexFile(s, p, content, commit, pieces, w), p, content, commit, pieces, q)
  {
    hide ViewOf, Without, MarkVectorDirty, SweepPoints, UpsertPoints, Points, HalfDone, Refreshed, CommitFile;
    var dirty := MarkVectorDirty(s, p);
    var swept := dirty.(vectors := Without(dirty.vectors, p));
    var sweep, upsert := w(Syncing(p, Sweep)), w(Syncing(p, Upsert));
    var reached := if !sweep.Go? then sweep.reached else if !upsert.Go? then upsert.reached else {};
    SweptView(s, p, reached, q);
    SweptView(s, p, reached, p);
    UpsertedView(s, p, pieces, reached, q);
    UpsertedView(s, p, pieces, reached, p);
    StagedCommit(s, swept.(vectors := swept.vectors + Points(p, pieces)), p, content, commit, pieces, true, w, q);
    StagedCommit(s, dirty.(vectors := SweepPoints(dirty.vectors, p, reached)), p, content, commit, pieces, false, w, q);
    StagedCommit(s, swept.(vectors := UpsertPoints(swept.vectors, Points(p, pieces), reached)), p, content, commit, pieces, false, w, q);
  }

  /** Every way a file's turn in the file loop can leave its share of the store. */
  ghost predicate SyncOutcome(v: View, v': View, p: Path, content: string, skip: bool, commit: Commit, pieces: seq<Piece>) {
    || v' == v
    || (skip && v' == v.(row := if v.row.Some? then Some(v.row.value.(commit := commit)) else None,
                         chunks := Advanced(v.chunks, p, commit)))
    || (!skip && (HalfDone(v, v') || Refreshed(v, v', p, content, commit, pieces)))
  }

  lemma SyncFileView(chunker: Chunker, s: Store, p: Path, content: string, skip: bool, commit: Commit, w: Weather, q: Path)
    ensures var turn, v := SyncFile(chunker, s, p, content, skip, commit, w), ViewOf(s, q);
            var v' := ViewOf(turn.store, q);
            && turn.store.head == s.head && turn.store.ready == s.ready
            && (q != p ==> v' == v)
            && (q == p ==> SyncOutcome(v, v', p, content, skip, commit, chunker(p, content)))
            && (q == p && turn.ending.Indexed? ==> Refreshed(v, v', p, content, commit, chunker(p, content)))
  {
    hide ViewOf, Slice, Advanced, UpdateFileCommit, Rows, Points, ReindexFile, HalfDone, Refreshed;
    UpdateFileCommitView(s, p, commit, q);
    ReindexFileView(s, p, content, commit, chunker(p, content), w, q);
    assert UpdateFileCommit(s, p, commit).head == s.head && UpdateFileCommit(s, p, commit).ready == s.ready by {
      UpdateFileCommitHead(s, p, commit);
    }
  }

  lemma UpdateFileCommitHead(s: Store, p: Path, commit: Commit)
    ensures UpdateFileCommit(s, p, commit).head == s.head && UpdateFileCommit(s, p, commit).ready == s.ready
  {
  }

  // ---------- any weather ----------

  ghost predicate DropOutcome(v: View, v': View) {
    || v' == v
    || (v'.row.None? && v'.chunks == map[] && (v'.tombstone || v'.vectors == map[]))
  }

  lemma OutcomesKeepHealth(chunker: Chunker, v: View, v': View, p: Path, content: string, skip: bool, commit: Commit)
    requires Healthy(chunker, p, v)
    requires DropOutcome(v, v') || SyncOutcome(v, v', p, content, skip, commit, chunker(p, content))
    ensures Healthy(chunker, p, v')
  {
    if v.row.Some? {
      AdvancedRows(p, chunker(p, v.row.value.sha.content), v.row.value.commit, commit);
    } else {
      assert Advanced(v.chunks, p, commit) == map[];
    }
  }

  lemma DropFileSound(chunker: Chunker, s: Store, p: Path, w: Weather)
    requires Sound(chunker, s)
    ensures Sound(chunker, DropFile(s, p, w).store)
  {
    hide ViewOf, DropFile, Healthy;
    forall q: Path ensures Healthy(chunker, q, ViewOf(DropFile(s, p, w).store, q)) {
      DropFileView(s, p, q, w);
      OutcomesKeepHealth(chunker, ViewOf(s, q), ViewOf(DropFile(s, p, w).store, q), q, "", false, "");
    }
  }

  lemma SyncFileSound(chunker: Chunker, s: Store, p: Path, content: string, skip: bool, commit: Commit, w: Weather)
    requires Sound(chunker, s)
    ensures Sound(chunker, SyncFile(chunker, s, p, content, skip, commit, w).store)
  {
    hide ViewOf, SyncFile, Healthy, SyncOutcome;
    forall q: Path ensures Healthy(chunker, q, ViewOf(SyncFile(chunker, s, p, content, skip, commit, w).store, q)) {
      SyncFileView(chunker, s, p, content, skip, commit, w, q);
      assert Healthy(chunker, q, ViewOf(s, q));
      if q == p {
        var t := SyncFile(chunker, s, p, content, skip, commit, w).store;
        OutcomesKeepHealth(chunker, ViewOf(s, q), ViewOf(t, q), q, content, skip, commit);
      }
    }
  }

  lemma {:induction false} DropAllSound(chunker: Chunker, s: Store, stats: IndexStats, gone: seq<Path>, w: Weather)
    requires Sound(chunker, s)
    ensures Sound(chunker, DropAll(s, stats, gone, w).store)
    decreases |gone|
  {
    hide Sound, DropFile, Count;
    if gone != [] {
      DropFileSound(chunker, s, gone[0], w);
      var turn := DropFile(s, gone[0], w);
      DropAllSound(chunker, turn.store, Count(stats, turn.ending), gone[1..], w);
    }
  }

  lemma {:induction false} SyncAllSound(plan: Plan, s: Store, stats: IndexStats, order: seq<Path>, w: Weather)
    requires Sound(plan.chunker, s)
    requires forall p | p in order :: p in plan.tree
    ensures Sound(plan.chunker, SyncAll(plan, s, stats, order, w).store)
    decreases |order|
  {
    hide Sound, SyncFile, Count, MaySkip;
    if order != [] {
      var p := order[0];
      SyncFileSound(plan.chunker, s, p, plan.tree[p], plan.Skips(p), plan.commit, w);
      var turn := SyncFile(plan.chunker, s, p, plan.tree[p], plan.Skips(p), plan.commit, w);
      SyncAllSound(plan, turn.store, Count(stats, turn.ending), order[1..], w);
    }
  }

  lemma HeadIsNoShare(chunker: Chunker, s: Store, commit: Commit)
    requires Sound(chunker, s)
    ensures Sound(chunker, UpdateRepository(s, commit))
  {
    forall p: Path ensures Healthy(chunker, p, ViewOf(UpdateRepository(s, commit), p)) {
      assert ViewOf(UpdateRepository(s, commit), p) == ViewOf(s, p);
    }
  }

  /** Crash safety. Wherever a pass is cut, and however its calls fail on the way, the store stays healthy. */
  lemma PassKeepsHealth(chunker: Chunker, s: Store, tree: map<Path, string>, order: seq<Path>, gone: seq<Path>, mode: string,
                        commit: Commit, w: Weather)
    requires Sound(chunker, s) && Enumerates(order, tree.Keys) && Enumerates(gone, Doomed(s, tree))
    ensures Sound(chunker, Index(chunker, s, tree, order, gone, mode, commit, w).store)
  {
    hide Sound, DropAll, SyncAll, Doomed;
    var stats := NO_STATS;
    DropAllSound(chunker, s, stats, gone, w);
    var dropped := DropAll(s, stats, gone, w);
    var plan := PlanOf(chunker, s, tree, mode, commit);
    SyncAllSound(plan, dropped.store, dropped.stats, order, w);
    HeadIsNoShare(chunker, SyncAll(plan, dropped.store, dropped.stats, order, w).store, commit);
  }

  // ---------- repair debt ----------

  /** The store knows of every vector it may still hold for the file: through its row, or through a tombstone. */
  ghost predicate Accounted(v: View) {
    v.row.Some? || v.tombstone || v.vectors == map[]
  }

  /** A tombstone leaves a file's share only when its vectors are gone, or when its row is in sync with them. */
  lemma TombstoneIsPaid(chunker: Chunker, s: Store, p: Path, content: string, skip: bool, commit: Commit, w: Weather, q: Path)
    requires q in s.tombstones
    ensures var t := DropFile(s, p, w).store; q !in t.tombstones ==> ViewOf(t, q).row.None? && ViewOf(t, q).vectors == map[]
    ensures var t := SyncFile(chunker, s, p, content, skip, commit, w).store;
            q !in t.tombstones ==>
              q == p && q in t.files && t.files[q].synced && ViewOf(t, q).vectors == Points(q, chunker(q, content))
  {
    hide Slice, DropFile, SyncFile, Points, Rows;
    DropFileView(s, p, q, w);
    SyncFileView(chunker, s, p, content, skip, commit, w, q);
    assert ViewOf(s, q).tombstone;
  }

  lemma {:induction false} DropAllView(s: Store, stats: IndexStats, gone: seq<Path>, w: Weather, q: Path)
    ensures var v, v' := ViewOf(s, q), ViewOf(DropAll(s, stats, gone, w).store, q);
            DropOutcome(v, v') && (q !in gone ==> v' == v)
    ensures DropAll(s, stats, gone, w).store.head == s.head && DropAll(s, stats, gone, w).store.ready == s.ready
    decreases |gone|
  {
    hide ViewOf, DropFile, Count;
    if gone != [] {
      DropFileView(s, gone[0], q, w);
      DropFileHead(s, gone[0], w);
      var turn := DropFile(s, gone[0], w);
      DropAllView(turn.store, Count(stats, turn.ending), gone[1..], w, q);
      if q != gone[0] {
        DropFileFrame(s, gone[0], w);
      }
    }
  }

  lemma {:induction false} SyncAllFrame(plan: Plan, s: Store, stats: IndexStats, order: seq<Path>, w: Weather, q: Path)
    requires forall p | p in order :: p in plan.tree
    ensures var t := SyncAll(plan, s, stats, order, w).store;
            (q !in order ==> ViewOf(t, q) == ViewOf(s, q)) && t.head == s.head && t.ready == s.ready
    decreases |order|
  {
    hide ViewOf, SyncFile, Count, MaySkip, SyncOutcome, Refreshed;
    if order != [] {
      var p := order[0];
      SyncFileView(plan.chunker, s, p, plan.tree[p], plan.Skips(p), plan.commit, w, q);
      var turn := SyncFile(plan.chunker, s, p, plan.tree[p], plan.Skips(p), plan.commit, w);
      SyncAllFrame(plan, turn.store, Count(stats, turn.ending), order[1..], w, q);
    }
  }

  lemma HeadLeavesViews(s: Store, commit: Commit, p: Path)
    ensures ViewOf(UpdateRepository(s, commit), p) == ViewOf(s, p)
  {
  }

  /** Whatever happens during a pass, a file that is off disk stays accounted for until its vectors are gone; and vectors
      that no row and no tombstone accounts for are left alone. */
  lemma PassKeepsDebts(chunker: Chunker, s: Store, tree: map<Path, string>, order: seq<Path>, gone: seq<Path>, mode: string,
                       commit: Commit, w: Weather, p: Path)
    requires Enumerates(order, tree.Keys) && Enumerates(gone, Doomed(s, tree))
    requires p !in tree
    ensures var v, v' := ViewOf(s, p), ViewOf(Index(chunker, s, tree, order, gone, mode, commit, w).store, p);
            && DropOutcome(v, v')
            && (Accounted(v) ==> Accounted(v'))
            && (!Accounted(v) ==> v' == v)
  {
    hide DropAll, SyncAll, Slice;
    var stats := NO_STATS;
    DropAllView(s, stats, gone, w, p);
    var dropped := DropAll(s, stats, gone, w);
    var plan := PlanOf(chunker, s, tree, mode, commit);
    SyncAllFrame(plan, dropped.store, dropped.stats, order, w, p);
    HeadLeavesViews(SyncAll(plan, dropped.store, dropped.stats, order, w).store, commit, p);
  }

  // ---------- histories of passes ----------

  datatype Attempt = Attempt(tree: map<Path, string>, order: seq<Path>, gone: seq<Path>, mode: string, commit: Commit,
                             weather: Weather)

  /** t is what a series of passes, each over its own tree and cut anywhere, leaves of s. */
  ghost predicate Reached(chunker: Chunker, s: Store, history: seq<Attempt>, t: Store)
    decreases |history|
  {
    if history == [] then t == s
    else
      var a := history[0];
      && Enumerates(a.order, a.tree.Keys) && Enumerates(a.gone, Doomed(s, a.tree))
      && Reached(chunker, Index(chunker, s, a.tree, a.order, a.gone, a.mode, a.commit, a.weather).store, history[1..], t)
  }

  lemma {:induction false} HistoriesKeepHealth(chunker: Chunker, s: Store, history: seq<Attempt>, t: Store)
    requires Sound(chunker, s) && Reached(chunker, s, history, t)
    ensures Sound(chunker, t)
    decreases |history|
  {
    hide Sound, Index, Enumerates, Doomed;
    if history != [] {
      var a := history[0];
      PassKeepsHealth(chunker, s, a.tree, a.order, a.gone, a.mode, a.commit, a.weather);
      HistoriesKeepHealth(chunker, Index(chunker, s, a.tree, a.order, a.gone, a.mode, a.commit, a.weather).store, history[1..], t);
    }
  }

  lemma RegisteredIsSound(chunker: Chunker, head: Commit)
    ensures Sound(chunker, Registered(head)) && forall p: Path :: Accounted(ViewOf(Registered(head), p))
  {
    forall p: Path ensures ViewOf(Registered(head), p) == View(None, map[], false, map[]) {
      assert Slice(Registered(head).chunks, p) == map[];
      assert Slice(Registered(head).vectors, p) == map[];
    }
  }

  /** Unaccounted vectors can only belong to a path that some pass found on disk: an interrupted first insert. */
  lemma {:induction false} OrphansWereOnDisk(chunker: Chunker, s: Store, history: seq<Attempt>, t: Store, p: Path)
    requires Reached(chunker, s, history, t) && Accounted(ViewOf(s, p)) && !Accounted(ViewOf(t, p))
    ensures exists i :: 0 <= i < |history| && p in history[i].tree
    decreases |history|
  {
    hide Index, Enumerates, Doomed, Accounted, ViewOf, DropOutcome;
    if history != [] && p !in history[0].tree {
      var a := history[0];
      PassKeepsDebts(chunker, s, a.tree, a.order, a.gone, a.mode, a.commit, a.weather, p);
      OrphansWereOnDisk(chunker, Index(chunker, s, a.tree, a.order, a.gone, a.mode, a.commit, a.weather).store, history[1..], t, p);
      var i :| 0 <= i < |history[1..]| && p in history[1..][i].tree;
      assert p in history[i + 1].tree;
    }
  }
}
