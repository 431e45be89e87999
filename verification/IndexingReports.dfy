/** What the report of a pass says about it, in every mode and any weather, and how far a failure reaches. */
module IndexingReports {
  import opened Basics
  import opened IndexStore
  import opened Indexing
  import opened IndexingTheorems
  import opened IndexingConvergence

  /** The index has this very content of the file, vectors included, and no deletion of it is pending. */
  ghost predicate UpToDate(s: Store, p: Path, content: string) {
    p in s.files && s.files[p].sha == Sha(content) && s.files[p].synced && p !in s.tombstones
  }

  /** The files an incremental pass has no reason to touch; for a pass in any other mode there are none. */
  ghost function Unchanged(s: Store, tree: map<Path, string>, mode: string): set<Path> {
    set p | p in tree && mode == "incremental" && UpToDate(s, p, tree[p])
  }

  ghost function Readable(chunker: Chunker, tree: map<Path, string>): set<Path> {
    set p | p in tree && Distinct(p, chunker(p, tree[p]))
  }

  lemma SkippedExactlyWhen(chunker: Chunker, s: Store, tree: map<Path, string>, mode: string, commit: Commit)
    ensures forall p | p in tree :: PlanOf(chunker, s, tree, mode, commit).Skips(p) <==> p in Unchanged(s, tree, mode)
  {
  }

  // ---------- counting the files of a listing ----------

  ghost function Among(order: seq<Path>, files: set<Path>): nat
    decreases |order|
  {
    if order == [] then 0 else (if order[0] in files then 1 else 0) + Among(order[1..], files)
  }

  ghost function Listed(order: seq<Path>): set<Path> {
    set p | p in order
  }

  lemma {:induction false} AmongIsSize(order: seq<Path>, files: set<Path>)
    requires forall i, j :: 0 <= i < j < |order| ==> order[i] != order[j]
    ensures Among(order, files) == |Listed(order) * files| && |Listed(order)| == |order|
    decreases |order|
  {
    hide Listed;
    if order == [] {
      NothingListed(order);
    } else {
      ListedMore(order);
      AmongIsSize(order[1..], files);
      OneMore(Listed(order[1..]), order[0], files);
    }
  }

  lemma NothingListed(order: seq<Path>)
    requires order == []
    ensures Listed(order) == {}
  {
  }

  lemma ListedMore(order: seq<Path>)
    requires order != [] && forall i, j :: 0 <= i < j < |order| ==> order[i] != order[j]
    ensures Listed(order) == Listed(order[1..]) + {order[0]} && order[0] !in Listed(order[1..])
  {
    assert order == [order[0]] + order[1..];
  }

  lemma OneMore(listed: set<Path>, p: Path, files: set<Path>)
    requires p !in listed
    ensures |listed + {p}| == |listed| + 1
    ensures |(listed + {p}) * files| == |listed * files| + if p in files then 1 else 0
  {
    assert (listed + {p}) * files == if p in files then listed * files + {p} else listed * files;
  }

  lemma AmongEnumerated(order: seq<Path>, all: set<Path>, files: set<Path>)
    requires Enumerates(order, all) && files <= all
    ensures Among(order, files) == |files| && |order| == |all|
  {
    AmongIsSize(order, files);
    assert Listed(order) == all && all * files == files;
  }

  /** The chunks that cutting these files gives, all together. */
  ghost function Pieces(chunker: Chunker, tree: map<Path, string>, order: seq<Path>, files: set<Path>): nat
    requires forall p | p in order :: p in tree
    decreases |order|
  {
    if order == [] then 0
    else (if order[0] in files then |chunker(order[0], tree[order[0]])| else 0) + Pieces(chunker, tree, order[1..], files)
  }

  // ---------- reports in any weather ----------

  lemma SyncFileReports(chunker: Chunker, s: Store, p: Path, content: string, skip: bool, commit: Commit, w: Weather)
    ensures var ending := SyncFile(chunker, s, p, content, skip, commit, w).ending;
            && !ending.Deleted? && (ending.Skipped? ==> skip)
            && (ending.Indexed? ==> !skip && ending.chunks == |chunker(p, content)|)
  {
  }

  lemma DropFileReports(s: Store, p: Path, w: Weather)
    ensures DropFile(s, p, w).ending in {Deleted, Errored, Aborted}
  {
  }

  lemma {:induction false} DropAllReports(s: Store, stats: IndexStats, gone: seq<Path>, w: Weather)
    ensures var after := DropAll(s, stats, gone, w).stats;
            && after.skipped == stats.skipped && after.indexed == stats.indexed && after.chunks == stats.chunks
            && stats.deleted <= after.deleted <= stats.deleted + |gone|
    decreases |gone|
  {
    hide DropFile;
    if gone != [] {
      DropFileReports(s, gone[0], w);
      var turn := DropFile(s, gone[0], w);
      DropAllReports(turn.store, Count(stats, turn.ending), gone[1..], w);
    }
  }

  lemma {:induction false} SyncAllReports(plan: Plan, s: Store, stats: IndexStats, order: seq<Path>, w: Weather, skipped: set<Path>)
    requires forall p | p in order :: p in plan.tree && (plan.Skips(p) <==> p in skipped)
    ensures var after := SyncAll(plan, s, stats, order, w).stats;
            && after.deleted == stats.deleted
            && stats.skipped <= after.skipped <= stats.skipped + Among(order, skipped)
            && stats.indexed <= after.indexed <= stats.indexed + Among(order, plan.tree.Keys - skipped)
            && stats.chunks <= after.chunks <= stats.chunks + Pieces(plan.chunker, plan.tree, order, plan.tree.Keys - skipped)
    decreases |order|
  {
    hide SyncFile, MaySkip;
    if order != [] {
      var p := order[0];
      SyncFileReports(plan.chunker, s, p, plan.tree[p], plan.Skips(p), plan.commit, w);
      var turn := SyncFile(plan.chunker, s, p, plan.tree[p], plan.Skips(p), plan.commit, w);
      SyncAllReports(plan, turn.store, Count(stats, turn.ending), order[1..], w, skipped);
    }
  }

  /** Wherever a pass is cut and whatever fails: it counts as skipped only files that an incremental pass may skip, and as
      indexed only others, with their chunks. In any mode but 'incremental' it skips nothing. */
  lemma ReportsAreHonest(chunker: Chunker, s: Store, tree: map<Path, string>, order: seq<Path>, gone: seq<Path>, mode: string,
                         commit: Commit, w: Weather)
    requires Enumerates(order, tree.Keys) && Enumerates(gone, Doomed(s, tree))
    ensures var stats := Index(chunker, s, tree, order, gone, mode, commit, w).stats;
            && stats.skipped <= |Unchanged(s, tree, mode)|
            && stats.indexed <= |tree.Keys - Unchanged(s, tree, mode)|
            && stats.chunks <= Pieces(chunker, tree, order, tree.Keys - Unchanged(s, tree, mode))
            && stats.deleted <= |(s.files.Keys - tree.Keys) + s.tombstones|
            && (mode != "incremental" ==> stats.skipped == 0)
  {
    hide DropAll, SyncAll, MaySkip, Enumerates, Unchanged, Among, Pieces;
    var kept := Unchanged(s, tree, mode);
    var plan := PlanOf(chunker, s, tree, mode, commit);
    var dropped := DropAll(s, NO_STATS, gone, w);
    SkippedExactlyWhen(chunker, s, tree, mode, commit);
    ListedInTree(order, tree);
    KeptInTree(s, tree, mode);
    DropAllReports(s, NO_STATS, gone, w);
    SyncAllReports(plan, dropped.store, dropped.stats, order, w, kept);
    AmongEnumerated(order, tree.Keys, kept);
    AmongEnumerated(order, tree.Keys, tree.Keys - kept);
    AmongEnumerated(gone, Doomed(s, tree), {});
  }

  // ---------- the report of an undisturbed pass ----------

  lemma {:induction false} TalliedCounts(plan: Plan, stats: IndexStats, order: seq<Path>, skipped: set<Path>, readable: set<Path>)
    requires forall p | p in order ::
               p in plan.tree && (plan.Skips(p) <==> p in skipped) && (Distinct(p, plan.chunker(p, plan.tree[p])) <==> p in readable)
    ensures var after := Tallied(stats, plan, order);
            && after.deleted == stats.deleted
            && after.skipped == stats.skipped + Among(order, skipped)
            && after.indexed == stats.indexed + Among(order, readable - skipped)
            && after.errors == stats.errors + Among(order, plan.tree.Keys - readable - skipped)
            && after.chunks == stats.chunks + Pieces(plan.chunker, plan.tree, order, readable - skipped)
    decreases |order|
  {
    hide MaySkip, Distinct;
    if order != [] {
      var p := order[0];
      TalliedCounts(plan, Count(stats, CalmEnding(p, plan.Skips(p), plan.chunker(p, plan.tree[p]))), order[1..], skipped, readable);
    }
  }

  /** An undisturbed pass reports exactly: every doomed path as deleted; in incremental mode every file that the index has
      already as skipped; of the rest each file whose chunks can be stored as indexed, with its chunks, and the others as
      errors. */
  lemma CalmReport(chunker: Chunker, s: Store, tree: map<Path, string>, order: seq<Path>, gone: seq<Path>, mode: string,
                   commit: Commit, w: Weather)
    requires Calm(w) && Sound(chunker, s) && Enumerates(order, tree.Keys) && Enumerates(gone, Doomed(s, tree))
    ensures var stats := Index(chunker, s, tree, order, gone, mode, commit, w).stats;
            var kept, readable := Unchanged(s, tree, mode), Readable(chunker, tree);
            && stats.deleted == |(s.files.Keys - tree.Keys) + s.tombstones|
            && stats.skipped == |kept|
            && stats.indexed == |readable - kept|
            && stats.errors == |tree.Keys - readable - kept|
            && stats.chunks == Pieces(chunker, tree, order, readable - kept)
            && (mode != "incremental" ==> stats.skipped == 0 && stats.indexed + stats.errors == |tree|)
  {
    hide Index, Calm, Sound, Enumerates, MaySkip, Unchanged, Distinct, Tallied, Among, Pieces;
    var kept, readable := Unchanged(s, tree, mode), Readable(chunker, tree);
    var plan := PlanOf(chunker, s, tree, mode, commit);
    CalmPass(chunker, s, tree, order, gone, mode, commit, w, "");
    SkippedExactlyWhen(chunker, s, tree, mode, commit);
    ListedInTree(order, tree);
    KeptInTree(s, tree, mode);
    TalliedCounts(plan, IndexStats(0, 0, |gone|, 0, 0), order, kept, readable);
    Totals(order, tree, kept, readable);
    AmongEnumerated(gone, Doomed(s, tree), {});
  }

  lemma KeptInTree(s: Store, tree: map<Path, string>, mode: string)
    ensures Unchanged(s, tree, mode) <= tree.Keys && (mode != "incremental" ==> Unchanged(s, tree, mode) == {})
  {
  }

  lemma Totals(order: seq<Path>, tree: map<Path, string>, kept: set<Path>, readable: set<Path>)
    requires Enumerates(order, tree.Keys) && kept <= tree.Keys && readable <= tree.Keys
    ensures Among(order, kept) == |kept| && Among(order, readable - kept) == |readable - kept|
    ensures Among(order, tree.Keys - readable - kept) == |tree.Keys - readable - kept|
    ensures |kept| + |readable - kept| + |tree.Keys - readable - kept| == |tree|
  {
    hide Enumerates, Among;
    assert |tree| == |tree.Keys|;
    AmongEnumerated(order, tree.Keys, kept);
    AmongEnumerated(order, tree.Keys, readable - kept);
    AmongEnumerated(order, tree.Keys, tree.Keys - readable - kept);
    ThreeParts(tree.Keys, kept, readable);
  }

  lemma ThreeParts(all: set<Path>, a: set<Path>, b: set<Path>)
    requires a <= all && b <= all
    ensures |a| + |b - a| + |all - b - a| == |all|
  {
    var c, d := b - a, all - b - a;
    assert a + c + d == all && a !! c && (a + c) !! d;
    assert |a + c| == |a| + |c|;
    assert |a + c + d| == |a + c| + |d|;
  }

  // ---------- how far a failure reaches ----------

  lemma {:induction false} DropAllReaches(s: Store, stats: IndexStats, gone: seq<Path>, w: Weather, q: Path)
    requires CalmFor(w, q) && !DropAll(s, stats, gone, w).aborted
    requires forall i, j :: 0 <= i < j < |gone| ==> gone[i] != gone[j]
    ensures ViewOf(DropAll(s, stats, gone, w).store, q) == if q in gone then GONE else ViewOf(s, q)
    decreases |gone|
  {
    hide ViewOf, DropFile, Count;
    if gone != [] {
      var turn := DropFile(s, gone[0], w);
      DropFileView(s, gone[0], q, w);
      DropAllReaches(turn.store, Count(stats, turn.ending), gone[1..], w, q);
      if q != gone[0] {
        DropFileFrame(s, gone[0], w);
      } else {
        assert q !in gone[1..];
      }
    }
  }

  lemma {:induction false} SyncAllReaches(plan: Plan, s: Store, stats: IndexStats, order: seq<Path>, w: Weather, q: Path)
    requires forall p | p in order :: p in plan.tree
    requires forall i, j :: 0 <= i < j < |order| ==> order[i] != order[j]
    requires q in order && CalmFor(w, q) && Sound(plan.chunker, s) && Faithful(plan, s, q)
    requires !SyncAll(plan, s, stats, order, w).aborted
    ensures ViewOf(SyncAll(plan, s, stats, order, w).store, q)
            == Refresh(ViewOf(s, q), q, plan.tree[q], plan.commit, plan.chunker(q, plan.tree[q]))
    decreases |order|
  {
    hide Sound, SyncFile, Count, Refresh, Slice, SyncOutcome, Refreshed, CalmFor;
    var p := order[0];
    var skip := plan.Skips(p);
    var turn := SyncFile(plan.chunker, s, p, plan.tree[p], skip, plan.commit, w);
    if q == p {
      assert q !in order[1..];
      SoundAt(plan.chunker, s, p);
      CalmSync(plan.chunker, s, p, plan.tree[p], skip, plan.commit, w);
      SyncAllFrame(plan, turn.store, Count(stats, turn.ending), order[1..], w, q);
    } else {
      SyncFileView(plan.chunker, s, p, plan.tree[p], skip, plan.commit, w, q);
      SyncFileSound(plan.chunker, s, p, plan.tree[p], skip, plan.commit, w);
      SyncAllReaches(plan, turn.store, Count(stats, turn.ending), order[1..], w, q);
    }
  }

  /** A failure stays with its file. In any pass that is not cut, however many other files fail, a file whose own calls all
      succeed ends as in an undisturbed pass. */
  lemma FailuresStayLocal(chunker: Chunker, s: Store, tree: map<Path, string>, order: seq<Path>, gone: seq<Path>, mode: string,
                          commit: Commit, w: Weather, p: Path)
    requires Sound(chunker, s) && Enumerates(order, tree.Keys) && Enumerates(gone, Doomed(s, tree))
    requires CalmFor(w, p) && !Index(chunker, s, tree, order, gone, mode, commit, w).aborted
    ensures ViewOf(Index(chunker, s, tree, order, gone, mode, commit, w).store, p)
            == if p in tree then Refresh(AfterDeletions(s, tree, p), p, tree[p], commit, chunker(p, tree[p]))
               else AfterDeletions(s, tree, p)
  {
    hide Sound, CalmFor, DropAll, SyncAll, Slice, Refresh;
    var dropped := DropAll(s, NO_STATS, gone, w);
    var plan := PlanOf(chunker, s, tree, mode, commit);
    DropAllReaches(s, NO_STATS, gone, w, p);
    DropAllSound(chunker, s, NO_STATS, gone, w);
    if p in tree {
      SyncAllReaches(plan, dropped.store, dropped.stats, order, w, p);
    } else {
      SyncAllFrame(plan, dropped.store, dropped.stats, order, w, p);
    }
    HeadLeavesViews(SyncAll(plan, dropped.store, dropped.stats, order, w).store, commit, p);
  }

  /** Only the checks and reports between files and a stop end a pass; a call about a file that fails, or a service that is
      unavailable, does not. */
  ghost predicate Survivable(w: Weather) {
    && w(Opening).Go? && w(Closing).Go?
    && (forall p, spot :: spot in {Checkpoint, Report} ==> w(Dropping(p, spot)).Go? && w(Syncing(p, spot)).Go?)
    && (forall p, spot :: !w(Dropping(p, spot)).Stop? && !w(Syncing(p, spot)).Stop?)
  }

  lemma TurnsSurvive(chunker: Chunker, s: Store, p: Path, content: string, skip: bool, commit: Commit, w: Weather)
    requires Survivable(w)
    ensures !DropFile(s, p, w).ending.Aborted? && !SyncFile(chunker, s, p, content, skip, commit, w).ending.Aborted?
    ensures w(Dropping(p, Report)).Go? && w(Syncing(p, Report)).Go?
  {
    assert Checkpoint in {Checkpoint, Report} && Report in {Checkpoint, Report};
    assert w(Dropping(p, Checkpoint)).Go? && w(Syncing(p, Checkpoint)).Go?;
  }

  lemma {:induction false} DropAllSurvives(s: Store, stats: IndexStats, gone: seq<Path>, w: Weather)
    requires Survivable(w)
    ensures !DropAll(s, stats, gone, w).aborted
    decreases |gone|
  {
    hide Survivable, DropFile, SyncFile, Count;
    if gone != [] {
      TurnsSurvive((_, _) => [], s, gone[0], "", false, "", w);
      var turn := DropFile(s, gone[0], w);
      DropAllSurvives(turn.store, Count(stats, turn.ending), gone[1..], w);
    }
  }

  lemma {:induction false} SyncAllSurvives(plan: Plan, s: Store, stats: IndexStats, order: seq<Path>, w: Weather)
    requires Survivable(w) && forall p | p in order :: p in plan.tree
    ensures !SyncAll(plan, s, stats, order, w).aborted
    decreases |order|
  {
    hide Survivable, DropFile, SyncFile, Count, MaySkip;
    if order != [] {
      var p := order[0];
      TurnsSurvive(plan.chunker, s, p, plan.tree[p], plan.Skips(p), plan.commit, w);
      var turn := SyncFile(plan.chunker, s, p, plan.tree[p], plan.Skips(p), plan.commit, w);
      SyncAllSurvives(plan, turn.store, Count(stats, turn.ending), order[1..], w);
    }
  }

  /** So whatever fails file by file, the pass reaches its end, records its commit and accounts for every path. */
  lemma FailuresDoNotStopThePass(chunker: Chunker, s: Store, tree: map<Path, string>, order: seq<Path>, gone: seq<Path>,
                                 mode: string, commit: Commit, w: Weather)
    requires Survivable(w) && Enumerates(order, tree.Keys) && Enumerates(gone, Doomed(s, tree))
    ensures var pass := Index(chunker, s, tree, order, gone, mode, commit, w);
            && !pass.aborted && pass.store.head == commit && pass.store.ready
            && pass.stats.indexed + pass.stats.skipped + pass.stats.deleted + pass.stats.errors == |order| + |gone|
  {
    hide DropAll, SyncAll, Doomed;
    DropAllSurvives(s, NO_STATS, gone, w);
    var dropped := DropAll(s, NO_STATS, gone, w);
    SyncAllSurvives(PlanOf(chunker, s, tree, mode, commit), dropped.store, dropped.stats, order, w);
    CountersAddUp(chunker, s, tree, order, gone, mode, commit, w);
  }

  // ---------- which failures are errors ----------

  /** Deleting the path fails: in the database, in the vector store by anything but an outage, or when the tombstone goes. */
  ghost predicate DropFails(w: Weather, p: Path) {
    || !w(Dropping(p, Write)).Go?
    || w(Dropping(p, Sweep)).Fail?
    || (w(Dropping(p, Sweep)).Go? && w(Dropping(p, Finish)).Fail?)
  }

  /** Indexing the file fails: to be read, cut and embedded, to be stored, in the vector store by anything but an outage, or
      for its chunk ids. A file that is skipped can fail only to be read or to advance its commit. */
  ghost predicate SyncFails(w: Weather, p: Path, skip: bool, pieces: seq<Piece>) {
    || !w(Syncing(p, Hash)).Go? || !w(Syncing(p, Write)).Go?
    || (!skip &&
        (|| !w(Syncing(p, Embed)).Go? || !w(Syncing(p, Replace)).Go? || !Distinct(p, pieces)
         || w(Syncing(p, Sweep)).Fail?
         || (w(Syncing(p, Sweep)).Go? && w(Syncing(p, Upsert)).Fail?)
         || (w(Syncing(p, Sweep)).Go? && w(Syncing(p, Upsert)).Go? && !w(Syncing(p, Finish)).Go?)))
  }

  lemma DropEnding(s: Store, p: Path, w: Weather)
    requires Survivable(w)
    ensures DropFile(s, p, w).ending == if DropFails(w, p) then Errored else Deleted
    ensures w(Dropping(p, Report)).Go?
  {
    hide DeleteFile, Without, SweepPoints;
    SurvivesAt(w, p);
  }

  lemma SurvivesAt(w: Weather, p: Path)
    requires Survivable(w)
    ensures w(Dropping(p, Checkpoint)).Go? && w(Syncing(p, Checkpoint)).Go?
    ensures w(Dropping(p, Report)).Go? && w(Syncing(p, Report)).Go?
    ensures forall spot :: !w(Dropping(p, spot)).Stop? && !w(Syncing(p, spot)).Stop?
  {
    assert Checkpoint in {Checkpoint, Report} && Report in {Checkpoint, Report};
  }

  lemma SyncEnding(chunker: Chunker, s: Store, p: Path, content: string, skip: bool, commit: Commit, w: Weather)
    requires Survivable(w)
    ensures SyncFile(chunker, s, p, content, skip, commit, w).ending
            == if SyncFails(w, p, skip, chunker(p, content)) then Errored else if skip then Skipped else Indexed(|chunker(p, content)|)
    ensures w(Syncing(p, Report)).Go?
  {
    hide MarkVectorDirty, Without, SweepPoints, UpsertPoints, Points, Rows, Distinct, FinishVectorDeletion, UpdateFileCommit;
    SurvivesAt(w, p);
  }

  ghost function FailedDrops(w: Weather, paths: set<Path>): set<Path> {
    set p | p in paths && DropFails(w, p)
  }

  ghost function FailedSyncs(chunker: Chunker, s: Store, tree: map<Path, string>, mode: string, w: Weather): set<Path> {
    set p | p in tree && SyncFails(w, p, p in Unchanged(s, tree, mode), chunker(p, tree[p]))
  }

  lemma {:induction false} DropEndings(s: Store, stats: IndexStats, gone: seq<Path>, w: Weather, all: set<Path>)
    requires Survivable(w) && forall p | p in gone :: p in all
    ensures DropAll(s, stats, gone, w).stats
            == stats.(deleted := stats.deleted + Among(gone, all - FailedDrops(w, all)),
                      errors := stats.errors + Among(gone, FailedDrops(w, all)))
    decreases |gone|
  {
    hide DropFile, Survivable, DropFails;
    if gone != [] {
      DropEnding(s, gone[0], w);
      var turn := DropFile(s, gone[0], w);
      DropEndings(turn.store, Count(stats, turn.ending), gone[1..], w, all);
    }
  }

  lemma {:induction false} SyncEndings(plan: Plan, s: Store, stats: IndexStats, order: seq<Path>, w: Weather, skipped: set<Path>,
                                       failed: set<Path>)
    requires Survivable(w)
    requires forall p | p in order ::
               && p in plan.tree && (plan.Skips(p) <==> p in skipped)
               && (SyncFails(w, p, p in skipped, plan.chunker(p, plan.tree[p])) <==> p in failed)
    ensures var after := SyncAll(plan, s, stats, order, w).stats;
            && after.deleted == stats.deleted
            && after.errors == stats.errors + Among(order, failed)
            && after.skipped == stats.skipped + Among(order, skipped - failed)
            && after.indexed == stats.indexed + Among(order, plan.tree.Keys - skipped - failed)
            && after.chunks == stats.chunks + Pieces(plan.chunker, plan.tree, order, plan.tree.Keys - skipped - failed)
    decreases |order|
  {
    hide SyncFile, MaySkip, Survivable, SyncFails;
    if order != [] {
      var p := order[0];
      SyncEnding(plan.chunker, s, p, plan.tree[p], plan.Skips(p), plan.commit, w);
      var turn := SyncFile(plan.chunker, s, p, plan.tree[p], plan.Skips(p), plan.commit, w);
      SyncEndings(plan, turn.store, Count(stats, turn.ending), order[1..], w, skipped, failed);
    }
  }

  /** The exact report of every pass that nothing stops: each path that fails is one error and nothing else; of the others the
      doomed ones are deleted, the unchanged ones of an incremental pass skipped, and the rest indexed with their chunks. */
  lemma SurvivingReport(chunker: Chunker, s: Store, tree: map<Path, string>, order: seq<Path>, gone: seq<Path>, mode: string,
                        commit: Commit, w: Weather)
    requires Survivable(w) && Enumerates(order, tree.Keys) && Enumerates(gone, Doomed(s, tree))
    ensures var stats := Index(chunker, s, tree, order, gone, mode, commit, w).stats;
            var drops, syncs := FailedDrops(w, Doomed(s, tree)), FailedSyncs(chunker, s, tree, mode, w);
            var same := Unchanged(s, tree, mode);
            && stats.deleted == |Doomed(s, tree) - drops|
            && stats.errors == |drops| + |syncs|
            && stats.skipped == |same - syncs|
            && stats.indexed == |tree.Keys - same - syncs|
            && stats.chunks == Pieces(chunker, tree, order, tree.Keys - same - syncs)
  {
    hide DropAll, SyncAll, MaySkip, Enumerates, Unchanged, Among, Pieces, Doomed, DropFails, SyncFails, Survivable;
    var all := Doomed(s, tree);
    var drops, syncs := FailedDrops(w, all), FailedSyncs(chunker, s, tree, mode, w);
    var same := Unchanged(s, tree, mode);
    var plan := PlanOf(chunker, s, tree, mode, commit);
    var dropped := DropAll(s, NO_STATS, gone, w);
    SkippedExactlyWhen(chunker, s, tree, mode, commit);
    ListedInTree(order, tree);
    KeptInTree(s, tree, mode);
    ListedIn(gone, all);
    DropEndings(s, NO_STATS, gone, w, all);
    DropAllSurvives(s, NO_STATS, gone, w);
    SyncEndings(plan, dropped.store, dropped.stats, order, w, same, syncs);
    assert w(Opening).Go? by { SurvivesOpening(w); }
    AmongEnumerated(gone, all, drops);
    AmongEnumerated(gone, all, all - drops);
    AmongEnumerated(order, tree.Keys, syncs);
    AmongEnumerated(order, tree.Keys, same - syncs);
    AmongEnumerated(order, tree.Keys, tree.Keys - same - syncs);
  }

  lemma ListedIn(xs: seq<Path>, all: set<Path>)
    requires Enumerates(xs, all)
    ensures forall p | p in xs :: p in all
  {
  }

  lemma SurvivesOpening(w: Weather)
    requires Survivable(w)
    ensures w(Opening).Go?
  {
  }

  // ---------- an outage of the vector store ----------

  /** Nothing goes wrong but that the vector store may be unavailable, each time after any part of its work. */
  ghost predicate OnlyOutages(w: Weather) {
    && w(Opening).Go? && w(Closing).Go?
    && (forall p, spot :: w(Dropping(p, spot)).Go? || (spot in {Sweep, Finish} && w(Dropping(p, spot)).Unavailable?))
    && (forall p, spot :: w(Syncing(p, spot)).Go? || (spot in {Sweep, Upsert} && w(Syncing(p, spot)).Unavailable?))
  }

  /** The part of a file's share that lexical search reads: its row, in sync or not, and its chunks. */
  function Lexical(v: View): View {
    View(if v.row.Some? then Some(v.row.value.(synced := false)) else None, v.chunks, false, map[])
  }

  lemma OutageDrop(s: Store, p: Path, w: Weather)
    requires OnlyOutages(w)
    ensures var turn := DropFile(s, p, w);
            turn.ending == Deleted && Lexical(ViewOf(turn.store, p)) == GONE && w(Dropping(p, Report)).Go?
  {
    hide ViewOf, Slice, Without, SweepPoints;
    var removed := DeleteFile(s, p);
    var swept := removed.(vectors := Without(removed.vectors, p));
    DeleteFileView(s, p, p);
    WithoutPointsView(removed, p, p);
    FinishVectorDeletionView(swept, p, p);
    assert w(Dropping(p, Checkpoint)).Go? && w(Dropping(p, Write)).Go? && w(Dropping(p, Report)).Go?;
    if w(Dropping(p, Sweep)).Unavailable? {
      SweepPointsView(removed, p, w(Dropping(p, Sweep)).reached, p);
    }
  }

  lemma OutageCommit(s: Store, p: Path, content: string, commit: Commit, pieces: seq<Piece>, synced: bool, w: Weather)
    requires OnlyOutages(w)
    ensures var turn := CommitFile(s, p, content, commit, pieces, synced, w);
            && turn.ending == CalmEnding(p, false, pieces)
            && Lexical(ViewOf(turn.store, p))
               == if Distinct(p, pieces) then Lexical(Canonical(p, content, commit, pieces)) else Lexical(ViewOf(s, p))
  {
    hide ViewOf, Slice, Rows, Points, Distinct;
    assert w(Syncing(p, Replace)).Go? && w(Syncing(p, Finish)).Go?;
    if Distinct(p, pieces) {
      ReplaceFileChunksView(s, p, Sha(content), commit, pieces, synced, p);
      FinishVectorDeletionView(ReplaceFileChunks(s, p, Sha(content), commit, pieces, synced).value, p, p);
    }
  }

  lemma OutageSync(chunker: Chunker, s: Store, p: Path, content: string, skip: bool, commit: Commit, w: Weather)
    requires OnlyOutages(w) && Healthy(chunker, p, ViewOf(s, p))
    requires skip ==> p in s.files && s.files[p].sha == Sha(content) && s.files[p].synced && p !in s.tombstones
    ensures var turn := SyncFile(chunker, s, p, content, skip, commit, w);
            && turn.ending == CalmEnding(p, skip, chunker(p, content)) && w(Syncing(p, Report)).Go?
            && Lexical(ViewOf(turn.store, p)) == Lexical(Refresh(ViewOf(s, p), p, content, commit, chunker(p, content)))
  {
    hide Slice, Advanced, UpdateFileCommit, Distinct, Rows, Points, CommitFile, Without, SweepPoints, UpsertPoints, MarkVectorDirty;
    assert w(Syncing(p, Checkpoint)).Go? && w(Syncing(p, Hash)).Go? && w(Syncing(p, Write)).Go? && w(Syncing(p, Embed)).Go?
           && w(Syncing(p, Report)).Go?;
    if skip {
      UpdateFileCommitView(s, p, commit, p);
      AdvancedRows(p, chunker(p, content), s.files[p].commit, commit);
    } else {
      OutageReindex(s, p, content, commit, chunker(p, content), w);
    }
  }

  lemma OutageReindex(s: Store, p: Path, content: string, commit: Commit, pieces: seq<Piece>, w: Weather)
    requires OnlyOutages(w)
    ensures var turn := ReindexFile(s, p, content, commit, pieces, w);
            && turn.ending == CalmEnding(p, false, pieces)
            && Lexical(ViewOf(turn.store, p)) == Lexical(Refresh(ViewOf(s, p), p, content, commit, pieces))
  {
    hide ViewOf, Slice, Distinct, Rows, Points, CommitFile, Without, SweepPoints, UpsertPoints, MarkVectorDirty;
    var dirty := MarkVectorDirty(s, p);
    var swept := dirty.(vectors := Without(dirty.vectors, p));
    var sweep, upsert := w(Syncing(p, Sweep)), w(Syncing(p, Upsert));
    assert w(Syncing(p, Write)).Go?;
    MarkVectorDirtyView(s, p, p);
    WithoutPointsView(dirty, p, p);
    if sweep.Unavailable? {
      SweepPointsView(dirty, p, sweep.reached, p);
      OutageCommit(dirty.(vectors := SweepPoints(dirty.vectors, p, sweep.reached)), p, content, commit, pieces, false, w);
    } else if upsert.Unavailable? {
      UpsertPointsView(swept, p, pieces, upsert.reached, p);
      OutageCommit(swept.(vectors := UpsertPoints(swept.vectors, Points(p, pieces), upsert.reached)), p, content, commit, pieces, false, w);
    } else {
      UpsertAllView(swept, p, pieces, p);
      OutageCommit(swept.(vectors := swept.vectors + Points(p, pieces)), p, content, commit, pieces, true, w);
    }
  }

  lemma {:induction false} OutageDropAll(s: Store, stats: IndexStats, gone: seq<Path>, w: Weather, q: Path)
    requires OnlyOutages(w)
    ensures var pass := DropAll(s, stats, gone, w);
            && !pass.aborted && pass.stats == stats.(deleted := stats.deleted + |gone|)
            && (if q in gone then Lexical(ViewOf(pass.store, q)) == GONE else ViewOf(pass.store, q) == ViewOf(s, q))
    decreases |gone|
  {
    hide ViewOf, DropFile, OnlyOutages, Lexical;
    if gone != [] {
      var turn := DropFile(s, gone[0], w);
      OutageDrop(s, gone[0], w);
      OutageDropAll(turn.store, Count(stats, turn.ending), gone[1..], w, q);
      if q != gone[0] {
        DropFileFrame(s, gone[0], w);
      }
    }
  }

  lemma {:induction false} OutageSyncAll(plan: Plan, s: Store, stats: IndexStats, order: seq<Path>, w: Weather, q: Path)
    requires OnlyOutages(w) && Sound(plan.chunker, s)
    requires forall p | p in order :: p in plan.tree && Faithful(plan, s, p)
    requires forall i, j :: 0 <= i < j < |order| ==> order[i] != order[j]
    ensures var pass := SyncAll(plan, s, stats, order, w);
            && !pass.aborted && pass.stats == Tallied(stats, plan, order)
            && (q in order ==>
                  Lexical(ViewOf(pass.store, q))
                  == Lexical(Refresh(ViewOf(s, q), q, plan.tree[q], plan.commit, plan.chunker(q, plan.tree[q]))))
            && (q !in order ==> ViewOf(pass.store, q) == ViewOf(s, q))
    decreases |order|
  {
    hide Sound, SyncFile, Count, Refresh, Slice, SyncOutcome, Refreshed, OnlyOutages, Lexical;
    if order != [] {
      var p := order[0];
      var skip := plan.Skips(p);
      assert Faithful(plan, s, p);
      SoundAt(plan.chunker, s, p);
      OutageSync(plan.chunker, s, p, plan.tree[p], skip, plan.commit, w);
      SyncFileSound(plan.chunker, s, p, plan.tree[p], skip, plan.commit, w);
      SyncFileView(plan.chunker, s, p, plan.tree[p], skip, plan.commit, w, q);
      var turn := SyncFile(plan.chunker, s, p, plan.tree[p], skip, plan.commit, w);
      forall r | r in order[1..] ensures r in plan.tree && Faithful(plan, turn.store, r) {
        assert Faithful(plan, s, r);
        SyncFileView(plan.chunker, s, p, plan.tree[p], skip, plan.commit, w, r);
      }
      OutageSyncAll(plan, turn.store, Count(stats, turn.ending), order[1..], w, q);
    }
  }

  /** Whether chunks can be stored, and what is stored for lexical search, is settled before the vector store comes in. */
  lemma RefreshedLexically(v: View, v': View, p: Path, content: string, commit: Commit, pieces: seq<Piece>)
    requires Lexical(v) == Lexical(v')
    ensures Lexical(Refresh(v, p, content, commit, pieces)) == Lexical(Refresh(v', p, content, commit, pieces))
  {
    hide Rows, Points, Distinct;
  }

  /** An outage costs vectors and nothing else. However often the vector store is unavailable during a pass, and however much
      of each call it carries out, the pass reports what an undisturbed one reports, and leaves the same rows, but for their
      mark of being in sync, and the same chunks, so lexical search finds the same. */
  lemma OutageCostsOnlyVectors(chunker: Chunker, s: Store, tree: map<Path, string>, order: seq<Path>, gone: seq<Path>, mode: string,
                               commit: Commit, w: Weather, calm: Weather, p: Path)
    requires OnlyOutages(w) && Calm(calm) && Sound(chunker, s)
    requires Enumerates(order, tree.Keys) && Enumerates(gone, Doomed(s, tree))
    ensures var pass := Index(chunker, s, tree, order, gone, mode, commit, w);
            var undisturbed := Index(chunker, s, tree, order, gone, mode, commit, calm);
            && !pass.aborted && pass.stats == undisturbed.stats
            && pass.store.head == undisturbed.store.head && pass.store.ready == undisturbed.store.ready
            && Lexical(ViewOf(pass.store, p)) == Lexical(ViewOf(undisturbed.store, p))
  {
    hide Sound, Calm, DropAll, SyncAll, Slice, Refresh, Tallied, Lexical;
    var dropped := DropAll(s, NO_STATS, gone, w);
    var plan := PlanOf(chunker, s, tree, mode, commit);
    CalmPass(chunker, s, tree, order, gone, mode, commit, calm, p);
    OutageDropAll(s, NO_STATS, gone, w, p);
    DropAllSound(chunker, s, NO_STATS, gone, w);
    forall r | r in order ensures r in tree && Faithful(plan, dropped.store, r) {
      OutageDropAll(s, NO_STATS, gone, w, r);
    }
    OutageSyncAll(plan, dropped.store, dropped.stats, order, w, p);
    LexicallyGone();
    if p in tree {
      RefreshedLexically(ViewOf(dropped.store, p), AfterDeletions(s, tree, p), p, tree[p], commit, chunker(p, tree[p]));
    }
    HeadLeavesViews(SyncAll(plan, dropped.store, dropped.stats, order, w).store, commit, p);
  }

  lemma LexicallyGone()
    ensures Lexical(GONE) == GONE
  {
  }
}
