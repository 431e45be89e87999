/**
 RepositoryIndexer.index as a function of the store it finds, the tree on disk and the way each of its calls ends.
 */
module Indexing {
  import opened IndexStore

  /** Decoding, parsing and cutting one file: a fixed function of its path and content. */
  type Chunker = (Path, string) -> seq<Piece>

  /** How the boundary check and the call at one point end: they succeed, or raise ProviderUnavailable, or raise some
      other exception, or the pass ends there (a crash, a lost lease or a cancellation). A vector store call that does
      not succeed may still have reached the points in reached; a SQLite transaction that does not succeed has no effect. */
  datatype Signal = Go | Unavailable(reached: set<ChunkId>) | Fail(reached: set<ChunkId>) | Stop(reached: set<ChunkId>)

  /** The calls made for one file, in program order. */
  datatype Spot = Checkpoint | Hash | Embed | Write | Sweep | Upsert | Replace | Finish | Report

  datatype Point = Opening | Dropping(path: Path, spot: Spot) | Syncing(path: Path, spot: Spot) | Closing

  type Weather = Point -> Signal

  datatype Ending = Deleted | Skipped | Indexed(chunks: nat) | Errored | Aborted

  datatype Turn = Turn(store: Store, ending: Ending)

  /** The counters of a pass; its announced total is kept apart. */
  datatype IndexStats = IndexStats(indexed: nat, chunks: nat, deleted: nat, skipped: nat, errors: nat)

  const NO_STATS := IndexStats(0, 0, 0, 0, 0)

  datatype Pass = Pass(store: Store, stats: IndexStats, aborted: bool)

  /** A raise that the inner ProviderUnavailable handler does not see: a file error, unless it ends the pass. */
  function Broken(signal: Signal): Ending {
    if signal.Stop? then Aborted else Errored
  }

  // ---------- the deletion loop ----------

  function DropFile(s: Store, p: Path, w: Weather): Turn {
    if !w(Dropping(p, Checkpoint)).Go? then Turn(s, Aborted)
    else if !w(Dropping(p, Write)).Go? then Turn(s, Broken(w(Dropping(p, Write))))
    else
      var removed := DeleteFile(s, p);
      match w(Dropping(p, Sweep))
      case Unavailable(reached) => Turn(removed.(vectors := SweepPoints(removed.vectors, p, reached)), Deleted)
      case Fail(reached) => Turn(removed.(vectors := SweepPoints(removed.vectors, p, reached)), Errored)
      case Stop(reached) => Turn(removed.(vectors := SweepPoints(removed.vectors, p, reached)), Aborted)
      case Go =>
        var swept := removed.(vectors := Without(removed.vectors, p));
        match w(Dropping(p, Finish))
        case Go => Turn(FinishVectorDeletion(swept, p), Deleted)
        case Unavailable(_) => Turn(swept, Deleted)
        case Fail(_) => Turn(swept, Errored)
        case Stop(_) => Turn(swept, Aborted)
  }

  // ---------- the file loop ----------

  predicate MaySkip(mode: string, manifest: map<Path, FileRow>, deleted: set<Path>, p: Path, content: string) {
    mode == "incremental" && p in manifest && manifest[p].sha == Sha(content) && manifest[p].synced && p !in deleted
  }

  /** Everything after the vector store: the replacement and, when the vectors are in sync, the tombstone. */
  function CommitFile(s: Store, p: Path, content: string, commit: Commit, pieces: seq<Piece>, synced: bool, w: Weather): Turn {
    if !w(Syncing(p, Replace)).Go? then Turn(s, Broken(w(Syncing(p, Replace))))
    else
      match ReplaceFileChunks(s, p, Sha(content), commit, pieces, synced)
      case None => Turn(s, Errored)
      case Some(replaced) =>
        if !synced then Turn(replaced, Indexed(|pieces|))
        else if !w(Syncing(p, Finish)).Go? then Turn(replaced, Broken(w(Syncing(p, Finish))))
        else Turn(FinishVectorDeletion(replaced, p), Indexed(|pieces|))
  }

  function ReindexFile(s: Store, p: Path, content: string, commit: Commit, pieces: seq<Piece>, w: Weather): Turn {
    if !w(Syncing(p, Write)).Go? then Turn(s, Broken(w(Syncing(p, Write))))
    else
      var dirty := MarkVectorDirty(s, p);
      match w(Syncing(p, Sweep))
      case Unavailable(reached) =>
        CommitFile(dirty.(vectors := SweepPoints(dirty.vectors, p, reached)), p, content, commit, pieces, false, w)
      case Fail(reached) => Turn(dirty.(vectors := SweepPoints(dirty.vectors, p, reached)), Errored)
      case Stop(reached) => Turn(dirty.(vectors := SweepPoints(dirty.vectors, p, reached)), Aborted)
      case Go =>
        var swept := dirty.(vectors := Without(dirty.vectors, p));
        var points := Points(p, pieces);
        match w(Syncing(p, Upsert))
        case Go => CommitFile(swept.(vectors := swept.vectors + points), p, content, commit, pieces, true, w)
        case Unavailable(reached) =>
          CommitFile(swept.(vectors := UpsertPoints(swept.vectors, points, reached)), p, content, commit, pieces, false, w)
        case Fail(reached) => Turn(swept.(vectors := UpsertPoints(swept.vectors, points, reached)), Errored)
        case Stop(reached) => Turn(swept.(vectors := UpsertPoints(swept.vectors, points, reached)), Aborted)
  }

  function SyncFile(chunker: Chunker, s: Store, p: Path, content: string, skip: bool, commit: Commit, w: Weather): Turn {
    if !w(Syncing(p, Checkpoint)).Go? then Turn(s, Aborted)
    else if !w(Syncing(p, Hash)).Go? then Turn(s, Broken(w(Syncing(p, Hash))))
    else if skip then
      if !w(Syncing(p, Write)).Go? then Turn(s, Broken(w(Syncing(p, Write))))
      else Turn(UpdateFileCommit(s, p, commit), Skipped)
    else if !w(Syncing(p, Embed)).Go? then Turn(s, Broken(w(Syncing(p, Embed))))
    else ReindexFile(s, p, content, commit, chunker(p, content), w)
  }

  // ---------- the pass ----------

  function Count(stats: IndexStats, ending: Ending): IndexStats {
    match ending
    case Deleted => stats.(deleted := stats.deleted + 1)
    case Skipped => stats.(skipped := stats.skipped + 1)
    case Indexed(n) => stats.(indexed := stats.indexed + 1, chunks := stats.chunks + n)
    case Errored => stats.(errors := stats.errors + 1)
    case Aborted => stats
  }

  /** Reporting progress ends the pass when it raises, whatever it raises. */
  function DropAll(s: Store, stats: IndexStats, gone: seq<Path>, w: Weather): Pass
    decreases |gone|
  {
    if gone == [] then Pass(s, stats, false)
    else
      var turn := DropFile(s, gone[0], w);
      var counted := Count(stats, turn.ending);
      if turn.ending.Aborted? || !w(Dropping(gone[0], Report)).Go? then Pass(turn.store, counted, true)
      else DropAll(turn.store, counted, gone[1..], w)
  }

  /** What a pass decides on before its first write: the tree, the manifest it read, the paths it deletes, mode, commit. */
  datatype Plan = Plan(chunker: Chunker, tree: map<Path, string>, manifest: map<Path, FileRow>, deleted: set<Path>,
                       mode: string, commit: Commit)
  {
    predicate Skips(p: Path)
      requires p in tree
    {
      MaySkip(mode, manifest, deleted, p, tree[p])
    }
  }

  function SyncAll(plan: Plan, s: Store, stats: IndexStats, order: seq<Path>, w: Weather): Pass
    requires forall p | p in order :: p in plan.tree
    decreases |order|
  {
    if order == [] then Pass(s, stats, false)
    else
      var p := order[0];
      var turn := SyncFile(plan.chunker, s, p, plan.tree[p], plan.Skips(p), plan.commit, w);
      var counted := Count(stats, turn.ending);
      if turn.ending.Aborted? || !w(Syncing(p, Report)).Go? then Pass(turn.store, counted, true)
      else SyncAll(plan, turn.store, counted, order[1..], w)
  }

  /** xs lists the elements of a set, each once. */
  ghost predicate Enumerates(xs: seq<Path>, elements: set<Path>) {
    && (forall i, j :: 0 <= i < j < |xs| ==> xs[i] != xs[j])
    && (forall p :: p in xs <==> p in elements)
  }

  /** The paths a pass deletes: manifest rows no longer on disk, and every pending vector deletion. */
  function Doomed(s: Store, tree: map<Path, string>): set<Path> {
    (s.files.Keys - tree.Keys) + s.tombstones
  }

  function PlanOf(chunker: Chunker, s: Store, tree: map<Path, string>, mode: string, commit: Commit): Plan {
    Plan(chunker, tree, s.files, Doomed(s, tree), mode, commit)
  }

  /** gone and order are the orders in which the two loops visit their paths. */
  function Index(chunker: Chunker, s: Store, tree: map<Path, string>, order: seq<Path>, gone: seq<Path>, mode: string,
                 commit: Commit, w: Weather): Pass
    requires Enumerates(order, tree.Keys) && Enumerates(gone, Doomed(s, tree))
  {
    var stats := NO_STATS;
    if !w(Opening).Go? then Pass(s, stats, true)
    else
      var dropped := DropAll(s, stats, gone, w);
      if dropped.aborted then dropped
      else
        var synced := SyncAll(PlanOf(chunker, s, tree, mode, commit), dropped.store, dropped.stats, order, w);
        if synced.aborted then synced
        else if !w(Closing).Go? then synced.(aborted := true)
        else synced.(store := UpdateRepository(synced.store, commit))
  }
}
