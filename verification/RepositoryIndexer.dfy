/** Database, VectorStore and RepositoryIndexer, statement by statement, against the functions of Indexing. */
module IndexerProgram {
  import opened IndexStore
  import opened Indexing
  import opened IndexingConvergence
  import IndexingReports

  /** The SQLite tables of one repository. Each method is one transaction. */
  class Database {
    var files: map<Path, FileRow>
    var chunks: map<ChunkId, ChunkRow>
    var tombstones: set<Path>
    var head: Commit
    var ready: bool

    constructor (head: Commit)
      ensures Tables(map[]) == Registered(head)
    {
      files, chunks, tombstones := map[], map[], {};
      this.head, ready := head, false;
    }

    /** The store these tables form with the given points. */
    ghost function Tables(vectors: map<ChunkId, Vector>): Store
      reads this
    {
      Store(files, chunks, tombstones, head, ready, vectors)
    }

    method MarkVectorDirty(p: Path)
      modifies this`files
      ensures forall v :: Tables(v) == IndexStore.MarkVectorDirty(old(Tables(v)), p)
    {
      if p in files {
        files := files[p := files[p].(synced := false)];
      }
    }

    method DeleteFile(p: Path)
      modifies this`files, this`chunks, this`tombstones
      ensures forall v :: Tables(v) == IndexStore.DeleteFile(old(Tables(v)), p)
    {
      tombstones := tombstones + {p};
      chunks := Without(chunks, p);
      files := files - {p};
    }

    method FinishVectorDeletion(p: Path)
      modifies this`tombstones
      ensures forall v :: Tables(v) == IndexStore.FinishVectorDeletion(old(Tables(v)), p)
    {
      tombstones := tombstones - {p};
    }

    method UpdateFileCommit(p: Path, commit: Commit)
      modifies this`files, this`chunks
      ensures forall v :: Tables(v) == IndexStore.UpdateFileCommit(old(Tables(v)), p, commit)
    {
      if p in files {
        files := files[p := files[p].(commit := commit)];
      }
      chunks := Advanced(chunks, p, commit);
    }

    /** Deletes the file's rows and inserts the new ones. Inserting an id twice violates UNIQUE and rolls back. */
    method ReplaceFileChunks(p: Path, sha: Digest, commit: Commit, pieces: seq<Piece>, synced: bool) returns (ok: bool)
      modifies this`files, this`chunks
      ensures ok <==> Distinct(p, pieces)
      ensures !ok ==> files == old(files) && chunks == old(chunks)
      ensures ok ==> forall v :: Tables(v) == IndexStore.ReplaceFileChunks(old(Tables(v)), p, sha, commit, pieces, synced).value
    {
      hide Rows, Distinct, Without, IdOf;
      var before, kept := chunks, Without(chunks, p);
      chunks := kept;
      NoRows(before, p, pieces, commit);
      for i := 0 to |pieces|
        invariant files == old(files)
        invariant Distinct(p, pieces[..i])
        invariant chunks == kept + Rows(p, pieces[..i], commit)
      {
        NextRow(before, p, pieces, i, commit);
        var id := IdOf(p, pieces[i]);
        if id in chunks {
          chunks := before;
          return false;
        }
        chunks := chunks[id := ChunkRow(pieces[i], commit)];
      }
      assert pieces[..|pieces|] == pieces;
      files := files[p := FileRow(sha, commit, |pieces|, synced)];
      return true;
    }

    method UpdateRepository(commit: Commit)
      modifies this`head, this`ready
      ensures forall v :: Tables(v) == IndexStore.UpdateRepository(old(Tables(v)), commit)
    {
      head, ready := commit, true;
    }
  }

  lemma NoRows(table: map<ChunkId, ChunkRow>, p: Path, pieces: seq<Piece>, commit: Commit)
    ensures Distinct(p, pieces[..0]) && Without(table, p) == Without(table, p) + Rows(p, pieces[..0], commit)
  {
  }

  /** Inserting chunk i either meets an id that is already there, and then the chunks collide, or extends the rows. */
  lemma NextRow(table: map<ChunkId, ChunkRow>, p: Path, pieces: seq<Piece>, i: nat, commit: Commit)
    requires i < |pieces| && Distinct(p, pieces[..i])
    ensures var rows := Without(table, p) + Rows(p, pieces[..i], commit);
            if IdOf(p, pieces[i]) in rows then !Distinct(p, pieces)
            else Distinct(p, pieces[..i + 1])
                 && rows[IdOf(p, pieces[i]) := ChunkRow(pieces[i], commit)] == Without(table, p) + Rows(p, pieces[..i + 1], commit)
  {
    hide Rows, Ids, IdOf, Distinct, Without;
    assert pieces[..i + 1][..i] == pieces[..i] && pieces[..i + 1][i] == pieces[i];
    KeysAreIds(p, pieces[..i], commit);
    DistinctMore(p, pieces[..i + 1]);
    DistinctPrefix(p, pieces, i + 1);
    RowsGrow(p, pieces, i, commit);
    OwnIdIsElsewhere(table, p, pieces[i]);
  }

  lemma RowsGrow(p: Path, pieces: seq<Piece>, i: nat, commit: Commit)
    requires i < |pieces|
    ensures Rows(p, pieces[..i + 1], commit) == Rows(p, pieces[..i], commit)[IdOf(p, pieces[i]) := ChunkRow(pieces[i], commit)]
  {
    assert pieces[..i + 1][..i] == pieces[..i];
  }

  lemma OwnIdIsElsewhere(table: map<ChunkId, ChunkRow>, p: Path, piece: Piece)
    ensures IdOf(p, piece) !in Without(table, p)
  {
  }

  lemma DistinctPrefix(p: Path, pieces: seq<Piece>, n: nat)
    requires n <= |pieces|
    ensures Distinct(p, pieces) ==> Distinct(p, pieces[..n])
  {
  }

  /** The external vector store. A call that does not succeed has reached only some points. */
  class VectorStore {
    var points: map<ChunkId, Vector>

    constructor ()
      ensures points == map[]
    {
      points := map[];
    }

    method DeleteFile(p: Path, signal: Signal)
      modifies this
      ensures points == if signal.Go? then Without(old(points), p) else SweepPoints(old(points), p, signal.reached)
    {
      points := map id | id in points && !(id.path == p && (signal.Go? || id in signal.reached)) :: points[id];
    }

    method Upsert(p: Path, pieces: seq<Piece>, signal: Signal)
      modifies this
      ensures points == if signal.Go? then old(points) + Points(p, pieces) else UpsertPoints(old(points), Points(p, pieces), signal.reached)
    {
      var batch: map<ChunkId, Vector> := map[];
      for i := 0 to |pieces|
        invariant batch == Points(p, pieces[..i])
        invariant points == old(points)
      {
        assert pieces[..i + 1][..i] == pieces[..i];
        batch := batch[IdOf(p, pieces[i]) := Embedding(p, pieces[i].symbol, pieces[i].text)];
      }
      assert pieces[..|pieces|] == pieces;
      points := if signal.Go? then points + batch else UpsertPoints(points, batch, signal.reached);
    }
  }

  lemma NothingSkipped(chunker: Chunker, s: Store, tree: map<Path, string>, order: seq<Path>, gone: seq<Path>, mode: string,
                       commit: Commit, w: Weather)
    requires Enumerates(order, tree.Keys) && Enumerates(gone, Doomed(s, tree))
    ensures mode != "incremental" ==> Indexing.Index(chunker, s, tree, order, gone, mode, commit, w).stats.skipped == 0
  {
    hide Indexing.Index, Enumerates;
    IndexingReports.ReportsAreHonest(chunker, s, tree, order, gone, mode, commit, w);
  }

  class RepositoryIndexer {
    const database: Database
    const vectorStore: VectorStore
    const chunker: Chunker

    constructor (database: Database, vectorStore: VectorStore, chunker: Chunker)
      ensures this.database == database && this.vectorStore == vectorStore && this.chunker == chunker
    {
      this.database, this.vectorStore, this.chunker := database, vectorStore, chunker;
    }

    ghost function State(): Store
      reads database, vectorStore
    {
      database.Tables(vectorStore.points)
    }

    /** The body of the deletion loop up to its progress report. */
    method DropFile(p: Path, w: Weather) returns (ending: Ending)
      modifies database, vectorStore
      ensures Turn(State(), ending) == Indexing.DropFile(old(State()), p, w)
    {
      if !w(Dropping(p, Checkpoint)).Go? {
        return Aborted;
      }
      var write := w(Dropping(p, Write));
      if !write.Go? {
        return Broken(write);
      }
      database.DeleteFile(p);
      var sweep := w(Dropping(p, Sweep));
      vectorStore.DeleteFile(p, sweep);
      if sweep.Go? {
        var finish := w(Dropping(p, Finish));
        if finish.Go? {
          database.FinishVectorDeletion(p);
        } else if !finish.Unavailable? {
          return Broken(finish);
        }
      } else if !sweep.Unavailable? {
        return Broken(sweep);
      }
      return Deleted;
    }

    /** The body of the file loop up to its progress report. */
    method SyncFile(p: Path, content: string, skip: bool, commit: Commit, w: Weather) returns (ending: Ending)
      modifies database, vectorStore
      ensures Turn(State(), ending) == Indexing.SyncFile(chunker, old(State()), p, content, skip, commit, w)
    {
      hide Points, Rows, Distinct;
      if !w(Syncing(p, Checkpoint)).Go? {
        return Aborted;
      }
      if !w(Syncing(p, Hash)).Go? {
        return Broken(w(Syncing(p, Hash)));
      }
      var write := w(Syncing(p, Write));
      if skip {
        if !write.Go? {
          return Broken(write);
        }
        database.UpdateFileCommit(p, commit);
        return Skipped;
      }
      if !w(Syncing(p, Embed)).Go? {
        return Broken(w(Syncing(p, Embed)));
      }
      var pieces := chunker(p, content);
      if !write.Go? {
        return Broken(write);
      }
      database.MarkVectorDirty(p);
      var synced := true;
      var sweep := w(Syncing(p, Sweep));
      vectorStore.DeleteFile(p, sweep);
      if sweep.Go? {
        var upsert := w(Syncing(p, Upsert));
        vectorStore.Upsert(p, pieces, upsert);
        if upsert.Unavailable? {
          synced := false;
        } else if !upsert.Go? {
          return Broken(upsert);
        }
      } else if sweep.Unavailable? {
        synced := false;
      } else {
        return Broken(sweep);
      }
      var replace := w(Syncing(p, Replace));
      if !replace.Go? {
        return Broken(replace);
      }
      var replaced := database.ReplaceFileChunks(p, Sha(content), commit, pieces, synced);
      if !replaced {
        return Errored;
      }
      if synced {
        var finish := w(Syncing(p, Finish));
        if !finish.Go? {
          return Broken(finish);
        }
        database.FinishVectorDeletion(p);
      }
      return Indexed(|pieces|);
    }

    /** Some order of a set of paths; the program sorts them. */
    method Listed(paths: set<Path>) returns (xs: seq<Path>)
      ensures Enumerates(xs, paths)
    {
      xs := [];
      var rest := paths;
      while rest != {}
        invariant rest <= paths && Enumerates(xs, paths - rest)
        decreases rest
      {
        var p :| p in rest;
        xs, rest := xs + [p], rest - {p};
      }
    }

    /** relative_map: each discovered path once, in the order of first discovery. A symbolic link resolves to the file it
        names, so discovery may list a path more than once. */
    method RelativeMap(files: seq<Path>) returns (order: seq<Path>)
      ensures (forall p :: p in order <==> p in files) && forall i, j :: 0 <= i < j < |order| ==> order[i] != order[j]
      ensures |order| <= |files|
      ensures |order| == |files| <==> forall i, j :: 0 <= i < j < |files| ==> files[i] != files[j]
    {
      order := [];
      for i := 0 to |files|
        invariant forall p :: p in order <==> p in files[..i]
        invariant forall k, l :: 0 <= k < l < |order| ==> order[k] != order[l]
        invariant |order| <= i
        invariant |order| == i <==> forall k, l :: 0 <= k < l < i ==> files[k] != files[l]
      {
        if files[i] in order {
          assert exists k :: 0 <= k < i && files[k] == files[i];
        } else {
          forall k | 0 <= k < i ensures files[k] != files[i] {
            assert files[k] in files[..i];
          }
          order := order + [files[i]];
        }
      }
      assert files[..|files|] == files;
    }

    /** files is what discovery lists. The order of the file loop and that of the deletion loop, any order of the doomed
        paths, come out. The announced total counts a path as often as discovery listed it. */
    method Index(tree: map<Path, string>, files: seq<Path>, mode: string, commit: Commit, w: Weather)
      returns (total: nat, stats: IndexStats, aborted: bool, ghost order: seq<Path>, ghost gone: seq<Path>)
      requires forall p :: p in files <==> p in tree
      modifies database, vectorStore
      ensures Enumerates(order, tree.Keys) && Enumerates(gone, Doomed(old(State()), tree))
      ensures Pass(State(), stats, aborted) == Indexing.Index(chunker, old(State()), tree, order, gone, mode, commit, w)
      ensures total == |files| + |gone|
      ensures mode != "incremental" ==> stats.skipped == 0
      ensures !aborted ==> Counted(stats) == |order| + |gone| <= total
      ensures !aborted ==> (Counted(stats) == total <==> forall i, j :: 0 <= i < j < |files| ==> files[i] != files[j])
    {
      hide MaySkip, Count, Indexing.DropFile, Indexing.SyncFile;
      var manifest := database.files;
      var found := RelativeMap(files);
      order := found;
      var deleted := (manifest.Keys - tree.Keys) + database.tombstones;
      var doomed := Listed(deleted);
      gone := doomed;
      ghost var plan := PlanOf(chunker, State(), tree, mode, commit);
      CountersAddUp(chunker, State(), tree, order, gone, mode, commit, w);
      NothingSkipped(chunker, State(), tree, order, gone, mode, commit, w);
      total, stats := |files| + |doomed|, NO_STATS;
      if !w(Opening).Go? {
        return total, stats, true, order, gone;
      }
      ghost var before := State();
      for i := 0 to |doomed|
        invariant DropAll(before, NO_STATS, gone, w) == DropAll(State(), stats, doomed[i..], w)
      {
        var p := doomed[i];
        assert doomed[i..][1..] == doomed[i + 1..];
        var ending := DropFile(p, w);
        stats := Count(stats, ending);
        if ending.Aborted? || !w(Dropping(p, Report)).Go? {
          return total, stats, true, order, gone;
        }
      }
      ghost var dropped := DropAll(before, NO_STATS, gone, w);
      for i := 0 to |found|
        invariant SyncAll(plan, dropped.store, dropped.stats, order, w) == SyncAll(plan, State(), stats, found[i..], w)
      {
        var p := found[i];
        assert found[i..][1..] == found[i + 1..] && p in found;
        var ending := SyncFile(p, tree[p], MaySkip(mode, manifest, deleted, p, tree[p]), commit, w);
        stats := Count(stats, ending);
        if ending.Aborted? || !w(Syncing(p, Report)).Go? {
          return total, stats, true, order, gone;
        }
      }
      if !w(Closing).Go? {
        return total, stats, true, order, gone;
      }
      database.UpdateRepository(commit);
      return total, stats, false, order, gone;
    }
  }
}
