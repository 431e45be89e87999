/**
 The rows one repository owns in the shared index: the file manifest, the chunk table and the pending vector deletions
 in SQLite, and the points of the external vector store.
 */
module IndexStore {
  import opened Basics

  type Path = string
  type Commit = string

  /** SHA-256, taken as injective: a digest carries what it digests. */
  datatype Digest = Sha(content: string)

  /** What the chunker cuts out of a file. */
  datatype Piece = Piece(startLine: nat, endLine: nat, text: string, symbol: Option<string>)

  /** The UUIDv5 of repository, path, line range and content hash, taken as injective. The symbol is no part of it. */
  datatype ChunkId = ChunkId(path: Path, startLine: nat, endLine: nat, digest: Digest)

  /** The embedding of a chunk is a function of its path, its symbol and its text. */
  datatype Vector = Embedding(path: Path, symbol: Option<string>, text: string)

  datatype FileRow = FileRow(sha: Digest, commit: Commit, count: nat, synced: bool)

  datatype ChunkRow = ChunkRow(piece: Piece, commit: Commit)

  /** head and ready are the repository row's commit and whether its status is 'indexed'. */
  datatype Store = Store(files: map<Path, FileRow>, chunks: map<ChunkId, ChunkRow>, tombstones: set<Path>,
                         head: Commit, ready: bool, vectors: map<ChunkId, Vector>)

  /** A repository just registered at a commit. */
  function Registered(head: Commit): Store {
    Store(map[], map[], {}, head, false, map[])
  }

  function IdOf(p: Path, piece: Piece): ChunkId {
    ChunkId(p, piece.startLine, piece.endLine, Sha(piece.text))
  }

  /** Two chunks of one file collide when they share line range and text, as two symbols on one line do. */
  predicate Distinct(p: Path, pieces: seq<Piece>) {
    forall i, j :: 0 <= i < j < |pieces| ==> IdOf(p, pieces[i]) != IdOf(p, pieces[j])
  }

  /** The part of a table that belongs to one file, and the rest of it. */
  function Slice<T>(table: map<ChunkId, T>, p: Path): map<ChunkId, T> {
    map id | id in table && id.path == p :: table[id]
  }

  function Without<T>(table: map<ChunkId, T>, p: Path): map<ChunkId, T> {
    map id | id in table && id.path != p :: table[id]
  }

  /** The chunk rows of a file, inserted one by one. */
  function Rows(p: Path, pieces: seq<Piece>, commit: Commit): (rows: map<ChunkId, ChunkRow>)
    ensures forall id | id in rows :: id.path == p
    decreases |pieces|
  {
    if pieces == [] then map[]
    else
      var last := pieces[|pieces| - 1];
      Rows(p, pieces[..|pieces| - 1], commit)[IdOf(p, last) := ChunkRow(last, commit)]
  }

  /** The points of a file, upserted one by one; of two with one id the later wins. */
  function Points(p: Path, pieces: seq<Piece>): (points: map<ChunkId, Vector>)
    ensures forall id | id in points :: id.path == p
    decreases |pieces|
  {
    if pieces == [] then map[]
    else
      var last := pieces[|pieces| - 1];
      Points(p, pieces[..|pieces| - 1])[IdOf(p, last) := Embedding(p, last.symbol, last.text)]
  }

  function Ids(p: Path, pieces: seq<Piece>): set<ChunkId> {
    set k | 0 <= k < |pieces| :: IdOf(p, pieces[k])
  }

  lemma IdsOfMore(p: Path, pieces: seq<Piece>)
    requires pieces != []
    ensures Ids(p, pieces) == Ids(p, pieces[..|pieces| - 1]) + {IdOf(p, pieces[|pieces| - 1])}
  {
    var init := pieces[..|pieces| - 1];
    forall id | id in Ids(p, pieces) ensures id in Ids(p, init) + {IdOf(p, pieces[|pieces| - 1])} {
      var k :| 0 <= k < |pieces| && IdOf(p, pieces[k]) == id;
      if k < |init| {
        assert IdOf(p, init[k]) == id;
      }
    }
    forall id | id in Ids(p, init) ensures id in Ids(p, pieces) {
      var k :| 0 <= k < |init| && IdOf(p, init[k]) == id;
      assert IdOf(p, pieces[k]) == id;
    }
  }

  /** Independent reading of Rows and Points: exactly one row and one point per chunk id of the file. */
  lemma {:induction false} KeysAreIds(p: Path, pieces: seq<Piece>, commit: Commit)
    ensures Rows(p, pieces, commit).Keys == Ids(p, pieces) && Points(p, pieces).Keys == Ids(p, pieces)
    decreases |pieces|
  {
    if pieces != [] {
      KeysAreIds(p, pieces[..|pieces| - 1], commit);
      IdsOfMore(p, pieces);
    }
  }

  /** And, when no two chunks collide, that row and that point hold the chunk itself. */
  lemma {:induction false} RowsHoldPieces(p: Path, pieces: seq<Piece>, commit: Commit, k: nat)
    requires Distinct(p, pieces) && k < |pieces|
    ensures var id := IdOf(p, pieces[k]);
            && id in Rows(p, pieces, commit) && Rows(p, pieces, commit)[id] == ChunkRow(pieces[k], commit)
            && id in Points(p, pieces) && Points(p, pieces)[id] == Embedding(p, pieces[k].symbol, pieces[k].text)
    decreases |pieces|
  {
    if k < |pieces| - 1 {
      RowsHoldPieces(p, pieces[..|pieces| - 1], commit, k);
      assert IdOf(p, pieces[k]) != IdOf(p, pieces[|pieces| - 1]);
    }
  }

  lemma DistinctMore(p: Path, pieces: seq<Piece>)
    requires pieces != []
    ensures Distinct(p, pieces) <==>
            Distinct(p, pieces[..|pieces| - 1]) && IdOf(p, pieces[|pieces| - 1]) !in Ids(p, pieces[..|pieces| - 1])
  {
    hide IdOf;
    var init, last := pieces[..|pieces| - 1], pieces[|pieces| - 1];
    if Distinct(p, init) && IdOf(p, last) !in Ids(p, init) {
      forall i, j | 0 <= i < j < |pieces| ensures IdOf(p, pieces[i]) != IdOf(p, pieces[j]) {
        assert init[i] == pieces[i] && IdOf(p, init[i]) in Ids(p, init);
        assert j < |init| ==> init[j] == pieces[j];
      }
    }
    if IdOf(p, last) in Ids(p, init) {
      var k :| 0 <= k < |init| && IdOf(p, init[k]) == IdOf(p, last);
      assert pieces[k] == init[k] && !Distinct(p, pieces);
    }
  }

  /** The table holds a row per chunk exactly when no two chunks collide. */
  lemma {:induction false} RowsCount(p: Path, pieces: seq<Piece>, commit: Commit)
    ensures |Rows(p, pieces, commit)| <= |pieces|
    ensures |Rows(p, pieces, commit)| == |pieces| <==> Distinct(p, pieces)
    decreases |pieces|
  {
    hide Ids, IdOf, Distinct;
    if pieces == [] {
      assert Distinct(p, pieces) by { NothingCollides(p); }
    } else {
      var init := pieces[..|pieces| - 1];
      RowsCount(p, init, commit);
      KeysAreIds(p, init, commit);
      DistinctMore(p, pieces);
    }
  }

  lemma NothingCollides(p: Path)
    ensures Distinct(p, [])
  {
  }

  /** Advancing the commit of every chunk row of a file, as UPDATE chunks SET commit_sha does. */
  function Advanced(rows: map<ChunkId, ChunkRow>, p: Path, commit: Commit): map<ChunkId, ChunkRow> {
    map id | id in rows :: if id.path == p then rows[id].(commit := commit) else rows[id]
  }

  lemma {:induction false} AdvancedRows(p: Path, pieces: seq<Piece>, before: Commit, after: Commit)
    ensures Advanced(Rows(p, pieces, before), p, after) == Rows(p, pieces, after)
    decreases |pieces|
  {
    if pieces != [] {
      AdvancedRows(p, pieces[..|pieces| - 1], before, after);
    }
  }

  // ---------- the transactions of Database ----------

  function MarkVectorDirty(s: Store, p: Path): Store {
    if p in s.files then s.(files := s.files[p := s.files[p].(synced := false)]) else s
  }

  function DeleteFile(s: Store, p: Path): Store {
    s.(tombstones := s.tombstones + {p}, chunks := Without(s.chunks, p), files := s.files - {p})
  }

  function FinishVectorDeletion(s: Store, p: Path): Store {
    s.(tombstones := s.tombstones - {p})
  }

  function UpdateFileCommit(s: Store, p: Path, commit: Commit): Store {
    s.(files := if p in s.files then s.files[p := s.files[p].(commit := commit)] else s.files,
       chunks := Advanced(s.chunks, p, commit))
  }

  /** All or nothing: a second chunk of the same id violates UNIQUE and rolls the whole replacement back. */
  function ReplaceFileChunks(s: Store, p: Path, sha: Digest, commit: Commit, pieces: seq<Piece>, synced: bool): Option<Store> {
    if !Distinct(p, pieces) then None
    else Some(s.(chunks := Without(s.chunks, p) + Rows(p, pieces, commit),
                 files := s.files[p := FileRow(sha, commit, |pieces|, synced)]))
  }

  function UpdateRepository(s: Store, commit: Commit): Store {
    s.(head := commit, ready := true)
  }

  // ---------- the operations of VectorStore, each possibly cut short after the ids in reached ----------

  function SweepPoints(vectors: map<ChunkId, Vector>, p: Path, reached: set<ChunkId>): map<ChunkId, Vector> {
    map id | id in vectors && !(id.path == p && id in reached) :: vectors[id]
  }

  function UpsertPoints(vectors: map<ChunkId, Vector>, points: map<ChunkId, Vector>, reached: set<ChunkId>): map<ChunkId, Vector> {
    vectors + (map id | id in points && id in reached :: points[id])
  }

  // ---------- one file's share of the store ----------

  datatype View = View(row: Option<FileRow>, chunks: map<ChunkId, ChunkRow>, tombstone: bool, vectors: map<ChunkId, Vector>)

  function ViewOf(s: Store, p: Path): View {
    View(if p in s.files then Some(s.files[p]) else None, Slice(s.chunks, p), p in s.tombstones, Slice(s.vectors, p))
  }

  lemma ViewsDetermineStore(s: Store, t: Store)
    requires forall p: Path :: ViewOf(s, p) == ViewOf(t, p)
    requires s.head == t.head && s.ready == t.ready
    ensures s == t
  {
    forall p: Path ensures (p in s.files <==> p in t.files) && (p in s.files ==> s.files[p] == t.files[p])
                           && (p in s.tombstones <==> p in t.tombstones) {
      assert ViewOf(s, p) == ViewOf(t, p);
    }
    forall id: ChunkId ensures (id in s.chunks <==> id in t.chunks) && (id in s.chunks ==> s.chunks[id] == t.chunks[id])
                               && (id in s.vectors <==> id in t.vectors) && (id in s.vectors ==> s.vectors[id] == t.vectors[id]) {
      assert ViewOf(s, id.path) == ViewOf(t, id.path);
      assert id in s.chunks <==> id in Slice(s.chunks, id.path);
      assert id in t.chunks <==> id in Slice(t.chunks, id.path);
      assert id in s.vectors <==> id in Slice(s.vectors, id.path);
      assert id in t.vectors <==> id in Slice(t.vectors, id.path);
      assert id in s.chunks ==> s.chunks[id] == Slice(s.chunks, id.path)[id] == Slice(t.chunks, id.path)[id];
      assert id in s.vectors ==> s.vectors[id] == Slice(s.vectors, id.path)[id] == Slice(t.vectors, id.path)[id];
    }
    assert s.files == t.files && s.tombstones == t.tombstones;
    assert s.chunks == t.chunks && s.vectors == t.vectors;
  }

  // ---------- each write touches the share of one file only ----------

  lemma MarkVectorDirtyView(s: Store, p: Path, q: Path)
    ensures ViewOf(MarkVectorDirty(s, p), q) ==
            var v := ViewOf(s, q);
            if q == p && v.row.Some? then v.(row := Some(v.row.value.(synced := false))) else v
  {
  }

  lemma DeleteFileView(s: Store, p: Path, q: Path)
    ensures ViewOf(DeleteFile(s, p), q) ==
            var v := ViewOf(s, q);
            if q == p then v.(row := None, chunks := map[], tombstone := true) else v
  {
    assert q != p ==> Slice(Without(s.chunks, p), q) == Slice(s.chunks, q);
  }

  lemma FinishVectorDeletionView(s: Store, p: Path, q: Path)
    ensures ViewOf(FinishVectorDeletion(s, p), q) ==
            var v := ViewOf(s, q);
            if q == p then v.(tombstone := false) else v
  {
  }

  lemma UpdateFileCommitView(s: Store, p: Path, commit: Commit, q: Path)
    ensures ViewOf(UpdateFileCommit(s, p, commit), q) ==
            var v := ViewOf(s, q);
            if q != p then v
            else v.(row := if v.row.Some? then Some(v.row.value.(commit := commit)) else None,
                    chunks := Advanced(v.chunks, p, commit))
  {
    assert Slice(Advanced(s.chunks, p, commit), q) == Advanced(Slice(s.chunks, q), p, commit);
    assert q != p ==> Advanced(Slice(s.chunks, q), p, commit) == Slice(s.chunks, q);
  }

  lemma ReplaceFileChunksView(s: Store, p: Path, sha: Digest, commit: Commit, pieces: seq<Piece>, synced: bool, q: Path)
    requires Distinct(p, pieces)
    ensures ViewOf(ReplaceFileChunks(s, p, sha, commit, pieces, synced).value, q) ==
            var v := ViewOf(s, q);
            if q != p then v
            else v.(row := Some(FileRow(sha, commit, |pieces|, synced)), chunks := Rows(p, pieces, commit))
  {
    hide Rows, Distinct;
    assert forall id | id in Rows(p, pieces, commit) :: id.path == p;
    assert Slice(Without(s.chunks, p) + Rows(p, pieces, commit), q) ==
           if q == p then Rows(p, pieces, commit) else Slice(s.chunks, q);
  }

  lemma SweepPointsView(s: Store, p: Path, reached: set<ChunkId>, q: Path)
    ensures ViewOf(s.(vectors := SweepPoints(s.vectors, p, reached)), q) ==
            var v := ViewOf(s, q);
            if q == p then v.(vectors := v.vectors - reached) else v
  {
    assert Slice(SweepPoints(s.vectors, p, reached), q) ==
           if q == p then Slice(s.vectors, q) - reached else Slice(s.vectors, q);
  }

  lemma WithoutPointsView(s: Store, p: Path, q: Path)
    ensures ViewOf(s.(vectors := Without(s.vectors, p)), q) ==
            var v := ViewOf(s, q);
            if q == p then v.(vectors := map[]) else v
  {
    assert q != p ==> Slice(Without(s.vectors, p), q) == Slice(s.vectors, q);
  }

  /** Points of one file, upserted, leave the slices of the others alone. */
  lemma UpsertElsewhere(vectors: map<ChunkId, Vector>, points: map<ChunkId, Vector>, reached: set<ChunkId>, p: Path, q: Path)
    requires q != p && forall id | id in points :: id.path == p
    ensures Slice(UpsertPoints(vectors, points, reached), q) == Slice(vectors, q)
  {
  }

  /** And slicing at that file commutes with the upsert. */
  lemma UpsertHere(vectors: map<ChunkId, Vector>, points: map<ChunkId, Vector>, reached: set<ChunkId>, p: Path)
    requires forall id | id in points :: id.path == p
    ensures Slice(UpsertPoints(vectors, points, reached), p) == UpsertPoints(Slice(vectors, p), points, reached)
  {
  }

  lemma UpsertPointsView(s: Store, p: Path, pieces: seq<Piece>, reached: set<ChunkId>, q: Path)
    ensures ViewOf(s.(vectors := UpsertPoints(s.vectors, Points(p, pieces), reached)), q) ==
            var v := ViewOf(s, q);
            if q == p then v.(vectors := UpsertPoints(v.vectors, Points(p, pieces), reached)) else v
  {
    hide Points, Slice, UpsertPoints;
    if q == p {
      UpsertHere(s.vectors, Points(p, pieces), reached, p);
    } else {
      UpsertElsewhere(s.vectors, Points(p, pieces), reached, p, q);
    }
  }
}
