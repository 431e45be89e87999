/**
 The two digests the watcher compares: one over the files on disk, in the order of sorted Path objects, and one over the
 manifest rows, in the order of sorted strings. SHA-256 is taken as injective, so digests agree when their streams do.
 */
module Fingerprints {
  import opened IndexStore
  import opened IndexingConvergence

  const NUL := '\0'

  datatype Entry = Entry(path: Path, hash: string)

  /** The bytes of one entry, and of a whole digest stream. */
  function Record(e: Entry): string {
    [NUL] + e.path + [NUL] + e.hash
  }

  function Records(entries: seq<Entry>): string {
    if entries == [] then "" else Record(entries[0]) + Records(entries[1..])
  }

  function Stream(commit: string, entries: seq<Entry>): string {
    commit + Records(entries)
  }

  // ---------- unique decoding ----------

  ghost predicate NulFree(text: string) {
    NUL !in text
  }

  ghost predicate Encodable(entries: seq<Entry>) {
    forall i :: 0 <= i < |entries| ==> NulFree(entries[i].path) && NulFree(entries[i].hash)
  }

  /** A NUL-free part ends where the next NUL, or the stream, ends it. */
  ghost predicate Cut(rest: string) {
    rest == "" || rest[0] == NUL
  }

  lemma {:induction false} PartsAreDelimited(a: string, x: string, b: string, y: string)
    requires NulFree(a) && NulFree(b) && Cut(x) && Cut(y)
    requires a + x == b + y
    ensures a == b && x == y
    decreases |a|
  {
    assert a == "" ==> a + x == x;
    assert b == "" ==> b + y == y;
    assert a != "" ==> (a + x)[0] == a[0] && (a + x)[1..] == a[1..] + x;
    assert b != "" ==> (b + y)[0] == b[0] && (b + y)[1..] == b[1..] + y;
    if a != "" && b != "" {
      PartsAreDelimited(a[1..], x, b[1..], y);
      assert a == [a[0]] + a[1..] && b == [b[0]] + b[1..];
    }
  }

  lemma RecordsCut(entries: seq<Entry>)
    ensures Cut(Records(entries))
  {
  }

  lemma RecordIsDelimited(x: Entry, restX: string, y: Entry, restY: string)
    requires NulFree(x.path) && NulFree(x.hash) && NulFree(y.path) && NulFree(y.hash) && Cut(restX) && Cut(restY)
    requires Record(x) + restX == Record(y) + restY
    ensures x == y && restX == restY
  {
    hide NulFree;
    var hashX, hashY := [NUL] + x.hash + restX, [NUL] + y.hash + restY;
    assert (Record(x) + restX)[1..] == x.path + hashX;
    assert (Record(y) + restY)[1..] == y.path + hashY;
    PartsAreDelimited(x.path, hashX, y.path, hashY);
    assert hashX[1..] == x.hash + restX && hashY[1..] == y.hash + restY;
    PartsAreDelimited(x.hash, restX, y.hash, restY);
  }

  lemma {:induction false} RecordsAreDecodable(xs: seq<Entry>, ys: seq<Entry>)
    requires Encodable(xs) && Encodable(ys) && Records(xs) == Records(ys)
    ensures xs == ys
    decreases |xs|
  {
    hide NulFree, Cut;
    if xs != [] && ys != [] {
      RecordsCut(xs[1..]);
      RecordsCut(ys[1..]);
      RecordIsDelimited(xs[0], Records(xs[1..]), ys[0], Records(ys[1..]));
      RecordsAreDecodable(xs[1..], ys[1..]);
      assert xs == [xs[0]] + xs[1..] && ys == [ys[0]] + ys[1..];
    }
  }

  /** The stream determines the commit and every entry, for parts without NUL. */
  lemma StreamIsDecodable(commit: string, xs: seq<Entry>, commit': string, ys: seq<Entry>)
    requires NulFree(commit) && NulFree(commit') && Encodable(xs) && Encodable(ys)
    ensures Stream(commit, xs) == Stream(commit', ys) <==> commit == commit' && xs == ys
  {
    RecordsCut(xs);
    RecordsCut(ys);
    if Stream(commit, xs) == Stream(commit', ys) {
      PartsAreDelimited(commit, Records(xs), commit', Records(ys));
      RecordsAreDecodable(xs, ys);
    }
  }

  // ---------- the two path orders ----------

  /** sorted() over strings. */
  predicate StringLess(a: string, b: string) {
    if b == "" then false
    else if a == "" then true
    else if a[0] == b[0] then StringLess(a[1..], b[1..])
    else a[0] < b[0]
  }

  function Components(p: Path): (parts: seq<string>)
    ensures parts != []
  {
    if p == "" then [""]
    else
      var rest := Components(p[1..]);
      if p[0] == '/' then [""] + rest else [[p[0]] + rest[0]] + rest[1..]
  }

  predicate ListLess(a: seq<string>, b: seq<string>) {
    if b == [] then false
    else if a == [] then true
    else if a[0] == b[0] then ListLess(a[1..], b[1..])
    else StringLess(a[0], b[0])
  }

  /** sorted() over Path objects. */
  predicate PathLess(a: Path, b: Path) {
    ListLess(Components(a), Components(b))
  }

  /** The first difference sets a slash against a character below it, such as '.', '-' or a blank. */
  predicate Crosses(a: Path, b: Path) {
    if a == "" || b == "" then false
    else if a[0] == b[0] then Crosses(a[1..], b[1..])
    else (a[0] == '/' && b[0] < '/') || (b[0] == '/' && a[0] < '/')
  }

  /** PathLess, read character by character: a slash sorts below everything. */
  lemma PathLessByCharacter(a: Path, b: Path)
    ensures b == "" ==> !PathLess(a, b)
    ensures a == "" && b != "" ==> PathLess(a, b)
    ensures a != "" && b != "" && a[0] == b[0] ==> PathLess(a, b) == PathLess(a[1..], b[1..])
    ensures a != "" && b != "" && a[0] != b[0] ==> PathLess(a, b) == (a[0] == '/' || (b[0] != '/' && a[0] < b[0]))
  {
    if a != "" && b != "" {
      var x, y := Components(a[1..]), Components(b[1..]);
      if a[0] == b[0] && a[0] != '/' {
        assert ([a[0]] + x[0])[1..] == x[0] && ([b[0]] + y[0])[1..] == y[0];
        assert Components(a)[1..] == x[1..] && Components(b)[1..] == y[1..];
      } else if a[0] == b[0] {
        assert Components(a)[1..] == x && Components(b)[1..] == y;
      }
    } else if b == "" {
      assert Components(b)[1..] == [] && !ListLess(Components(a)[1..], []) && !StringLess(Components(a)[0], "");
    } else if b[0] == '/' {
      assert Components(a)[1..] == [];
    }
  }

  /** Where two paths first differ decides both orders: strings by the character, paths with the slash below every other. */
  lemma {:induction false} FirstDifferenceDecides(a: Path, b: Path, k: nat)
    requires k < |a| && k < |b| && a[..k] == b[..k] && a[k] != b[k]
    ensures StringLess(a, b) <==> a[k] < b[k]
    ensures PathLess(a, b) <==> a[k] == '/' || (b[k] != '/' && a[k] < b[k])
    decreases k
  {
    hide PathLess;
    PathLessByCharacter(a, b);
    if k > 0 {
      assert a[..k][0] == b[..k][0];
      assert a[1..][..k - 1] == a[..k][1..] && b[1..][..k - 1] == b[..k][1..];
      FirstDifferenceDecides(a[1..], b[1..], k - 1);
    }
  }

  /** The two orders agree on a pair of paths exactly when the pair does not cross. */
  lemma {:induction false} OrdersAgreeOnPair(a: Path, b: Path)
    ensures (StringLess(a, b) <==> PathLess(a, b)) <==> !Crosses(a, b)
    ensures a != b ==> (PathLess(a, b) <==> !PathLess(b, a)) && (StringLess(a, b) <==> !StringLess(b, a))
    ensures a == b ==> !PathLess(a, b) && !StringLess(a, b)
    ensures Crosses(a, b) <==> Crosses(b, a)
    decreases |a|
  {
    hide PathLess;
    PathLessByCharacter(a, b);
    PathLessByCharacter(b, a);
    if a != "" && b != "" && a[0] == b[0] {
      OrdersAgreeOnPair(a[1..], b[1..]);
      assert a == [a[0]] + a[1..] && b == [b[0]] + b[1..];
    }
  }

  ghost predicate Sorted(xs: seq<Path>, less: (Path, Path) -> bool) {
    forall i, j :: 0 <= i < j < |xs| ==> !less(xs[j], xs[i])
  }

  ghost predicate Repeats(xs: seq<Path>) {
    exists i, j :: 0 <= i < j < |xs| && xs[i] == xs[j]
  }

  lemma TailMembers(xs: seq<Path>)
    requires xs != [] && !Repeats(xs)
    ensures forall p :: p in xs[1..] <==> p in xs && p != xs[0]
  {
    forall p ensures p in xs[1..] <==> p in xs && p != xs[0] {
      if p in xs && p != xs[0] {
        var k :| 0 <= k < |xs| && xs[k] == p;
        assert xs[1..][k - 1] == p;
      }
    }
  }

  /** Two strict listings of one set in one order are the same list. */
  lemma {:induction false} SortedListsAreUnique(xs: seq<Path>, ys: seq<Path>, less: (Path, Path) -> bool)
    requires forall a, b :: a != b ==> less(a, b) || less(b, a)
    requires Sorted(xs, less) && Sorted(ys, less) && !Repeats(xs) && !Repeats(ys)
    requires forall p :: p in xs <==> p in ys
    ensures xs == ys
    decreases |xs|
  {
    if xs == [] || ys == [] {
      ListsSomething(xs);
      ListsSomething(ys);
    } else {
      assert xs[0] in ys && ys[0] in xs;
      var i :| 0 <= i < |ys| && ys[i] == xs[0];
      var j :| 0 <= j < |xs| && xs[j] == ys[0];
      assert xs[0] == ys[0];
      TailMembers(xs);
      TailMembers(ys);
      SortedListsAreUnique(xs[1..], ys[1..], less);
      assert xs == [xs[0]] + xs[1..] && ys == [ys[0]] + ys[1..];
    }
  }

  /** Listing one set of paths in both orders gives one list exactly when no two of them cross and none is repeated. */
  lemma ListingsAgree(onDisk: seq<Path>, inManifest: seq<Path>)
    requires Sorted(onDisk, PathLess) && Sorted(inManifest, StringLess) && !Repeats(inManifest)
    requires forall p :: p in onDisk <==> p in inManifest
    ensures onDisk == inManifest <==> !Repeats(onDisk) && forall p, q | p in onDisk && q in onDisk :: !Crosses(p, q)
  {
    hide PathLess, StringLess, Crosses;
    if onDisk == inManifest {
      forall p, q | p in onDisk && q in onDisk ensures !Crosses(p, q) {
        var i :| 0 <= i < |onDisk| && onDisk[i] == p;
        var j :| 0 <= j < |onDisk| && onDisk[j] == q;
        OrdersAgreeOnPair(p, q);
        OrdersAgreeOnPair(q, p);
      }
    } else if !Repeats(onDisk) && forall p, q | p in onDisk && q in onDisk :: !Crosses(p, q) {
      forall i, j | 0 <= i < j < |onDisk| ensures !StringLess(onDisk[j], onDisk[i]) {
        OrdersAgreeOnPair(onDisk[j], onDisk[i]);
      }
      forall a, b: Path ensures a != b ==> StringLess(a, b) || StringLess(b, a) {
        OrdersAgreeOnPair(a, b);
      }
      SortedListsAreUnique(onDisk, inManifest, StringLess);
    }
  }

  // ---------- the digests ----------

  function Entries(paths: seq<Path>, hashes: map<Path, string>): (entries: seq<Entry>)
    requires forall p | p in paths :: p in hashes
  {
    seq(|paths|, i requires 0 <= i < |paths| => Entry(paths[i], hashes[paths[i]]))
  }

  /** Feeding a digest the commit and then each path with its hash. */
  method Feed(commit: string, paths: seq<Path>, hashes: map<Path, string>) returns (stream: string)
    requires forall p | p in paths :: p in hashes
    ensures stream == Stream(commit, Entries(paths, hashes))
  {
    stream := commit;
    ghost var entries := Entries(paths, hashes);
    for i := 0 to |paths|
      invariant stream + Records(entries[i..]) == Stream(commit, entries)
    {
      assert entries[i..][1..] == entries[i + 1..] && entries[i..][0] == entries[i];
      stream := stream + ([NUL] + paths[i] + [NUL]);
      stream := stream + hashes[paths[i]];
    }
  }

  /** The digests of disk and manifest agree exactly when commits and path-to-hash maps agree, discovery listed no file
      twice, and no two paths cross. */
  lemma DigestsAgree(commit: string, onDisk: seq<Path>, disk: map<Path, string>,
                     indexed: string, inManifest: seq<Path>, manifest: map<Path, string>)
    requires NulFree(commit) && NulFree(indexed)
    requires forall p | p in disk :: NulFree(p) && NulFree(disk[p])
    requires forall p | p in manifest :: NulFree(p) && NulFree(manifest[p])
    requires Sorted(onDisk, PathLess) && (forall p :: p in onDisk <==> p in disk)
    requires Sorted(inManifest, StringLess) && !Repeats(inManifest) && (forall p :: p in inManifest <==> p in manifest)
    ensures Stream(commit, Entries(onDisk, disk)) == Stream(indexed, Entries(inManifest, manifest))
            <==> commit == indexed && disk == manifest && !Repeats(onDisk)
                 && forall p, q | p in disk && q in disk :: !Crosses(p, q)
  {
    hide Sorted, Repeats, Crosses, Stream;
    var xs, ys := Entries(onDisk, disk), Entries(inManifest, manifest);
    StreamIsDecodable(commit, xs, indexed, ys);
    if xs == ys {
      assert |onDisk| == |inManifest|;
      forall i | 0 <= i < |onDisk| ensures onDisk[i] == inManifest[i] && disk[onDisk[i]] == manifest[onDisk[i]] {
        assert xs[i] == ys[i];
      }
      assert onDisk == inManifest;
      forall p | p in disk ensures disk[p] == manifest[p] {
        var i :| 0 <= i < |onDisk| && onDisk[i] == p;
      }
      assert disk == manifest;
    }
    if disk == manifest {
      ListingsAgree(onDisk, inManifest);
      assert onDisk == inManifest ==> xs == ys;
    }
  }

  /** The hexadecimal form of a digest. */
  ghost predicate Hexadecimal(hex: Digest -> string) {
    (forall d: Digest :: NulFree(hex(d))) && (forall d: Digest, e: Digest :: hex(d) == hex(e) ==> d == e)
  }

  /** Over an index that a pass has just settled, the watcher sees no difference exactly when discovery repeats no file and
      no two paths cross. Otherwise it resubmits the repository each time its job has completed, though nothing changes. */
  lemma SettledIndexMatchesDisk(chunker: (Path, string) -> seq<Piece>, s: Store, tree: map<Path, string>, commit: Commit,
                                files: seq<Path>, rows: seq<Path>, hex: Digest -> string)
    requires Settled(chunker, s, tree, commit) && Hexadecimal(hex) && NulFree(commit)
    requires Sorted(files, PathLess) && (forall p :: p in files <==> p in tree) && (forall p | p in tree :: NulFree(p))
    requires Sorted(rows, StringLess) && !Repeats(rows) && (forall p :: p in rows <==> p in s.files)
    ensures Stream(commit, Entries(files, map p | p in tree :: hex(Sha(tree[p]))))
            == Stream(s.head, Entries(rows, map p | p in s.files :: hex(s.files[p].sha)))
            <==> !Repeats(files) && forall p, q | p in tree && q in tree :: !Crosses(p, q)
  {
    hide Sorted, Repeats, Crosses, Stream, Rows, Points, Slice;
    var disk, manifest := map p | p in tree :: hex(Sha(tree[p])), map p | p in s.files :: hex(s.files[p].sha);
    forall p | p in tree ensures s.files[p].sha == Sha(tree[p]) {
      assert ViewOf(s, p) == Canonical(p, tree[p], commit, chunker(p, tree[p]));
    }
    assert disk == manifest;
    DigestsAgree(commit, files, disk, s.head, rows, manifest);
  }

  /** a.py and a/b.py cross. */
  lemma DotAgainstSlash()
    ensures Crosses("a.py", "a/b.py") && StringLess("a.py", "a/b.py") && PathLess("a/b.py", "a.py")
  {
    assert "a.py"[1..] == ".py" && "a/b.py"[1..] == "/b.py";
    OrdersAgreeOnPair("a.py", "a/b.py");
    OrdersAgreeOnPair("a/b.py", "a.py");
  }
}
