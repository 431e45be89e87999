/** Reciprocal rank fusion over the reals, and the ranking and filtering of search. */
module Retrieval {
  import opened Basics
  import opened IndexStore
  import opened Indexing
  import opened IndexingTheorems

  datatype Hit = Hit(id: ChunkId, score: real)

  type Ranking = seq<Hit>

  // ---------- fusion ----------

  /** What one ranking adds to an id's score: 1/(k+rank) for each rank, counted from one, at which it lists the id. */
  function Share(ranking: Ranking, k: int, id: ChunkId): real
    requires Divides(ranking, k)
    decreases |ranking|
  {
    if ranking == [] then 0.0
    else
      var n := |ranking|;
      Share(ranking[..n - 1], k, id) + if ranking[n - 1].id == id then 1.0 / (k + n) as real else 0.0
  }

  /** No rank of the ranking makes the denominator zero. */
  predicate Divides(ranking: Ranking, k: int) {
    k >= 0 || |ranking| < -k
  }

  function Score(rankings: seq<Ranking>, k: int, id: ChunkId): real
    requires forall i | 0 <= i < |rankings| :: Divides(rankings[i], k)
    decreases |rankings|
  {
    if rankings == [] then 0.0
    else Score(rankings[..|rankings| - 1], k, id) + Share(rankings[|rankings| - 1], k, id)
  }

  predicate Lists(ranking: Ranking, id: ChunkId) {
    exists j | 0 <= j < |ranking| :: ranking[j].id == id
  }

  predicate Ranked(rankings: seq<Ranking>, id: ChunkId) {
    exists i | 0 <= i < |rankings| :: Lists(rankings[i], id)
  }

  function IdsOf(hits: Ranking): (ids: seq<ChunkId>)
    ensures |ids| == |hits|
  {
    seq(|hits|, i requires 0 <= i < |hits| => hits[i].id)
  }

  /** The ids of all rankings, one ranking after the other. */
  function Listing(rankings: seq<Ranking>): seq<ChunkId>
    decreases |rankings|
  {
    if rankings == [] then [] else Listing(rankings[..|rankings| - 1]) + IdsOf(rankings[|rankings| - 1])
  }

  /** Each id once, where it comes first. */
  function FirstSeen(ids: seq<ChunkId>): seq<ChunkId>
    decreases |ids|
  {
    if ids == [] then []
    else
      var seen, last := FirstSeen(ids[..|ids| - 1]), ids[|ids| - 1];
      if last in seen then seen else seen + [last]
  }

  /** x comes somewhere before y. */
  ghost predicate Before(ids: seq<ChunkId>, x: ChunkId, y: ChunkId) {
    exists a, b :: 0 <= a < b < |ids| && ids[a] == x && ids[b] == y
  }

  /** FirstSeen read independently: no id is lost, invented or repeated, and what comes first in the list comes first. */
  lemma {:induction false} FirstSeenInOrder(ids: seq<ChunkId>, i: nat, j: nat)
    requires i < j < |FirstSeen(ids)|
    ensures FirstSeen(ids)[i] != FirstSeen(ids)[j]
    ensures exists p :: 0 <= p < |ids| && ids[p] == FirstSeen(ids)[i] && FirstSeen(ids)[j] !in ids[..p + 1]
    decreases |ids|
  {
    var init, last := ids[..|ids| - 1], ids[|ids| - 1];
    var seen := FirstSeen(init);
    forall x ensures x in seen <==> x in init {
      FirstSeenHolds(init, x);
    }
    if j < |seen| {
      FirstSeenInOrder(init, i, j);
      var p :| 0 <= p < |init| && init[p] == seen[i] && seen[j] !in init[..p + 1];
      assert ids[..p + 1] == init[..p + 1];
      assert ids[p] == FirstSeen(ids)[i];
    } else {
      assert seen[i] in init;
      var p :| 0 <= p < |init| && init[p] == seen[i];
      assert ids[..p + 1] == init[..p + 1];
      assert ids[p] == FirstSeen(ids)[i];
    }
  }

  lemma {:induction false} FirstSeenHolds(ids: seq<ChunkId>, x: ChunkId)
    ensures x in FirstSeen(ids) <==> x in ids
    decreases |ids|
  {
    if ids != [] {
      FirstSeenHolds(ids[..|ids| - 1], x);
      assert ids == ids[..|ids| - 1] + [ids[|ids| - 1]];
    }
  }

  /** scores.get(identifier, 0.0) */
  function ScoreIn(scores: map<ChunkId, real>, id: ChunkId): real {
    if id in scores then scores[id] else 0.0
  }

  /** The loop over the rankings and their ranks. A division by zero raises. The dictionary keeps its keys in the order
      in which they were first inserted. */
  method Fuse(rankings: seq<Ranking>, k: int) returns (fused: Option<map<ChunkId, real>>, order: seq<ChunkId>)
    ensures fused.Some? <==> forall i | 0 <= i < |rankings| :: Divides(rankings[i], k)
    ensures fused.Some? ==> forall id :: (id in fused.value <==> Ranked(rankings, id)) && ScoreIn(fused.value, id) == Score(rankings, k, id)
    ensures fused.Some? ==> order == FirstSeen(Listing(rankings))
    ensures fused.Some? ==> forall id :: id in order <==> id in fused.value
    ensures fused.Some? ==> forall i, j :: 0 <= i < j < |order| ==> order[i] != order[j]
  {
    hide Fused, Fusing;
    var scores: map<ChunkId, real> := map[];
    order := [];
    NothingFused(rankings, k);
    for i := 0 to |rankings|
      invariant Fused(scores, order, rankings[..i], k)
    {
      var ranking := rankings[i];
      ghost var before, beforeOrder := scores, order;
      ghost var listed := Listing(rankings[..i]);
      NothingFusing(scores, order, rankings[..i], ranking, k);
      for j := 0 to |ranking|
        invariant Fusing(scores, order, before, listed, ranking[..j], k)
      {
        if k + j + 1 == 0 {
          assert !Divides(ranking, k);
          return None, order;
        }
        var id := ranking[j].id;
        NextFusing(scores, order, before, listed, ranking, j, k);
        if id !in scores {
          order := order + [id];
        }
        scores := scores[id := ScoreIn(scores, id) + 1.0 / (k + j + 1) as real];
      }
      assert ranking[..|ranking|] == ranking;
      NextFused(scores, order, before, beforeOrder, rankings, i, k);
    }
    assert rankings[..|rankings|] == rankings;
    AllFused(scores, order, rankings, k);
    return Some(scores), order;
  }

  /** What the dictionary holds after some rankings. */
  ghost predicate Fused(scores: map<ChunkId, real>, order: seq<ChunkId>, rankings: seq<Ranking>, k: int) {
    && (forall m | 0 <= m < |rankings| :: Divides(rankings[m], k))
    && (forall id :: (id in scores <==> Ranked(rankings, id)) && ScoreIn(scores, id) == Score(rankings, k, id))
    && (forall id :: id in order <==> id in scores)
    && order == FirstSeen(Listing(rankings))
  }

  /** And after some ranks of the next one; before is what it held when that ranking began. */
  ghost predicate Fusing(scores: map<ChunkId, real>, order: seq<ChunkId>, before: map<ChunkId, real>, listed: seq<ChunkId>,
                         ranking: Ranking, k: int) {
    && Divides(ranking, k)
    && (forall id :: (id in scores <==> id in before || Lists(ranking, id))
                     && ScoreIn(scores, id) == ScoreIn(before, id) + Share(ranking, k, id))
    && (forall id :: id in order <==> id in scores)
    && order == FirstSeen(listed + IdsOf(ranking))
  }

  lemma NothingFused(rankings: seq<Ranking>, k: int)
    ensures Fused(map[], [], rankings[..0], k)
  {
  }

  lemma NothingFusing(scores: map<ChunkId, real>, order: seq<ChunkId>, rankings: seq<Ranking>, ranking: Ranking, k: int)
    requires Fused(scores, order, rankings, k)
    ensures Fusing(scores, order, scores, Listing(rankings), ranking[..0], k)
  {
    assert Listing(rankings) + IdsOf(ranking[..0]) == Listing(rankings);
  }

  lemma NextFusing(scores: map<ChunkId, real>, order: seq<ChunkId>, before: map<ChunkId, real>, listed: seq<ChunkId>,
                   ranking: Ranking, j: nat, k: int)
    requires j < |ranking| && k + j + 1 != 0 && Fusing(scores, order, before, listed, ranking[..j], k)
    ensures var id := ranking[j].id;
            Fusing(scores[id := ScoreIn(scores, id) + 1.0 / (k + j + 1) as real], if id in scores then order else order + [id],
                   before, listed, ranking[..j + 1], k)
  {
    hide FirstSeen, IdsOf, Share, Lists;
    NextHit(ranking, k, j);
    NextSeen(listed, ranking, j);
  }

  lemma NextFused(scores: map<ChunkId, real>, order: seq<ChunkId>, before: map<ChunkId, real>, beforeOrder: seq<ChunkId>,
                  rankings: seq<Ranking>, i: nat, k: int)
    requires i < |rankings| && Fused(before, beforeOrder, rankings[..i], k)
    requires Fusing(scores, order, before, Listing(rankings[..i]), rankings[i], k)
    ensures Fused(scores, order, rankings[..i + 1], k)
  {
    hide FirstSeen, IdsOf, Share, Lists, Ranked, Score, ScoreIn;
    assert rankings[..i + 1][..i] == rankings[..i];
    assert forall m | 0 <= m < i :: rankings[..i][m] == rankings[m];
    NextRanking(rankings, k, i);
  }

  lemma AllFused(scores: map<ChunkId, real>, order: seq<ChunkId>, rankings: seq<Ranking>, k: int)
    requires Fused(scores, order, rankings, k)
    ensures forall i | 0 <= i < |rankings| :: Divides(rankings[i], k)
    ensures forall id :: (id in scores <==> Ranked(rankings, id)) && ScoreIn(scores, id) == Score(rankings, k, id)
    ensures order == FirstSeen(Listing(rankings)) && forall id :: id in order <==> id in scores
    ensures forall i, j :: 0 <= i < j < |order| ==> order[i] != order[j]
  {
    hide Ranked, Score, ScoreIn, FirstSeen;
    forall i, j | 0 <= i < j < |order| ensures order[i] != order[j] {
      FirstSeenInOrder(Listing(rankings), i, j);
    }
  }

  lemma NextSeen(listed: seq<ChunkId>, ranking: Ranking, j: nat)
    requires j < |ranking|
    ensures FirstSeen(listed + IdsOf(ranking[..j + 1])) ==
            var seen := FirstSeen(listed + IdsOf(ranking[..j]));
            if ranking[j].id in seen then seen else seen + [ranking[j].id]
  {
    var ids := listed + IdsOf(ranking[..j + 1]);
    assert ids[..|ids| - 1] == listed + IdsOf(ranking[..j]);
  }

  lemma NextHit(ranking: Ranking, k: int, j: nat)
    requires j < |ranking| && Divides(ranking[..j], k) && k + j + 1 != 0
    ensures Divides(ranking[..j + 1], k)
    ensures forall id :: Lists(ranking[..j + 1], id) <==> Lists(ranking[..j], id) || id == ranking[j].id
    ensures forall id :: Share(ranking[..j + 1], k, id)
                         == Share(ranking[..j], k, id) + if ranking[j].id == id then 1.0 / (k + j + 1) as real else 0.0
  {
    var longer := ranking[..j + 1];
    assert longer[..j] == ranking[..j] && longer[j] == ranking[j];
    forall id ensures Lists(longer, id) <==> Lists(ranking[..j], id) || id == ranking[j].id {
      if Lists(ranking[..j], id) {
        var m :| 0 <= m < j && ranking[..j][m].id == id;
        assert longer[m].id == id;
      }
      if Lists(longer, id) {
        var m :| 0 <= m <= j && longer[m].id == id;
        assert m < j ==> ranking[..j][m].id == id;
      }
    }
  }

  lemma NextRanking(rankings: seq<Ranking>, k: int, i: nat)
    requires i < |rankings| && forall m | 0 <= m <= i :: Divides(rankings[m], k)
    ensures forall id :: Ranked(rankings[..i + 1], id) <==> Ranked(rankings[..i], id) || Lists(rankings[i], id)
    ensures forall id :: Score(rankings[..i + 1], k, id) == Score(rankings[..i], k, id) + Share(rankings[i], k, id)
  {
    hide Lists, Share, Divides;
    var longer := rankings[..i + 1];
    assert longer[..i] == rankings[..i] && longer[i] == rankings[i];
    forall id ensures Ranked(longer, id) <==> Ranked(rankings[..i], id) || Lists(rankings[i], id) {
      if Ranked(rankings[..i], id) {
        var m :| 0 <= m < i && Lists(rankings[..i][m], id);
        assert Lists(longer[m], id);
      }
      if Ranked(longer, id) {
        var m :| 0 <= m <= i && Lists(longer[m], id);
        assert m < i ==> Lists(rankings[..i][m], id);
      }
    }
  }

  // ---------- what fusion does to the order ----------

  ghost predicate DuplicateFree(ranking: Ranking) {
    forall i, j :: 0 <= i < j < |ranking| ==> ranking[i].id != ranking[j].id
  }

  lemma PrefixLists(ranking: Ranking, n: nat, id: ChunkId)
    requires n <= |ranking|
    ensures Lists(ranking[..n], id) ==> Lists(ranking, id)
  {
    if Lists(ranking[..n], id) {
      var j :| 0 <= j < n && ranking[..n][j].id == id;
      assert ranking[j].id == id;
    }
  }

  lemma ListedOnce(ranking: Ranking, n: nat)
    requires n < |ranking| && DuplicateFree(ranking)
    ensures !Lists(ranking[..n], ranking[n].id)
  {
    assert forall j | 0 <= j < n :: ranking[..n][j] == ranking[j];
  }

  lemma {:induction false} NoShare(ranking: Ranking, k: int, id: ChunkId)
    requires Divides(ranking, k) && !Lists(ranking, id)
    ensures Share(ranking, k, id) == 0.0
    decreases |ranking|
  {
    if ranking != [] {
      PrefixLists(ranking, |ranking| - 1, id);
      NoShare(ranking[..|ranking| - 1], k, id);
    }
  }

  /** A duplicate-free ranking adds exactly 1/(k+rank). */
  lemma {:induction false} ShareAt(ranking: Ranking, k: int, j: nat)
    requires Divides(ranking, k) && DuplicateFree(ranking) && j < |ranking|
    ensures k + j + 1 != 0 && Share(ranking, k, ranking[j].id) == 1.0 / (k + j + 1) as real
    decreases |ranking|
  {
    var n := |ranking|;
    var init := ranking[..n - 1];
    if j < n - 1 {
      ShareAt(init, k, j);
    } else {
      ListedOnce(ranking, j);
      NoShare(init, k, ranking[j].id);
    }
  }

  lemma Cancel(x: real, y: real, a: real)
    requires a > 0.0
    ensures x * a >= y * a ==> x >= y
    ensures x * a > y * a ==> x > y
  {
  }

  lemma Inverse(a: real)
    requires a > 0.0
    ensures 1.0 / a > 0.0 && 1.0 / a * a == 1.0
  {
  }

  lemma Scale(y: real, a: real, b: real)
    requires y > 0.0 && a <= b
    ensures y * a <= y * b
  {
  }

  lemma Reciprocals(a: int, b: int)
    requires 0 < a <= b
    ensures 1.0 / a as real >= 1.0 / b as real > 0.0
  {
    var x, y := 1.0 / a as real, 1.0 / b as real;
    Inverse(a as real);
    Inverse(b as real);
    Scale(y, a as real, b as real);
    Cancel(x, y, a as real);
  }

  /** x is listed wherever y is, and never below it. */
  ghost predicate NoWorse(ranking: Ranking, x: ChunkId, y: ChunkId) {
    forall j | 0 <= j < |ranking| && ranking[j].id == y :: exists i :: 0 <= i <= j && ranking[i].id == x
  }

  lemma ShareMonotone(ranking: Ranking, k: int, x: ChunkId, y: ChunkId)
    requires k >= 0 && DuplicateFree(ranking) && NoWorse(ranking, x, y)
    ensures Share(ranking, k, x) >= Share(ranking, k, y)
  {
    if Lists(ranking, y) {
      var j :| 0 <= j < |ranking| && ranking[j].id == y;
      var i :| 0 <= i <= j && ranking[i].id == x;
      ShareAt(ranking, k, j);
      ShareAt(ranking, k, i);
      Reciprocals(k + i + 1, k + j + 1);
    } else {
      NoShare(ranking, k, y);
      SharePositive(ranking, k, x);
    }
  }

  lemma {:induction false} SharePositive(ranking: Ranking, k: int, id: ChunkId)
    requires k >= 0
    ensures Share(ranking, k, id) >= 0.0
    decreases |ranking|
  {
    if ranking != [] {
      SharePositive(ranking[..|ranking| - 1], k, id);
      Reciprocals(k + |ranking|, k + |ranking|);
    }
  }

  /** An id ranked no worse than another wherever the other appears scores no lower. */
  lemma {:induction false} FusionIsMonotone(rankings: seq<Ranking>, k: int, x: ChunkId, y: ChunkId)
    requires k >= 0
    requires forall i | 0 <= i < |rankings| :: DuplicateFree(rankings[i]) && NoWorse(rankings[i], x, y)
    ensures Score(rankings, k, x) >= Score(rankings, k, y)
    decreases |rankings|
  {
    if rankings != [] {
      var n := |rankings|;
      FusionIsMonotone(rankings[..n - 1], k, x, y);
      ShareMonotone(rankings[n - 1], k, x, y);
    }
  }

  lemma ScoreOfTwo(a: Ranking, b: Ranking, k: int, id: ChunkId)
    requires k >= 0
    ensures Score([a, b], k, id) == Share(a, k, id) + Share(b, k, id)
  {
    assert [a, b][..1] == [a] && [a][..0] == [];
    assert Score([a], k, id) == Share(a, k, id);
  }

  lemma ShareBounds(ranking: Ranking, k: int, id: ChunkId)
    requires k >= 0 && DuplicateFree(ranking) && Lists(ranking, id)
    ensures 1.0 / (k + 1) as real >= Share(ranking, k, id) >= 1.0 / (k + |ranking|) as real
  {
    var j :| 0 <= j < |ranking| && ranking[j].id == id;
    ShareAt(ranking, k, j);
    Reciprocals(k + 1, k + j + 1);
    Reciprocals(k + j + 1, k + |ranking|);
  }

  lemma TwoLastBeatFirst(k: int)
    requires k >= 0
    ensures 1.0 / (2 * k + 1) as real + 1.0 / (2 * k + 1) as real > 1.0 / (k + 1) as real
  {
    var x, y := 1.0 / (2 * k + 1) as real, 1.0 / (k + 1) as real;
    assert x * (2 * k + 1) as real == 1.0 && y * (k + 1) as real == 1.0;
    assert (x + x) * (k + 1) as real == x * (2 * k + 1) as real + x;
    Reciprocals(2 * k + 1, 2 * k + 1);
    Cancel(x + x, y, (k + 1) as real);
  }

  /** Agreement wins: with two duplicate-free rankings no longer than k+1, an id in both outscores every id in one. */
  lemma AgreementWins(a: Ranking, b: Ranking, k: int, both: ChunkId, one: ChunkId)
    requires k >= 0 && DuplicateFree(a) && DuplicateFree(b) && |a| <= k + 1 && |b| <= k + 1
    requires Lists(a, both) && Lists(b, both) && !(Lists(a, one) && Lists(b, one))
    ensures Score([a, b], k, both) > Score([a, b], k, one)
  {
    ScoreOfTwo(a, b, k, both);
    ScoreOfTwo(a, b, k, one);
    ShareBounds(a, k, both);
    ShareBounds(b, k, both);
    Reciprocals(k + |a|, 2 * k + 1);
    Reciprocals(k + |b|, 2 * k + 1);
    TwoLastBeatFirst(k);
    Reciprocals(k + 1, k + 1);
    if Lists(a, one) {
      ShareBounds(a, k, one);
      NoShare(b, k, one);
    } else {
      NoShare(a, k, one);
      if Lists(b, one) {
        ShareBounds(b, k, one);
      } else {
        NoShare(b, k, one);
      }
    }
  }

  /** The bound is tight: one place further down, the last of both rankings only ties with the first of one. */
  lemma AgreementBoundIsTight(a: Ranking, b: Ranking, k: int)
    requires k >= 0 && DuplicateFree(a) && DuplicateFree(b) && |a| == |b| == k + 2
    requires a[k + 1].id == b[k + 1].id && !Lists(b, a[0].id)
    ensures Score([a, b], k, a[k + 1].id) == Score([a, b], k, a[0].id)
  {
    ScoreOfTwo(a, b, k, a[k + 1].id);
    ScoreOfTwo(a, b, k, a[0].id);
    ShareAt(a, k, k + 1);
    ShareAt(b, k, k + 1);
    ShareAt(a, k, 0);
    NoShare(b, k, a[0].id);
    var x, y := 1.0 / (2 * k + 2) as real, 1.0 / (k + 1) as real;
    assert x * (2 * k + 2) as real == 1.0 && y * (k + 1) as real == 1.0;
    assert (x + x) * (k + 1) as real == x * (2 * k + 2) as real;
    Cancel(x + x, y, (k + 1) as real);
    Cancel(y, x + x, (k + 1) as real);
  }

  // ---------- search ----------

  datatype Mode = Lexical | Dense | Hybrid

  datatype SearchResult = SearchResult(id: ChunkId, row: ChunkRow, score: real, lexicalScore: Option<real>, vectorScore: Option<real>)

  /** dict(hits): the last score of each id. */
  function ScoresOf(hits: Ranking): map<ChunkId, real>
    decreases |hits|
  {
    if hits == [] then map[] else ScoresOf(hits[..|hits| - 1])[hits[|hits| - 1].id := hits[|hits| - 1].score]
  }

  lemma {:induction false} ScoresOfHits(hits: Ranking)
    ensures forall i | 0 <= i < |hits| :: hits[i].id in ScoresOf(hits)
    decreases |hits|
  {
    if hits != [] {
      var init := hits[..|hits| - 1];
      ScoresOfHits(init);
      forall i | 0 <= i < |hits| ensures hits[i].id in ScoresOf(hits) {
        assert i < |init| ==> init[i] == hits[i];
      }
    }
  }

  /** Of several hits with one id the last one's score counts. */
  lemma {:induction false} LastScoreCounts(hits: Ranking, i: nat)
    requires i < |hits| && forall j | i < j < |hits| :: hits[j].id != hits[i].id
    ensures hits[i].id in ScoresOf(hits) && ScoresOf(hits)[hits[i].id] == hits[i].score
    decreases |hits|
  {
    if i < |hits| - 1 {
      LastScoreCounts(hits[..|hits| - 1], i);
    }
  }

  /** sorted(ids, key=score, reverse=True): by falling score, equal scores in their given order. */
  function ByScore(ids: seq<ChunkId>, scores: map<ChunkId, real>): seq<ChunkId> {
    if ids == [] then [] else Placed(ids[0], ByScore(ids[1..], scores), scores)
  }

  function Placed(id: ChunkId, ids: seq<ChunkId>, scores: map<ChunkId, real>): seq<ChunkId> {
    if ids == [] || ScoreIn(scores, id) >= ScoreIn(scores, ids[0]) then [id] + ids else [ids[0]] + Placed(id, ids[1..], scores)
  }

  ghost predicate Falling(ids: seq<ChunkId>, scores: map<ChunkId, real>) {
    forall i, j :: 0 <= i < j < |ids| ==> ScoreIn(scores, ids[i]) >= ScoreIn(scores, ids[j])
  }

  lemma BeforeMore(h: ChunkId, ids: seq<ChunkId>, x: ChunkId, y: ChunkId)
    ensures Before(ids, x, y) || (x == h && y in ids) <==> Before([h] + ids, x, y)
  {
    if Before(ids, x, y) {
      var a, b :| 0 <= a < b < |ids| && ids[a] == x && ids[b] == y;
      assert ([h] + ids)[a + 1] == x && ([h] + ids)[b + 1] == y;
    }
    if x == h && y in ids {
      var b :| 0 <= b < |ids| && ids[b] == y;
      assert ([h] + ids)[0] == x && ([h] + ids)[b + 1] == y;
    }
    if Before([h] + ids, x, y) {
      var a, b :| 0 <= a < b < |ids| + 1 && ([h] + ids)[a] == x && ([h] + ids)[b] == y;
      assert ids[b - 1] == y && (a > 0 ==> ids[a - 1] == x);
    }
  }

  lemma {:induction false} PlacedIsStable(id: ChunkId, ids: seq<ChunkId>, scores: map<ChunkId, real>, x: ChunkId, y: ChunkId)
    requires Before(Placed(id, ids, scores), x, y) && ScoreIn(scores, x) == ScoreIn(scores, y)
    ensures Before([id] + ids, x, y)
    decreases |ids|
  {
    hide Before, ScoreIn;
    if ids != [] && ScoreIn(scores, id) < ScoreIn(scores, ids[0]) {
      var rest := Placed(id, ids[1..], scores);
      assert ids == [ids[0]] + ids[1..];
      PlacedKeeps(id, ids[1..], scores);
      BeforeMore(ids[0], rest, x, y);
      BeforeMore(ids[0], ids[1..], x, y);
      BeforeMore(id, ids[1..], x, y);
      BeforeMore(id, ids, x, y);
      if x == ids[0] && y in rest {
        assert y in multiset(rest);
        assert y != id && y in ids[1..];
      } else {
        PlacedIsStable(id, ids[1..], scores, x, y);
        assert y in ids[1..] ==> y in ids;
      }
    }
  }

  /** Ids of equal score stay in their given order. */
  lemma {:induction false} ByScoreIsStable(ids: seq<ChunkId>, scores: map<ChunkId, real>, x: ChunkId, y: ChunkId)
    requires Before(ByScore(ids, scores), x, y) && ScoreIn(scores, x) == ScoreIn(scores, y)
    ensures Before(ids, x, y)
    decreases |ids|
  {
    hide Before, ScoreIn, Placed;
    if ids == [] {
      assert !Before([], x, y) by { NothingBefore(x, y); }
    } else {
      var rest := ByScore(ids[1..], scores);
      assert ids == [ids[0]] + ids[1..];
      PlacedIsStable(ids[0], rest, scores, x, y);
      BeforeMore(ids[0], rest, x, y);
      BeforeMore(ids[0], ids[1..], x, y);
      if Before(rest, x, y) {
        ByScoreIsStable(ids[1..], scores, x, y);
      } else {
        ByScoreFalls(ids[1..], scores);
        assert y in multiset(rest);
        assert y in multiset(ids[1..]);
      }
    }
  }

  lemma NothingBefore(x: ChunkId, y: ChunkId)
    ensures !Before([], x, y)
  {
  }

  lemma {:induction false} PlacedKeeps(id: ChunkId, ids: seq<ChunkId>, scores: map<ChunkId, real>)
    ensures multiset(Placed(id, ids, scores)) == multiset(ids) + multiset{id}
    decreases |ids|
  {
    if ids != [] {
      PlacedKeeps(id, ids[1..], scores);
      assert ids == [ids[0]] + ids[1..];
    }
  }

  lemma FrontFalls(id: ChunkId, ids: seq<ChunkId>, scores: map<ChunkId, real>)
    requires Falling(ids, scores) && forall x | x in ids :: ScoreIn(scores, id) >= ScoreIn(scores, x)
    ensures Falling([id] + ids, scores)
  {
    hide ScoreIn;
  }

  lemma {:induction false} PlacedFalls(id: ChunkId, ids: seq<ChunkId>, scores: map<ChunkId, real>)
    requires Falling(ids, scores)
    ensures Falling(Placed(id, ids, scores), scores)
    decreases |ids|
  {
    hide ScoreIn;
    if ids == [] || ScoreIn(scores, id) >= ScoreIn(scores, ids[0]) {
      forall x | x in ids ensures ScoreIn(scores, id) >= ScoreIn(scores, x) {
        var j :| 0 <= j < |ids| && ids[j] == x;
        assert j > 0 ==> ScoreIn(scores, ids[0]) >= ScoreIn(scores, ids[j]);
      }
      FrontFalls(id, ids, scores);
    } else {
      var rest := Placed(id, ids[1..], scores);
      PlacedFalls(id, ids[1..], scores);
      PlacedKeeps(id, ids[1..], scores);
      forall x | x in rest ensures ScoreIn(scores, ids[0]) >= ScoreIn(scores, x) {
        assert x in multiset(rest);
        assert x == id || x in ids[1..];
      }
      FrontFalls(ids[0], rest, scores);
    }
  }

  lemma {:induction false} ByScoreFalls(ids: seq<ChunkId>, scores: map<ChunkId, real>)
    ensures Falling(ByScore(ids, scores), scores) && multiset(ByScore(ids, scores)) == multiset(ids)
    decreases |ids|
  {
    if ids != [] {
      ByScoreFalls(ids[1..], scores);
      PlacedFalls(ids[0], ByScore(ids[1..], scores), scores);
      PlacedKeeps(ids[0], ByScore(ids[1..], scores), scores);
      assert ids == [ids[0]] + ids[1..];
    }
  }

  /** The ids that still have a chunk row, in order. */
  function Present(ids: seq<ChunkId>, chunks: map<ChunkId, ChunkRow>): seq<ChunkId> {
    if ids == [] then [] else (if ids[0] in chunks then [ids[0]] else []) + Present(ids[1..], chunks)
  }

  function ResultIds(results: seq<SearchResult>): (ids: seq<ChunkId>)
    ensures |ids| == |results|
  {
    seq(|results|, i requires 0 <= i < |results| => results[i].id)
  }

  lemma ResultIdsMore(results: seq<SearchResult>, result: SearchResult)
    ensures ResultIds(results + [result]) == ResultIds(results) + [result.id]
  {
  }

  function Get(scores: map<ChunkId, real>, id: ChunkId): Option<real> {
    if id in scores then Some(scores[id]) else None
  }

  lemma PresentMore(ids: seq<ChunkId>, i: nat, chunks: map<ChunkId, ChunkRow>)
    requires i < |ids|
    ensures Present(ids[i..], chunks) == (if ids[i] in chunks then [ids[i]] else []) + Present(ids[i + 1..], chunks)
  {
    assert ids[i..][1..] == ids[i + 1..];
  }

  /** The list names x before it first names y. */
  ghost predicate NamedFirst(ids: seq<ChunkId>, x: ChunkId, y: ChunkId) {
    exists p :: 0 <= p < |ids| && ids[p] == x && y !in ids[..p + 1]
  }

  /** The ranked ids of a search. The fused ones are those of both stores, each once, by falling score; of two with equal
      scores the one named first comes first, the lexical store's list before the other. */
  ghost predicate RankedBy(ranked: seq<ChunkId>, mode: Mode, lexical: Ranking, vector: Ranking, k: int) {
    match mode
    case Lexical => ranked == IdsOf(lexical)
    case Dense => ranked == IdsOf(vector)
    case Hybrid =>
      && Divides(lexical, k) && Divides(vector, k)
      && (forall id :: id in ranked <==> Lists(lexical, id) || Lists(vector, id))
      && (forall i, j :: 0 <= i < j < |ranked| ==> ranked[i] != ranked[j])
      && (forall i, j :: 0 <= i < j < |ranked| ==> Score([lexical, vector], k, ranked[i]) >= Score([lexical, vector], k, ranked[j]))
      && (forall i, j :: 0 <= i < j < |ranked| && Score([lexical, vector], k, ranked[i]) == Score([lexical, vector], k, ranked[j]) ==>
            NamedFirst(IdsOf(lexical) + IdsOf(vector), ranked[i], ranked[j]))
  }

  function Front(ids: seq<ChunkId>, n: nat): seq<ChunkId> {
    if |ids| <= n then ids else ids[..n]
  }

  /** lexical and vector are what the two stores answer; a mode that leaves a store out does not ask it. */
  method Search(mode: Mode, lexical: Ranking, vector: Ranking, chunks: map<ChunkId, ChunkRow>, topK: nat, k: int)
    returns (results: Option<seq<SearchResult>>, ghost ranked: seq<ChunkId>, ghost places: seq<nat>)
    requires mode.Dense? ==> lexical == []
    requires mode.Lexical? ==> vector == []
    ensures results.None? <==> mode.Hybrid? && !(Divides(lexical, k) && Divides(vector, k))
    ensures results.Some? ==> RankedBy(ranked, mode, lexical, vector, k)
    ensures results.Some? ==> ResultIds(results.value) == Present(Front(ranked, topK), chunks)
    ensures results.Some? ==> Places(places, results.value, ranked, topK, chunks)
    ensures results.Some? && mode.Hybrid? ==> forall r, j | r in results.value && topK <= j < |ranked| ::
              Score([lexical, vector], k, r.id) >= Score([lexical, vector], k, ranked[j])
    ensures results.Some? ==> forall r | r in results.value ::
              && r.id in chunks && r.row == chunks[r.id]
              && r.lexicalScore == Get(ScoresOf(lexical), r.id) && r.vectorScore == Get(ScoresOf(vector), r.id)
              && (mode.Hybrid? ==> r.score == Score([lexical, vector], k, r.id))
              && (mode.Lexical? ==> Some(r.score) == r.lexicalScore)
              && (mode.Dense? ==> Some(r.score) == r.vectorScore)
  {
    hide Score, Share, ByScore, ScoresOf, RankedBy, Places, Present, Front, ResultIds, FirstSeen, Listing;
    var combined, ids;
    if mode.Hybrid? {
      assert [lexical, vector][0] == lexical && [lexical, vector][1] == vector;
      var fused, order := Fuse([lexical, vector], k);
      if fused.None? {
        return None, [], [];
      }
      combined, ids := fused.value, ByScore(order, fused.value);
      FusedRanking(lexical, vector, k, fused.value, order);
    } else if mode.Lexical? {
      combined, ids := ScoresOf(lexical), IdsOf(lexical);
      ScoresOfHits(lexical);
      PlainRanking(mode, lexical, vector, k);
    } else {
      combined, ids := ScoresOf(vector), IdsOf(vector);
      ScoresOfHits(vector);
      PlainRanking(mode, lexical, vector, k);
    }
    ranked := ids;
    assert forall i | 0 <= i < |ids| :: ids[i] in combined;
    FrontIds(ids, topK);
    var found, picked := Collect(Front(ids, topK), combined, ScoresOf(lexical), ScoresOf(vector), chunks);
    FrontPlaces(picked, found, ids, topK, chunks);
    results, places := Some(found), picked;
    if mode.Hybrid? {
      forall r, j | r in found && topK <= j < |ranked|
        ensures Score([lexical, vector], k, r.id) >= Score([lexical, vector], k, ranked[j])
      {
        LeftOutIsNoBetter(picked, found, ranked, lexical, vector, k, topK, chunks, r, j);
      }
    }
  }

  lemma PlainRanking(mode: Mode, lexical: Ranking, vector: Ranking, k: int)
    requires !mode.Hybrid?
    ensures RankedBy(IdsOf(if mode.Lexical? then lexical else vector), mode, lexical, vector, k)
  {
  }

  /** The results are, in the ranked order, the ids at the first limit places that have a chunk row; places[m] is where the
      m-th result is ranked. */
  ghost predicate Places(places: seq<nat>, results: seq<SearchResult>, ranked: seq<ChunkId>, limit: nat, chunks: map<ChunkId, ChunkRow>) {
    && |places| == |results| <= limit
    && (forall m | 0 <= m < |places| :: places[m] < limit && places[m] < |ranked| && ranked[places[m]] == results[m].id)
    && (forall m, n :: 0 <= m < n < |places| ==> places[m] < places[n])
    && (forall i | 0 <= i < |ranked| && i < limit && ranked[i] in chunks :: i in places)
  }

  lemma NoPlaces(ranked: seq<ChunkId>, chunks: map<ChunkId, ChunkRow>)
    ensures Places([], [], ranked, 0, chunks)
  {
  }

  lemma NextPlace(places: seq<nat>, results: seq<SearchResult>, ranked: seq<ChunkId>, i: nat, chunks: map<ChunkId, ChunkRow>,
                  result: SearchResult)
    requires Places(places, results, ranked, i, chunks) && i < |ranked| && result.id == ranked[i]
    ensures Places(places + [i], results + [result], ranked, i + 1, chunks)
  {
  }

  lemma PassedOver(places: seq<nat>, results: seq<SearchResult>, ranked: seq<ChunkId>, i: nat, chunks: map<ChunkId, ChunkRow>)
    requires Places(places, results, ranked, i, chunks) && i < |ranked| && ranked[i] !in chunks
    ensures Places(places, results, ranked, i + 1, chunks)
  {
  }

  lemma FrontIds(ids: seq<ChunkId>, n: nat)
    ensures |Front(ids, n)| <= |ids| && forall i | 0 <= i < |Front(ids, n)| :: Front(ids, n)[i] == ids[i]
  {
  }

  lemma FrontPlaces(places: seq<nat>, results: seq<SearchResult>, ranked: seq<ChunkId>, limit: nat, chunks: map<ChunkId, ChunkRow>)
    requires Places(places, results, Front(ranked, limit), |Front(ranked, limit)|, chunks)
    ensures Places(places, results, ranked, limit, chunks)
  {
    var front := Front(ranked, limit);
    assert forall i | 0 <= i < |front| :: front[i] == ranked[i];
  }

  /** No id that the limit leaves out scores higher than a result. */
  lemma LeftOutIsNoBetter(places: seq<nat>, results: seq<SearchResult>, ranked: seq<ChunkId>, lexical: Ranking, vector: Ranking,
                          k: int, limit: nat, chunks: map<ChunkId, ChunkRow>, r: SearchResult, j: nat)
    requires Places(places, results, ranked, limit, chunks) && RankedBy(ranked, Hybrid, lexical, vector, k)
    requires r in results && limit <= j < |ranked|
    ensures Score([lexical, vector], k, r.id) >= Score([lexical, vector], k, ranked[j])
  {
    hide Score, NamedFirst, Lists;
    var m :| 0 <= m < |results| && results[m] == r;
    assert places[m] < j && ranked[places[m]] == r.id;
  }

  /** The loop over the first ids: an id whose chunk row has gone is passed over. */
  method Collect(front: seq<ChunkId>, combined: map<ChunkId, real>, lexical: map<ChunkId, real>, vector: map<ChunkId, real>,
                 chunks: map<ChunkId, ChunkRow>) returns (found: seq<SearchResult>, ghost places: seq<nat>)
    requires forall i | 0 <= i < |front| :: front[i] in combined
    ensures ResultIds(found) == Present(front, chunks)
    ensures Places(places, found, front, |front|, chunks)
    ensures forall r | r in found :: Described(r, combined, lexical, vector, chunks)
  {
    hide ResultIds, Described, Places, Present;
    found, places := [], [];
    NoPlaces(front, chunks);
    NothingPresent(front, chunks);
    for i := 0 to |front|
      invariant ResultIds(found) + Present(front[i..], chunks) == Present(front, chunks)
      invariant Places(places, found, front, i, chunks)
      invariant forall r | r in found :: Described(r, combined, lexical, vector, chunks)
    {
      var id := front[i];
      PresentMore(front, i, chunks);
      if id !in chunks {
        PassedOver(places, found, front, i, chunks);
      } else {
        var result := SearchResult(id, chunks[id], combined[id], Get(lexical, id), Get(vector, id));
        DescribedResult(result, combined, lexical, vector, chunks);
        NextPlace(places, found, front, i, chunks, result);
        ResultIdsMore(found, result);
        found, places := found + [result], places + [i];
      }
    }
  }

  /** A result carries its chunk's row and its scores. */
  ghost predicate Described(r: SearchResult, combined: map<ChunkId, real>, lexical: map<ChunkId, real>,
                            vector: map<ChunkId, real>, chunks: map<ChunkId, ChunkRow>) {
    && r.id in chunks && r.row == chunks[r.id] && r.id in combined && r.score == combined[r.id]
    && r.lexicalScore == Get(lexical, r.id) && r.vectorScore == Get(vector, r.id)
  }

  lemma DescribedResult(r: SearchResult, combined: map<ChunkId, real>, lexical: map<ChunkId, real>, vector: map<ChunkId, real>,
                        chunks: map<ChunkId, ChunkRow>)
    requires r.id in chunks && r.id in combined
    requires r == SearchResult(r.id, chunks[r.id], combined[r.id], Get(lexical, r.id), Get(vector, r.id))
    ensures Described(r, combined, lexical, vector, chunks)
  {
  }

  lemma NothingPresent(front: seq<ChunkId>, chunks: map<ChunkId, ChunkRow>)
    ensures ResultIds([]) + Present(front[0..], chunks) == Present(front, chunks) && Present(front[|front|..], chunks) == []
  {
    assert front[0..] == front;
  }

  lemma ListingOfTwo(lexical: Ranking, vector: Ranking)
    ensures Listing([lexical, vector]) == IdsOf(lexical) + IdsOf(vector)
  {
    assert [lexical, vector][..1] == [lexical] && [lexical][..0] == [];
    assert Listing([lexical]) == [] + IdsOf(lexical);
  }

  lemma TiesAreNamedFirst(order: seq<ChunkId>, fused: map<ChunkId, real>, listed: seq<ChunkId>, i: nat, j: nat)
    requires order == FirstSeen(listed) && i < j < |ByScore(order, fused)|
    requires ScoreIn(fused, ByScore(order, fused)[i]) == ScoreIn(fused, ByScore(order, fused)[j])
    ensures NamedFirst(listed, ByScore(order, fused)[i], ByScore(order, fused)[j])
  {
    hide FirstSeen, ByScore, ScoreIn;
    var x, y := ByScore(order, fused)[i], ByScore(order, fused)[j];
    assert Before(ByScore(order, fused), x, y);
    ByScoreIsStable(order, fused, x, y);
    var a, b :| 0 <= a < b < |order| && order[a] == x && order[b] == y;
    FirstSeenInOrder(listed, a, b);
  }

  lemma EachOnce(ids: seq<ChunkId>, order: seq<ChunkId>)
    requires multiset(ids) == multiset(order) && forall i, j :: 0 <= i < j < |order| ==> order[i] != order[j]
    ensures forall i, j :: 0 <= i < j < |ids| ==> ids[i] != ids[j]
  {
    forall i, j | 0 <= i < j < |ids| ensures ids[i] != ids[j] {
      if ids[i] == ids[j] {
        TwiceCounts(ids, i, j);
        OnceCounts(order, ids[i]);
      }
    }
  }

  lemma TwiceCounts(ids: seq<ChunkId>, i: nat, j: nat)
    requires i < j < |ids| && ids[i] == ids[j]
    ensures multiset(ids)[ids[i]] >= 2
  {
    assert ids == ids[..j] + [ids[j]] + ids[j + 1..];
    assert ids[..j] == ids[..i] + [ids[i]] + ids[i + 1..j];
  }

  lemma {:induction false} OnceCounts(ids: seq<ChunkId>, id: ChunkId)
    requires forall i, j :: 0 <= i < j < |ids| ==> ids[i] != ids[j]
    ensures multiset(ids)[id] <= 1
    decreases |ids|
  {
    if ids != [] {
      OnceCounts(ids[1..], id);
      assert ids == [ids[0]] + ids[1..];
      assert ids[0] !in multiset(ids[1..]);
    }
  }

  lemma FusedRanking(lexical: Ranking, vector: Ranking, k: int, fused: map<ChunkId, real>, order: seq<ChunkId>)
    requires Divides(lexical, k) && Divides(vector, k)
    requires forall id :: (id in fused <==> Ranked([lexical, vector], id)) && ScoreIn(fused, id) == Score([lexical, vector], k, id)
    requires order == FirstSeen(Listing([lexical, vector])) && forall i, j :: 0 <= i < j < |order| ==> order[i] != order[j]
    requires forall id :: id in order <==> id in fused
    ensures RankedBy(ByScore(order, fused), Hybrid, lexical, vector, k)
    ensures forall id :: id in ByScore(order, fused) <==> id in fused
  {
    hide Score, Share, Lists, ByScore, FirstSeen, Listing, NamedFirst, ScoreIn;
    ByScoreFalls(order, fused);
    ListingOfTwo(lexical, vector);
    var ranked := ByScore(order, fused);
    EachOnce(ranked, order);
    forall id ensures id in ranked <==> id in fused {
      assert id in multiset(ranked) <==> id in multiset(order);
    }
    assert [lexical, vector][0] == lexical && [lexical, vector][1] == vector;
    forall id ensures Ranked([lexical, vector], id) <==> Lists(lexical, id) || Lists(vector, id) {
      assert Lists([lexical, vector][0], id) || Lists([lexical, vector][1], id) ==> Ranked([lexical, vector], id);
    }
    forall i, j | 0 <= i < j < |ranked| && Score([lexical, vector], k, ranked[i]) == Score([lexical, vector], k, ranked[j])
      ensures NamedFirst(IdsOf(lexical) + IdsOf(vector), ranked[i], ranked[j])
    {
      TiesAreNamedFirst(order, fused, IdsOf(lexical) + IdsOf(vector), i, j);
    }
  }

  /** In a hybrid search every id that both stores returned comes before every id that only one returned. */
  lemma AgreementRanksFirst(ranked: seq<ChunkId>, lexical: Ranking, vector: Ranking, k: int, i: nat, j: nat)
    requires RankedBy(ranked, Hybrid, lexical, vector, k) && i < |ranked| && j < |ranked|
    requires k >= 0 && DuplicateFree(lexical) && DuplicateFree(vector) && |lexical| <= k + 1 && |vector| <= k + 1
    requires Lists(lexical, ranked[i]) && Lists(vector, ranked[i]) && !(Lists(lexical, ranked[j]) && Lists(vector, ranked[j]))
    ensures i < j
  {
    AgreementWins(lexical, vector, k, ranked[i], ranked[j]);
  }

  /** Over a healthy store, whatever the two stores return: each result is a chunk of its file's recorded content. So the
      points an interrupted first insert left behind, whose file has no row, never reach a result. */
  lemma ResultsAreIndexed(chunker: Chunker, s: Store, ids: seq<ChunkId>, id: ChunkId)
    requires Sound(chunker, s) && id in Present(ids, s.chunks)
    ensures id in ids && id in s.chunks && id.path in s.files
    ensures id in Ids(id.path, chunker(id.path, s.files[id.path].sha.content))
    ensures s.chunks[id].commit == s.files[id.path].commit
  {
    PresentIds(ids, s.chunks, id);
    var p := id.path;
    assert id in Slice(s.chunks, p);
    SoundShare(chunker, s, id);
    var row := s.files[p];
    var pieces := chunker(p, row.sha.content);
    KeysAreIds(p, pieces, row.commit);
    assert id in Rows(p, pieces, row.commit).Keys;
    var i :| 0 <= i < |pieces| && IdOf(p, pieces[i]) == id;
    RowsHoldPieces(p, pieces, row.commit, i);
    assert s.chunks[id] == Slice(s.chunks, p)[id];
  }

  lemma SoundShare(chunker: Chunker, s: Store, id: ChunkId)
    requires Sound(chunker, s) && id in s.chunks
    ensures id.path in s.files && Healthy(chunker, id.path, ViewOf(s, id.path))
  {
    assert Healthy(chunker, id.path, ViewOf(s, id.path));
    assert id in Slice(s.chunks, id.path);
  }

  lemma {:induction false} PresentIds(ids: seq<ChunkId>, chunks: map<ChunkId, ChunkRow>, id: ChunkId)
    ensures id in Present(ids, chunks) <==> id in ids && id in chunks
    decreases |ids|
  {
    if ids != [] {
      PresentIds(ids[1..], chunks, id);
      assert ids == [ids[0]] + ids[1..];
    }
  }
}
