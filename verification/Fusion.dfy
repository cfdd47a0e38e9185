/** Reciprocal-rank fusion of a semantic and a lexical ranking, over exact reals. */
module Fusion {
  import opened Text

  datatype Chunk = Chunk(id: string, text: string)

  ghost predicate DistinctIds(s: seq<Chunk>) {
    forall i, j :: 0 <= i < j < |s| ==> s[i].id != s[j].id
  }

  predicate Has(s: seq<Chunk>, id: string) {
    exists i :: 0 <= i < |s| && s[i].id == id
  }

  /** The position of an id, counted from one; past the end if it is absent. */
  function Rank(s: seq<Chunk>, id: string): (r: nat)
    ensures 1 <= r <= |s| + 1
    ensures r <= |s| ==> s[r - 1].id == id
    ensures r == |s| + 1 <==> !Has(s, id)
    ensures forall i :: 0 <= i < r - 1 ==> s[i].id != id
  {
    if s == [] then 1
    else if s[0].id == id then 1
    else
      assert forall i :: 0 < i < |s| ==> s[i] == s[1..][i - 1];
      1 + Rank(s[1..], id)
  }

  function Share(k: nat, rank: nat): real
    requires rank > 0
  {
    1.0 / (k + rank) as real
  }

  /** What one list adds to an id's score. */
  function Part(k: nat, s: seq<Chunk>, id: string): real {
    if Has(s, id) then Share(k, Rank(s, id)) else 0.0
  }

  function Score(k: nat, semantic: seq<Chunk>, lexical: seq<Chunk>, id: string): real {
    Part(k, semantic, id) + Part(k, lexical, id)
  }

  /** Ids in the order in which they are first met. */
  function Order(semantic: seq<Chunk>, lexical: seq<Chunk>): seq<string> {
    Merge(Merge([], semantic), lexical)
  }

  function Merge(ids: seq<string>, s: seq<Chunk>): seq<string>
    decreases |s|
  {
    if s == [] then ids
    else Merge(ids + (if s[0].id in ids then [] else [s[0].id]), s[1..])
  }

  // ---- Stable sorting -------------------------------------------------------------------------

  type Scores = map<string, real>

  function Inserted(scores: Scores, ids: seq<string>, x: string): seq<string>
    requires x in scores && forall i :: 0 <= i < |ids| ==> ids[i] in scores
  {
    if ids == [] then [x]
    else if scores[ids[|ids| - 1]] >= scores[x] then ids + [x]
    else Inserted(scores, ids[..|ids| - 1], x) + [ids[|ids| - 1]]
  }

  /** `sorted(ids, key=scores, reverse=True)`: highest first, equal scores in the given order. */
  function Sorted(scores: Scores, ids: seq<string>): (r: seq<string>)
    requires forall i :: 0 <= i < |ids| ==> ids[i] in scores
    ensures |r| == |ids| && forall i :: 0 <= i < |r| ==> r[i] in scores && r[i] in ids
  {
    if ids == [] then []
    else
      var n := |ids| - 1;
      var r := Sorted(scores, ids[..n]);
      InsertedMembers(scores, r, ids[n]);
      assert forall i :: 0 <= i < |r| ==> r[i] in ids[..n];
      Inserted(scores, r, ids[n])
  }

  lemma {:induction false} InsertedMembers(scores: Scores, ids: seq<string>, x: string)
    requires x in scores && forall i :: 0 <= i < |ids| ==> ids[i] in scores
    ensures var r := Inserted(scores, ids, x);
            |r| == |ids| + 1 && multiset(r) == multiset(ids) + multiset{x} && forall i :: 0 <= i < |r| ==> r[i] == x || r[i] in ids
    decreases |ids|
  {
    if ids != [] {
      var n := |ids| - 1;
      assert ids == ids[..n] + [ids[n]];
      if scores[ids[n]] < scores[x] {
        InsertedMembers(scores, ids[..n], x);
      }
    }
  }

  function Place(ids: seq<string>, id: string): (p: nat)
    ensures p <= |ids| && (p < |ids| ==> ids[p] == id) && (p == |ids| <==> id !in ids)
    ensures forall i :: 0 <= i < p ==> ids[i] != id
  {
    if ids == [] || ids[0] == id then 0
    else
      assert ids == [ids[0]] + ids[1..];
      1 + Place(ids[1..], id)
  }

  /** Higher score first; among equal scores, the order in which they were met. */
  predicate Precedes(scores: Scores, ids: seq<string>, a: string, b: string) {
    a in scores && b in scores && (scores[a] > scores[b] || (scores[a] == scores[b] && Place(ids, a) < Place(ids, b)))
  }

  ghost predicate Ordered(scores: Scores, ids: seq<string>, r: seq<string>) {
    forall i, j :: 0 <= i < j < |r| ==> Precedes(scores, ids, r[i], r[j])
  }

  ghost predicate AllDistinct(ids: seq<string>) {
    forall i, j :: 0 <= i < j < |ids| ==> ids[i] != ids[j]
  }

  lemma OrderedSum(scores: Scores, ids: seq<string>, r: seq<string>, x: string)
    requires Ordered(scores, ids, r) && forall i :: 0 <= i < |r| ==> Precedes(scores, ids, r[i], x)
    ensures Ordered(scores, ids, r + [x])
  {
  }

  lemma LastPrecedes(scores: Scores, ids: seq<string>, a: string, b: string, x: string)
    requires x in scores && b in scores && (a == b || Precedes(scores, ids, a, b))
    requires scores[b] >= scores[x] && Place(ids, a) < Place(ids, x)
    ensures Precedes(scores, ids, a, x)
  {
  }

  lemma AllPrecede(scores: Scores, ids: seq<string>, r: seq<string>, x: string, t: seq<string>)
    requires r != [] && Ordered(scores, ids, r) && Precedes(scores, ids, x, r[|r| - 1])
    requires forall i :: 0 <= i < |t| ==> t[i] == x || t[i] in r[..|r| - 1]
    ensures forall i :: 0 <= i < |t| ==> Precedes(scores, ids, t[i], r[|r| - 1])
  {
    hide Precedes;
    forall i | 0 <= i < |t| ensures Precedes(scores, ids, t[i], r[|r| - 1]) {
      if t[i] != x {
        var front := r[..|r| - 1];
        var m :| 0 <= m < |front| && front[m] == t[i];
        assert r[m] == t[i];
      }
    }
  }

  lemma {:induction false} InsertedOrdered(scores: Scores, ids: seq<string>, r: seq<string>, x: string)
    requires x in scores && (forall i :: 0 <= i < |r| ==> r[i] in scores && Place(ids, r[i]) < Place(ids, x))
    requires Ordered(scores, ids, r)
    ensures Ordered(scores, ids, Inserted(scores, r, x))
    decreases |r|
  {
    if r != [] {
      var n := |r| - 1;
      var higher := scores[r[n]] < scores[x];
      assert higher ==> Precedes(scores, ids, x, r[n]);
      hide Precedes, Place;
      if higher {
        InsertedOrdered(scores, ids, r[..n], x);
        InsertedMembers(scores, r[..n], x);
        AllPrecede(scores, ids, r, x, Inserted(scores, r[..n], x));
        OrderedSum(scores, ids, Inserted(scores, r[..n], x), r[n]);
      } else {
        forall i | 0 <= i < |r| ensures Precedes(scores, ids, r[i], x) {
          LastPrecedes(scores, ids, r[i], r[n], x);
        }
        OrderedSum(scores, ids, r, x);
      }
    }
  }

  lemma {:induction false} PlaceInPrefix(ids: seq<string>, n: nat, id: string)
    requires n <= |ids| && id in ids[..n]
    ensures Place(ids, id) == Place(ids[..n], id) < n
  {
  }

  lemma PlaceOfLast(ids: seq<string>, n: nat)
    requires n < |ids| && AllDistinct(ids)
    ensures Place(ids, ids[n]) == n
  {
  }

  lemma NothingOrdered(scores: Scores, ids: seq<string>)
    ensures Ordered(scores, ids, [])
  {
  }

  /** Sorting gives a permutation in the order of precedence. */
  lemma {:induction false} SortedIsOrdered(scores: Scores, ids: seq<string>, n: nat)
    requires n <= |ids| && AllDistinct(ids) && forall i :: 0 <= i < |ids| ==> ids[i] in scores
    ensures Ordered(scores, ids, Sorted(scores, ids[..n]))
    ensures multiset(Sorted(scores, ids[..n])) == multiset(ids[..n])
    decreases n
  {
    hide Precedes, Inserted, Ordered;
    if n == 0 {
      NothingOrdered(scores, ids);
    } else {
      SortedIsOrdered(scores, ids, n - 1);
      assert ids[..n][..n - 1] == ids[..n - 1] && ids[..n] == ids[..n - 1] + [ids[n - 1]];
      var r := Sorted(scores, ids[..n - 1]);
      forall i | 0 <= i < |r| ensures Place(ids, r[i]) < Place(ids, ids[n - 1]) {
        PlaceInPrefix(ids, n - 1, r[i]);
        PlaceOfLast(ids, n - 1);
      }
      InsertedOrdered(scores, ids, r, ids[n - 1]);
      InsertedMembers(scores, r, ids[n - 1]);
    }
  }

  // ---- Fusion -----------------------------------------------------------------------------------

  function First(semantic: seq<Chunk>, lexical: seq<Chunk>, id: string): Chunk
    requires Has(semantic, id) || Has(lexical, id)
  {
    if Has(semantic, id) then semantic[Rank(semantic, id) - 1] else lexical[Rank(lexical, id) - 1]
  }

  lemma {:induction false} MergeMembers(ids: seq<string>, s: seq<Chunk>)
    requires AllDistinct(ids)
    ensures AllDistinct(Merge(ids, s))
    ensures forall id :: id in Merge(ids, s) <==> id in ids || Has(s, id)
    decreases |s|
  {
    if s != [] {
      assert s == [s[0]] + s[1..];
      var more := ids + (if s[0].id in ids then [] else [s[0].id]);
      MergeMembers(more, s[1..]);
      forall id ensures Has(s, id) <==> id == s[0].id || Has(s[1..], id) {
        assert s[0].id == id ==> Has(s, id);
        if Has(s[1..], id) {
          var i :| 0 <= i < |s[1..]| && s[1..][i].id == id;
          assert s[i + 1].id == id;
        }
        if Has(s, id) && id != s[0].id {
          var i :| 0 <= i < |s| && s[i].id == id;
          assert s[1..][i - 1].id == id;
        }
      }
    }
  }

  // ---- The loops -----------------------------------------------------------------------------------

  /** The scores after the first `i` chunks of a list. */
  ghost predicate ScoresAt(k: nat, s: seq<Chunk>, i: nat, scores0: Scores, scores: Scores) {
    && (forall id :: id in scores <==> id in scores0 || Rank(s, id) <= i)
    && (forall id :: id in scores ==>
          scores[id] == (if id in scores0 then scores0[id] else 0.0) + (if Rank(s, id) <= i then Share(k, Rank(s, id)) else 0.0))
  }

  /** The chunks kept after the first `i` of a list: the first one met for each id. */
  ghost predicate ChunksAt(s: seq<Chunk>, i: nat, chunks0: map<string, Chunk>, chunks: map<string, Chunk>)
    requires i <= |s|
  {
    && (forall id :: id in chunks <==> id in chunks0 || Rank(s, id) <= i)
    && (forall id :: id in chunks ==> chunks[id] == if id in chunks0 then chunks0[id] else s[Rank(s, id) - 1])
  }

  lemma ScoresNext(k: nat, s: seq<Chunk>, i: nat, scores0: Scores, scores: Scores)
    requires i < |s| && DistinctIds(s) && ScoresAt(k, s, i, scores0, scores)
    ensures var id := s[i].id;
            ScoresAt(k, s, i + 1, scores0, scores[id := (if id in scores then scores[id] else 0.0) + Share(k, i + 1)])
  {
    hide Rank, Share;
    RankAt(s, i);
  }

  lemma ChunksNext(s: seq<Chunk>, i: nat, chunks0: map<string, Chunk>, chunks: map<string, Chunk>)
    requires i < |s| && DistinctIds(s) && ChunksAt(s, i, chunks0, chunks)
    ensures var id := s[i].id;
            ChunksAt(s, i + 1, chunks0, chunks[id := if id in chunks then chunks[id] else s[i]])
  {
    hide Rank;
    RankAt(s, i);
  }

  /** One list's loop: each chunk adds its share, in order of rank. */
  method AddList(k: nat, s: seq<Chunk>, scores0: Scores, chunks0: map<string, Chunk>, ids0: seq<string>)
    returns (scores: Scores, chunks: map<string, Chunk>, ids: seq<string>)
    requires DistinctIds(s) && scores0.Keys == chunks0.Keys && forall id :: id in ids0 <==> id in scores0
    ensures ScoresAt(k, s, |s|, scores0, scores) && ChunksAt(s, |s|, chunks0, chunks) && ids == Merge(ids0, s)
    ensures scores.Keys == chunks.Keys && forall id :: id in ids <==> id in scores
  {
    hide ScoresAt, ChunksAt, Rank, Share;
    scores, chunks, ids := scores0, chunks0, ids0;
    NothingAdded(k, s, scores0, chunks0);
    var i := 0;
    while i < |s|
      invariant i <= |s| && ScoresAt(k, s, i, scores0, scores) && ChunksAt(s, i, chunks0, chunks)
      invariant scores.Keys == chunks.Keys && (forall id :: id in ids <==> id in scores)
      invariant Merge(ids, s[i..]) == Merge(ids0, s)
    {
      var id := s[i].id;
      assert s[i..][0] == s[i] && s[i..][1..] == s[i + 1..];
      ScoresNext(k, s, i, scores0, scores);
      ChunksNext(s, i, chunks0, chunks);
      ids := ids + (if id in ids then [] else [id]);
      scores := scores[id := (if id in scores then scores[id] else 0.0) + Share(k, i + 1)];
      chunks := chunks[id := if id in chunks then chunks[id] else s[i]];
      i := i + 1;
    }
    assert s[i..] == [];
  }

  lemma NothingAdded(k: nat, s: seq<Chunk>, scores0: Scores, chunks0: map<string, Chunk>)
    ensures ScoresAt(k, s, 0, scores0, scores0) && ChunksAt(s, 0, chunks0, chunks0)
  {
  }

  lemma BothScored(k: nat, semantic: seq<Chunk>, lexical: seq<Chunk>, some: Scores, all: Scores)
    requires ScoresAt(k, semantic, |semantic|, map[], some) && ScoresAt(k, lexical, |lexical|, some, all)
    ensures all == ScoresOf(k, semantic, lexical)
  {
    hide Rank, Share, Order;
    OrderMembers(semantic, lexical);
    forall id ensures id in all <==> Has(semantic, id) || Has(lexical, id)
      ensures id in all ==> all[id] == Score(k, semantic, lexical, id)
    {
      assert id in some <==> Has(semantic, id);
    }
  }

  lemma BothKept(semantic: seq<Chunk>, lexical: seq<Chunk>, chunks: map<string, Chunk>, both: map<string, Chunk>)
    requires ChunksAt(semantic, |semantic|, map[], chunks) && ChunksAt(lexical, |lexical|, chunks, both)
    ensures forall id :: id in both <==> Has(semantic, id) || Has(lexical, id)
    ensures forall id :: id in both ==> both[id] == First(semantic, lexical, id)
  {
    hide Rank;
  }

  lemma RankAt(s: seq<Chunk>, i: nat)
    requires i < |s| && DistinctIds(s)
    ensures Rank(s, s[i].id) == i + 1 && Has(s, s[i].id)
    ensures forall id :: Rank(s, id) == i + 1 <==> id == s[i].id
  {
  }

  function ScoresOf(k: nat, semantic: seq<Chunk>, lexical: seq<Chunk>): Scores {
    map id | id in Order(semantic, lexical) :: Score(k, semantic, lexical, id)
  }

  lemma OrderMembers(semantic: seq<Chunk>, lexical: seq<Chunk>)
    ensures AllDistinct(Order(semantic, lexical))
    ensures forall id :: id in Order(semantic, lexical) <==> Has(semantic, id) || Has(lexical, id)
  {
    MergeMembers([], semantic);
    MergeMembers(Merge([], semantic), lexical);
  }

  /** All ids in their final order. */
  function Ranked(k: nat, semantic: seq<Chunk>, lexical: seq<Chunk>): (r: seq<string>)
    ensures |r| == |Order(semantic, lexical)| && forall i :: 0 <= i < |r| ==> r[i] in Order(semantic, lexical)
  {
    assert forall i :: 0 <= i < |Order(semantic, lexical)| ==> Order(semantic, lexical)[i] in Order(semantic, lexical);
    Sorted(ScoresOf(k, semantic, lexical), Order(semantic, lexical))
  }

  function Taken<T>(s: seq<T>, n: nat): seq<T> {
    if |s| <= n then s else s[..n]
  }

  /** The fused list: the first `limit` ids, each with the chunk it was first met with. */
  function Fused(k: nat, semantic: seq<Chunk>, lexical: seq<Chunk>, limit: nat): seq<Chunk> {
    OrderMembers(semantic, lexical);
    ChunksOf(semantic, lexical, Taken(Ranked(k, semantic, lexical), limit))
  }

  function ChunksOf(semantic: seq<Chunk>, lexical: seq<Chunk>, ids: seq<string>): (r: seq<Chunk>)
    requires forall i :: 0 <= i < |ids| ==> Has(semantic, ids[i]) || Has(lexical, ids[i])
    ensures |r| == |ids| && forall i :: 0 <= i < |r| ==> r[i] == First(semantic, lexical, ids[i]) && r[i].id == ids[i]
  {
    if ids == [] then [] else [First(semantic, lexical, ids[0])] + ChunksOf(semantic, lexical, ids[1..])
  }

  /** `_reciprocal_rank_fusion`. */
  method Fuse(k: nat, semantic: seq<Chunk>, lexical: seq<Chunk>, limit: nat) returns (r: seq<Chunk>)
    requires DistinctIds(semantic) && DistinctIds(lexical)
    ensures r == Fused(k, semantic, lexical, limit)
  {
    hide ScoresAt, ChunksAt, Rank, Sorted, Merge, ScoresOf, First;
    var some, chunks, ids := AddList(k, semantic, map[], map[], []);
    var scores, both, order := AddList(k, lexical, some, chunks, ids);
    BothScored(k, semantic, lexical, some, scores);
    BothKept(semantic, lexical, chunks, both);
    assert order == Order(semantic, lexical) && forall i :: 0 <= i < |order| ==> order[i] in order;
    var top := Taken(Sorted(scores, order), limit);
    r := [];
    var i := 0;
    while i < |top|
      invariant i == |r| <= |top|
      invariant forall j :: 0 <= j < i ==> top[j] in both && r[j] == both[top[j]]
    {
      r := r + [both[top[i]]];
      i := i + 1;
    }
  }

  // ---- What fusion means -------------------------------------------------------------------------------

  /** All ids, each once, in order of precedence. */
  lemma RankedIsOrdered(k: nat, semantic: seq<Chunk>, lexical: seq<Chunk>)
    ensures var ranked := Ranked(k, semantic, lexical);
            var scores, order := ScoresOf(k, semantic, lexical), Order(semantic, lexical);
            && Ordered(scores, order, ranked) && AllDistinct(ranked)
            && (forall id :: id in order ==> exists j :: 0 <= j < |ranked| && ranked[j] == id)
  {
    hide First, Score, Precedes, Sorted, Merge;
    var scores, order := ScoresOf(k, semantic, lexical), Order(semantic, lexical);
    var ranked := Ranked(k, semantic, lexical);
    OrderMembers(semantic, lexical);
    assert order[..|order|] == order;
    assert forall i :: 0 <= i < |order| ==> order[i] in order;
    SortedIsOrdered(scores, order, |order|);
    forall i, j | 0 <= i < j < |ranked| ensures ranked[i] != ranked[j] {
      NotBeforeItself(scores, order, ranked[i]);
    }
    forall id | id in order ensures exists j :: 0 <= j < |ranked| && ranked[j] == id {
      assert id in multiset(order);
      assert id in multiset(ranked);
    }
  }

  /** The fused list has no repeats and no more than `limit` entries, is in order of score with
      ties in the order of first meeting, and everything left out would have come later.  Each
      chunk is the one of the semantic list if that has its id. */
  lemma FusedIsTop(k: nat, semantic: seq<Chunk>, lexical: seq<Chunk>, limit: nat)
    ensures var r := Fused(k, semantic, lexical, limit);
            var scores, order := ScoresOf(k, semantic, lexical), Order(semantic, lexical);
            && |r| == (if |order| <= limit then |order| else limit)
            && (forall i :: 0 <= i < |r| ==> r[i].id in order && if Has(semantic, r[i].id) then r[i] in semantic else r[i] in lexical)
            && (forall i, j :: 0 <= i < j < |r| ==> r[i].id != r[j].id && Precedes(scores, order, r[i].id, r[j].id))
            && (forall i, id :: 0 <= i < |r| && id in order && !Has(r, id) ==> Precedes(scores, order, r[i].id, id))
  {
    hide Score, Precedes, Ranked, Order, ScoresOf;
    var scores, order := ScoresOf(k, semantic, lexical), Order(semantic, lexical);
    var r := Fused(k, semantic, lexical, limit);
    var ranked := Ranked(k, semantic, lexical);
    RankedIsOrdered(k, semantic, lexical);
    OrderMembers(semantic, lexical);
    forall m | 0 <= m < |r| ensures r[m].id == ranked[m] && Has(r, ranked[m]) {
    }
    forall i | 0 <= i < |r| ensures if Has(semantic, r[i].id) then r[i] in semantic else r[i] in lexical {
      assert Has(semantic, r[i].id) || Has(lexical, r[i].id);
    }
    forall i, id | 0 <= i < |r| && id in order && !Has(r, id) ensures Precedes(scores, order, r[i].id, id) {
      var j :| 0 <= j < |ranked| && ranked[j] == id;
    }
  }

  lemma NotBeforeItself(scores: Scores, ids: seq<string>, a: string)
    ensures !Precedes(scores, ids, a, a)
  {
  }

  lemma SmallerShare(k: nat, r: nat, s: nat)
    requires 0 < r < s
    ensures Share(k, r) > Share(k, s) > 0.0
  {
    var a, b := (k + r) as real, (k + s) as real;
    assert 0.0 < a < b;
    assert 1.0 / a - 1.0 / b == (b - a) / (a * b);
  }

  /** An id ranked better wherever another appears has the higher score, and so comes first. */
  lemma BetterComesFirst(k: nat, semantic: seq<Chunk>, lexical: seq<Chunk>, a: string, b: string)
    requires Has(semantic, b) || Has(lexical, b)
    requires Has(semantic, b) ==> Rank(semantic, a) < Rank(semantic, b)
    requires Has(lexical, b) ==> Rank(lexical, a) < Rank(lexical, b)
    ensures Precedes(ScoresOf(k, semantic, lexical), Order(semantic, lexical), a, b)
  {
    hide Share;
    OrderMembers(semantic, lexical);
    PartBetter(k, semantic, a, b);
    PartBetter(k, lexical, a, b);
  }

  lemma PartBetter(k: nat, s: seq<Chunk>, a: string, b: string)
    requires Has(s, b) ==> Rank(s, a) < Rank(s, b)
    ensures Part(k, s, a) >= Part(k, s, b) && (Has(s, b) ==> Part(k, s, a) > Part(k, s, b))
  {
    if Has(s, b) {
      SmallerShare(k, Rank(s, a), Rank(s, b));
    } else if Has(s, a) {
      SmallerShare(k, Rank(s, a), Rank(s, a) + 1);
    }
  }

  lemma SumOfShares(a: real, x: real, y: real)
    requires a > 0.0 && x >= 0.0 && y >= 0.0
    ensures a * (a + x) * (a + y) > 0.0
    ensures 1.0 / (a + x) + 1.0 / (a + y) - 1.0 / a == (a * a - x * y) / (a * (a + x) * (a + y))
  {
    PositiveProduct(a, a + x);
    PositiveProduct(a * (a + x), a + y);
    OverProduct(a, a + x, a + y);
    Expanded(a, x, y);
  }

  lemma OverProduct(a: real, p: real, q: real)
    requires a > 0.0 && p > 0.0 && q > 0.0
    ensures a * p * q > 0.0 && 1.0 / p + 1.0 / q - 1.0 / a == (a * q + a * p - p * q) / (a * p * q)
  {
    PositiveProduct(a, p);
    PositiveProduct(a * p, q);
    var d := a * p * q;
    OverCommon(p, a * q, d);
    OverCommon(q, a * p, d);
    OverCommon(a, p * q, d);
    OverOne(a * q, a * p, p * q, d);
  }

  lemma OverOne(x: real, y: real, z: real, d: real)
    requires d > 0.0
    ensures x / d + y / d - z / d == (x + y - z) / d
  {
  }

  lemma PositiveProduct(p: real, q: real)
    requires p > 0.0 && q > 0.0
    ensures p * q > 0.0
  {
  }

  lemma OverCommon(p: real, r: real, d: real)
    requires p > 0.0 && d > 0.0 && p * r == d
    ensures 1.0 / p == r / d
  {
    assert r > 0.0;
    assert r / (p * r) == 1.0 / p;
  }

  lemma Expanded(a: real, x: real, y: real)
    ensures a * (a + y) + a * (a + x) - (a + x) * (a + y) == a * a - x * y
  {
    assert (a + x) * (a + y) == a * a + a * y + x * a + x * y;
  }

  lemma SignOfQuotient(n: real, d: real)
    requires d > 0.0
    ensures (n / d > 0.0 <==> n > 0.0) && (n / d == 0.0 <==> n == 0.0)
  {
  }

  /** Two worst shares of lists of lengths `m` and `n` beat one best share exactly while
      `(m - 1) * (n - 1) < (k + 1) * (k + 1)`. */
  lemma WorstAgainstBest(k: nat, m: nat, n: nat)
    requires m >= 1 && n >= 1
    ensures Share(k, m) + Share(k, n) > Share(k, 1) <==> (m - 1) * (n - 1) < (k + 1) * (k + 1)
  {
    var a, x, y := (k + 1) as real, (m - 1) as real, (n - 1) as real;
    assert (k + m) as real == a + x && (k + n) as real == a + y;
    SumOfShares(a, x, y);
    SignOfQuotient(a * a - x * y, a * (a + x) * (a + y));
    RealProduct(k + 1, k + 1);
    RealProduct(m - 1, n - 1);
  }

  lemma RealProduct(i: int, j: int)
    ensures (i * j) as real == i as real * j as real
  {
  }

  lemma WorstShare(k: nat, r: nat, m: nat)
    requires 0 < r <= m
    ensures Share(k, r) >= Share(k, m)
  {
    if r < m {
      SmallerShare(k, r, m);
    }
  }

  /** Within the bound, an id found in both lists beats every id found in only one. */
  lemma BothFirst(k: nat, semantic: seq<Chunk>, lexical: seq<Chunk>, a: string, b: string)
    requires (|semantic| - 1) * (|lexical| - 1) < (k + 1) * (k + 1)
    requires Has(semantic, a) && Has(lexical, a) && (Has(semantic, b) != Has(lexical, b))
    ensures Precedes(ScoresOf(k, semantic, lexical), Order(semantic, lexical), a, b)
  {
    hide Share;
    OrderMembers(semantic, lexical);
    WorstShare(k, Rank(semantic, a), |semantic|);
    WorstShare(k, Rank(lexical, a), |lexical|);
    WorstShare(k, 1, Rank(semantic, b));
    WorstShare(k, 1, Rank(lexical, b));
    WorstAgainstBest(k, |semantic|, |lexical|);
  }

  /** In particular while both lists have at most `k + 1` entries. */
  lemma BothBeforeOne(k: nat, semantic: seq<Chunk>, lexical: seq<Chunk>, a: string, b: string)
    requires |semantic| <= k + 1 && |lexical| <= k + 1
    requires Has(semantic, a) && Has(lexical, a) && (Has(semantic, b) != Has(lexical, b))
    ensures Precedes(ScoresOf(k, semantic, lexical), Order(semantic, lexical), a, b)
  {
    assert (|semantic| - 1) * (|lexical| - 1) <= k * k by {
      SmallerProduct(|semantic| - 1, |lexical| - 1, k);
    }
    assert k * k < (k + 1) * (k + 1);
    BothFirst(k, semantic, lexical, a, b);
  }

  lemma SmallerProduct(i: nat, j: nat, k: nat)
    requires i <= k && j <= k
    ensures i * j <= k * k
  {
    assert i * j <= k * j <= k * k;
  }

  /** Beyond the bound, an id last in both lists does not come before the first of one list. */
  lemma BeyondTheBound(k: nat, semantic: seq<Chunk>, lexical: seq<Chunk>, a: string, b: string)
    requires |semantic| >= 2 && |lexical| >= 2 && DistinctIds(semantic) && DistinctIds(lexical)
    requires (|semantic| - 1) * (|lexical| - 1) >= (k + 1) * (k + 1)
    requires semantic[|semantic| - 1].id == a && lexical[|lexical| - 1].id == a && semantic[0].id == b && !Has(lexical, b)
    ensures Precedes(ScoresOf(k, semantic, lexical), Order(semantic, lexical), b, a)
  {
    hide Share;
    OrderMembers(semantic, lexical);
    RankAt(semantic, |semantic| - 1);
    RankAt(lexical, |lexical| - 1);
    RankAt(semantic, 0);
    WorstAgainstBest(k, |semantic|, |lexical|);
    FirstMet(semantic, lexical);
    var order := Order(semantic, lexical);
    assert Place(order, b) == 0;
    assert order[0] != a;
  }

  /** A list of `n` ids of one letter, with a common last one. */
  function Sample(letter: char, n: nat): (r: seq<Chunk>)
    ensures |r| == n
    ensures forall i :: 0 <= i < n ==> r[i] == Chunk(if i == n - 1 then "last" else [letter] + Decimal(i), "")
  {
    seq(n, i requires 0 <= i < n => Chunk(if i == n - 1 then "last" else [letter] + Decimal(i), ""))
  }

  lemma SampleIds(letter: char, n: nat)
    requires letter == 's' || letter == 'x'
    ensures DistinctIds(Sample(letter, n))
    ensures forall i :: 0 <= i < n - 1 ==> Sample(letter, n)[i].id[0] == letter
  {
    var r := Sample(letter, n);
    assert "last"[0] == 'l';
    forall i, j | 0 <= i < j < n ensures r[i].id != r[j].id {
      if r[i].id == r[j].id {
        assert r[i].id[0] == letter;
        assert j != n - 1;
        assert Decimal(i) == r[i].id[1..] == r[j].id[1..] == Decimal(j);
        DecimalInjective(i, j);
      }
    }
  }

  /** For lists of lengths `m` and `n`, ids found in both always come first. */
  ghost predicate BothAlwaysFirst(k: nat, m: nat, n: nat) {
    forall semantic, lexical, a, b ::
      |semantic| == m && |lexical| == n && DistinctIds(semantic) && DistinctIds(lexical)
      && Has(semantic, a) && Has(lexical, a) && Has(semantic, b) != Has(lexical, b) ==>
        Precedes(ScoresOf(k, semantic, lexical), Order(semantic, lexical), a, b)
  }

  /** "Found in both beats found in one" holds for all lists of given lengths exactly while
      `(m - 1) * (n - 1) < (k + 1) * (k + 1)`. */
  lemma BoundExactly(k: nat, m: nat, n: nat)
    requires m >= 1 && n >= 1
    ensures BothAlwaysFirst(k, m, n) <==> (m - 1) * (n - 1) < (k + 1) * (k + 1)
  {
    hide Precedes, ScoresOf, Order, Has, Decimal;
    if (m - 1) * (n - 1) < (k + 1) * (k + 1) {
      forall semantic, lexical, a, b |
        |semantic| == m && |lexical| == n && Has(semantic, a) && Has(lexical, a) && Has(semantic, b) != Has(lexical, b)
        ensures Precedes(ScoresOf(k, semantic, lexical), Order(semantic, lexical), a, b)
      {
        BothFirst(k, semantic, lexical, a, b);
      }
    } else {
      TwoAtLeast(m, n, k);
      SamplesFail(k, m, n);
    }
  }

  lemma TwoAtLeast(m: nat, n: nat, k: nat)
    requires m >= 1 && n >= 1 && (m - 1) * (n - 1) >= (k + 1) * (k + 1)
    ensures m >= 2 && n >= 2
  {
    assert (k + 1) * (k + 1) >= 1;
  }

  lemma SamplesFail(k: nat, m: nat, n: nat)
    requires m >= 2 && n >= 2 && (m - 1) * (n - 1) >= (k + 1) * (k + 1)
    ensures !BothAlwaysFirst(k, m, n)
  {
    hide ScoresOf, Order, Decimal, Share;
    var semantic, lexical := Sample('s', m), Sample('x', n);
    SampleIds('s', m);
    SampleIds('x', n);
    var b := semantic[0].id;
    assert "last"[0] == 'l' && b[0] == 's';
    assert semantic[m - 1].id == "last" && lexical[n - 1].id == "last";
    assert Has(semantic, "last") && Has(lexical, "last") && Has(semantic, b);
    assert !Has(lexical, b);
    BeyondTheBound(k, semantic, lexical, "last", b);
    OneWayOnly(ScoresOf(k, semantic, lexical), Order(semantic, lexical), b, "last");
  }

  lemma OneWayOnly(scores: Scores, ids: seq<string>, a: string, b: string)
    requires Precedes(scores, ids, a, b)
    ensures !Precedes(scores, ids, b, a)
  {
  }

  lemma {:induction false} MergeExtends(ids: seq<string>, s: seq<Chunk>)
    ensures ids <= Merge(ids, s)
    decreases |s|
  {
    if s != [] {
      MergeExtends(ids + (if s[0].id in ids then [] else [s[0].id]), s[1..]);
    }
  }

  lemma FirstMet(semantic: seq<Chunk>, lexical: seq<Chunk>)
    requires semantic != []
    ensures |Order(semantic, lexical)| > 0 && Order(semantic, lexical)[0] == semantic[0].id
  {
    MergeExtends([semantic[0].id], semantic[1..]);
    assert [] + [semantic[0].id] == [semantic[0].id];
    MergeExtends(Merge([], semantic), lexical);
  }

  /** Without reranking, trimming the fused candidates to the requested number is the same as
      fusing for that number. */
  lemma TrimmedCandidates(k: nat, semantic: seq<Chunk>, lexical: seq<Chunk>, limit: nat, candidates: nat)
    requires limit <= candidates
    ensures Taken(Fused(k, semantic, lexical, candidates), limit) == Fused(k, semantic, lexical, limit)
  {
    OrderMembers(semantic, lexical);
  }
}
