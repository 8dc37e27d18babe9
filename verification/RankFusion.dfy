/**
 Hybrid ranking: reciprocal ranks of a dense and a sparse ranking are added up, and the first twenty
 documents are reordered by their token overlap with the query. Floats are modelled as reals.
*/
module RankFusion {
  import opened Sequences
  import opened StableSort

  datatype Scored = Scored(id: int, score: real)

  /** The sort key (-score, id). */
  predicate Better(a: Scored, b: Scored) {
    a.score > b.score || (a.score == b.score && a.id <= b.id)
  }

  const TOP := 20

  /** What one ranking adds to a document's score: 1/(60 + rank) for every place it holds, counted from 1. */
  ghost function Contribution(order: seq<int>, d: int): real {
    if order == [] then 0.0
    else
      Contribution(order[..|order| - 1], d) + if order[|order| - 1] == d then 1.0 / (60 + |order|) as real else 0.0
  }

  ghost function Fused(dense: seq<int>, sparse: seq<int>, d: int): real {
    Contribution(dense, d) + Contribution(sparse, d)
  }

  /** The dictionary's keys in the order of their first insertion. */
  ghost function FirstSeen(seen: seq<int>, order: seq<int>): seq<int> {
    if order == [] then seen
    else
      var keys, last := FirstSeen(seen, order[..|order| - 1]), order[|order| - 1];
      if last in keys then keys else keys + [last]
  }

  ghost function Keys(dense: seq<int>, sparse: seq<int>): seq<int> {
    FirstSeen(FirstSeen([], dense), sparse)
  }

  ghost function Items(dense: seq<int>, sparse: seq<int>): seq<Scored> {
    seq(|Keys(dense, sparse)|, i requires 0 <= i < |Keys(dense, sparse)| =>
      Scored(Keys(dense, sparse)[i], Fused(dense, sparse, Keys(dense, sparse)[i])))
  }

  ghost function Ranked(dense: seq<int>, sparse: seq<int>): seq<Scored> {
    Sorted(Items(dense, sparse), Better)
  }

  function Cut(n: nat): nat { if n < TOP then n else TOP }

  /** The candidates with their overlap bonus. */
  function Rescored(top: seq<Scored>, overlap: int -> real): (r: seq<Scored>)
    ensures |r| == |top|
    ensures forall i :: 0 <= i < |r| ==> r[i] == Scored(top[i].id, top[i].score + 0.025 * overlap(top[i].id))
  {
    seq(|top|, i requires 0 <= i < |top| => Scored(top[i].id, top[i].score + 0.025 * overlap(top[i].id)))
  }

  function Ids(s: seq<Scored>): (r: seq<int>)
    ensures |r| == |s| && forall i :: 0 <= i < |r| ==> r[i] == s[i].id
  {
    seq(|s|, i requires 0 <= i < |s| => s[i].id)
  }

  ghost function Answer(dense: seq<int>, sparse: seq<int>, overlap: int -> real): seq<int> {
    var ranked := Ranked(dense, sparse);
    var k := Cut(|ranked|);
    Ids(Sorted(Rescored(ranked[..k], overlap), Better)) + Ids(ranked[k..])
  }

  // ---- The ranking lists every document once --------------------------------------------------------

  lemma {:induction false} FirstSeenMembers(seen: seq<int>, order: seq<int>)
    requires NoDuplicates(seen)
    ensures NoDuplicates(FirstSeen(seen, order))
    ensures forall d :: d in FirstSeen(seen, order) <==> d in seen || d in order
    decreases |order|
  {
    if order != [] {
      var front, last := order[..|order| - 1], order[|order| - 1];
      FirstSeenMembers(seen, front);
      assert order == front + [last];
    }
  }

  lemma KeysMembers(dense: seq<int>, sparse: seq<int>)
    ensures NoDuplicates(Keys(dense, sparse))
    ensures forall d :: d in Keys(dense, sparse) <==> d in dense || d in sparse
  {
    FirstSeenMembers([], dense);
    FirstSeenMembers(FirstSeen([], dense), sparse);
  }

  ghost predicate DistinctIds(s: seq<Scored>) {
    forall i, j :: 0 <= i < j < |s| ==> s[i].id != s[j].id
  }

  lemma PermutedIdsDistinct(a: seq<Scored>, b: seq<Scored>)
    requires multiset(a) == multiset(b) && DistinctIds(a)
    ensures DistinctIds(b)
  {
    forall i, j | 0 <= i < j < |b|
      ensures b[i].id != b[j].id
    {
      if b[i].id == b[j].id {
        assert b[i] in multiset(a) && b[j] in multiset(a);
        assert b[i] == b[j];
        TwiceIfRepeated(b, i, j);
        OnceInMultiset(a, b[i]);
      }
    }
  }

  lemma {:induction false} OnceInMultiset(a: seq<Scored>, x: Scored)
    requires DistinctIds(a)
    ensures multiset(a)[x] <= 1
    decreases |a|
  {
    if a != [] {
      var front, last := a[..|a| - 1], a[|a| - 1];
      assert a == front + [last];
      OnceInMultiset(front, x);
      if x == last {
        assert x !in front;
      }
    }
  }

  lemma TotalOrder()
    ensures TotalPreorder(Better)
  {
  }

  lemma RankedFacts(dense: seq<int>, sparse: seq<int>)
    ensures var r := Ranked(dense, sparse);
            && Ascending(r, Better) && DistinctIds(r)
            && (forall i :: 0 <= i < |r| ==> r[i].score == Fused(dense, sparse, r[i].id))
            && (forall d :: d in Ids(r) <==> d in dense || d in sparse)
  {
    var items, r := Items(dense, sparse), Ranked(dense, sparse);
    var keys := Keys(dense, sparse);
    TotalOrder();
    SortedAscends(items, Better);
    SortedPermutes(items, Better);
    SortedMembers(items, Better);
    KeysMembers(dense, sparse);
    PermutedIdsDistinct(items, r);
    forall i | 0 <= i < |r|
      ensures r[i].score == Fused(dense, sparse, r[i].id) && r[i].id in keys
    {
      assert r[i] in items;
      var j :| 0 <= j < |items| && items[j] == r[i];
      assert keys[j] in keys;
    }
    forall d | d in keys
      ensures d in Ids(r)
    {
      var j :| 0 <= j < |keys| && keys[j] == d;
      assert items[j] in r;
      var i :| 0 <= i < |r| && r[i] == items[j];
      assert Ids(r)[i] == d;
    }
  }

  // ---- The reranking --------------------------------------------------------------------------------

  lemma RerankFacts(dense: seq<int>, sparse: seq<int>, overlap: int -> real)
    ensures var r := Ranked(dense, sparse);
            var top := Rescored(r[..Cut(|r|)], overlap);
            var t := Sorted(top, Better);
            && |t| == Cut(|r|) && Ascending(t, Better) && DistinctIds(t)
            && (forall x :: x in t <==> x in top)
  {
    var r := Ranked(dense, sparse);
    var top := Rescored(r[..Cut(|r|)], overlap);
    RankedFacts(dense, sparse);
    TotalOrder();
    SortedAscends(top, Better);
    SortedPermutes(top, Better);
    SortedMembers(top, Better);
    PermutedIdsDistinct(top, Sorted(top, Better));
  }

  lemma RerankSameIds(dense: seq<int>, sparse: seq<int>, overlap: int -> real)
    ensures var r := Ranked(dense, sparse);
            var k := Cut(|r|);
            forall d :: d in Ids(Sorted(Rescored(r[..k], overlap), Better)) <==> d in Ids(r[..k])
  {
    var r := Ranked(dense, sparse);
    var k := Cut(|r|);
    var top := Rescored(r[..k], overlap);
    var t := Sorted(top, Better);
    RerankFacts(dense, sparse, overlap);
    forall d | d in Ids(t)
      ensures d in Ids(r[..k])
    {
      var i :| 0 <= i < |t| && t[i].id == d;
      assert t[i] in top;
      var j :| 0 <= j < |top| && top[j] == t[i];
      assert Ids(r[..k])[j] == d;
    }
    forall d | d in Ids(r[..k])
      ensures d in Ids(t)
    {
      var j :| 0 <= j < k && r[..k][j].id == d;
      assert top[j] in t;
      var i :| 0 <= i < |t| && t[i] == top[j];
      assert Ids(t)[i] == d;
    }
  }

  /** The identifiers of the twenty best in their new order. */
  ghost function TopIds(dense: seq<int>, sparse: seq<int>, overlap: int -> real): seq<int> {
    var r := Ranked(dense, sparse);
    Ids(Sorted(Rescored(r[..Cut(|r|)], overlap), Better))
  }

  lemma AnswerSplits(dense: seq<int>, sparse: seq<int>, overlap: int -> real)
    ensures var r, t := Ids(Ranked(dense, sparse)), TopIds(dense, sparse, overlap);
            var k := Cut(|r|);
            && Answer(dense, sparse, overlap) == t + r[k..]
            && NoDuplicates(t) && |t| == k
            && (forall d :: d in t <==> d in r[..k])
  {
    var r := Ranked(dense, sparse);
    var k := Cut(|r|);
    RerankFacts(dense, sparse, overlap);
    RerankSameIds(dense, sparse, overlap);
    assert Ids(r)[..k] == Ids(r[..k]) && Ids(r)[k..] == Ids(r[k..]);
  }

  lemma RankedIds(dense: seq<int>, sparse: seq<int>)
    ensures NoDuplicates(Ids(Ranked(dense, sparse)))
    ensures forall d :: d in Ids(Ranked(dense, sparse)) <==> d in dense || d in sparse
  {
    RankedFacts(dense, sparse);
  }

  /** Rearranging the first k places keeps what a list holds. */
  lemma HeadRearranged(t: seq<int>, r: seq<int>, k: nat)
    requires k <= |r| && |t| == k && NoDuplicates(t) && NoDuplicates(r)
    requires forall d :: d in t <==> d in r[..k]
    ensures NoDuplicates(t + r[k..])
    ensures forall d :: d in t + r[k..] <==> d in r
  {
    assert r == r[..k] + r[k..];
    forall d | d in t
      ensures d !in r[k..]
    {
      var i :| 0 <= i < k && r[..k][i] == d;
    }
    DisjointNoDuplicates(t, r[k..]);
  }

  /**
   The answer holds every document of either ranking once, whatever repetitions the rankings have;
   its first twenty places hold the twenty best fused scores, and the rest keep the fused order.
  */
  lemma AnswerIsPermutation(dense: seq<int>, sparse: seq<int>, overlap: int -> real)
    ensures var a, r := Answer(dense, sparse, overlap), Ids(Ranked(dense, sparse));
            var k := Cut(|r|);
            && NoDuplicates(a) && |a| == |r|
            && (forall d :: d in a <==> d in dense || d in sparse)
            && (forall d :: d in a[..k] <==> d in r[..k])
            && a[k..] == r[k..]
  {
    var r := Ids(Ranked(dense, sparse));
    AnswerSplits(dense, sparse, overlap);
    RankedIds(dense, sparse);
    HeadRearranged(TopIds(dense, sparse, overlap), r, Cut(|r|));
  }

  // ---- Dominance ------------------------------------------------------------------------------------

  /** The document stands in the ranking, and the other one further down or not at all. */
  ghost predicate Ahead(order: seq<int>, a: int, b: int) {
    exists i :: 0 <= i < |order| && order[i] == a && b !in order[..i + 1]
  }

  lemma {:induction false} ContributionAt(order: seq<int>, i: nat)
    requires NoDuplicates(order) && i < |order|
    ensures Contribution(order, order[i]) == 1.0 / (61 + i) as real
    decreases |order|
  {
    var front, last := order[..|order| - 1], order[|order| - 1];
    if i == |order| - 1 {
      ContributionAbsent(front, last);
    } else {
      ContributionAt(front, i);
    }
  }

  lemma {:induction false} ContributionAbsent(order: seq<int>, d: int)
    requires d !in order
    ensures Contribution(order, d) == 0.0
    decreases |order|
  {
    if order != [] {
      ContributionAbsent(order[..|order| - 1], d);
      assert order[|order| - 1] in order;
    }
  }

  lemma SmallerReciprocal(i: nat, j: nat)
    requires i < j
    ensures 1.0 / (61 + i) as real > 1.0 / (61 + j) as real > 0.0
  {
    var x, y := (61 + i) as real, (61 + j) as real;
    assert 1.0 / x - 1.0 / y == (y - x) / (x * y) > 0.0;
  }

  lemma BeyondPrefix(order: seq<int>, i: int, j: int)
    requires 0 <= i < |order| && 0 <= j < |order| && order[j] !in order[..i + 1]
    ensures j > i
  {
    assert forall k :: 0 <= k <= i ==> order[..i + 1][k] == order[k];
  }

  /** Standing ahead in a ranking without repetitions earns strictly more from it. */
  lemma AheadEarnsMore(order: seq<int>, a: int, b: int)
    requires NoDuplicates(order) && Ahead(order, a, b)
    ensures Contribution(order, a) > Contribution(order, b)
  {
    var i :| 0 <= i < |order| && order[i] == a && b !in order[..i + 1];
    ContributionAt(order, i);
    SmallerReciprocal(i, i + 1);
    if b in order {
      var j :| 0 <= j < |order| && order[j] == b;
      BeyondPrefix(order, i, j);
      ContributionAt(order, j);
      SmallerReciprocal(i, j);
    } else {
      ContributionAbsent(order, b);
    }
  }

  ghost predicate Dominates(dense: seq<int>, sparse: seq<int>, a: int, b: int) {
    Ahead(dense, a, b) && Ahead(sparse, a, b)
  }

  ghost predicate Precedes(s: seq<int>, a: int, b: int) {
    exists i, j :: 0 <= i < j < |s| && s[i] == a && s[j] == b
  }

  lemma DominatorRanksHigher(dense: seq<int>, sparse: seq<int>, a: int, b: int) returns (i: nat, j: nat)
    requires NoDuplicates(dense) && NoDuplicates(sparse)
    requires Dominates(dense, sparse, a, b) && (b in dense || b in sparse)
    ensures Fused(dense, sparse, a) > Fused(dense, sparse, b)
    ensures i < j < |Ranked(dense, sparse)|
    ensures Ranked(dense, sparse)[i] == Scored(a, Fused(dense, sparse, a))
    ensures Ranked(dense, sparse)[j] == Scored(b, Fused(dense, sparse, b))
  {
    var r := Ranked(dense, sparse);
    AheadEarnsMore(dense, a, b);
    AheadEarnsMore(sparse, a, b);
    RankedFacts(dense, sparse);
    assert a in Ids(r) && b in Ids(r);
    i :| 0 <= i < |r| && r[i].id == a;
    j :| 0 <= j < |r| && r[j].id == b;
    assert forall p, q :: 0 <= p < q < |r| ==> Better(r[p], r[q]);
  }

  /** The twenty best are closed under dominance: whoever dominates one of them is among them. */
  lemma TopClosedUpward(dense: seq<int>, sparse: seq<int>, overlap: int -> real, a: int, b: int)
    requires NoDuplicates(dense) && NoDuplicates(sparse) && Dominates(dense, sparse, a, b)
    requires var ans := Answer(dense, sparse, overlap); b in ans[..Cut(|ans|)]
    ensures var ans := Answer(dense, sparse, overlap); a in ans[..Cut(|ans|)]
  {
    AnswerIsPermutation(dense, sparse, overlap);
    var ans, r := Answer(dense, sparse, overlap), Ids(Ranked(dense, sparse));
    var k := Cut(|ans|);
    assert b in r[..k];
    assert b in ans;
    var i, j := DominatorRanksHigher(dense, sparse, a, b);
    var jj :| 0 <= jj < k && r[..k][jj] == b;
    RankedFacts(dense, sparse);
    assert jj == j;
    assert r[..k][i] == a;
  }

  lemma RerankedPrecedes(dense: seq<int>, sparse: seq<int>, overlap: int -> real, i: nat, j: nat)
    requires var r := Ranked(dense, sparse);
             && i < j < Cut(|r|) && r[i].score > r[j].score && overlap(r[i].id) >= overlap(r[j].id)
    ensures Precedes(TopIds(dense, sparse, overlap), Ranked(dense, sparse)[i].id, Ranked(dense, sparse)[j].id)
  {
    var r := Ranked(dense, sparse);
    var top := Rescored(r[..Cut(|r|)], overlap);
    var t := Sorted(top, Better);
    RerankFacts(dense, sparse, overlap);
    assert top[i] in t && top[j] in t;
    var x :| 0 <= x < |t| && t[x] == top[i];
    var y :| 0 <= y < |t| && t[y] == top[j];
    assert top[i].score > top[j].score;
    assert forall p, q :: 0 <= p < q < |t| ==> Better(t[p], t[q]);
    assert Ids(t)[x] == r[i].id && Ids(t)[y] == r[j].id;
  }

  lemma HeadRearrangedPrecedes(t: seq<int>, r: seq<int>, k: nat, i: nat, j: nat)
    requires k <= |r| && |t| == k && i < j < |r|
    requires forall d :: d in t <==> d in r[..k]
    requires j < k ==> Precedes(t, r[i], r[j])
    ensures Precedes(t + r[k..], r[i], r[j])
  {
    var ans := t + r[k..];
    if j < k {
      var x, y :| 0 <= x < y < |t| && t[x] == r[i] && t[y] == r[j];
      assert ans[x] == r[i] && ans[y] == r[j];
    } else if i < k {
      assert r[..k][i] in r[..k];
      var x :| 0 <= x < |t| && t[x] == r[i];
      assert ans[x] == r[i] && ans[j] == r[j];
    } else {
      assert ans[i] == r[i] && ans[j] == r[j];
    }
  }

  /** A dominating document whose overlap with the query is no smaller comes first in the answer as well. */
  lemma DominatorPrecedes(dense: seq<int>, sparse: seq<int>, overlap: int -> real, a: int, b: int)
    requires NoDuplicates(dense) && NoDuplicates(sparse)
    requires Dominates(dense, sparse, a, b) && (b in dense || b in sparse) && overlap(a) >= overlap(b)
    ensures Precedes(Answer(dense, sparse, overlap), a, b)
  {
    var r := Ids(Ranked(dense, sparse));
    var i, j := DominatorRanksHigher(dense, sparse, a, b);
    if j < Cut(|r|) {
      RerankedPrecedes(dense, sparse, overlap, i, j);
    }
    AnswerSplits(dense, sparse, overlap);
    HeadRearrangedPrecedes(TopIds(dense, sparse, overlap), r, Cut(|r|), i, j);
  }

  // ---- The order of the answer ----------------------------------------------------------------------

  /** Scored x, document a comes before document b scored y: by a larger score, or by the smaller number on a tie. */
  predicate ScoredAhead(a: int, x: real, b: int, y: real) { x > y || (x == y && a <= b) }

  lemma {:induction false} IndexInTop(dense: seq<int>, sparse: seq<int>, overlap: int -> real, i: nat)
    requires i < Cut(|Ranked(dense, sparse)|)
    ensures var t := Sorted(Rescored(Ranked(dense, sparse)[..Cut(|Ranked(dense, sparse)|)], overlap), Better);
            && |t| == Cut(|Ranked(dense, sparse)|) && Answer(dense, sparse, overlap)[i] == t[i].id
            && t[i].score == Fused(dense, sparse, t[i].id) + 0.025 * overlap(t[i].id)
  {
    var r := Ranked(dense, sparse);
    var top := Rescored(r[..Cut(|r|)], overlap);
    var t := Sorted(top, Better);
    RankedFacts(dense, sparse);
    RerankFacts(dense, sparse, overlap);
    assert t[i] in t && t[i] in top;
    var j :| 0 <= j < |top| && top[j] == t[i];
    assert r[..Cut(|r|)][j] == r[j];
  }

  /**
   The order spelled out: the first twenty places are ordered by the fused score plus 0.025 times the
   overlap, the others by the fused score, and nobody from behind has a better fused score than
   anybody in front; ties go to the smaller number.
  */
  lemma AnswerOrdered(dense: seq<int>, sparse: seq<int>, overlap: int -> real, i: nat, j: nat)
    requires i < j < |Answer(dense, sparse, overlap)|
    ensures var a, b := Answer(dense, sparse, overlap)[i], Answer(dense, sparse, overlap)[j];
            if j < 20 then
              ScoredAhead(a, Fused(dense, sparse, a) + 0.025 * overlap(a), b,
                  Fused(dense, sparse, b) + 0.025 * overlap(b))
            else ScoredAhead(a, Fused(dense, sparse, a), b, Fused(dense, sparse, b))
  {
    var r, ans := Ranked(dense, sparse), Answer(dense, sparse, overlap);
    var k := Cut(|r|);
    AnswerIsPermutation(dense, sparse, overlap);
    RankedFacts(dense, sparse);
    if j < k {
      RerankFacts(dense, sparse, overlap);
      IndexInTop(dense, sparse, overlap, i);
      IndexInTop(dense, sparse, overlap, j);
      TopOrdered(dense, sparse, overlap, i, j);
    } else {
      BehindIsRanked(dense, sparse, overlap, j);
      if i < k {
        var m := InFrontIsRanked(dense, sparse, overlap, i);
        assert Better(r[m], r[j]);
      } else {
        BehindIsRanked(dense, sparse, overlap, i);
        assert Better(r[i], r[j]);
      }
    }
  }

  lemma TopOrdered(dense: seq<int>, sparse: seq<int>, overlap: int -> real, i: nat, j: nat)
    requires i < j < Cut(|Ranked(dense, sparse)|)
    ensures var t := Sorted(Rescored(Ranked(dense, sparse)[..Cut(|Ranked(dense, sparse)|)], overlap), Better);
            j < |t| && Better(t[i], t[j])
  {
    RerankFacts(dense, sparse, overlap);
  }

  lemma BehindIsRanked(dense: seq<int>, sparse: seq<int>, overlap: int -> real, j: nat)
    requires Cut(|Ranked(dense, sparse)|) <= j < |Answer(dense, sparse, overlap)|
    ensures j < |Ranked(dense, sparse)|
    ensures Answer(dense, sparse, overlap)[j] == Ranked(dense, sparse)[j].id
    ensures Ranked(dense, sparse)[j].score == Fused(dense, sparse, Ranked(dense, sparse)[j].id)
  {
    AnswerSplits(dense, sparse, overlap);
    RankedFacts(dense, sparse);
  }

  lemma InFrontIsRanked(dense: seq<int>, sparse: seq<int>, overlap: int -> real, i: nat) returns (m: nat)
    requires i < Cut(|Ranked(dense, sparse)|) && i < |Answer(dense, sparse, overlap)|
    ensures m < Cut(|Ranked(dense, sparse)|) && Answer(dense, sparse, overlap)[i] == Ranked(dense, sparse)[m].id
    ensures Ranked(dense, sparse)[m].score == Fused(dense, sparse, Ranked(dense, sparse)[m].id)
  {
    var r, t := Ids(Ranked(dense, sparse)), TopIds(dense, sparse, overlap);
    AnswerSplits(dense, sparse, overlap);
    RankedFacts(dense, sparse);
    assert Answer(dense, sparse, overlap)[i] == t[i] && t[i] in t;
    var k := Cut(|r|);
    m :| 0 <= m < k && r[..k][m] == t[i];
  }

  // ---- The program ----------------------------------------------------------------------------------

  /** One pass over a ranking, adding its reciprocal ranks to the dictionary. */
  method AddReciprocalRanks(order: seq<int>, keys0: seq<int>, scores0: map<int, real>)
    returns (keys: seq<int>, scores: map<int, real>)
    requires forall d :: d in keys0 <==> d in scores0
    ensures keys == FirstSeen(keys0, order)
    ensures forall d :: d in keys <==> d in scores
    ensures forall d :: d in scores ==>
              scores[d] == (if d in scores0 then scores0[d] else 0.0) + Contribution(order, d)
  {
    keys, scores := keys0, scores0;
    for rank := 0 to |order|
      invariant keys == FirstSeen(keys0, order[..rank])
      invariant forall d :: d in keys <==> d in scores
      invariant forall d :: d in scores ==>
                  scores[d] == (if d in scores0 then scores0[d] else 0.0) + Contribution(order[..rank], d)
      invariant forall d :: d !in scores ==> d !in order[..rank] && d !in scores0
    {
      assert order[..rank + 1][..rank] == order[..rank];
      var d := order[rank];
      if d !in scores {
        ContributionAbsent(order[..rank], d);
        keys := keys + [d];
      }
      scores := scores[d := (if d in scores then scores[d] else 0.0) + 1.0 / (60 + rank + 1) as real];
    }
    assert order[..|order|] == order;
  }

  method RankHybridRrf(dense: seq<int>, sparse: seq<int>, overlap: int -> real) returns (answer: seq<int>)
    ensures answer == Answer(dense, sparse, overlap)
  {
    var keys, scores := AddReciprocalRanks(dense, [], map[]);
    ghost var denseScores := scores;
    keys, scores := AddReciprocalRanks(sparse, keys, scores);
    FirstSeenMembers([], dense);
    forall d | d in scores
      ensures scores[d] == Fused(dense, sparse, d)
    {
      if d !in denseScores {
        ContributionAbsent(dense, d);
      }
    }
    forall i | 0 <= i < |keys|
      ensures keys[i] in scores
    {
      var d: int := keys[i];
      assert d in keys;
    }
    var items := seq(|keys|, i requires 0 <= i < |keys| && keys[i] in scores => Scored(keys[i], scores[keys[i]]));
    assert items == Items(dense, sparse);
    var ranked := Sorted(items, Better);
    var reranked := AddOverlap(ranked[..Cut(|ranked|)], overlap);
    answer := Ids(Sorted(reranked, Better)) + Ids(ranked[Cut(|ranked|)..]);
  }

  method AddOverlap(top: seq<Scored>, overlap: int -> real) returns (reranked: seq<Scored>)
    ensures reranked == Rescored(top, overlap)
  {
    reranked := [];
    for i := 0 to |top|
      invariant reranked == Rescored(top[..i], overlap)
    {
      reranked := reranked + [Scored(top[i].id, top[i].score + 0.025 * overlap(top[i].id))];
    }
    assert top[..|top|] == top;
  }
}
