/**
 Merging search results from several sources: a paper is dropped when any of its identifiers was
 seen on a kept one, and the rest are ordered by three criteria and cut to the limit.
*/
module PaperDedup {
  import opened Wrappers
  import opened Sequences
  import opened StableSort

  /** An absent identifier and an empty one count alike as None. */
  datatype Paper = Paper(doi: Option<string>, arxivId: Option<string>, title: string, peerReviewed: bool, year: int)

  /** str.lower and str.strip, and the rounded title similarity to the query. */
  datatype Text = Text(lower: string -> string, strip: string -> string, similarity: string -> real)

  /** s.split("v")[0] */
  function BeforeV(s: string): string {
    if s == "" || s[0] == 'v' then "" else [s[0]] + BeforeV(s[1..])
  }

  function Identifiers(t: Text, p: Paper): set<string> {
    {t.lower(if p.doi.Some? then p.doi.value else if p.arxivId.Some? then p.arxivId.value else p.title)}
    + (if p.doi.Some? then {t.lower(t.strip(p.doi.value))} else {})
    + (if p.arxivId.Some? then {t.lower(t.strip(p.arxivId.value)), BeforeV(t.lower(t.strip(p.arxivId.value)))} else {})
    + (if p.title != "" then {t.lower(t.strip(p.title))} else {})
  }

  ghost function Seen(t: Text, kept: seq<Paper>): set<string> {
    if kept == [] then {} else Seen(t, kept[..|kept| - 1]) + Identifiers(t, kept[|kept| - 1])
  }

  predicate Eligible(p: Paper, peerReviewedOnly: bool) { peerReviewedOnly ==> p.peerReviewed }

  ghost function Kept(t: Text, candidates: seq<Paper>, peerReviewedOnly: bool): seq<Paper> {
    if candidates == [] then []
    else
      var kept := Kept(t, candidates[..|candidates| - 1], peerReviewedOnly);
      var p := candidates[|candidates| - 1];
      if Eligible(p, peerReviewedOnly) && Identifiers(t, p) !! Seen(t, kept) then kept + [p] else kept
  }

  ghost predicate PairwiseDisjoint(t: Text, papers: seq<Paper>) {
    forall i, j :: 0 <= i < j < |papers| ==> Identifiers(t, papers[i]) !! Identifiers(t, papers[j])
  }

  ghost predicate KnownBySome(t: Text, kept: seq<Paper>, k: string) {
    exists i :: 0 <= i < |kept| && k in Identifiers(t, kept[i])
  }

  lemma {:induction false} SeenIff(t: Text, kept: seq<Paper>, k: string)
    ensures k in Seen(t, kept) <==> KnownBySome(t, kept, k)
    decreases |kept|
  {
    if kept != [] {
      var front, last := kept[..|kept| - 1], kept[|kept| - 1];
      SeenIff(t, front, k);
      if i :| 0 <= i < |front| && k in Identifiers(t, front[i]) {
        assert kept[i] == front[i];
      }
      if i :| 0 <= i < |kept| && k in Identifiers(t, kept[i]) {
        assert i < |front| ==> front[i] == kept[i];
      }
    }
  }

  lemma SeenIsUnion(t: Text, kept: seq<Paper>)
    ensures forall k :: k in Seen(t, kept) <==> exists i :: 0 <= i < |kept| && k in Identifiers(t, kept[i])
  {
    forall k
      ensures k in Seen(t, kept) <==> exists i :: 0 <= i < |kept| && k in Identifiers(t, kept[i])
    {
      SeenIff(t, kept, k);
    }
  }

  /** Some paper of the list has an identifier of p. */
  ghost predicate Shares(t: Text, kept: seq<Paper>, p: Paper) {
    exists j :: 0 <= j < |kept| && !(Identifiers(t, kept[j]) !! Identifiers(t, p))
  }

  lemma SharesIffSeen(t: Text, kept: seq<Paper>, p: Paper)
    ensures Shares(t, kept, p) <==> !(Identifiers(t, p) !! Seen(t, kept))
  {
    SeenIsUnion(t, kept);
    var ids, seen := Identifiers(t, p), Seen(t, kept);
    if !(ids !! seen) {
      var k :| k in ids && k in seen;
      var j :| 0 <= j < |kept| && k in Identifiers(t, kept[j]);
    }
    if Shares(t, kept, p) {
      var j :| 0 <= j < |kept| && !(Identifiers(t, kept[j]) !! Identifiers(t, p));
      var k :| k in Identifiers(t, kept[j]) && k in Identifiers(t, p);
      assert k in seen;
    }
  }

  /** Kept papers have nothing in common. */
  lemma {:induction false} KeptDisjoint(t: Text, candidates: seq<Paper>, only: bool)
    ensures PairwiseDisjoint(t, Kept(t, candidates, only))
    ensures forall i :: 0 <= i < |Kept(t, candidates, only)| ==> Eligible(Kept(t, candidates, only)[i], only)
    decreases |candidates|
  {
    if candidates != [] {
      var front, p := candidates[..|candidates| - 1], candidates[|candidates| - 1];
      KeptDisjoint(t, front, only);
      SharesIffSeen(t, Kept(t, front, only), p);
    }
  }

  lemma {:induction false} KeptGrows(t: Text, candidates: seq<Paper>, only: bool, i: nat)
    requires i <= |candidates|
    ensures Kept(t, candidates[..i], only) <= Kept(t, candidates, only)
    decreases |candidates|
  {
    if i == |candidates| {
      assert candidates[..i] == candidates;
    } else {
      var front := candidates[..|candidates| - 1];
      KeptGrows(t, front, only, i);
      assert front[..i] == candidates[..i];
    }
  }

  /** A candidate is kept, or ineligible, or shares an identifier with a paper kept before it. */
  lemma DroppedSharesIdentifier(t: Text, candidates: seq<Paper>, only: bool, i: nat)
    requires i < |candidates| && Eligible(candidates[i], only)
    ensures candidates[i] in Kept(t, candidates, only) || Shares(t, Kept(t, candidates[..i], only), candidates[i])
  {
    var before, p := Kept(t, candidates[..i], only), candidates[i];
    SharesIffSeen(t, before, p);
    assert candidates[..i + 1][..i] == candidates[..i];
    if !Shares(t, before, p) {
      KeptGrows(t, candidates, only, i + 1);
      assert Kept(t, candidates[..i + 1], only) == before + [p];
      assert Kept(t, candidates, only)[|before|] == p;
    }
  }

  /** Deduplicating again changes nothing. */
  lemma {:induction false} DisjointAreAllKept(t: Text, papers: seq<Paper>, only: bool)
    requires PairwiseDisjoint(t, papers)
    requires forall i :: 0 <= i < |papers| ==> Eligible(papers[i], only)
    ensures Kept(t, papers, only) == papers
    decreases |papers|
  {
    if papers != [] {
      var front, last := papers[..|papers| - 1], papers[|papers| - 1];
      assert forall i :: 0 <= i < |front| ==> front[i] == papers[i];
      DisjointAreAllKept(t, front, only);
      assert !Shares(t, front, last);
      SharesIffSeen(t, front, last);
      assert papers == front + [last];
    }
  }

  lemma DedupIdempotent(t: Text, candidates: seq<Paper>, only: bool)
    ensures Kept(t, Kept(t, candidates, only), only) == Kept(t, candidates, only)
  {
    KeptDisjoint(t, candidates, only);
    DisjointAreAllKept(t, Kept(t, candidates, only), only);
  }

  // ---- Cutting the version off an arXiv identifier ------------------------------------------------

  /** w is all of s, or what stands before the first v of s. */
  predicate EndsAtV(w: string, s: string) {
    'v' !in w && (s == w || w + "v" <= s)
  }

  lemma {:induction false} BeforeVIs(w: string, s: string)
    ensures BeforeV(s) == w <==> EndsAtV(w, s)
    decreases |s|
  {
    if s == "" || s[0] == 'v' {
      assert EndsAtV("", s);
      assert w != "" ==> (w + "v")[0] == w[0];
    } else if w == "" {
      assert !EndsAtV(w, s);
    } else {
      BeforeVIs(w[1..], s[1..]);
      HeadEndsAtV(w, s);
      assert BeforeV(s) == [s[0]] + BeforeV(s[1..]);
      assert w == [w[0]] + w[1..];
    }
  }

  lemma HeadEndsAtV(w: string, s: string)
    requires w != "" && s != "" && s[0] != 'v'
    ensures EndsAtV(w, s) <==> w[0] == s[0] && EndsAtV(w[1..], s[1..])
  {
    assert w == [w[0]] + w[1..] && s == [s[0]] + s[1..];
    assert (w + "v")[1..] == w[1..] + "v";
    if w[0] == s[0] && w[1..] + "v" <= s[1..] {
      assert forall i :: 0 <= i < |w| + 1 ==> (w + "v")[i] == if i == 0 then w[0] else (w[1..] + "v")[i - 1];
    }
  }

  /** What follows the identifier of the work: nothing, or a version such as v2. */
  predicate IsVersion(suffix: string) { suffix == "" || suffix[0] == 'v' }

  lemma {:induction false} CutDropsVersion(base: string, suffix: string)
    requires IsVersion(suffix)
    ensures BeforeV(base + suffix) == BeforeV(base)
    decreases |base|
  {
    if base == "" {
      assert base + suffix == suffix;
    } else {
      assert (base + suffix)[1..] == base[1..] + suffix;
      CutDropsVersion(base[1..], suffix);
    }
  }

  /** The cut leaves the identifier of the work exactly if that has no v of its own. */
  lemma CutIsWorkIff(base: string, suffix: string)
    requires IsVersion(suffix)
    ensures BeforeV(base + suffix) == base <==> 'v' !in base
  {
    CutDropsVersion(base, suffix);
    BeforeVIs(base, base);
    if base + "v" <= base {
      assert false;
    }
  }

  /**
   When two versioned identifiers are cut to one: without a v of their own, exactly if they name one
   work; otherwise exactly if the two works agree up to where each ends or has its first v.
  */
  lemma CutsMeetIff(base1: string, suffix1: string, base2: string, suffix2: string)
    requires IsVersion(suffix1) && IsVersion(suffix2)
    ensures BeforeV(base1 + suffix1) == BeforeV(base2 + suffix2) <==>
            if 'v' !in base1 && 'v' !in base2 then base1 == base2
            else exists w :: EndsAtV(w, base1) && EndsAtV(w, base2)
  {
    CutDropsVersion(base1, suffix1);
    CutDropsVersion(base2, suffix2);
    CutIsWorkIff(base1, "");
    CutIsWorkIff(base2, "");
    assert base1 + "" == base1 && base2 + "" == base2;
    BeforeVIs(BeforeV(base1), base1);
    BeforeVIs(BeforeV(base1), base2);
    forall w | EndsAtV(w, base1) && EndsAtV(w, base2)
      ensures BeforeV(base1) == BeforeV(base2)
    {
      BeforeVIs(w, base1);
      BeforeVIs(w, base2);
    }
  }

  /** The identifier of a paper's arXiv entry as the loop cuts it. */
  function CutId(t: Text, p: Paper): string
    requires p.arxivId.Some?
  {
    BeforeV(t.lower(t.strip(p.arxivId.value)))
  }

  /** Of two eligible papers whose cut identifiers meet only the first is kept, whatever else they say. */
  lemma MeetingCutsDropSecond(t: Text, p: Paper, q: Paper, only: bool)
    requires Eligible(p, only) && p.arxivId.Some? && q.arxivId.Some? && CutId(t, p) == CutId(t, q)
    ensures Kept(t, [p, q], only) == [p]
  {
    assert [p, q][..1] == [p] && [p][..0] == [];
    assert Kept(t, [p], only) == [p];
    assert Seen(t, [p]) == Identifiers(t, p);
    assert CutId(t, p) in Identifiers(t, p) && CutId(t, q) in Identifiers(t, q);
  }

  /**
   Two works of the archive solv-int: the second is dropped, for every pair of digital object
   identifiers and titles.
   */
  lemma ArchiveNamesCollide(t: Text, p: Paper, q: Paper)
    requires p.arxivId == Some("solv-int/9901001") && q.arxivId == Some("solv-int/9902002")
    requires t.lower(t.strip("solv-int/9901001")) == "solv-int/9901001"
    requires t.lower(t.strip("solv-int/9902002")) == "solv-int/9902002"
    ensures Kept(t, [p, q], false) == [p]
  {
    SolvCut("solv-int/9901001", "-int/9901001");
    SolvCut("solv-int/9902002", "-int/9902002");
    MeetingCutsDropSecond(t, p, q, false);
  }

  lemma SolvCut(id: string, rest: string)
    requires id == "solv" + rest
    ensures BeforeV(id) == "sol"
  {
    assert "sol" + "v" == "solv" && "solv" <= id;
    BeforeVIs("sol", id);
  }

  // ---- Ordering and truncation ----------------------------------------------------------------------

  /** The sort key: peer-reviewed first, then similarity, then year, both descending. */
  predicate Before(t: Text, a: Paper, b: Paper) {
    if a.peerReviewed != b.peerReviewed then a.peerReviewed
    else if t.similarity(a.title) != t.similarity(b.title) then t.similarity(a.title) > t.similarity(b.title)
    else a.year >= b.year
  }

  function Priority(t: Text): (Paper, Paper) -> bool {
    (a, b) => Before(t, a, b)
  }

  lemma PriorityOrder(t: Text)
    ensures TotalPreorder(Priority(t))
  {
  }

  ghost function Results(t: Text, candidates: seq<Paper>, only: bool, limit: nat): seq<Paper> {
    var ranked := Sorted(Kept(t, candidates, only), Priority(t));
    if limit <= |ranked| then ranked[..limit] else ranked
  }

  lemma PermutedDisjoint(t: Text, a: seq<Paper>, b: seq<Paper>)
    requires multiset(a) == multiset(b) && PairwiseDisjoint(t, a)
    requires forall p :: p in a ==> Identifiers(t, p) != {}
    ensures PairwiseDisjoint(t, b)
  {
    forall i, j | 0 <= i < j < |b|
      ensures Identifiers(t, b[i]) !! Identifiers(t, b[j])
    {
      assert b[i] in multiset(a) && b[j] in multiset(a);
      var x :| 0 <= x < |a| && a[x] == b[i];
      var y :| 0 <= y < |a| && a[y] == b[j];
      if x == y {
        TwiceIfRepeated(b, i, j);
        OnceOnly(t, a, b[i]);
      }
    }
  }

  lemma {:induction false} OnceOnly(t: Text, a: seq<Paper>, p: Paper)
    requires PairwiseDisjoint(t, a) && Identifiers(t, p) != {}
    ensures multiset(a)[p] <= 1
    decreases |a|
  {
    if a != [] {
      var front, last := a[..|a| - 1], a[|a| - 1];
      assert a == front + [last];
      OnceOnly(t, front, p);
      assert p == last ==> p !in front;
    }
  }

  /**
   The final list: at most `limit` papers, ordered by the three criteria, no two sharing an
   identifier; papers equal in all three keep the order of the candidates, and nothing cut off
   ranks strictly before anything returned.
  */
  lemma ResultsAreRanked(t: Text, candidates: seq<Paper>, only: bool, limit: nat)
    ensures var r, kept := Results(t, candidates, only, limit), Kept(t, candidates, only);
            && |r| == (if limit <= |kept| then limit else |kept|)
            && Ascending(r, Priority(t)) && PairwiseDisjoint(t, r)
            && (forall p :: p in r ==> p in kept)
            && (forall p, q :: p in kept && p !in r && q in r ==> Before(t, q, p))
  {
    var kept := Kept(t, candidates, only);
    var ranked := Sorted(kept, Priority(t));
    PriorityOrder(t);
    SortedAscends(kept, Priority(t));
    SortedPermutes(kept, Priority(t));
    SortedMembers(kept, Priority(t));
    KeptDisjoint(t, candidates, only);
    PermutedDisjoint(t, kept, ranked);
    CutIsRanked(t, ranked, Results(t, candidates, only, limit));
  }

  /** What a prefix of an ascending list keeps. */
  lemma CutIsRanked(t: Text, ranked: seq<Paper>, r: seq<Paper>)
    requires Ascending(ranked, Priority(t)) && PairwiseDisjoint(t, ranked) && r <= ranked
    ensures Ascending(r, Priority(t)) && PairwiseDisjoint(t, r)
    ensures forall p :: p in r ==> p in ranked
    ensures forall p, q :: p in ranked && p !in r && q in r ==> Before(t, q, p)
  {
    forall p, q | p in ranked && p !in r && q in r
      ensures Before(t, q, p)
    {
      var i :| 0 <= i < |ranked| && ranked[i] == p;
      var j :| 0 <= j < |r| && r[j] == q;
      assert forall k :: 0 <= k < |r| ==> r[k] == ranked[k] && r[k] in r;
      assert Priority(t)(ranked[j], ranked[i]);
    }
  }

  lemma EqualRankKeepsOrder(t: Text, candidates: seq<Paper>, only: bool, peerReviewed: bool, similarity: real,
      year: int)
    ensures var group := (p: Paper) => p.peerReviewed == peerReviewed && t.similarity(p.title) == similarity
        && p.year == year;
            Filter(Sorted(Kept(t, candidates, only), Priority(t)), group) == Filter(Kept(t, candidates, only), group)
  {
    var group := (p: Paper) => p.peerReviewed == peerReviewed && t.similarity(p.title) == similarity && p.year == year;
    SortedStable(Kept(t, candidates, only), Priority(t), group);
  }

  // ---- The loop -------------------------------------------------------------------------------------

  method FuseResults(t: Text, candidates: seq<Paper>, peerReviewedOnly: bool, limit: nat)
      returns (finalResults: seq<Paper>)
    ensures finalResults == Results(t, candidates, peerReviewedOnly, limit)
    ensures |finalResults| <= limit && Ascending(finalResults, Priority(t)) && PairwiseDisjoint(t, finalResults)
  {
    var results: seq<Paper> := [];
    var seenIdentifiers: set<string> := {};
    for i := 0 to |candidates|
      invariant results == Kept(t, candidates[..i], peerReviewedOnly)
      invariant seenIdentifiers == Seen(t, results)
    {
      assert candidates[..i + 1][..i] == candidates[..i];
      var p := candidates[i];
      if !peerReviewedOnly || p.peerReviewed {
        var keys := Identifiers(t, p);
        if keys !! seenIdentifiers {
          seenIdentifiers := seenIdentifiers + keys;
          assert (results + [p])[..|results|] == results;
          results := results + [p];
        }
      }
    }
    assert candidates[..|candidates|] == candidates;
    results := Sorted(results, Priority(t));
    finalResults := if limit <= |results| then results[..limit] else results;
    ResultsAreRanked(t, candidates, peerReviewedOnly, limit);
  }

  // ---- The identifiers and the ranking spelled out --------------------------------------------------

  /**
   Everything a paper is known by, in lower case: its first name as it is, and DOI, arXiv id, cut
   arXiv id and title stripped.
   */
  lemma IdentifiersAre(t: Text, p: Paper, k: string)
    ensures k in Identifiers(t, p) <==>
            || (p.doi.Some? && (k == t.lower(p.doi.value) || k == t.lower(t.strip(p.doi.value))))
            || (p.arxivId.Some? && (k == t.lower(t.strip(p.arxivId.value)) || k == CutId(t, p)))
            || (p.doi.None? && p.arxivId.Some? && k == t.lower(p.arxivId.value))
            || (p.title != "" && k == t.lower(t.strip(p.title)))
            || (p.doi.None? && p.arxivId.None? && k == t.lower(p.title))
  {
  }

  /** Of two eligible papers the second is kept exactly if nothing they are known by is the same. */
  lemma SecondKeptIff(t: Text, p: Paper, q: Paper, only: bool)
    requires Eligible(p, only) && Eligible(q, only)
    ensures Kept(t, [p, q], only) == if Identifiers(t, p) !! Identifiers(t, q) then [p, q] else [p]
  {
    KeptOneMore(t, [], p, only);
    KeptOneMore(t, [p], q, only);
    SeenOne(t, p);
    assert [] + [p] == [p] && [p] + [q] == [p, q];
  }

  lemma KeptOneMore(t: Text, candidates: seq<Paper>, p: Paper, only: bool)
    requires Eligible(p, only)
    ensures Kept(t, candidates + [p], only) ==
            Kept(t, candidates, only) + if Identifiers(t, p) !! Seen(t, Kept(t, candidates, only)) then [p] else []
  {
    assert (candidates + [p])[..|candidates|] == candidates;
  }

  lemma SeenOne(t: Text, p: Paper)
    ensures Seen(t, [p]) == Identifiers(t, p) && Seen(t, []) == {}
  {
    assert [p][..0] == [];
  }

  /** The same DOI, arXiv id or title, up to blanks around it and case, makes two papers one. */
  lemma SameNameDropsSecond(t: Text, p: Paper, q: Paper, only: bool)
    requires Eligible(p, only) && Eligible(q, only)
    requires || (p.doi.Some? && q.doi.Some? && t.lower(t.strip(p.doi.value)) == t.lower(t.strip(q.doi.value)))
             || (&& p.arxivId.Some? && q.arxivId.Some?
                 && t.lower(t.strip(p.arxivId.value)) == t.lower(t.strip(q.arxivId.value)))
             || (p.title != "" && q.title != "" && t.lower(t.strip(p.title)) == t.lower(t.strip(q.title)))
    ensures Kept(t, [p, q], only) == [p]
  {
    var k := if p.doi.Some? && q.doi.Some? && t.lower(t.strip(p.doi.value)) == t.lower(t.strip(q.doi.value))
             then t.lower(t.strip(p.doi.value))
             else if p.arxivId.Some? && q.arxivId.Some? &&
                     t.lower(t.strip(p.arxivId.value)) == t.lower(t.strip(q.arxivId.value))
             then t.lower(t.strip(p.arxivId.value))
             else t.lower(t.strip(p.title));
    IdentifiersAre(t, p, k);
    IdentifiersAre(t, q, k);
    SecondKeptIff(t, p, q, only);
  }

  /** Of two papers returned, the first is the peer-reviewed one, else the more similar one, else not the older one. */
  lemma ReturnedInOrder(t: Text, candidates: seq<Paper>, only: bool, limit: nat, i: nat, j: nat)
    requires i < j < |Results(t, candidates, only, limit)|
    ensures var a, b := Results(t, candidates, only, limit)[i], Results(t, candidates, only, limit)[j];
            && (b.peerReviewed ==> a.peerReviewed)
            && (a.peerReviewed == b.peerReviewed ==> t.similarity(a.title) >= t.similarity(b.title))
            && (a.peerReviewed == b.peerReviewed && t.similarity(a.title) == t.similarity(b.title) ==> a.year >= b.year)
            && (only ==> a.peerReviewed && b.peerReviewed)
  {
    ResultsAreRanked(t, candidates, only, limit);
    KeptDisjoint(t, candidates, only);
    var r, kept := Results(t, candidates, only, limit), Kept(t, candidates, only);
    assert Priority(t)(r[i], r[j]);
    assert r[i] in kept && r[j] in kept;
  }
}
