/**
 Deterministic community numbering. The clustering itself is an oracle that answers with some
 partition of the graph's nodes, listed in any order; the service makes the answer canonical.
*/
module Communities {
  import opened Sequences
  import opened StableSort
  import opened Lexicographic

  datatype Node = Node(id: string, title: string, kind: string)

  datatype Edge = Edge(source: string, target: string, weight: real)

  /** The graph as it is built: what is inserted, in which order. */
  datatype Graph = Graph(nodes: seq<string>, edges: seq<Edge>)

  datatype Community = Community(id: nat, nodeIds: seq<string>)

  predicate ById(a: Node, b: Node) { LexLe(a.id, b.id) }

  /** The sort key (source, target). */
  predicate ByEnds(a: Edge, b: Edge) {
    if a.source == b.source then LexLe(a.target, b.target) else LexLe(a.source, b.source)
  }

  // ---- Building the graph in a canonical order ------------------------------------------------------

  function NodeIds(nodes: seq<Node>, strip: string -> string): seq<string> {
    if nodes == [] then []
    else
      var rest, nid := NodeIds(nodes[..|nodes| - 1], strip), strip(nodes[|nodes| - 1].id);
      if nid == "" then rest else rest + [nid]
  }

  function Weight(w: real): real { if w <= 0.0 then 1.0 else w }

  function KeptEdges(edges: seq<Edge>, ids: seq<string>, strip: string -> string): seq<Edge> {
    if edges == [] then []
    else
      var rest, e := KeptEdges(edges[..|edges| - 1], ids, strip), edges[|edges| - 1];
      var src, tgt := strip(e.source), strip(e.target);
      if src in ids && tgt in ids && src != tgt then rest + [Edge(src, tgt, Weight(e.weight))] else rest
  }

  function GraphOf(nodes: seq<Node>, edges: seq<Edge>, strip: string -> string): Graph {
    var ids := NodeIds(Sorted(nodes, ById), strip);
    Graph(ids, KeptEdges(Sorted(edges, ByEnds), ids, strip))
  }

  lemma ByIdOrder()
    ensures TotalPreorder(ById)
  {
    LexOrder();
    forall a: Node, b: Node, c: Node | ById(a, b) && ById(b, c)
      ensures ById(a, c)
    {
      LexTransitive(a.id, b.id, c.id);
    }
  }

  lemma ByEndsTransitive(a: Edge, b: Edge, c: Edge)
    requires ByEnds(a, b) && ByEnds(b, c)
    ensures ByEnds(a, c)
  {
    if a.source == b.source && b.source == c.source {
      LexTransitive(a.target, b.target, c.target);
    } else if a.source != b.source && b.source != c.source {
      LexTransitive(a.source, b.source, c.source);
      if a.source == c.source {
        LexAntisymmetric(a.source, b.source);
      }
    }
  }

  lemma ByEndsOrder()
    ensures TotalPreorder(ByEnds)
  {
    forall a: Edge, b: Edge
      ensures ByEnds(a, b) || ByEnds(b, a)
    {
      LexTotal(a.source, b.source);
      LexTotal(a.target, b.target);
    }
    forall a: Edge, b: Edge, c: Edge | ByEnds(a, b) && ByEnds(b, c)
      ensures ByEnds(a, c)
    {
      ByEndsTransitive(a, b, c);
    }
  }

  ghost predicate DistinctNodeIds(nodes: seq<Node>) {
    forall i, j :: 0 <= i < |nodes| && 0 <= j < |nodes| && nodes[i].id == nodes[j].id ==> nodes[i] == nodes[j]
  }

  predicate SameEnds(a: Edge, b: Edge) { a.source == b.source && a.target == b.target }

  ghost predicate DistinctEnds(edges: seq<Edge>) {
    forall i, j :: 0 <= i < |edges| && 0 <= j < |edges| && SameEnds(edges[i], edges[j]) ==> edges[i] == edges[j]
  }

  lemma SortedNodesUnique(a: seq<Node>, b: seq<Node>)
    requires multiset(a) == multiset(b) && DistinctNodeIds(a)
    ensures Sorted(a, ById) == Sorted(b, ById)
  {
    var s, t := Sorted(a, ById), Sorted(b, ById);
    ByIdOrder();
    SortedAscends(a, ById);
    SortedAscends(b, ById);
    SortedPermutes(a, ById);
    SortedPermutes(b, ById);
    SortedMembers(a, ById);
    forall i, j | 0 <= i < |s| && 0 <= j < |s| && ById(s[i], s[j]) && ById(s[j], s[i])
      ensures s[i] == s[j]
    {
      LexAntisymmetric(s[i].id, s[j].id);
      assert s[i] in a && s[j] in a;
    }
    AscendingUnique(s, t, ById);
  }

  lemma SortedEdgesUnique(a: seq<Edge>, b: seq<Edge>)
    requires multiset(a) == multiset(b) && DistinctEnds(a)
    ensures Sorted(a, ByEnds) == Sorted(b, ByEnds)
  {
    var s, t := Sorted(a, ByEnds), Sorted(b, ByEnds);
    ByEndsOrder();
    SortedAscends(a, ByEnds);
    SortedAscends(b, ByEnds);
    SortedPermutes(a, ByEnds);
    SortedPermutes(b, ByEnds);
    SortedMembers(a, ByEnds);
    forall i, j | 0 <= i < |s| && 0 <= j < |s| && ByEnds(s[i], s[j]) && ByEnds(s[j], s[i])
      ensures s[i] == s[j]
    {
      if s[i].source != s[j].source {
        LexAntisymmetric(s[i].source, s[j].source);
      } else {
        LexAntisymmetric(s[i].target, s[j].target);
      }
      assert s[i] in a && s[j] in a;
    }
    AscendingUnique(s, t, ByEnds);
  }

  /** With distinct node ids and distinct end pairs, the order of the inputs does not reach the graph. */
  lemma InputOrderIrrelevant(nodes: seq<Node>, edges: seq<Edge>, nodes2: seq<Node>, edges2: seq<Edge>,
      strip: string -> string)
    requires multiset(nodes) == multiset(nodes2) && DistinctNodeIds(nodes)
    requires multiset(edges) == multiset(edges2) && DistinctEnds(edges)
    ensures GraphOf(nodes, edges, strip) == GraphOf(nodes2, edges2, strip)
  {
    SortedNodesUnique(nodes, nodes2);
    SortedEdgesUnique(edges, edges2);
  }

  // ---- Numbering the communities --------------------------------------------------------------------

  /** The sort key (-size, first node), for lists that are not empty. */
  predicate BySize(a: seq<string>, b: seq<string>) {
    |a| > |b| || (|a| == |b| && (a == [] || LexLe(a[0], b[0])))
  }

  lemma BySizeOrder()
    ensures TotalPreorder(BySize)
  {
    forall a: seq<string>, b: seq<string>
      ensures BySize(a, b) || BySize(b, a)
    {
      if a != [] && b != [] {
        LexTotal(a[0], b[0]);
      }
    }
    forall a: seq<string>, b: seq<string>, c: seq<string> | BySize(a, b) && BySize(b, c)
      ensures BySize(a, c)
    {
      if a != [] && |a| == |b| == |c| {
        LexTransitive(a[0], b[0], c[0]);
      }
    }
  }

  /** Every non-empty community with its members sorted, in the order of the oracle's list. */
  function SortedMembersOf(raw: seq<seq<string>>): seq<seq<string>> {
    if raw == [] then []
    else
      var rest, last := SortedMembersOf(raw[..|raw| - 1]), raw[|raw| - 1];
      if last == [] then rest else rest + [Sorted(last, LexLe)]
  }

  function Canonical(raw: seq<seq<string>>): seq<seq<string>> {
    Sorted(SortedMembersOf(raw), BySize)
  }

  /** The oracle's lists are the iteration orders of disjoint sets. */
  ghost predicate Disjoint(raw: seq<seq<string>>) {
    && (forall i :: 0 <= i < |raw| ==> NoDuplicates(raw[i]))
    && (forall i, j, x :: 0 <= i < |raw| && 0 <= j < |raw| && x in raw[i] && x in raw[j] ==> i == j)
  }

  ghost function Members(c: seq<string>): set<string> { set x | x in c }

  /** The partition as a set of sets. */
  ghost function Blocks(raw: seq<seq<string>>): set<set<string>> {
    set c | c in raw && c != [] :: Members(c)
  }

  /** The sorted list of a set does not depend on the order the set was listed in. */
  lemma SameMembersSameList(a: seq<string>, b: seq<string>)
    requires NoDuplicates(a) && NoDuplicates(b) && Members(a) == Members(b)
    ensures Sorted(a, LexLe) == Sorted(b, LexLe)
  {
    forall x
      ensures multiset(a)[x] == multiset(b)[x]
    {
      OnceIfListed(a, x);
      OnceIfListed(b, x);
      assert x in a <==> x in Members(a);
      assert x in b <==> x in Members(b);
    }
    LexOrder();
    SortedAscends(a, LexLe);
    SortedAscends(b, LexLe);
    SortedPermutes(a, LexLe);
    SortedPermutes(b, LexLe);
    var s := Sorted(a, LexLe);
    forall i, j | 0 <= i < |s| && 0 <= j < |s| && LexLe(s[i], s[j]) && LexLe(s[j], s[i])
      ensures s[i] == s[j]
    {
      LexAntisymmetric(s[i], s[j]);
    }
    AscendingUnique(Sorted(a, LexLe), Sorted(b, LexLe), LexLe);
  }

  lemma SortedListOf(c: seq<string>)
    ensures Members(Sorted(c, LexLe)) == Members(c) && |Sorted(c, LexLe)| == |c|
  {
    SortedMembers(c, LexLe);
    SortedPermutes(c, LexLe);
  }

  ghost predicate IsSortedCommunity(raw: seq<seq<string>>, l: seq<string>) {
    exists c :: c in raw && c != [] && l == Sorted(c, LexLe)
  }

  /** Which lists the first sort produces: one for every community, none empty, no two sharing a node. */
  lemma {:induction false} ListsOfCommunities(raw: seq<seq<string>>)
    requires Disjoint(raw)
    ensures forall l :: l in SortedMembersOf(raw) ==> l != [] && IsSortedCommunity(raw, l)
    ensures forall c :: c in raw && c != [] ==> Sorted(c, LexLe) in SortedMembersOf(raw)
    ensures NoDuplicates(SortedMembersOf(raw))
    decreases |raw|
  {
    if raw != [] {
      var front, last := raw[..|raw| - 1], raw[|raw| - 1];
      assert raw == front + [last];
      ListsOfCommunities(front);
      SortedListOf(last);
      forall l | l in SortedMembersOf(raw)
        ensures l != [] && IsSortedCommunity(raw, l)
      {
        if l in SortedMembersOf(front) {
          var c :| c in front && c != [] && l == Sorted(c, LexLe);
          assert c in raw;
        } else {
          assert last in raw && l == Sorted(last, LexLe);
        }
      }
      if last != [] && Sorted(last, LexLe) in SortedMembersOf(front) {
        var c :| c in front && c != [] && Sorted(last, LexLe) == Sorted(c, LexLe);
        SortedListOf(c);
        SharedNode(raw, c);
      }
    }
  }

  lemma SharedNode(raw: seq<seq<string>>, c: seq<string>)
    requires raw != [] && c in raw[..|raw| - 1] && c != [] && Members(c) == Members(raw[|raw| - 1])
    ensures !Disjoint(raw)
  {
    var i :| 0 <= i < |raw| - 1 && raw[i] == c;
    assert c[0] in Members(c);
    assert c[0] in raw[i] && c[0] in raw[|raw| - 1];
  }

  /** Two listed communities with one first node are one community. */
  lemma FirstNodeDetermines(raw: seq<seq<string>>, a: seq<string>, b: seq<string>)
    requires Disjoint(raw) && a in SortedMembersOf(raw) && b in SortedMembersOf(raw)
    requires a != [] && b != [] && a[0] == b[0]
    ensures a == b
  {
    ListsOfCommunities(raw);
    var c :| c in raw && c != [] && a == Sorted(c, LexLe);
    var d :| d in raw && d != [] && b == Sorted(d, LexLe);
    SortedListOf(c);
    SortedListOf(d);
    assert a[0] in Members(a) && b[0] in Members(b);
    var i :| 0 <= i < |raw| && raw[i] == c;
    var j :| 0 <= j < |raw| && raw[j] == d;
  }

  lemma ListsFromBlocks(raw: seq<seq<string>>, raw2: seq<seq<string>>, l: seq<string>)
    requires Disjoint(raw) && Disjoint(raw2) && Blocks(raw) == Blocks(raw2) && l in SortedMembersOf(raw)
    ensures l in SortedMembersOf(raw2)
  {
    ListsOfCommunities(raw);
    ListsOfCommunities(raw2);
    var c :| c in raw && c != [] && l == Sorted(c, LexLe);
    assert Members(c) in Blocks(raw2);
    var d :| d in raw2 && d != [] && Members(d) == Members(c);
    SameMembersSameList(c, d);
  }

  /** The numbering depends on the partition alone, not on how the oracle listed it. */
  lemma NumberingDependsOnPartition(raw: seq<seq<string>>, raw2: seq<seq<string>>)
    requires Disjoint(raw) && Disjoint(raw2) && Blocks(raw) == Blocks(raw2)
    ensures Canonical(raw) == Canonical(raw2)
  {
    var a, b := SortedMembersOf(raw), SortedMembersOf(raw2);
    ListsOfCommunities(raw);
    ListsOfCommunities(raw2);
    forall l
      ensures l in a <==> l in b
    {
      if l in a {
        ListsFromBlocks(raw, raw2, l);
      }
      if l in b {
        ListsFromBlocks(raw2, raw, l);
      }
    }
    SameMembersSameMultiset(a, b);
    BySizeOrder();
    SortedAscends(a, BySize);
    SortedAscends(b, BySize);
    SortedPermutes(a, BySize);
    SortedPermutes(b, BySize);
    SortedMembers(a, BySize);
    var s := Canonical(raw);
    forall i, j | 0 <= i < |s| && 0 <= j < |s| && BySize(s[i], s[j]) && BySize(s[j], s[i])
      ensures s[i] == s[j]
    {
      assert s[i] in a && s[j] in a;
      LexAntisymmetric(s[i][0], s[j][0]);
      FirstNodeDetermines(raw, s[i], s[j]);
    }
    AscendingUnique(s, Canonical(raw2), BySize);
  }

  ghost predicate InSome(lists: seq<seq<string>>, x: string) {
    exists i :: 0 <= i < |lists| && x in lists[i]
  }

  /** Sizes never increase with the number, and each list is in string order. */
  lemma CanonicalShape(raw: seq<seq<string>>)
    requires Disjoint(raw)
    ensures var cs := Canonical(raw);
            && (forall i, j :: 0 <= i < j < |cs| ==> |cs[i]| >= |cs[j]|)
            && (forall i :: 0 <= i < |cs| ==> cs[i] != [] && Ascending(cs[i], LexLe))
            && (forall i, j, x :: 0 <= i < |cs| && 0 <= j < |cs| && x in cs[i] && x in cs[j] ==> i == j)
            && (forall x :: InSome(cs, x) <==> InSome(raw, x))
  {
    var a, cs := SortedMembersOf(raw), Canonical(raw);
    ListsOfCommunities(raw);
    LexOrder();
    BySizeOrder();
    SortedAscends(a, BySize);
    SortedPermutes(a, BySize);
    SortedMembers(a, BySize);
    forall i | 0 <= i < |cs|
      ensures cs[i] != [] && Ascending(cs[i], LexLe)
      ensures forall x :: x in cs[i] ==> InSome(raw, x)
    {
      assert cs[i] in a;
      var c :| c in raw && c != [] && cs[i] == Sorted(c, LexLe);
      var k :| 0 <= k < |raw| && raw[k] == c;
      SortedAscends(c, LexLe);
      SortedMembers(c, LexLe);
    }
    forall k, x | 0 <= k < |raw| && x in raw[k]
      ensures InSome(cs, x)
    {
      var c := raw[k];
      SortedMembers(c, LexLe);
      assert c in raw && Sorted(c, LexLe) in a;
      assert Sorted(c, LexLe) in cs;
      var i :| 0 <= i < |cs| && cs[i] == Sorted(c, LexLe);
    }
    forall i, j, x | 0 <= i < |cs| && 0 <= j < |cs| && x in cs[i] && x in cs[j]
      ensures i == j
    {
      ListsDisjoint(raw, cs[i], cs[j], x);
      SortedStillDistinct(a);
    }
  }

  lemma ListsDisjoint(raw: seq<seq<string>>, a: seq<string>, b: seq<string>, x: string)
    requires Disjoint(raw) && a in SortedMembersOf(raw) && b in SortedMembersOf(raw) && x in a && x in b
    ensures a == b
  {
    ListsOfCommunities(raw);
    var c :| c in raw && c != [] && a == Sorted(c, LexLe);
    var d :| d in raw && d != [] && b == Sorted(d, LexLe);
    SortedMembers(c, LexLe);
    SortedMembers(d, LexLe);
    var i :| 0 <= i < |raw| && raw[i] == c;
    var j :| 0 <= j < |raw| && raw[j] == d;
  }

  lemma SortedStillDistinct(a: seq<seq<string>>)
    requires NoDuplicates(a)
    ensures NoDuplicates(Sorted(a, BySize))
  {
    var s := Sorted(a, BySize);
    SortedPermutes(a, BySize);
    forall i, j | 0 <= i < j < |s|
      ensures s[i] != s[j]
    {
      if s[i] == s[j] {
        OnceIfListed(a, s[i]);
        TwiceIfRepeated(s, i, j);
      }
    }
  }

  // ---- The service ----------------------------------------------------------------------------------

  /** Inserts the nodes and the accepted edges in canonical order. */
  method BuildGraph(nodes: seq<Node>, edges: seq<Edge>, strip: string -> string) returns (g: Graph)
    ensures g == GraphOf(nodes, edges, strip)
  {
    var ids := AddNodes(Sorted(nodes, ById), strip);
    var kept := AddEdges(Sorted(edges, ByEnds), ids, strip);
    g := Graph(ids, kept);
  }

  method AddNodes(sortedNodes: seq<Node>, strip: string -> string) returns (ids: seq<string>)
    ensures ids == NodeIds(sortedNodes, strip)
  {
    ids := [];
    for i := 0 to |sortedNodes|
      invariant ids == NodeIds(sortedNodes[..i], strip)
    {
      assert sortedNodes[..i + 1][..i] == sortedNodes[..i];
      var nid := strip(sortedNodes[i].id);
      if nid != "" {
        ids := ids + [nid];
      }
    }
    assert sortedNodes[..|sortedNodes|] == sortedNodes;
  }

  method AddEdges(sortedEdges: seq<Edge>, ids: seq<string>, strip: string -> string) returns (kept: seq<Edge>)
    ensures kept == KeptEdges(sortedEdges, ids, strip)
  {
    kept := [];
    for i := 0 to |sortedEdges|
      invariant kept == KeptEdges(sortedEdges[..i], ids, strip)
    {
      assert sortedEdges[..i + 1][..i] == sortedEdges[..i];
      var src, tgt := strip(sortedEdges[i].source), strip(sortedEdges[i].target);
      if src in ids && tgt in ids && src != tgt {
        kept := kept + [Edge(src, tgt, Weight(sortedEdges[i].weight))];
      }
    }
    assert sortedEdges[..|sortedEdges|] == sortedEdges;
  }

  /** A node is mapped to k exactly if the k-th list holds it. */
  ghost predicate Agrees(m: map<string, nat>, lists: seq<seq<string>>) {
    && (forall x :: x in m ==> m[x] < |lists| && x in lists[m[x]])
    && (forall i :: 0 <= i < |lists| ==> MappedTo(m, lists[i], i))
  }

  ghost predicate MappedTo(m: map<string, nat>, nodes: seq<string>, i: nat) {
    forall x :: x in nodes ==> x in m && m[x] == i
  }

  /**
   Numbers the communities of the oracle's answer: numbers are dense, a node is mapped to the
   community that lists it, and exactly the partitioned nodes are mapped.
  */
  method NumberCommunities(raw: seq<seq<string>>)
      returns (nodeToCommunity: map<string, nat>, communities: seq<Community>)
    requires Disjoint(raw)
    ensures |communities| == |Canonical(raw)|
    ensures forall i :: 0 <= i < |communities| ==> communities[i] == Community(i, Canonical(raw)[i])
    ensures Agrees(nodeToCommunity, Canonical(raw))
    ensures forall x :: x in nodeToCommunity <==> InSome(raw, x)
  {
    var sortedComms := Canonical(raw);
    nodeToCommunity, communities := map[], [];
    CanonicalShape(raw);
    for commId := 0 to |sortedComms|
      invariant |communities| == commId
      invariant forall i :: 0 <= i < commId ==> communities[i] == Community(i, sortedComms[i])
      invariant Agrees(nodeToCommunity, sortedComms[..commId])
    {
      var before := nodeToCommunity;
      nodeToCommunity := MapNodes(nodeToCommunity, sortedComms[commId], commId);
      OneMoreCommunity(before, nodeToCommunity, sortedComms, commId);
      communities := communities + [Community(commId, sortedComms[commId])];
    }
    assert sortedComms[..|sortedComms|] == sortedComms;
    forall x
      ensures x in nodeToCommunity <==> InSome(raw, x)
    {
      if InSome(sortedComms, x) {
        var i :| 0 <= i < |sortedComms| && x in sortedComms[i];
        assert MappedTo(nodeToCommunity, sortedComms[i], i);
      }
    }
  }

  lemma OneMoreCommunity(before: map<string, nat>, m: map<string, nat>, lists: seq<seq<string>>, k: nat)
    requires k < |lists| && Agrees(before, lists[..k])
    requires forall i, j, x :: 0 <= i < |lists| && 0 <= j < |lists| && x in lists[i] && x in lists[j] ==> i == j
    requires forall x :: x in m <==> x in before || x in lists[k]
    requires forall x :: x in lists[k] ==> x in m && m[x] == k
    requires forall x :: x in before && x !in lists[k] ==> x in m && m[x] == before[x]
    ensures Agrees(m, lists[..k + 1])
  {
    assert lists[..k + 1][..k] == lists[..k];
    forall i | 0 <= i < k + 1
      ensures MappedTo(m, lists[i], i)
    {
      if i < k {
        assert lists[..k][i] == lists[i];
        assert MappedTo(before, lists[i], i);
      }
    }
  }

  method MapNodes(before: map<string, nat>, nodes: seq<string>, commId: nat) returns (m: map<string, nat>)
    ensures forall x :: x in m <==> x in before || x in nodes
    ensures forall x :: x in nodes ==> x in m && m[x] == commId
    ensures forall x :: x in before && x !in nodes ==> x in m && m[x] == before[x]
  {
    m := before;
    for k := 0 to |nodes|
      invariant forall x :: x in m <==> x in before || x in nodes[..k]
      invariant forall x :: x in nodes[..k] ==> x in m && m[x] == commId
      invariant forall x :: x in before && x !in nodes[..k] ==> x in m && m[x] == before[x]
    {
      assert forall x :: x in nodes[..k + 1] <==> x in nodes[..k] || x == nodes[k];
      m := m[nodes[k] := commId];
    }
    assert nodes[..|nodes|] == nodes;
  }

  // ---- The whole call -------------------------------------------------------------------------------

  /** The oracle's answer for the graph that was built: its communities are disjoint and hold exactly its nodes. */
  ghost predicate Partitions(raw: seq<seq<string>>, g: Graph) {
    Disjoint(raw) && forall x :: InSome(raw, x) <==> x in g.nodes
  }

  /** The numbered lists; without nodes the oracle is not asked. */
  function Lists(nodes: seq<Node>, edges: seq<Edge>, strip: string -> string,
      oracle: Graph -> seq<seq<string>>): seq<seq<string>>
  {
    var g := GraphOf(nodes, edges, strip);
    if g.nodes == [] then [] else Canonical(oracle(g))
  }

  ghost predicate Honest(nodes: seq<Node>, edges: seq<Edge>, strip: string -> string,
      oracle: Graph -> seq<seq<string>>)
  {
    var g := GraphOf(nodes, edges, strip);
    g.nodes != [] ==> Partitions(oracle(g), g)
  }

  /** Some node has the id x once blanks are stripped, and x is not empty. */
  ghost predicate Named(nodes: seq<Node>, strip: string -> string, x: string) {
    x != "" && exists n :: n in nodes && strip(n.id) == x
  }

  lemma {:induction false} NodeIdsAreNamed(nodes: seq<Node>, strip: string -> string, x: string)
    ensures x in NodeIds(nodes, strip) <==> Named(nodes, strip, x)
    decreases |nodes|
  {
    if nodes != [] {
      var front, last := nodes[..|nodes| - 1], nodes[|nodes| - 1];
      NodeIdsAreNamed(front, strip, x);
      assert nodes == front + [last];
    }
  }

  lemma GraphNodesAreNamed(nodes: seq<Node>, edges: seq<Edge>, strip: string -> string, x: string)
    ensures x in GraphOf(nodes, edges, strip).nodes <==> Named(nodes, strip, x)
  {
    NodeIdsAreNamed(Sorted(nodes, ById), strip, x);
    SortedMembers(nodes, ById);
  }

  /** The node map is determined by the lists. */
  lemma MapDependsOnLists(lists: seq<seq<string>>, m: map<string, nat>, m2: map<string, nat>)
    requires Agrees(m, lists) && Agrees(m2, lists)
    ensures m == m2
  {
    forall x | x in m
      ensures x in m2 && m2[x] == m[x]
    {
      assert MappedTo(m2, lists[m[x]], m[x]);
    }
    forall x | x in m2
      ensures x in m
    {
      assert MappedTo(m, lists[m2[x]], m2[x]);
    }
  }

  /**
   From the input to the answer: permuted nodes and edges, and an oracle that lists the same
   partition in any other order, give the same numbered lists and the same node map.
  */
  lemma SamePartitionSameAnswer(nodes: seq<Node>, edges: seq<Edge>, nodes2: seq<Node>, edges2: seq<Edge>,
                                strip: string -> string, oracle: Graph -> seq<seq<string>>,
                                oracle2: Graph -> seq<seq<string>>,
                                m: map<string, nat>, m2: map<string, nat>)
    requires multiset(nodes) == multiset(nodes2) && DistinctNodeIds(nodes)
    requires multiset(edges) == multiset(edges2) && DistinctEnds(edges)
    requires Honest(nodes, edges, strip, oracle) && Honest(nodes, edges, strip, oracle2)
    requires Blocks(oracle(GraphOf(nodes, edges, strip))) == Blocks(oracle2(GraphOf(nodes, edges, strip)))
    requires Agrees(m, Lists(nodes, edges, strip, oracle)) && Agrees(m2, Lists(nodes2, edges2, strip, oracle2))
    ensures Lists(nodes, edges, strip, oracle) == Lists(nodes2, edges2, strip, oracle2) && m == m2
  {
    InputOrderIrrelevant(nodes, edges, nodes2, edges2, strip);
    var g := GraphOf(nodes, edges, strip);
    if g.nodes != [] {
      NumberingDependsOnPartition(oracle(g), oracle2(g));
    }
    MapDependsOnLists(Lists(nodes, edges, strip, oracle), m, m2);
  }

  /** Builds the graph, asks the oracle, and numbers its communities; exactly the non-empty stripped ids are mapped. */
  method PartitionCommunities(nodes: seq<Node>, edges: seq<Edge>, strip: string -> string,
      oracle: Graph -> seq<seq<string>>)
    returns (nodeToCommunity: map<string, nat>, communities: seq<Community>)
    requires Honest(nodes, edges, strip, oracle)
    ensures var lists := Lists(nodes, edges, strip, oracle);
            && |communities| == |lists|
            && (forall i :: 0 <= i < |lists| ==> communities[i] == Community(i, lists[i]))
            && Agrees(nodeToCommunity, lists)
    ensures forall x :: x in nodeToCommunity <==> Named(nodes, strip, x)
  {
    forall x
      ensures x in GraphOf(nodes, edges, strip).nodes <==> Named(nodes, strip, x)
    {
      GraphNodesAreNamed(nodes, edges, strip, x);
    }
    if nodes == [] {
      return map[], [];
    }
    var g := BuildGraph(nodes, edges, strip);
    if g.nodes == [] {
      return map[], [];
    }
    nodeToCommunity, communities := NumberCommunities(oracle(g));
  }

  // ---- Which edges and nodes reach the graph --------------------------------------------------------

  /** Some edge joins u to v once blanks are stripped, and weighs w, or 1 if its own weight is not positive. */
  ghost predicate Joins(edges: seq<Edge>, strip: string -> string, u: string, v: string, w: real) {
    exists e :: e in edges && strip(e.source) == u && strip(e.target) == v &&
                w == if e.weight > 0.0 then e.weight else 1.0
  }

  lemma {:induction false} KeptEdgesAre(edges: seq<Edge>, ids: seq<string>, strip: string -> string,
                                        u: string, v: string, w: real)
    ensures Edge(u, v, w) in KeptEdges(edges, ids, strip) <==>
            u != v && u in ids && v in ids && Joins(edges, strip, u, v, w)
    decreases |edges|
  {
    if edges != [] {
      var front, last := edges[..|edges| - 1], edges[|edges| - 1];
      KeptEdgesAre(front, ids, strip, u, v, w);
      assert edges == front + [last];
    }
  }

  /** An edge is in the graph exactly if some given edge says so, both its ends are named nodes, and they differ. */
  lemma EdgeInGraphIff(nodes: seq<Node>, edges: seq<Edge>, strip: string -> string, u: string, v: string, w: real)
    ensures Edge(u, v, w) in GraphOf(nodes, edges, strip).edges <==>
            u != v && Named(nodes, strip, u) && Named(nodes, strip, v) && Joins(edges, strip, u, v, w)
  {
    var g := GraphOf(nodes, edges, strip);
    GraphNodesAreNamed(nodes, edges, strip, u);
    GraphNodesAreNamed(nodes, edges, strip, v);
    KeptEdgesAre(Sorted(edges, ByEnds), g.nodes, strip, u, v, w);
    SortedMembers(edges, ByEnds);
    assert Joins(Sorted(edges, ByEnds), strip, u, v, w) <==> Joins(edges, strip, u, v, w);
  }

  lemma {:induction false} NodeIdsAscend(nodes: seq<Node>, strip: string -> string)
    requires Ascending(nodes, ById) && forall n :: n in nodes ==> strip(n.id) == n.id
    ensures Ascending(NodeIds(nodes, strip), LexLe)
    ensures forall x :: x in NodeIds(nodes, strip) ==> exists n :: n in nodes && n.id == x
    decreases |nodes|
  {
    if nodes != [] {
      var front, last := nodes[..|nodes| - 1], nodes[|nodes| - 1];
      assert nodes == front + [last];
      NodeIdsAscend(front, strip);
      var ids := NodeIds(front, strip);
      forall i | 0 <= i < |ids|
        ensures LexLe(ids[i], last.id)
      {
        assert ids[i] in ids;
        var n :| n in front && n.id == ids[i];
        var k :| 0 <= k < |front| && front[k] == n;
        assert ById(nodes[k], nodes[|nodes| - 1]);
      }
    }
  }

  /** Nodes without surrounding blanks are inserted in ascending order. */
  lemma NodesInserted(nodes: seq<Node>, edges: seq<Edge>, strip: string -> string)
    requires forall n :: n in nodes ==> strip(n.id) == n.id
    ensures Ascending(GraphOf(nodes, edges, strip).nodes, LexLe)
  {
    ByIdOrder();
    SortedAscends(nodes, ById);
    SortedMembers(nodes, ById);
    NodeIdsAscend(Sorted(nodes, ById), strip);
  }

  /** Of communities of one size the one with the lower first node gets the lower number. */
  lemma TiesByFirstNode(raw: seq<seq<string>>, i: nat, j: nat)
    requires Disjoint(raw) && i < j < |Canonical(raw)| && |Canonical(raw)[i]| == |Canonical(raw)[j]|
    ensures var cs := Canonical(raw); cs[i] != [] && cs[j] != [] && LexLe(cs[i][0], cs[j][0])
  {
    BySizeOrder();
    CanonicalShape(raw);
    SortedAscends(SortedMembersOf(raw), BySize);
    assert BySize(Canonical(raw)[i], Canonical(raw)[j]);
  }

  /** Edges without blanks at their ends are inserted by source, then target. */
  lemma EdgesInserted(nodes: seq<Node>, edges: seq<Edge>, strip: string -> string, i: nat, j: nat)
    requires forall e :: e in edges ==> strip(e.source) == e.source && strip(e.target) == e.target
    requires i < j < |GraphOf(nodes, edges, strip).edges|
    ensures var a, b := GraphOf(nodes, edges, strip).edges[i], GraphOf(nodes, edges, strip).edges[j];
            (a.source != b.source && LexLe(a.source, b.source)) || (a.source == b.source && LexLe(a.target, b.target))
  {
    ByEndsOrder();
    SortedAscends(edges, ByEnds);
    SortedMembers(edges, ByEnds);
    KeptEdgesAscend(Sorted(edges, ByEnds), GraphOf(nodes, edges, strip).nodes, strip, i, j);
  }

  lemma {:induction false} KeptEdgesAscend(edges: seq<Edge>, ids: seq<string>, strip: string -> string, i: nat, j: nat)
    requires Ascending(edges, ByEnds) && i < j < |KeptEdges(edges, ids, strip)|
    requires forall e :: e in edges ==> strip(e.source) == e.source && strip(e.target) == e.target
    ensures ByEnds(KeptEdges(edges, ids, strip)[i], KeptEdges(edges, ids, strip)[j])
    decreases |edges|
  {
    var front, last := edges[..|edges| - 1], edges[|edges| - 1];
    var kept := KeptEdges(front, ids, strip);
    assert edges == front + [last];
    if j < |kept| {
      KeptEdgesAscend(front, ids, strip, i, j);
    } else {
      var e := kept[i];
      assert e in kept;
      KeptEdgesAre(front, ids, strip, e.source, e.target, e.weight);
      var given :| given in front && strip(given.source) == e.source && strip(given.target) == e.target;
      var k :| 0 <= k < |front| && front[k] == given;
      assert ByEnds(edges[k], edges[|edges| - 1]);
    }
  }
}
