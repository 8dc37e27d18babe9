/**
 The one-pass builder that turns a user's flat folder list into the nested tree of the sidebar.

 `ids` is the query's answer: every key of the parent map once, in the order of the names.
*/
module FolderTrees {
  import opened Wrappers
  import opened Sequences
  import opened ParentMaps

  /** The nested answer, as a value. */
  datatype Tree = Tree(id: Id, children: seq<Tree>)

  ghost predicate Enumerates(ids: seq<Id>, m: ParentMap) {
    NoDuplicates(ids) && forall x :: x in ids <==> x in m
  }

  /** The folders of the list hanging directly below p, in list order. */
  ghost function ChildIds(m: ParentMap, ids: seq<Id>, p: Id): seq<Id> {
    if ids == [] then []
    else ChildIds(m, ids[..|ids| - 1], p) + (if Parent(m, ids[|ids| - 1]) == Some(p) then [ids[|ids| - 1]] else [])
  }

  /** The folders of the list shown at the top level, in list order. */
  ghost function RootIds(m: ParentMap, ids: seq<Id>): seq<Id> {
    if ids == [] then []
    else RootIds(m, ids[..|ids| - 1]) + (if IsRoot(m, ids[|ids| - 1]) then [ids[|ids| - 1]] else [])
  }

  lemma {:induction false} ChildIdsMembers(m: ParentMap, ids: seq<Id>, p: Id)
    ensures forall c :: c in ChildIds(m, ids, p) <==> c in ids && Parent(m, c) == Some(p)
    ensures NoDuplicates(ids) ==> NoDuplicates(ChildIds(m, ids, p))
  {
    if ids != [] {
      var rest, last := ids[..|ids| - 1], ids[|ids| - 1];
      ChildIdsMembers(m, rest, p);
      assert ids == rest + [last];
    }
  }

  lemma {:induction false} RootIdsMembers(m: ParentMap, ids: seq<Id>)
    ensures forall r :: r in RootIds(m, ids) <==> r in ids && IsRoot(m, r)
    ensures NoDuplicates(ids) ==> NoDuplicates(RootIds(m, ids))
  {
    if ids != [] {
      var rest, last := ids[..|ids| - 1], ids[|ids| - 1];
      RootIdsMembers(m, rest);
      assert ids == rest + [last];
    }
  }

  // ---- The tree below a folder --------------------------------------------------------------------

  /** x and everything hanging below it. */
  ghost function Descendants(m: ParentMap, x: Id): set<Id> {
    set y | y in m && Under(m, y, x)
  }

  ghost function DescendantsOfAll(m: ParentMap, xs: seq<Id>): set<Id> {
    set y | y in m && exists x :: x in xs && Under(m, y, x)
  }

  lemma ChildrenShrink(m: ParentMap, ids: seq<Id>, x: Id)
    requires Acyclic(m) && x in m
    ensures DescendantsOfAll(m, ChildIds(m, ids, x)) < Descendants(m, x)
  {
    ChildIdsMembers(m, ids, x);
    Reflexive(m, x);
    var below := DescendantsOfAll(m, ChildIds(m, ids, x));
    forall y | y in below
      ensures y in Descendants(m, x) && y != x
    {
      var c :| c in ChildIds(m, ids, x) && Under(m, y, c);
      OneStep(m, c);
      UnderTransitive(m, y, c, x);
    }
    assert x in Descendants(m, x);
  }

  ghost function BuildTree(m: ParentMap, ids: seq<Id>, x: Id): Tree
    requires Acyclic(m) && Enumerates(ids, m) && x in m
    decreases Descendants(m, x), 0
  {
    ChildrenShrink(m, ids, x);
    ChildIdsMembers(m, ids, x);
    Tree(x, BuildTrees(m, ids, ChildIds(m, ids, x)))
  }

  ghost function BuildTrees(m: ParentMap, ids: seq<Id>, xs: seq<Id>): (ts: seq<Tree>)
    requires Acyclic(m) && Enumerates(ids, m)
    requires forall x :: x in xs ==> x in m
    ensures |ts| == |xs|
    decreases DescendantsOfAll(m, xs), 1 + |xs|
  {
    if xs == [] then []
    else
      assert Descendants(m, xs[0]) <= DescendantsOfAll(m, xs);
      assert DescendantsOfAll(m, xs[1..]) <= DescendantsOfAll(m, xs);
      [BuildTree(m, ids, xs[0])] + BuildTrees(m, ids, xs[1..])
  }

  /** The whole answer of the builder on a forest. */
  ghost function BuildForest(m: ParentMap, ids: seq<Id>): seq<Tree>
    requires Acyclic(m) && Enumerates(ids, m)
  {
    RootIdsMembers(m, ids);
    BuildTrees(m, ids, RootIds(m, ids))
  }

  ghost function Flatten(t: Tree): seq<Id> {
    [t.id] + FlattenAll(t.children)
  }

  ghost function FlattenAll(ts: seq<Tree>): seq<Id> {
    if ts == [] then [] else Flatten(ts[0]) + FlattenAll(ts[1..])
  }

  /** The tree below x holds exactly x's descendants. */
  lemma {:induction false} TreeHoldsDescendants(m: ParentMap, ids: seq<Id>, x: Id)
    requires Acyclic(m) && Enumerates(ids, m) && x in m
    ensures forall y :: y in Flatten(BuildTree(m, ids, x)) <==> y in Descendants(m, x)
    decreases Descendants(m, x), 0
  {
    ChildrenShrink(m, ids, x);
    ChildIdsMembers(m, ids, x);
    var kids := ChildIds(m, ids, x);
    TreesHoldDescendants(m, ids, kids);
    forall y | y in Descendants(m, x) && y != x
      ensures y in DescendantsOfAll(m, kids)
    {
      var n: nat :| Climb(m, y, n) == Some(x);
      ClimbAdd(m, y, n - 1, 1);
      var c := Climb(m, y, n - 1).value;
      assert Parent(m, c) == Some(x) by {
        assert Climb(m, c, 1) == Some(x);
      }
      assert Under(m, y, c) && c in kids;
    }
    Reflexive(m, x);
  }

  lemma {:induction false} TreesHoldDescendants(m: ParentMap, ids: seq<Id>, xs: seq<Id>)
    requires Acyclic(m) && Enumerates(ids, m)
    requires forall x :: x in xs ==> x in m
    ensures forall y :: y in FlattenAll(BuildTrees(m, ids, xs)) <==> y in DescendantsOfAll(m, xs)
    decreases DescendantsOfAll(m, xs), 1 + |xs|
  {
    if xs != [] {
      assert Descendants(m, xs[0]) <= DescendantsOfAll(m, xs);
      assert DescendantsOfAll(m, xs[1..]) <= DescendantsOfAll(m, xs);
      TreeHoldsDescendants(m, ids, xs[0]);
      TreesHoldDescendants(m, ids, xs[1..]);
      assert BuildTrees(m, ids, xs)[1..] == BuildTrees(m, ids, xs[1..]);
      assert forall x :: x in xs <==> x == xs[0] || x in xs[1..];
    }
  }

  /** No two of the listed folders lie on one chain. */
  ghost predicate Antichain(m: ParentMap, xs: seq<Id>) {
    forall i, j :: 0 <= i < |xs| && 0 <= j < |xs| && i != j ==> !Under(m, xs[i], xs[j])
  }

  lemma SiblingsAntichain(m: ParentMap, ids: seq<Id>, p: Id)
    requires Acyclic(m) && NoDuplicates(ids)
    ensures Antichain(m, ChildIds(m, ids, p))
  {
    ChildIdsMembers(m, ids, p);
    var xs := ChildIds(m, ids, p);
    forall i, j | 0 <= i < |xs| && 0 <= j < |xs| && i != j
      ensures !Under(m, xs[i], xs[j])
    {
      assert xs[i] in xs && xs[j] in xs && xs[i] != xs[j];
      if Under(m, xs[i], xs[j]) {
        UnderByParent(m, xs[i], xs[j]);
        UnderByParent(m, xs[j], p);
        Reflexive(m, p);
        UnderTransitive(m, p, xs[j], p);
        assert false;
      }
    }
  }

  lemma RootsAntichain(m: ParentMap, ids: seq<Id>)
    requires NoDuplicates(ids)
    ensures Antichain(m, RootIds(m, ids))
  {
    RootIdsMembers(m, ids);
    var xs := RootIds(m, ids);
    forall i, j | 0 <= i < |xs| && 0 <= j < |xs| && i != j
      ensures !Under(m, xs[i], xs[j])
    {
      assert xs[i] in xs && xs[j] in xs && xs[i] != xs[j];
      UnderByParent(m, xs[i], xs[j]);
      if Parent(m, xs[i]).Some? {
        UnderByParent(m, Parent(m, xs[i]).value, xs[j]);
      }
    }
  }

  lemma {:induction false} TreeFlattensOnce(m: ParentMap, ids: seq<Id>, x: Id)
    requires Acyclic(m) && Enumerates(ids, m) && x in m
    ensures NoDuplicates(Flatten(BuildTree(m, ids, x)))
    decreases Descendants(m, x), 0
  {
    ChildrenShrink(m, ids, x);
    ChildIdsMembers(m, ids, x);
    SiblingsAntichain(m, ids, x);
    var kids := ChildIds(m, ids, x);
    TreesFlattenOnce(m, ids, kids);
    TreesHoldDescendants(m, ids, kids);
    assert x !in DescendantsOfAll(m, kids) by {
      forall c | c in kids && Under(m, x, c)
        ensures false
      {
        OneStep(m, c);
        UnderTransitive(m, x, c, x);
      }
    }
    DisjointNoDuplicates([x], FlattenAll(BuildTrees(m, ids, kids)));
  }

  lemma {:induction false} TreesFlattenOnce(m: ParentMap, ids: seq<Id>, xs: seq<Id>)
    requires Acyclic(m) && Enumerates(ids, m) && Antichain(m, xs)
    requires forall x :: x in xs ==> x in m
    ensures NoDuplicates(FlattenAll(BuildTrees(m, ids, xs)))
    decreases DescendantsOfAll(m, xs), 1 + |xs|
  {
    if xs != [] {
      assert Descendants(m, xs[0]) <= DescendantsOfAll(m, xs);
      assert DescendantsOfAll(m, xs[1..]) <= DescendantsOfAll(m, xs);
      TreeFlattensOnce(m, ids, xs[0]);
      TreesFlattenOnce(m, ids, xs[1..]);
      TreeHoldsDescendants(m, ids, xs[0]);
      TreesHoldDescendants(m, ids, xs[1..]);
      assert BuildTrees(m, ids, xs)[1..] == BuildTrees(m, ids, xs[1..]);
      forall y | y in Descendants(m, xs[0])
        ensures y !in DescendantsOfAll(m, xs[1..])
      {
        if y in DescendantsOfAll(m, xs[1..]) {
          var z :| z in xs[1..] && Under(m, y, z);
          var j :| 0 <= j < |xs[1..]| && xs[1..][j] == z;
          Comparable(m, y, xs[0], xs[j + 1]);
          assert false;
        }
      }
      var a, b := Flatten(BuildTree(m, ids, xs[0])), FlattenAll(BuildTrees(m, ids, xs[1..]));
      forall y | y in a
        ensures y !in b
      {
        assert y in Descendants(m, xs[0]);
      }
      DisjointNoDuplicates(a, b);
    }
  }

  /** On a forest the nested answer, flattened, lists every folder of the user exactly once. */
  lemma ForestListsEveryFolderOnce(m: ParentMap, ids: seq<Id>)
    requires Acyclic(m) && Enumerates(ids, m)
    ensures NoDuplicates(FlattenAll(BuildForest(m, ids)))
    ensures forall y :: y in FlattenAll(BuildForest(m, ids)) <==> y in m
  {
    RootIdsMembers(m, ids);
    RootsAntichain(m, ids);
    TreesFlattenOnce(m, ids, RootIds(m, ids));
    TreesHoldDescendants(m, ids, RootIds(m, ids));
    forall y | y in m
      ensures y in DescendantsOfAll(m, RootIds(m, ids))
    {
      AcyclicMeetsRoot(m, y);
    }
  }

  // ---- Placement ------------------------------------------------------------------------------------

  /** Every child entry is a folder whose own parent is the entry it hangs under. */
  ghost predicate ChildrenBelowParent(m: ParentMap, t: Tree) {
    forall c :: c in t.children ==> Parent(m, c.id) == Some(t.id) && ChildrenBelowParent(m, c)
  }

  lemma {:induction false} TreesKeepOrder(m: ParentMap, ids: seq<Id>, xs: seq<Id>, i: nat)
    requires Acyclic(m) && Enumerates(ids, m) && i < |xs|
    requires forall x :: x in xs ==> x in m
    ensures BuildTrees(m, ids, xs)[i] == BuildTree(m, ids, xs[i])
    decreases |xs|
  {
    if i > 0 {
      TreesKeepOrder(m, ids, xs[1..], i - 1);
      assert BuildTrees(m, ids, xs)[1..] == BuildTrees(m, ids, xs[1..]);
    }
  }

  /** The i-th child of the tree below x is the tree below the i-th listed child of x. */
  lemma ChildTree(m: ParentMap, ids: seq<Id>, x: Id, i: nat)
    requires Acyclic(m) && Enumerates(ids, m) && x in m && i < |ChildIds(m, ids, x)|
    ensures var c := ChildIds(m, ids, x)[i];
            && c in m && Parent(m, c) == Some(x) && Descendants(m, c) < Descendants(m, x)
            && |BuildTree(m, ids, x).children| == |ChildIds(m, ids, x)|
            && BuildTree(m, ids, x).children[i] == BuildTree(m, ids, c)
  {
    ChildrenShrink(m, ids, x);
    ChildIdsMembers(m, ids, x);
    var kids := ChildIds(m, ids, x);
    assert kids[i] in kids;
    TreesKeepOrder(m, ids, kids, i);
    assert Descendants(m, kids[i]) <= DescendantsOfAll(m, kids);
  }

  lemma {:induction false} TreeWellPlaced(m: ParentMap, ids: seq<Id>, x: Id)
    requires Acyclic(m) && Enumerates(ids, m) && x in m
    ensures BuildTree(m, ids, x).id == x
    ensures ChildrenBelowParent(m, BuildTree(m, ids, x))
    decreases Descendants(m, x)
  {
    var t := BuildTree(m, ids, x);
    forall i | 0 <= i < |t.children|
      ensures Parent(m, t.children[i].id) == Some(x) && ChildrenBelowParent(m, t.children[i])
    {
      ChildTree(m, ids, x, i);
      TreeWellPlaced(m, ids, ChildIds(m, ids, x)[i]);
    }
  }

  /** Each entry hangs directly under its parent, or at the top level when that parent is absent. */
  lemma ForestWellPlaced(m: ParentMap, ids: seq<Id>)
    requires Acyclic(m) && Enumerates(ids, m)
    ensures forall t :: t in BuildForest(m, ids) ==> IsRoot(m, t.id) && ChildrenBelowParent(m, t)
  {
    RootIdsMembers(m, ids);
    var roots := RootIds(m, ids);
    forall i | 0 <= i < |roots|
      ensures IsRoot(m, BuildForest(m, ids)[i].id) && ChildrenBelowParent(m, BuildForest(m, ids)[i])
    {
      TreesKeepOrder(m, ids, roots, i);
      assert roots[i] in roots;
      TreeWellPlaced(m, ids, roots[i]);
    }
  }

  // ---- The order of the names ---------------------------------------------------------------------

  ghost predicate Ordered(xs: seq<Id>, le: (Id, Id) -> bool) {
    forall i, j :: 0 <= i < j < |xs| ==> le(xs[i], xs[j])
  }

  ghost predicate OrderedTree(t: Tree, le: (Id, Id) -> bool)
    decreases t
  {
    && (forall i, j :: 0 <= i < j < |t.children| ==> le(t.children[i].id, t.children[j].id))
    && forall i :: 0 <= i < |t.children| ==> OrderedTree(t.children[i], le)
  }

  lemma BeforeLast(ids: seq<Id>, picked: seq<Id>, le: (Id, Id) -> bool)
    requires ids != [] && Ordered(ids, le)
    requires forall x :: x in picked ==> x in ids[..|ids| - 1]
    ensures forall i :: 0 <= i < |picked| ==> le(picked[i], ids[|ids| - 1])
  {
    var front := ids[..|ids| - 1];
    forall i | 0 <= i < |picked|
      ensures le(picked[i], ids[|ids| - 1])
    {
      assert picked[i] in picked;
      var a :| 0 <= a < |front| && front[a] == picked[i];
      assert le(ids[a], ids[|ids| - 1]);
    }
  }

  lemma {:induction false} ChildIdsOrdered(m: ParentMap, ids: seq<Id>, p: Id, le: (Id, Id) -> bool)
    requires Ordered(ids, le)
    ensures Ordered(ChildIds(m, ids, p), le)
    decreases |ids|
  {
    if ids != [] {
      var front := ids[..|ids| - 1];
      ChildIdsOrdered(m, front, p, le);
      ChildIdsMembers(m, front, p);
      BeforeLast(ids, ChildIds(m, front, p), le);
    }
  }

  lemma {:induction false} RootIdsOrdered(m: ParentMap, ids: seq<Id>, le: (Id, Id) -> bool)
    requires Ordered(ids, le)
    ensures Ordered(RootIds(m, ids), le)
    decreases |ids|
  {
    if ids != [] {
      var front := ids[..|ids| - 1];
      RootIdsOrdered(m, front, le);
      RootIdsMembers(m, front);
      BeforeLast(ids, RootIds(m, front), le);
    }
  }

  lemma {:induction false} TreeOrdered(m: ParentMap, ids: seq<Id>, x: Id, le: (Id, Id) -> bool)
    requires Acyclic(m) && Enumerates(ids, m) && x in m && Ordered(ids, le)
    ensures OrderedTree(BuildTree(m, ids, x), le)
    decreases Descendants(m, x)
  {
    var t, kids := BuildTree(m, ids, x), ChildIds(m, ids, x);
    ChildIdsOrdered(m, ids, x, le);
    forall i | 0 <= i < |t.children|
      ensures i < |kids| && t.children[i].id == kids[i] && OrderedTree(t.children[i], le)
    {
      ChildTree(m, ids, x, i);
      TreeWellPlaced(m, ids, kids[i]);
      TreeOrdered(m, ids, kids[i], le);
    }
  }

  /** Whatever order the query lists the folders in, by name, say, every level of the answer is in that order. */
  lemma ForestOrdered(m: ParentMap, ids: seq<Id>, le: (Id, Id) -> bool)
    requires Acyclic(m) && Enumerates(ids, m) && Ordered(ids, le)
    ensures var forest := BuildForest(m, ids);
            && (forall i, j :: 0 <= i < j < |forest| ==> le(forest[i].id, forest[j].id))
            && forall i :: 0 <= i < |forest| ==> OrderedTree(forest[i], le)
  {
    RootIdsMembers(m, ids);
    RootIdsOrdered(m, ids, le);
    var roots, forest := RootIds(m, ids), BuildForest(m, ids);
    forall i | 0 <= i < |forest|
      ensures forest[i].id == roots[i] && OrderedTree(forest[i], le)
    {
      assert roots[i] in roots;
      TreesKeepOrder(m, ids, roots, i);
      TreeWellPlaced(m, ids, roots[i]);
      TreeOrdered(m, ids, roots[i], le);
    }
  }

  // ---- Any map, cyclic or not ---------------------------------------------------------------------

  /** y is met after k steps down from the top level of the answer. */
  ghost predicate ShownAtDepth(m: ParentMap, ids: seq<Id>, y: Id, k: nat)
    decreases k
  {
    if k == 0 then y in RootIds(m, ids)
    else exists p :: ShownAtDepth(m, ids, p, k - 1) && p in m && y in ChildIds(m, ids, p)
  }

  ghost predicate Shown(m: ParentMap, ids: seq<Id>, y: Id) {
    exists k: nat :: ShownAtDepth(m, ids, y, k)
  }

  lemma ParentShown(m: ParentMap, ids: seq<Id>, y: Id, k: nat) returns (p: Id)
    requires Enumerates(ids, m) && k > 0 && ShownAtDepth(m, ids, y, k)
    ensures ShownAtDepth(m, ids, p, k - 1) && y in m && Parent(m, y) == Some(p)
  {
    p :| ShownAtDepth(m, ids, p, k - 1) && p in m && y in ChildIds(m, ids, p);
    ChildIdsMembers(m, ids, p);
  }

  lemma BelowParentsRoot(m: ParentMap, y: Id, p: Id)
    requires y in m && Parent(m, y) == Some(p) && BelowRoot(m, p)
    ensures BelowRoot(m, y)
  {
    var r :| IsRoot(m, r) && Under(m, p, r);
    UnderByParent(m, y, r);
  }

  lemma {:induction false} ShownIsBelowRoot(m: ParentMap, ids: seq<Id>, y: Id, k: nat)
    requires Enumerates(ids, m) && ShownAtDepth(m, ids, y, k)
    ensures BelowRoot(m, y)
    decreases k
  {
    if k == 0 {
      RootIdsMembers(m, ids);
      Reflexive(m, y);
    } else {
      var p := ParentShown(m, ids, y, k);
      ShownIsBelowRoot(m, ids, p, k - 1);
      BelowParentsRoot(m, y, p);
    }
  }

  lemma {:induction false} BelowRootIsShown(m: ParentMap, ids: seq<Id>, y: Id, r: Id, n: nat)
    requires Enumerates(ids, m) && y in m && IsRoot(m, r) && Climb(m, y, n) == Some(r)
    ensures Shown(m, ids, y)
    decreases n
  {
    RootIdsMembers(m, ids);
    if IsRoot(m, y) {
      assert ShownAtDepth(m, ids, y, 0);
    } else {
      var p := m[y].value;
      ChildIdsMembers(m, ids, p);
      BelowRootIsShown(m, ids, p, r, n - 1);
      var k: nat :| ShownAtDepth(m, ids, p, k);
      assert ShownAtDepth(m, ids, y, k + 1);
    }
  }

  /**
   On any map the answer shows exactly the folders with no cycle at or above them. A folder on a
   cycle, and everything below it, is in the dictionary of nodes but can never be reached.
  */
  lemma ShownIffNoCycleAbove(m: ParentMap, ids: seq<Id>, y: Id)
    requires Enumerates(ids, m) && y in m
    ensures Shown(m, ids, y) <==> !CycleAbove(m, y)
  {
    BelowRootIffNoCycleAbove(m, y);
    if Shown(m, ids, y) {
      var k: nat :| ShownAtDepth(m, ids, y, k);
      ShownIsBelowRoot(m, ids, y, k);
    }
    if BelowRoot(m, y) {
      var r :| IsRoot(m, r) && Under(m, y, r);
      var n: nat :| Climb(m, y, n) == Some(r);
      BelowRootIsShown(m, ids, y, r, n);
    }
  }

  // ---- The builder itself -------------------------------------------------------------------------

  /** An entry of the answer; the builder shares entries and grows their lists in place. */
  class FolderTreeItem {
    const id: Id
    var subfolders: seq<FolderTreeItem>

    constructor (id: Id)
      ensures this.id == id && subfolders == []
    {
      this.id := id;
      subfolders := [];
    }
  }

  /** The entries of the listed folders, in list order. */
  ghost function Items(nodes: map<Id, FolderTreeItem>, xs: seq<Id>): seq<FolderTreeItem> {
    if xs == [] then []
    else
      var last := xs[|xs| - 1];
      Items(nodes, xs[..|xs| - 1]) + (if last in nodes then [nodes[last]] else [])
  }

  lemma {:induction false} ItemsAt(nodes: map<Id, FolderTreeItem>, xs: seq<Id>)
    requires forall i :: 0 <= i < |xs| ==> xs[i] in nodes
    ensures |Items(nodes, xs)| == |xs|
    ensures forall i :: 0 <= i < |xs| ==> Items(nodes, xs)[i] == nodes[xs[i]]
  {
    if xs != [] {
      var rest, last := xs[..|xs| - 1], xs[|xs| - 1];
      assert xs == rest + [last];
      ItemsAt(nodes, rest);
    }
  }

  /** The objects below `item` spell out the tree t. */
  ghost predicate Unfolds(item: FolderTreeItem, t: Tree, world: set<FolderTreeItem>)
    reads world
    decreases t
  {
    item in world && item.id == t.id &&
    |item.subfolders| == |t.children| &&
    forall i :: 0 <= i < |t.children| ==> Unfolds(item.subfolders[i], t.children[i], world)
  }

  /** Every entry of the dictionary is for its key and lists the entries of that key's direct children. */
  ghost predicate Linked(m: ParentMap, ids: seq<Id>, nodes: map<Id, FolderTreeItem>)
    reads nodes.Values
  {
    && nodes.Keys == m.Keys
    && (forall x :: x in m ==> nodes[x].id == x)
    && (forall x :: x in m ==> nodes[x].subfolders == Items(nodes, ChildIds(m, ids, x)))
  }

  lemma {:induction false} LinkedUnfolds(m: ParentMap, ids: seq<Id>, nodes: map<Id, FolderTreeItem>, x: Id)
    requires Acyclic(m) && Enumerates(ids, m) && Linked(m, ids, nodes) && x in m
    ensures Unfolds(nodes[x], BuildTree(m, ids, x), nodes.Values)
    decreases Descendants(m, x)
  {
    var kids := ChildIds(m, ids, x);
    var t := BuildTree(m, ids, x);
    forall i | 0 <= i < |kids|
      ensures kids[i] in nodes && Unfolds(nodes[kids[i]], t.children[i], nodes.Values)
    {
      ChildTree(m, ids, x, i);
      LinkedUnfolds(m, ids, nodes, kids[i]);
    }
    ItemsAt(nodes, kids);
  }

  /**
   Two passes over the list: one entry per folder, then each entry appended to its parent's list,
   or to the top level when the parent is not among the user's folders.
  */
  method GetFolderTree(m: ParentMap, ids: seq<Id>)
    returns (rootItems: seq<FolderTreeItem>, nodes: map<Id, FolderTreeItem>)
    requires Enumerates(ids, m)
    ensures Linked(m, ids, nodes) && fresh(nodes.Values)
    ensures rootItems == Items(nodes, RootIds(m, ids))
    ensures Acyclic(m) ==>
              |rootItems| == |BuildForest(m, ids)| &&
              forall i :: 0 <= i < |rootItems| ==> Unfolds(rootItems[i], BuildForest(m, ids)[i], nodes.Values)
  {
    nodes := NewItems(ids);
    rootItems := LinkItems(m, ids, nodes);
    if Acyclic(m) {
      RootsUnfold(m, ids, nodes);
    }
  }

  /** The first pass: an entry with an empty list for every folder. */
  method NewItems(ids: seq<Id>) returns (nodes: map<Id, FolderTreeItem>)
    ensures forall x :: x in nodes <==> x in ids
    ensures forall x :: x in nodes ==> nodes[x].id == x && nodes[x].subfolders == []
    ensures fresh(nodes.Values)
  {
    nodes := map[];
    for i := 0 to |ids|
      invariant forall x :: x in nodes <==> x in ids[..i]
      invariant forall x :: x in nodes ==> nodes[x].id == x && nodes[x].subfolders == []
      invariant fresh(nodes.Values)
    {
      var item := new FolderTreeItem(ids[i]);
      ghost var before := nodes.Values;
      nodes := nodes[ids[i] := item];
      assert nodes.Values <= before + {item};
    }
  }

  /** The second pass: every entry goes to its parent's list or to the top level. */
  method LinkItems(m: ParentMap, ids: seq<Id>, nodes: map<Id, FolderTreeItem>)
    returns (rootItems: seq<FolderTreeItem>)
    requires Enumerates(ids, m)
    requires forall x :: x in nodes <==> x in ids
    requires forall x :: x in nodes ==> nodes[x].id == x && nodes[x].subfolders == []
    modifies nodes.Values
    ensures Linked(m, ids, nodes)
    ensures rootItems == Items(nodes, RootIds(m, ids))
  {
    rootItems := [];
    forall x
      ensures x in nodes <==> x in m
    {
      ListedFolder(m, ids, x);
    }
    for i := 0 to |ids|
      invariant Linked(m, ids[..i], nodes)
      invariant rootItems == Items(nodes, RootIds(m, ids[..i]))
    {
      ListedFolder(m, ids, ids[i]);
      rootItems := PlaceItem(m, ids, i, nodes, rootItems);
    }
    assert ids[..|ids|] == ids;
  }

  lemma ListedFolder(m: ParentMap, ids: seq<Id>, x: Id)
    requires Enumerates(ids, m)
    ensures x in ids <==> x in m
  {
  }

  method PlaceItem(m: ParentMap, ids: seq<Id>, i: nat, nodes: map<Id, FolderTreeItem>, roots: seq<FolderTreeItem>)
    returns (rootItems: seq<FolderTreeItem>)
    requires i < |ids| && ids[i] in m && Linked(m, ids[..i], nodes)
    requires roots == Items(nodes, RootIds(m, ids[..i]))
    modifies nodes.Values
    ensures Linked(m, ids[..i + 1], nodes)
    ensures rootItems == Items(nodes, RootIds(m, ids[..i + 1]))
  {
    assert ids[..i + 1][..i] == ids[..i];
    assert IsRoot(m, ids[i]) || m[ids[i]].value in nodes;
    rootItems := roots;
    if m[ids[i]].Some? && m[ids[i]].value in nodes {
      assert RootIds(m, ids[..i + 1]) == RootIds(m, ids[..i]);
      HangBelowParent(m, ids, i, nodes);
    } else {
      ChildIdsOfOrphan(m, ids, i);
      ItemsGrow(nodes, RootIds(m, ids[..i]), ids[i]);
      rootItems := rootItems + [nodes[ids[i]]];
    }
  }

  lemma ItemsGrow(nodes: map<Id, FolderTreeItem>, xs: seq<Id>, f: Id)
    requires f in nodes
    ensures Items(nodes, xs + [f]) == Items(nodes, xs) + [nodes[f]]
  {
    assert (xs + [f])[..|xs|] == xs;
  }

  lemma ChildIdsOfOrphan(m: ParentMap, ids: seq<Id>, i: nat)
    requires i < |ids| && ids[i] in m && IsRoot(m, ids[i])
    ensures forall p :: p in m ==> ChildIds(m, ids[..i + 1], p) == ChildIds(m, ids[..i], p)
  {
    assert ids[..i + 1][..i] == ids[..i];
  }

  lemma ChildIdsGrow(m: ParentMap, ids: seq<Id>, i: nat, x: Id)
    requires i < |ids|
    ensures ChildIds(m, ids[..i + 1], x) ==
            if Parent(m, ids[i]) == Some(x) then ChildIds(m, ids[..i], x) + [ids[i]] else ChildIds(m, ids[..i], x)
  {
    assert ids[..i + 1][..i] == ids[..i];
  }

  /** The second pass for a folder whose parent is listed: append its entry to the parent's list. */
  method HangBelowParent(m: ParentMap, ids: seq<Id>, i: nat, nodes: map<Id, FolderTreeItem>)
    requires i < |ids| && ids[i] in m && m[ids[i]].Some? && m[ids[i]].value in m
    requires Linked(m, ids[..i], nodes)
    modifies nodes[m[ids[i]].value]
    ensures Linked(m, ids[..i + 1], nodes)
  {
    var f, p := ids[i], m[ids[i]].value;
    assert ids[..i + 1][..i] == ids[..i];
    ItemsGrow(nodes, ChildIds(m, ids[..i], p), f);
    ghost var before := map x | x in m :: nodes[x].subfolders;
    nodes[p].subfolders := nodes[p].subfolders + [nodes[f]];
    forall x | x in m
      ensures nodes[x].subfolders == Items(nodes, ChildIds(m, ids[..i + 1], x))
    {
      assert before[x] == Items(nodes, ChildIds(m, ids[..i], x));
      assert Parent(m, f) == Some(x) <==> x == p;
      ChildIdsGrow(m, ids, i, x);
      assert x != p ==> nodes[x] != nodes[p];
    }
  }

  lemma RootUnfolds(m: ParentMap, ids: seq<Id>, nodes: map<Id, FolderTreeItem>, i: nat)
    requires Acyclic(m) && Enumerates(ids, m) && Linked(m, ids, nodes) && i < |RootIds(m, ids)|
    ensures RootIds(m, ids)[i] in nodes && i < |BuildForest(m, ids)|
    ensures Unfolds(nodes[RootIds(m, ids)[i]], BuildForest(m, ids)[i], nodes.Values)
  {
    RootIdsMembers(m, ids);
    var roots := RootIds(m, ids);
    assert roots[i] in roots;
    TreesKeepOrder(m, ids, roots, i);
    LinkedUnfolds(m, ids, nodes, roots[i]);
  }

  lemma RootsUnfold(m: ParentMap, ids: seq<Id>, nodes: map<Id, FolderTreeItem>)
    requires Acyclic(m) && Enumerates(ids, m) && Linked(m, ids, nodes)
    ensures var rootItems := Items(nodes, RootIds(m, ids));
            && |rootItems| == |BuildForest(m, ids)|
            && forall i :: 0 <= i < |rootItems| ==> Unfolds(rootItems[i], BuildForest(m, ids)[i], nodes.Values)
  {
    var roots := RootIds(m, ids);
    forall i | 0 <= i < |roots|
      ensures roots[i] in nodes && i < |BuildForest(m, ids)|
      ensures Unfolds(nodes[roots[i]], BuildForest(m, ids)[i], nodes.Values)
    {
      RootUnfolds(m, ids, nodes, i);
    }
    ItemsAt(nodes, roots);
  }
}
