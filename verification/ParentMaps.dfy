/**
 Parent-pointer maps: every folder names at most one parent, and a reader walks upwards.
 The map may be cyclic and may name parents that it does not hold; nothing here assumes otherwise.
*/
module ParentMaps {
  import opened Sequences
  import opened Wrappers

  /** A UUID. */
  type Id = int

  type ParentMap = map<Id, Option<Id>>

  /** A dictionary lookup that answers None for a missing key. */
  function Parent(m: ParentMap, x: Id): Option<Id> {
    if x in m then m[x] else None
  }

  /** Where n steps upwards from x lead, if the walk lasts that long. */
  ghost function Climb(m: ParentMap, x: Id, n: nat): Option<Id>
    decreases n
  {
    if n == 0 then Some(x)
    else
      match Parent(m, x)
      case None => None
      case Some(p) => Climb(m, p, n - 1)
  }

  /** a is x itself or one of its ancestors. */
  ghost predicate Under(m: ParentMap, x: Id, a: Id) {
    exists n: nat :: Climb(m, x, n) == Some(a)
  }

  /** a is an ancestor of x, reached in at least one step. */
  ghost predicate StrictlyUnder(m: ParentMap, x: Id, a: Id) {
    exists n: nat :: n > 0 && Climb(m, x, n) == Some(a)
  }

  ghost predicate Acyclic(m: ParentMap) {
    forall x :: !StrictlyUnder(m, x, x)
  }

  /** The folder is listed at the top level: it has no parent, or a parent the map does not hold. */
  predicate IsRoot(m: ParentMap, r: Id) {
    r in m && (m[r] == None || m[r].value !in m)
  }

  lemma {:induction false} ClimbAdd(m: ParentMap, x: Id, a: nat, b: nat)
    ensures Climb(m, x, a + b) ==
            match Climb(m, x, a) case None => None case Some(y) => Climb(m, y, b)
    decreases a
  {
    if a > 0 {
      match Parent(m, x)
      case None =>
      case Some(p) => ClimbAdd(m, p, a - 1, b);
    }
  }

  lemma UnderTransitive(m: ParentMap, x: Id, y: Id, z: Id)
    requires Under(m, x, y) && Under(m, y, z)
    ensures Under(m, x, z)
    ensures StrictlyUnder(m, x, y) || StrictlyUnder(m, y, z) ==> StrictlyUnder(m, x, z)
  {
    var a: nat :| Climb(m, x, a) == Some(y) && (StrictlyUnder(m, x, y) ==> a > 0);
    var b: nat :| Climb(m, y, b) == Some(z) && (StrictlyUnder(m, y, z) ==> b > 0);
    ClimbAdd(m, x, a, b);
    assert Climb(m, x, a + b) == Some(z);
  }

  lemma OneStep(m: ParentMap, x: Id)
    requires Parent(m, x).Some?
    ensures StrictlyUnder(m, x, Parent(m, x).value) && Under(m, x, Parent(m, x).value)
  {
    assert Climb(m, Parent(m, x).value, 0) == Parent(m, x);
    assert Climb(m, x, 1) == Parent(m, x);
  }

  lemma Reflexive(m: ParentMap, x: Id)
    ensures Under(m, x, x)
  {
    assert Climb(m, x, 0) == Some(x);
  }

  /** The first step of a walk is the parent. */
  lemma UnderByParent(m: ParentMap, x: Id, a: Id)
    ensures Under(m, x, a) <==> x == a || (Parent(m, x).Some? && Under(m, Parent(m, x).value, a))
    ensures StrictlyUnder(m, x, a) <==> Parent(m, x).Some? && Under(m, Parent(m, x).value, a)
  {
    Reflexive(m, x);
    if Parent(m, x).Some? {
      var p := Parent(m, x).value;
      OneStep(m, x);
      if Under(m, p, a) {
        UnderTransitive(m, x, p, a);
      }
      forall n: nat | n > 0 && Climb(m, x, n) == Some(a)
        ensures Under(m, p, a)
      {
        assert Climb(m, p, n - 1) == Some(a);
      }
    }
  }

  /** Two ancestors of one folder lie on one chain. */
  lemma Comparable(m: ParentMap, x: Id, a: Id, b: Id)
    requires Under(m, x, a) && Under(m, x, b)
    ensures Under(m, a, b) || Under(m, b, a)
  {
    var i: nat :| Climb(m, x, i) == Some(a);
    var j: nat :| Climb(m, x, j) == Some(b);
    if i <= j {
      ClimbAdd(m, x, i, j - i);
      assert Climb(m, a, j - i) == Some(b);
    } else {
      ClimbAdd(m, x, j, i - j);
      assert Climb(m, b, i - j) == Some(a);
    }
  }

  /** A set closed under taking parents holds every ancestor of its members. */
  lemma {:induction false} ClosedSetHoldsAncestors(m: ParentMap, s: set<Id>, x: Id, n: nat)
    requires x in s
    requires forall v :: v in s && Parent(m, v).Some? ==> Parent(m, v).value in s
    ensures Climb(m, x, n).Some? ==> Climb(m, x, n).value in s
    decreases n
  {
    if n > 0 && Parent(m, x).Some? {
      ClosedSetHoldsAncestors(m, s, Parent(m, x).value, n - 1);
    }
  }

  // ---- Every walk ends or runs into a cycle -----------------------------------------------------

  ghost predicate WalkEnds(m: ParentMap, x: Id) {
    exists n: nat :: Climb(m, x, n) == None
  }

  ghost predicate CycleAbove(m: ParentMap, x: Id) {
    exists c :: Under(m, x, c) && StrictlyUnder(m, c, c)
  }

  lemma {:induction false} EndsOrCycles(m: ParentMap, x: Id, seen: set<Id>)
    requires seen <= m.Keys
    requires forall s :: s in seen ==> StrictlyUnder(m, s, x)
    ensures WalkEnds(m, x) || CycleAbove(m, x)
    decreases |m.Keys - seen|
  {
    if x in seen {
      Reflexive(m, x);
    } else if Parent(m, x).None? {
      assert Climb(m, x, 1) == None;
    } else {
      var p := Parent(m, x).value;
      OneStep(m, x);
      forall s | s in seen + {x}
        ensures StrictlyUnder(m, s, p)
      {
        if s != x {
          var k: nat :| k > 0 && Climb(m, s, k) == Some(x);
          UnderTransitive(m, s, x, p);
        }
      }
      assert m.Keys - (seen + {x}) < m.Keys - seen by {
        assert x in m.Keys - seen;
      }
      SubsetNotLarger(m.Keys - (seen + {x}), m.Keys - seen);
      EndsOrCycles(m, p, seen + {x});
      if WalkEnds(m, p) {
        var n: nat :| Climb(m, p, n) == None;
        assert Climb(m, x, n + 1) == None;
      } else {
        var c :| Under(m, p, c) && StrictlyUnder(m, c, c);
        UnderTransitive(m, x, p, c);
      }
    }
  }

  lemma EndedStaysEnded(m: ParentMap, x: Id, n: nat, k: nat)
    requires Climb(m, x, n) == None && n <= k
    ensures Climb(m, x, k) == None
  {
    ClimbAdd(m, x, n, k - n);
  }

  lemma {:induction false} CycleNeverEnds(m: ParentMap, c: Id, k: nat, n: nat)
    requires k > 0 && Climb(m, c, k) == Some(c)
    ensures Climb(m, c, n) != None
    decreases n
  {
    if n < k {
      if Climb(m, c, n) == None {
        EndedStaysEnded(m, c, n, k);
      }
    } else {
      ClimbAdd(m, c, k, n - k);
      CycleNeverEnds(m, c, k, n - k);
    }
  }

  /** A walk ends exactly when no cycle lies on it. */
  lemma EndsIffNoCycleAbove(m: ParentMap, x: Id)
    ensures WalkEnds(m, x) <==> !CycleAbove(m, x)
  {
    EndsOrCycles(m, x, {});
    if WalkEnds(m, x) && CycleAbove(m, x) {
      var n: nat :| Climb(m, x, n) == None;
      var c :| Under(m, x, c) && StrictlyUnder(m, c, c);
      var i: nat :| Climb(m, x, i) == Some(c);
      var k: nat :| k > 0 && Climb(m, c, k) == Some(c);
      CycleNeverEnds(m, c, k, n);
      ClimbAdd(m, x, i, n);
      EndedStaysEnded(m, x, n, i + n);
    }
  }

  /** The folder hangs, possibly through others, below an entry of the top level. */
  ghost predicate BelowRoot(m: ParentMap, x: Id) {
    exists r :: IsRoot(m, r) && Under(m, x, r)
  }

  lemma {:induction false} EndedWalkMeetsRoot(m: ParentMap, x: Id, n: nat)
    requires x in m && Climb(m, x, n) == None
    ensures BelowRoot(m, x)
    decreases n
  {
    Reflexive(m, x);
    if !IsRoot(m, x) {
      var p := m[x].value;
      EndedWalkMeetsRoot(m, p, n - 1);
      var r :| IsRoot(m, r) && Under(m, p, r);
      UnderByParent(m, x, r);
    }
  }

  /** A folder of the map hangs below the top level exactly when no ancestor of it lies on a cycle. */
  lemma BelowRootIffNoCycleAbove(m: ParentMap, x: Id)
    requires x in m
    ensures BelowRoot(m, x) <==> !CycleAbove(m, x)
  {
    EndsIffNoCycleAbove(m, x);
    if WalkEnds(m, x) {
      var n: nat :| Climb(m, x, n) == None;
      EndedWalkMeetsRoot(m, x, n);
    }
    if BelowRoot(m, x) {
      var r :| IsRoot(m, r) && Under(m, x, r);
      var i: nat :| Climb(m, x, i) == Some(r);
      ClimbAdd(m, x, i, 2);
      assert Climb(m, r, 2) == None;
      assert Climb(m, x, i + 2) == None;
    }
  }

  lemma AcyclicMeetsRoot(m: ParentMap, x: Id)
    requires Acyclic(m) && x in m
    ensures BelowRoot(m, x)
  {
    BelowRootIffNoCycleAbove(m, x);
  }

  // ---- The move guard ---------------------------------------------------------------------------

  /**
   Would hanging folderId below newParentId close a cycle? The walk stops at the first repetition,
   so it ends on every map.
  */
  method DetectFolderCycle(folderId: Id, newParentId: Option<Id>, parentMap: ParentMap) returns (cyclic: bool)
    ensures cyclic <==> newParentId.Some? && Under(parentMap, newParentId.value, folderId)
  {
    if newParentId.None? {
      return false;
    }
    if newParentId.value == folderId {
      Reflexive(parentMap, folderId);
      return true;
    }
    var start := newParentId.value;
    var curr: Option<Id> := newParentId;
    var visited: set<Id> := {};
    ghost var steps: nat := 0;
    while curr.Some?
      invariant Climb(parentMap, start, steps) == curr
      invariant folderId !in visited
      invariant start in visited || curr == Some(start)
      invariant forall v :: v in visited && Parent(parentMap, v).Some? ==>
                  Parent(parentMap, v).value in visited || Parent(parentMap, v) == curr
      invariant visited <= parentMap.Keys || curr.None?
      decreases parentMap.Keys - visited, curr.Some?
    {
      if curr.value == folderId {
        return true;
      }
      if curr.value in visited {
        break;
      }
      ClimbAdd(parentMap, start, steps, 1);
      assert Climb(parentMap, curr.value, 1) == Parent(parentMap, curr.value);
      visited := visited + {curr.value};
      curr := Parent(parentMap, curr.value);
      steps := steps + 1;
    }
    if Under(parentMap, start, folderId) {
      var n: nat :| Climb(parentMap, start, n) == Some(folderId);
      ClosedSetHoldsAncestors(parentMap, visited, start, n);
    }
    return false;
  }
}
