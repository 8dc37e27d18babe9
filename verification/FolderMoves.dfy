/**
 The two rewritings of a parent map that the folder service performs: hanging one folder elsewhere
 (creation and move), and splicing one folder out (deletion).
*/
module FolderMoves {
  import opened Wrappers
  import opened ParentMaps

  lemma AcyclicIffAllWalksEnd(m: ParentMap)
    ensures Acyclic(m) <==> forall x :: WalkEnds(m, x)
  {
    forall x
      ensures WalkEnds(m, x) <==> !CycleAbove(m, x)
    {
      EndsIffNoCycleAbove(m, x);
    }
    forall x | StrictlyUnder(m, x, x)
      ensures !WalkEnds(m, x)
    {
      Reflexive(m, x);
    }
  }

  lemma EndsByParent(m: ParentMap, x: Id)
    requires Parent(m, x).Some? ==> WalkEnds(m, Parent(m, x).value)
    ensures WalkEnds(m, x)
  {
    if Parent(m, x).Some? {
      var n: nat :| Climb(m, Parent(m, x).value, n) == None;
      assert Climb(m, x, n + 1) == None;
    } else {
      assert Climb(m, x, 1) == None;
    }
  }

  // ---- Hanging f below p ------------------------------------------------------------------------

  /** A walk that never meets f is untouched by giving f another parent. */
  lemma {:induction false} OtherWalksUntouched(m: ParentMap, f: Id, p: Option<Id>, x: Id, n: nat)
    requires !Under(m, x, f)
    ensures Climb(m[f := p], x, n) == Climb(m, x, n)
    decreases n
  {
    Reflexive(m, x);
    if n > 0 && Parent(m, x).Some? {
      UnderByParent(m, x, f);
      OtherWalksUntouched(m, f, p, Parent(m, x).value, n - 1);
    }
  }

  /** Whoever was below f still is. */
  lemma {:induction false} StillBelowMoved(m: ParentMap, f: Id, p: Option<Id>, x: Id, n: nat)
    requires Climb(m, x, n) == Some(f)
    ensures Under(m[f := p], x, f)
    decreases n
  {
    if x == f {
      Reflexive(m[f := p], f);
    } else {
      StillBelowMoved(m, f, p, Parent(m, x).value, n - 1);
      UnderByParent(m[f := p], x, f);
    }
  }

  lemma {:induction false} WalkToMovedEnds(m: ParentMap, f: Id, p: Option<Id>, x: Id, n: nat)
    requires Climb(m, x, n) == Some(f) && WalkEnds(m[f := p], f)
    ensures WalkEnds(m[f := p], x)
    decreases n
  {
    if x != f {
      WalkToMovedEnds(m, f, p, Parent(m, x).value, n - 1);
      EndsByParent(m[f := p], x);
    }
  }

  /**
   The guard of a move is exact: on a forest, hanging f below p leaves a forest if and only if
   f is neither p nor an ancestor of p.
  */
  lemma MoveKeepsForestIff(m: ParentMap, f: Id, p: Option<Id>)
    requires Acyclic(m)
    ensures Acyclic(m[f := p]) <==> p.None? || !Under(m, p.value, f)
  {
    var m' := m[f := p];
    AcyclicIffAllWalksEnd(m);
    AcyclicIffAllWalksEnd(m');
    if p.Some? && Under(m, p.value, f) {
      var n: nat :| Climb(m, p.value, n) == Some(f);
      StillBelowMoved(m, f, p, p.value, n);
      UnderByParent(m', f, f);
    } else {
      EndsByParentAfterMove(m, f, p);
      forall x
        ensures WalkEnds(m', x)
      {
        if Under(m, x, f) {
          var n: nat :| Climb(m, x, n) == Some(f);
          WalkToMovedEnds(m, f, p, x, n);
        } else {
          assert WalkEnds(m, x);
          var n: nat :| Climb(m, x, n) == None;
          OtherWalksUntouched(m, f, p, x, n);
          assert Climb(m', x, n) == None;
        }
      }
    }
  }

  lemma EndsByParentAfterMove(m: ParentMap, f: Id, p: Option<Id>)
    requires Acyclic(m) && (p.None? || !Under(m, p.value, f))
    ensures WalkEnds(m[f := p], f)
  {
    if p.Some? {
      AcyclicIffAllWalksEnd(m);
      assert WalkEnds(m, p.value);
      var n: nat :| Climb(m, p.value, n) == None;
      OtherWalksUntouched(m, f, p, p.value, n);
      assert Climb(m[f := p], p.value, n) == None;
    }
    EndsByParent(m[f := p], f);
  }

  // ---- Splicing f out ---------------------------------------------------------------------------

  /** f is gone and its direct children hang below its parent. */
  function Spliced(m: ParentMap, f: Id): ParentMap
    requires f in m
  {
    map x | x in m && x != f :: if m[x] == Some(f) then m[f] else m[x]
  }

  lemma {:induction false} SplicedWalkLifts(m: ParentMap, f: Id, x: Id, n: nat, a: Id)
    requires f in m && x != f && Climb(Spliced(m, f), x, n) == Some(a)
    ensures Under(m, x, a) && (n > 0 ==> StrictlyUnder(m, x, a))
    decreases n
  {
    Reflexive(m, x);
    if n > 0 {
      var q := Parent(Spliced(m, f), x).value;
      OneStep(m, x);
      if m[x] == Some(f) {
        OneStep(m, f);
        UnderTransitive(m, x, f, q);
      }
      if q == f {
        assert n == 1;
      } else {
        SplicedWalkLifts(m, f, q, n - 1, a);
        UnderTransitive(m, x, q, a);
      }
    }
  }

  lemma {:induction false} WalkSplices(m: ParentMap, f: Id, x: Id, n: nat, a: Id)
    requires Acyclic(m) && f in m && x != f && a != f && Climb(m, x, n) == Some(a)
    ensures Under(Spliced(m, f), x, a) && (n > 0 ==> StrictlyUnder(Spliced(m, f), x, a))
    decreases n
  {
    var s := Spliced(m, f);
    Reflexive(s, x);
    if n > 0 {
      var p := Parent(m, x).value;
      if p == f {
        var g := Parent(m, f).value;
        OneStep(m, f);
        assert g != f;
        WalkSplices(m, f, g, n - 2, a);
      } else {
        WalkSplices(m, f, p, n - 1, a);
      }
      UnderByParent(s, x, a);
    }
  }

  /** Between survivors the ancestor relation is exactly what it was, and the map stays a forest. */
  lemma SpliceKeepsAncestors(m: ParentMap, f: Id)
    requires Acyclic(m) && f in m
    ensures forall x, a :: x != f && a != f ==> (Under(Spliced(m, f), x, a) <==> Under(m, x, a))
    ensures Acyclic(Spliced(m, f))
  {
    var s := Spliced(m, f);
    forall x, a | x != f && a != f
      ensures Under(s, x, a) <==> Under(m, x, a)
    {
      if Under(s, x, a) {
        var n: nat :| Climb(s, x, n) == Some(a);
        SplicedWalkLifts(m, f, x, n, a);
      }
      if Under(m, x, a) {
        var n: nat :| Climb(m, x, n) == Some(a);
        WalkSplices(m, f, x, n, a);
      }
    }
    forall x
      ensures !StrictlyUnder(s, x, x)
    {
      if StrictlyUnder(s, x, x) {
        var n: nat :| n > 0 && Climb(s, x, n) == Some(x);
        assert x != f by {
          assert Parent(s, f) == None;
        }
        SplicedWalkLifts(m, f, x, n, x);
      }
    }
  }
}
