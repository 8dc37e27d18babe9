/**
 Python's `sorted`, as far as the services rely on it: the result is a permutation, it ascends, and
 elements with equal keys keep their order. `le(a, b)` says that the key of a is at most the key of b.
*/
module StableSort {
  ghost predicate TotalPreorder<T(!new)>(le: (T, T) -> bool) {
    && (forall a, b :: le(a, b) || le(b, a))
    && (forall a, b, c :: le(a, b) && le(b, c) ==> le(a, c))
  }

  ghost predicate Ascending<T>(s: seq<T>, le: (T, T) -> bool) {
    forall i, j :: 0 <= i < j < |s| ==> le(s[i], s[j])
  }

  function Insert<T>(x: T, s: seq<T>, le: (T, T) -> bool): seq<T> {
    if s == [] then [x]
    else if le(x, s[0]) then [x] + s
    else [s[0]] + Insert(x, s[1..], le)
  }

  function Sorted<T>(s: seq<T>, le: (T, T) -> bool): seq<T> {
    if s == [] then [] else Insert(s[0], Sorted(s[1..], le), le)
  }

  function Filter<T>(s: seq<T>, p: T -> bool): seq<T> {
    if s == [] then [] else (if p(s[0]) then [s[0]] else []) + Filter(s[1..], p)
  }

  lemma {:induction false} InsertPermutes<T>(x: T, s: seq<T>, le: (T, T) -> bool)
    ensures multiset(Insert(x, s, le)) == multiset{x} + multiset(s)
  {
    if s != [] {
      assert s == [s[0]] + s[1..];
      if !le(x, s[0]) {
        InsertPermutes(x, s[1..], le);
      }
    }
  }

  lemma {:induction false} SortedPermutes<T>(s: seq<T>, le: (T, T) -> bool)
    ensures multiset(Sorted(s, le)) == multiset(s)
    ensures |Sorted(s, le)| == |s|
  {
    if s != [] {
      assert s == [s[0]] + s[1..];
      SortedPermutes(s[1..], le);
      InsertPermutes(s[0], Sorted(s[1..], le), le);
    }
    assert |multiset(Sorted(s, le))| == |multiset(s)|;
  }

  lemma SortedMembers<T>(s: seq<T>, le: (T, T) -> bool)
    ensures forall x :: x in Sorted(s, le) <==> x in s
  {
    SortedPermutes(s, le);
    forall x
      ensures x in Sorted(s, le) <==> x in s
    {
      assert x in multiset(Sorted(s, le)) <==> x in multiset(s);
    }
  }

  lemma {:induction false} InsertAscends<T(!new)>(x: T, s: seq<T>, le: (T, T) -> bool)
    requires TotalPreorder(le) && Ascending(s, le)
    ensures Ascending(Insert(x, s, le), le)
  {
    if s != [] && !le(x, s[0]) {
      InsertAscends(x, s[1..], le);
      InsertPermutes(x, s[1..], le);
      var t := Insert(x, s[1..], le);
      forall j | 0 <= j < |t|
        ensures le(s[0], t[j])
      {
        assert t[j] in multiset(t);
        assert t[j] == x || t[j] in s[1..];
      }
    }
  }

  lemma {:induction false} SortedAscends<T(!new)>(s: seq<T>, le: (T, T) -> bool)
    requires TotalPreorder(le)
    ensures Ascending(Sorted(s, le), le)
  {
    if s != [] {
      SortedAscends(s[1..], le);
      InsertAscends(s[0], Sorted(s[1..], le), le);
    }
  }

  /** All elements that p picks have one key. */
  ghost predicate OneKey<T(!new)>(p: T -> bool, le: (T, T) -> bool) {
    forall a, b :: p(a) && p(b) ==> le(a, b)
  }

  lemma {:induction false} InsertStable<T(!new)>(x: T, s: seq<T>, le: (T, T) -> bool, p: T -> bool)
    requires OneKey(p, le)
    ensures Filter(Insert(x, s, le), p) == Filter([x] + s, p)
  {
    if s != [] && !le(x, s[0]) {
      InsertStable(x, s[1..], le, p);
      assert ([s[0]] + Insert(x, s[1..], le))[1..] == Insert(x, s[1..], le);
      assert ([x] + s[1..])[1..] == s[1..];
    }
    assert ([x] + s)[1..] == s;
  }

  /** Elements with equal keys keep their order. */
  lemma {:induction false} SortedStable<T(!new)>(s: seq<T>, le: (T, T) -> bool, p: T -> bool)
    requires OneKey(p, le)
    ensures Filter(Sorted(s, le), p) == Filter(s, p)
  {
    if s != [] {
      SortedStable(s[1..], le, p);
      InsertStable(s[0], Sorted(s[1..], le), le, p);
      assert ([s[0]] + Sorted(s[1..], le))[1..] == Sorted(s[1..], le);
    }
  }

  /** No two different elements of s share a key. */
  ghost predicate DistinctKeys<T>(s: seq<T>, le: (T, T) -> bool) {
    forall i, j :: 0 <= i < |s| && 0 <= j < |s| && le(s[i], s[j]) && le(s[j], s[i]) ==> s[i] == s[j]
  }

  lemma HeadsAgree<T(!new)>(a: seq<T>, b: seq<T>, le: (T, T) -> bool)
    requires multiset(a) == multiset(b) && a != [] && b != []
    requires Ascending(a, le) && Ascending(b, le) && DistinctKeys(a, le)
    ensures a[0] == b[0]
  {
    assert a[0] in multiset(b) && b[0] in multiset(a);
    var i :| 0 <= i < |b| && b[i] == a[0];
    var j :| 0 <= j < |a| && a[j] == b[0];
  }

  lemma TailMultiset<T>(a: seq<T>)
    requires a != []
    ensures multiset(a[1..]) == multiset(a) - multiset{a[0]}
  {
    assert a == [a[0]] + a[1..];
  }

  /** With distinct keys there is only one ascending arrangement. */
  lemma {:induction false} AscendingUnique<T(!new)>(a: seq<T>, b: seq<T>, le: (T, T) -> bool)
    requires multiset(a) == multiset(b)
    requires Ascending(a, le) && Ascending(b, le) && DistinctKeys(a, le)
    ensures a == b
    decreases |a|
  {
    assert |multiset(a)| == |multiset(b)|;
    if a != [] {
      HeadsAgree(a, b, le);
      TailMultiset(a);
      TailMultiset(b);
      TailKeepsOrder(a, le);
      TailKeepsOrder(b, le);
      TailKeepsKeys(a, le);
      AscendingUnique(a[1..], b[1..], le);
      assert a == [a[0]] + a[1..] && b == [b[0]] + b[1..];
    }
  }

  lemma TailKeepsOrder<T>(a: seq<T>, le: (T, T) -> bool)
    requires a != [] && Ascending(a, le)
    ensures Ascending(a[1..], le)
  {
  }

  lemma TailKeepsKeys<T>(a: seq<T>, le: (T, T) -> bool)
    requires a != [] && DistinctKeys(a, le)
    ensures DistinctKeys(a[1..], le)
  {
  }
}
