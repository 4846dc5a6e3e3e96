/** Sorting by insertion, for any order. */
module Sorting {

  /** Puts an entry behind those it does not come before. */
  function Insert<T>(before: (T, T) -> bool, s: seq<T>, x: T): seq<T> {
    if s == [] then [x]
    else if before(x, s[|s| - 1]) then Insert(before, s[..|s| - 1], x) + [s[|s| - 1]]
    else s + [x]
  }

  function Sorted<T>(before: (T, T) -> bool, s: seq<T>): seq<T> {
    if s == [] then [] else Insert(before, Sorted(before, s[..|s| - 1]), s[|s| - 1])
  }

  ghost predicate InOrder<T>(before: (T, T) -> bool, s: seq<T>) {
    forall i, j :: 0 <= i < j < |s| ==> !before(s[j], s[i])
  }

  ghost predicate WeakOrder<T(!new)>(before: (T, T) -> bool) {
    && (forall x, y :: before(x, y) ==> !before(y, x))
    && (forall x, y, z :: !before(x, y) && !before(y, z) ==> !before(x, z))
  }

  lemma {:induction false} InsertBelow<T>(before: (T, T) -> bool, s: seq<T>, x: T, t: T)
    requires !before(t, x) && forall i :: 0 <= i < |s| ==> !before(t, s[i])
    ensures forall i :: 0 <= i < |Insert(before, s, x)| ==> !before(t, Insert(before, s, x)[i])
  {
    if s != [] {
      InsertBelow(before, s[..|s| - 1], x, t);
    }
  }

  lemma {:induction false} InsertSorts<T(!new)>(before: (T, T) -> bool, s: seq<T>, x: T)
    requires WeakOrder(before) && InOrder(before, s)
    ensures InOrder(before, Insert(before, s, x)) && multiset(Insert(before, s, x)) == multiset(s) + multiset{x}
  {
    if s != [] {
      var f, l := s[..|s| - 1], s[|s| - 1];
      assert s == f + [l];
      if before(x, l) {
        InsertSorts(before, f, x);
        InsertBelow(before, f, x, l);
      } else {
        forall i | 0 <= i < |s| ensures !before(x, s[i]) {
          assert i == |f| || !before(l, s[i]);
        }
      }
    }
  }

  lemma {:induction false} SortedSorts<T(!new)>(before: (T, T) -> bool, s: seq<T>)
    requires WeakOrder(before)
    ensures InOrder(before, Sorted(before, s)) && multiset(Sorted(before, s)) == multiset(s)
  {
    hide Insert, WeakOrder;
    if s != [] {
      var f, l := s[..|s| - 1], s[|s| - 1];
      SortedSorts(before, f);
      InsertSorts(before, Sorted(before, f), l);
      assert s == f + [l];
    }
  }
}
