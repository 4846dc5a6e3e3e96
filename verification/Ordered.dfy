/** Finite sets: sizes, picking a member, and visiting the members in order. */
module Ordered {

  lemma SubsetSize<T>(a: set<T>, b: set<T>)
    requires a <= b
    ensures |a| <= |b|
  {
    assert b == a + (b - a);
  }

  lemma SomeMember<T>(s: set<T>) returns (x: T)
    requires s != {}
    ensures x in s
  {
    x :| x in s;
  }

  method Pick<T>(s: set<T>) returns (x: T)
    requires s != {}
    ensures x in s
  {
    x :| x in s;
  }

  method MinOf(s: set<int>) returns (m: int)
    requires s != {}
    ensures m in s && forall x :: x in s ==> m <= x
  {
    m := Pick(s);
    var rest := s - {m};
    while rest != {}
      invariant rest <= s && m in s
      invariant forall x :: x in s && x !in rest ==> m <= x
      decreases rest
    {
      var y := Pick(rest);
      if y < m {
        m := y;
      }
      rest := rest - {y};
    }
  }

  /** The members of a set in ascending order, as iterating over it visits them. */
  method Ascending(s: set<int>) returns (q: seq<int>)
    ensures |q| == |s|
    ensures forall i, j :: 0 <= i < j < |q| ==> q[i] < q[j]
    ensures forall x :: x in q <==> x in s
  {
    q := [];
    var rest := s;
    while rest != {}
      invariant rest <= s && |q| + |rest| == |s|
      invariant forall i, j :: 0 <= i < j < |q| ==> q[i] < q[j]
      invariant forall x :: x in q <==> x in s && x !in rest
      invariant forall i, x :: 0 <= i < |q| && x in rest ==> q[i] < x
      decreases rest
    {
      var m := MinOf(rest);
      q := q + [m];
      rest := rest - {m};
    }
  }
}
