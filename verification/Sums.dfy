/** Sums of an integer-valued function over a finite set of keys. */
module Sums {

  ghost function SumOf<K>(keys: set<K>, f: K -> int): int
    decreases |keys|
  {
    if keys == {} then 0
    else
      var k :| k in keys;
      f(k) + SumOf(keys - {k}, f)
  }

  /** The order in which keys are taken does not matter. */
  lemma {:induction false} SumSplit<K>(keys: set<K>, f: K -> int, k: K)
    requires k in keys
    ensures SumOf(keys, f) == f(k) + SumOf(keys - {k}, f)
    decreases |keys|
  {
    var p :| p in keys && SumOf(keys, f) == f(p) + SumOf(keys - {p}, f);
    if p != k {
      SumSplit(keys - {p}, f, k);
      SumSplit(keys - {k}, f, p);
      assert keys - {p} - {k} == keys - {k} - {p};
    }
  }

  lemma {:induction false} SumExt<K>(keys: set<K>, f: K -> int, g: K -> int)
    requires forall k :: k in keys ==> f(k) == g(k)
    ensures SumOf(keys, f) == SumOf(keys, g)
    decreases |keys|
  {
    if keys != {} {
      var k :| k in keys;
      SumSplit(keys, f, k);
      SumSplit(keys, g, k);
      SumExt(keys - {k}, f, g);
    }
  }

  /** Changing the function at one key shifts the sum by the difference there. */
  lemma SumChange<K>(keys: set<K>, f: K -> int, g: K -> int, k: K)
    requires k in keys
    requires forall j :: j in keys && j != k ==> f(j) == g(j)
    ensures SumOf(keys, g) == SumOf(keys, f) - f(k) + g(k)
  {
    SumSplit(keys, f, k);
    SumSplit(keys, g, k);
    SumExt(keys - {k}, f, g);
  }
}
