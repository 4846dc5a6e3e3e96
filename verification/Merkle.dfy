/** Merkle trees over a block's transaction hashes, and branches that prove membership. */
module Merkle {

  /** The hash of two nodes. */
  type PairHash = (int, int) -> int

  ghost predicate Injective(h: PairHash) {
    forall a, b, c, d :: h(a, b) == h(c, d) ==> a == c && b == d
  }

  function Min(a: int, b: int): int {
    if a < b then a else b
  }

  /** The other child of the same parent. */
  function Sibling(i: nat): nat {
    if i % 2 == 0 then i + 1 else i - 1
  }

  // ----- Levels -----------------------------------------------------------------------------------

  /** The level above: nodes are paired, a last odd one with itself. */
  function Above(h: PairHash, level: seq<int>): (up: seq<int>)
    ensures |up| == (|level| + 1) / 2
  {
    seq((|level| + 1) / 2, i requires 0 <= i < (|level| + 1) / 2 => h(level[2 * i], level[Min(2 * i + 1, |level| - 1)]))
  }

  /** A node's parent is the hash of the node and its sibling, or of the last node with itself. */
  lemma ParentOf(h: PairHash, level: seq<int>, i: nat)
    requires i < |level|
    ensures 0 <= Min(Sibling(i), |level| - 1) < |level|
    ensures var other := level[Min(Sibling(i), |level| - 1)];
            i / 2 < |Above(h, level)|
              && Above(h, level)[i / 2] == if i % 2 == 1 then h(other, level[i]) else h(level[i], other)
  {
    var k := i / 2;
    assert i == 2 * k || i == 2 * k + 1;
    assert Above(h, level)[k] == h(level[2 * k], level[Min(2 * k + 1, |level| - 1)]);
  }

  function Root(h: PairHash, level: seq<int>): int
    decreases |level|
  {
    if level == [] then 0 else if |level| == 1 then level[0] else Root(h, Above(h, level))
  }

  /** All levels one after the other, leaves first. */
  function Flat(h: PairHash, level: seq<int>): seq<int>
    decreases |level|
  {
    if |level| <= 1 then level else level + Flat(h, Above(h, level))
  }

  lemma {:induction false} FlatEndsInRoot(h: PairHash, level: seq<int>)
    requires level != []
    ensures Flat(h, level) != [] && Flat(h, level)[|Flat(h, level)| - 1] == Root(h, level)
    decreases |level|
  {
    if |level| > 1 {
      FlatEndsInRoot(h, Above(h, level));
    }
  }

  /** The last of three leaves is paired with itself. */
  lemma RootOfThree(h: PairHash, a: int, b: int, c: int)
    ensures Root(h, [a, b, c]) == h(h(a, b), h(c, c))
  {
    assert Above(h, [a, b, c]) == [h(a, b), h(c, c)];
    assert Above(h, [h(a, b), h(c, c)]) == [h(h(a, b), h(c, c))];
    assert Root(h, [a, b, c]) == Root(h, [h(a, b), h(c, c)]) == Root(h, [h(h(a, b), h(c, c))]);
  }

  lemma NoLeaves(h: PairHash)
    ensures Root(h, []) == 0
  {
  }

  /** Appends the level above the one that starts at `j`. */
  method BuildLevel(h: PairHash, tree: seq<int>, j: nat, nSize: nat) returns (tree': seq<int>)
    requires nSize > 1 && j + nSize == |tree|
    ensures tree' == tree + Above(h, tree[j..])
  {
    tree' := tree;
    var i := 0;
    while i < nSize
      invariant i % 2 == 0 && 0 <= i <= nSize + 1
      invariant |tree'| == |tree| + i / 2
      invariant tree' == tree + Above(h, tree[j..])[..i / 2]
    {
      var i2 := Min(i + 1, nSize - 1);
      ghost var up, k := Above(h, tree[j..]), i / 2;
      assert up[k] == h(tree[j + i], tree[j + i2]);
      assert up[..k + 1] == up[..k] + [up[k]];
      assert tree'[j + i] == tree[j + i] && tree'[j + i2] == tree[j + i2];
      tree' := tree' + [h(tree'[j + i], tree'[j + i2])];
      i := i + 2;
    }
    assert Above(h, tree[j..])[..i / 2] == Above(h, tree[j..]);
  }

  method BuildMerkleTree(h: PairHash, leaves: seq<int>) returns (tree: seq<int>, root: int)
    ensures tree == Flat(h, leaves) && root == Root(h, leaves)
  {
    hide Above, Root;
    tree := leaves;
    var j, nSize := 0, |leaves|;
    while nSize > 1
      invariant 0 <= j && 0 <= nSize && j + nSize == |tree|
      invariant tree[..j] + Flat(h, tree[j..]) == Flat(h, leaves)
      decreases nSize
    {
      ghost var done, level := tree[..j], tree[j..];
      assert tree == done + level;
      tree := BuildLevel(h, tree, j, nSize);
      assert tree[..j + nSize] == done + level && tree[j + nSize..] == Above(h, level);
      assert (done + level) + Flat(h, Above(h, level)) == done + Flat(h, level);
      j := j + nSize;
      nSize := (nSize + 1) / 2;
    }
    assert tree[..j] + tree[j..] == tree;
    if leaves == [] {
      NoLeaves(h);
      root := 0;
    } else {
      FlatEndsInRoot(h, leaves);
      root := tree[|tree| - 1];
    }
  }

  // ----- Branches ---------------------------------------------------------------------------------

  /** The siblings met on the way from leaf `i` to the root. */
  function Branch(h: PairHash, level: seq<int>, i: nat): seq<int>
    decreases |level|
  {
    if |level| <= 1 then [] else [level[Min(Sibling(i), |level| - 1)]] + Branch(h, Above(h, level), i / 2)
  }

  lemma FlatParts(h: PairHash, tree: seq<int>, j: nat, level: seq<int>, i: nat)
    requires j <= |tree| && tree[j..] == Flat(h, level) && 1 < |level| && i < |level|
    ensures j + |level| <= |tree| && tree[j + i] == level[i] && tree[j + |level|..] == Flat(h, Above(h, level))
  {
    hide Above;
    assert tree[j + i] == tree[j..][i];
    assert tree[j + |level|..] == tree[j..][|level|..];
  }

  method GetMerkleBranch(h: PairHash, tree: seq<int>, leaves: seq<int>, nIndex: nat) returns (branch: seq<int>)
    requires tree == Flat(h, leaves)
    ensures branch == Branch(h, leaves, nIndex)
  {
    hide Above;
    branch := [];
    var j, nSize, at := 0, |leaves|, nIndex;
    ghost var level := leaves;
    while nSize > 1
      invariant 0 <= j <= |tree| && nSize == |level| && 0 <= at
      invariant tree[j..] == Flat(h, level)
      invariant branch + Branch(h, level, at) == Branch(h, leaves, nIndex)
      decreases nSize
    {
      var i := Min(Sibling(at), nSize - 1);
      ghost var up := Above(h, level);
      FlatParts(h, tree, j, level, i);
      assert branch + ([level[i]] + Branch(h, up, at / 2)) == (branch + [level[i]]) + Branch(h, up, at / 2);
      branch := branch + [tree[j + i]];
      at := at / 2;
      j := j + nSize;
      level := Above(h, level);
      nSize := (nSize + 1) / 2;
    }
    assert branch + [] == branch;
  }

  /** Hashing upwards along a branch. */
  function Climb(h: PairHash, x: int, branch: seq<int>, i: nat): int
    decreases |branch|
  {
    if branch == [] then x
    else Climb(h, if i % 2 == 1 then h(branch[0], x) else h(x, branch[0]), branch[1..], i / 2)
  }

  method CheckMerkleBranch(h: PairHash, hash: int, branch: seq<int>, nIndex: int) returns (r: int)
    requires nIndex >= -1
    ensures r == if nIndex == -1 then 0 else Climb(h, hash, branch, nIndex)
  {
    if nIndex == -1 {
      return 0;
    }
    r := hash;
    var at: nat := nIndex;
    for k := 0 to |branch|
      invariant Climb(h, r, branch[k..], at) == Climb(h, hash, branch, nIndex)
    {
      assert branch[k..][1..] == branch[k + 1..];
      if at % 2 == 1 {
        r := h(branch[k], r);
      } else {
        r := h(r, branch[k]);
      }
      at := at / 2;
    }
  }

  // ----- Completeness and soundness ---------------------------------------------------------------

  /** The branch of every leaf climbs to the root. */
  lemma {:induction false} BranchClimbsToRoot(h: PairHash, level: seq<int>, i: nat)
    requires i < |level|
    ensures Climb(h, level[i], Branch(h, level, i), i) == Root(h, level)
    decreases |level|
  {
    hide Above, Sibling, Min;
    if |level| > 1 {
      var up := Above(h, level);
      ParentOf(h, level, i);
      BranchClimbsToRoot(h, up, i / 2);
      assert Branch(h, level, i)[1..] == Branch(h, up, i / 2);
    }
  }

  lemma Unpair(h: PairHash, a: int, b: int, c: int, d: int)
    requires Injective(h) && h(a, b) == h(c, d)
    ensures a == c && b == d
  {
  }

  /** With an injective pair hash, whatever climbs to the root at index `i` in as many steps is leaf
      `i`, along its own branch. */
  lemma {:induction false} OnlyLeafClimbs(h: PairHash, level: seq<int>, i: nat, x: int, branch: seq<int>)
    requires Injective(h) && i < |level| && |branch| == |Branch(h, level, i)|
    requires Climb(h, x, branch, i) == Root(h, level)
    ensures x == level[i] && branch == Branch(h, level, i)
    decreases |level|
  {
    hide Above, Sibling, Min;
    if |level| > 1 {
      ParentOf(h, level, i);
      var other := level[Min(Sibling(i), |level| - 1)];
      assert branch == [branch[0]] + branch[1..];
      if i % 2 == 1 {
        OnlyLeafClimbs(h, Above(h, level), i / 2, h(branch[0], x), branch[1..]);
        assert h(branch[0], x) == h(other, level[i]);
        Unpair(h, branch[0], x, other, level[i]);
      } else {
        OnlyLeafClimbs(h, Above(h, level), i / 2, h(x, branch[0]), branch[1..]);
        assert h(x, branch[0]) == h(level[i], other);
        Unpair(h, x, branch[0], level[i], other);
      }
      assert branch[0] == other;
    }
  }

  /** Lists of the same length with the same root are the same. */
  lemma {:induction false} SameRootSameLeaves(h: PairHash, a: seq<int>, b: seq<int>)
    requires Injective(h) && |a| == |b| && Root(h, a) == Root(h, b)
    ensures a == b
    decreases |a|
  {
    hide Above, Sibling, Min;
    if |a| > 1 {
      SameRootSameLeaves(h, Above(h, a), Above(h, b));
      forall i | 0 <= i < |a| ensures a[i] == b[i] {
        ParentOf(h, a, i);
        ParentOf(h, b, i);
      }
    }
  }

  /** Lists of different lengths can share a root: repeating the last of an odd number of hashes
      changes nothing. This is why a block with two equal transactions has to be refused. */
  lemma RepeatedTailSameRoot(h: PairHash, level: seq<int>)
    requires |level| > 1 && |level| % 2 == 1
    ensures Root(h, level + [level[|level| - 1]]) == Root(h, level)
  {
    hide Root;
    var n := |level|;
    var longer := level + [level[n - 1]];
    var a, b := Above(h, longer), Above(h, level);
    forall k | 0 <= k < |b| ensures a[k] == b[k] {
      assert a[k] == h(longer[2 * k], longer[Min(2 * k + 1, n)]);
      assert b[k] == h(level[2 * k], level[Min(2 * k + 1, n - 1)]);
    }
    assert a == b;
    RootAbove(h, longer);
    RootAbove(h, level);
  }

  lemma RootAbove(h: PairHash, level: seq<int>)
    requires |level| > 1
    ensures Root(h, level) == Root(h, Above(h, level))
  {
    hide Above;
  }
}
