/** Which branch is the heavier one, in the trusts of its blocks. */
module Trust {
  import opened Sequences
  import opened Blocks

  function Trusts(path: seq<BlockIndex>): (s: seq<int>)
    ensures |s| == |path| && forall i :: 0 <= i < |s| ==> s[i] == path[i].block.trust
  {
    seq(|path|, i requires 0 <= i < |path| => path[i].block.trust)
  }

  predicate Linked(a: BlockIndex, path: seq<BlockIndex>, i: nat)
    requires i < |path|
  {
    path[i].Child? && path[i].pprev == if i == 0 then a else path[i - 1]
  }

  /** A path links each block to the one before it. */
  lemma {:induction false} PathLinks(a: BlockIndex, b: BlockIndex)
    requires Ancestor(a, b)
    ensures var p := Path(a, b);
            && |p| == Height(b) - Height(a)
            && (p == [] ==> a == b) && (p != [] ==> p[|p| - 1] == b)
            && forall i :: 0 <= i < |p| ==> Linked(a, p, i)
  {
    if a != b {
      PathLinks(a, b.pprev);
      var p, q := Path(a, b), Path(a, b.pprev);
      assert p == q + [b];
      forall i | 0 <= i < |p| ensures Linked(a, p, i) {
        if i < |q| {
          assert Linked(a, q, i);
        }
      }
    }
  }

  /** The height of a block is the number of blocks after genesis. */
  lemma HeightIsLength(b: BlockIndex)
    ensures Ancestor(Root(b), b) && Height(b) == |Path(Root(b), b)|
  {
    RootIsAncestor(b);
    PathLinks(Root(b), b);
  }

  /** The chain trust grows by the trusts of the blocks on the way. */
  lemma {:induction false} TrustIsTotal(a: BlockIndex, b: BlockIndex)
    requires Ancestor(a, b)
    ensures ChainTrust(b) - ChainTrust(a) == Total(Trusts(Path(a, b)))
  {
    if a != b {
      TrustIsTotal(a, b.pprev);
      var s := Trusts(Path(a, b));
      assert s[..|s| - 1] == Trusts(Path(a, b.pprev));
      TotalSnoc(s);
    }
  }

  lemma TrustOfGenesis(b: BlockIndex)
    requires b.Genesis?
    ensures ChainTrust(b) == b.block.trust
  {
  }

  /** The blocks of `b`'s branch above the fork weigh more than those of `best`. */
  ghost predicate Outweighs(b: BlockIndex, best: BlockIndex)
    requires Root(b) == Root(best)
  {
    var f := Fork(best, b);
    Total(Trusts(Path(f, b))) > Total(Trusts(Path(f, best)))
  }

  lemma HeavierOutweighs(b: BlockIndex, best: BlockIndex)
    requires Root(b) == Root(best)
    ensures Outweighs(b, best) <==> ChainTrust(b) > ChainTrust(best)
  {
    TrustIsTotal(Fork(best, b), b);
    TrustIsTotal(Fork(best, b), best);
  }

  /** `i` is the first block on the way to `b` that outweighs `best`. */
  ghost predicate FirstHeavier(best: BlockIndex, b: BlockIndex, i: BlockIndex)
    requires Root(b) == Root(best)
  {
    && Ancestor(i, b) && Root(i) == Root(best) && Outweighs(i, best)
    && forall c :: Ancestor(c, i) && c != i && Root(c) == Root(best) ==> !Outweighs(c, best)
  }

  /** The `k`-th block of the path `p` from `a` is accepted on top of the one before it, under the maximum
      size that one set. */
  ghost predicate StepAccepted(env: Env, v: View, limit: nat, a: BlockIndex, p: seq<BlockIndex>, k: nat)
    requires k < |p|
  {
    var before := if k == 0 then a else p[k - 1];
    && Replay(before).Some?
    && BlockAccepted(env, v, if k == 0 then limit else env.blockSize(before), Replay(before).value, p[k])
  }

  ghost predicate EachAccepted(env: Env, v: View, limit: nat, a: BlockIndex, p: seq<BlockIndex>) {
    forall k :: 0 <= k < |p| ==> StepAccepted(env, v, limit, a, p, k)
  }

  /** A path is accepted when each of its blocks is. */
  lemma {:induction false} PathAcceptedEach(env: Env, v: View, limit: nat, a: BlockIndex, b: BlockIndex)
    requires Ancestor(a, b)
    ensures PathAccepted(env, v, limit, a, b) <==> EachAccepted(env, v, limit, a, Path(a, b))
  {
    hide StepAccepted, Replay, BlockAccepted, EachAccepted;
    if a == b {
      NoSteps(env, v, limit, a);
    } else {
      PathAcceptedEach(env, v, limit, a, b.pprev);
      LastStep(env, v, limit, a, b);
      OneMoreStep(env, v, limit, a, Path(a, b.pprev), b);
    }
  }

  lemma NoSteps(env: Env, v: View, limit: nat, a: BlockIndex)
    ensures EachAccepted(env, v, limit, a, [])
  {
  }

  lemma OneMoreStep(env: Env, v: View, limit: nat, a: BlockIndex, q: seq<BlockIndex>, b: BlockIndex)
    ensures EachAccepted(env, v, limit, a, q + [b]) <==>
            EachAccepted(env, v, limit, a, q) && StepAccepted(env, v, limit, a, q + [b], |q|)
  {
    hide StepAccepted;
    var p := q + [b];
    forall k | 0 <= k < |q| ensures StepAccepted(env, v, limit, a, p, k) == StepAccepted(env, v, limit, a, q, k) {
      StepOnPrefix(env, v, limit, a, q, b, k);
    }
    if EachAccepted(env, v, limit, a, p) {
      forall k | 0 <= k < |q| ensures StepAccepted(env, v, limit, a, q, k) {
        assert StepAccepted(env, v, limit, a, p, k);
      }
    }
  }

  lemma StepOnPrefix(env: Env, v: View, limit: nat, a: BlockIndex, q: seq<BlockIndex>, b: BlockIndex, k: nat)
    requires k < |q|
    ensures StepAccepted(env, v, limit, a, q + [b], k) == StepAccepted(env, v, limit, a, q, k)
  {
  }

  lemma LastStep(env: Env, v: View, limit: nat, a: BlockIndex, b: BlockIndex)
    requires Ancestor(a, b) && a != b
    ensures var p := Path(a, b);
            |p| > 0 && (StepAccepted(env, v, limit, a, p, |p| - 1) <==>
                        && Replay(b.pprev).Some?
                        && BlockAccepted(env, v, LimitAt(env, limit, a, b.pprev), Replay(b.pprev).value, b))
  {
    hide Replay, BlockAccepted;
    PathLinks(a, b.pprev);
    assert Path(a, b) == Path(a, b.pprev) + [b];
    AncestorHeight(a, b.pprev);
  }
}
