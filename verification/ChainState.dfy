/** The best chain: connecting and disconnecting blocks, reorganising, switching tips. */
module ChainState {
  import opened Ledger
  import opened Supply
  import opened Connect
  import opened BlockConnect
  import opened Blocks
  import opened Freshness
  import opened Emission
  import opened Growth
  import opened Trust
  import opened Spending
  import opened Lawful
  import opened Unspent
  import Digits

  // ----- Disconnecting, as the code does it ------------------------------------------------

  method DisconnectInputs(idx: Index, tx: Tx) returns (ok: bool, idx': Index)
    ensures ok <==> DisconnectTx(idx, tx).Some?
    ensures ok ==> DisconnectTx(idx, tx) == Some(idx')
  {
    hide UnspendAll;
    ok, idx' := true, idx;
    if !tx.IsCoinBase() {
      ok, idx' := UnspendInputs(idx, tx.vin);
      if !ok {
        return;
      }
    }
    idx' := idx' - {tx.id};
  }

  /** Frees the spend mark of each input in turn. */
  method UnspendInputs(idx: Index, vin: seq<TxIn>) returns (ok: bool, idx': Index)
    ensures ok <==> UnspendAll(idx, vin).Some?
    ensures ok ==> UnspendAll(idx, vin) == Some(idx')
  {
    hide UnspendAll;
    idx' := idx;
    UnspendNone(idx, vin);
    for i := 0 to |vin|
      invariant UnspendAll(idx, vin[..i]) == Some(idx')
    {
      var prevout := vin[i].prevout;
      UnspendStep(idx, vin, i);
      if prevout.hash !in idx' || prevout.n >= |idx'[prevout.hash].vSpent| {
        if UnspendAll(idx, vin).Some? {
          UnspendPrefix(idx, vin, i + 1);
        }
        return false, idx';
      }
      var txindex := idx'[prevout.hash];
      txindex := txindex.(vSpent := txindex.vSpent[prevout.n := NULL_POS]);
      idx' := idx'[prevout.hash := txindex];
    }
    assert vin[..|vin|] == vin;
    ok := true;
  }

  lemma UnspendNone(idx: Index, vin: seq<TxIn>)
    ensures UnspendAll(idx, vin[..0]) == Some(idx)
  {
  }

  lemma UnspendStep(idx: Index, vin: seq<TxIn>, k: nat)
    requires k < |vin| && UnspendAll(idx, vin[..k]).Some?
    ensures var b := UnspendAll(idx, vin[..k]).value; var o := vin[k].prevout;
            UnspendAll(idx, vin[..k + 1]) == if InRange(b, o) then Some(Mark(b, o, NULL_POS)) else None
  {
    assert vin[..k + 1][..k] == vin[..k];
  }

  lemma {:induction false} UnspendPrefix(idx: Index, vin: seq<TxIn>, k: nat)
    requires k <= |vin| && UnspendAll(idx, vin).Some?
    ensures UnspendAll(idx, vin[..k]).Some?
    decreases |vin|
  {
    if k < |vin| {
      UnspendPrefix(idx, vin[..|vin| - 1], k);
      assert vin[..|vin| - 1][..k] == vin[..k];
    } else {
      assert vin[..k] == vin;
    }
  }

  method DisconnectTransactions(idx: Index, txs: seq<Tx>) returns (ok: bool, idx': Index)
    ensures ok <==> DisconnectTxs(idx, txs).Some?
    ensures ok ==> DisconnectTxs(idx, txs) == Some(idx')
  {
    idx' := idx;
    var i := |txs|;
    assert txs[..|txs|] == txs;
    while i > 0
      invariant 0 <= i <= |txs|
      invariant DisconnectTxs(idx, txs) == DisconnectTxs(idx', txs[..i])
    {
      assert txs[..i][..i - 1] == txs[..i - 1];
      ok, idx' := DisconnectInputs(idx', txs[i - 1]);
      if !ok {
        return;
      }
      i := i - 1;
    }
    ok := true;
  }

  // ----- Links and recorded supplies along a branch ------------------------------------------

  type Links = map<BlockIndex, BlockIndex>

  /** The pnext links that mark a branch as the main chain. */
  function LinksOf(b: BlockIndex): Links {
    if b.Genesis? then map[] else LinksOf(b.pprev)[b.pprev := b]
  }

  lemma {:induction false} LinksKeys(b: BlockIndex, a: BlockIndex)
    ensures a in LinksOf(b) <==> Ancestor(a, b) && a != b
    ensures a in LinksOf(b) ==> LinksOf(b)[a].Child? && LinksOf(b)[a].pprev == a && Ancestor(LinksOf(b)[a], b)
  {
    if b.Child? {
      LinksKeys(b.pprev, a);
      if Ancestor(a, b.pprev) {
        AncestorHeight(a, b.pprev);
      }
    }
  }

  lemma UnlinkTip(b: BlockIndex)
    requires b.Child?
    ensures LinksOf(b) - {b.pprev} == LinksOf(b.pprev)
  {
    LinksKeys(b.pprev, b.pprev);
  }

  lemma LinkTip(b: BlockIndex)
    requires b.Child?
    ensures LinksOf(b.pprev)[b.pprev := b] == LinksOf(b)
  {
  }

  type Supplies = map<BlockIndex, int>

  /** Each block of the branch has on record the value of all outputs unspent after it. */
  ghost predicate SuppliesRight(s: Supplies, disk: Disk, b: BlockIndex) {
    b in s && s[b] == SupplyAt(b, disk) && (b.Child? ==> SuppliesRight(s, disk, b.pprev))
  }

  lemma {:induction false} SuppliesElsewhere(s: Supplies, disk: Disk, b: BlockIndex, c: BlockIndex, v: int)
    requires SuppliesRight(s, disk, b) && !Ancestor(c, b)
    ensures SuppliesRight(s[c := v], disk, b)
  {
    if b.Child? {
      SuppliesElsewhere(s, disk, b.pprev, c, v);
    }
  }

  /** Recording the growth on top of a right parent makes the block's own supply right. */
  lemma SupplyAtTip(s: Supplies, s': Supplies, disk: Disk, b: BlockIndex)
    requires b.Child? && SuppliesRight(s, disk, b.pprev) && SuppliesRight(s', disk, b.pprev)
    requires b in s' && s'[b] == s[b.pprev] + SupplyAt(b, disk) - SupplyAt(b.pprev, disk)
    ensures SuppliesRight(s', disk, b)
  {
    hide SupplyAt;
  }

  lemma {:induction false} SuppliesBelow(s: Supplies, disk: Disk, a: BlockIndex, b: BlockIndex)
    requires SuppliesRight(s, disk, b) && Ancestor(a, b)
    ensures SuppliesRight(s, disk, a)
  {
    if a != b {
      SuppliesBelow(s, disk, a, b.pprev);
    }
  }

  lemma NotOwnAncestor(b: BlockIndex)
    requires b.Child?
    ensures !Ancestor(b, b.pprev)
  {
    if Ancestor(b, b.pprev) {
      AncestorHeight(b, b.pprev);
    }
  }

  lemma {:induction false} PathHead(from: BlockIndex, to: BlockIndex)
    requires Ancestor(from, to) && from != to
    ensures var p := Path(from, to);
            && |p| > 0 && p[0].Child? && p[0].pprev == from
            && Ancestor(p[0], to) && p[1..] == Path(p[0], to)
  {
    if from != to.pprev {
      PathHead(from, to.pprev);
    }
  }

  /** Blocks from `b` down to just above `f`. */
  function Down(b: BlockIndex, f: BlockIndex): seq<BlockIndex>
    requires Ancestor(f, b)
  {
    if b == f then [] else [b] + Down(b.pprev, f)
  }

  // ----- The node -----------------------------------------------------------------------------

  /** Everything known about the blocks of the tree: common root, stored, checked, one per hash. */
  ghost predicate TreeOk(name: Txid -> Tx, genesis: BlockIndex, index: set<BlockIndex>, disk: Disk) {
    && genesis in index && genesis.Genesis?
    && (forall b :: b in index ==> Root(b) == genesis && ChainOnDisk(disk, b) && Proper(name, b))
    && (forall b :: b in index && b.Child? ==> b.pprev in index)
    && (forall b, c :: b in index && c in index && b.block.hash == c.block.hash ==> b == c)
  }

  lemma InTree(name: Txid -> Tx, genesis: BlockIndex, index: set<BlockIndex>, disk: Disk, b: BlockIndex)
    requires TreeOk(name, genesis, index, disk) && b in index
    ensures Root(b) == genesis && genesis.Genesis? && ChainOnDisk(disk, b) && Proper(name, b)
    ensures b.Child? ==> b.pprev in index
  {
  }

  predicate Known(index: set<BlockIndex>, hash: int) {
    exists x :: x in index && x.block.hash == hash
  }

  lemma {:induction false} AncestorInIndex(
    name: Txid -> Tx, genesis: BlockIndex, index: set<BlockIndex>, disk: Disk, a: BlockIndex, b: BlockIndex)
    requires TreeOk(name, genesis, index, disk) && b in index && Ancestor(a, b)
    ensures a in index
  {
    if a != b {
      AncestorInIndex(name, genesis, index, disk, a, b.pprev);
    }
  }

  /** Blocks after `f` on the way to `to` are not on the branch of `best`. */
  ghost predicate OffBranch(f: BlockIndex, to: BlockIndex, best: BlockIndex) {
    forall c :: Ancestor(f, c) && Ancestor(c, to) && c != f ==> !Ancestor(c, best)
  }

  lemma ForkOffBranch(best: BlockIndex, to: BlockIndex)
    requires Root(best) == Root(to)
    ensures OffBranch(Fork(best, to), to, best)
  {
    var f := Fork(best, to);
    ForkIsMeet(best, to);
    forall c | Ancestor(f, c) && Ancestor(c, to) && c != f ensures !Ancestor(c, best) {
      if Ancestor(c, best) {
        AncestorHeight(f, c);
        AncestorHeight(c, f);
      }
    }
  }

  lemma {:induction false} TrustMono(a: BlockIndex, b: BlockIndex)
    requires Ancestor(a, b)
    ensures ChainTrust(a) <= ChainTrust(b)
  {
    if a != b {
      TrustMono(a, b.pprev);
    }
  }

  /** The first block of the branch up to `b` whose trust exceeds that of `best`. */
  function Intermediate(best: BlockIndex, b: BlockIndex): BlockIndex {
    if b.Child? && ChainTrust(b.pprev) > ChainTrust(best) then Intermediate(best, b.pprev) else b
  }

  lemma {:induction false} IntermediateTrust(best: BlockIndex, b: BlockIndex)
    requires ChainTrust(b) > ChainTrust(best)
    ensures Ancestor(Intermediate(best, b), b) && ChainTrust(Intermediate(best, b)) > ChainTrust(best)
  {
    if b.Child? && ChainTrust(b.pprev) > ChainTrust(best) {
      IntermediateTrust(best, b.pprev);
    }
  }

  /** It is the first to outweigh the tip. */
  lemma {:induction false} NoneBefore(best: BlockIndex, b: BlockIndex)
    ensures var i := Intermediate(best, b); i.Child? ==> ChainTrust(i.pprev) <= ChainTrust(best)
  {
    if b.Child? && ChainTrust(b.pprev) > ChainTrust(best) {
      NoneBefore(best, b.pprev);
    }
  }

  lemma IntermediateIsFirst(best: BlockIndex, b: BlockIndex)
    requires Root(b) == Root(best) && ChainTrust(b) > ChainTrust(best)
    ensures FirstHeavier(best, b, Intermediate(best, b))
  {
    hide Outweighs;
    var i := Intermediate(best, b);
    IntermediateTrust(best, b);
    NoneBefore(best, b);
    AncestorHeight(i, b);
    HeavierOutweighs(i, best);
    forall c | Ancestor(c, i) && c != i && Root(c) == Root(best) ensures !Outweighs(c, best) {
      TrustMono(c, i.pprev);
      HeavierOutweighs(c, best);
    }
  }

  lemma HeavierOffBranch(best: BlockIndex, i: BlockIndex, to: BlockIndex)
    requires ChainTrust(i) > ChainTrust(best)
    ensures OffBranch(i, to, best)
  {
    forall c | Ancestor(i, c) && Ancestor(c, to) && c != i ensures !Ancestor(c, best) {
      if Ancestor(c, best) {
        TrustMono(i, c);
        TrustMono(c, best);
      }
    }
  }

  method FindFork(a: BlockIndex, b: BlockIndex) returns (pfork: BlockIndex)
    requires Root(a) == Root(b)
    ensures pfork == Fork(a, b)
  {
    pfork := a;
    var plonger := b;
    while pfork != plonger
      invariant Root(pfork) == Root(plonger) && Fork(pfork, plonger) == Fork(a, b)
      decreases Height(pfork) + Height(plonger)
    {
      while Height(plonger) > Height(pfork)
        invariant Root(pfork) == Root(plonger) && Fork(pfork, plonger) == Fork(a, b)
        decreases Height(plonger)
      {
        plonger := plonger.pprev;
      }
      if pfork == plonger {
        break;
      }
      pfork := pfork.pprev;
    }
  }

  /** What to disconnect: from the tip down to the fork. */
  method ListDisconnect(tip: BlockIndex, f: BlockIndex) returns (v: seq<BlockIndex>)
    requires Ancestor(f, tip)
    ensures v == Down(tip, f)
  {
    v := [];
    var p := tip;
    while p != f
      invariant Ancestor(f, p) && v + Down(p, f) == Down(tip, f)
      decreases p
    {
      v := v + [p];
      p := p.pprev;
    }
  }

  /** What to connect: from just above the fork up to the new tip. */
  method ListConnect(tip: BlockIndex, f: BlockIndex) returns (v: seq<BlockIndex>)
    requires Ancestor(f, tip)
    ensures v == Path(f, tip)
  {
    v := [];
    var p := tip;
    while p != f
      invariant Ancestor(f, p) && Ancestor(p, tip) && v == Path(p, tip)
      decreases p
    {
      PathCons(p, tip);
      v := [p] + v;
      p := p.pprev;
    }
  }

  lemma PathCons(p: BlockIndex, tip: BlockIndex)
    requires p.Child? && Ancestor(p, tip)
    ensures Ancestor(p.pprev, tip) && Path(p.pprev, tip) == [p] + Path(p, tip)
  {
    assert Ancestor(p.pprev, p);
    AncestorTrans(p.pprev, p, tip);
    AncestorHeight(p, tip);
    PathHead(p.pprev, tip);
    var h := Path(p.pprev, tip)[0];
    AtUnique(tip, h);
    AtUnique(tip, p);
  }

  lemma IntermediateOfChild(env: Env, v: View, limit: nat, best: BlockIndex, b: BlockIndex)
    requires b.Child? && b.pprev == best && Replay(best).Some?
    ensures Intermediate(best, b) == b && Root(best) == Root(b) && Fork(best, b) == best && Ancestor(best, b)
    ensures PathAccepted(env, v, limit, best, b) <==> BlockAccepted(env, v, limit, Replay(best).value, b)
    ensures Tried(env, v, limit, best, b) == LimitAfter(env, limit, b)
    ensures BlockAccepted(env, v, limit, Replay(best).value, b) ==> LimitAfter(env, limit, b) == env.blockSize(b)
    ensures PathAccepted(env, v, env.blockSize(b), b, b) && Tried(env, v, env.blockSize(b), b, b) == env.blockSize(b)
  {
    NotOwnAncestor(b);
    assert Ancestor(best, best);
  }

  /** The body of ConnectBlock: all checks, the new index, the block's outputs minus inputs and the new
      maximum block size. */
  method CheckAndConnect(env: Env, v: View, limit: nat, idx: Index, b: BlockIndex)
    returns (ok: bool, idx': Index, net: int, limit': nat)
    ensures ok <==> BlockAccepted(env, v, limit, idx, b)
    ensures NoPool(idx) && b.block.nFile != NO_FILE ==>
              (ok <==> WithinLimits(limit, b.block) && GoodBlock(env, v, idx, b))
    ensures ok ==> var (i, t) := Checked(env, v, idx, b).value; idx' == i && net == t.valueOut - t.valueIn
    ensures limit' == LimitAfter(env, limit, b)
  {
    hide GoodBlock;
    idx', net, limit' := idx, 0, limit;
    if NoPool(idx) && b.block.nFile != NO_FILE {
      BlockIff(env, v, idx, b);
    }
    if !WithinLimits(limit, b.block) || !CheckBlock(b.block.vtx) || !env.otherChecks(b.block) {
      return false, idx', net, limit';
    }
    limit' := env.blockSize(b);
    var queued, t;
    ok, queued, t := ConnectTransactions(RulesFor(env, b), Source(v.disk, map[]), idx,
                                         b.block.nFile, b.block.nBlockPos, StartPos(b.block), b.block.vtx);
    if ok {
      ok := RewardPaid(env, v, idx, b, t);
      idx', net := idx + queued, t.valueOut - t.valueIn;
    }
  }

  method RewardPaid(env: Env, v: View, idx: Index, b: BlockIndex, t: Tally) returns (ok: bool)
    requires b.block.vtx != []
    ensures ok == RewardOk(env, v.disk, idx, b, v.best, v.bestSupply, t)
  {
    var limit := Subsidy(env, Height(b), v.best, v.bestSupply) + t.fees;
    if ProofOfStake(b.block.vtx) {
      if !CoinAgeOk(idx, v.disk, b.block.vtx[1]) || t.stakeReward > limit {
        return false;
      }
    } else if ValueOut(b.block.vtx[0].vout) > limit {
      return false;
    }
    ok := true;
  }

  /** What entering block `b` does to the tip: nothing, unless its branch outweighs the tip; then `ok` says
      whether the path to the first block that does is accepted, `b` becomes the tip, and the state is
      valid exactly when the postponed rest is accepted too. A refusal leaves the old tip. `limit` and
      `limit'` are the maximum block size before and after. */
  ghost predicate Switched(
    env: Env, v: View, limit: nat, b: BlockIndex, ok: bool, best: BlockIndex, valid: bool, limit': nat)
  {
    Root(b) == Root(v.best) &&
    if !Outweighs(b, v.best) then ok && best == v.best && valid && limit' == limit
    else
      var i := Intermediate(v.best, b);
      && FirstHeavier(v.best, b, i)
      && (ok <==> PathAccepted(env, v, limit, Fork(v.best, i), i))
      && (ok ==> best == b && (valid <==> PathAccepted(env, v, env.blockSize(i), i, b)))
      && (!ok ==> best == v.best && valid)
      && limit' == if ok then Tried(env, v, env.blockSize(i), i, b) else Tried(env, v, limit, Fork(v.best, i), i)
  }

  /** In terms of the chain trusts that the node compares. */
  lemma SwitchedByTrust(
    env: Env, v: View, limit: nat, b: BlockIndex, ok: bool, best: BlockIndex, valid: bool, limit': nat)
    requires Switched(env, v, limit, b, ok, best, valid, limit')
    ensures ChainTrust(b) <= ChainTrust(v.best) ==> ok && best == v.best && valid && limit' == limit
    ensures ChainTrust(b) > ChainTrust(v.best) ==>
              var i := Intermediate(v.best, b);
              && Ancestor(i, b) && Root(v.best) == Root(i)
              && (ok <==> PathAccepted(env, v, limit, Fork(v.best, i), i))
              && (ok ==> best == b && (valid <==> PathAccepted(env, v, env.blockSize(i), i, b)))
              && (!ok ==> best == v.best && valid)
              && limit' == if ok then Tried(env, v, env.blockSize(i), i, b)
                           else Tried(env, v, limit, Fork(v.best, i), i)
  {
    hide PathAccepted, Tried, Outweighs, Fork;
    HeavierOutweighs(b, v.best);
  }

  /** No transaction of `b` spends an output of a coinbase or coinstake of a block less than 23 below `b`. */
  ghost predicate GeneratedWait(b: BlockIndex) {
    forall a: BlockIndex, j, k, i ::
      (&& Ancestor(a, b) && a.Child? && Height(b) - Height(a) < 23
       && 0 <= j < |a.block.vtx| && (a.block.vtx[j].IsCoinBase() || a.block.vtx[j].IsCoinStake())
       && 0 <= k < |b.block.vtx| && !b.block.vtx[k].IsCoinBase() && 0 <= i < |b.block.vtx[k].vin|) ==>
        b.block.vtx[k].vin[i].prevout.hash != a.block.vtx[j].id
  }

  lemma AllWait(name: Txid -> Tx, env: Env, v: View, b: BlockIndex)
    requires Connects(env, v, b) && Proper(name, b) && ChainOnDisk(v.disk, b)
    ensures GeneratedWait(b)
  {
    hide Connects, Proper, ChainOnDisk;
    forall a: BlockIndex, j, k, i |
      && Ancestor(a, b) && a.Child? && Height(b) - Height(a) < 23
      && 0 <= j < |a.block.vtx| && (a.block.vtx[j].IsCoinBase() || a.block.vtx[j].IsCoinStake())
      && 0 <= k < |b.block.vtx| && !b.block.vtx[k].IsCoinBase() && 0 <= i < |b.block.vtx[k].vin|
      ensures b.block.vtx[k].vin[i].prevout.hash != a.block.vtx[j].id
    {
      GeneratedWaits(name, env, v, b, a, j, k, i);
    }
  }

  class Node {
    const env: Env
    /** Which transaction each id stands for. */
    ghost const name: Txid -> Tx
    const genesis: BlockIndex
    var disk: Disk
    var index: set<BlockIndex>
    var pnext: Links
    var supply: Supplies
    var db: Index                // committed transaction index
    var batch: Option<Index>     // the index as the open database transaction sees it
    var best: BlockIndex
    var hint: Option<BlockIndex> // last result of FindBlockByHeight
    var maxBlockSize: nat        // as the last block that was connected, or tried, set it

    ghost predicate Tree()
      reads this
    {
      && TreeOk(name, genesis, index, disk)
      && best in index
      && (forall b :: b in index ==> b in supply)
    }

    /** The transaction index, the links and the recorded supplies all belong to branch `b`. */
    ghost predicate SyncedTo(b: BlockIndex)
      reads this
    {
      && Replay(b) == Some(db)
      && pnext == LinksOf(b)
      && SuppliesRight(supply, disk, b)
    }

    ghost predicate Valid()
      reads this
    {
      && Tree() && batch == None && SyncedTo(best)
      && (hint.Some? ==> Ancestor(hint.value, best))
    }

    ghost function Sees(): View
      reads this
      requires best in supply
    {
      View(disk, best, supply[best])
    }

    constructor (env: Env, genesisBlock: Block, ghost name: Txid -> Tx)
      ensures Valid() && best == Genesis(genesisBlock) && this.env == env && this.genesis == best && this.name == name
      ensures index == {best} && disk == map[] && supply[best] == 0 && GrownAtTip(env, disk, best)
      ensures maxBlockSize == MAX_BLOCK_SIZE
    {
      this.env := env;
      this.name := name;
      genesis := Genesis(genesisBlock);
      disk := map[];
      index := {Genesis(genesisBlock)};
      pnext := map[];
      supply := map[Genesis(genesisBlock) := 0];
      db := map[];
      batch := None;
      best := Genesis(genesisBlock);
      hint := None;
      maxBlockSize := MAX_BLOCK_SIZE;
    }

    /** Connects a block on top of its predecessor within the open database transaction. */
    method ConnectBlock(b: BlockIndex) returns (ok: bool)
      requires Tree() && b in index && b.Child?
      requires batch.Some? && batch == Replay(b.pprev)
      modifies `batch, `supply, `maxBlockSize
      ensures ok <==> BlockAccepted(env, old(Sees()), old(maxBlockSize), Replay(b.pprev).value, b)
      ensures ok <==> WithinLimits(old(maxBlockSize), b.block) && GoodBlock(env, old(Sees()), Replay(b.pprev).value, b)
      ensures ok ==> GeneratedWait(b)
      ensures maxBlockSize == LimitAfter(env, old(maxBlockSize), b)
      ensures ok ==> batch.Some? && batch == Replay(b)
      ensures ok ==> supply == old(supply)[b := old(supply[b.pprev]) + SupplyAt(b, disk) - SupplyAt(b.pprev, disk)]
      ensures !ok ==> batch == old(batch) && supply == old(supply)
    {
      hide BlockConnects, Checked, SupplyAt, TreeOk, Proper, WithinLimits, CheckBlock, GoodBlock, GeneratedWait;
      InTree(name, genesis, index, disk, b);
      ghost var v := Sees();
      ReplayWellFormed(b.pprev, disk);
      var idx, net;
      ok, idx, net, maxBlockSize :=
        CheckAndConnect(env, View(disk, best, supply[best]), maxBlockSize, batch.value, b);
      if ok {
        AcceptedReplays(env, v, b);
        AllWait(name, env, v, b);
        SupplyStep(name, env, v, b);
        supply := supply[b := supply[b.pprev] + net];
        batch := Some(idx);
      }
    }

    /** Disconnects the last block of the branch the open database transaction stands at. */
    method DisconnectBlock(b: BlockIndex) returns (ok: bool)
      requires Tree() && b in index && b.Child?
      requires batch.Some? && batch == Replay(b)
      modifies `batch
      ensures ok && batch.Some? && batch == Replay(b.pprev)
    {
      ProperIsFresh(name, disk, b);
      DisconnectReplay(b, disk);
      var idx;
      ok, idx := DisconnectTransactions(batch.value, b.block.vtx);
      batch := Some(idx);
    }

    method DisconnectBranch(v: seq<BlockIndex>, f: BlockIndex) returns (ok: bool)
      requires Tree() && Ancestor(f, best) && v == Down(best, f)
      requires batch.Some? && batch == Replay(best)
      modifies `batch
      ensures ok && batch.Some? && batch == Replay(f)
    {
      hide Replay, ChainOnDisk, Proper, Root, SuppliesRight;
      ghost var cur := best;
      for i := 0 to |v|
        invariant Ancestor(f, cur) && cur in index && v[i..] == Down(cur, f)
        invariant batch.Some? && batch == Replay(cur)
      {
        assert v[i] == cur && v[i + 1..] == Down(cur.pprev, f);
        ok := DisconnectBlock(v[i]);
        cur := cur.pprev;
      }
      ok := true;
    }

    method ConnectBranch(v: seq<BlockIndex>, ghost f: BlockIndex, ghost to: BlockIndex) returns (ok: bool)
      requires Tree() && to in index && Ancestor(f, to) && v == Path(f, to)
      requires batch.Some? && batch == Replay(f)
      requires SuppliesRight(supply, disk, f) && SuppliesRight(supply, disk, best) && OffBranch(f, to, best)
      modifies `batch, `supply, `maxBlockSize
      ensures Tree() && Sees() == old(Sees()) && SuppliesRight(supply, disk, best)
      ensures ok <==> PathAccepted(env, old(Sees()), old(maxBlockSize), f, to)
      ensures maxBlockSize == Tried(env, old(Sees()), old(maxBlockSize), f, to)
      ensures ok ==> batch.Some? && batch == Replay(to) && SuppliesRight(supply, disk, to)
    {
      hide Replay, SupplyAt, ChainOnDisk, Proper, Root, BlockAccepted, OffBranch, SuppliesRight, TreeOk;
      hide PathAccepted, Tried, LimitAfter, LimitAt, GoodBlock, GeneratedWait, WithinLimits;
      NothingTried(env, Sees(), maxBlockSize, f);
      ghost var cur := f;
      for i := 0 to |v|
        invariant Ancestor(f, cur) && Ancestor(cur, to) && v[i..] == Path(cur, to)
        invariant Tree() && Sees() == old(Sees()) && SuppliesRight(supply, disk, best)
        invariant batch.Some? && batch == Replay(cur) && SuppliesRight(supply, disk, cur)
        invariant PathAccepted(env, old(Sees()), old(maxBlockSize), f, cur)
        invariant maxBlockSize == LimitAt(env, old(maxBlockSize), f, cur)
      {
        PathHead(cur, to);
        var b := v[i];
        PathStep(f, cur, b, to, best);
        AncestorInIndex(name, genesis, index, disk, b, to);
        ghost var s := supply;
        PathNext(env, Sees(), old(maxBlockSize), f, b);
        ok := ConnectBlock(b);
        if !ok {
          TriedStops(env, old(Sees()), old(maxBlockSize), f, b, to);
          return;
        }
        SuppliesElsewhere(s, disk, best, b, supply[b]);
        NotOwnAncestor(b);
        SuppliesElsewhere(s, disk, cur, b, supply[b]);
        SupplyAtTip(s, supply, disk, b);
        cur := b;
        assert v[i + 1..] == v[i..][1..];
      }
      TriedAccepted(env, old(Sees()), old(maxBlockSize), f, to);
      ok := true;
    }

    /** After the database commit: clear the links of the old branch, set those of the new one. */
    method Relink(down: seq<BlockIndex>, up: seq<BlockIndex>, ghost f: BlockIndex, ghost to: BlockIndex)
      requires Ancestor(f, best) && Ancestor(f, to) && down == Down(best, f) && up == Path(f, to)
      requires pnext == LinksOf(best)
      modifies `pnext
      ensures pnext == LinksOf(to)
    {
      ghost var cur := best;
      for i := 0 to |down|
        invariant Ancestor(f, cur) && down[i..] == Down(cur, f) && pnext == LinksOf(cur)
      {
        assert down[i] == cur && down[i + 1..] == Down(cur.pprev, f);
        UnlinkTip(cur);
        pnext := pnext - {down[i].pprev};
        cur := cur.pprev;
      }
      for i := 0 to |up|
        invariant Ancestor(cur, to) && up[i..] == Path(cur, to) && pnext == LinksOf(cur)
      {
        PathHead(cur, to);
        assert up[i + 1..] == up[i..][1..];
        pnext := pnext[up[i].pprev := up[i]];
        cur := up[i];
      }
    }

    /** Switches to another branch in one database transaction, or leaves everything as it was. */
    method Reorganize(to: BlockIndex) returns (ok: bool)
      requires Tree() && to in index && SyncedTo(best) && batch == Some(db)
      modifies `batch, `supply, `db, `pnext, `maxBlockSize
      ensures Tree() && Sees() == old(Sees()) && SuppliesRight(supply, disk, best)
      ensures ok <==> PathAccepted(env, old(Sees()), old(maxBlockSize), Fork(best, to), to)
      ensures maxBlockSize == Tried(env, old(Sees()), old(maxBlockSize), Fork(best, to), to)
      ensures ok ==> SyncedTo(to) && batch == None
      ensures !ok ==> db == old(db) && pnext == old(pnext)
    {
      hide Replay, SupplyAt, Fork, Path, Down, LinksOf, SuppliesRight, PathAccepted, Tried, OffBranch, TreeOk, Proper;
      InTree(name, genesis, index, disk, best);
      InTree(name, genesis, index, disk, to);
      var f := FindFork(best, to);
      ForkIsMeet(best, to);
      ForkOffBranch(best, to);
      var down := ListDisconnect(best, f);
      var up := ListConnect(to, f);
      SuppliesBelow(supply, disk, f, best);
      ok := DisconnectBranch(down, f);
      ok := ConnectBranch(up, f, to);
      if !ok {
        return;
      }
      db, batch := batch.value, None;
      Relink(down, up, f, to);
    }

    /** Attaches one block to the branch the database stands at. */
    method SetBestChainInner(b: BlockIndex) returns (ok: bool)
      requires Tree() && b in index && b.Child? && SyncedTo(b.pprev) && batch == Some(db)
      requires SuppliesRight(supply, disk, best) && !Ancestor(b, best)
      modifies `batch, `supply, `db, `pnext, `maxBlockSize
      ensures Tree() && Sees() == old(Sees()) && SuppliesRight(supply, disk, best) && batch == None
      ensures ok <==> BlockAccepted(env, old(Sees()), old(maxBlockSize), old(db), b)
      ensures maxBlockSize == LimitAfter(env, old(maxBlockSize), b)
      ensures ok ==> SyncedTo(b)
      ensures !ok ==> SyncedTo(b.pprev) && db == old(db) && pnext == old(pnext)
    {
      hide Replay, SupplyAt, BlockAccepted, LimitAfter, TreeOk, LinksOf, SuppliesRight, GoodBlock, GeneratedWait;
      hide WithinLimits;
      ghost var s := supply;
      ok := ConnectBlock(b);
      if !ok {
        batch := None;
        return;
      }
      SuppliesElsewhere(s, disk, best, b, supply[b]);
      NotOwnAncestor(b);
      SuppliesElsewhere(s, disk, b.pprev, b, supply[b]);
      SupplyAtTip(s, supply, disk, b);
      LinkTip(b);
      db, batch := batch.value, None;
      pnext := pnext[b.pprev := b];
    }

    /** The first block that outweighs the tip, and the blocks put off until after the switch to it. */
    method Postpone(b: BlockIndex) returns (inter: BlockIndex, postponed: seq<BlockIndex>)
      requires Root(b) == Root(best) && ChainTrust(b) > ChainTrust(best)
      ensures FirstHeavier(best, b, inter)
      ensures inter == Intermediate(best, b) && postponed == Path(inter, b)
    {
      hide FirstHeavier;
      IntermediateIsFirst(best, b);
      inter, postponed := b, [];
      while inter.Child? && ChainTrust(inter.pprev) > ChainTrust(best)
        invariant Ancestor(inter, b) && postponed == Path(inter, b)
        invariant Intermediate(best, inter) == Intermediate(best, b)
        decreases inter
      {
        PathCons(inter, b);
        postponed := [inter] + postponed;
        inter := inter.pprev;
      }
    }

    /** Connects the postponed blocks one database transaction at a time, stopping at the first failure. */
    method ConnectPostponed(v: seq<BlockIndex>, ghost from: BlockIndex, ghost to: BlockIndex)
      returns (ghost reached: BlockIndex)
      requires Tree() && to in index && Ancestor(from, to) && v == Path(from, to)
      requires SyncedTo(from) && batch == None
      requires SuppliesRight(supply, disk, best) && OffBranch(from, to, best)
      modifies `batch, `supply, `db, `pnext, `maxBlockSize
      ensures Tree() && Sees() == old(Sees()) && batch == None
      ensures Ancestor(from, reached) && Ancestor(reached, to) && SyncedTo(reached)
      ensures PathAccepted(env, old(Sees()), old(maxBlockSize), from, reached)
      ensures reached != to ==> forall b: BlockIndex :: b.Child? && b.pprev == reached && Ancestor(b, to) ==>
                && Replay(reached).Some?
                && !BlockAccepted(env, old(Sees()), LimitAt(env, old(maxBlockSize), from, reached),
                                  Replay(reached).value, b)
      ensures reached == to <==> PathAccepted(env, old(Sees()), old(maxBlockSize), from, to)
      ensures maxBlockSize == Tried(env, old(Sees()), old(maxBlockSize), from, to)
    {
      hide Replay, SupplyAt, ChainOnDisk, Proper, Root, BlockAccepted, OffBranch, LinksOf, SuppliesRight;
      hide PathAccepted, Tried, LimitAfter, LimitAt, TreeOk;
      NothingTried(env, Sees(), maxBlockSize, from);
      reached := from;
      for i := 0 to |v|
        invariant Ancestor(from, reached) && Ancestor(reached, to) && v[i..] == Path(reached, to)
        invariant Tree() && Sees() == old(Sees()) && SuppliesRight(supply, disk, best)
        invariant SyncedTo(reached) && batch == None
        invariant PathAccepted(env, old(Sees()), old(maxBlockSize), from, reached)
        invariant maxBlockSize == LimitAt(env, old(maxBlockSize), from, reached)
      {
        PathHead(reached, to);
        var b := v[i];
        PathStep(from, reached, b, to, best);
        AncestorInIndex(name, genesis, index, disk, b, to);
        batch := Some(db);
        PathNext(env, Sees(), old(maxBlockSize), from, b);
        var ok := SetBestChainInner(b);
        if !ok {
          TriedStops(env, old(Sees()), old(maxBlockSize), from, b, to);
          forall c: BlockIndex | c.Child? && c.pprev == reached && Ancestor(c, to) ensures c == b {
            SameHeight(c, b, to);
          }
          return;
        }
        reached := b;
        assert v[i + 1..] == v[i..][1..];
      }
      TriedAccepted(env, old(Sees()), old(maxBlockSize), from, to);
    }

    /** A database that stands at a proper ancestor of `b` does not belong to `b`. */
    lemma NotSynced(reached: BlockIndex, b: BlockIndex)
      requires Tree() && b in index && Replay(reached) == Some(db) && Ancestor(reached, b) && reached != b
      ensures Replay(b) != Some(db)
    {
      if Replay(b) == Some(db) {
        ProperIsFresh(name, disk, b);
        forall c | Ancestor(reached, c) && Ancestor(c, b) && c != reached ensures c.block.vtx != [] {
          AncestorInIndex(name, genesis, index, disk, c, b);
          if c.Genesis? {
            AncestorHeight(reached, c);
          }
        }
        LongerReplayDiffers(reached, b, disk);
      }
    }

    /** Makes `b` the best block: extends the tip, or reorganises to the first block of its branch that
        outweighs the tip and then connects the postponed rest. A failure before the first switch
        changes nothing. After a switch the tip, the transaction index, the links and the recorded
        supplies agree if and only if every postponed block is accepted. */
    method SetBestChain(b: BlockIndex) returns (ok: bool)
      requires Valid() && b in index && ChainTrust(b) > ChainTrust(best)
      modifies `batch, `supply, `db, `pnext, `best, `hint, `maxBlockSize
      ensures Root(b) == Root(old(best)) && FirstHeavier(old(best), b, Intermediate(old(best), b))
      ensures var i := Intermediate(old(best), b);
              ok <==> PathAccepted(env, old(Sees()), old(maxBlockSize), Fork(old(best), i), i)
      ensures !ok ==> Valid() && best == old(best) && db == old(db) && pnext == old(pnext)
      ensures ok ==> Tree() && best == b
      ensures ok ==>
                var i := Intermediate(old(best), b);
                (Valid() <==> PathAccepted(env, old(Sees()), env.blockSize(i), i, b))
      ensures var i := Intermediate(old(best), b);
              maxBlockSize == if ok then Tried(env, old(Sees()), env.blockSize(i), i, b)
                              else Tried(env, old(Sees()), old(maxBlockSize), Fork(old(best), i), i)
    {
      hide Replay, SupplyAt, Fork, LinksOf, SuppliesRight, BlockAccepted, Intermediate, TreeOk, Proper;
      hide PathAccepted, Tried, LimitAfter, FirstHeavier;
      ghost var v := Sees();
      InTree(name, genesis, index, disk, best);
      InTree(name, genesis, index, disk, b);
      IntermediateIsFirst(best, b);
      batch := Some(db);
      ghost var reached := b;
      if b.Child? && b.pprev == best {
        IntermediateOfChild(env, v, maxBlockSize, best, b);
        NotOwnAncestor(b);
        ok := SetBestChainInner(b);
      } else {
        ok, reached := SwitchBranch(b);
      }
      if !ok {
        return;
      }
      best := b;
      hint := None;
      if reached != b {
        NotSynced(reached, b);
      }
    }

    /** Reorganises to the first block that outweighs the tip and connects the rest of its branch. */
    method SwitchBranch(b: BlockIndex) returns (ok: bool, ghost reached: BlockIndex)
      requires Tree() && b in index && ChainTrust(b) > ChainTrust(best) && SyncedTo(best) && batch == Some(db)
      modifies `batch, `supply, `db, `pnext, `maxBlockSize
      ensures Root(b) == Root(best) && FirstHeavier(best, b, Intermediate(best, b))
      ensures Tree() && Sees() == old(Sees()) && batch == None
      ensures var i, v := Intermediate(best, b), old(Sees());
              && (ok <==> PathAccepted(env, v, old(maxBlockSize), Fork(best, i), i))
              && (ok ==> Ancestor(reached, b) && SyncedTo(reached))
              && (ok ==> (reached == b <==> PathAccepted(env, v, env.blockSize(i), i, b)))
              && maxBlockSize == if ok then Tried(env, v, env.blockSize(i), i, b)
                                 else Tried(env, v, old(maxBlockSize), Fork(best, i), i)
      ensures !ok ==> db == old(db) && pnext == old(pnext) && SyncedTo(best)
    {
      hide Replay, SupplyAt, Fork, Path, LinksOf, SuppliesRight, OffBranch, BlockAccepted, Intermediate, TreeOk, Proper;
      hide PathAccepted, Tried, FirstHeavier;
      ghost var v, i := Sees(), Intermediate(best, b);
      reached := b;
      InTree(name, genesis, index, disk, b);
      IntermediateTrust(best, b);
      AncestorInIndex(name, genesis, index, disk, i, b);
      InTree(name, genesis, index, disk, i);
      InTree(name, genesis, index, disk, best);
      var inter, postponed := Postpone(b);
      ok := Reorganize(inter);
      if !ok {
        batch := None;
        return;
      }
      HeavierOffBranch(best, i, b);
      TriedSwitch(env, v, old(maxBlockSize), best, i);
      reached := ConnectPostponed(postponed, i, b);
    }

    /** Enters a block, checked by CheckBlock and AcceptBlock and written to the block files, into the
        index, and makes it the best block if its branch outweighs the tip and is accepted. `written` is
        what the block files gained. */
    method AddToBlockIndex(block: Block, parent: BlockIndex, written: Disk) returns (ok: bool)
      requires Valid() && parent in index
      requires CheckBlock(block.vtx) && Named(name, block.vtx)
      requires StartsWithHeight(block.vtx[0].vin[0].scriptSig, Height(parent) + 1)
      requires block.nFile != NO_FILE && OnDisk(written, block.vtx, Pos(block)) && written.Keys !! disk.Keys
      modifies this
      ensures Known(old(index), block.hash) ==>
                && !ok && Valid() && index == old(index) && disk == old(disk) && supply == old(supply)
                && best == old(best) && maxBlockSize == old(maxBlockSize)
      ensures !Known(old(index), block.hash) ==>
                && index == old(index) + {Child(parent, block)} && disk == old(disk) + written && Tree()
                && Switched(env, View(disk, old(best), old(supply[best])), old(maxBlockSize), Child(parent, block),
                            ok, best, Valid(), maxBlockSize)
      ensures best == old(best) ==> db == old(db) && pnext == old(pnext) && supply[best] == old(supply[best])
      ensures old(GrownAtTip(env, disk, best)) && (best == old(best) || parent == old(best)) ==>
                GrownAtTip(env, disk, best)
    {
      hide Replay, SupplyAt, SuppliesRight, LinksOf, Intermediate, OnDisk, BlockAccepted, PathAccepted;
      hide CheckBlock, StartsWithHeight, Fork, GrownAtTip, TreeOk, Pos, Named, Outweighs, FirstHeavier;
      if exists x :: x in index && x.block.hash == block.hash {
        return false;
      }
      var b := Child(parent, block);
      Enter(b, written);
      InTree(name, genesis, index, disk, b);
      InTree(name, genesis, index, disk, best);
      HeavierOutweighs(b, best);
      if ChainTrust(b) > ChainTrust(best) {
        ghost var tip := best;
        SuppliesTip(supply, disk, tip);
        ok := SetBestChain(b);
        if !ok {
          SuppliesTip(supply, disk, best);
        }
        if ok && parent == tip && GrownAtTip(env, disk, tip) {
          GrowsByOne(env, disk, old(maxBlockSize), tip, b);
        }
        return;
      }
      ok := true;
    }

    /** Puts a new block into the tree; nothing else changes. */
    method Enter(b: BlockIndex, written: Disk)
      requires Valid() && b.Child? && b.pprev in index && !Known(index, b.block.hash)
      requires CheckBlock(b.block.vtx) && Named(name, b.block.vtx)
      requires StartsWithHeight(b.block.vtx[0].vin[0].scriptSig, Height(b))
      requires b.block.nFile != NO_FILE && OnDisk(written, b.block.vtx, Pos(b.block)) && written.Keys !! disk.Keys
      modifies `disk, `index, `supply
      ensures Valid() && index == old(index) + {b} && disk == old(disk) + written && supply == old(supply)[b := 0]
      ensures b !in old(index)
      ensures old(GrownAtTip(env, disk, best)) ==> GrownAtTip(env, disk, best)
    {
      hide Replay, SupplyAt, SuppliesRight, LinksOf, OnDisk, CheckBlock, StartsWithHeight, GrownAtTip, TreeOk;
      InTree(name, genesis, index, disk, best);
      InTree(name, genesis, index, disk, b.pprev);
      GrowDisk(name, genesis, index, disk, written, supply, best);
      if GrownAtTip(env, disk, best) {
        GrownStays(env, disk, disk + written, best);
      }
      disk := disk + written;
      InTree(name, genesis, index, disk, b.pprev);
      NewBlockFits(disk, written, b);
      AddToTree(name, genesis, index, disk, b);
      SuppliesNew(name, genesis, index, supply, disk, best, b);
      index := index + {b};
      supply := supply[b := 0];
    }

    /** Receives a block: refuses it if it fails the checks, is known already or has an unknown parent, or
        if its coinbase does not start with the height; otherwise enters it. `otherwiseOk` is the verdict
        of the remaining checks. */
    method AcceptBlock(block: Block, hashPrevBlock: int, otherwiseOk: bool, written: Disk)
      returns (ok: bool, parent: Option<BlockIndex>)
      requires Valid() && Named(name, block.vtx)
      requires block.nFile != NO_FILE && OnDisk(written, block.vtx, Pos(block)) && written.Keys !! disk.Keys
      modifies this
      ensures parent.Some? ==> parent.value in old(index) && parent.value.block.hash == hashPrevBlock
      ensures parent.Some? ==> WithinLimits(old(maxBlockSize), block) && CheckBlock(block.vtx) && otherwiseOk
      ensures parent.Some? ==> !Known(old(index), block.hash)
      ensures parent.Some? ==> StartsWithHeight(block.vtx[0].vin[0].scriptSig, Height(parent.value) + 1)
      ensures parent.None? ==>
                || !WithinLimits(old(maxBlockSize), block) || !CheckBlock(block.vtx) || !otherwiseOk
                || Known(old(index), block.hash)
                || forall p :: p in old(index) && p.block.hash == hashPrevBlock ==>
                     !StartsWithHeight(block.vtx[0].vin[0].scriptSig, Height(p) + 1)
      ensures parent.None? ==>
                && !ok && Valid() && index == old(index) && disk == old(disk) && supply == old(supply)
                && best == old(best) && maxBlockSize == old(maxBlockSize)
      ensures parent.Some? ==>
                && index == old(index) + {Child(parent.value, block)} && disk == old(disk) + written && Tree()
                && Switched(env, View(disk, old(best), old(supply[best])), old(maxBlockSize),
                            Child(parent.value, block), ok, best, Valid(), maxBlockSize)
      ensures best == old(best) ==> db == old(db) && pnext == old(pnext) && supply[best] == old(supply[best])
      ensures old(GrownAtTip(env, disk, best)) && (best == old(best) || parent == Some(old(best))) ==>
                GrownAtTip(env, disk, best)
    {
      hide GrownAtTip, Switched, OnDisk, CheckBlock, StartsWithHeight, Named, TreeOk, Replay, LinksOf, SuppliesRight,
           Pos;
      ok, parent := false, None;
      if !WithinLimits(maxBlockSize, block) || !CheckBlock(block.vtx) || !otherwiseOk {
        return;
      }
      if Known(index, block.hash) || !Known(index, hashPrevBlock) {
        return;
      }
      var prev := FindBlock(hashPrevBlock);
      HasCoinbase(block.vtx);
      if !StartsWithHeight(block.vtx[0].vin[0].scriptSig, Height(prev) + 1) {
        return;
      }
      parent := Some(prev);
      ok := AddToBlockIndex(block, prev, written);
    }

    /** The one block with a known hash. */
    method FindBlock(hash: int) returns (b: BlockIndex)
      requires Valid() && Known(index, hash)
      ensures b in index && b.block.hash == hash
      ensures forall q :: q in index && q.block.hash == hash ==> q == b
    {
      hide Replay, LinksOf, SuppliesRight, Proper, ChainOnDisk;
      b :| b in index && b.block.hash == hash;
    }

    /** In every consistent state an output is marked unspent exactly when a transaction of the best branch
        makes it and none spends it; it is then worth an amount that may exist. */
    lemma UnspentOutputs(o: OutPoint)
      requires Valid()
      ensures CanSpend(db, o) <==> Created(ChainTxs(best), o) && !SpentIn(ChainTxs(best), o)
      ensures CanSpend(db, o) ==>
                There(db, disk, o) && 0 <= disk[db[o.hash].pos].vout[o.n].nValue <= 30_000_000_000_000_000
    {
      hide TreeOk, Proper, ChainOnDisk, CanSpend, SuppliesRight, LinksOf;
      InTree(name, genesis, index, disk, best);
      ReplayIs(name, disk, best);
      if CanSpend(db, o) {
        UnspentInRange(name, disk, best, o);
      }
    }

    /** Conservation: the best block's money supply is the value of all outputs marked unspent. */
    lemma SupplyIsUnspentValue()
      requires Valid()
      ensures best in supply && supply[best] == UnspentValue(db, disk)
    {
    }

    /** A node that only ever extended its tip, by covered blocks, stays within the emission bound. */
    lemma SupplyBound()
      requires Valid() && GrownAtTip(env, disk, best) && AllCovered(env, disk, best)
      ensures best in supply && supply[best] <= (99_990_000 + 300 * Height(best)) * COIN
    {
      hide TreeOk, SupplyAt, Proper, ChainOnDisk, GrownAtTip, AllCovered;
      InTree(name, genesis, index, disk, best);
      EmissionBound(name, env, disk, best);
      SuppliesTip(supply, disk, best);
    }

    predicate IsInMainChain(b: BlockIndex)
      reads this
    {
      b in pnext || b == best
    }

    /** Being in the main chain means being the best block or one of its ancestors. */
    lemma MainChainIsBestBranch(b: BlockIndex)
      requires Valid()
      ensures IsInMainChain(b) <==> Ancestor(b, best)
    {
      LinksKeys(best, b);
    }

    /** Finds the main-chain block at a height, starting from genesis, the tip or the last result. */
    method FindBlockByHeight(nHeight: nat) returns (b: BlockIndex)
      requires Valid() && nHeight <= Height(best)
      modifies `hint
      ensures Valid() && b == At(best, nHeight)
      ensures forall c :: Ancestor(c, best) && Height(c) == nHeight ==> c == b
    {
      hide TreeOk, Replay, SuppliesRight, LinksOf, Proper, ChainOnDisk;
      InTree(name, genesis, index, disk, best);
      b := if nHeight < Height(best) / 2 then genesis else best;
      RootIsAncestor(best);
      if hint.Some? && Digits.Abs(nHeight - Height(b)) > Digits.Abs(nHeight - Height(hint.value)) {
        b := hint.value;
      }
      while Height(b) > nHeight
        invariant Ancestor(b, best)
        decreases Height(b)
      {
        AncestorTrans(b.pprev, b, best);
        b := b.pprev;
      }
      while Height(b) < nHeight
        invariant Ancestor(b, best) && Height(b) <= nHeight
        decreases nHeight - Height(b)
      {
        LinksKeys(best, b);
        b := pnext[b];
      }
      hint := Some(b);
      forall c | Ancestor(c, best) && Height(c) == nHeight ensures c == At(best, nHeight) {
        AtUnique(best, c);
      }
    }
  }

  // ----- The tree and the block files grow -----------------------------------------------------

  lemma {:induction false} SuppliesStable(s: Supplies, d: Disk, d': Disk, b: BlockIndex)
    requires Extends(d, d') && ChainOnDisk(d, b) && SuppliesRight(s, d, b)
    ensures SuppliesRight(s, d', b)
  {
    SupplyStable(d, d', b);
    if b.Child? {
      SuppliesStable(s, d, d', b.pprev);
    }
  }

  lemma GrowDisk(
    name: Txid -> Tx, genesis: BlockIndex, index: set<BlockIndex>, d: Disk, w: Disk, s: Supplies, best: BlockIndex)
    requires TreeOk(name, genesis, index, d) && best in index && SuppliesRight(s, d, best)
    requires w.Keys !! d.Keys
    ensures TreeOk(name, genesis, index, d + w) && SuppliesRight(s, d + w, best) && Extends(w, d + w)
            && Extends(d, d + w)
  {
    var d' := d + w;
    forall b | b in index ensures ChainOnDisk(d', b) {
      ChainStaysOnDisk(d, d', b);
    }
    SuppliesStable(s, d, d', best);
  }

  lemma HasCoinbase(txs: seq<Tx>)
    requires CheckBlock(txs)
    ensures txs != [] && txs[0].vin != []
  {
  }

  lemma SuppliesTip(s: Supplies, disk: Disk, b: BlockIndex)
    requires SuppliesRight(s, disk, b)
    ensures s[b] == SupplyAt(b, disk)
  {
  }

  /** After a switch to a heavier block the maximum is that block's. */
  lemma TriedSwitch(env: Env, v: View, limit: nat, best: BlockIndex, i: BlockIndex)
    requires Root(best) == Root(i) && ChainTrust(i) > ChainTrust(best)
    ensures Ancestor(Fork(best, i), i)
    ensures PathAccepted(env, v, limit, Fork(best, i), i) ==>
              Tried(env, v, limit, Fork(best, i), i) == env.blockSize(i)
  {
    hide PathAccepted, Tried;
    ForkIsMeet(best, i);
    TrustMono(Fork(best, i), best);
    if PathAccepted(env, v, limit, Fork(best, i), i) {
      TriedAccepted(env, v, limit, Fork(best, i), i);
    }
  }

  /** A block accepted on top of the best one grows the branch at the tip. */
  lemma GrowsByOne(env: Env, disk: Disk, limit: nat, tip: BlockIndex, b: BlockIndex)
    requires b.Child? && b.pprev == tip && GrownAtTip(env, disk, tip) && Replay(tip).Some?
    requires Root(b) == Root(tip) && FirstHeavier(tip, b, Intermediate(tip, b))
    requires PathAccepted(env, TipView(disk, tip), limit, Fork(tip, Intermediate(tip, b)), Intermediate(tip, b))
    ensures GrownAtTip(env, disk, b)
  {
    hide BlockConnects, SupplyAt;
    IntermediateOfChild(env, TipView(disk, tip), limit, tip, b);
  }

  lemma NewBlockFits(disk: Disk, written: Disk, b: BlockIndex)
    requires b.Child? && ChainOnDisk(disk, b.pprev) && b.block.nFile != NO_FILE
    requires OnDisk(written, b.block.vtx, Pos(b.block)) && Extends(written, disk)
    ensures ChainOnDisk(disk, b)
  {
  }

  lemma AddToTree(name: Txid -> Tx, genesis: BlockIndex, index: set<BlockIndex>, disk: Disk, b: BlockIndex)
    requires TreeOk(name, genesis, index, disk) && b.Child? && b.pprev in index && !Known(index, b.block.hash)
    requires ChainOnDisk(disk, b) && Proper(name, b)
    ensures TreeOk(name, genesis, index + {b}, disk)
  {
    hide Proper, ChainOnDisk;
  }

  lemma SuppliesNew(
    name: Txid -> Tx, genesis: BlockIndex, index: set<BlockIndex>, s: Supplies, disk: Disk,
    best: BlockIndex, b: BlockIndex)
    requires TreeOk(name, genesis, index, disk) && best in index && SuppliesRight(s, disk, best)
    requires b !in index
    ensures SuppliesRight(s[b := 0], disk, best)
  {
    if Ancestor(b, best) {
      AncestorInIndex(name, genesis, index, disk, b, best);
    }
    SuppliesElsewhere(s, disk, best, b, 0);
  }

  lemma SameHeight(a: BlockIndex, b: BlockIndex, to: BlockIndex)
    requires Ancestor(a, to) && Ancestor(b, to) && Height(a) == Height(b)
    ensures a == b
  {
    AtUnique(to, a);
    AtUnique(to, b);
  }

  /** A further block on the way from `f` to `to`. */
  lemma PathStep(f: BlockIndex, cur: BlockIndex, b: BlockIndex, to: BlockIndex, best: BlockIndex)
    requires Ancestor(f, cur) && b.Child? && b.pprev == cur && Ancestor(b, to) && OffBranch(f, to, best)
    ensures Ancestor(f, b) && b != f && !Ancestor(b, best) && Ancestor(f, to)
  {
    AncestorHeight(f, cur);
    AncestorTrans(f, b, to);
  }
}
