/** Conservation of money along a branch and the bound on how much is ever issued. */
module Emission {
  import opened Ledger
  import opened Supply
  import opened Connect
  import opened BlockConnect
  import opened Blocks
  import opened Freshness

  /** The value of all unspent outputs after replaying a branch. */
  ghost function SupplyAt(b: BlockIndex, disk: Disk): int {
    if Replay(b).Some? then UnspentValue(Replay(b).value, disk) else 0
  }

  /** The block is accepted on top of the replay of its branch. */
  ghost predicate Connects(env: Env, v: View, b: BlockIndex) {
    b.Child? && Replay(b.pprev).Some? && BlockConnects(env, v, Replay(b.pprev).value, b)
  }

  /** The totals of an accepted block. */
  ghost function Totals(env: Env, v: View, b: BlockIndex): Tally
    requires Connects(env, v, b)
  {
    Checked(env, v, Replay(b.pprev).value, b).value.1
  }

  /** The money supply that connecting a block records, parent's supply plus outputs minus inputs,
      is the value of all outputs that are then unspent. */
  lemma SupplyStep(name: Txid -> Tx, env: Env, v: View, b: BlockIndex)
    requires Proper(name, b) && ChainOnDisk(v.disk, b) && Connects(env, v, b)
    ensures var t := Totals(env, v, b);
            SupplyAt(b, v.disk) == SupplyAt(b.pprev, v.disk) + t.valueOut - t.valueIn
  {
    hide Proper, CheckBlock;
    var idx := Replay(b.pprev).value;
    AcceptedReplays(env, v, b);
    ProperIsFresh(name, v.disk, b);
    ReplayWellFormed(b.pprev, v.disk);
    PosProper(b.block);
    AcceptTally(RulesFor(env, b), Source(v.disk, map[]), idx, b.block.vtx, Pos(b.block));
    ConnectTxsValue(idx, v.disk, b.block.vtx, Pos(b.block));
  }

  // ----- What a block issues --------------------------------------------------------------------

  /** The rewards of all coinstakes of an accepted block. */
  ghost function AllStakeRewards(env: Env, v: View, b: BlockIndex): int
    requires Connects(env, v, b)
  {
    StakeRewards(RulesFor(env, b), Source(v.disk, map[]), Replay(b.pprev).value, b.block.vtx, Pos(b.block))
  }

  /** Coinbase and all coinstake rewards together stay within subsidy and fees. */
  ghost predicate Covered(env: Env, v: View, b: BlockIndex)
    requires Connects(env, v, b)
  {
    ValueOut(b.block.vtx[0].vout) + AllStakeRewards(env, v, b)
    <= Subsidy(env, Height(b), v.best, v.bestSupply) + Totals(env, v, b).fees
  }

  /** An accepted block raises the supply by exactly its coinbase and all its coinstake rewards, less
      the fees. */
  lemma SupplyGrowth(name: Txid -> Tx, env: Env, v: View, b: BlockIndex)
    requires Proper(name, b) && ChainOnDisk(v.disk, b) && Connects(env, v, b)
    ensures SupplyAt(b, v.disk)
         == SupplyAt(b.pprev, v.disk) + ValueOut(b.block.vtx[0].vout)
           + AllStakeRewards(env, v, b) - Totals(env, v, b).fees
  {
    hide Proper;
    SupplyStep(name, env, v, b);
    NetValue(RulesFor(env, b), Source(v.disk, map[]), Replay(b.pprev).value, b.block.vtx, Pos(b.block));
    OneCoinbase(b.block.vtx);
  }

  /** An accepted block issues at most its subsidy if and only if its coinbase and the rewards of all its
      coinstakes are covered. */
  lemma IssuesAtMostSubsidy(name: Txid -> Tx, env: Env, v: View, b: BlockIndex)
    requires Proper(name, b) && ChainOnDisk(v.disk, b) && Connects(env, v, b)
    ensures SupplyAt(b, v.disk) <= SupplyAt(b.pprev, v.disk) + Subsidy(env, Height(b), v.best, v.bestSupply)
            <==> Covered(env, v, b)
  {
    SupplyGrowth(name, env, v, b);
  }

  /** ConnectBlock sees to it for every block without a coinstake behind its second transaction, so for
      every proof-of-stake block and every block without coinstakes. */
  lemma WellPlacedIsCovered(env: Env, v: View, b: BlockIndex)
    requires Connects(env, v, b) && (WellPlaced(b.block.vtx) || ProofOfStake(b.block.vtx))
    ensures Covered(env, v, b)
  {
    assert WellPlaced(b.block.vtx);
    OneCoinstake(RulesFor(env, b), Source(v.disk, map[]), Replay(b.pprev).value, b.block.vtx, Pos(b.block));
    if ProofOfStake(b.block.vtx) {
      EmptyCoinbase(b.block.vtx[0].vout);
    }
  }

  lemma EmptyCoinbase(vout: seq<TxOut>)
    requires |vout| == 1 && vout[0].IsEmpty()
    ensures ValueOut(vout) == 0
  {
    assert vout[..0] == [];
  }

  // ----- Branches grown at the tip ----------------------------------------------------------------

  ghost function TipView(disk: Disk, tip: BlockIndex): View {
    View(disk, tip, SupplyAt(tip, disk))
  }

  /** The branch was grown one block at a time, each accepted while its predecessor was the best block. */
  ghost predicate GrownAtTip(env: Env, disk: Disk, b: BlockIndex) {
    b.Child? ==> GrownAtTip(env, disk, b.pprev) && Connects(env, TipView(disk, b.pprev), b)
  }

  ghost predicate AllCovered(env: Env, disk: Disk, b: BlockIndex)
    requires GrownAtTip(env, disk, b)
  {
    b.Child? ==> AllCovered(env, disk, b.pprev) && Covered(env, TipView(disk, b.pprev), b)
  }

  /** On a branch grown at the tip whose blocks are covered, at most 99,990,000 + 300 h coins exist at
      height h. */
  lemma {:induction false} EmissionBound(name: Txid -> Tx, env: Env, disk: Disk, b: BlockIndex)
    requires GrownAtTip(env, disk, b) && AllCovered(env, disk, b) && ChainOnDisk(disk, b) && Proper(name, b)
    ensures SupplyAt(b, disk) <= (99_990_000 + 300 * Height(b)) * COIN
  {
    hide Covered, Connects, SupplyAt, StartsWithHeight, CheckBlock, OnDisk, Subsidy;
    if b.Child? {
      EmissionBound(name, env, disk, b.pprev);
      IssuesAtMostSubsidy(name, env, TipView(disk, b.pprev), b);
      SubsidyKeepsBound(env, Height(b), b.pprev, SupplyAt(b.pprev, disk));
    } else {
      NothingIssued(b, disk);
    }
  }

  /** Whatever is drawn, adding the subsidy keeps a supply within the bound. */
  lemma SubsidyKeepsBound(env: Env, h: nat, best: BlockIndex, supply: int)
    requires 1 <= h && supply <= (99_990_000 + 300 * (h - 1)) * COIN
    ensures supply + Subsidy(env, h, best, supply) <= (99_990_000 + 300 * h) * COIN
  {
  }

  lemma NothingIssued(b: BlockIndex, disk: Disk)
    requires b.Genesis?
    ensures SupplyAt(b, disk) == 0
  {
  }

  predicate AllWellPlaced(b: BlockIndex) {
    b.Child? ==> AllWellPlaced(b.pprev) && (WellPlaced(b.block.vtx) || ProofOfStake(b.block.vtx))
  }

  /** The bound holds in particular when no block has a coinstake behind its second transaction. */
  lemma {:induction false} WellPlacedBranch(env: Env, disk: Disk, b: BlockIndex)
    requires GrownAtTip(env, disk, b) && AllWellPlaced(b)
    ensures AllCovered(env, disk, b)
  {
    hide Covered, BlockConnects;
    if b.Child? {
      WellPlacedBranch(env, disk, b.pprev);
      WellPlacedIsCovered(env, TipView(disk, b.pprev), b);
    }
  }
}
