/** The block tree, the index that a branch of it replays to, and block acceptance. */
module Blocks {
  import opened Ledger
  import opened Supply
  import opened Connect
  import opened BlockConnect

  /** `trust` is the trust score of the block's target; `nFile` and `nBlockPos` say where it is stored;
      `sigSize` is the length of its signature. */
  datatype Block = Block(hash: int, nFile: int, nBlockPos: nat, vtx: seq<Tx>, trust: nat, sigSize: nat)

  /** A block index entry. What never changes after creation (previous block, height, chain trust,
      block) is the value itself; the changing fields are kept by the chain state, keyed by it. */
  datatype BlockIndex = Genesis(block: Block) | Child(pprev: BlockIndex, block: Block)

  function Height(b: BlockIndex): nat {
    if b.Genesis? then 0 else Height(b.pprev) + 1
  }

  function ChainTrust(b: BlockIndex): nat {
    if b.Genesis? then b.block.trust else ChainTrust(b.pprev) + b.block.trust
  }

  function Root(b: BlockIndex): BlockIndex {
    if b.Genesis? then b else Root(b.pprev)
  }

  predicate Ancestor(a: BlockIndex, b: BlockIndex) {
    a == b || (b.Child? && Ancestor(a, b.pprev))
  }

  lemma {:induction false} AncestorHeight(a: BlockIndex, b: BlockIndex)
    requires Ancestor(a, b)
    ensures Height(a) <= Height(b) && (Height(a) == Height(b) ==> a == b) && Root(a) == Root(b)
  {
    if a != b {
      AncestorHeight(a, b.pprev);
    }
  }

  lemma {:induction false} AncestorTrans(a: BlockIndex, b: BlockIndex, c: BlockIndex)
    requires Ancestor(a, b) && Ancestor(b, c)
    ensures Ancestor(a, c)
  {
    if b != c {
      AncestorTrans(a, b, c.pprev);
    }
  }

  lemma {:induction false} RootIsAncestor(b: BlockIndex)
    ensures Ancestor(Root(b), b) && Root(b).Genesis?
  {
    if b.Child? {
      RootIsAncestor(b.pprev);
    }
  }

  /** The ancestor of `b` at a given height. */
  function At(b: BlockIndex, h: nat): (r: BlockIndex)
    requires h <= Height(b)
    ensures Ancestor(r, b) && Height(r) == h
  {
    if Height(b) == h then b else At(b.pprev, h)
  }

  lemma {:induction false} AtUnique(b: BlockIndex, a: BlockIndex)
    requires Ancestor(a, b)
    ensures Height(a) <= Height(b) && At(b, Height(a)) == a
  {
    AncestorHeight(a, b);
    if a != b {
      AncestorHeight(a, b.pprev);
      AtUnique(b.pprev, a);
    }
  }

  // ----- Forks ------------------------------------------------------------------------

  /** Where two branches of one tree meet. */
  function Fork(a: BlockIndex, b: BlockIndex): (f: BlockIndex)
    requires Root(a) == Root(b)
    ensures Ancestor(f, a) && Ancestor(f, b)
    decreases Height(a) + Height(b)
  {
    if a == b then a
    else if Height(b) > Height(a) then Fork(a, b.pprev)
    else Fork(a.pprev, b)
  }

  /** The fork is the highest block both branches contain. */
  lemma {:induction false} ForkIsMeet(a: BlockIndex, b: BlockIndex)
    requires Root(a) == Root(b)
    ensures forall c :: Ancestor(c, a) && Ancestor(c, b) ==> Ancestor(c, Fork(a, b))
    decreases Height(a) + Height(b)
  {
    if a != b {
      if Height(b) > Height(a) {
        ForkIsMeet(a, b.pprev);
        forall c | Ancestor(c, a) && Ancestor(c, b) ensures Ancestor(c, b.pprev) {
          AncestorHeight(c, a);
        }
      } else {
        ForkIsMeet(a.pprev, b);
        forall c | Ancestor(c, a) && Ancestor(c, b) ensures Ancestor(c, a.pprev) {
          AncestorHeight(c, b);
        }
      }
    }
  }

  /** The blocks after `from` up to and including `to`, in chain order. */
  function Path(from: BlockIndex, to: BlockIndex): seq<BlockIndex>
    requires Ancestor(from, to)
  {
    if from == to then [] else Path(from, to.pprev) + [to]
  }

  // ----- Replaying a branch --------------------------------------------------------------

  function CompactSize(n: nat): int {
    if n < 253 then 1 else if n <= 0xFFFF then 3 else if n <= 0xFFFF_FFFF then 5 else 9
  }

  /** Transactions follow the 80-byte header and the transaction count. */
  function StartPos(b: Block): int {
    b.nBlockPos + 80 + CompactSize(|b.vtx|)
  }

  function Pos(b: Block): (pos: seq<DiskTxPos>)
    ensures |pos| == |b.vtx|
  {
    Positions(b.nFile, b.nBlockPos, StartPos(b), b.vtx)
  }

  lemma {:induction false} PosAfterHeader(nFile: int, nBlockPos: int, start: int, txs: seq<Tx>)
    ensures SizeOf(txs) >= 0
    ensures forall i :: 0 <= i < |txs| ==> Positions(nFile, nBlockPos, start, txs)[i].nTxPos >= start
  {
    if txs != [] {
      PosAfterHeader(nFile, nBlockPos, start, txs[..|txs| - 1]);
    }
  }

  /** No transaction of a stored block is at the null position or at the memory-pool position. */
  lemma PosProper(b: Block)
    requires b.nFile != NO_FILE
    ensures forall i :: 0 <= i < |b.vtx| ==> !Pos(b)[i].IsNull() && Pos(b)[i] != POOL_POS
  {
    PosAfterHeader(b.nFile, b.nBlockPos, StartPos(b), b.vtx);
  }

  /** The index that results from connecting a branch block by block. The genesis block is never connected. */
  function Replay(b: BlockIndex): Option<Index> {
    if b.Genesis? then Some(map[])
    else
      var before := Replay(b.pprev);
      if before.Some? then ConnectTxs(before.value, b.block.vtx, Pos(b.block)) else None
  }

  function ChainIds(b: BlockIndex): set<Txid> {
    if b.Genesis? then {} else ChainIds(b.pprev) + Ids(b.block.vtx)
  }

  /** No transaction id occurs twice on the branch. */
  ghost predicate FreshChain(b: BlockIndex) {
    b.Child? ==> FreshChain(b.pprev) && DistinctIds(b.block.vtx) && Ids(b.block.vtx) !! ChainIds(b.pprev)
  }

  /** Every block of the branch is in the block files. */
  ghost predicate ChainOnDisk(disk: Disk, b: BlockIndex) {
    b.Child? ==>
      ChainOnDisk(disk, b.pprev) && OnDisk(disk, b.block.vtx, Pos(b.block)) && b.block.nFile != NO_FILE
  }

  lemma {:induction false} ReplayWellFormed(b: BlockIndex, disk: Disk)
    requires ChainOnDisk(disk, b) && Replay(b).Some?
    ensures Canonical(Replay(b).value) && Stored(Replay(b).value, disk) && NoPool(Replay(b).value)
    ensures Replay(b).value.Keys == ChainIds(b)
  {
    if b.Child? {
      ReplayWellFormed(b.pprev, disk);
      PosProper(b.block);
      var idx := Replay(b.pprev).value;
      ConnectTxsCanonical(idx, b.block.vtx, Pos(b.block));
      ConnectTxsStored(idx, disk, b.block.vtx, Pos(b.block));
      NoPoolAfter(idx, b.block.vtx, Pos(b.block));
    }
  }

  /** Disconnecting the last block of a replayed branch gives the replay of the branch without it. */
  lemma DisconnectReplay(b: BlockIndex, disk: Disk)
    requires b.Child? && ChainOnDisk(disk, b) && FreshChain(b) && Replay(b).Some?
    ensures Replay(b.pprev).Some?
    ensures DisconnectTxs(Replay(b).value, b.block.vtx) == Replay(b.pprev)
  {
    ReplayWellFormed(b.pprev, disk);
    PosProper(b.block);
    UndoIsExactIffFresh(Replay(b.pprev).value, b.block.vtx, Pos(b.block));
  }

  lemma {:induction false} AncestorReplays(a: BlockIndex, b: BlockIndex)
    requires Ancestor(a, b) && Replay(b).Some?
    ensures Replay(a).Some?
  {
    if a != b {
      AncestorReplays(a, b.pprev);
    }
  }

  /** Branches without repeated ids whose replay differs in length differ in content. */
  lemma {:induction false} LongerReplayDiffers(a: BlockIndex, b: BlockIndex, disk: Disk)
    requires Ancestor(a, b) && a != b && ChainOnDisk(disk, b) && FreshChain(b)
    requires forall c :: Ancestor(a, c) && Ancestor(c, b) && c != a ==> c.block.vtx != []
    requires Replay(b).Some?
    ensures Replay(a) != Replay(b)
  {
    AncestorReplays(a, b);
    ReplayWellFormed(b, disk);
    AncestorOnDisk(disk, a, b);
    ReplayWellFormed(a, disk);
    AncestorIds(a, b.pprev);
    assert Ancestor(b, b) && b.block.vtx[0].id in Ids(b.block.vtx);
  }

  lemma {:induction false} AncestorOnDisk(disk: Disk, a: BlockIndex, b: BlockIndex)
    requires Ancestor(a, b) && ChainOnDisk(disk, b)
    ensures ChainOnDisk(disk, a)
  {
    if a != b {
      AncestorOnDisk(disk, a, b.pprev);
    }
  }

  lemma {:induction false} AncestorFresh(a: BlockIndex, b: BlockIndex)
    requires Ancestor(a, b) && FreshChain(b)
    ensures FreshChain(a)
  {
    if a != b {
      AncestorFresh(a, b.pprev);
    }
  }

  lemma {:induction false} AncestorIds(a: BlockIndex, b: BlockIndex)
    requires Ancestor(a, b)
    ensures ChainIds(a) <= ChainIds(b)
  {
    if a != b {
      AncestorIds(a, b.pprev);
    }
  }

  // ----- Acceptance ------------------------------------------------------------------------

  const RESERVE_REWARD: int := 990_000 * COIN
  const STANDARD_REWARD: int := 99 * COIN
  const SUPER_REWARD: int := 300 * COIN
  const RESERVE_PHASE_START: int := 1
  const COINBASE_MATURITY: int := 23

  /** Verdicts of code outside this model. `blockSize` is what ComputeBlockSize makes of the sizes of the
      blocks up to the given one; `superblock` is the draw made from the hash of the best block's
      predecessor; `otherChecks` stands for proof of work, time, signature and payee checks. */
  datatype Env = Env(
    sigOk: (Tx, Tx, nat) -> bool,
    p2shSigOps: (Tx, map<Txid, Tx>) -> nat,
    blockSize: BlockIndex -> nat,
    otherChecks: Block -> bool,
    superblock: int -> bool)

  predicate ValuesInRange(vout: seq<TxOut>) {
    vout == [] || (ValuesInRange(vout[..|vout| - 1]) && MoneyRange(vout[|vout| - 1].nValue)
                   && MoneyRange(ValueOut(vout)))
  }

  predicate CheckTransaction(tx: Tx) {
    && tx.vin != [] && tx.vout != []
    && (tx.IsCoinBase() || tx.IsCoinStake() || forall i :: 0 <= i < |tx.vout| ==> !tx.vout[i].IsEmpty())
    && ValuesInRange(tx.vout)
    && (forall i, j :: 0 <= i < j < |tx.vin| ==> tx.vin[i].prevout != tx.vin[j].prevout)
    && (if tx.IsCoinBase() then 2 <= |tx.vin[0].scriptSig| <= 100
        else forall i :: 0 <= i < |tx.vin| ==> !tx.vin[i].prevout.IsNull())
  }

  /** The serialised block: header, count, transactions and signature. */
  function BlockSize(b: Block): int {
    80 + CompactSize(|b.vtx|) + SizeOf(b.vtx) + CompactSize(b.sigSize) + b.sigSize
  }

  function LegacySigOps(txs: seq<Tx>): nat {
    if txs == [] then 0 else LegacySigOps(txs[..|txs| - 1]) + txs[|txs| - 1].legacySigOps
  }

  /** CheckBlock's limits on size and signature operations; `limit` is the maximum block size in force. */
  predicate WithinLimits(limit: nat, b: Block) {
    |b.vtx| <= limit && BlockSize(b) <= limit && LegacySigOps(b.vtx) <= MaxSigOps(limit)
  }

  /** What CheckBlock asks of the transactions, whatever the limits. */
  predicate CheckBlock(txs: seq<Tx>) {
    && txs != [] && txs[0].IsCoinBase()
    && (forall i :: 1 <= i < |txs| ==> !txs[i].IsCoinBase())
    && (ProofOfStake(txs) ==>
          && |txs[0].vout| == 1 && txs[0].vout[0].IsEmpty()
          && forall i :: 2 <= i < |txs| ==> !txs[i].IsCoinStake())
    && (forall i :: 0 <= i < |txs| ==> CheckTransaction(txs[i]))
    && DistinctIds(txs)
  }

  /** Whether a position lies in `b` or one of the blocks before it, fewer than `depth` back. */
  predicate ConfirmedWithin(b: BlockIndex, depth: int, pos: DiskTxPos) {
    depth > 0 &&
    ((b.block.nBlockPos == pos.nBlockPos && b.block.nFile == pos.nFile)
     || (b.Child? && ConfirmedWithin(b.pprev, depth - 1, pos)))
  }

  function RulesFor(env: Env, b: BlockIndex): Rules {
    Rules((p: DiskTxPos) => ConfirmedWithin(b, COINBASE_MATURITY, p), env.sigOk, env.p2shSigOps,
          MaxSigOps(env.blockSize(b)))
  }

  /** The reward a block may claim besides fees. It depends on the best block of the moment:
      its money supply and, through the superblock draw, its predecessor's hash. */
  function Subsidy(env: Env, nHeight: int, best: BlockIndex, bestSupply: int): int {
    var last := if best.Child? then best.pprev.block.hash else 0;
    var drawn := if env.superblock(last) then SUPER_REWARD else STANDARD_REWARD;
    if nHeight > RESERVE_PHASE_START then
      if bestSupply < RESERVE_REWARD * 100 then RESERVE_REWARD else drawn
    else if bestSupply > MAX_SINGLE_TX then 0
    else drawn
  }

  /** The coin-age computation fails on an input transaction younger than its spender. */
  predicate CoinAgeOk(idx: Index, disk: Disk, tx: Tx) {
    forall i :: 0 <= i < |tx.vin| && Readable(idx, disk, tx.vin[i].prevout) ==>
      disk[idx[tx.vin[i].prevout.hash].pos].nTime <= tx.nTime
  }

  predicate RewardOk(env: Env, disk: Disk, idx: Index, b: BlockIndex, best: BlockIndex, bestSupply: int, t: Tally)
    requires b.block.vtx != []
  {
    var limit := Subsidy(env, Height(b), best, bestSupply) + t.fees;
    if ProofOfStake(b.block.vtx)
    then CoinAgeOk(idx, disk, b.block.vtx[1]) && t.stakeReward <= limit
    else ValueOut(b.block.vtx[0].vout) <= limit
  }

  /** The state a block is judged by: the block files and the best block with its money supply. */
  datatype View = View(disk: Disk, best: BlockIndex, bestSupply: int)

  ghost function Checked(env: Env, v: View, idx: Index, b: BlockIndex): Option<(Index, Tally)> {
    Accept(RulesFor(env, b), Source(v.disk, map[]), idx, b.block.vtx, Pos(b.block))
  }

  /** Everything ConnectBlock asks of a block, but for CheckBlock's limits. */
  ghost predicate BlockConnects(env: Env, v: View, idx: Index, b: BlockIndex) {
    && CheckBlock(b.block.vtx) && env.otherChecks(b.block)
    && Checked(env, v, idx, b).Some?
    && RewardOk(env, v.disk, idx, b, v.best, v.bestSupply, Checked(env, v, idx, b).value.1)
  }

  ghost predicate BlockAccepted(env: Env, v: View, limit: nat, idx: Index, b: BlockIndex) {
    WithinLimits(limit, b.block) && BlockConnects(env, v, idx, b)
  }

  lemma AcceptedReplays(env: Env, v: View, b: BlockIndex)
    requires b.Child? && Replay(b.pprev).Some? && BlockConnects(env, v, Replay(b.pprev).value, b)
    ensures Replay(b) == Some(Checked(env, v, Replay(b.pprev).value, b).value.0)
  {
    AcceptConnects(RulesFor(env, b), Source(v.disk, map[]), Replay(b.pprev).value, b.block.vtx, Pos(b.block));
  }

  // ----- The maximum block size in force ------------------------------------------------------

  /** ConnectBlock sets the maximum anew for a block that passes CheckBlock, whether the block connects
      or not. */
  function LimitAfter(env: Env, limit: nat, b: BlockIndex): nat {
    if WithinLimits(limit, b.block) && CheckBlock(b.block.vtx) && env.otherChecks(b.block)
    then env.blockSize(b) else limit
  }

  /** The maximum in force once the blocks after `from` up to `at` are connected. */
  function LimitAt(env: Env, limit: nat, from: BlockIndex, at: BlockIndex): nat {
    if from == at then limit else env.blockSize(at)
  }

  /** Every block after `from` up to `to` is accepted on top of its predecessor, where `limit` is the
      maximum block size in force before the first. */
  ghost predicate PathAccepted(env: Env, v: View, limit: nat, from: BlockIndex, to: BlockIndex)
    requires Ancestor(from, to)
  {
    from == to ||
    (PathAccepted(env, v, limit, from, to.pprev)
     && Replay(to.pprev).Some?
     && BlockAccepted(env, v, LimitAt(env, limit, from, to.pprev), Replay(to.pprev).value, to))
  }

  /** The maximum in force after the blocks from `from` up to `to` were connected in turn, as far as the
      first refusal. */
  ghost function Tried(env: Env, v: View, limit: nat, from: BlockIndex, to: BlockIndex): nat
    requires Ancestor(from, to)
  {
    if from == to then limit
    else if PathAccepted(env, v, limit, from, to.pprev)
    then LimitAfter(env, LimitAt(env, limit, from, to.pprev), to)
    else Tried(env, v, limit, from, to.pprev)
  }

  lemma TriedAccepted(env: Env, v: View, limit: nat, from: BlockIndex, to: BlockIndex)
    requires Ancestor(from, to) && PathAccepted(env, v, limit, from, to)
    ensures Tried(env, v, limit, from, to) == LimitAt(env, limit, from, to)
  {
  }

  lemma NothingTried(env: Env, v: View, limit: nat, from: BlockIndex)
    ensures PathAccepted(env, v, limit, from, from) && LimitAt(env, limit, from, from) == limit
  {
  }

  /** The next block of an accepted path. */
  lemma PathNext(env: Env, v: View, limit: nat, from: BlockIndex, b: BlockIndex)
    requires b.Child? && Ancestor(from, b.pprev) && from != b && Replay(b.pprev).Some?
    requires PathAccepted(env, v, limit, from, b.pprev)
    ensures var now := LimitAt(env, limit, from, b.pprev);
            && Tried(env, v, limit, from, b) == LimitAfter(env, now, b)
            && (PathAccepted(env, v, limit, from, b) <==> BlockAccepted(env, v, now, Replay(b.pprev).value, b))
            && (PathAccepted(env, v, limit, from, b) ==> LimitAfter(env, now, b) == LimitAt(env, limit, from, b))
  {
  }

  /** Nothing happens after the first refusal. */
  lemma {:induction false} TriedStops(
    env: Env, v: View, limit: nat, from: BlockIndex, mid: BlockIndex, to: BlockIndex)
    requires Ancestor(from, mid) && Ancestor(mid, to) && Ancestor(from, to)
    requires !PathAccepted(env, v, limit, from, mid)
    ensures !PathAccepted(env, v, limit, from, to)
    ensures Tried(env, v, limit, from, to) == Tried(env, v, limit, from, mid)
  {
    if mid != to {
      AncestorTrans(from, mid, to.pprev);
      TriedStops(env, v, limit, from, mid, to.pprev);
    }
    if from == to {
      AncestorHeight(from, mid);
      AncestorHeight(mid, to);
    }
  }
}
