/** A run at whose end the recorded tip and the transaction index disagree. */
module Witnesses {
  import opened Ledger
  import opened Supply
  import opened Connect
  import opened Blocks
  import opened Freshness
  import opened Emission
  import opened ChainState
  import opened CoinbaseBlocks

  const NOBODY := CoinbaseTx(0, [0, 0], 0)

  /** The draw succeeds exactly while the best block's predecessor has hash 1. */
  const DRAW: int -> bool := h => h == 1
  const LUCKY := Easy(DRAW)

  /** All blocks are as hard to find, as proof-of-work blocks are before the first retarget. */
  function Coinbase(id: nat, h: nat, value: int): Block {
    Block(id, 0, 1000 * id, [CoinbaseTx(id, [0x50 + h, 0], value)], 1, 0)
  }

  const ROOT := Genesis(Block(0, 0, 0, [], 1, 0))
  const FIRST := Child(ROOT, Coinbase(1, 1, COIN))
  const SECOND := Child(FIRST, Coinbase(2, 2, COIN))
  /** The other branch: its first block claims what only a lucky draw allows, its last more than is ever
      allowed. */
  const OTHER1 := Child(ROOT, Coinbase(3, 1, 300 * COIN))
  const OTHER2 := Child(OTHER1, Coinbase(4, 2, COIN))
  const OTHER3 := Child(OTHER2, Coinbase(5, 3, COIN))
  const POSTPONED := Child(OTHER3, Coinbase(6, 4, 990_001 * COIN))

  ghost function NameOf(id: Txid): Tx {
    if id == 1 then FIRST.block.vtx[0]
    else if id == 2 then SECOND.block.vtx[0]
    else if id == 3 then OTHER1.block.vtx[0]
    else if id == 4 then OTHER2.block.vtx[0]
    else if id == 5 then OTHER3.block.vtx[0]
    else if id == 6 then POSTPONED.block.vtx[0]
    else NOBODY
  }

  /** The block passes every check made before it is stored. */
  ghost predicate Receivable(b: BlockIndex) {
    && b.Child? && |b.block.vtx| == 1 && CheckBlock(b.block.vtx) && Named(NameOf, b.block.vtx)
    && StartsWithHeight(b.block.vtx[0].vin[0].scriptSig, Height(b)) && b.block.nFile != NO_FILE
    && WithinLimits(MIN_BLOCK_SIZE, b.block)
  }

  lemma IsReceivable(b: BlockIndex, id: nat, h: nat, value: int)
    requires b.Child? && b.block == Coinbase(id, h, value) && Height(b) == h && 1 <= h <= 16 && MoneyRange(value)
    requires NameOf(id) == b.block.vtx[0] && id > 0
    ensures Receivable(b) && Written(b.block).Keys == {DiskTxPos(0, 1000 * id, 1000 * id + 81)}
  {
    hide CheckBlock, WithinLimits, StartsWithHeight, Written, Pos, OnDisk;
    CoinbaseChecks(b.block.vtx[0], id, [0x50 + h, 0], value);
    CoinbaseFits(MIN_BLOCK_SIZE, b.block, id, [0x50 + h, 0], value);
    SmallHeight(h);
    WrittenOut(b.block);
  }

  lemma Heights()
    ensures Height(FIRST) == Height(OTHER1) == 1 && Height(SECOND) == Height(OTHER2) == 2
    ensures Height(OTHER3) == 3 && Height(POSTPONED) == 4
    ensures ChainTrust(ROOT) == 1 && ChainTrust(FIRST) == ChainTrust(OTHER1) == 2
    ensures ChainTrust(SECOND) == ChainTrust(OTHER2) == 3 && ChainTrust(OTHER3) == 4 && ChainTrust(POSTPONED) == 5
  {
  }

  lemma AllReceivable()
    ensures Receivable(FIRST) && Receivable(SECOND) && Receivable(OTHER1) && Receivable(OTHER2)
    ensures Receivable(OTHER3) && Receivable(POSTPONED)
    ensures forall b :: b in {FIRST, SECOND, OTHER1, OTHER2, OTHER3, POSTPONED} ==>
              && |b.block.vtx| == 1
              && Written(b.block).Keys == {DiskTxPos(0, 1000 * b.block.hash, 1000 * b.block.hash + 81)}
  {
    hide Receivable;
    Heights();
    IsReceivable(FIRST, 1, 1, COIN);
    IsReceivable(SECOND, 2, 2, COIN);
    IsReceivable(OTHER1, 3, 1, 300 * COIN);
    IsReceivable(OTHER2, 4, 2, COIN);
    IsReceivable(OTHER3, 5, 3, COIN);
    IsReceivable(POSTPONED, 6, 4, 990_001 * COIN);
  }

  // ----- What each step of the run does -----------------------------------------------------------

  lemma Replays()
    ensures Replay(ROOT) == Some(map[]) && Replay(FIRST).Some? && Replay(OTHER1).Some? && Replay(OTHER2).Some?
    ensures Replay(OTHER3).Some?
  {
    CoinbaseReplays(FIRST, 1, [0x51, 0], COIN);
    CoinbaseReplays(OTHER1, 3, [0x51, 0], 300 * COIN);
    CoinbaseReplays(OTHER2, 4, [0x52, 0], COIN);
    CoinbaseReplays(OTHER3, 5, [0x53, 0], COIN);
  }

  /** Acceptance comes down to the claim. */
  lemma Claims(v: View, limit: nat, b: BlockIndex, id: nat, h: nat, value: int)
    requires b.Child? && b.block == Coinbase(id, h, value) && MoneyRange(value) && limit >= MIN_BLOCK_SIZE
    requires Replay(b.pprev).Some?
    ensures BlockAccepted(LUCKY, v, limit, Replay(b.pprev).value, b)
            <==> value <= Subsidy(LUCKY, Height(b), v.best, v.bestSupply)
  {
    hide Subsidy, BlockConnects, WithinLimits, Replay;
    CoinbaseAccepted(DRAW, v, Replay(b.pprev).value, b, id, [0x50 + h, 0], value);
    CoinbaseFits(limit, b.block, id, [0x50 + h, 0], value);
  }

  lemma {:induction false} LimitStaysUp(v: View, limit: nat, from: BlockIndex, to: BlockIndex)
    requires Ancestor(from, to) && limit >= MIN_BLOCK_SIZE
    ensures Tried(LUCKY, v, limit, from, to) >= MIN_BLOCK_SIZE
  {
    if from != to {
      LimitStaysUp(v, limit, from, to.pprev);
    }
  }

  lemma SwitchedLimit(v: View, limit: nat, b: BlockIndex, ok: bool, best: BlockIndex, valid: bool, limit': nat)
    requires Switched(LUCKY, v, limit, b, ok, best, valid, limit') && limit >= MIN_BLOCK_SIZE
    ensures limit' >= MIN_BLOCK_SIZE
  {
    hide PathAccepted, Tried;
    SwitchedByTrust(LUCKY, v, limit, b, ok, best, valid, limit');
    if ChainTrust(b) > ChainTrust(v.best) {
      var i := Intermediate(v.best, b);
      ForkIsMeet(v.best, i);
      LimitStaysUp(v, limit, Fork(v.best, i), i);
      LimitStaysUp(v, LUCKY.blockSize(i), i, b);
    }
  }

  /** A block that extends the tip and claims no more than it may. */
  lemma TipEnters(
    v: View, limit: nat, b: BlockIndex, id: nat, h: nat, ok: bool, best: BlockIndex, valid: bool, limit': nat)
    requires b.Child? && v.best == b.pprev && b.block == Coinbase(id, h, COIN) && limit >= MIN_BLOCK_SIZE
    requires v.bestSupply <= MAX_SINGLE_TX && Replay(b.pprev).Some?
    requires Switched(LUCKY, v, limit, b, ok, best, valid, limit')
    ensures ok && best == b && valid
  {
    hide BlockAccepted, PathAccepted, Tried, Replay;
    SwitchedByTrust(LUCKY, v, limit, b, ok, best, valid, limit');
    IntermediateOfChild(LUCKY, v, limit, b.pprev, b);
    Claims(v, limit, b, id, h, COIN);
  }

  lemma ForkAtRoot(a: BlockIndex, b: BlockIndex)
    requires (a == FIRST && b == OTHER2) || (a == SECOND && b == OTHER3)
    ensures Root(a) == Root(b) && Fork(a, b) == ROOT && Ancestor(ROOT, b) && Ancestor(OTHER1, b)
  {
    assert Ancestor(OTHER1, OTHER1) && Ancestor(OTHER1, OTHER2) && Ancestor(ROOT, ROOT) && Ancestor(ROOT, OTHER1);
    assert Ancestor(ROOT, OTHER2);
    assert Root(SECOND) == Root(FIRST) == ROOT && Root(OTHER3) == Root(OTHER2) == Root(OTHER1) == ROOT;
    Heights();
    assert Fork(ROOT, OTHER1) == Fork(ROOT, ROOT) == ROOT;
    assert Fork(FIRST, OTHER1) == Fork(ROOT, OTHER1);
    assert Fork(FIRST, OTHER2) == Fork(FIRST, OTHER1);
    assert Fork(SECOND, OTHER2) == Fork(FIRST, OTHER2);
    assert Fork(SECOND, OTHER3) == Fork(SECOND, OTHER2);
  }

  /** While the draw fails, 300 coins are too much. */
  lemma OtherRefused(v: View, limit: nat, b: BlockIndex, ok: bool, best: BlockIndex, valid: bool, limit': nat)
    requires v.best == FIRST && (b == OTHER2 || b == OTHER3) && limit >= MIN_BLOCK_SIZE
    requires Switched(LUCKY, v, limit, b, ok, best, valid, limit')
    ensures !ok && best == FIRST && valid
  {
    hide BlockAccepted, Tried, Replay, Fork;
    SwitchedByTrust(LUCKY, v, limit, b, ok, best, valid, limit');
    Heights();
    Replays();
    assert Intermediate(FIRST, OTHER3) == Intermediate(FIRST, OTHER2) == OTHER2;
    ForkAtRoot(FIRST, OTHER2);
    Claims(v, limit, OTHER1, 3, 1, 300 * COIN);
    PathNext(LUCKY, v, limit, ROOT, OTHER1);
    TriedStops(LUCKY, v, limit, ROOT, OTHER1, OTHER2);
  }

  /** Now the draw succeeds and 300 coins pass. */
  lemma OtherPasses(v: View, limit: nat)
    requires v.best == SECOND && v.bestSupply <= MAX_SINGLE_TX && limit >= MIN_BLOCK_SIZE
    ensures Ancestor(ROOT, OTHER3) && PathAccepted(LUCKY, v, limit, ROOT, OTHER3)
  {
    hide BlockAccepted, PathAccepted, Tried, Replay;
    Heights();
    Replays();
    assert Ancestor(ROOT, ROOT) && Ancestor(ROOT, OTHER1) && Ancestor(ROOT, OTHER2);
    NothingTried(LUCKY, v, limit, ROOT);
    Claims(v, limit, OTHER1, 3, 1, 300 * COIN);
    PathNext(LUCKY, v, limit, ROOT, OTHER1);
    Claims(v, MIN_BLOCK_SIZE, OTHER2, 4, 2, COIN);
    PathNext(LUCKY, v, limit, ROOT, OTHER2);
    Claims(v, MIN_BLOCK_SIZE, OTHER3, 5, 3, COIN);
    PathNext(LUCKY, v, limit, ROOT, OTHER3);
  }

  /** The block on top claims more than the reserve. */
  lemma PostponedRefused(v: View, limit: nat)
    requires limit >= MIN_BLOCK_SIZE
    ensures Ancestor(OTHER3, POSTPONED) && !PathAccepted(LUCKY, v, limit, OTHER3, POSTPONED)
  {
    hide BlockAccepted, PathAccepted, Tried, Replay;
    Heights();
    Replays();
    NothingTried(LUCKY, v, limit, OTHER3);
    Claims(v, limit, POSTPONED, 6, 4, 990_001 * COIN);
    PathNext(LUCKY, v, limit, OTHER3, POSTPONED);
  }

  lemma PostponedFails(v: View, limit: nat, ok: bool, best: BlockIndex, valid: bool, limit': nat)
    requires v.best == SECOND && v.bestSupply <= MAX_SINGLE_TX && limit >= MIN_BLOCK_SIZE
    requires Switched(LUCKY, v, limit, POSTPONED, ok, best, valid, limit')
    ensures ok && best == POSTPONED && !valid
  {
    hide PathAccepted, Tried, Replay, Fork;
    SwitchedByTrust(LUCKY, v, limit, POSTPONED, ok, best, valid, limit');
    Heights();
    assert Intermediate(SECOND, POSTPONED) == Intermediate(SECOND, OTHER3) == OTHER3;
    ForkAtRoot(SECOND, OTHER3);
    OtherPasses(v, limit);
    PostponedRefused(v, MIN_BLOCK_SIZE);
  }

  // ----- The run -----------------------------------------------------------------------------------

  /** A new block with a known parent, a height in front of its coinbase and a place of its own is let in. */
  method Receive(node: Node, b: BlockIndex) returns (ok: bool)
    requires node.Valid() && node.name == NameOf && node.env == LUCKY && Receivable(b)
    requires b.pprev in node.index && !Known(node.index, b.block.hash) && Written(b.block).Keys !! node.disk.Keys
    requires node.maxBlockSize >= MIN_BLOCK_SIZE
    modifies node
    ensures node.index == old(node.index) + {b} && node.disk == old(node.disk) + Written(b.block) && node.Tree()
    ensures Switched(LUCKY, View(node.disk, old(node.best), old(node.supply[node.best])), old(node.maxBlockSize), b,
                     ok, node.best, node.Valid(), node.maxBlockSize)
    ensures node.maxBlockSize >= MIN_BLOCK_SIZE
    ensures node.best == old(node.best) ==> node.supply[node.best] == old(node.supply[node.best])
    ensures old(GrownAtTip(node.env, node.disk, node.best))
            && (node.best == old(node.best) || b.pprev == old(node.best)) ==>
              GrownAtTip(node.env, node.disk, node.best)
  {
    hide Switched, CheckBlock, StartsWithHeight, GrownAtTip, Replay, LinksOf, SuppliesRight, OnDisk, Pos, Proper,
         ChainOnDisk, BlockSize, LegacySigOps;
    WrittenOut(b.block);
    OneBlock(node, b.pprev);
    var parent;
    ok, parent := node.AcceptBlock(b.block, b.pprev.block.hash, true, Written(b.block));
    assert parent == Some(b.pprev);
    SwitchedLimit(View(node.disk, old(node.best), old(node.supply[node.best])), old(node.maxBlockSize), b,
                  ok, node.best, node.Valid(), node.maxBlockSize);
  }

  lemma OneBlock(node: Node, p: BlockIndex)
    requires node.Tree() && p in node.index
    ensures forall q :: q in node.index && q.block.hash == p.block.hash ==> q == p
  {
  }

  /** The node holds these blocks, its tip was only ever extended, and every block lies at its own place. */
  ghost predicate Holds(node: Node, best: BlockIndex, blocks: set<BlockIndex>)
    reads node
  {
    && node.Valid() && node.best == best && node.env == LUCKY && node.name == NameOf
    && node.index == blocks && node.maxBlockSize >= MIN_BLOCK_SIZE
    && Placed(node.disk, blocks)
    && GrownAtTip(LUCKY, node.disk, best) && node.supply[best] <= MAX_SINGLE_TX
  }

  ghost predicate Placed(disk: Disk, blocks: set<BlockIndex>) {
    forall p :: p in disk ==> exists b :: b in blocks && p.nBlockPos == 1000 * b.block.hash
  }

  lemma PlacedMore(disk: Disk, blocks: set<BlockIndex>, b: BlockIndex)
    requires Placed(disk, blocks) && |b.block.vtx| == 1 && !Known(blocks, b.block.hash)
    requires Written(b.block).Keys == {DiskTxPos(0, 1000 * b.block.hash, 1000 * b.block.hash + 81)}
    ensures Written(b.block).Keys !! disk.Keys && Placed(disk + Written(b.block), blocks + {b})
  {
    assert b in blocks + {b};
    forall p | p in disk ensures p.nBlockPos != 1000 * b.block.hash {
      var c :| c in blocks && p.nBlockPos == 1000 * c.block.hash;
      assert c.block.hash != b.block.hash;
    }
    forall p | p in disk + Written(b.block)
      ensures exists c :: c in blocks + {b} && p.nBlockPos == 1000 * c.block.hash
    {
      if p in Written(b.block) {
        assert p.nBlockPos == 1000 * b.block.hash;
      } else {
        var c :| c in blocks && p.nBlockPos == 1000 * c.block.hash;
        assert c in blocks + {b};
      }
    }
  }

  /** A block that leaves the tip as it is. */
  method Refuse(node: Node, b: BlockIndex, ghost blocks: set<BlockIndex>)
    requires Holds(node, FIRST, blocks) && b in {OTHER1, OTHER2, OTHER3}
    requires b.pprev in blocks && !Known(blocks, b.block.hash)
    modifies node
    ensures Holds(node, FIRST, blocks + {b})
  {
    hide Switched, Receivable, GrownAtTip, Written, TreeOk, Replay, LinksOf, SuppliesRight, Placed;
    AllReceivable();
    PlacedMore(node.disk, blocks, b);
    ghost var s, limit := node.supply[FIRST], node.maxBlockSize;
    var ok := Receive(node, b);
    Undisturbed(View(node.disk, FIRST, s), limit, b, ok, node.best, node.Valid(), node.maxBlockSize);
  }

  lemma Undisturbed(v: View, limit: nat, b: BlockIndex, ok: bool, best: BlockIndex, valid: bool, limit': nat)
    requires v.best == FIRST && b in {OTHER1, OTHER2, OTHER3} && limit >= MIN_BLOCK_SIZE
    requires Switched(LUCKY, v, limit, b, ok, best, valid, limit')
    ensures best == FIRST && valid
  {
    SwitchedByTrust(LUCKY, v, limit, b, ok, best, valid, limit');
    Heights();
    if b != OTHER1 {
      OtherRefused(v, limit, b, ok, best, valid, limit');
    }
  }

  /** A block that extends the tip. */
  method Extend(node: Node, b: BlockIndex, ghost blocks: set<BlockIndex>)
    requires b in {FIRST, SECOND} && Holds(node, b.pprev, blocks) && b.pprev in blocks && !Known(blocks, b.block.hash)
    modifies node
    ensures Holds(node, b, blocks + {b})
  {
    hide Switched, Receivable, GrownAtTip, AllCovered, AllWellPlaced, Written, TreeOk, Replay, LinksOf;
    hide SuppliesRight, Placed;
    AllReceivable();
    PlacedMore(node.disk, blocks, b);
    Replays();
    ghost var s, limit := node.supply[node.best], node.maxBlockSize;
    var ok := Receive(node, b);
    TipEnters(View(node.disk, b.pprev, s), limit, b, b.block.hash, Height(b), ok, node.best, node.Valid(),
              node.maxBlockSize);
    BranchWellPlaced();
    WellPlacedBranch(LUCKY, node.disk, b);
    Heights();
    node.SupplyBound();
  }

  lemma BranchWellPlaced()
    ensures AllWellPlaced(FIRST) && AllWellPlaced(SECOND)
  {
    AllReceivable();
    assert AllWellPlaced(ROOT);
  }

  /** The shorter branch is the best one; the longer one is stored but was refused. */
  method Prepared() returns (node: Node)
    ensures fresh(node) && Holds(node, SECOND, {ROOT, FIRST, OTHER1, OTHER2, OTHER3, SECOND})
  {
    node := FirstNode();
    hide Holds;
    Refuse(node, OTHER1, {ROOT, FIRST});
    assert {ROOT, FIRST} + {OTHER1} == {ROOT, FIRST, OTHER1};
    Refuse(node, OTHER2, {ROOT, FIRST, OTHER1});
    assert {ROOT, FIRST, OTHER1} + {OTHER2} == {ROOT, FIRST, OTHER1, OTHER2};
    Refuse(node, OTHER3, {ROOT, FIRST, OTHER1, OTHER2});
    assert {ROOT, FIRST, OTHER1, OTHER2} + {OTHER3} == {ROOT, FIRST, OTHER1, OTHER2, OTHER3};
    Extend(node, SECOND, {ROOT, FIRST, OTHER1, OTHER2, OTHER3});
    assert {ROOT, FIRST, OTHER1, OTHER2, OTHER3} + {SECOND} == {ROOT, FIRST, OTHER1, OTHER2, OTHER3, SECOND};
  }

  method FirstNode() returns (node: Node)
    ensures fresh(node) && Holds(node, FIRST, {ROOT, FIRST})
  {
    hide GrownAtTip, TreeOk, Replay, LinksOf, SuppliesRight;
    node := new Node(LUCKY, ROOT.block, NameOf);
    Extend(node, FIRST, {ROOT});
  }

  /** The hypothesis that every postponed block is accepted cannot be dropped: this run of six received
      blocks ends with a tip that was never connected. */
  method PostponedBlockFails() returns (node: Node)
    ensures node.best == POSTPONED && node.Tree() && !node.Valid()
  {
    hide Switched, Receivable, Written, TreeOk, Replay, LinksOf, SuppliesRight, Placed, GrownAtTip;
    node := Prepared();
    AllReceivable();
    PlacedMore(node.disk, node.index, POSTPONED);
    ghost var s, limit := node.supply[SECOND], node.maxBlockSize;
    var ok := Receive(node, POSTPONED);
    PostponedFails(View(node.disk, SECOND, s), limit, ok, node.best, node.Valid(), node.maxBlockSize);
  }
}
