/** A block mined within the miner's own limits that the validator refuses: the miner's limits stay what
    they are at first, the validator's follow the blocks. */
module Oversized {
  import opened Ledger
  import opened Supply
  import opened Connect
  import opened BlockConnect
  import opened Blocks
  import opened Miner
  import opened BlockAssembly
  import opened MinedBlock
  import opened CoinbaseBlocks
  import opened StrayCoinstake

  /** The default configuration: blocks of up to a quarter of the largest. */
  const DEFAULT := Config(MAX_BLOCK_SIZE / 2 / 2, 50_000, 0, 10_000, 0, false, 0)

  /** A transaction of nearly the smallest maximum, which spends the first coinbase. */
  const LARGE := Tx(1001, 0, [TxIn(OutPoint(1, 0), [])], [TxOut(COIN, [1])], MIN_BLOCK_SIZE - 10, 0)
  const REWARD := CoinbaseTx(LENGTH + 1, [1, LENGTH + 1], RESERVE_REWARD)
  const MINED := Child(Line(LENGTH), Block(2000, 0, 1000 * (LENGTH + 1), [REWARD, LARGE], 1, 0))

  ghost function LineIndex(): (idx: Index)
    ensures Holds(idx, LENGTH)
  {
    LineReplays(LENGTH);
    Replay(Line(LENGTH)).value
  }

  /** What the miner sees on top of the branch, with its own limit of signature operations. */
  ghost function Sight(): Context {
    Context(RulesFor(ENV, Line(LENGTH)).(maxSigOps := MaxSigOps(MAX_BLOCK_SIZE)),
            Source(LineDisk(LENGTH), map[1001 := LARGE]), LineIndex(), tx => true, p => 0)
  }

  /** The block files with the mined block. */
  ghost function Files(): Disk {
    LineDisk(LENGTH)[DiskTxPos(0, 25000, 25081) := REWARD][DiskTxPos(0, 25000, 25181) := LARGE]
  }

  ghost function Chosen(): Draft {
    Draft([LARGE], Enter(Mark(LineIndex(), OutPoint(1, 0), POOL_POS), LARGE, POOL_POS),
          RESERVED_SIZE + LARGE.size, RESERVED_SIGOPS, 0)
  }

  lemma LargeAccepted()
    ensures TxAccepted(Sight().r, Sight().src, LineIndex(), LARGE, POOL_POS)
    ensures PaidIn(Prev(Sight().src, LineIndex(), LARGE), LARGE.vin) == COIN && ValueOut(LARGE.vout) == COIN
    ensures ConnectTx(LineIndex(), LARGE, POOL_POS)
         == Some(Enter(Mark(LineIndex(), OutPoint(1, 0), POOL_POS), LARGE, POOL_POS))
  {
    hide TxAccepted, ConnectTx, Prev, PaidIn, LineDisk, Line;
    LineReplays(LENGTH);
    LineDiskHas(LENGTH);
    Matures(LENGTH, COINBASE_MATURITY, 1);
    OneOut(LARGE.vout[0]);
    SpendsOne(Sight().r, Sight().src, LineIndex(), LARGE, POOL_POS, 1);
  }

  lemma ChosenDrafted()
    ensures Drafted(Sight(), Chosen()) && WithinBudget(Sight(), DEFAULT, Chosen())
    ensures FromPool(Sight(), Chosen().chosen) && DistinctIds(Chosen().chosen)
  {
    hide TxAccepted, ConnectTx, Prev, PaidIn, LineDisk, LineIndex, Line, ValueOut;
    LargeAccepted();
    var c, d := Sight(), Chosen();
    var txs, pos := d.chosen, PoolPositions(1);
    assert txs[..0] == [] && pos[..0] == [];
    assert Accept(c.r, c.src, c.db, txs[..0], pos[..0]) == Some((c.db, NO_TALLY));
    assert c.db + d.testPool == d.testPool;
    assert SizeOf(txs) == LARGE.size;
  }

  lemma PoolReady()
    ensures PoolConnects(Sight())
  {
    hide LineDisk, LineIndex, Line;
    LineDiskHas(LENGTH);
    assert Readable(LineIndex(), LineDisk(LENGTH), OutPoint(1, 0));
  }

  lemma MinedPos()
    ensures Pos(MINED.block) == [DiskTxPos(0, 25000, 25081), DiskTxPos(0, 25000, 25181)]
  {
    var txs := MINED.block.vtx;
    assert txs[..0] == [] && txs[..1] == [REWARD] && txs[..1][..0] == [];
    assert SizeOf(txs[..1]) == 100;
    PositionAt(0, 25000, 25081, txs, 0);
    PositionAt(0, 25000, 25081, txs, 1);
  }

  lemma TxsCheck()
    ensures CheckTransaction(REWARD) && CheckTransaction(LARGE) && REWARD.IsCoinBase()
    ensures ValueOut(REWARD.vout) == RESERVE_REWARD
  {
    CoinbaseChecks(REWARD, LENGTH + 1, [1, LENGTH + 1], RESERVE_REWARD);
    assert [REWARD][0] == REWARD;
    InRange1(LARGE.vout[0]);
  }

  lemma IsMined()
    ensures Mined(ENV, Sight(), Chosen(), Files(), LENGTH * COIN, MINED)
  {
    hide CheckTransaction, ValueOut, Replay, Line, LineDisk, Mark, Pos;
    LineShape(LENGTH);
    LineReplays(LENGTH);
    LineDiskHas(LENGTH);
    LineOnDisk(LineDisk(LENGTH), LENGTH);
    MinedPos();
    TxsCheck();
    assert MINED.block.vtx[1..] == [LARGE];
  }

  /** The miner kept within its limits of 5,128,000 bytes and 410,240 signature operations; the validator's
      are 2,051,200 bytes and 41,024 operations, so the block is refused. */
  lemma MinedBlockRefused()
    ensures Mined(ENV, Sight(), Chosen(), Files(), LENGTH * COIN, MINED) && PoolConnects(Sight())
    ensures Drafted(Sight(), Chosen()) && WithinBudget(Sight(), DEFAULT, Chosen())
    ensures FromPool(Sight(), Chosen().chosen) && DistinctIds(Chosen().chosen)
    ensures DEFAULT.MaxSize() == 5_128_000 && Sight().r.maxSigOps == 410_240
    ensures ENV.blockSize(MINED.pprev) == ENV.blockSize(MINED) == 2_051_200 && ENV.otherChecks(MINED.block)
    ensures !BlockAccepted(ENV, View(Files(), MINED.pprev, LENGTH * COIN), ENV.blockSize(MINED.pprev),
                           Sight().db, MINED)
  {
    hide Mined, Drafted, PoolConnects, FromPool, BlockAccepted, LineDisk, Line;
    IsMined();
    PoolReady();
    ChosenDrafted();
    MinedBlockAccepted(ENV, Sight(), Chosen(), Files(), LENGTH * COIN, ENV.blockSize(MINED.pprev), MINED);
  }
}
