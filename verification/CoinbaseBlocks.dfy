/** Blocks that hold a coinbase and nothing else. */
module CoinbaseBlocks {
  import opened Ledger
  import opened Supply
  import opened Connect
  import opened BlockConnect
  import opened Blocks
  import opened Freshness
  import opened Digits

  function CoinbaseTx(id: Txid, script: Script, value: int): Tx {
    Tx(id, 0, [TxIn(OutPoint(0, 0xFFFF_FFFF), script)], [TxOut(value, [1])], 100, 0)
  }

  /** An environment in which every check outside the model passes and blocks stay small. */
  function Easy(superblock: int -> bool): Env {
    Env((p, t, i) => true, (t, m) => 0, b => MIN_BLOCK_SIZE, b => true, superblock)
  }

  lemma CoinbaseChecks(tx: Tx, id: Txid, script: Script, value: int)
    requires tx == CoinbaseTx(id, script, value) && MoneyRange(value) && 2 <= |script| <= 100
    ensures CheckBlock([tx]) && tx.IsCoinBase() && ValueOut(tx.vout) == value && !ProofOfStake([tx])
  {
    assert tx.vout[..0] == [];
    assert ValueOut(tx.vout) == value;
    assert ValuesInRange(tx.vout[..0]) && ValuesInRange(tx.vout);
    assert CheckTransaction(tx);
  }

  lemma SmallHeight(h: nat)
    requires 1 <= h <= 16
    ensures StartsWithHeight([0x50 + h, 0], h)
  {
    OneByte(h);
    assert [0x50 + h] == [0x50 + h, 0][..1];
  }

  /** A number below 128 is its own byte. */
  lemma OneByte(h: nat)
    requires 1 <= h < 128
    ensures Compact.GetVch(h) == [h]
  {
    hide Shortest;
    assert Value(256, [h]) == h by {
      assert [h][..0] == [];
    }
    Unique(256, Shortest(256, h), [h]);
    assert Compact.ToMpi(h) == [h];
  }

  /** Such a block is accepted exactly when its coinbase is within the subsidy. */
  lemma CoinbaseAccepted(
    superblock: int -> bool, v: View, idx: Index, b: BlockIndex, id: Txid, script: Script, value: int)
    requires b.block.vtx == [CoinbaseTx(id, script, value)] && MoneyRange(value) && 2 <= |script| <= 100
    ensures BlockConnects(Easy(superblock), v, idx, b)
            <==> value <= Subsidy(Easy(superblock), Height(b), v.best, v.bestSupply)
    ensures Checked(Easy(superblock), v, idx, b).Some?
    ensures Checked(Easy(superblock), v, idx, b).value.0 == Enter(idx, b.block.vtx[0], Pos(b.block)[0])
  {
    hide Subsidy, CheckBlock;
    var env, txs, pos := Easy(superblock), b.block.vtx, Pos(b.block);
    CoinbaseChecks(txs[0], id, script, value);
    assert txs[..0] == [] && pos[..0] == [];
    assert Accept(RulesFor(env, b), Source(v.disk, map[]), idx, txs[..0], pos[..0]) == Some((idx, NO_TALLY));
  }

  /** It is within any limit there may be. */
  lemma CoinbaseFits(limit: nat, block: Block, id: Txid, script: Script, value: int)
    requires block.vtx == [CoinbaseTx(id, script, value)] && block.sigSize == 0 && limit >= MIN_BLOCK_SIZE
    ensures WithinLimits(limit, block)
  {
    var txs := block.vtx;
    assert txs[..0] == [] && |txs| == 1 && txs[0].size == 100 && txs[0].legacySigOps == 0;
    assert SizeOf(txs[..0]) == 0 && LegacySigOps(txs[..0]) == 0;
    assert SizeOf(txs) == SizeOf(txs[..0]) + 100 && LegacySigOps(txs) == LegacySigOps(txs[..0]) + 0;
  }

  lemma CoinbaseReplays(b: BlockIndex, id: Txid, script: Script, value: int)
    requires b.Child? && b.block.vtx == [CoinbaseTx(id, script, value)] && Replay(b.pprev).Some?
    ensures Replay(b) == Some(Enter(Replay(b.pprev).value, b.block.vtx[0], Pos(b.block)[0]))
  {
    var txs, pos, idx := b.block.vtx, Pos(b.block), Replay(b.pprev).value;
    assert txs[..0] == [] && pos[..0] == [];
    assert ConnectTxs(idx, txs[..0], pos[..0]) == Some(idx);
    assert txs[0].IsCoinBase();
  }

  /** What the block files gain when such a block is written. */
  function Written(block: Block): Disk
    requires |block.vtx| == 1
  {
    map[Pos(block)[0] := block.vtx[0]]
  }

  lemma WrittenOut(block: Block)
    requires |block.vtx| == 1 && block.nFile != NO_FILE
    ensures OnDisk(Written(block), block.vtx, Pos(block))
    ensures Written(block).Keys == {DiskTxPos(block.nFile, block.nBlockPos, block.nBlockPos + 81)}
  {
    var txs := block.vtx;
    assert txs[..0] == [];
    assert SizeOf(txs[..0]) == 0;
    PosProper(block);
  }
}
