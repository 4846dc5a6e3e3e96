/** What the coinbase rule of AcceptBlock keeps out: a block that repeats a coinbase connects, but cannot
    be undone. */
module RepeatedCoinbase {
  import opened Ledger
  import opened Connect
  import opened Blocks
  import opened Freshness
  import opened CoinbaseBlocks

  const SAME := CoinbaseTx(1, [0x51, 0], COIN)
  const ROOT := Genesis(Block(0, 0, 0, [], 1, 0))
  const FIRST := Child(ROOT, Block(1, 0, 1000, [SAME], 1, 0))
  const AGAIN := Child(FIRST, Block(2, 0, 2000, [SAME], 1, 0))

  lemma Replays()
    ensures Replay(FIRST) == Some(map[1 := TxIndex(Pos(FIRST.block)[0], Unspents(1))])
    ensures Replay(AGAIN) == Some(map[1 := TxIndex(Pos(AGAIN.block)[0], Unspents(1))])
  {
    assert Replay(ROOT) == Some(map[]);
    CoinbaseReplays(FIRST, 1, [0x51, 0], COIN);
    CoinbaseReplays(AGAIN, 1, [0x51, 0], COIN);
    var x, y := TxIndex(Pos(FIRST.block)[0], Unspents(1)), TxIndex(Pos(AGAIN.block)[0], Unspents(1));
    assert map[1 := x][1 := y] == map[1 := y];
  }

  /** ConnectBlock accepts the second block whatever it is judged by; disconnecting it does not give the
      first block's index back. AcceptBlock's rule refuses it. */
  lemma RepeatNotUndone(v: View, limit: nat)
    requires limit >= MIN_BLOCK_SIZE
    ensures Replay(FIRST).Some? && BlockAccepted(Easy(h => false), v, limit, Replay(FIRST).value, AGAIN)
    ensures Replay(AGAIN).Some? && DisconnectTxs(Replay(AGAIN).value, AGAIN.block.vtx) != Replay(FIRST)
    ensures !StartsWithHeight(SAME.vin[0].scriptSig, Height(AGAIN))
  {
    Replays();
    CoinbaseAccepted(h => false, v, Replay(FIRST).value, AGAIN, 1, [0x51, 0], COIN);
    CoinbaseFits(limit, AGAIN.block, 1, [0x51, 0], COIN);
    DisconnectedIsEmpty(Replay(AGAIN).value);
    SmallHeight(1);
    if StartsWithHeight(SAME.vin[0].scriptSig, Height(AGAIN)) {
      OneHeight(SAME.vin[0].scriptSig, 1, Height(AGAIN));
    }
  }

  lemma DisconnectedIsEmpty(idx: Index)
    requires idx.Keys == {1}
    ensures DisconnectTxs(idx, AGAIN.block.vtx) == Some(map[])
  {
    var txs := AGAIN.block.vtx;
    assert txs[..0] == [] && txs[0].IsCoinBase();
    assert idx - {1} == map[];
  }
}
