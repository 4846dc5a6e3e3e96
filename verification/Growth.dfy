/** Block files only grow: what was accepted, stored and counted before stays so. */
module Growth {
  import opened Ledger
  import opened Supply
  import opened Connect
  import opened BlockConnect
  import opened Blocks
  import opened Emission

  ghost predicate Extends(d: Disk, d': Disk) {
    forall p :: p in d ==> p in d' && d'[p] == d[p]
  }

  lemma {:induction false} ChainStaysOnDisk(d: Disk, d': Disk, b: BlockIndex)
    requires Extends(d, d') && ChainOnDisk(d, b)
    ensures ChainOnDisk(d', b)
  {
    if b.Child? {
      ChainStaysOnDisk(d, d', b.pprev);
    }
  }

  lemma SupplyStable(d: Disk, d': Disk, b: BlockIndex)
    requires Extends(d, d') && ChainOnDisk(d, b)
    ensures SupplyAt(b, d') == SupplyAt(b, d)
  {
    if Replay(b).Some? {
      var idx := Replay(b).value;
      ReplayWellFormed(b, d);
      Sums.SumExt(idx.Keys, h => EntryValue(idx, d', h), h => EntryValue(idx, d, h));
    }
  }

  // ----- Acceptance ---------------------------------------------------------------------------------

  lemma LookupStable(d: Disk, d': Disk, idx: Index, h: Txid)
    requires Extends(d, d') && Stored(idx, d)
    ensures Lookup(idx, Source(d, map[]), map[], BlockMode, h) == Lookup(idx, Source(d', map[]), map[], BlockMode, h)
  {
  }

  lemma {:induction false} FoundStable(d: Disk, d': Disk, idx: Index, vin: seq<TxIn>, n: nat)
    requires Extends(d, d') && Stored(idx, d) && n <= |vin|
    ensures AllFound(idx, Source(d, map[]), map[], BlockMode, vin, n)
         == AllFound(idx, Source(d', map[]), map[], BlockMode, vin, n)
  {
    if n > 0 {
      FoundStable(d, d', idx, vin, n - 1);
      LookupStable(d, d', idx, vin[n - 1].prevout.hash);
    }
  }

  lemma PrevStable(d: Disk, d': Disk, idx: Index, tx: Tx)
    requires Extends(d, d') && Stored(idx, d)
    ensures Prev(Source(d, map[]), idx, tx) == Prev(Source(d', map[]), idx, tx)
  {
    hide Lookup;
    forall h
      ensures Lookup(idx, Source(d, map[]), map[], BlockMode, h) == Lookup(idx, Source(d', map[]), map[], BlockMode, h)
    {
      LookupStable(d, d', idx, h);
    }
  }

  lemma OneStable(r: Rules, d: Disk, d': Disk, state: (Index, Tally), tx: Tx, p: DiskTxPos)
    requires Extends(d, d') && Stored(state.0, d)
    ensures AcceptOne(r, Source(d, map[]), state, tx, p) == AcceptOne(r, Source(d', map[]), state, tx, p)
  {
    hide Prev, AllFound, ConnectPasses, ConnectTx;
    FoundStable(d, d', state.0, tx.vin, |tx.vin|);
    PrevStable(d, d', state.0, tx);
  }

  lemma {:induction false} AcceptStable(r: Rules, d: Disk, d': Disk, idx: Index, txs: seq<Tx>, pos: seq<DiskTxPos>)
    requires Extends(d, d') && Stored(idx, d) && OnDisk(d, txs, pos)
    ensures Accept(r, Source(d, map[]), idx, txs, pos) == Accept(r, Source(d', map[]), idx, txs, pos)
  {
    hide AcceptOne;
    if txs != [] {
      var n := |txs| - 1;
      AcceptStable(r, d, d', idx, txs[..n], pos[..n]);
      var before := Accept(r, Source(d, map[]), idx, txs[..n], pos[..n]);
      if before.Some? {
        AcceptConnects(r, Source(d, map[]), idx, txs[..n], pos[..n]);
        ConnectTxsStored(idx, d, txs[..n], pos[..n]);
        OneStable(r, d, d', before.value, txs[n], pos[n]);
      }
    }
  }

  lemma CoinAgeStable(d: Disk, d': Disk, idx: Index, tx: Tx)
    requires Extends(d, d') && Stored(idx, d)
    ensures CoinAgeOk(idx, d, tx) == CoinAgeOk(idx, d', tx)
  {
    forall i | 0 <= i < |tx.vin|
      ensures Readable(idx, d, tx.vin[i].prevout) == Readable(idx, d', tx.vin[i].prevout)
      ensures Readable(idx, d, tx.vin[i].prevout) ==>
                d[idx[tx.vin[i].prevout.hash].pos] == d'[idx[tx.vin[i].prevout.hash].pos]
    {
    }
  }

  lemma ConnectsStable(env: Env, d: Disk, d': Disk, b: BlockIndex, best: BlockIndex, supply: int)
    requires Extends(d, d') && ChainOnDisk(d, b) && Connects(env, View(d, best, supply), b)
    ensures Connects(env, View(d', best, supply), b)
  {
    hide CheckBlock, Accept, CoinAgeOk;
    var idx := Replay(b.pprev).value;
    ReplayWellFormed(b.pprev, d);
    AcceptStable(RulesFor(env, b), d, d', idx, b.block.vtx, Pos(b.block));
    if ProofOfStake(b.block.vtx) {
      CoinAgeStable(d, d', idx, b.block.vtx[1]);
    }
  }

  /** A branch grown at the tip stays one while the block files grow. */
  lemma {:induction false} GrownStays(env: Env, d: Disk, d': Disk, b: BlockIndex)
    requires Extends(d, d') && ChainOnDisk(d, b) && GrownAtTip(env, d, b)
    ensures GrownAtTip(env, d', b)
  {
    hide Connects, SupplyAt;
    if b.Child? {
      GrownStays(env, d, d', b.pprev);
      SupplyStable(d, d', b.pprev);
      ConnectsStable(env, d, d', b, b.pprev, SupplyAt(b.pprev, d));
    }
  }
}
