/** Connecting all transactions of a block: acceptance, effect on the index, and the running
    totals that feed the reward check and the money supply. */
module BlockConnect {
  import opened Ledger
  import opened Supply
  import opened Connect

  /** The totals ConnectBlock keeps while it walks the transactions. */
  datatype Tally = Tally(fees: int, valueIn: int, valueOut: int, stakeReward: int, sigOps: nat)

  const NO_TALLY := Tally(0, 0, 0, 0, 0)

  // ----- One transaction --------------------------------------------------------------

  /** The previous transactions of `tx` as the index and the block files give them. */
  function Prev(src: Source, idx: Index, tx: Tx): PrevTxs {
    Fetched(idx, src, map[], BlockMode, Hashes(tx.vin))
  }

  ghost predicate TxAccepted(r: Rules, src: Source, idx: Index, tx: Tx, p: DiskTxPos) {
    tx.IsCoinBase() ||
    (&& AllFound(idx, src, map[], BlockMode, tx.vin, |tx.vin|)
     && AllFit(Prev(src, idx, tx), tx.vin, |tx.vin|)
     && ConnectPasses(r, tx, Prev(src, idx, tx), p))
  }

  function AddSpending(tx: Tx, t: Tally, inp: int, sigs: nat): Tally {
    var out := ValueOut(tx.vout);
    Tally(
      if tx.IsCoinStake() then t.fees else t.fees + inp - out,
      t.valueIn + inp,
      t.valueOut + out,
      if tx.IsCoinStake() then out - inp else t.stakeReward,
      t.sigOps + tx.legacySigOps + sigs)
  }

  function AddTx(r: Rules, src: Source, idx: Index, tx: Tx, t: Tally): Tally {
    if tx.IsCoinBase() then
      t.(valueOut := t.valueOut + ValueOut(tx.vout), sigOps := t.sigOps + tx.legacySigOps)
    else
      AddSpending(tx, t, PaidIn(Prev(src, idx, tx), tx.vin), r.p2shSigOps(tx, Txs(Prev(src, idx, tx))))
  }

  lemma LookupView(db: Index, src: Source, queued: Index, h: Txid)
    ensures Lookup(db, src, queued, BlockMode, h) == Lookup(db + queued, src, map[], BlockMode, h)
  {
  }

  lemma {:induction false} FoundView(db: Index, src: Source, queued: Index, vin: seq<TxIn>, n: nat)
    requires n <= |vin|
    ensures AllFound(db, src, queued, BlockMode, vin, n) == AllFound(db + queued, src, map[], BlockMode, vin, n)
  {
    if n > 0 {
      FoundView(db, src, queued, vin, n - 1);
      LookupView(db, src, queued, vin[n - 1].prevout.hash);
    }
  }

  lemma FetchedView(db: Index, src: Source, queued: Index, hs: set<Txid>)
    ensures Fetched(db, src, queued, BlockMode, hs) == Fetched(db + queued, src, map[], BlockMode, hs)
  {
    forall h ensures Lookup(db, src, queued, BlockMode, h) == Lookup(db + queued, src, map[], BlockMode, h) {
      LookupView(db, src, queued, h);
    }
  }

  lemma {:induction false} FoundKeys(idx: Index, src: Source, vin: seq<TxIn>, n: nat)
    requires n <= |vin| && AllFound(idx, src, map[], BlockMode, vin, n)
    ensures Fetched(idx, src, map[], BlockMode, Hashes(vin[..n])).Keys == Hashes(vin[..n])
  {
    if n > 0 {
      FoundKeys(idx, src, vin, n - 1);
      HashesStep(vin, n - 1);
      FetchedAdd(idx, src, map[], BlockMode, Hashes(vin[..n - 1]), vin[n - 1].prevout.hash);
    }
  }

  /** The fetched entries are the index's own. */
  lemma MarksOfPrev(src: Source, idx: Index, tx: Tx)
    ensures forall h :: h in Marks(Prev(src, idx, tx)) ==> h in idx && Marks(Prev(src, idx, tx))[h] == idx[h]
  {
  }

  /** Spending against part of an index that holds every entry concerned is spending against the whole. */
  lemma {:induction false} SpendAllFrame(big: Index, small: Index, vin: seq<TxIn>, p: DiskTxPos)
    requires forall h :: h in small ==> h in big && small[h] == big[h]
    requires Hashes(vin) <= small.Keys
    ensures SpendAll(big, vin, p).Some? <==> SpendAll(small, vin, p).Some?
    ensures SpendAll(big, vin, p).Some? ==> SpendAll(big, vin, p).value == big + SpendAll(small, vin, p).value
  {
    if vin == [] {
      MergeSub(big, small);
    } else {
      SpendAllFrame(big, small, vin[..|vin| - 1], p);
      if SpendAll(small, vin[..|vin| - 1], p).Some? {
        SpendAllShape(small, vin[..|vin| - 1], p);
        MarkFrame(big, SpendAll(small, vin[..|vin| - 1], p).value, vin[|vin| - 1].prevout, p);
      }
    }
  }

  lemma MergeSub(big: Index, small: Index)
    requires forall h :: h in small ==> h in big && small[h] == big[h]
    ensures big + small == big
  {
    forall h | h in small.Keys ensures h in big.Keys {
      assert small[h] == big[h];
    }
    assert small.Keys <= big.Keys;
    var m := big + small;
    assert m.Keys == big.Keys;
    forall h | h in big ensures m[h] == big[h] {
      if h in small {
        assert m[h] == small[h];
      }
    }
  }

  lemma MarkFrame(big: Index, part: Index, o: OutPoint, p: DiskTxPos)
    requires o.hash in part
    ensures CanSpend(big + part, o) <==> CanSpend(part, o)
    ensures CanSpend(part, o) ==> Mark(big + part, o, p) == big + Mark(part, o, p)
  {
  }

  /** Connecting one transaction over pending changes: accepted exactly when every check passes,
      and then index-with-pending-changes moves by the effect of the transaction. */
  method ConnectOne(r: Rules, src: Source, db: Index, queued: Index, tx: Tx, p: DiskTxPos, t: Tally)
    returns (ok: bool, queued': Index, t': Tally)
    ensures ok <==> AcceptOne(r, src, (db + queued, t), tx, p).Some?
    ensures ok ==> AcceptOne(r, src, (db + queued, t), tx, p) == Some((db + queued', t'))
  {
    queued', t' := queued, t;
    if t.sigOps + tx.legacySigOps > r.maxSigOps {
      return false, queued', t';
    }
    if tx.IsCoinBase() {
      t' := t.(valueOut := t.valueOut + ValueOut(tx.vout), sigOps := t.sigOps + tx.legacySigOps);
    } else {
      var inp, sigs;
      ok, queued', inp, sigs := ConnectSpending(r, src, db, queued, tx, p, t.sigOps + tx.legacySigOps);
      if !ok {
        return false, queued', t';
      }
      t' := AddSpending(tx, t, inp, sigs);
    }
    EnterOver(db, queued', tx, p);
    queued' := Enter(queued', tx, p);
    ok := true;
  }

  lemma EnterOver(db: Index, queued: Index, tx: Tx, p: DiskTxPos)
    ensures Enter(db + queued, tx, p) == db + Enter(queued, tx, p)
  {
  }

  method ConnectSpending(r: Rules, src: Source, db: Index, queued: Index, tx: Tx, p: DiskTxPos, sigOps: nat)
    returns (ok: bool, queued': Index, inp: int, sigs: nat)
    requires !tx.IsCoinBase()
    ensures ok <==>
              && TxAccepted(r, src, db + queued, tx, p)
              && sigOps + r.p2shSigOps(tx, Txs(Prev(src, db + queued, tx))) <= r.maxSigOps
    ensures ok ==> SpendAll(db + queued, tx.vin, p) == Some(db + queued')
    ensures ok ==> inp == PaidIn(Prev(src, db + queued, tx), tx.vin)
    ensures ok ==> sigs == r.p2shSigOps(tx, Txs(Prev(src, db + queued, tx)))
  {
    queued', inp, sigs := queued, 0, 0;
    var inputs;
    ok, inputs := FetchForBlock(src, db, queued, tx);
    if !ok {
      return;
    }
    sigs := r.p2shSigOps(tx, Txs(inputs));
    if sigOps + sigs > r.maxSigOps {
      return false, queued', inp, sigs;
    }
    inp := GetValueIn(tx, inputs);
    ok, queued' := ConnectInputs(r, tx, inputs, queued, p, BlockMode);
    if ok {
      SpendOver(src, db, queued, tx, p);
    }
  }

  method FetchForBlock(src: Source, db: Index, queued: Index, tx: Tx) returns (ok: bool, inputs: PrevTxs)
    requires !tx.IsCoinBase()
    ensures ok <==>
              && AllFound(db + queued, src, map[], BlockMode, tx.vin, |tx.vin|)
              && AllFit(Prev(src, db + queued, tx), tx.vin, |tx.vin|)
    ensures ok ==> inputs == Prev(src, db + queued, tx) && inputs.Keys == Hashes(tx.vin)
  {
    FoundView(db, src, queued, tx.vin, |tx.vin|);
    FetchedView(db, src, queued, Hashes(tx.vin));
    var invalid;
    ok, inputs, invalid := FetchInputs(db, src, queued, BlockMode, tx);
    if ok {
      PrevKeys(src, db + queued, tx);
    }
  }

  lemma PrevKeys(src: Source, idx: Index, tx: Tx)
    requires AllFound(idx, src, map[], BlockMode, tx.vin, |tx.vin|)
    ensures Prev(src, idx, tx).Keys == Hashes(tx.vin)
  {
    FoundKeys(idx, src, tx.vin, |tx.vin|);
    assert tx.vin[..|tx.vin|] == tx.vin;
  }

  lemma SpendOver(src: Source, db: Index, queued: Index, tx: Tx, p: DiskTxPos)
    requires AllFound(db + queued, src, map[], BlockMode, tx.vin, |tx.vin|)
    requires SpendAll(Marks(Prev(src, db + queued, tx)), tx.vin, p).Some?
    ensures SpendAll(db + queued, tx.vin, p)
            == Some(db + (queued + SpendAll(Marks(Prev(src, db + queued, tx)), tx.vin, p).value))
  {
    var m := Marks(Prev(src, db + queued, tx));
    PrevKeys(src, db + queued, tx);
    MarksOfPrev(src, db + queued, tx);
    SpendAllFrame(db + queued, m, tx.vin, p);
    MergeAssoc(db, queued, SpendAll(m, tx.vin, p).value);
  }

  lemma MergeAssoc(a: Index, b: Index, c: Index)
    ensures (a + b) + c == a + (b + c)
  {
  }

  method GetValueIn(tx: Tx, inputs: PrevTxs) returns (total: int)
    ensures total == PaidIn(inputs, tx.vin)
  {
    total := 0;
    for i := 0 to |tx.vin|
      invariant total == PaidIn(inputs, tx.vin[..i])
    {
      PaidInStep(inputs, tx.vin, i);
      total := total + PaidBy(inputs, tx.vin[i].prevout);
    }
    assert tx.vin[..|tx.vin|] == tx.vin;
  }

  /** Accepted transactions have an effect on the index. */
  lemma AcceptedConnects(r: Rules, src: Source, idx: Index, tx: Tx, p: DiskTxPos)
    requires TxAccepted(r, src, idx, tx, p)
    ensures ConnectTx(idx, tx, p).Some?
  {
    if !tx.IsCoinBase() {
      assert idx + map[] == idx;
      SpendOver(src, idx, map[], tx, p);
    }
  }

  // ----- All transactions ---------------------------------------------------------------

  function SizeOf(txs: seq<Tx>): int {
    if txs == [] then 0 else SizeOf(txs[..|txs| - 1]) + txs[|txs| - 1].size
  }

  /** Where the transactions of a block lie on disk: one after the other from `start` on. */
  function Positions(nFile: int, nBlockPos: int, start: int, txs: seq<Tx>): (pos: seq<DiskTxPos>)
    ensures |pos| == |txs|
    ensures forall i :: 0 <= i < |pos| ==> pos[i].nFile == nFile && pos[i].nBlockPos == nBlockPos
  {
    if txs == [] then []
    else
      var f := txs[..|txs| - 1];
      Positions(nFile, nBlockPos, start, f) + [DiskTxPos(nFile, nBlockPos, start + SizeOf(f))]
  }

  lemma {:induction false} PositionsPrefix(nFile: int, nBlockPos: int, start: int, txs: seq<Tx>, k: nat)
    requires k <= |txs|
    ensures Positions(nFile, nBlockPos, start, txs)[..k] == Positions(nFile, nBlockPos, start, txs[..k])
    decreases |txs|
  {
    if k == |txs| {
      assert txs[..k] == txs;
    } else {
      PositionsPrefix(nFile, nBlockPos, start, txs[..|txs| - 1], k);
      assert txs[..|txs| - 1][..k] == txs[..k];
    }
  }

  /** Index and totals after a list of transactions, if each is accepted against the index its
      predecessors leave. */
  ghost function Accept(r: Rules, src: Source, db: Index, txs: seq<Tx>, pos: seq<DiskTxPos>): Option<(Index, Tally)>
    requires |txs| == |pos|
  {
    if txs == [] then Some((db, NO_TALLY))
    else
      var n := |txs| - 1;
      var before := Accept(r, src, db, txs[..n], pos[..n]);
      if before.Some? then AcceptOne(r, src, before.value, txs[n], pos[n]) else None
  }

  ghost function AcceptOne(r: Rules, src: Source, state: (Index, Tally), tx: Tx, p: DiskTxPos): Option<(Index, Tally)> {
    var t := AddTx(r, src, state.0, tx, state.1);
    if TxAccepted(r, src, state.0, tx, p) && t.sigOps <= r.maxSigOps then
      AcceptedConnects(r, src, state.0, tx, p);
      Some((ConnectTx(state.0, tx, p).value, t))
    else None
  }

  lemma AcceptNone(r: Rules, src: Source, db: Index, txs: seq<Tx>, pos: seq<DiskTxPos>)
    ensures Accept(r, src, db, txs[..0], pos[..0]) == Some((db + map[], NO_TALLY))
  {
    assert db + map[] == db;
  }

  lemma {:induction false} AcceptPrefix(r: Rules, src: Source, db: Index, txs: seq<Tx>, pos: seq<DiskTxPos>, k: nat)
    requires |txs| == |pos| && k <= |txs| && Accept(r, src, db, txs, pos).Some?
    ensures Accept(r, src, db, txs[..k], pos[..k]).Some?
    decreases |txs|
  {
    if k == |txs| {
      assert txs[..k] == txs && pos[..k] == pos;
    } else {
      var n := |txs| - 1;
      AcceptPrefix(r, src, db, txs[..n], pos[..n], k);
      assert txs[..n][..k] == txs[..k] && pos[..n][..k] == pos[..k];
    }
  }

  lemma AcceptStep(r: Rules, src: Source, db: Index, txs: seq<Tx>, pos: seq<DiskTxPos>, k: nat)
    requires |txs| == |pos| && k < |txs| && Accept(r, src, db, txs[..k], pos[..k]).Some?
    ensures Accept(r, src, db, txs[..k + 1], pos[..k + 1])
         == AcceptOne(r, src, Accept(r, src, db, txs[..k], pos[..k]).value, txs[k], pos[k])
  {
    assert txs[..k + 1][..k] == txs[..k] && pos[..k + 1][..k] == pos[..k];
  }

  /** Acceptance has exactly the effect of connecting the transactions. */
  lemma {:induction false} AcceptConnects(r: Rules, src: Source, db: Index, txs: seq<Tx>, pos: seq<DiskTxPos>)
    requires |txs| == |pos| && Accept(r, src, db, txs, pos).Some?
    ensures ConnectTxs(db, txs, pos) == Some(Accept(r, src, db, txs, pos).value.0)
  {
    if txs != [] {
      var n := |txs| - 1;
      AcceptConnects(r, src, db, txs[..n], pos[..n]);
      AcceptedConnects(r, src, Accept(r, src, db, txs[..n], pos[..n]).value.0, txs[n], pos[n]);
    }
  }

  /** The transaction loop of ConnectBlock. It succeeds exactly when every transaction is accepted in
      turn; then the pending changes laid over the index are the effect of the whole list. */
  method ConnectTransactions(r: Rules, src: Source, db: Index, nFile: int, nBlockPos: int, start: int, txs: seq<Tx>)
    returns (ok: bool, queued: Index, t: Tally)
    ensures var pos := Positions(nFile, nBlockPos, start, txs);
            && (ok <==> Accept(r, src, db, txs, pos).Some?)
            && (ok ==> Accept(r, src, db, txs, pos) == Some((db + queued, t)))
  {
    hide AcceptOne, Accept, Positions;
    ghost var pos := Positions(nFile, nBlockPos, start, txs);
    queued, t := map[], NO_TALLY;
    var nTxPos := start;
    AcceptNone(r, src, db, txs, pos);
    for i := 0 to |txs|
      invariant nTxPos == start + SizeOf(txs[..i])
      invariant Accept(r, src, db, txs[..i], pos[..i]) == Some((db + queued, t))
    {
      var posThisTx := DiskTxPos(nFile, nBlockPos, nTxPos);
      PositionAt(nFile, nBlockPos, start, txs, i);
      AcceptStep(r, src, db, txs, pos, i);
      assert txs[..i + 1][..i] == txs[..i];
      nTxPos := nTxPos + txs[i].size;
      ok, queued, t := ConnectOne(r, src, db, queued, txs[i], posThisTx, t);
      if !ok {
        if Accept(r, src, db, txs, pos).Some? {
          AcceptPrefix(r, src, db, txs, pos, i + 1);
        }
        return;
      }
    }
    assert txs[..|txs|] == txs && pos[..|txs|] == pos;
    ok := true;
  }

  lemma PositionAt(nFile: int, nBlockPos: int, start: int, txs: seq<Tx>, k: nat)
    requires k < |txs|
    ensures Positions(nFile, nBlockPos, start, txs)[k] == DiskTxPos(nFile, nBlockPos, start + SizeOf(txs[..k]))
  {
    PositionsPrefix(nFile, nBlockPos, start, txs, k + 1);
    assert txs[..k + 1][..k] == txs[..k];
    assert Positions(nFile, nBlockPos, start, txs)[k] == Positions(nFile, nBlockPos, start, txs)[..k + 1][k];
  }

  // ----- What the totals mean ---------------------------------------------------------------

  /** No entry stands for a memory-pool transaction. */
  ghost predicate NoPool(idx: Index) {
    forall h :: h in idx ==> idx[h].pos != POOL_POS
  }

  lemma {:induction false} NoPoolAfter(idx: Index, txs: seq<Tx>, pos: seq<DiskTxPos>)
    requires |txs| == |pos| && NoPool(idx) && ConnectTxs(idx, txs, pos).Some?
    requires forall i :: 0 <= i < |pos| ==> pos[i] != POOL_POS
    ensures NoPool(ConnectTxs(idx, txs, pos).value)
  {
    if txs != [] {
      var n := |txs| - 1;
      var before := ConnectTxs(idx, txs[..n], pos[..n]).value;
      NoPoolAfter(idx, txs[..n], pos[..n]);
      if !txs[n].IsCoinBase() {
        SpendAllShape(before, txs[n].vin, pos[n]);
      }
    }
  }

  lemma {:induction false} PaidInIsValueIn(src: Source, idx: Index, vin: seq<TxIn>, hs: set<Txid>)
    requires NoPool(idx) && Hashes(vin) <= hs
    ensures PaidIn(Fetched(idx, src, map[], BlockMode, hs), vin) == ValueIn(idx, src.disk, vin)
  {
    if vin != [] {
      PaidInIsValueIn(src, idx, vin[..|vin| - 1], hs);
      assert vin[|vin| - 1].prevout.hash in Hashes(vin);
    }
  }

  /** The running totals are the block's output and input values. */
  lemma {:induction false} AcceptTally(r: Rules, src: Source, db: Index, txs: seq<Tx>, pos: seq<DiskTxPos>)
    requires |txs| == |pos| && NoPool(db) && Accept(r, src, db, txs, pos).Some?
    requires forall i :: 0 <= i < |pos| ==> pos[i] != POOL_POS
    ensures Accept(r, src, db, txs, pos).value.1.valueIn == BlockValueIn(db, src.disk, txs, pos)
    ensures Accept(r, src, db, txs, pos).value.1.valueOut == BlockValueOut(txs)
  {
    if txs != [] {
      var n := |txs| - 1;
      AcceptTally(r, src, db, txs[..n], pos[..n]);
      AcceptConnects(r, src, db, txs[..n], pos[..n]);
      NoPoolAfter(db, txs[..n], pos[..n]);
      PaidInIsValueIn(src, Accept(r, src, db, txs[..n], pos[..n]).value.0, txs[n].vin, Hashes(txs[n].vin));
    }
  }

  // ----- What a block issues --------------------------------------------------------------------

  function CoinbaseOut(txs: seq<Tx>): int {
    if txs == [] then 0
    else
      var n := |txs| - 1;
      CoinbaseOut(txs[..n]) + if txs[n].IsCoinBase() then ValueOut(txs[n].vout) else 0
  }

  /** What all coinstakes of a list pay out beyond their inputs, wherever they stand. */
  ghost function StakeRewards(r: Rules, src: Source, db: Index, txs: seq<Tx>, pos: seq<DiskTxPos>): int
    requires |txs| == |pos|
  {
    if txs == [] then 0
    else
      var n := |txs| - 1;
      var before := Accept(r, src, db, txs[..n], pos[..n]);
      StakeRewards(r, src, db, txs[..n], pos[..n])
      + if before.Some? && txs[n].IsCoinStake()
        then ValueOut(txs[n].vout) - PaidIn(Prev(src, before.value.0, txs[n]), txs[n].vin) else 0
  }

  /** Fees cancel: what accepted transactions add is their coinbases and the rewards of all their
      coinstakes, less the fees. */
  lemma {:induction false} NetValue(r: Rules, src: Source, db: Index, txs: seq<Tx>, pos: seq<DiskTxPos>)
    requires |txs| == |pos| && Accept(r, src, db, txs, pos).Some?
    ensures var t := Accept(r, src, db, txs, pos).value.1;
            t.valueOut - t.valueIn == CoinbaseOut(txs) + StakeRewards(r, src, db, txs, pos) - t.fees
  {
    hide TxAccepted, ConnectTx, PaidIn, Prev, Txs, ValueOut;
    if txs != [] {
      NetValue(r, src, db, txs[..|txs| - 1], pos[..|txs| - 1]);
    }
  }

  lemma {:induction false} OneCoinbase(txs: seq<Tx>)
    requires txs != [] && txs[0].IsCoinBase() && forall i :: 1 <= i < |txs| ==> !txs[i].IsCoinBase()
    ensures CoinbaseOut(txs) == ValueOut(txs[0].vout)
  {
    var n := |txs| - 1;
    if n == 0 {
      assert CoinbaseOut(txs[..0]) == 0;
    } else {
      OneCoinbase(txs[..n]);
    }
  }

  predicate ProofOfStake(txs: seq<Tx>) {
    |txs| > 1 && txs[1].IsCoinStake()
  }

  /** No coinstake stands behind the second transaction. */
  predicate WellPlaced(txs: seq<Tx>) {
    |txs| > 0 && txs[0].IsCoinBase() && forall i :: 2 <= i < |txs| ==> !txs[i].IsCoinStake()
  }

  /** With at most the second transaction a coinstake, the reward that ConnectBlock remembers is all
      there is. */
  lemma {:induction false} OneCoinstake(r: Rules, src: Source, db: Index, txs: seq<Tx>, pos: seq<DiskTxPos>)
    requires |txs| == |pos| && WellPlaced(txs) && Accept(r, src, db, txs, pos).Some?
    ensures StakeRewards(r, src, db, txs, pos) == Accept(r, src, db, txs, pos).value.1.stakeReward
    ensures !ProofOfStake(txs) ==> StakeRewards(r, src, db, txs, pos) == 0
  {
    hide TxAccepted, ConnectTx, PaidIn, Prev, Txs, ValueOut;
    var n := |txs| - 1;
    if n == 0 {
      assert txs[..0] == [] && StakeRewards(r, src, db, txs[..0], pos[..0]) == 0;
      assert Accept(r, src, db, txs[..0], pos[..0]) == Some((db, NO_TALLY));
    } else {
      assert WellPlaced(txs[..n]);
      OneCoinstake(r, src, db, txs[..n], pos[..n]);
    }
  }
}
