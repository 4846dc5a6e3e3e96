/** The value held by the unspent outputs of a transaction index, and how connecting
    transactions changes it. */
module Supply {
  import opened Ledger
  import opened Sums

  /** The block files: what is written at each position. */
  type Disk = map<DiskTxPos, Tx>

  function FreeValue(vSpent: seq<DiskTxPos>, vout: seq<TxOut>): int
    requires |vSpent| == |vout|
  {
    if vSpent == [] then 0
    else
      var n := |vSpent| - 1;
      FreeValue(vSpent[..n], vout[..n]) + if vSpent[n].IsNull() then vout[n].nValue else 0
  }

  /** Every entry points at a transaction with as many outputs as the entry has marks. */
  ghost predicate Stored(idx: Index, disk: Disk) {
    forall h :: h in idx ==> idx[h].pos in disk && |disk[idx[h].pos].vout| == |idx[h].vSpent|
  }

  function EntryValue(idx: Index, disk: Disk, h: Txid): int {
    if h in idx && idx[h].pos in disk && |disk[idx[h].pos].vout| == |idx[h].vSpent|
    then FreeValue(idx[h].vSpent, disk[idx[h].pos].vout)
    else 0
  }

  /** The sum of the values of all outputs marked unspent. */
  ghost function UnspentValue(idx: Index, disk: Disk): int {
    SumOf(idx.Keys, h => EntryValue(idx, disk, h))
  }

  predicate Readable(idx: Index, disk: Disk, o: OutPoint) {
    o.hash in idx && idx[o.hash].pos in disk && o.n < |disk[idx[o.hash].pos].vout|
  }

  function OutValue(idx: Index, disk: Disk, o: OutPoint): int {
    if Readable(idx, disk, o) then disk[idx[o.hash].pos].vout[o.n].nValue else 0
  }

  function ValueIn(idx: Index, disk: Disk, vin: seq<TxIn>): int {
    if vin == [] then 0
    else
      var n := |vin| - 1;
      ValueIn(idx, disk, vin[..n]) + OutValue(idx, disk, vin[n].prevout)
  }

  lemma {:induction false} FreeValueMark(vSpent: seq<DiskTxPos>, vout: seq<TxOut>, k: nat, p: DiskTxPos)
    requires |vSpent| == |vout| && k < |vSpent|
    requires vSpent[k].IsNull() && !p.IsNull()
    ensures FreeValue(vSpent[k := p], vout) == FreeValue(vSpent, vout) - vout[k].nValue
    decreases |vSpent|
  {
    var n := |vSpent| - 1;
    if k < n {
      FreeValueMark(vSpent[..n], vout[..n], k, p);
      assert vSpent[k := p][..n] == vSpent[..n][k := p];
    } else {
      assert vSpent[k := p][..n] == vSpent[..n];
    }
  }

  lemma {:induction false} FreeValueNew(vout: seq<TxOut>)
    ensures FreeValue(Unspents(|vout|), vout) == ValueOut(vout)
  {
    if vout != [] {
      var n := |vout| - 1;
      FreeValueNew(vout[..n]);
      assert Unspents(|vout|)[..n] == Unspents(n);
    }
  }

  /** Spending an output lowers the unspent total by that output's value. */
  lemma MarkValue(idx: Index, disk: Disk, o: OutPoint, p: DiskTxPos)
    requires Stored(idx, disk) && CanSpend(idx, o) && !p.IsNull()
    ensures Stored(Mark(idx, o, p), disk)
    ensures UnspentValue(Mark(idx, o, p), disk) == UnspentValue(idx, disk) - OutValue(idx, disk, o)
  {
    var r := Mark(idx, o, p);
    assert r.Keys == idx.Keys;
    FreeValueMark(idx[o.hash].vSpent, disk[idx[o.hash].pos].vout, o.n, p);
    SumChange(idx.Keys, h => EntryValue(idx, disk, h), h => EntryValue(r, disk, h), o.hash);
  }

  lemma {:induction false} SpendAllValue(idx: Index, disk: Disk, vin: seq<TxIn>, p: DiskTxPos)
    requires Stored(idx, disk) && !p.IsNull() && SpendAll(idx, vin, p).Some?
    ensures Stored(SpendAll(idx, vin, p).value, disk)
    ensures forall i :: 0 <= i < |vin| ==> Readable(idx, disk, vin[i].prevout)
    ensures UnspentValue(SpendAll(idx, vin, p).value, disk) == UnspentValue(idx, disk) - ValueIn(idx, disk, vin)
  {
    SpendAllMarks(idx, vin, p);
    if vin != [] {
      var n := |vin| - 1;
      var s := SpendAll(idx, vin[..n], p).value;
      SpendAllMarks(idx, vin[..n], p);
      SpendAllValue(idx, disk, vin[..n], p);
      MarkValue(s, disk, vin[n].prevout, p);
    }
  }

  /** Entering a new transaction raises the unspent total by its output value. */
  lemma EnterValue(idx: Index, disk: Disk, tx: Tx, p: DiskTxPos)
    requires tx.id !in idx && p in disk && disk[p] == tx
    ensures UnspentValue(Enter(idx, tx, p), disk) == UnspentValue(idx, disk) + ValueOut(tx.vout)
  {
    var r := Enter(idx, tx, p);
    FreeValueNew(tx.vout);
    SumSplit(r.Keys, h => EntryValue(r, disk, h), tx.id);
    assert r.Keys - {tx.id} == idx.Keys;
    SumExt(idx.Keys, h => EntryValue(r, disk, h), h => EntryValue(idx, disk, h));
  }

  function TxValueIn(idx: Index, disk: Disk, tx: Tx): int {
    if tx.IsCoinBase() then 0 else ValueIn(idx, disk, tx.vin)
  }

  lemma ConnectTxStored(idx: Index, disk: Disk, tx: Tx, p: DiskTxPos)
    requires Stored(idx, disk) && !p.IsNull() && ConnectTx(idx, tx, p).Some?
    requires p in disk && disk[p] == tx
    ensures Stored(ConnectTx(idx, tx, p).value, disk)
  {
    if !tx.IsCoinBase() {
      SpendAllValue(idx, disk, tx.vin, p);
    }
  }

  lemma ConnectTxValue(idx: Index, disk: Disk, tx: Tx, p: DiskTxPos)
    requires Stored(idx, disk) && !p.IsNull() && ConnectTx(idx, tx, p).Some?
    requires tx.id !in idx && p in disk && disk[p] == tx
    ensures UnspentValue(ConnectTx(idx, tx, p).value, disk)
         == UnspentValue(idx, disk) + ValueOut(tx.vout) - TxValueIn(idx, disk, tx)
  {
    if tx.IsCoinBase() {
      EnterValue(idx, disk, tx, p);
    } else {
      SpendAllValue(idx, disk, tx.vin, p);
      SpendAllMarks(idx, tx.vin, p);
      EnterValue(SpendAll(idx, tx.vin, p).value, disk, tx, p);
    }
  }

  // ----- Whole blocks -------------------------------------------------------------

  /** Each transaction of the list is what the block files hold at its position. */
  ghost predicate OnDisk(disk: Disk, txs: seq<Tx>, pos: seq<DiskTxPos>) {
    && |txs| == |pos|
    && forall i :: 0 <= i < |pos| ==> !pos[i].IsNull() && pos[i] in disk && disk[pos[i]] == txs[i]
  }

  /** The inputs' total and the outputs' total that connecting a block adds up. */
  function BlockValueIn(idx: Index, disk: Disk, txs: seq<Tx>, pos: seq<DiskTxPos>): int
    requires |txs| == |pos|
  {
    if txs == [] then 0
    else
      var n := |txs| - 1;
      var before := ConnectTxs(idx, txs[..n], pos[..n]);
      BlockValueIn(idx, disk, txs[..n], pos[..n])
      + if before.Some? then TxValueIn(before.value, disk, txs[n]) else 0
  }

  function BlockValueOut(txs: seq<Tx>): int {
    if txs == [] then 0 else BlockValueOut(txs[..|txs| - 1]) + ValueOut(txs[|txs| - 1].vout)
  }

  lemma {:induction false} ConnectTxsStored(idx: Index, disk: Disk, txs: seq<Tx>, pos: seq<DiskTxPos>)
    requires Stored(idx, disk) && OnDisk(disk, txs, pos) && ConnectTxs(idx, txs, pos).Some?
    ensures Stored(ConnectTxs(idx, txs, pos).value, disk)
  {
    if txs != [] {
      var n := |txs| - 1;
      ConnectTxsStored(idx, disk, txs[..n], pos[..n]);
      ConnectTxStored(ConnectTxs(idx, txs[..n], pos[..n]).value, disk, txs[n], pos[n]);
    }
  }

  /** Connecting a block of new transactions changes the unspent total by its outputs minus its inputs. */
  lemma {:induction false} ConnectTxsValue(idx: Index, disk: Disk, txs: seq<Tx>, pos: seq<DiskTxPos>)
    requires Canonical(idx) && Stored(idx, disk) && OnDisk(disk, txs, pos) && ConnectTxs(idx, txs, pos).Some?
    requires DistinctIds(txs) && Ids(txs) !! idx.Keys
    ensures UnspentValue(ConnectTxs(idx, txs, pos).value, disk)
         == UnspentValue(idx, disk) + BlockValueOut(txs) - BlockValueIn(idx, disk, txs, pos)
  {
    if txs != [] {
      var n := |txs| - 1;
      IdsSnoc(txs);
      ConnectTxsStored(idx, disk, txs[..n], pos[..n]);
      ConnectTxsCanonical(idx, txs[..n], pos[..n]);
      ConnectTxsValue(idx, disk, txs[..n], pos[..n]);
      FreshLast(txs, idx);
      ConnectTxValue(ConnectTxs(idx, txs[..n], pos[..n]).value, disk, txs[n], pos[n]);
    }
  }

  lemma FreshLast(txs: seq<Tx>, idx: Index)
    requires txs != [] && DistinctIds(txs) && Ids(txs) !! idx.Keys
    ensures txs[|txs| - 1].id !in idx.Keys + Ids(txs[..|txs| - 1])
  {
    IdsSnoc(txs);
  }
}
