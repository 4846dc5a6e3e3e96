/** What the transaction index of a branch says: where each transaction lies, and which outputs are
    unspent. */
module Unspent {
  import opened Sequences
  import opened Ledger
  import opened Supply
  import opened Blocks
  import opened Freshness
  import opened Spending
  import opened Lawful
  import opened Emission

  /** One of the transactions makes the output. */
  ghost predicate Created(txs: seq<Tx>, o: OutPoint) {
    exists j :: 0 <= j < |txs| && txs[j].id == o.hash && o.n < |txs[j].vout|
  }

  /** One of the transactions spends it; what a coinbase names is not spent. */
  ghost predicate SpentIn(txs: seq<Tx>, o: OutPoint) {
    exists k, i :: 0 <= k < |txs| && !txs[k].IsCoinBase() && 0 <= i < |txs[k].vin| && txs[k].vin[i].prevout == o
  }

  ghost predicate LiesAt(idx: Index, txs: seq<Tx>, pos: seq<DiskTxPos>, h: Txid)
    requires |txs| == |pos|
  {
    exists j :: 0 <= j < |txs| && txs[j].id == h && h in idx && idx[h].pos == pos[j]
                && |idx[h].vSpent| == |txs[j].vout|
  }

  /** The index is that of these transactions: it has their ids and no others, with their places, and an
      output is unspent exactly when one of them makes it and none spends it. */
  ghost predicate IndexOf(idx: Index, txs: seq<Tx>, pos: seq<DiskTxPos>)
    requires |txs| == |pos|
  {
    && (forall h :: h in idx <==> h in Ids(txs))
    && (forall h :: h in idx ==> LiesAt(idx, txs, pos, h))
    && forall o :: CanSpend(idx, o) <==> Created(txs, o) && !SpentIn(txs, o)
  }

  lemma CreatedSnoc(txs: seq<Tx>, o: OutPoint)
    requires txs != []
    ensures var n := |txs| - 1;
            Created(txs, o) <==> Created(txs[..n], o) || (txs[n].id == o.hash && o.n < |txs[n].vout|)
  {
    var n := |txs| - 1;
    if Created(txs, o) {
      var j :| 0 <= j < |txs| && txs[j].id == o.hash && o.n < |txs[j].vout|;
      assert j == n || txs[..n][j].id == o.hash;
    }
    if Created(txs[..n], o) {
      var j :| 0 <= j < n && txs[..n][j].id == o.hash && o.n < |txs[..n][j].vout|;
      assert txs[j].id == o.hash;
    }
  }

  lemma SpentSnoc(txs: seq<Tx>, o: OutPoint)
    requires txs != []
    ensures var n := |txs| - 1;
            SpentIn(txs, o) <==> SpentIn(txs[..n], o) || (!txs[n].IsCoinBase() && Spends(txs[n].vin, o))
  {
    var n := |txs| - 1;
    if SpentIn(txs, o) {
      var k, i :| 0 <= k < |txs| && !txs[k].IsCoinBase() && 0 <= i < |txs[k].vin| && txs[k].vin[i].prevout == o;
      assert k == n || txs[..n][k].vin[i].prevout == o;
    }
    if SpentIn(txs[..n], o) {
      var k, i :| 0 <= k < n && !txs[..n][k].IsCoinBase() && 0 <= i < |txs[..n][k].vin|
                  && txs[..n][k].vin[i].prevout == o;
      assert txs[k].vin[i].prevout == o;
    }
    if !txs[n].IsCoinBase() && Spends(txs[n].vin, o) {
      var i :| 0 <= i < |txs[n].vin| && txs[n].vin[i].prevout == o;
      assert SpentIn(txs, o);
    }
  }

  /** Spending marks exactly what is spent, and only what was unspent. */
  lemma SpendingMarks(idx: Index, tx: Tx, p: DiskTxPos, o: OutPoint)
    requires !p.IsNull() && ConnectTx(idx, tx, p).Some?
    ensures !tx.IsCoinBase() && Spends(tx.vin, o) ==> CanSpend(idx, o)
    ensures o.hash != tx.id ==>
              (CanSpend(ConnectTx(idx, tx, p).value, o) <==>
               CanSpend(idx, o) && (tx.IsCoinBase() || !Spends(tx.vin, o)))
    ensures o.hash == tx.id ==> (CanSpend(ConnectTx(idx, tx, p).value, o) <==> o.n < |tx.vout|)
  {
    if !tx.IsCoinBase() {
      SpendAllMarks(idx, tx.vin, p);
      if Spends(tx.vin, o) {
        var i :| 0 <= i < |tx.vin| && tx.vin[i].prevout == o;
        assert CanSpend(idx, tx.vin[i].prevout);
      }
    }
  }

  lemma EntriesStay(idx: Index, tx: Tx, p: DiskTxPos)
    requires !p.IsNull() && ConnectTx(idx, tx, p).Some?
    ensures var r := ConnectTx(idx, tx, p).value;
            && r.Keys == idx.Keys + {tx.id}
            && r[tx.id].pos == p && |r[tx.id].vSpent| == |tx.vout|
            && forall h :: h in idx && h != tx.id ==> r[h].pos == idx[h].pos && |r[h].vSpent| == |idx[h].vSpent|
  {
    if !tx.IsCoinBase() {
      SpendAllMarks(idx, tx.vin, p);
    }
  }

  lemma NotThereYet(txs: seq<Tx>, o: OutPoint)
    requires o.hash !in Ids(txs)
    ensures !Created(txs, o)
  {
  }

  /** Entering one more transaction with a new id. */
  lemma ConnectOneMore(idx: Index, txs: seq<Tx>, pos: seq<DiskTxPos>)
    requires |txs| == |pos| > 0 && !pos[|pos| - 1].IsNull()
    requires var n := |txs| - 1;
             && IndexOf(idx, txs[..n], pos[..n]) && txs[n].id !in Ids(txs[..n])
             && (forall o :: SpentIn(txs[..n], o) ==> o.hash in Ids(txs[..n]))
             && ConnectTx(idx, txs[n], pos[n]).Some?
    ensures IndexOf(ConnectTx(idx, txs[|txs| - 1], pos[|txs| - 1]).value, txs, pos)
    ensures forall o :: SpentIn(txs, o) ==> o.hash in Ids(txs)
  {
    hide SpentIn, Created, CanSpend, ConnectTx, Spends;
    var n := |txs| - 1;
    var tx, p, f := txs[n], pos[n], txs[..n];
    var r := ConnectTx(idx, tx, p).value;
    IdsSnoc(txs);
    EntriesStay(idx, tx, p);
    forall h | h in r ensures LiesAt(r, txs, pos, h) {
      if h == tx.id {
        assert txs[n].id == h;
      } else {
        assert LiesAt(idx, f, pos[..n], h);
        var j :| 0 <= j < n && f[j].id == h && idx[h].pos == pos[..n][j] && |idx[h].vSpent| == |f[j].vout|;
        assert txs[j].id == h;
      }
    }
    forall o ensures CanSpend(r, o) <==> Created(txs, o) && !SpentIn(txs, o)
      ensures SpentIn(txs, o) ==> o.hash in Ids(txs)
    {
      SpendingMarks(idx, tx, p, o);
      CreatedSnoc(txs, o);
      SpentSnoc(txs, o);
      Spendable(idx, o);
      if o.hash == tx.id {
        NotThereYet(f, o);
      }
    }
  }

  lemma Spendable(idx: Index, o: OutPoint)
    ensures CanSpend(idx, o) ==> o.hash in idx
  {
  }

  /** Transactions with different ids, connected one after the other from nothing, leave the index that is
      theirs. */
  lemma {:induction false} IndexAfter(txs: seq<Tx>, pos: seq<DiskTxPos>)
    requires |txs| == |pos| && DistinctIds(txs) && ConnectTxs(map[], txs, pos).Some?
    requires forall i :: 0 <= i < |pos| ==> !pos[i].IsNull()
    ensures IndexOf(ConnectTxs(map[], txs, pos).value, txs, pos)
    ensures forall o :: SpentIn(txs, o) ==> o.hash in Ids(txs)
  {
    hide IndexOf, ConnectTx, SpentIn;
    if txs == [] {
      EmptyIndex();
    } else {
      var n := |txs| - 1;
      IndexAfter(txs[..n], pos[..n]);
      forall i | 0 <= i < n ensures txs[..n][i].id != txs[n].id {
      }
      ConnectOneMore(ConnectTxs(map[], txs[..n], pos[..n]).value, txs, pos);
    }
  }

  lemma EmptyIndex()
    ensures IndexOf(map[], [], [])
    ensures forall o :: !SpentIn([], o)
  {
  }

  // ----- Branches ------------------------------------------------------------------------------------

  lemma {:induction false} ChainStored(disk: Disk, b: BlockIndex)
    requires ChainOnDisk(disk, b)
    ensures forall i :: 0 <= i < |ChainPos(b)| ==>
              && !ChainPos(b)[i].IsNull() && ChainPos(b)[i] in disk && disk[ChainPos(b)[i]] == ChainTxs(b)[i]
  {
    if b.Child? {
      ChainStored(disk, b.pprev);
    }
  }

  /** The index of a branch of checked blocks: its transactions with their places in the block files, and
      as unspent exactly the outputs that one of them makes and none of them spends. */
  lemma ReplayIs(name: Txid -> Tx, disk: Disk, b: BlockIndex)
    requires Proper(name, b) && ChainOnDisk(disk, b) && Replay(b).Some?
    ensures DistinctIds(ChainTxs(b)) && IndexOf(Replay(b).value, ChainTxs(b), ChainPos(b))
  {
    hide Proper, ChainOnDisk, IndexOf;
    ReplayConnectsAll(b);
    ChainPosProper(disk, b);
    ChainNamed(name, b);
    ChainCoinbasesDiffer(name, b);
    NoIdRepeats(name, ChainTxs(b), ChainPos(b));
    IndexAfter(ChainTxs(b), ChainPos(b));
  }

  lemma {:induction false} ChainGood(name: Txid -> Tx, b: BlockIndex, i: nat)
    requires Proper(name, b) && i < |ChainTxs(b)|
    ensures GoodTransaction(ChainTxs(b)[i])
  {
    hide CheckTransaction, GoodTransaction, StartsWithHeight;
    var n := |ChainTxs(b.pprev)|;
    if i < n {
      ChainGood(name, b.pprev, i);
    } else {
      assert ChainTxs(b)[i] == b.block.vtx[i - n];
      TransactionIff(b.block.vtx[i - n]);
    }
  }

  /** Every unspent output can be read, is worth an amount that may exist, and is empty only if it belongs
      to a coinbase or coinstake. */
  lemma UnspentInRange(name: Txid -> Tx, disk: Disk, b: BlockIndex, o: OutPoint)
    requires Proper(name, b) && ChainOnDisk(disk, b) && Replay(b).Some? && CanSpend(Replay(b).value, o)
    ensures There(Replay(b).value, disk, o)
    ensures var tx := disk[Replay(b).value[o.hash].pos];
            && tx.id == o.hash && 0 <= tx.vout[o.n].nValue <= 30_000_000_000_000_000
            && (tx.IsCoinBase() || tx.IsCoinStake() || tx.vout[o.n] != TxOut(0, []))
  {
    hide Proper, ChainOnDisk;
    ReplayIs(name, disk, b);
    ChainStored(disk, b);
    var idx, txs, pos := Replay(b).value, ChainTxs(b), ChainPos(b);
    assert LiesAt(idx, txs, pos, o.hash);
    var j :|
      0 <= j < |txs| && txs[j].id == o.hash && idx[o.hash].pos == pos[j] && |idx[o.hash].vSpent| == |txs[j].vout|;
    ChainGood(name, b, j);
    OneAtMostTotal(OutputValues(txs[j].vout), o.n);
  }

  lemma OneAtMostTotal(s: seq<int>, i: nat)
    requires i < |s| && forall k :: 0 <= k < |s| ==> s[k] >= 0
    ensures s[i] <= Total(s)
  {
    assert s == s[..i] + ([s[i]] + s[i + 1..]);
    TotalAppend(s[..i], [s[i]] + s[i + 1..]);
    TotalAppend([s[i]], s[i + 1..]);
    TotalNonNegative(s[..i]);
    TotalNonNegative(s[i + 1..]);
    assert [s[i]][1..] == [];
  }

  // ----- Generated outputs wait -----------------------------------------------------------------------

  /** The transactions of an ancestor are on the branch, at their places. */
  lemma {:induction false} OnChain(a: BlockIndex, b: BlockIndex, j: nat) returns (i: nat)
    requires Ancestor(a, b) && a.Child? && j < |a.block.vtx|
    ensures i < |ChainTxs(b)| && ChainTxs(b)[i] == a.block.vtx[j] && ChainPos(b)[i] == Pos(a.block)[j]
  {
    if a == b {
      i := |ChainTxs(b.pprev)| + j;
    } else {
      i := OnChain(a, b.pprev, j);
    }
  }

  /** What a transaction of an accepted block spends lies where the branch put it. */
  lemma SpentLies(name: Txid -> Tx, env: Env, v: View, b: BlockIndex, k: nat, i: nat)
    requires Connects(env, v, b) && Proper(name, b) && ChainOnDisk(v.disk, b)
    requires k < |b.block.vtx| && !b.block.vtx[k].IsCoinBase() && i < |b.block.vtx[k].vin|
    ensures var m := Met(Replay(b.pprev).value, b.block.vtx, Pos(b.block), k);
            && m.Some? && GoodInput(env, b, m.value, v.disk, b.block.vtx[k], i)
            && LiesAt(m.value, ChainTxs(b), ChainPos(b), b.block.vtx[k].vin[i].prevout.hash)
  {
    hide Proper, Connects, GoodInput, IndexOf;
    AcceptedIsGood(name, env, v, b, k, i);
    MetIsIndex(name, env, v, b, k);
  }

  lemma AcceptedIsGood(name: Txid -> Tx, env: Env, v: View, b: BlockIndex, k: nat, i: nat)
    requires Connects(env, v, b) && Proper(name, b) && ChainOnDisk(v.disk, b)
    requires k < |b.block.vtx| && !b.block.vtx[k].IsCoinBase() && i < |b.block.vtx[k].vin|
    ensures var m := Met(Replay(b.pprev).value, b.block.vtx, Pos(b.block), k);
            && m.Some? && GoodInput(env, b, m.value, v.disk, b.block.vtx[k], i)
            && b.block.vtx[k].vin[i].prevout.hash in m.value
  {
    hide Proper, GoodShape, BlockConnects, GoodInput;
    var idx := Replay(b.pprev).value;
    ReplayWellFormed(b.pprev, v.disk);
    BlockIff(env, v, idx, b);
    assert GoodAt(env, b, idx, v.disk, b.block.vtx, Pos(b.block), k);
    GoodInputThere(env, b, Met(idx, b.block.vtx, Pos(b.block), k).value, v.disk, b.block.vtx[k], i);
  }

  lemma GoodInputThere(env: Env, b: BlockIndex, idx: Index, disk: Disk, tx: Tx, i: nat)
    requires i < |tx.vin| && GoodInput(env, b, idx, disk, tx, i)
    ensures tx.vin[i].prevout.hash in idx
  {
  }

  lemma MetIsIndex(name: Txid -> Tx, env: Env, v: View, b: BlockIndex, k: nat)
    requires Connects(env, v, b) && Proper(name, b) && ChainOnDisk(v.disk, b) && k <= |b.block.vtx|
    ensures var m := Met(Replay(b.pprev).value, b.block.vtx, Pos(b.block), k);
            m.Some? ==> forall h :: h in m.value ==> LiesAt(m.value, ChainTxs(b), ChainPos(b), h)
  {
    hide Proper, ChainOnDisk, BlockConnects, Pos, ConnectTxs;
    AcceptedReplays(env, v, b);
    ReplayIs(name, v.disk, b);
    ReplayConnectsAll(b.pprev);
    ChainPosProper(v.disk, b);
    var t, p := ChainTxs(b.pprev) + b.block.vtx[..k], ChainPos(b.pprev) + Pos(b.block)[..k];
    ConnectTxsAppend(map[], ChainTxs(b.pprev), ChainPos(b.pprev), b.block.vtx[..k], Pos(b.block)[..k]);
    assert t == ChainTxs(b)[..|t|] && p == ChainPos(b)[..|t|];
    if Met(Replay(b.pprev).value, b.block.vtx, Pos(b.block), k).Some? {
      IndexOfPrefix(ChainTxs(b), ChainPos(b), |t|);
    }
  }

  lemma IndexOfPrefix(txs: seq<Tx>, pos: seq<DiskTxPos>, n: nat)
    requires n <= |txs| == |pos| && DistinctIds(txs) && ConnectTxs(map[], txs[..n], pos[..n]).Some?
    requires forall i :: 0 <= i < |pos| ==> !pos[i].IsNull()
    ensures var m := ConnectTxs(map[], txs[..n], pos[..n]).value; forall h :: h in m ==> LiesAt(m, txs, pos, h)
  {
    hide ConnectTxs;
    var m := ConnectTxs(map[], txs[..n], pos[..n]).value;
    IndexAfter(txs[..n], pos[..n]);
    forall h | h in m ensures LiesAt(m, txs, pos, h) {
      assert LiesAt(m, txs[..n], pos[..n], h);
      var j :| 0 <= j < n && txs[..n][j].id == h && m[h].pos == pos[..n][j] && |m[h].vSpent| == |txs[..n][j].vout|;
      assert txs[j].id == h;
    }
  }

  /** No transaction of an accepted block spends an output of a coinbase or coinstake from a block less
      than 23 below it, the block itself included. */
  lemma GeneratedWaits(name: Txid -> Tx, env: Env, v: View, b: BlockIndex, a: BlockIndex, j: nat, k: nat, i: nat)
    requires Connects(env, v, b) && Proper(name, b) && ChainOnDisk(v.disk, b)
    requires Ancestor(a, b) && a.Child? && Height(b) - Height(a) < 23
    requires j < |a.block.vtx| && (a.block.vtx[j].IsCoinBase() || a.block.vtx[j].IsCoinStake())
    requires k < |b.block.vtx| && !b.block.vtx[k].IsCoinBase() && i < |b.block.vtx[k].vin|
    ensures b.block.vtx[k].vin[i].prevout.hash != a.block.vtx[j].id
  {
    hide Proper, ChainOnDisk, BlockConnects, Met, ConnectTxs;
    SpentLies(name, env, v, b, k, i);
    var at := OnChain(a, b, j);
    AcceptedReplays(env, v, b);
    ReplayIs(name, v.disk, b);
    ChainStored(v.disk, b);
    var m := Met(Replay(b.pprev).value, b.block.vtx, Pos(b.block), k).value;
    var h := b.block.vtx[k].vin[i].prevout.hash;
    var x :| 0 <= x < |ChainTxs(b)| && ChainTxs(b)[x].id == h && h in m && m[h].pos == ChainPos(b)[x];
    assert x == at || ChainTxs(b)[x].id != ChainTxs(b)[at].id;
  }
}
