/** Transactions, the transaction index (txid -> disk position and spend marks) and
    the effect of connecting and disconnecting transactions on it. */
module Ledger {
  import opened Sequences

  datatype Option<+T> = None | Some(value: T)

  /** A 256-bit hash, as a number. */
  type Txid = int
  type Script = seq<int>

  const NO_FILE: int := 0xFFFF_FFFF
  const COIN: int := 100_000_000
  const MAX_SINGLE_TX: int := 300_000_000 * COIN

  predicate MoneyRange(v: int) {
    0 <= v <= MAX_SINGLE_TX
  }

  datatype DiskTxPos = DiskTxPos(nFile: int, nBlockPos: int, nTxPos: int) {
    predicate IsNull() {
      nFile == NO_FILE
    }
  }

  const NULL_POS := DiskTxPos(NO_FILE, 0, 0)
  /** Stands for "look the transaction up in the memory pool". */
  const POOL_POS := DiskTxPos(1, 1, 1)

  datatype OutPoint = OutPoint(hash: Txid, n: nat) {
    predicate IsNull() {
      hash == 0 && n == 0xFFFF_FFFF
    }
  }

  datatype TxIn = TxIn(prevout: OutPoint, scriptSig: Script)

  datatype TxOut = TxOut(nValue: int, scriptPubKey: Script) {
    predicate IsEmpty() {
      nValue == 0 && scriptPubKey == []
    }
  }

  /** `id` is the transaction's hash, `size` its serialised size in bytes and
      `legacySigOps` its own signature-operation count. */
  datatype Tx = Tx(id: Txid, nTime: int, vin: seq<TxIn>, vout: seq<TxOut>, size: nat, legacySigOps: nat) {
    predicate IsCoinBase() {
      |vin| == 1 && vin[0].prevout.IsNull() && |vout| >= 1
    }

    predicate IsCoinStake() {
      |vin| > 0 && !vin[0].prevout.IsNull() && |vout| >= 2 && vout[0].IsEmpty()
    }
  }

  function ValueOut(vout: seq<TxOut>): int {
    if vout == [] then 0 else ValueOut(vout[..|vout| - 1]) + vout[|vout| - 1].nValue
  }

  function OutputValues(vout: seq<TxOut>): (s: seq<int>)
    ensures |s| == |vout| && forall i :: 0 <= i < |s| ==> s[i] == vout[i].nValue
  {
    seq(|vout|, i requires 0 <= i < |vout| => vout[i].nValue)
  }

  lemma {:induction false} ValueOutIsTotal(vout: seq<TxOut>)
    ensures ValueOut(vout) == Total(OutputValues(vout))
  {
    if vout != [] {
      var f := vout[..|vout| - 1];
      ValueOutIsTotal(f);
      assert OutputValues(vout)[..|f|] == OutputValues(f);
      TotalSnoc(OutputValues(vout));
    }
  }

  datatype TxIndex = TxIndex(pos: DiskTxPos, vSpent: seq<DiskTxPos>)

  type Index = map<Txid, TxIndex>

  function Unspents(n: nat): (s: seq<DiskTxPos>)
    ensures |s| == n && forall i :: 0 <= i < n ==> s[i] == NULL_POS
  {
    seq(n, _ => NULL_POS)
  }

  // ----- Spending ---------------------------------------------------------------

  predicate InRange(idx: Index, o: OutPoint) {
    o.hash in idx && o.n < |idx[o.hash].vSpent|
  }

  predicate CanSpend(idx: Index, o: OutPoint) {
    InRange(idx, o) && idx[o.hash].vSpent[o.n].IsNull()
  }

  function Mark(idx: Index, o: OutPoint, p: DiskTxPos): Index
    requires InRange(idx, o)
  {
    idx[o.hash := idx[o.hash].(vSpent := idx[o.hash].vSpent[o.n := p])]
  }

  /** Inputs are spent first to last; each must still be unspent when its turn comes. */
  function SpendAll(idx: Index, vin: seq<TxIn>, p: DiskTxPos): Option<Index> {
    if vin == [] then Some(idx)
    else
      var before := SpendAll(idx, vin[..|vin| - 1], p);
      var o := vin[|vin| - 1].prevout;
      if before.Some? && CanSpend(before.value, o) then Some(Mark(before.value, o, p)) else None
  }

  function Enter(idx: Index, tx: Tx, p: DiskTxPos): Index {
    idx[tx.id := TxIndex(p, Unspents(|tx.vout|))]
  }

  function ConnectTx(idx: Index, tx: Tx, p: DiskTxPos): Option<Index> {
    if tx.IsCoinBase() then Some(Enter(idx, tx, p))
    else
      var spent := SpendAll(idx, tx.vin, p);
      if spent.Some? then Some(Enter(spent.value, tx, p)) else None
  }

  /** What connecting a list of transactions, each with its position on disk, does to the index. */
  function ConnectTxs(idx: Index, txs: seq<Tx>, pos: seq<DiskTxPos>): Option<Index>
    requires |txs| == |pos|
  {
    if txs == [] then Some(idx)
    else
      var n := |txs| - 1;
      var before := ConnectTxs(idx, txs[..n], pos[..n]);
      if before.Some? then ConnectTx(before.value, txs[n], pos[n]) else None
  }

  // ----- Unspending -------------------------------------------------------------

  function UnspendAll(idx: Index, vin: seq<TxIn>): Option<Index> {
    if vin == [] then Some(idx)
    else
      var before := UnspendAll(idx, vin[..|vin| - 1]);
      var o := vin[|vin| - 1].prevout;
      if before.Some? && InRange(before.value, o) then Some(Mark(before.value, o, NULL_POS)) else None
  }

  function DisconnectTx(idx: Index, tx: Tx): Option<Index> {
    var freed := if tx.IsCoinBase() then Some(idx) else UnspendAll(idx, tx.vin);
    if freed.Some? then Some(freed.value - {tx.id}) else None
  }

  /** Transactions are disconnected last to first. */
  function DisconnectTxs(idx: Index, txs: seq<Tx>): Option<Index>
    decreases |txs|
  {
    if txs == [] then Some(idx)
    else
      var n := |txs| - 1;
      var after := DisconnectTx(idx, txs[n]);
      if after.Some? then DisconnectTxs(after.value, txs[..n]) else None
  }

  // ----- Pointwise meaning of spending and unspending -----------------------------

  predicate Spends(vin: seq<TxIn>, o: OutPoint) {
    exists i :: 0 <= i < |vin| && vin[i].prevout == o
  }

  lemma SpendsSnoc(vin: seq<TxIn>, o: OutPoint)
    requires vin != []
    ensures Spends(vin, o) <==> Spends(vin[..|vin| - 1], o) || vin[|vin| - 1].prevout == o
  {
    var f := vin[..|vin| - 1];
    if Spends(vin, o) && vin[|vin| - 1].prevout != o {
      var i :| 0 <= i < |vin| && vin[i].prevout == o;
      assert f[i].prevout == o;
    }
    if Spends(f, o) {
      var i :| 0 <= i < |f| && f[i].prevout == o;
      assert vin[i].prevout == o;
    }
  }

  /** `r` differs from `idx` exactly in the marks of the outpoints that `vin` names, which are `p`. */
  ghost predicate Remarked(idx: Index, r: Index, vin: seq<TxIn>, p: DiskTxPos) {
    && r.Keys == idx.Keys
    && (forall h :: h in idx ==> r[h].pos == idx[h].pos && |r[h].vSpent| == |idx[h].vSpent|)
    && (forall h, n :: h in idx && 0 <= n < |idx[h].vSpent| ==>
          r[h].vSpent[n] == if Spends(vin, OutPoint(h, n)) then p else idx[h].vSpent[n])
  }

  lemma {:induction false} SpendAllMarks(idx: Index, vin: seq<TxIn>, p: DiskTxPos)
    requires SpendAll(idx, vin, p).Some?
    requires !p.IsNull()
    ensures Remarked(idx, SpendAll(idx, vin, p).value, vin, p)
    ensures forall i :: 0 <= i < |vin| ==> CanSpend(idx, vin[i].prevout)
    ensures forall i, j :: 0 <= i < j < |vin| ==> vin[i].prevout != vin[j].prevout
  {
    if vin != [] {
      var f, o := vin[..|vin| - 1], vin[|vin| - 1].prevout;
      SpendAllMarks(idx, f, p);
      var s := SpendAll(idx, f, p).value;
      assert !Spends(f, o);
      forall i | 0 <= i < |f| ensures vin[i] == f[i] && vin[i].prevout != o {
        assert Spends(f, f[i].prevout);
      }
      forall h, n: nat ensures Spends(vin, OutPoint(h, n)) <==> Spends(f, OutPoint(h, n)) || OutPoint(h, n) == o {
        SpendsSnoc(vin, OutPoint(h, n));
      }
    }
  }

  lemma {:induction false} UnspendAllMarks(idx: Index, vin: seq<TxIn>)
    requires forall i :: 0 <= i < |vin| ==> InRange(idx, vin[i].prevout)
    ensures UnspendAll(idx, vin).Some?
    ensures Remarked(idx, UnspendAll(idx, vin).value, vin, NULL_POS)
  {
    if vin != [] {
      var f, o := vin[..|vin| - 1], vin[|vin| - 1].prevout;
      assert forall i :: 0 <= i < |f| ==> vin[i] == f[i];
      UnspendAllMarks(idx, f);
      assert InRange(idx, o);
      forall h, n: nat ensures Spends(vin, OutPoint(h, n)) <==> Spends(f, OutPoint(h, n)) || OutPoint(h, n) == o {
        SpendsSnoc(vin, OutPoint(h, n));
      }
    }
  }

  lemma {:induction false} UnspendAllKeys(idx: Index, vin: seq<TxIn>)
    requires UnspendAll(idx, vin).Some?
    ensures UnspendAll(idx, vin).value.Keys == idx.Keys
  {
    if vin != [] {
      UnspendAllKeys(idx, vin[..|vin| - 1]);
    }
  }

  // ----- Undo ---------------------------------------------------------------------

  /** Free outputs carry the one canonical null position. */
  ghost predicate Canonical(idx: Index) {
    forall h, n :: h in idx && 0 <= n < |idx[h].vSpent| && idx[h].vSpent[n].IsNull() ==> idx[h].vSpent[n] == NULL_POS
  }

  lemma ConnectTxCanonical(idx: Index, tx: Tx, p: DiskTxPos)
    requires Canonical(idx) && !p.IsNull() && ConnectTx(idx, tx, p).Some?
    ensures Canonical(ConnectTx(idx, tx, p).value)
    ensures ConnectTx(idx, tx, p).value.Keys == idx.Keys + {tx.id}
  {
    if !tx.IsCoinBase() {
      SpendAllMarks(idx, tx.vin, p);
    }
  }

  lemma {:induction false} ConnectTxsCanonical(idx: Index, txs: seq<Tx>, pos: seq<DiskTxPos>)
    requires Canonical(idx) && |txs| == |pos| && ConnectTxs(idx, txs, pos).Some?
    requires forall i :: 0 <= i < |pos| ==> !pos[i].IsNull()
    ensures Canonical(ConnectTxs(idx, txs, pos).value)
    ensures ConnectTxs(idx, txs, pos).value.Keys == idx.Keys + Ids(txs)
  {
    if txs != [] {
      var n := |txs| - 1;
      assert ConnectTxs(idx, txs, pos) == ConnectTx(ConnectTxs(idx, txs[..n], pos[..n]).value, txs[n], pos[n]);
      ConnectTxsCanonical(idx, txs[..n], pos[..n]);
      ConnectTxCanonical(ConnectTxs(idx, txs[..n], pos[..n]).value, txs[n], pos[n]);
      IdsSnoc(txs);
    }
  }

  function Ids(txs: seq<Tx>): set<Txid> {
    set i | 0 <= i < |txs| :: txs[i].id
  }

  lemma IdsSnoc(txs: seq<Tx>)
    requires txs != []
    ensures Ids(txs) == Ids(txs[..|txs| - 1]) + {txs[|txs| - 1].id}
  {
    var n := |txs| - 1;
    forall h | h in Ids(txs) ensures h in Ids(txs[..n]) + {txs[n].id} {
      var i :| 0 <= i < |txs| && txs[i].id == h;
      assert i < n ==> txs[..n][i].id == h;
    }
    forall h | h in Ids(txs[..n]) ensures h in Ids(txs) {
      var i :| 0 <= i < n && txs[..n][i].id == h;
      assert txs[i].id == h;
    }
  }

  predicate DistinctIds(txs: seq<Tx>) {
    forall i, j :: 0 <= i < j < |txs| ==> txs[i].id != txs[j].id
  }

  /** Clearing the marks that spending set restores the index. */
  lemma RemarkUndone(idx: Index, s: Index, u: Index, vin: seq<TxIn>, p: DiskTxPos)
    requires Canonical(idx) && Remarked(idx, s, vin, p) && Remarked(s, u, vin, NULL_POS)
    requires forall i :: 0 <= i < |vin| ==> CanSpend(idx, vin[i].prevout)
    ensures u == idx
  {
    forall h | h in idx ensures u[h] == idx[h] {
      forall n | 0 <= n < |idx[h].vSpent| ensures u[h].vSpent[n] == idx[h].vSpent[n] {
        if Spends(vin, OutPoint(h, n)) {
          var i :| 0 <= i < |vin| && vin[i].prevout == OutPoint(h, n);
          assert CanSpend(idx, vin[i].prevout);
        }
      }
      assert u[h].vSpent == idx[h].vSpent;
    }
  }

  lemma RemarkedWithout(s: Index, r: Index, u: Index, vin: seq<TxIn>, id: Txid)
    requires id !in s && r.Keys == s.Keys + {id} && (forall h :: h in s ==> r[h] == s[h])
    requires Remarked(r, u, vin, NULL_POS)
    ensures Remarked(s, u - {id}, vin, NULL_POS)
  {
  }

  lemma InputsStayInRange(idx: Index, tx: Tx, p: DiskTxPos)
    requires !p.IsNull() && ConnectTx(idx, tx, p).Some? && !tx.IsCoinBase() && tx.id !in idx
    ensures forall i :: 0 <= i < |tx.vin| ==> InRange(ConnectTx(idx, tx, p).value, tx.vin[i].prevout)
  {
    SpendAllMarks(idx, tx.vin, p);
    var s, r := SpendAll(idx, tx.vin, p).value, ConnectTx(idx, tx, p).value;
    forall i | 0 <= i < |tx.vin| ensures InRange(r, tx.vin[i].prevout) {
      assert CanSpend(idx, tx.vin[i].prevout);
      assert r[tx.vin[i].prevout.hash] == s[tx.vin[i].prevout.hash];
    }
  }

  lemma ClearedAndErased(idx: Index, tx: Tx, p: DiskTxPos, u: Index)
    requires Canonical(idx) && !p.IsNull() && ConnectTx(idx, tx, p).Some? && !tx.IsCoinBase() && tx.id !in idx
    requires Remarked(ConnectTx(idx, tx, p).value, u, tx.vin, NULL_POS)
    ensures u - {tx.id} == idx
  {
    var s := SpendAll(idx, tx.vin, p).value;
    SpendAllMarks(idx, tx.vin, p);
    RemarkedWithout(s, ConnectTx(idx, tx, p).value, u, tx.vin, tx.id);
    RemarkUndone(idx, s, u - {tx.id}, tx.vin, p);
  }

  lemma DisconnectTxUndoes(idx: Index, tx: Tx, p: DiskTxPos)
    requires Canonical(idx) && !p.IsNull() && ConnectTx(idx, tx, p).Some?
    requires tx.id !in idx
    ensures DisconnectTx(ConnectTx(idx, tx, p).value, tx) == Some(idx)
  {
    var r := ConnectTx(idx, tx, p).value;
    if tx.IsCoinBase() {
      assert r - {tx.id} == idx;
    } else {
      InputsStayInRange(idx, tx, p);
      UnspendAllMarks(r, tx.vin);
      ClearedAndErased(idx, tx, p, UnspendAll(r, tx.vin).value);
    }
  }

  lemma {:induction false} DisconnectTxsErases(idx: Index, txs: seq<Tx>)
    requires DisconnectTxs(idx, txs).Some?
    ensures DisconnectTxs(idx, txs).value.Keys == idx.Keys - Ids(txs)
    decreases |txs|
  {
    if txs != [] {
      var n := |txs| - 1;
      var tx := txs[n];
      if !tx.IsCoinBase() {
        UnspendAllKeys(idx, tx.vin);
      }
      IdsSnoc(txs);
      DisconnectTxsErases(DisconnectTx(idx, tx).value, txs[..n]);
    }
  }

  lemma {:induction false} DisconnectTxsUndoes(idx: Index, txs: seq<Tx>, pos: seq<DiskTxPos>)
    requires Canonical(idx) && |txs| == |pos| && ConnectTxs(idx, txs, pos).Some?
    requires forall i :: 0 <= i < |pos| ==> !pos[i].IsNull()
    requires DistinctIds(txs) && Ids(txs) !! idx.Keys
    ensures DisconnectTxs(ConnectTxs(idx, txs, pos).value, txs) == Some(idx)
    decreases |txs|
  {
    if txs != [] {
      var n := |txs| - 1;
      var before := ConnectTxs(idx, txs[..n], pos[..n]).value;
      ConnectTxsCanonical(idx, txs[..n], pos[..n]);
      IdsSnoc(txs);
      DisconnectTxUndoes(before, txs[n], pos[n]);
      DisconnectTxsUndoes(idx, txs[..n], pos[..n]);
    }
  }

  /** Disconnecting a connected block gives back exactly the index it was connected to, if and
      only if none of its transaction ids was in that index before. */
  lemma UndoIsExactIffFresh(idx: Index, txs: seq<Tx>, pos: seq<DiskTxPos>)
    requires Canonical(idx) && |txs| == |pos| && ConnectTxs(idx, txs, pos).Some?
    requires forall i :: 0 <= i < |pos| ==> !pos[i].IsNull()
    requires DistinctIds(txs)
    ensures DisconnectTxs(ConnectTxs(idx, txs, pos).value, txs) == Some(idx) <==> Ids(txs) !! idx.Keys
  {
    if Ids(txs) !! idx.Keys {
      DisconnectTxsUndoes(idx, txs, pos);
    } else if DisconnectTxs(ConnectTxs(idx, txs, pos).value, txs) == Some(idx) {
      DisconnectTxsErases(ConnectTxs(idx, txs, pos).value, txs);
    }
  }

  // ----- No transaction id repeats -----------------------------------------------------------

  /** An id stands for one transaction: `name` gives it. */
  ghost predicate Named(name: Txid -> Tx, txs: seq<Tx>) {
    forall i :: 0 <= i < |txs| ==> name(txs[i].id) == txs[i]
  }

  predicate HaveInputs(txs: seq<Tx>) {
    forall i :: 0 <= i < |txs| ==> txs[i].vin != []
  }

  predicate CoinbasesDiffer(txs: seq<Tx>) {
    forall i, j :: 0 <= i < j < |txs| && txs[i].IsCoinBase() && txs[j].IsCoinBase() ==> txs[i].id != txs[j].id
  }

  predicate Spent(idx: Index, o: OutPoint) {
    InRange(idx, o) && !idx[o.hash].vSpent[o.n].IsNull()
  }

  lemma SpentStaysSpent(idx: Index, tx: Tx, p: DiskTxPos, o: OutPoint)
    requires !p.IsNull() && ConnectTx(idx, tx, p).Some? && Spent(idx, o) && tx.id != o.hash
    ensures Spent(ConnectTx(idx, tx, p).value, o)
  {
    if !tx.IsCoinBase() {
      SpendAllMarks(idx, tx.vin, p);
    }
  }

  /** Connecting a transaction spends its inputs. */
  lemma FirstInputSpent(idx: Index, tx: Tx, p: DiskTxPos)
    requires !p.IsNull() && ConnectTx(idx, tx, p).Some? && !tx.IsCoinBase() && tx.vin != [] && tx.id !in idx
    ensures tx.vin[0].prevout.hash in idx && Spent(ConnectTx(idx, tx, p).value, tx.vin[0].prevout)
  {
    SpendAllMarks(idx, tx.vin, p);
    assert CanSpend(idx, tx.vin[0].prevout) && Spends(tx.vin, tx.vin[0].prevout);
  }

  /** As long as no id repeats, what the `k`-th transaction spent stays spent. */
  lemma {:induction false} InputStaysSpent(txs: seq<Tx>, pos: seq<DiskTxPos>, k: nat, m: nat)
    requires |txs| == |pos| && k < m <= |txs| && ConnectTxs(map[], txs[..m], pos[..m]).Some?
    requires forall i :: 0 <= i < |pos| ==> !pos[i].IsNull()
    requires DistinctIds(txs[..m]) && !txs[k].IsCoinBase() && txs[k].vin != []
    ensures Spent(ConnectTxs(map[], txs[..m], pos[..m]).value, txs[k].vin[0].prevout)
    ensures exists j :: 0 <= j < k && txs[j].id == txs[k].vin[0].prevout.hash
    decreases m
  {
    var n, o := m - 1, txs[k].vin[0].prevout;
    assert txs[..m][..n] == txs[..n] && pos[..m][..n] == pos[..n];
    var before := ConnectTxs(map[], txs[..n], pos[..n]).value;
    if k == n {
      ConnectTxsCanonical(map[], txs[..n], pos[..n]);
      LastIsNew(txs[..m]);
      FirstInputSpent(before, txs[n], pos[n]);
      var j :| 0 <= j < n && txs[..n][j].id == o.hash;
      assert txs[j].id == o.hash;
    } else {
      assert DistinctIds(txs[..n]);
      InputStaysSpent(txs, pos, k, n);
      var j :| 0 <= j < k && txs[j].id == o.hash;
      assert txs[..m][j].id != txs[..m][n].id;
      SpentStaysSpent(before, txs[n], pos[n], o);
    }
  }

  lemma LastIsNew(txs: seq<Tx>)
    requires txs != [] && DistinctIds(txs)
    ensures txs[|txs| - 1].id !in Ids(txs[..|txs| - 1])
  {
  }

  /** On an index built from nothing no id ever repeats, given that ids name transactions, that every
      transaction has an input and that coinbases do not repeat: a repeated transaction would have to
      spend again what its first occurrence spent. */
  lemma {:induction false} NoIdRepeats(name: Txid -> Tx, txs: seq<Tx>, pos: seq<DiskTxPos>)
    requires |txs| == |pos| && ConnectTxs(map[], txs, pos).Some?
    requires forall i :: 0 <= i < |pos| ==> !pos[i].IsNull()
    requires Named(name, txs) && HaveInputs(txs) && CoinbasesDiffer(txs)
    ensures DistinctIds(txs)
  {
    if txs != [] {
      var n := |txs| - 1;
      NoIdRepeats(name, txs[..n], pos[..n]);
      forall k | 0 <= k < n ensures txs[k].id != txs[n].id {
        if !txs[k].IsCoinBase() {
          InputStaysSpent(txs, pos, k, n);
          if !txs[n].IsCoinBase() {
            SpendAllMarks(ConnectTxs(map[], txs[..n], pos[..n]).value, txs[n].vin, pos[n]);
          }
        }
      }
    }
  }

  /** Connecting two lists one after the other is connecting their concatenation. */
  lemma {:induction false} ConnectTxsAppend(idx: Index, a: seq<Tx>, p: seq<DiskTxPos>, b: seq<Tx>, q: seq<DiskTxPos>)
    requires |a| == |p| && |b| == |q|
    ensures ConnectTxs(idx, a + b, p + q)
         == if ConnectTxs(idx, a, p).Some? then ConnectTxs(ConnectTxs(idx, a, p).value, b, q) else None
    decreases |b|
  {
    hide ConnectTx;
    if b == [] {
      assert a + b == a && p + q == p;
    } else {
      var n := |b| - 1;
      ConnectTxsAppend(idx, a, p, b[..n], q[..n]);
      assert (a + b)[..|a| + n] == a + b[..n] && (p + q)[..|a| + n] == p + q[..n];
    }
  }
}
