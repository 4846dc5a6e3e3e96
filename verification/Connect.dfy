/** Fetching and connecting the inputs of transactions against the transaction index
    with pending changes laid over it. */
module Connect {
  import opened Ledger
  import opened Supply

  /** A fetched previous transaction: its index entry and itself. */
  type PrevTxs = map<Txid, (TxIndex, Tx)>

  datatype Mode = BlockMode | MinerMode | RelayMode

  /** Where transactions are read from: the block files and the memory pool. */
  datatype Source = Source(disk: Disk, pool: map<Txid, Tx>) {
    function TxAt(h: Txid, pos: DiskTxPos): Option<Tx> {
      if pos == POOL_POS then
        if h in pool then Some(pool[h]) else None
      else
        if pos in disk then Some(disk[pos]) else None
    }
  }

  /** Verdicts of code outside this model: whether a position lies in one of the last
      nCoinbaseMaturity blocks, signature checking, pay-to-script-hash signature operations,
      and the block's signature-operation limit. */
  datatype Rules = Rules(
    immature: DiskTxPos -> bool,
    sigOk: (Tx, Tx, nat) -> bool,
    p2shSigOps: (Tx, map<Txid, Tx>) -> nat,
    maxSigOps: nat)

  /** The maximum block size at first, and the least it can become. */
  const MAX_BLOCK_SIZE: nat := 20_512_000
  const MIN_BLOCK_SIZE: nat := 2_051_200

  /** The signature operations allowed in a block of at most `size` bytes. */
  function MaxSigOps(size: nat): nat {
    size / 50
  }

  function Hashes(vin: seq<TxIn>): set<Txid> {
    if vin == [] then {} else Hashes(vin[..|vin| - 1]) + {vin[|vin| - 1].prevout.hash}
  }

  lemma HashesStep(vin: seq<TxIn>, k: nat)
    requires k < |vin|
    ensures Hashes(vin[..k + 1]) == Hashes(vin[..k]) + {vin[k].prevout.hash}
  {
    assert vin[..k + 1][..k] == vin[..k];
  }

  lemma {:induction false} HashesHas(vin: seq<TxIn>, k: nat)
    requires k < |vin|
    ensures vin[k].prevout.hash in Hashes(vin)
  {
    if k < |vin| - 1 {
      HashesHas(vin[..|vin| - 1], k);
    }
  }

  // ----- FetchInputs ----------------------------------------------------------------

  /** The index entry and the transaction that a previous-transaction hash stands for. */
  function Lookup(db: Index, src: Source, queued: Index, mode: Mode, h: Txid): Option<(TxIndex, Tx)> {
    if (mode != RelayMode && h in queued) || h in db then
      var e := if mode != RelayMode && h in queued then queued[h] else db[h];
      var tx := src.TxAt(h, e.pos);
      if tx.Some? then Some((e, tx.value)) else None
    else if mode == RelayMode && h in src.pool then
      Some((TxIndex(NULL_POS, Unspents(|src.pool[h].vout|)), src.pool[h]))
    else None
  }

  predicate Fits(inputs: PrevTxs, o: OutPoint) {
    o.hash in inputs && o.n < |inputs[o.hash].1.vout| && o.n < |inputs[o.hash].0.vSpent|
  }

  predicate AllFound(db: Index, src: Source, queued: Index, mode: Mode, vin: seq<TxIn>, n: nat)
    requires n <= |vin|
  {
    n == 0 || (AllFound(db, src, queued, mode, vin, n - 1)
               && Lookup(db, src, queued, mode, vin[n - 1].prevout.hash).Some?)
  }

  lemma {:induction n} AllFoundMono(db: Index, src: Source, queued: Index, mode: Mode, vin: seq<TxIn>, m: nat, n: nat)
    requires m <= n <= |vin| && AllFound(db, src, queued, mode, vin, n)
    ensures AllFound(db, src, queued, mode, vin, m)
    decreases n
  {
  }

  predicate AllFit(inputs: PrevTxs, vin: seq<TxIn>, n: nat)
    requires n <= |vin|
  {
    n == 0 || (AllFit(inputs, vin, n - 1) && Fits(inputs, vin[n - 1].prevout))
  }

  lemma {:induction n} AllFitAt(inputs: PrevTxs, vin: seq<TxIn>, m: nat, n: nat)
    requires m < n <= |vin| && AllFit(inputs, vin, n)
    ensures Fits(inputs, vin[m].prevout)
    decreases n
  {
  }

  /** The previous transactions found for a set of hashes. */
  function Fetched(db: Index, src: Source, queued: Index, mode: Mode, hs: set<Txid>): PrevTxs {
    map h | h in hs && Lookup(db, src, queued, mode, h).Some? :: Lookup(db, src, queued, mode, h).value
  }

  /** Fetching fails when some previous transaction cannot be found, is invalid when one is
      found but has no such output, and otherwise returns exactly the previous transactions. */
  method FetchInputs(db: Index, src: Source, queued: Index, mode: Mode, tx: Tx)
    returns (ok: bool, inputs: PrevTxs, invalid: bool)
    ensures tx.IsCoinBase() ==> ok && inputs == map[] && !invalid
    ensures !tx.IsCoinBase() ==> (ok || invalid <==> AllFound(db, src, queued, mode, tx.vin, |tx.vin|))
    ensures !tx.IsCoinBase() && (ok || invalid) ==> inputs == Fetched(db, src, queued, mode, Hashes(tx.vin))
    ensures !tx.IsCoinBase() ==>
      (ok <==>
       && AllFound(db, src, queued, mode, tx.vin, |tx.vin|)
       && AllFit(Fetched(db, src, queued, mode, Hashes(tx.vin)), tx.vin, |tx.vin|))
    ensures !(ok && invalid)
  {
    if tx.IsCoinBase() {
      return true, map[], false;
    }
    ok, inputs := FetchAll(db, src, queued, mode, tx.vin);
    if !ok {
      return false, inputs, false;
    }
    ok := CheckRange(inputs, tx.vin);
    invalid := !ok;
  }

  method FetchAll(db: Index, src: Source, queued: Index, mode: Mode, vin: seq<TxIn>) returns (ok: bool, inputs: PrevTxs)
    ensures ok <==> AllFound(db, src, queued, mode, vin, |vin|)
    ensures ok ==> inputs == Fetched(db, src, queued, mode, Hashes(vin))
  {
    inputs := map[];
    for i := 0 to |vin|
      invariant inputs == Fetched(db, src, queued, mode, Hashes(vin[..i]))
      invariant AllFound(db, src, queued, mode, vin, i)
    {
      HashesStep(vin, i);
      var h := vin[i].prevout.hash;
      if h !in inputs {
        var found, entry := FetchOne(db, src, queued, mode, h);
        if !found {
          if AllFound(db, src, queued, mode, vin, |vin|) {
            AllFoundMono(db, src, queued, mode, vin, i + 1, |vin|);
          }
          return false, inputs;
        }
        FetchedAdd(db, src, queued, mode, Hashes(vin[..i]), h);
        inputs := inputs[h := entry];
      } else {
        assert Hashes(vin[..i]) + {h} == Hashes(vin[..i]);
      }
    }
    assert vin[..|vin|] == vin;
    ok := true;
  }

  lemma FetchedAdd(db: Index, src: Source, queued: Index, mode: Mode, hs: set<Txid>, h: Txid)
    requires Lookup(db, src, queued, mode, h).Some?
    ensures Fetched(db, src, queued, mode, hs + {h})
            == Fetched(db, src, queued, mode, hs)[h := Lookup(db, src, queued, mode, h).value]
  {
  }

  method FetchOne(db: Index, src: Source, queued: Index, mode: Mode, h: Txid)
    returns (found: bool, entry: (TxIndex, Tx))
    ensures found <==> Lookup(db, src, queued, mode, h).Some?
    ensures found ==> Lookup(db, src, queued, mode, h) == Some(entry)
  {
    found := true;
    var e := TxIndex(NULL_POS, []);
    entry := (e, Tx(0, 0, [], [], 0, 0));
    if mode != RelayMode && h in queued {
      e := queued[h];
    } else if h in db {
      e := db[h];
    } else {
      found := false;
    }
    if !found && mode != RelayMode {
      return;
    }
    if !found || e.pos == POOL_POS {
      if h !in src.pool {
        return false, entry;
      }
      if !found {
        e := e.(vSpent := Unspents(|src.pool[h].vout|));
      }
      return true, (e, src.pool[h]);
    }
    if e.pos !in src.disk {
      return false, entry;
    }
    entry := (e, src.disk[e.pos]);
  }

  /** Make sure all output numbers are valid. */
  method CheckRange(inputs: PrevTxs, vin: seq<TxIn>) returns (ok: bool)
    ensures ok <==> AllFit(inputs, vin, |vin|)
  {
    for i := 0 to |vin|
      invariant AllFit(inputs, vin, i)
    {
      if !Fits(inputs, vin[i].prevout) {
        if AllFit(inputs, vin, |vin|) {
          AllFitAt(inputs, vin, i, |vin|);
        }
        return false;
      }
    }
    ok := true;
  }

  // ----- ConnectInputs --------------------------------------------------------------

  /** The index entries of the fetched inputs. */
  function Marks(inputs: PrevTxs): Index {
    map h | h in inputs :: inputs[h].0
  }

  function Txs(inputs: PrevTxs): map<Txid, Tx> {
    map h | h in inputs :: inputs[h].1
  }

  function PaidBy(inputs: PrevTxs, o: OutPoint): int {
    if o.hash in inputs && o.n < |inputs[o.hash].1.vout| then inputs[o.hash].1.vout[o.n].nValue else 0
  }

  function PaidIn(inputs: PrevTxs, vin: seq<TxIn>): int {
    if vin == [] then 0 else PaidIn(inputs, vin[..|vin| - 1]) + PaidBy(inputs, vin[|vin| - 1].prevout)
  }

  predicate InputPasses(r: Rules, tx: Tx, inputs: PrevTxs, i: nat)
    requires i < |tx.vin|
  {
    var o := tx.vin[i].prevout;
    && Fits(inputs, o)
    && var prev := inputs[o.hash].1;
    && !((prev.IsCoinBase() || prev.IsCoinStake()) && r.immature(inputs[o.hash].0.pos))
    && prev.nTime <= tx.nTime
    && !prev.vout[o.n].IsEmpty()
    && MoneyRange(prev.vout[o.n].nValue)
    && MoneyRange(PaidIn(inputs, tx.vin[..i + 1]))
  }

  predicate InputsPass(r: Rules, tx: Tx, inputs: PrevTxs, n: nat)
    requires n <= |tx.vin|
  {
    n == 0 || (InputsPass(r, tx, inputs, n - 1) && InputPasses(r, tx, inputs, n - 1))
  }

  lemma {:induction n} InputsPassAt(r: Rules, tx: Tx, inputs: PrevTxs, m: nat, n: nat)
    requires m < n <= |tx.vin| && InputsPass(r, tx, inputs, n)
    ensures InputPasses(r, tx, inputs, m)
    decreases n
  {
  }

  lemma {:induction n} InputsPassFit(r: Rules, tx: Tx, inputs: PrevTxs, n: nat)
    requires n <= |tx.vin| && InputsPass(r, tx, inputs, n)
    ensures AllFit(inputs, tx.vin, n)
  {
  }

  predicate SigPasses(r: Rules, tx: Tx, inputs: PrevTxs, i: nat)
    requires i < |tx.vin|
  {
    tx.vin[i].prevout.hash in inputs && r.sigOk(inputs[tx.vin[i].prevout.hash].1, tx, i)
  }

  predicate SigsPass(r: Rules, tx: Tx, inputs: PrevTxs, n: nat)
    requires n <= |tx.vin|
  {
    n == 0 || (SigsPass(r, tx, inputs, n - 1) && SigPasses(r, tx, inputs, n - 1))
  }

  lemma {:induction n} SigsPassAt(r: Rules, tx: Tx, inputs: PrevTxs, m: nat, n: nat)
    requires m < n <= |tx.vin| && SigsPass(r, tx, inputs, n)
    ensures SigPasses(r, tx, inputs, m)
    decreases n
  {
  }

  predicate FeePasses(tx: Tx, paid: int) {
    tx.IsCoinStake() || (paid >= ValueOut(tx.vout) && MoneyRange(paid - ValueOut(tx.vout)))
  }

  ghost predicate ConnectPasses(r: Rules, tx: Tx, inputs: PrevTxs, p: DiskTxPos) {
    || tx.IsCoinBase()
    || (&& InputsPass(r, tx, inputs, |tx.vin|)
        && SpendAll(Marks(inputs), tx.vin, p).Some?
        && SigsPass(r, tx, inputs, |tx.vin|)
        && FeePasses(tx, PaidIn(inputs, tx.vin)))
  }

  lemma SpendAllPrefix(idx: Index, vin: seq<TxIn>, p: DiskTxPos, k: nat)
    requires k <= |vin| && SpendAll(idx, vin, p).Some?
    ensures SpendAll(idx, vin[..k], p).Some?
    decreases |vin|
  {
    if k < |vin| {
      SpendAllPrefix(idx, vin[..|vin| - 1], p, k);
      assert vin[..|vin| - 1][..k] == vin[..k];
    } else {
      assert vin[..k] == vin;
    }
  }

  lemma SpendAllStep(idx: Index, vin: seq<TxIn>, p: DiskTxPos, k: nat)
    requires k < |vin| && SpendAll(idx, vin[..k], p).Some?
    ensures var b := SpendAll(idx, vin[..k], p).value; var o := vin[k].prevout;
            SpendAll(idx, vin[..k + 1], p) == if CanSpend(b, o) then Some(Mark(b, o, p)) else None
  {
    assert vin[..k + 1][..k] == vin[..k];
  }

  /** Spending keeps the keys and the number of marks of every entry. */
  lemma {:induction false} SpendAllShape(idx: Index, vin: seq<TxIn>, p: DiskTxPos)
    requires SpendAll(idx, vin, p).Some?
    ensures SpendAll(idx, vin, p).value.Keys == idx.Keys
    ensures forall h :: h in idx ==> |SpendAll(idx, vin, p).value[h].vSpent| == |idx[h].vSpent|
    ensures forall h :: h in idx ==> SpendAll(idx, vin, p).value[h].pos == idx[h].pos
  {
    if vin != [] {
      SpendAllShape(idx, vin[..|vin| - 1], p);
    }
  }

  lemma PaidInStep(inputs: PrevTxs, vin: seq<TxIn>, k: nat)
    requires k < |vin|
    ensures PaidIn(inputs, vin[..k + 1]) == PaidIn(inputs, vin[..k]) + PaidBy(inputs, vin[k].prevout)
  {
    assert vin[..k + 1][..k] == vin[..k];
  }

  function Restrict(idx: Index, hs: set<Txid>): Index {
    map h | h in idx && h in hs :: idx[h]
  }

  /** The second loop of ConnectInputs as a fold: marks so far and pending changes so far. */
  function MarkFold(idx: Index, queued: Index, vin: seq<TxIn>, p: DiskTxPos): Option<(Index, Index)> {
    if vin == [] then Some((idx, queued))
    else
      var before := MarkFold(idx, queued, vin[..|vin| - 1], p);
      var o := vin[|vin| - 1].prevout;
      if before.Some? && CanSpend(before.value.0, o) then
        var m := Mark(before.value.0, o, p);
        Some((m, before.value.1[o.hash := m[o.hash]]))
      else None
  }

  lemma RestrictMark(queued: Index, s: Index, o: OutPoint, p: DiskTxPos, hs: set<Txid>)
    requires InRange(s, o)
    ensures (queued + Restrict(s, hs))[o.hash := Mark(s, o, p)[o.hash]]
            == queued + Restrict(Mark(s, o, p), hs + {o.hash})
  {
  }

  lemma {:induction false} MarkFoldSpends(idx: Index, queued: Index, vin: seq<TxIn>, p: DiskTxPos)
    ensures MarkFold(idx, queued, vin, p).Some? <==> SpendAll(idx, vin, p).Some?
    ensures MarkFold(idx, queued, vin, p).Some? ==>
              && MarkFold(idx, queued, vin, p).value.0 == SpendAll(idx, vin, p).value
              && MarkFold(idx, queued, vin, p).value.1 == queued + Restrict(SpendAll(idx, vin, p).value, Hashes(vin))
  {
    if vin != [] {
      var f, o := vin[..|vin| - 1], vin[|vin| - 1].prevout;
      MarkFoldSpends(idx, queued, f, p);
      if SpendAll(idx, vin, p).Some? {
        RestrictMark(queued, SpendAll(idx, f, p).value, o, p, Hashes(f));
      }
    }
  }

  lemma MarkFoldStep(idx: Index, queued: Index, vin: seq<TxIn>, p: DiskTxPos, k: nat)
    requires k < |vin| && MarkFold(idx, queued, vin[..k], p).Some?
    ensures var b := MarkFold(idx, queued, vin[..k], p).value; var o := vin[k].prevout;
            MarkFold(idx, queued, vin[..k + 1], p)
            == if CanSpend(b.0, o) then Some((Mark(b.0, o, p), b.1[o.hash := Mark(b.0, o, p)[o.hash]])) else None
  {
    assert vin[..k + 1][..k] == vin[..k];
  }

  /** First loop: the inexpensive checks. */
  method CheckInputs(r: Rules, tx: Tx, inputs: PrevTxs) returns (ok: bool, valueIn: int)
    requires Hashes(tx.vin) <= inputs.Keys
    ensures ok <==> InputsPass(r, tx, inputs, |tx.vin|)
    ensures ok ==> valueIn == PaidIn(inputs, tx.vin)
  {
    valueIn, ok := 0, true;
    for i := 0 to |tx.vin|
      invariant InputsPass(r, tx, inputs, i)
      invariant valueIn == PaidIn(inputs, tx.vin[..i])
    {
      ok, valueIn := CheckInput(r, tx, inputs, i, valueIn);
      if !ok {
        if InputsPass(r, tx, inputs, |tx.vin|) {
          InputsPassAt(r, tx, inputs, i, |tx.vin|);
        }
        return;
      }
    }
    assert tx.vin[..|tx.vin|] == tx.vin;
    ok := true;
  }

  method CheckInput(r: Rules, tx: Tx, inputs: PrevTxs, i: nat, before: int) returns (ok: bool, valueIn: int)
    requires i < |tx.vin| && Hashes(tx.vin) <= inputs.Keys && before == PaidIn(inputs, tx.vin[..i])
    ensures ok <==> InputPasses(r, tx, inputs, i)
    ensures ok ==> valueIn == PaidIn(inputs, tx.vin[..i + 1])
  {
    valueIn := before;
    var o := tx.vin[i].prevout;
    HashesHas(tx.vin, i);
    var txindex, prev := inputs[o.hash].0, inputs[o.hash].1;
    PaidInStep(inputs, tx.vin, i);
    if o.n >= |prev.vout| || o.n >= |txindex.vSpent| {
      return false, valueIn;
    }
    if (prev.IsCoinBase() || prev.IsCoinStake()) && r.immature(txindex.pos) {
      return false, valueIn;
    }
    if prev.nTime > tx.nTime {
      return false, valueIn;
    }
    if prev.vout[o.n].IsEmpty() {
      return false, valueIn;
    }
    valueIn := valueIn + prev.vout[o.n].nValue;
    ok := MoneyRange(prev.vout[o.n].nValue) && MoneyRange(valueIn);
  }

  /** Second loop: double-spend and signature checks; marks each input spent and, for a
      block or the miner, writes its entry to the pending changes. */
  method MarkInputs(r: Rules, tx: Tx, inputs: PrevTxs, queued: Index, p: DiskTxPos, write: bool)
    returns (ok: bool, queued': Index)
    requires Hashes(tx.vin) == inputs.Keys
    requires AllFit(inputs, tx.vin, |tx.vin|)
    ensures ok <==> SpendAll(Marks(inputs), tx.vin, p).Some? && SigsPass(r, tx, inputs, |tx.vin|)
    ensures ok && write ==> queued' == queued + SpendAll(Marks(inputs), tx.vin, p).value
    ensures !write ==> queued' == queued
  {
    hide MarkFold, SpendAll, Hashes, Mark, Marks, Txs, AllFit;
    var cur := inputs;
    queued' := queued;
    MarkFoldStart(Marks(inputs), queued, tx.vin, p);
    for i := 0 to |tx.vin|
      invariant MarkFold(Marks(inputs), queued, tx.vin[..i], p).Some?
      invariant MarkFold(Marks(inputs), queued, tx.vin[..i], p).value.0 == Marks(cur)
      invariant queued' == if write then MarkFold(Marks(inputs), queued, tx.vin[..i], p).value.1 else queued
      invariant Txs(cur) == Txs(inputs)
      invariant SigsPass(r, tx, inputs, i)
    {
      var o := tx.vin[i].prevout;
      AllFitAt(inputs, tx.vin, i, |tx.vin|);
      StillFits(inputs, cur, queued, tx.vin[..i], p, o);
      MarksAt(cur, o, p);
      MarkFoldStep(Marks(inputs), queued, tx.vin, p, i);
      if !cur[o.hash].0.vSpent[o.n].IsNull() {
        MarkFoldSpends(Marks(inputs), queued, tx.vin[..i], p);
        NotSpendable(Marks(inputs), tx.vin, p, i);
        return false, queued';
      }
      if !r.sigOk(cur[o.hash].1, tx, i) {
        if SigsPass(r, tx, inputs, |tx.vin|) {
          SigsPassAt(r, tx, inputs, i, |tx.vin|);
        }
        return false, queued';
      }
      var e := cur[o.hash].0.(vSpent := cur[o.hash].0.vSpent[o.n := p]);
      MarksUpdate(cur, o, p);
      cur := cur[o.hash := (e, cur[o.hash].1)];
      if write {
        queued' := queued'[o.hash := e];
      }
    }
    assert tx.vin[..|tx.vin|] == tx.vin;
    MarkFoldSpends(Marks(inputs), queued, tx.vin, p);
    SpendAllShape(Marks(inputs), tx.vin, p);
    MarksKeys(inputs);
    assert Restrict(Marks(cur), Hashes(tx.vin)) == Marks(cur);
    ok := true;
  }

  lemma MarkFoldStart(idx: Index, queued: Index, vin: seq<TxIn>, p: DiskTxPos)
    ensures MarkFold(idx, queued, vin[..0], p) == Some((idx, queued))
  {
  }

  lemma MarksKeys(inputs: PrevTxs)
    ensures Marks(inputs).Keys == inputs.Keys
  {
  }

  lemma MarksAt(cur: PrevTxs, o: OutPoint, p: DiskTxPos)
    requires o.hash in cur && o.n < |cur[o.hash].0.vSpent|
    ensures InRange(Marks(cur), o)
    ensures CanSpend(Marks(cur), o) <==> cur[o.hash].0.vSpent[o.n].IsNull()
    ensures Mark(Marks(cur), o, p)[o.hash] == cur[o.hash].0.(vSpent := cur[o.hash].0.vSpent[o.n := p])
  {
  }

  lemma StillFits(inputs: PrevTxs, cur: PrevTxs, queued: Index, vin: seq<TxIn>, p: DiskTxPos, o: OutPoint)
    requires MarkFold(Marks(inputs), queued, vin, p).Some?
             && MarkFold(Marks(inputs), queued, vin, p).value.0 == Marks(cur)
    requires Txs(cur) == Txs(inputs) && Fits(inputs, o)
    ensures Fits(cur, o) && cur[o.hash].1 == inputs[o.hash].1
  {
    MarkFoldSpends(Marks(inputs), queued, vin, p);
    SpendAllShape(Marks(inputs), vin, p);
    assert Txs(inputs)[o.hash] == inputs[o.hash].1 && o.hash in Txs(cur);
    assert Txs(cur)[o.hash] == cur[o.hash].1;
    assert Marks(inputs)[o.hash] == inputs[o.hash].0 && Marks(cur)[o.hash] == cur[o.hash].0;
  }

  lemma MarksUpdate(cur: PrevTxs, o: OutPoint, p: DiskTxPos)
    requires o.hash in cur && o.n < |cur[o.hash].0.vSpent|
    ensures var e := cur[o.hash].0.(vSpent := cur[o.hash].0.vSpent[o.n := p]);
            && Marks(cur[o.hash := (e, cur[o.hash].1)]) == Mark(Marks(cur), o, p)
            && Txs(cur[o.hash := (e, cur[o.hash].1)]) == Txs(cur)
  {
  }

  lemma NotSpendable(idx: Index, vin: seq<TxIn>, p: DiskTxPos, k: nat)
    requires k < |vin| && SpendAll(idx, vin[..k], p).Some?
    requires !CanSpend(SpendAll(idx, vin[..k], p).value, vin[k].prevout)
    ensures SpendAll(idx, vin, p).None?
  {
    if SpendAll(idx, vin, p).Some? {
      SpendAllPrefix(idx, vin, p, k + 1);
      SpendAllStep(idx, vin, p, k);
    }
  }

  /** Connecting the inputs succeeds exactly when every check passes, and then the pending
      changes hold the inputs' entries with this transaction's marks. */
  method ConnectInputs(r: Rules, tx: Tx, inputs: PrevTxs, queued: Index, p: DiskTxPos, mode: Mode)
    returns (ok: bool, queued': Index)
    requires !tx.IsCoinBase() ==> Hashes(tx.vin) == inputs.Keys
    ensures ok <==> ConnectPasses(r, tx, inputs, p)
    ensures tx.IsCoinBase() || mode == RelayMode ==> queued' == queued
    ensures ok && !tx.IsCoinBase() && mode != RelayMode ==> queued' == queued + SpendAll(Marks(inputs), tx.vin, p).value
  {
    if tx.IsCoinBase() {
      return true, queued;
    }
    var valueIn;
    ok, valueIn := CheckInputs(r, tx, inputs);
    if !ok {
      return false, queued;
    }
    InputsPassFit(r, tx, inputs, |tx.vin|);
    ok, queued' := MarkInputs(r, tx, inputs, queued, p, mode != RelayMode);
    if !ok {
      return false, queued';
    }
    if !tx.IsCoinStake() {
      if valueIn < ValueOut(tx.vout) {
        return false, queued';
      }
      if !MoneyRange(valueIn - ValueOut(tx.vout)) {
        return false, queued';
      }
    }
    ok := true;
  }
}
