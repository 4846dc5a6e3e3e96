/** What ConnectBlock asks of a block, in plain conditions on its transactions and in totals. */
module Lawful {
  import opened Sequences
  import opened Ledger
  import opened Supply
  import opened Connect
  import opened BlockConnect
  import opened Blocks
  import opened Spending

  // ----- The shape of a block ---------------------------------------------------------------------

  /** The first transaction and no other is a coinbase; with a coinstake in second place the coinbase is
      empty and no other coinstake follows; nothing comes twice. */
  ghost predicate GoodShape(txs: seq<Tx>) {
    && txs != []
    && (forall k :: 0 <= k < |txs| ==> (txs[k].IsCoinBase() <==> k == 0))
    && (|txs| > 1 && txs[1].IsCoinStake() ==>
          txs[0].vout == [TxOut(0, [])] && forall k :: 2 <= k < |txs| ==> !txs[k].IsCoinStake())
    && (forall j, k :: 0 <= j < k < |txs| ==> txs[j].id != txs[k].id)
    && forall k :: 0 <= k < |txs| ==> GoodTransaction(txs[k])
  }

  /** Inputs and outputs are there, no output is empty unless the transaction generates, all amounts and
      their total are in range, no input comes twice, and only a coinbase, with two to a hundred bytes of
      script, names no previous output. */
  ghost predicate GoodTransaction(tx: Tx) {
    && tx.vin != [] && tx.vout != []
    && (!tx.IsCoinBase() && !tx.IsCoinStake() ==> TxOut(0, []) !in tx.vout)
    && (forall j :: 0 <= j < |tx.vout| ==> 0 <= tx.vout[j].nValue)
    && Total(OutputValues(tx.vout)) <= 30_000_000_000_000_000
    && (forall i, j :: 0 <= i < j < |tx.vin| ==> tx.vin[i].prevout != tx.vin[j].prevout)
    && (tx.IsCoinBase() ==> 2 <= |tx.vin[0].scriptSig| <= 100)
    && (!tx.IsCoinBase() ==> forall i :: 0 <= i < |tx.vin| ==> tx.vin[i].prevout != OutPoint(0, 4_294_967_295))
  }

  lemma {:induction false} ValuesIff(vout: seq<TxOut>)
    ensures ValuesInRange(vout) <==>
            && (forall j :: 0 <= j < |vout| ==> 0 <= vout[j].nValue)
            && Total(OutputValues(vout)) <= 30_000_000_000_000_000
  {
    if vout != [] {
      var f, s := vout[..|vout| - 1], OutputValues(vout);
      ValuesIff(f);
      ValueOutIsTotal(vout);
      ValueOutIsTotal(f);
      assert s[..|f|] == OutputValues(f);
      TotalSnoc(s);
      if forall j :: 0 <= j < |f| ==> 0 <= f[j].nValue {
        TotalNonNegative(OutputValues(f));
      }
    }
  }

  lemma TransactionIff(tx: Tx)
    ensures CheckTransaction(tx) <==> GoodTransaction(tx)
  {
    ValuesIff(tx.vout);
  }

  lemma ShapeIff(txs: seq<Tx>)
    ensures CheckBlock(txs) <==> GoodShape(txs)
  {
    hide CheckTransaction, GoodTransaction;
    forall k | 0 <= k < |txs| ensures CheckTransaction(txs[k]) <==> GoodTransaction(txs[k]) {
      TransactionIff(txs[k]);
    }
  }

  // ----- Limits ---------------------------------------------------------------------------------------

  function Sizes(txs: seq<Tx>): (s: seq<int>)
    ensures |s| == |txs| && forall i :: 0 <= i < |s| ==> s[i] == txs[i].size
  {
    seq(|txs|, i requires 0 <= i < |txs| => txs[i].size)
  }

  function OwnOps(txs: seq<Tx>): (s: seq<int>)
    ensures |s| == |txs| && forall i :: 0 <= i < |s| ==> s[i] == txs[i].legacySigOps
  {
    seq(|txs|, i requires 0 <= i < |txs| => txs[i].legacySigOps)
  }

  lemma {:induction false} SumsAreTotals(txs: seq<Tx>)
    ensures SizeOf(txs) == Total(Sizes(txs)) && LegacySigOps(txs) == Total(OwnOps(txs))
  {
    if txs != [] {
      var f := txs[..|txs| - 1];
      SumsAreTotals(f);
      assert Sizes(txs)[..|f|] == Sizes(f) && OwnOps(txs)[..|f|] == OwnOps(f);
      TotalSnoc(Sizes(txs));
      TotalSnoc(OwnOps(txs));
    }
  }

  /** The bytes a count takes: one up to 252, else a marker and two, four or eight. */
  lemma CountBytes(n: nat)
    ensures CompactSize(n) == 1 <==> n <= 252
    ensures CompactSize(n) == 3 <==> 253 <= n <= 65_535
    ensures CompactSize(n) == 5 <==> 65_536 <= n <= 4_294_967_295
    ensures CompactSize(n) == 9 <==> n >= 4_294_967_296
  {
  }

  lemma LimitsIff(limit: nat, b: Block)
    ensures WithinLimits(limit, b) <==>
            && |b.vtx| <= limit
            && 80 + CompactSize(|b.vtx|) + Total(Sizes(b.vtx)) + CompactSize(b.sigSize) + b.sigSize <= limit
            && 50 * Total(OwnOps(b.vtx)) <= limit
  {
    SumsAreTotals(b.vtx);
  }

  /** Transactions lie back to back behind header and count. */
  lemma Layout(b: Block, k: nat)
    requires k < |b.vtx|
    ensures Pos(b)[k].nFile == b.nFile && Pos(b)[k].nBlockPos == b.nBlockPos
    ensures Pos(b)[k].nTxPos
         == if k == 0 then b.nBlockPos + 80 + CompactSize(|b.vtx|) else Pos(b)[k - 1].nTxPos + b.vtx[k - 1].size
  {
    PositionAt(b.nFile, b.nBlockPos, StartPos(b), b.vtx, k);
    if k > 0 {
      PositionAt(b.nFile, b.nBlockPos, StartPos(b), b.vtx, k - 1);
      assert b.vtx[..k][..k - 1] == b.vtx[..k - 1];
    }
  }

  // ----- The subsidy ----------------------------------------------------------------------------------

  /** 990,000 coins from height two on while there are less than 99 million; nothing before it with more
      than 300 million; else 300 coins if the draw succeeds and 99 if not. */
  lemma SubsidyIs(env: Env, nHeight: nat, best: BlockIndex, supply: int)
    ensures var s, drawn := Subsidy(env, nHeight, best, supply),
                            env.superblock(if best.Child? then best.pprev.block.hash else 0);
            && (nHeight >= 2 && supply < 99_000_000 * 100_000_000 ==> s == 990_000 * 100_000_000)
            && (nHeight < 2 && supply > 300_000_000 * 100_000_000 ==> s == 0)
            && ((if nHeight >= 2 then supply >= 99_000_000 * 100_000_000 else supply <= 300_000_000 * 100_000_000) ==>
                  s == if drawn then 300 * 100_000_000 else 99 * 100_000_000)
  {
  }

  // ----- A list of transactions -------------------------------------------------------------------

  /** The index that the `k`-th transaction meets. */
  ghost function Met(idx: Index, txs: seq<Tx>, pos: seq<DiskTxPos>, k: nat): Option<Index>
    requires k <= |txs| == |pos|
  {
    ConnectTxs(idx, txs[..k], pos[..k])
  }

  /** What its inputs are worth; a coinbase has none. */
  ghost function Paid(idx: Index, disk: Disk, txs: seq<Tx>, pos: seq<DiskTxPos>, k: nat): int
    requires k < |txs| == |pos|
  {
    var m := Met(idx, txs, pos, k);
    if txs[k].IsCoinBase() || m.None? then 0 else Total(WorthIn(m.value, disk, txs[k].vin))
  }

  ghost function Fees(idx: Index, disk: Disk, txs: seq<Tx>, pos: seq<DiskTxPos>): (s: seq<int>)
    requires |txs| == |pos|
    ensures |s| == |txs| && forall k :: 0 <= k < |s| ==>
              s[k] == if txs[k].IsCoinBase() || txs[k].IsCoinStake() then 0
                      else Paid(idx, disk, txs, pos, k) - Total(OutputValues(txs[k].vout))
  {
    seq(|txs|, k requires 0 <= k < |txs| =>
      if txs[k].IsCoinBase() || txs[k].IsCoinStake() then 0
      else Paid(idx, disk, txs, pos, k) - Total(OutputValues(txs[k].vout)))
  }

  /** The previous transactions of the inputs. */
  ghost function Parents(idx: Index, disk: Disk, tx: Tx): map<Txid, Tx> {
    map i | 0 <= i < |tx.vin| && tx.vin[i].prevout.hash in idx && idx[tx.vin[i].prevout.hash].pos in disk
      :: tx.vin[i].prevout.hash := disk[idx[tx.vin[i].prevout.hash].pos]
  }

  /** Its own signature operations and those of the scripts its inputs pay to. */
  ghost function OpsOf(env: Env, idx: Index, disk: Disk, txs: seq<Tx>, pos: seq<DiskTxPos>, k: nat): nat
    requires k < |txs| == |pos|
  {
    var m := Met(idx, txs, pos, k);
    txs[k].legacySigOps
    + if txs[k].IsCoinBase() || m.None? then 0 else env.p2shSigOps(txs[k], Parents(m.value, disk, txs[k]))
  }

  ghost function Ops(env: Env, idx: Index, disk: Disk, txs: seq<Tx>, pos: seq<DiskTxPos>): (s: seq<int>)
    requires |txs| == |pos|
    ensures |s| == |txs| && forall k :: 0 <= k < |s| ==> s[k] == OpsOf(env, idx, disk, txs, pos, k)
  {
    seq(|txs|, k requires 0 <= k < |txs| => OpsOf(env, idx, disk, txs, pos, k))
  }

  lemma {:induction false} HashesAre(vin: seq<TxIn>, h: Txid)
    ensures h in Hashes(vin) <==> exists i :: 0 <= i < |vin| && vin[i].prevout.hash == h
  {
    if vin != [] {
      var f, l := vin[..|vin| - 1], vin[|vin| - 1];
      HashesAre(f, h);
      if i :| 0 <= i < |vin| && vin[i].prevout.hash == h {
        assert i == |f| || f[i].prevout.hash == h;
      }
      if i :| 0 <= i < |f| && f[i].prevout.hash == h {
        assert vin[i].prevout.hash == h;
      }
    }
  }

  lemma ParentsAreFetched(idx: Index, disk: Disk, tx: Tx)
    requires NoPool(idx)
    ensures Txs(Prev(Source(disk, map[]), idx, tx)) == Parents(idx, disk, tx)
  {
    var a := Txs(Prev(Source(disk, map[]), idx, tx));
    forall h ensures h in a <==> h in Parents(idx, disk, tx) {
      HashesAre(tx.vin, h);
    }
    forall h | h in a ensures a[h] == Parents(idx, disk, tx)[h] {
      HashesAre(tx.vin, h);
    }
  }

  /** The transaction is accepted where it stands. */
  ghost predicate GoodAt(env: Env, b: BlockIndex, idx: Index, disk: Disk, txs: seq<Tx>, pos: seq<DiskTxPos>, k: nat)
    requires k < |txs| == |pos|
  {
    var m := Met(idx, txs, pos, k);
    m.Some? && (txs[k].IsCoinBase() || GoodSpending(env, b, m.value, disk, txs[k]))
  }

  lemma MetBefore(idx: Index, txs: seq<Tx>, pos: seq<DiskTxPos>, n: nat, k: nat)
    requires k <= n <= |txs| == |pos|
    ensures Met(idx, txs[..n], pos[..n], k) == Met(idx, txs, pos, k)
  {
    assert txs[..n][..k] == txs[..k] && pos[..n][..k] == pos[..k];
  }

  /** What is said of the first transactions does not depend on those behind them. */
  lemma PrefixFacts(env: Env, b: BlockIndex, idx: Index, disk: Disk, txs: seq<Tx>, pos: seq<DiskTxPos>)
    requires |txs| == |pos| > 0
    ensures var n := |txs| - 1;
            && Fees(idx, disk, txs, pos)[..n] == Fees(idx, disk, txs[..n], pos[..n])
            && Ops(env, idx, disk, txs, pos)[..n] == Ops(env, idx, disk, txs[..n], pos[..n])
            && forall k :: 0 <= k < n ==>
                 GoodAt(env, b, idx, disk, txs[..n], pos[..n], k) == GoodAt(env, b, idx, disk, txs, pos, k)
  {
    hide GoodAt, Fees, Ops, OpsOf, Paid;
    var n := |txs| - 1;
    forall k | 0 <= k < n
      ensures Paid(idx, disk, txs[..n], pos[..n], k) == Paid(idx, disk, txs, pos, k)
      ensures OpsOf(env, idx, disk, txs[..n], pos[..n], k) == OpsOf(env, idx, disk, txs, pos, k)
      ensures GoodAt(env, b, idx, disk, txs[..n], pos[..n], k) == GoodAt(env, b, idx, disk, txs, pos, k)
    {
      PrefixFact(env, b, idx, disk, txs, pos, n, k);
    }
  }

  lemma PrefixFact(
    env: Env, b: BlockIndex, idx: Index, disk: Disk, txs: seq<Tx>, pos: seq<DiskTxPos>, n: nat, k: nat)
    requires k < n <= |txs| == |pos|
    ensures Paid(idx, disk, txs[..n], pos[..n], k) == Paid(idx, disk, txs, pos, k)
    ensures OpsOf(env, idx, disk, txs[..n], pos[..n], k) == OpsOf(env, idx, disk, txs, pos, k)
    ensures GoodAt(env, b, idx, disk, txs[..n], pos[..n], k) == GoodAt(env, b, idx, disk, txs, pos, k)
  {
    hide GoodSpending, Met, Parents, WorthIn;
    MetBefore(idx, txs, pos, n, k);
  }

  /** The last transaction, where the ones before it are accepted. */
  lemma LastIff(
    env: Env, b: BlockIndex, idx: Index, disk: Disk, txs: seq<Tx>, pos: seq<DiskTxPos>, t: Tally)
    requires |txs| == |pos| > 0 && !pos[|pos| - 1].IsNull()
    requires var m := Met(idx, txs, pos, |txs| - 1); m.Some? && NoPool(m.value)
    ensures var n, r, src := |txs| - 1, RulesFor(env, b), Source(disk, map[]);
            var m := Met(idx, txs, pos, n).value;
            var one := AcceptOne(r, src, (m, t), txs[n], pos[n]);
            && (one.Some? <==> GoodAt(env, b, idx, disk, txs, pos, n)
                               && t.sigOps + OpsOf(env, idx, disk, txs, pos, n) <= MaxSigOps(env.blockSize(b)))
            && (one.Some? ==>
                  var t' := one.value.1;
                  && t'.fees == t.fees + Fees(idx, disk, txs, pos)[n]
                  && t'.sigOps == t.sigOps + OpsOf(env, idx, disk, txs, pos, n)
                  && t'.stakeReward == if txs[n].IsCoinStake() && !txs[n].IsCoinBase()
                                       then Total(OutputValues(txs[n].vout)) - Paid(idx, disk, txs, pos, n)
                                       else t.stakeReward)
  {
    hide Met, GoodSpending, TxAccepted, ConnectTx, Prev, PaidIn, Txs, WorthIn, Parents;
    var n := |txs| - 1;
    var m := Met(idx, txs, pos, n).value;
    ValueOutIsTotal(txs[n].vout);
    if !txs[n].IsCoinBase() {
      SpendingIff(env, b, m, disk, txs[n], pos[n]);
      PaidIsTotal(m, disk, txs[n], |txs[n].vin|);
      assert txs[n].vin[..|txs[n].vin|] == txs[n].vin;
      assert WorthIn(m, disk, txs[n].vin)[..|txs[n].vin|] == WorthIn(m, disk, txs[n].vin);
      ParentsAreFetched(m, disk, txs[n]);
    } else {
      CoinbaseAccepted(RulesFor(env, b), Source(disk, map[]), m, txs[n], pos[n]);
    }
  }

  lemma CoinbaseAccepted(r: Rules, src: Source, idx: Index, tx: Tx, p: DiskTxPos)
    requires tx.IsCoinBase()
    ensures TxAccepted(r, src, idx, tx, p)
  {
  }

  ghost predicate AllGood(env: Env, b: BlockIndex, idx: Index, disk: Disk, txs: seq<Tx>, pos: seq<DiskTxPos>)
    requires |txs| == |pos|
  {
    forall k :: 0 <= k < |txs| ==> GoodAt(env, b, idx, disk, txs, pos, k)
  }

  lemma AllAndLast(env: Env, b: BlockIndex, idx: Index, disk: Disk, txs: seq<Tx>, pos: seq<DiskTxPos>)
    requires |txs| == |pos| > 0
    ensures var n := |txs| - 1;
            && (AllGood(env, b, idx, disk, txs, pos) <==>
                AllGood(env, b, idx, disk, txs[..n], pos[..n]) && GoodAt(env, b, idx, disk, txs, pos, n))
            && Total(Fees(idx, disk, txs, pos))
               == Total(Fees(idx, disk, txs[..n], pos[..n])) + Fees(idx, disk, txs, pos)[n]
            && Total(Ops(env, idx, disk, txs, pos))
               == Total(Ops(env, idx, disk, txs[..n], pos[..n])) + OpsOf(env, idx, disk, txs, pos, n)
  {
    hide GoodAt, OpsOf, Paid;
    PrefixFacts(env, b, idx, disk, txs, pos);
    TotalSnoc(Fees(idx, disk, txs, pos));
    TotalSnoc(Ops(env, idx, disk, txs, pos));
  }

  /** A list of transactions is accepted exactly when each is where it stands and their signature
      operations are within the limit; its totals are those of the transactions. */
  lemma {:induction false} ListIff(
    env: Env, b: BlockIndex, idx: Index, disk: Disk, txs: seq<Tx>, pos: seq<DiskTxPos>)
    requires |txs| == |pos| && NoPool(idx)
    requires forall k :: 0 <= k < |pos| ==> !pos[k].IsNull() && pos[k] != POOL_POS
    ensures var a := Accept(RulesFor(env, b), Source(disk, map[]), idx, txs, pos);
            && (a.Some? <==> AllGood(env, b, idx, disk, txs, pos)
                             && Total(Ops(env, idx, disk, txs, pos)) <= MaxSigOps(env.blockSize(b)))
            && (a.Some? ==> Some(a.value.0) == ConnectTxs(idx, txs, pos)
                            && a.value.1.fees == Total(Fees(idx, disk, txs, pos))
                            && a.value.1.sigOps == Total(Ops(env, idx, disk, txs, pos)))
  {
    hide AllGood, GoodAt, Fees, Ops, AcceptOne, OpsOf, RulesFor, Met, ConnectTx, NoPool, Total;
    if txs == [] {
      NoneGood(env, b, idx, disk);
      return;
    }
    var r, src, n := RulesFor(env, b), Source(disk, map[]), |txs| - 1;
    ListIff(env, b, idx, disk, txs[..n], pos[..n]);
    AllAndLast(env, b, idx, disk, txs, pos);
    var before := Accept(r, src, idx, txs[..n], pos[..n]);
    if before.Some? {
      AcceptConnects(r, src, idx, txs[..n], pos[..n]);
      NoPoolAfter(idx, txs[..n], pos[..n]);
      MetLast(idx, txs, pos);
      LastIff(env, b, idx, disk, txs, pos, before.value.1);
      if AcceptOne(r, src, before.value, txs[n], pos[n]).Some? {
        AcceptConnects(r, src, idx, txs, pos);
      }
    }
  }

  lemma NoneGood(env: Env, b: BlockIndex, idx: Index, disk: Disk)
    ensures AllGood(env, b, idx, disk, [], []) && Total(Ops(env, idx, disk, [], [])) == 0
    ensures Total(Fees(idx, disk, [], [])) == 0
  {
  }

  lemma MetLast(idx: Index, txs: seq<Tx>, pos: seq<DiskTxPos>)
    requires |txs| == |pos| > 0
    ensures Met(idx, txs, pos, |txs| - 1) == ConnectTxs(idx, txs[..|txs| - 1], pos[..|txs| - 1])
  {
  }

  /** In a proof-of-stake block the reward that is kept is that of the second transaction. */
  lemma {:induction false} StakeIs(
    env: Env, b: BlockIndex, idx: Index, disk: Disk, txs: seq<Tx>, pos: seq<DiskTxPos>)
    requires |txs| == |pos| >= 2 && NoPool(idx) && txs[1].IsCoinStake()
    requires forall k :: 2 <= k < |txs| ==> !txs[k].IsCoinStake()
    requires forall k :: 0 <= k < |pos| ==> !pos[k].IsNull() && pos[k] != POOL_POS
    ensures var a := Accept(RulesFor(env, b), Source(disk, map[]), idx, txs, pos);
            a.Some? ==>
              a.value.1.stakeReward == Total(OutputValues(txs[1].vout)) - Paid(idx, disk, txs, pos, 1)
  {
    hide GoodAt, Fees, Ops, AcceptOne, OpsOf, RulesFor, Met, Paid;
    var r, src, n := RulesFor(env, b), Source(disk, map[]), |txs| - 1;
    var before := Accept(r, src, idx, txs[..n], pos[..n]);
    if before.Some? {
      AcceptConnects(r, src, idx, txs[..n], pos[..n]);
      NoPoolAfter(idx, txs[..n], pos[..n]);
      MetLast(idx, txs, pos);
      LastIff(env, b, idx, disk, txs, pos, before.value.1);
      NotBoth(txs[1]);
      if n >= 2 {
        StakeIs(env, b, idx, disk, txs[..n], pos[..n]);
        PrefixFact(env, b, idx, disk, txs, pos, n, 1);
      }
    }
  }

  lemma NotBoth(tx: Tx)
    ensures !(tx.IsCoinBase() && tx.IsCoinStake())
  {
  }

  // ----- The whole block ----------------------------------------------------------------------------

  /** Everything ConnectBlock asks, but for the limits on size: a good shape, the checks left out, each
      transaction good where it stands, signature operations within a fiftieth of the block's maximum
      size, and a claim within subsidy and fees. The claim is the coinbase's output, or with a coinstake
      in second place what that one gains; then no input of it is younger than itself. */
  ghost predicate GoodBlock(env: Env, v: View, idx: Index, b: BlockIndex) {
    var txs, pos := b.block.vtx, Pos(b.block);
    && GoodShape(txs) && env.otherChecks(b.block)
    && AllGood(env, b, idx, v.disk, txs, pos)
    && 50 * Total(Ops(env, idx, v.disk, txs, pos)) <= env.blockSize(b)
    && var allowed := Subsidy(env, Height(b), v.best, v.bestSupply) + Total(Fees(idx, v.disk, txs, pos));
       if |txs| > 1 && txs[1].IsCoinStake() then
         && Total(OutputValues(txs[1].vout)) - Paid(idx, v.disk, txs, pos, 1) <= allowed
         && forall i :: 0 <= i < |txs[1].vin| && Readable(idx, v.disk, txs[1].vin[i].prevout) ==>
              v.disk[idx[txs[1].vin[i].prevout.hash].pos].nTime <= txs[1].nTime
       else Total(OutputValues(txs[0].vout)) <= allowed
  }

  lemma BlockIff(env: Env, v: View, idx: Index, b: BlockIndex)
    requires NoPool(idx) && b.block.nFile != NO_FILE
    ensures BlockConnects(env, v, idx, b) <==> GoodBlock(env, v, idx, b)
  {
    hide AllGood, Fees, Ops, RulesFor, Accept, CheckBlock, GoodShape, Subsidy, Pos, Paid, Total, ValueOut, NoPool;
    var txs, pos := b.block.vtx, Pos(b.block);
    ShapeIff(txs);
    PosProper(b.block);
    ListIff(env, b, idx, v.disk, txs, pos);
    ShapeGives(txs);
    if CheckBlock(txs) {
      ValueOutIsTotal(txs[0].vout);
      if |txs| > 1 && txs[1].IsCoinStake() {
        StakeIs(env, b, idx, v.disk, txs, pos);
      }
    }
  }

  lemma ShapeGives(txs: seq<Tx>)
    ensures CheckBlock(txs) ==> txs != []
    ensures CheckBlock(txs) && |txs| > 1 && txs[1].IsCoinStake() ==>
              forall k :: 2 <= k < |txs| ==> !txs[k].IsCoinStake()
  {
  }
}
