/** A block made of what CreateNewBlock chooses passes the validator: the miner replays the chosen
    transactions out of the memory pool, the validator out of the block files. */
module MinedBlock {
  import opened Ledger
  import opened Supply
  import opened Connect
  import opened BlockConnect
  import opened Blocks
  import opened Miner
  import opened BlockAssembly

  // ----- Entries that differ only in positions -----------------------------------------------------------

  predicate SameFree(a: TxIndex, b: TxIndex) {
    |a.vSpent| == |b.vSpent| && forall n :: 0 <= n < |a.vSpent| ==> a.vSpent[n].IsNull() == b.vSpent[n].IsNull()
  }

  ghost predicate Similar(a: Index, b: Index) {
    forall h :: h in a ==> h in b && SameFree(a[h], b[h])
  }

  /** Spending does not care where the spenders lie. */
  lemma {:induction false} SpendSimilar(a: Index, b: Index, vin: seq<TxIn>, p: DiskTxPos, q: DiskTxPos)
    requires Similar(a, b) && !p.IsNull() && !q.IsNull() && SpendAll(a, vin, p).Some?
    ensures SpendAll(b, vin, q).Some? && Similar(SpendAll(a, vin, p).value, SpendAll(b, vin, q).value)
  {
    if vin != [] {
      SpendSimilar(a, b, vin[..|vin| - 1], p, q);
    }
  }

  lemma EnterSimilar(a: Index, b: Index, tx: Tx, p: DiskTxPos, q: DiskTxPos)
    requires Similar(a, b)
    ensures Similar(Enter(a, tx, p), Enter(b, tx, q))
  {
  }

  // ----- Fetched inputs ------------------------------------------------------------------------------------

  /** The validator sees the same previous transactions, as free as the miner sees them, and none
      less mature. */
  ghost predicate SameInputs(r: Rules, v: Rules, a: PrevTxs, b: PrevTxs) {
    && a.Keys == b.Keys
    && forall h :: h in a ==>
         && a[h].1 == b[h].1 && SameFree(a[h].0, b[h].0)
         && ((a[h].1.IsCoinBase() || a[h].1.IsCoinStake()) && v.immature(b[h].0.pos) ==> r.immature(a[h].0.pos))
  }

  lemma {:induction false} SamePaid(r: Rules, v: Rules, a: PrevTxs, b: PrevTxs, vin: seq<TxIn>)
    requires SameInputs(r, v, a, b)
    ensures PaidIn(a, vin) == PaidIn(b, vin)
  {
    if vin != [] {
      SamePaid(r, v, a, b, vin[..|vin| - 1]);
    }
  }

  lemma {:induction false} SameFit(r: Rules, v: Rules, a: PrevTxs, b: PrevTxs, vin: seq<TxIn>, n: nat)
    requires SameInputs(r, v, a, b) && n <= |vin| && AllFit(a, vin, n)
    ensures AllFit(b, vin, n)
  {
    if n > 0 {
      SameFit(r, v, a, b, vin, n - 1);
    }
  }

  lemma {:induction false} SamePass(r: Rules, v: Rules, tx: Tx, a: PrevTxs, b: PrevTxs, n: nat)
    requires SameInputs(r, v, a, b) && n <= |tx.vin| && InputsPass(r, tx, a, n)
    ensures InputsPass(v, tx, b, n)
  {
    if n > 0 {
      SamePass(r, v, tx, a, b, n - 1);
      SamePaid(r, v, a, b, tx.vin[..n]);
    }
  }

  lemma {:induction false} SameSigs(r: Rules, v: Rules, tx: Tx, a: PrevTxs, b: PrevTxs, n: nat)
    requires SameInputs(r, v, a, b) && v.sigOk == r.sigOk && n <= |tx.vin| && SigsPass(r, tx, a, n)
    ensures SigsPass(v, tx, b, n)
  {
    if n > 0 {
      SameSigs(r, v, tx, a, b, n - 1);
    }
  }

  lemma MarksSimilar(r: Rules, v: Rules, a: PrevTxs, b: PrevTxs)
    requires SameInputs(r, v, a, b)
    ensures Similar(Marks(a), Marks(b)) && Txs(a) == Txs(b)
  {
    var x, y := Txs(a), Txs(b);
    assert x.Keys == y.Keys;
    forall h | h in x ensures x[h] == y[h] {
      assert h in a;
    }
  }

  lemma SameConnect(r: Rules, v: Rules, tx: Tx, a: PrevTxs, b: PrevTxs, p: DiskTxPos, q: DiskTxPos)
    requires SameInputs(r, v, a, b) && v.sigOk == r.sigOk && !p.IsNull() && !q.IsNull()
    requires !tx.IsCoinBase() && ConnectPasses(r, tx, a, p)
    ensures ConnectPasses(v, tx, b, q)
  {
    SamePass(r, v, tx, a, b, |tx.vin|);
    SameSigs(r, v, tx, a, b, |tx.vin|);
    SamePaid(r, v, a, b, tx.vin);
    MarksSimilar(r, v, a, b);
    SpendSimilar(Marks(a), Marks(b), tx.vin, p, q);
  }

  // ----- The two replays side by side -------------------------------------------------------------------------

  /** The miner's index `m` over pool positions and the validator's index `b` over the block's: the
      entries placed by the block are pool transactions, the others are those of the chain. */
  ghost predicate InStep(c: Context, disk: Disk, v: Rules, placed: set<Txid>, m: Index, b: Index) {
    && Similar(m, b)
    && (forall h :: h in m ==> Source(disk, map[]).TxAt(h, b[h].pos) == c.src.TxAt(h, m[h].pos))
    && (forall h :: h in m && h !in placed ==> v.immature(b[h].pos) ==> c.r.immature(m[h].pos))
    && (forall h :: h in m && h in placed ==>
          m[h].pos == POOL_POS && h in c.src.pool && !c.src.pool[h].IsCoinBase() && !c.src.pool[h].IsCoinStake())
  }

  lemma FetchInStep(c: Context, disk: Disk, v: Rules, placed: set<Txid>, m: Index, b: Index, h: Txid)
    requires InStep(c, disk, v, placed, m, b) && Lookup(m, c.src, map[], BlockMode, h).Some?
    ensures var x := Lookup(m, c.src, map[], BlockMode, h).value;
            var l := Lookup(b, Source(disk, map[]), map[], BlockMode, h);
            && l.Some? && x.1 == l.value.1 && SameFree(x.0, l.value.0)
            && ((x.1.IsCoinBase() || x.1.IsCoinStake()) && v.immature(l.value.0.pos) ==> c.r.immature(x.0.pos))
  {
    assert h in m;
    assert c.src.TxAt(h, m[h].pos).Some?;
  }

  lemma {:induction false} FoundInStep(
    c: Context, disk: Disk, v: Rules, placed: set<Txid>, m: Index, b: Index, vin: seq<TxIn>, n: nat)
    requires InStep(c, disk, v, placed, m, b) && n <= |vin| && AllFound(m, c.src, map[], BlockMode, vin, n)
    ensures AllFound(b, Source(disk, map[]), map[], BlockMode, vin, n)
  {
    if n > 0 {
      FoundInStep(c, disk, v, placed, m, b, vin, n - 1);
      FetchInStep(c, disk, v, placed, m, b, vin[n - 1].prevout.hash);
    }
  }

  lemma PrevInStep(c: Context, disk: Disk, v: Rules, placed: set<Txid>, m: Index, b: Index, tx: Tx)
    requires InStep(c, disk, v, placed, m, b) && AllFound(m, c.src, map[], BlockMode, tx.vin, |tx.vin|)
    ensures AllFound(b, Source(disk, map[]), map[], BlockMode, tx.vin, |tx.vin|)
    ensures SameInputs(c.r, v, Prev(c.src, m, tx), Prev(Source(disk, map[]), b, tx))
  {
    FoundInStep(c, disk, v, placed, m, b, tx.vin, |tx.vin|);
    PrevKeys(c.src, m, tx);
    PrevKeys(Source(disk, map[]), b, tx);
    forall h | h in Prev(c.src, m, tx) ensures h in Hashes(tx.vin) && Lookup(m, c.src, map[], BlockMode, h).Some? {
    }
    forall h | h in Hashes(tx.vin) && Lookup(m, c.src, map[], BlockMode, h).Some? {
      FetchInStep(c, disk, v, placed, m, b, h);
    }
  }

  lemma AcceptedInStep(c: Context, disk: Disk, v: Rules, placed: set<Txid>, m: Index, b: Index, tx: Tx, p: DiskTxPos)
    requires InStep(c, disk, v, placed, m, b) && !tx.IsCoinBase() && TxAccepted(c.r, c.src, m, tx, POOL_POS)
    requires v.sigOk == c.r.sigOk && !p.IsNull()
    ensures TxAccepted(v, Source(disk, map[]), b, tx, p)
    ensures PaidIn(Prev(c.src, m, tx), tx.vin) == PaidIn(Prev(Source(disk, map[]), b, tx), tx.vin)
    ensures Txs(Prev(c.src, m, tx)) == Txs(Prev(Source(disk, map[]), b, tx))
  {
    var a, e := Prev(c.src, m, tx), Prev(Source(disk, map[]), b, tx);
    PrevInStep(c, disk, v, placed, m, b, tx);
    SameFit(c.r, v, a, e, tx.vin, |tx.vin|);
    SameConnect(c.r, v, tx, a, e, POOL_POS, p);
    SamePaid(c.r, v, a, e, tx.vin);
    MarksSimilar(c.r, v, a, e);
  }

  lemma ConnectInStep(c: Context, disk: Disk, v: Rules, placed: set<Txid>, m: Index, b: Index, tx: Tx, p: DiskTxPos)
    requires InStep(c, disk, v, placed, m, b) && ConnectTx(m, tx, POOL_POS).Some? && ConnectTx(b, tx, p).Some?
    requires Eligible(c, tx) && tx.id in c.src.pool && c.src.pool[tx.id] == tx
    requires !p.IsNull() && p != POOL_POS && p in disk && disk[p] == tx
    ensures InStep(c, disk, v, placed + {tx.id}, ConnectTx(m, tx, POOL_POS).value, ConnectTx(b, tx, p).value)
  {
    SpendSimilar(m, b, tx.vin, POOL_POS, p);
    SpendAllShape(m, tx.vin, POOL_POS);
    SpendAllShape(b, tx.vin, p);
    EnterSimilar(SpendAll(m, tx.vin, POOL_POS).value, SpendAll(b, tx.vin, p).value, tx, POOL_POS, p);
  }

  /** The two sides agree on signatures and signature operations, and the validator reads what the
      miner read. */
  ghost predicate Agree(c: Context, disk: Disk, v: Rules) {
    && v.sigOk == c.r.sigOk && v.p2shSigOps == c.r.p2shSigOps
    && NoPool(c.db) && Stored(c.db, c.src.disk)
    && (forall h :: h in c.db ==> c.db[h].pos in disk && disk[c.db[h].pos] == c.src.disk[c.db[h].pos])
    && (forall h :: h in c.db ==> v.immature(c.db[h].pos) ==> c.r.immature(c.db[h].pos))
  }

  lemma Coinbase(c: Context, disk: Disk, v: Rules, coinbase: Tx, p: DiskTxPos)
    requires Agree(c, disk, v) && coinbase.id !in c.db
    ensures InStep(c, disk, v, {}, c.db, Enter(c.db, coinbase, p))
  {
  }

  lemma CoinbaseAlone(c: Context, disk: Disk, v: Rules, coinbase: Tx, p: DiskTxPos)
    requires Agree(c, disk, v) && coinbase.IsCoinBase() && coinbase.id !in c.db && coinbase.legacySigOps <= v.maxSigOps
    ensures var b := Accept(v, Source(disk, map[]), c.db, [coinbase], [p]);
            && b.Some? && b.value.1.fees == 0 && b.value.1.sigOps == coinbase.legacySigOps
            && InStep(c, disk, v, {}, c.db, b.value.0)
  {
    hide InStep, Agree;
    Coinbase(c, disk, v, coinbase, p);
    var txs, pos := [coinbase], [p];
    assert txs[..0] == [] && pos[..0] == [];
    assert Accept(v, Source(disk, map[]), c.db, txs[..0], pos[..0]) == Some((c.db, NO_TALLY));
  }

  ghost predicate WrittenOut(disk: Disk, txs: seq<Tx>, pos: seq<DiskTxPos>) {
    OnDisk(disk, txs, pos) && forall i :: 0 <= i < |pos| ==> pos[i] != POOL_POS
  }

  /** What replays out of the pool replays behind a coinbase out of the block files, with the same
      fees. */
  lemma {:induction false} ReplaysAsBlock(
    c: Context, disk: Disk, v: Rules, coinbase: Tx, chosen: seq<Tx>, pos: seq<DiskTxPos>)
    requires Agree(c, disk, v) && coinbase.IsCoinBase() && coinbase.id !in c.db
    requires FromPool(c, chosen) && WrittenOut(disk, [coinbase] + chosen, pos)
    requires Accept(c.r, c.src, c.db, chosen, PoolPositions(|chosen|)).Some?
    requires coinbase.legacySigOps + Accept(c.r, c.src, c.db, chosen, PoolPositions(|chosen|)).value.1.sigOps
             <= v.maxSigOps
    ensures var m := Accept(c.r, c.src, c.db, chosen, PoolPositions(|chosen|)).value;
            var b := Accept(v, Source(disk, map[]), c.db, [coinbase] + chosen, pos);
            && b.Some? && b.value.1.fees == m.1.fees && b.value.1.sigOps == coinbase.legacySigOps + m.1.sigOps
            && InStep(c, disk, v, Ids(chosen), m.0, b.value.0)
    decreases |chosen|
  {
    hide InStep, Prev, PaidIn, Txs, TxAccepted;
    var txs, n := [coinbase] + chosen, |chosen|;
    assert |pos| == n + 1;
    if n == 0 {
      CoinbaseAlone(c, disk, v, coinbase, pos[0]);
      assert txs == [coinbase] && pos == [pos[0]];
      assert Ids(chosen) == {};
    } else {
      var f := chosen[..n - 1];
      assert txs[..n] == [coinbase] + f && PoolPositions(n)[..n - 1] == PoolPositions(n - 1);
      assert txs[n] == chosen[n - 1];
      IdsSnoc(chosen);
      var m := Accept(c.r, c.src, c.db, f, PoolPositions(n - 1)).value;
      ReplaysAsBlock(c, disk, v, coinbase, f, pos[..n]);
      var b := Accept(v, Source(disk, map[]), c.db, txs[..n], pos[..n]).value;
      LastInStep(c, disk, v, Ids(f), m, b, chosen[n - 1], pos[n], coinbase.legacySigOps);
    }
  }

  lemma LastInStep(
    c: Context, disk: Disk, v: Rules, placed: set<Txid>, m: (Index, Tally), b: (Index, Tally), tx: Tx, p: DiskTxPos,
    extra: nat)
    requires InStep(c, disk, v, placed, m.0, b.0) && AcceptOne(c.r, c.src, m, tx, POOL_POS).Some?
    requires v.sigOk == c.r.sigOk && v.p2shSigOps == c.r.p2shSigOps
    requires b.1.fees == m.1.fees && b.1.sigOps == extra + m.1.sigOps
    requires extra + AcceptOne(c.r, c.src, m, tx, POOL_POS).value.1.sigOps <= v.maxSigOps
    requires Eligible(c, tx) && tx.id in c.src.pool && c.src.pool[tx.id] == tx
    requires !p.IsNull() && p != POOL_POS && p in disk && disk[p] == tx
    ensures var m' := AcceptOne(c.r, c.src, m, tx, POOL_POS).value;
            var b' := AcceptOne(v, Source(disk, map[]), b, tx, p);
            && b'.Some? && b'.value.1.fees == m'.1.fees && b'.value.1.sigOps == extra + m'.1.sigOps
            && InStep(c, disk, v, placed + {tx.id}, m'.0, b'.value.0)
  {
    hide InStep, Prev, PaidIn, Txs, TxAccepted, ConnectTx;
    AcceptedInStep(c, disk, v, placed, m.0, b.0, tx, p);
    AcceptedConnects(c.r, c.src, m.0, tx, POOL_POS);
    AcceptedConnects(v, Source(disk, map[]), b.0, tx, p);
    ConnectInStep(c, disk, v, placed, m.0, b.0, tx, p);
  }

  // ----- A whole block ------------------------------------------------------------------------------------------

  /** `b` is a proof-of-work block on top of the chain the miner worked on: its coinbase, claiming the
      subsidy and the fees, and behind it the chosen transactions; `disk` is the block files with `b`
      written to a new place. The miner's limits may differ from the validator's. */
  ghost predicate Mined(env: Env, c: Context, d: Draft, disk: Disk, supply: int, b: BlockIndex) {
    && b.Child? && b.block.vtx != [] && b.block.vtx[1..] == d.chosen && b.block.vtx[0].IsCoinBase()
    && c.r == RulesFor(env, b.pprev).(maxSigOps := c.r.maxSigOps)
    && Replay(b.pprev) == Some(c.db) && ChainOnDisk(c.src.disk, b.pprev)
    && (forall p :: p in c.src.disk ==> p in disk && disk[p] == c.src.disk[p])
    && OnDisk(disk, b.block.vtx, Pos(b.block)) && b.block.nFile != NO_FILE
    && (forall p :: p in c.src.disk ==> !(p.nFile == b.block.nFile && p.nBlockPos == b.block.nBlockPos))
    && b.block.vtx[0].id !in c.db && b.block.vtx[0].id !in Ids(d.chosen)
    && ValueOut(b.block.vtx[0].vout) == Subsidy(env, Height(b), b.pprev, supply) + d.fees
    && (forall i :: 0 <= i < |b.block.vtx| ==> CheckTransaction(b.block.vtx[i]))
  }

  lemma MinedAgrees(env: Env, c: Context, d: Draft, disk: Disk, supply: int, b: BlockIndex)
    requires Mined(env, c, d, disk, supply, b)
    ensures Agree(c, disk, RulesFor(env, b)) && WrittenOut(disk, b.block.vtx, Pos(b.block))
  {
    ReplayWellFormed(b.pprev, c.src.disk);
    PosProper(b.block);
    forall h | h in c.db && RulesFor(env, b).immature(c.db[h].pos) ensures c.r.immature(c.db[h].pos) {
      assert c.db[h].pos in c.src.disk;
      WithinMono(b.pprev, COINBASE_MATURITY - 1, c.db[h].pos);
    }
  }

  lemma {:induction false} WithinMono(b: BlockIndex, depth: int, p: DiskTxPos)
    requires ConfirmedWithin(b, depth, p)
    ensures ConfirmedWithin(b, depth + 1, p)
  {
    if b.Child? && ConfirmedWithin(b.pprev, depth - 1, p) {
      WithinMono(b.pprev, depth - 1, p);
    }
  }

  lemma MinedPassesCheck(env: Env, c: Context, d: Draft, disk: Disk, supply: int, b: BlockIndex)
    requires Mined(env, c, d, disk, supply, b) && FromPool(c, d.chosen) && DistinctIds(d.chosen)
    ensures CheckBlock(b.block.vtx) && !ProofOfStake(b.block.vtx)
  {
    var txs := b.block.vtx;
    forall i | 1 <= i < |txs| ensures txs[i] == d.chosen[i - 1] && txs[i].id in Ids(d.chosen) {
      assert txs[1..][i - 1] == txs[i];
    }
  }

  lemma {:induction false} LimitApart(r: Rules, tx: Tx, inputs: PrevTxs, n: nat, limit: nat)
    requires n <= |tx.vin|
    ensures InputsPass(r.(maxSigOps := limit), tx, inputs, n) == InputsPass(r, tx, inputs, n)
    ensures SigsPass(r.(maxSigOps := limit), tx, inputs, n) == SigsPass(r, tx, inputs, n)
  {
    if n > 0 {
      LimitApart(r, tx, inputs, n - 1, limit);
    }
  }

  /** A list that a limit of signature operations lets through has the same effect under a higher one,
      and stays within the lower. */
  lemma {:induction false} HigherLimit(r: Rules, src: Source, db: Index, txs: seq<Tx>, pos: seq<DiskTxPos>, limit: nat)
    requires |txs| == |pos| && limit >= r.maxSigOps && Accept(r, src, db, txs, pos).Some?
    ensures Accept(r.(maxSigOps := limit), src, db, txs, pos) == Accept(r, src, db, txs, pos)
    ensures txs != [] ==> Accept(r, src, db, txs, pos).value.1.sigOps <= r.maxSigOps
  {
    hide Prev, PaidIn, Txs, AllFound, AllFit;
    if txs != [] {
      var n := |txs| - 1;
      HigherLimit(r, src, db, txs[..n], pos[..n], limit);
      var idx := Accept(r, src, db, txs[..n], pos[..n]).value.0;
      if !txs[n].IsCoinBase() {
        LimitApart(r, txs[n], Prev(src, idx, txs[n]), |txs[n].vin|, limit);
      }
    }
  }

  // ----- Size and signature operations ----------------------------------------------------------------

  /** The signature operations of the block: those of its coinbase and of the chosen transactions. */
  function MinedSigOps(d: Draft, b: BlockIndex): int
    requires b.block.vtx != []
  {
    b.block.vtx[0].legacySigOps + d.sigOps - RESERVED_SIGOPS
  }

  /** The bytes of the block besides the chosen transactions: header, count, coinbase and signature. */
  function Overhead(b: BlockIndex): int
    requires b.block.vtx != []
  {
    80 + CompactSize(|b.block.vtx|) + b.block.vtx[0].size + CompactSize(b.block.sigSize) + b.block.sigSize
  }

  lemma {:induction false} SumsBehind(first: Tx, rest: seq<Tx>)
    ensures SizeOf([first] + rest) == first.size + SizeOf(rest)
    ensures LegacySigOps([first] + rest) == first.legacySigOps + LegacySigOps(rest)
  {
    var all := [first] + rest;
    if rest == [] {
      assert all == [first] && all[..0] == [];
    } else {
      var n := |rest| - 1;
      assert all[..n + 1] == [first] + rest[..n];
      SumsBehind(first, rest[..n]);
    }
  }

  /** Signature operations of a transaction itself are among those counted. */
  lemma {:induction false} LegacyCounted(r: Rules, src: Source, db: Index, txs: seq<Tx>, pos: seq<DiskTxPos>)
    requires |txs| == |pos| && Accept(r, src, db, txs, pos).Some?
    ensures LegacySigOps(txs) <= Accept(r, src, db, txs, pos).value.1.sigOps
  {
    hide TxAccepted, ConnectTx, PaidIn, Prev, Txs;
    if txs != [] {
      LegacyCounted(r, src, db, txs[..|txs| - 1], pos[..|txs| - 1]);
    }
  }

  lemma {:induction false} CountAtMostSize(txs: seq<Tx>)
    requires forall i :: 0 <= i < |txs| ==> txs[i].size > 0
    ensures |txs| <= SizeOf(txs)
  {
    if txs != [] {
      CountAtMostSize(txs[..|txs| - 1]);
    }
  }

  /** Size and operations of the mined block in the miner's own counts. */
  lemma MinedTotals(env: Env, c: Context, d: Draft, disk: Disk, supply: int, b: BlockIndex)
    requires Mined(env, c, d, disk, supply, b) && Drafted(c, d)
    ensures BlockSize(b.block) == Overhead(b) + d.size - RESERVED_SIZE
    ensures LegacySigOps(b.block.vtx) <= MinedSigOps(d, b)
  {
    hide Accept;
    var txs := b.block.vtx;
    assert txs == [txs[0]] + d.chosen;
    SumsBehind(txs[0], d.chosen);
    LegacyCounted(c.r, c.src, c.db, d.chosen, PoolPositions(|d.chosen|));
  }

  lemma ReplaysWithin(c: Context, d: Draft, disk: Disk, v: Rules, coinbase: Tx, pos: seq<DiskTxPos>)
    requires Agree(c, disk, v) && coinbase.IsCoinBase() && coinbase.id !in c.db
    requires Drafted(c, d) && FromPool(c, d.chosen) && WrittenOut(disk, [coinbase] + d.chosen, pos)
    ensures var b := Accept(v, Source(disk, map[]), c.db, [coinbase] + d.chosen, pos);
            && (b.Some? <==> coinbase.legacySigOps + d.sigOps - RESERVED_SIGOPS <= v.maxSigOps)
            && (b.Some? ==> b.value.1.fees == d.fees)
  {
    hide InStep, FromPool, TxAccepted;
    var ops := coinbase.legacySigOps + d.sigOps - RESERVED_SIGOPS;
    if ops <= v.maxSigOps {
      ReplaysAsBlock(c, disk, v, coinbase, d.chosen, pos);
    } else if Accept(v, Source(disk, map[]), c.db, [coinbase] + d.chosen, pos).Some? {
      HigherLimit(v, Source(disk, map[]), c.db, [coinbase] + d.chosen, pos, ops);
      ReplaysAsBlock(c, disk, v.(maxSigOps := ops), coinbase, d.chosen, pos);
    }
  }

  /** The block assembled from a collected draft is accepted on top of the chain it was assembled for,
      as far as the checks of this model go, exactly when it is within CheckBlock's limits, which are
      those in force at the time, and its signature operations within the limit of its own. */
  lemma MinedBlockAccepted(
    env: Env, c: Context, d: Draft, disk: Disk, supply: int, limit: nat, b: BlockIndex)
    requires Mined(env, c, d, disk, supply, b)
    requires Drafted(c, d) && FromPool(c, d.chosen) && DistinctIds(d.chosen)
    ensures BlockAccepted(env, View(disk, b.pprev, supply), limit, c.db, b) <==>
            && env.otherChecks(b.block)
            && |b.block.vtx| <= limit && Overhead(b) + d.size - RESERVED_SIZE <= limit
            && LegacySigOps(b.block.vtx) <= MaxSigOps(limit)
            && MinedSigOps(d, b) <= MaxSigOps(env.blockSize(b))
  {
    hide CheckBlock, InStep, Agree, Accept, BlockSize;
    var txs := b.block.vtx;
    MinedAgrees(env, c, d, disk, supply, b);
    MinedPassesCheck(env, c, d, disk, supply, b);
    MinedTotals(env, c, d, disk, supply, b);
    assert txs == [txs[0]] + d.chosen;
    ReplaysWithin(c, d, disk, RulesFor(env, b), txs[0], Pos(b.block));
  }

  /** So it is always accepted when the miner's limits were no higher than the validator's and what the
      miner set aside was enough for header, coinbase and signature. */
  lemma BudgetSuffices(
    env: Env, c: Context, cfg: Config, d: Draft, disk: Disk, supply: int, limit: nat, b: BlockIndex)
    requires Mined(env, c, d, disk, supply, b) && PoolConnects(c)
    requires Drafted(c, d) && WithinBudget(c, cfg, d) && FromPool(c, d.chosen) && DistinctIds(d.chosen)
    requires cfg.MaxSize() <= limit && RESERVED_SIGOPS <= c.r.maxSigOps
    requires c.r.maxSigOps <= MaxSigOps(limit) && c.r.maxSigOps <= MaxSigOps(env.blockSize(b))
    requires Overhead(b) <= RESERVED_SIZE && b.block.vtx[0].legacySigOps <= RESERVED_SIGOPS
    requires env.otherChecks(b.block)
    ensures BlockAccepted(env, View(disk, b.pprev, supply), limit, c.db, b)
  {
    hide BlockAccepted, Mined, BlockSize, Accept, LegacySigOps;
    MinedBlockAccepted(env, c, d, disk, supply, limit, b);
    MinedTotals(env, c, d, disk, supply, b);
    EmptySigOps(c, d);
    CountBehind(env, c, d, disk, supply, b);
  }

  lemma CountBehind(env: Env, c: Context, d: Draft, disk: Disk, supply: int, b: BlockIndex)
    requires Mined(env, c, d, disk, supply, b) && PoolConnects(c) && FromPool(c, d.chosen)
    requires d.size == RESERVED_SIZE + SizeOf(d.chosen)
    ensures |b.block.vtx| == |d.chosen| + 1 <= d.size
  {
    var txs := b.block.vtx;
    assert txs == [txs[0]] + d.chosen;
    forall i | 0 <= i < |d.chosen| ensures d.chosen[i].size > 0 {
      assert d.chosen[i].id in c.src.pool;
    }
    CountAtMostSize(d.chosen);
  }

  lemma EmptySigOps(c: Context, d: Draft)
    requires Drafted(c, d)
    ensures d.chosen == [] ==> d.sigOps == RESERVED_SIGOPS
  {
  }
}
