/** The collecting loop of CreateNewBlock: what it chooses replays in order against the index. */
module BlockAssembly {
  import opened Ledger
  import opened Supply
  import opened Connect
  import opened BlockConnect
  import opened Miner
  import opened Sequences

  /** The block so far. A new block starts with room set aside for its header and coinbase. */
  datatype Draft = Draft(chosen: seq<Tx>, testPool: Index, size: int, sigOps: nat, fees: int)

  const RESERVED_SIZE := 1000
  const RESERVED_SIGOPS: nat := 100

  function PoolPositions(n: nat): (s: seq<DiskTxPos>)
    ensures |s| == n && forall i :: 0 <= i < n ==> s[i] == POOL_POS
  {
    seq(n, _ => POOL_POS)
  }

  /** The draft's transactions are accepted one after the other against the index, and its counters
      are theirs. */
  ghost predicate Drafted(c: Context, d: Draft) {
    var a := Accept(c.r, c.src, c.db, d.chosen, PoolPositions(|d.chosen|));
    && a.Some? && a.value.0 == c.db + d.testPool
    && d.fees == a.value.1.fees && d.sigOps == RESERVED_SIGOPS + a.value.1.sigOps
    && d.size == RESERVED_SIZE + SizeOf(d.chosen)
  }

  ghost predicate WithinBudget(c: Context, cfg: Config, d: Draft) {
    d.chosen == [] || (d.size < cfg.MaxSize() && d.sigOps < c.r.maxSigOps)
  }

  // ----- Connecting one transaction --------------------------------------------------------------------

  lemma {:induction false} FoundForMiner(db: Index, src: Source, queued: Index, vin: seq<TxIn>, n: nat)
    requires n <= |vin|
    ensures AllFound(db, src, queued, MinerMode, vin, n) == AllFound(db, src, queued, BlockMode, vin, n)
  {
    if n > 0 {
      FoundForMiner(db, src, queued, vin, n - 1);
    }
  }

  lemma FetchedForMiner(db: Index, src: Source, queued: Index, hs: set<Txid>)
    ensures Fetched(db, src, queued, MinerMode, hs) == Fetched(db, src, queued, BlockMode, hs)
  {
  }

  /** Every parent of `tx` is there to be fetched. */
  ghost predicate Fetchable(src: Source, idx: Index, tx: Tx) {
    && AllFound(idx, src, map[], BlockMode, tx.vin, |tx.vin|)
    && AllFit(Prev(src, idx, tx), tx.vin, |tx.vin|)
  }

  method FetchForMiner(c: Context, testPool: Index, tx: Tx) returns (ok: bool, inputs: PrevTxs)
    requires !tx.IsCoinBase()
    ensures ok <==> Fetchable(c.src, c.db + testPool, tx)
    ensures ok ==> inputs == Prev(c.src, c.db + testPool, tx) && inputs.Keys == Hashes(tx.vin)
  {
    FoundForMiner(c.db, c.src, testPool, tx.vin, |tx.vin|);
    FetchedForMiner(c.db, c.src, testPool, Hashes(tx.vin));
    FoundView(c.db, c.src, testPool, tx.vin, |tx.vin|);
    FetchedView(c.db, c.src, testPool, Hashes(tx.vin));
    var invalid;
    ok, inputs, invalid := FetchInputs(c.db, c.src, testPool, MinerMode, tx);
    if ok {
      PrevKeys(c.src, c.db + testPool, tx);
    }
  }

  function PoolSigOps(c: Context, idx: Index, tx: Tx): nat {
    c.r.p2shSigOps(tx, Txs(Prev(c.src, idx, tx)))
  }

  /** Appends the transaction exactly when it is accepted on top of the draft and keeps the block
      under its signature-operation limit. */
  method Append(c: Context, d: Draft, tx: Tx) returns (added: bool, d': Draft)
    requires Drafted(c, d) && !tx.IsCoinBase() && !tx.IsCoinStake()
    ensures added <==>
              && TxAccepted(c.r, c.src, c.db + d.testPool, tx, POOL_POS)
              && d.sigOps + tx.legacySigOps + PoolSigOps(c, c.db + d.testPool, tx) < c.r.maxSigOps
    ensures !added ==> d' == d
    ensures added ==> Drafted(c, d') && d'.chosen == d.chosen + [tx] && d'.sigOps < c.r.maxSigOps
  {
    hide Drafted, SpendAll, AllFound, AllFit, InputsPass, SigsPass, Prev, PaidIn;
    d' := d;
    var inputs, fetched;
    fetched, inputs := FetchForMiner(c, d.testPool, tx);
    if !fetched {
      return false, d;
    }
    var paid := GetValueIn(tx, inputs);
    var fee := paid - ValueOut(tx.vout);
    var sigs := tx.legacySigOps + c.r.p2shSigOps(tx, Txs(inputs));
    if d.sigOps + sigs >= c.r.maxSigOps {
      return false, d;
    }
    var testPool;
    added, testPool := ConnectInputs(c.r, tx, inputs, d.testPool, POOL_POS, MinerMode);
    if added {
      SpendOver(c.src, c.db, d.testPool, tx, POOL_POS);
      EnterOver(c.db, testPool, tx, POOL_POS);
      AppendAccepted(c, d, tx, testPool);
      d' := Draft(d.chosen + [tx], Enter(testPool, tx, POOL_POS), d.size + tx.size, d.sigOps + sigs, d.fees + fee);
    }
  }

  lemma AppendAccepted(c: Context, d: Draft, tx: Tx, testPool: Index)
    requires Drafted(c, d) && !tx.IsCoinBase() && !tx.IsCoinStake()
    requires TxAccepted(c.r, c.src, c.db + d.testPool, tx, POOL_POS)
    requires SpendAll(c.db + d.testPool, tx.vin, POOL_POS) == Some(c.db + testPool)
    requires d.sigOps + tx.legacySigOps + PoolSigOps(c, c.db + d.testPool, tx) < c.r.maxSigOps
    ensures var paid := PaidIn(Prev(c.src, c.db + d.testPool, tx), tx.vin);
            Drafted(c, Draft(d.chosen + [tx], Enter(testPool, tx, POOL_POS), d.size + tx.size,
                             d.sigOps + tx.legacySigOps + PoolSigOps(c, c.db + d.testPool, tx),
                             d.fees + (paid - ValueOut(tx.vout))))
  {
    hide Prev, PaidIn, Txs, TxAccepted, SpendAll;
    var n := |d.chosen|;
    var all, pos := d.chosen + [tx], PoolPositions(n + 1);
    assert all[..n] == d.chosen && pos[..n] == PoolPositions(n);
    EnterOver(c.db, testPool, tx, POOL_POS);
  }

  // ----- Parents are always there ------------------------------------------------------------------------

  /** The chosen transactions are pool transactions. */
  ghost predicate FromPool(c: Context, txs: seq<Tx>) {
    forall i :: 0 <= i < |txs| ==> txs[i].id in c.src.pool && c.src.pool[txs[i].id] == txs[i] && Eligible(c, txs[i])
  }

  /** After connecting pool transactions, their entries point into the pool and all others are where
      they were. */
  ghost predicate Entries(c: Context, idx: Index, ids: set<Txid>) {
    && idx.Keys == c.db.Keys + ids
    && forall h :: h in idx ==>
         if h in ids
         then idx[h].pos == POOL_POS && h in c.src.pool && |idx[h].vSpent| == |c.src.pool[h].vout|
         else h in c.db && idx[h].pos == c.db[h].pos && |idx[h].vSpent| == |c.db[h].vSpent|
  }

  lemma EntriesStep(c: Context, idx: Index, ids: set<Txid>, tx: Tx)
    requires Entries(c, idx, ids) && ConnectTx(idx, tx, POOL_POS).Some?
    requires tx.id in c.src.pool && c.src.pool[tx.id] == tx
    ensures Entries(c, ConnectTx(idx, tx, POOL_POS).value, ids + {tx.id})
  {
    if !tx.IsCoinBase() {
      SpendAllShape(idx, tx.vin, POOL_POS);
    }
  }

  lemma {:induction false} EntriesAfter(c: Context, txs: seq<Tx>)
    requires FromPool(c, txs) && ConnectTxs(c.db, txs, PoolPositions(|txs|)).Some?
    ensures Entries(c, ConnectTxs(c.db, txs, PoolPositions(|txs|)).value, Ids(txs))
  {
    if txs != [] {
      var n := |txs| - 1;
      assert PoolPositions(|txs|)[..n] == PoolPositions(n);
      EntriesAfter(c, txs[..n]);
      IdsSnoc(txs);
      EntriesStep(c, ConnectTxs(c.db, txs[..n], PoolPositions(n)).value, Ids(txs[..n]), txs[n]);
    }
  }

  ghost predicate ParentThere(c: Context, placed: set<Txid>, o: OutPoint) {
    (o.hash in placed && InPool(c, o)) || (o.hash !in placed && Readable(c.db, c.src.disk, o))
  }

  lemma ParentLookup(c: Context, idx: Index, placed: set<Txid>, o: OutPoint)
    requires Entries(c, idx, placed) && NoPool(c.db) && Stored(c.db, c.src.disk) && ParentThere(c, placed, o)
    ensures var l := Lookup(idx, c.src, map[], BlockMode, o.hash);
            l.Some? && o.n < |l.value.0.vSpent| && o.n < |l.value.1.vout|
  {
  }

  lemma {:induction false} ParentsFound(c: Context, idx: Index, placed: set<Txid>, vin: seq<TxIn>, n: nat)
    requires Entries(c, idx, placed) && NoPool(c.db) && Stored(c.db, c.src.disk) && n <= |vin|
    requires forall i :: 0 <= i < |vin| ==> ParentThere(c, placed, vin[i].prevout)
    ensures AllFound(idx, c.src, map[], BlockMode, vin, n)
    ensures AllFit(Fetched(idx, c.src, map[], BlockMode, Hashes(vin)), vin, n)
  {
    if n > 0 {
      ParentsFound(c, idx, placed, vin, n - 1);
      assert ParentThere(c, placed, vin[n - 1].prevout);
      ParentLookup(c, idx, placed, vin[n - 1].prevout);
      HashesHas(vin, n - 1);
    }
  }

  /** A transaction none of whose missing parents is still to be placed can be fetched: it never fails
      for want of a parent. */
  lemma ParentsFetchable(c: Context, d: Draft, tx: Tx)
    requires PoolConnects(c) && NoPool(c.db) && Stored(c.db, c.src.disk)
    requires Drafted(c, d) && FromPool(c, d.chosen)
    requires tx.id in c.src.pool && c.src.pool[tx.id] == tx && Waits(c, tx.vin) <= Ids(d.chosen)
    ensures Fetchable(c.src, c.db + d.testPool, tx)
  {
    AcceptConnects(c.r, c.src, c.db, d.chosen, PoolPositions(|d.chosen|));
    EntriesAfter(c, d.chosen);
    forall i | 0 <= i < |tx.vin| ensures ParentThere(c, Ids(d.chosen), tx.vin[i].prevout) {
      assert Connected(c, tx.vin[i].prevout);
      if !Readable(c.db, c.src.disk, tx.vin[i].prevout) {
        WaitsMeans(c, tx.vin, i);
      }
    }
    ParentsFound(c, c.db + d.testPool, Ids(d.chosen), tx.vin, |tx.vin|);
  }

  // ----- The collecting loop -----------------------------------------------------------------------------

  const HIGH_PRIORITY: real := (COIN * 144 / 250) as real

  /** The checks made before a transaction's inputs are looked at. */
  predicate Skips(cfg: Config, maxSigOps: int, size: int, sigOps: int, byFee: bool, item: Item) {
    || size + item.tx.size >= cfg.MaxSize()
    || sigOps + item.tx.legacySigOps >= maxSigOps
    || item.tx.nTime > cfg.now || (cfg.stake && item.tx.nTime > cfg.stakeTime)
    || (byFee && item.feePerKb < cfg.minTxFee as real && size + item.tx.size >= cfg.MinSize())
  }

  /** Why a transaction that comes up right after `prefix` was chosen is not taken. That a parent
      cannot be fetched is not among the reasons. */
  ghost predicate Refused(c: Context, cfg: Config, prefix: seq<Tx>, byFee: bool, item: Item) {
    var a := Accept(c.r, c.src, c.db, prefix, PoolPositions(|prefix|));
    a.Some? &&
    var sigOps := RESERVED_SIGOPS + a.value.1.sigOps;
    || Skips(cfg, c.r.maxSigOps, RESERVED_SIZE + SizeOf(prefix), sigOps, byFee, item)
    || (&& Fetchable(c.src, a.value.0, item.tx)
        && (|| sigOps + item.tx.legacySigOps + PoolSigOps(c, a.value.0, item.tx) >= c.r.maxSigOps
            || !ConnectPasses(c.r, item.tx, Prev(c.src, a.value.0, item.tx), POOL_POS)))
  }

  ghost predicate WasRefused(c: Context, cfg: Config, chosen: seq<Tx>, tx: Tx)
    requires tx.size > 0
  {
    exists k, byFee :: 0 <= k <= |chosen| && Refused(c, cfg, chosen[..k], byFee, Rank(c, tx))
  }

  /** Every transaction that was tried was chosen, or refused for a cause. */
  ghost predicate Explained(c: Context, cfg: Config, chosen: seq<Tx>, tried: set<Txid>) {
    forall h :: h in tried && h in c.src.pool && h !in Ids(chosen) ==>
      c.src.pool[h].size > 0 && WasRefused(c, cfg, chosen, c.src.pool[h])
  }

  lemma RefusalStands(c: Context, cfg: Config, chosen: seq<Tx>, more: Tx, tx: Tx)
    requires tx.size > 0 && WasRefused(c, cfg, chosen, tx)
    ensures WasRefused(c, cfg, chosen + [more], tx)
  {
    var k, byFee :| 0 <= k <= |chosen| && Refused(c, cfg, chosen[..k], byFee, Rank(c, tx));
    assert (chosen + [more])[..k] == chosen[..k];
  }

  lemma ExplainedGrows(c: Context, cfg: Config, chosen: seq<Tx>, tried: set<Txid>, tx: Tx)
    requires Explained(c, cfg, chosen, tried)
    ensures Explained(c, cfg, chosen + [tx], tried + {tx.id})
  {
    var all := chosen + [tx];
    assert all[..|chosen|] == chosen;
    IdsSnoc(all);
    forall h | h in tried + {tx.id} && h in c.src.pool && h !in Ids(all)
      ensures c.src.pool[h].size > 0 && WasRefused(c, cfg, all, c.src.pool[h])
    {
      RefusalStands(c, cfg, chosen, tx, c.src.pool[h]);
    }
  }

  lemma ExplainedRefusal(c: Context, cfg: Config, chosen: seq<Tx>, tried: set<Txid>, byFee: bool, item: Item)
    requires Explained(c, cfg, chosen, tried)
    requires item.tx.size > 0 && item == Rank(c, item.tx) && item.tx.id in c.src.pool
             && c.src.pool[item.tx.id] == item.tx
    requires Refused(c, cfg, chosen, byFee, item)
    ensures Explained(c, cfg, chosen, tried + {item.tx.id})
  {
    assert chosen[..|chosen|] == chosen;
    assert Refused(c, cfg, chosen[..|chosen|], byFee, Rank(c, item.tx));
  }

  // ----- The order of the turns ---------------------------------------------------------------------------

  /** One turn: the transaction that came up, whether the order was by fee, and whether it was chosen. */
  datatype Turn = Turn(tx: Tx, byFee: bool, taken: bool)

  function ChosenIn(turns: seq<Turn>): seq<Tx> {
    if turns == [] then []
    else
      var n := |turns| - 1;
      ChosenIn(turns[..n]) + if turns[n].taken then [turns[n].tx] else []
  }

  function TriedIn(turns: seq<Turn>): set<Txid> {
    if turns == [] then {} else TriedIn(turns[..|turns| - 1]) + {turns[|turns| - 1].tx.id}
  }

  /** A pool transaction that may come up: not tried yet, with all its pool parents chosen. */
  ghost predicate Available(c: Context, placed: set<Txid>, tried: set<Txid>, h: Txid) {
    && h in c.src.pool && h !in tried
    && var tx := c.src.pool[h];
       && c.isFinal(tx) && !tx.IsCoinBase() && !tx.IsCoinStake()
       && Waits(c, tx.vin) <= placed
  }

  /** `tx` is available, and nothing available comes before it. */
  ghost predicate Best(c: Context, placed: set<Txid>, tried: set<Txid>, byFee: bool, tx: Tx)
    requires PoolConnects(c)
  {
    && Available(c, placed, tried, tx.id) && c.src.pool[tx.id] == tx
    && forall h :: Available(c, placed, tried, h) ==> !ComesBefore(c, byFee, c.src.pool[h], tx)
  }

  /** Whether the transaction that comes up right after `prefix` was chosen turns the order to fees:
      it passes the first checks, and the part of the block kept for high priorities ends with it. */
  ghost predicate EndsPriority(c: Context, cfg: Config, prefix: seq<Tx>, byFee: bool, item: Item) {
    var a := Accept(c.r, c.src, c.db, prefix, PoolPositions(|prefix|));
    a.Some? &&
    var size := RESERVED_SIZE + SizeOf(prefix);
    && !Skips(cfg, c.r.maxSigOps, size, RESERVED_SIGOPS + a.value.1.sigOps, byFee, item)
    && (size + item.tx.size >= cfg.PrioritySize() || item.priority < HIGH_PRIORITY)
  }

  /** Whether the order is by fee after these turns. */
  ghost predicate FeeOrder(c: Context, cfg: Config, turns: seq<Turn>)
    requires PoolConnects(c) && Greedy(c, cfg, turns)
    decreases |turns|, 1
  {
    if turns == [] then cfg.PrioritySize() <= 0
    else
      var n := |turns| - 1;
      turns[n].byFee || EndsPriority(c, cfg, ChosenIn(turns[..n]), turns[n].byFee, Rank(c, turns[n].tx))
  }

  /** At every turn the best available transaction comes up, by the order then in force, and it is
      chosen exactly when nothing speaks against it. */
  ghost predicate Greedy(c: Context, cfg: Config, turns: seq<Turn>)
    requires PoolConnects(c)
    decreases |turns|, 0
  {
    turns == [] ||
    var n := |turns| - 1;
    && Greedy(c, cfg, turns[..n])
    && var prefix, t := ChosenIn(turns[..n]), turns[n];
       && t.byFee == FeeOrder(c, cfg, turns[..n])
       && Best(c, Ids(prefix), TriedIn(turns[..n]), t.byFee, t.tx)
       && (t.taken <==> !Refused(c, cfg, prefix, t.byFee, Rank(c, t.tx)))
  }

  lemma FrontIsBest(
    c: Context, queue: seq<Item>, orphans: seq<Item>, waiting: seq<set<Txid>>, placed: set<Txid>, tried: set<Txid>,
    byFee: bool, k: int)
    requires PoolConnects(c) && Sched(c, queue, orphans, waiting, placed, tried, c.src.pool.Keys)
    requires 0 <= k < |queue| && forall i :: 0 <= i < |queue| ==> !Below(byFee, queue[k], queue[i])
    ensures Best(c, placed, tried, byFee, queue[k].tx)
  {
    hide Waits, Below, Rank, ComesBefore;
    assert queue[k].tx.id in ItemIds(queue);
    forall h | Available(c, placed, tried, h)
      ensures !ComesBefore(c, byFee, c.src.pool[h], queue[k].tx)
    {
      assert h in c.src.pool.Keys;
      assert !StillWaits(orphans, waiting, h);
      var i :| 0 <= i < |queue| && queue[i].tx.id == h;
      assert queue[i] == Rank(c, c.src.pool[h]);
      BelowIsBehind(c, byFee, queue[k].tx, c.src.pool[h]);
    }
  }

  /** The turn that the loop makes next. */
  lemma NextTurn(c: Context, cfg: Config, turns: seq<Turn>, d: Draft, tx: Tx, taken: bool)
    requires PoolConnects(c) && Greedy(c, cfg, turns) && Drafted(c, d) && d.chosen == ChosenIn(turns)
    requires Best(c, Ids(d.chosen), TriedIn(turns), FeeOrder(c, cfg, turns), tx)
    requires taken <==> !Refused(c, cfg, d.chosen, FeeOrder(c, cfg, turns), Rank(c, tx))
    ensures var byFee := FeeOrder(c, cfg, turns);
            var all := turns + [Turn(tx, byFee, taken)];
            && Greedy(c, cfg, all) && TriedIn(all) == TriedIn(turns) + {tx.id}
            && ChosenIn(all) == d.chosen + (if taken then [tx] else [])
            && (FeeOrder(c, cfg, all) <==>
                || byFee
                || (&& !Skips(cfg, c.r.maxSigOps, d.size, d.sigOps, byFee, Rank(c, tx))
                    && (d.size + tx.size >= cfg.PrioritySize() || Rank(c, tx).priority < HIGH_PRIORITY)))
  {
    hide Best, Refused, Accept, Skips, Ids;
    var all := turns + [Turn(tx, FeeOrder(c, cfg, turns), taken)];
    assert all[..|turns|] == turns;
  }

  // ----- What the turns mean in plain numbers -----------------------------------------------------------

  /** Every turn was the best one when it came, and ended as its refusal reasons say. */
  lemma {:induction false} EachTurn(c: Context, cfg: Config, turns: seq<Turn>, n: nat)
    requires PoolConnects(c) && Greedy(c, cfg, turns) && n < |turns|
    ensures Greedy(c, cfg, turns[..n]) && turns[n].byFee == FeeOrder(c, cfg, turns[..n])
    ensures Best(c, Ids(ChosenIn(turns[..n])), TriedIn(turns[..n]), turns[n].byFee, turns[n].tx)
    ensures turns[n].taken <==> !Refused(c, cfg, ChosenIn(turns[..n]), turns[n].byFee, Rank(c, turns[n].tx))
    decreases |turns|
  {
    hide Best, Refused;
    var m := |turns| - 1;
    if n < m {
      EachTurn(c, cfg, turns[..m], n);
      assert turns[..m][..n] == turns[..n];
    }
  }

  /** The signature operations of the draft after `prefix` was chosen, those set aside included. */
  ghost function OpsAfter(c: Context, prefix: seq<Tx>): int {
    var a := Accept(c.r, c.src, c.db, prefix, PoolPositions(|prefix|));
    if a.Some? then 100 + a.value.1.sigOps else 0
  }

  lemma RateBelow(fee: int, size: int, min: int)
    requires size > 0
    ensures fee as real / (size as real / 1000.0) < min as real <==> fee * 1000 < min * size
  {
    var r := fee as real / (size as real / 1000.0);
    assert r * size as real == fee as real * 1000.0;
    Scaled(r, min as real, size as real);
    assert (fee * 1000) as real == fee as real * 1000.0 && (min * size) as real == min as real * size as real;
  }

  /** A transaction that comes up by its rank is turned down exactly when the block would reach its size,
      or its operations their limit, when it is not yet time for it, when it pays too little once the
      block has its minimum size, or when it does not connect. */
  lemma RefusedIff(c: Context, cfg: Config, prefix: seq<Tx>, byFee: bool, tx: Tx)
    requires tx.size > 0
    requires var a := Accept(c.r, c.src, c.db, prefix, PoolPositions(|prefix|));
             a.Some? && Fetchable(c.src, a.value.0, tx)
    ensures var idx := Accept(c.r, c.src, c.db, prefix, PoolPositions(|prefix|)).value.0;
            var size := 1000 + SizeOf(prefix) + tx.size;
            Refused(c, cfg, prefix, byFee, Rank(c, tx)) <==>
            || size >= cfg.MaxSize()
            || OpsAfter(c, prefix) + tx.legacySigOps + PoolSigOps(c, idx, tx) >= c.r.maxSigOps
            || tx.nTime > cfg.now || (cfg.stake && tx.nTime > cfg.stakeTime)
            || (byFee && Fee(c, tx) * 1000 < cfg.minTxFee * tx.size && size >= cfg.MinSize())
            || !ConnectPasses(c.r, tx, Prev(c.src, idx, tx), POOL_POS)
  {
    hide Accept, Fee, Fetchable, ConnectPasses, PoolSigOps, Age, Worth;
    InWholeNumbers(c, tx);
    RateBelow(Fee(c, tx), tx.size, cfg.minTxFee);
  }

  /** The order turns to fees with the first transaction that passes the checks made before its inputs
      are looked at, and that fills the part kept for high priorities or has less age-weighted value
      than 57,600,000 for its size. */
  lemma EndsPriorityIff(c: Context, cfg: Config, prefix: seq<Tx>, tx: Tx)
    requires tx.size > 0 && Accept(c.r, c.src, c.db, prefix, PoolPositions(|prefix|)).Some?
    ensures var size := 1000 + SizeOf(prefix) + tx.size;
            EndsPriority(c, cfg, prefix, false, Rank(c, tx)) <==>
            && size < cfg.MaxSize() && OpsAfter(c, prefix) + tx.legacySigOps < c.r.maxSigOps
            && tx.nTime <= cfg.now && (!cfg.stake || tx.nTime <= cfg.stakeTime)
            && (size >= cfg.PrioritySize() || Aged(c, tx) < 57_600_000 * tx.size)
  {
    hide Accept, Aged, Age, Worth, SizeOf, PoolPositions, ValueOut;
    InWholeNumbers(c, tx);
    PriorityBelow(Aged(c, tx), tx.size);
  }

  lemma PriorityBelow(aged: int, size: int)
    requires size > 0
    ensures aged as real / (size as real / 1.0) < HIGH_PRIORITY <==> aged < 57_600_000 * size
  {
    var p := aged as real / (size as real / 1.0);
    assert p * size as real == aged as real;
    Scaled(p, 57_600_000.0, size as real);
    assert (57_600_000 * size) as real == 57_600_000.0 * size as real;
  }

  /** Final, not generated, and not ahead of the block's time. */
  predicate Timely(c: Context, cfg: Config, tx: Tx) {
    && c.isFinal(tx) && !tx.IsCoinBase() && !tx.IsCoinStake()
    && tx.nTime <= cfg.now && (cfg.stake ==> tx.nTime <= cfg.stakeTime)
  }

  lemma TakenIsTimely(
    c: Context, cfg: Config, prefix: seq<Tx>, placed: set<Txid>, tried: set<Txid>, byFee: bool, tx: Tx)
    requires PoolConnects(c) && Best(c, placed, tried, byFee, tx)
    requires Accept(c.r, c.src, c.db, prefix, PoolPositions(|prefix|)).Some?
    requires !Refused(c, cfg, prefix, byFee, Rank(c, tx))
    ensures Timely(c, cfg, tx)
  {
    hide Accept, ComesBefore, Waits, Fetchable, ConnectPasses, Age, Worth;
  }

  lemma {:induction false} ChosenInTime(c: Context, cfg: Config, turns: seq<Turn>)
    requires PoolConnects(c) && Greedy(c, cfg, turns)
    requires Accept(c.r, c.src, c.db, ChosenIn(turns), PoolPositions(|ChosenIn(turns)|)).Some?
    ensures forall i :: 0 <= i < |ChosenIn(turns)| ==> Timely(c, cfg, ChosenIn(turns)[i])
  {
    hide Accept, Best, Refused, FeeOrder, Timely, Rank;
    if turns != [] {
      var n := |turns| - 1;
      var prefix, all, t := ChosenIn(turns[..n]), ChosenIn(turns), turns[n];
      if t.taken {
        AcceptedBefore(c, prefix, t.tx);
      } else {
        assert all == prefix;
      }
      ChosenInTime(c, cfg, turns[..n]);
      SizeOfBest(c, Ids(prefix), TriedIn(turns[..n]), t.byFee, t.tx);
      if t.taken {
        TakenIsTimely(c, cfg, prefix, Ids(prefix), TriedIn(turns[..n]), t.byFee, t.tx);
      }
    }
  }

  lemma AcceptedBefore(c: Context, prefix: seq<Tx>, tx: Tx)
    requires Accept(c.r, c.src, c.db, prefix + [tx], PoolPositions(|prefix| + 1)).Some?
    ensures Accept(c.r, c.src, c.db, prefix, PoolPositions(|prefix|)).Some?
  {
    hide Accept;
    AcceptPrefix(c.r, c.src, c.db, prefix + [tx], PoolPositions(|prefix| + 1), |prefix|);
    assert (prefix + [tx])[..|prefix|] == prefix;
    assert PoolPositions(|prefix| + 1)[..|prefix|] == PoolPositions(|prefix|);
  }

  lemma SizeOfBest(c: Context, placed: set<Txid>, tried: set<Txid>, byFee: bool, tx: Tx)
    requires PoolConnects(c) && Best(c, placed, tried, byFee, tx)
    ensures tx.size > 0
  {
  }

  /** One turn of the loop for the transaction taken from the queue. */
  method Consider(c: Context, cfg: Config, d: Draft, byFee: bool, item: Item)
    returns (added: bool, d': Draft, byFee': bool)
    requires Drafted(c, d) && Eligible(c, item.tx)
    ensures added ==> Drafted(c, d') && WithinBudget(c, cfg, d') && d'.chosen == d.chosen + [item.tx]
    ensures !added ==> d' == d
    ensures !added <==> Refused(c, cfg, d.chosen, byFee, item) || !Fetchable(c.src, c.db + d.testPool, item.tx)
    ensures byFee' <==>
              || byFee
              || (&& !Skips(cfg, c.r.maxSigOps, d.size, d.sigOps, byFee, item)
                  && (d.size + item.tx.size >= cfg.PrioritySize() || item.priority < HIGH_PRIORITY))
  {
    byFee' := byFee;
    if Skips(cfg, c.r.maxSigOps, d.size, d.sigOps, byFee, item) {
      return false, d, byFee;
    }
    if !byFee && (d.size + item.tx.size >= cfg.PrioritySize() || item.priority < HIGH_PRIORITY) {
      byFee' := true;
    }
    added, d' := Append(c, d, item.tx);
    if added {
      assert d'.chosen[..|d.chosen|] == d.chosen;
    }
  }

  /** Choosing the transactions of a new block. They are pool transactions, each taken at most once,
      and are accepted in order against the index; fees and budgets are exact. Each eligible transaction
      all of whose pool parents were chosen came up, and was chosen or refused for a cause. At every turn
      the one that comes up ranks below no other that could. */
  method Collect(c: Context, cfg: Config) returns (d: Draft, ghost tried: set<Txid>, ghost turns: seq<Turn>)
    requires PoolConnects(c) && NoPool(c.db) && Stored(c.db, c.src.disk)
    ensures Drafted(c, d) && WithinBudget(c, cfg, d)
    ensures FromPool(c, d.chosen) && DistinctIds(d.chosen)
    ensures Explained(c, cfg, d.chosen, tried)
    ensures forall h :: !Available(c, Ids(d.chosen), tried, h)
    ensures forall i :: 0 <= i < |d.chosen| ==> d.chosen[i].nTime <= cfg.now && c.isFinal(d.chosen[i])
    ensures cfg.stake ==> forall i :: 0 <= i < |d.chosen| ==> d.chosen[i].nTime <= cfg.stakeTime
    ensures forall n :: 0 <= n < |turns| ==>
              Best(c, Ids(ChosenIn(turns[..n])), TriedIn(turns[..n]), turns[n].byFee, turns[n].tx)
    ensures Greedy(c, cfg, turns) && d.chosen == ChosenIn(turns) && tried == TriedIn(turns)
  {
    hide Drafted, Refused, Explained, Eligible, Waits, Fetchable, Greedy, FeeOrder, Best, Skips, Rank;
    var queue, orphans, waiting, deps := Gather(c);
    d, tried, turns := Draft([], map[], RESERVED_SIZE, RESERVED_SIGOPS, 0), {}, [];
    NoTurns(c, cfg);
    EmptyDraft(c, cfg);
    var byFee := cfg.PrioritySize() <= 0;
    while queue != []
      invariant Sched(c, queue, orphans, waiting, Ids(d.chosen), tried, c.src.pool.Keys) && Listed(c, orphans, deps)
      invariant Drafted(c, d) && WithinBudget(c, cfg, d) && FromPool(c, d.chosen) && DistinctIds(d.chosen)
      invariant Ids(d.chosen) <= tried <= c.src.pool.Keys && Explained(c, cfg, d.chosen, tried)
      invariant Greedy(c, cfg, turns) && d.chosen == ChosenIn(turns) && tried == TriedIn(turns)
      invariant byFee == FeeOrder(c, cfg, turns)
      decreases c.src.pool.Keys - tried
    {
      var k := PopBest(queue, byFee);
      var item := queue[k];
      FrontIsBest(c, queue, orphans, waiting, Ids(d.chosen), tried, byFee, k);
      Taken(c, queue, orphans, waiting, Ids(d.chosen), tried, k);
      ParentsFetchable(c, d, item.tx);
      queue := DropAt(queue, k);
      ghost var before, prefer := d, byFee;
      var added;
      added, d, byFee := Consider(c, cfg, d, byFee, item);
      NextTurn(c, cfg, turns, before, item.tx, added);
      turns := turns + [Turn(item.tx, prefer, added)];
      if added {
        ExplainedGrows(c, cfg, before.chosen, tried, item.tx);
        Extends(c, before.chosen, tried, item.tx);
        queue, waiting := Release(c, queue, orphans, waiting, deps, item.tx.id, Ids(before.chosen),
                                  tried + {item.tx.id});
      } else {
        ExplainedRefusal(c, cfg, d.chosen, tried, prefer, item);
      }
      tried := tried + {item.tx.id};
    }
    NoneOverlooked(c, orphans, waiting, Ids(d.chosen), tried);
    DraftInTime(c, cfg, d, turns);
    forall n | 0 <= n < |turns|
      ensures Best(c, Ids(ChosenIn(turns[..n])), TriedIn(turns[..n]), turns[n].byFee, turns[n].tx)
    {
      EachTurn(c, cfg, turns, n);
    }
  }

  lemma DraftInTime(c: Context, cfg: Config, d: Draft, turns: seq<Turn>)
    requires PoolConnects(c) && Greedy(c, cfg, turns) && Drafted(c, d) && d.chosen == ChosenIn(turns)
    ensures forall i :: 0 <= i < |d.chosen| ==> d.chosen[i].nTime <= cfg.now && c.isFinal(d.chosen[i])
    ensures cfg.stake ==> forall i :: 0 <= i < |d.chosen| ==> d.chosen[i].nTime <= cfg.stakeTime
  {
    hide Accept, Greedy;
    ChosenInTime(c, cfg, turns);
  }

  lemma NoTurns(c: Context, cfg: Config)
    requires PoolConnects(c)
    ensures Greedy(c, cfg, []) && (FeeOrder(c, cfg, []) <==> cfg.PrioritySize() <= 0)
  {
  }

  lemma EmptyDraft(c: Context, cfg: Config)
    ensures Drafted(c, Draft([], map[], RESERVED_SIZE, RESERVED_SIGOPS, 0))
    ensures Explained(c, cfg, [], {}) && Ids([]) == {}
  {
    assert c.db + map[] == c.db;
  }

  lemma Extends(c: Context, chosen: seq<Tx>, tried: set<Txid>, tx: Tx)
    requires FromPool(c, chosen) && DistinctIds(chosen) && Ids(chosen) <= tried && tx.id !in tried
    requires tx.id in c.src.pool && c.src.pool[tx.id] == tx && Eligible(c, tx)
    ensures FromPool(c, chosen + [tx]) && DistinctIds(chosen + [tx]) && Ids(chosen + [tx]) == Ids(chosen) + {tx.id}
  {
    var all := chosen + [tx];
    assert all[..|chosen|] == chosen;
    IdsSnoc(all);
    forall i | 0 <= i < |chosen| ensures all[i] == chosen[i] && chosen[i].id in Ids(chosen) {
    }
  }

  lemma NoneOverlooked(c: Context, orphans: seq<Item>, waiting: seq<set<Txid>>, placed: set<Txid>, tried: set<Txid>)
    requires Sched(c, [], orphans, waiting, placed, tried, c.src.pool.Keys)
    ensures forall h :: !Available(c, placed, tried, h)
  {
    forall h | h in c.src.pool && Eligible(c, c.src.pool[h]) && Waits(c, c.src.pool[h].vin) <= placed
      ensures h in tried
    {
      assert h in c.src.pool.Keys;
      forall k | 0 <= k < |orphans| && orphans[k].tx.id == h ensures waiting[k] == {} {
        assert orphans[k].tx == c.src.pool[h];
      }
    }
  }

  // ----- What the draft means -------------------------------------------------------------------------------

  /** The index against which the `k`-th chosen transaction is connected. */
  ghost function Before(c: Context, d: Draft, k: nat): Index
    requires k <= |d.chosen| && Drafted(c, d)
  {
    AcceptPrefix(c.r, c.src, c.db, d.chosen, PoolPositions(|d.chosen|), k);
    Accept(c.r, c.src, c.db, d.chosen[..k], PoolPositions(|d.chosen|)[..k]).value.0
  }

  lemma PrefixConnects(c: Context, d: Draft, k: nat)
    requires k < |d.chosen| && Drafted(c, d) && FromPool(c, d.chosen)
    ensures Before(c, d, k).Keys == c.db.Keys + Ids(d.chosen[..k])
    ensures SpendAll(Before(c, d, k), d.chosen[k].vin, POOL_POS).Some?
  {
    hide TxAccepted, AddTx;
    var pos := PoolPositions(|d.chosen|);
    AcceptPrefix(c.r, c.src, c.db, d.chosen, pos, k);
    AcceptPrefix(c.r, c.src, c.db, d.chosen, pos, k + 1);
    AcceptStep(c.r, c.src, c.db, d.chosen, pos, k);
    AcceptConnects(c.r, c.src, c.db, d.chosen[..k], pos[..k]);
    assert pos[..k] == PoolPositions(k);
    EntriesAfter(c, d.chosen[..k]);
    AcceptedConnects(c.r, c.src, Before(c, d, k), d.chosen[k], POOL_POS);
    assert Eligible(c, d.chosen[k]);
  }

  /** Each chosen transaction spends outputs that are unspent when its turn comes, of transactions in
      the chain or chosen before it: a parent in the pool precedes its child. */
  lemma ParentPrecedesChild(c: Context, d: Draft, k: nat, i: nat)
    requires k < |d.chosen| && i < |d.chosen[k].vin| && Drafted(c, d) && FromPool(c, d.chosen)
    ensures CanSpend(Before(c, d, k), d.chosen[k].vin[i].prevout)
    ensures d.chosen[k].vin[i].prevout.hash in c.db
            || exists j :: 0 <= j < k && d.chosen[j].id == d.chosen[k].vin[i].prevout.hash
  {
    hide Accept, Drafted;
    PrefixConnects(c, d, k);
    SpendAllMarks(Before(c, d, k), d.chosen[k].vin, POOL_POS);
    var h := d.chosen[k].vin[i].prevout.hash;
    assert CanSpend(Before(c, d, k), d.chosen[k].vin[i].prevout);
    if h !in c.db {
      var j :| 0 <= j < k && d.chosen[..k][j].id == h;
      assert d.chosen[j].id == h;
    }
  }

  /** The fees are what the chosen transactions' inputs are worth beyond their outputs. */
  lemma {:induction false} FeesExact(c: Context, txs: seq<Tx>)
    requires FromPool(c, txs) && Accept(c.r, c.src, c.db, txs, PoolPositions(|txs|)).Some?
    ensures var t := Accept(c.r, c.src, c.db, txs, PoolPositions(|txs|)).value.1;
            t.fees == t.valueIn - t.valueOut && t.valueOut == BlockValueOut(txs)
  {
    hide TxAccepted, ConnectTx, PaidIn, Prev, Txs;
    if txs != [] {
      var n := |txs| - 1;
      assert PoolPositions(|txs|)[..n] == PoolPositions(n);
      assert Eligible(c, txs[n]);
      FeesExact(c, txs[..n]);
    }
  }
}
