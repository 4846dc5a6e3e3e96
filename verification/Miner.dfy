/** Choosing memory-pool transactions for a new block: ranking, waiting for parents that are
    themselves in the pool, and the size and signature-operation budgets. */
module Miner {
  import opened Ledger
  import opened Supply
  import opened Connect
  import opened Sequences
  import Ordered

  /** What the choice reads: acceptance rules, block files and memory pool, the transaction index,
      finality of a transaction and the depth of a position in the main chain. */
  datatype Context = Context(r: Rules, src: Source, db: Index, isFinal: Tx -> bool, depth: DiskTxPos -> int)

  /** The configured limits; `stakeTime` is the coinbase time of a proof-of-stake block. */
  datatype Config = Config(
    maxSizeArg: int, prioritySizeArg: int, minSizeArg: int, minTxFee: int, now: int, stake: bool, stakeTime: int)
  {
    function MaxSize(): int {
      var capped := if maxSizeArg < MAX_BLOCK_SIZE - 1000 then maxSizeArg else MAX_BLOCK_SIZE - 1000;
      if capped < 1000 then 1000 else capped
    }

    function PrioritySize(): int {
      if MaxSize() < prioritySizeArg then MaxSize() else prioritySizeArg
    }

    function MinSize(): int {
      if MaxSize() < minSizeArg then MaxSize() else minSizeArg
    }
  }

  /** The block size is the one asked for, within 1,000 and 20,511,000 bytes; the other two limits are
      the ones asked for, as far as the first allows. */
  lemma ConfiguredSizes(cfg: Config)
    ensures 1000 <= cfg.MaxSize() <= 20_511_000
    ensures 1000 <= cfg.maxSizeArg <= 20_511_000 ==> cfg.MaxSize() == cfg.maxSizeArg
    ensures cfg.maxSizeArg < 1000 ==> cfg.MaxSize() == 1000
    ensures cfg.maxSizeArg > 20_511_000 ==> cfg.MaxSize() == 20_511_000
    ensures cfg.PrioritySize() <= cfg.MaxSize() && cfg.PrioritySize() <= cfg.prioritySizeArg
    ensures cfg.PrioritySize() == cfg.MaxSize() || cfg.PrioritySize() == cfg.prioritySizeArg
    ensures cfg.MinSize() <= cfg.MaxSize() && cfg.MinSize() <= cfg.minSizeArg
    ensures cfg.MinSize() == cfg.MaxSize() || cfg.MinSize() == cfg.minSizeArg
  {
  }

  // ----- Ranking ----------------------------------------------------------------------------

  datatype Item = Item(priority: real, feePerKb: real, tx: Tx)

  predicate Below(byFee: bool, a: Item, b: Item) {
    if byFee then
      if a.feePerKb == b.feePerKb then a.priority < b.priority else a.feePerKb < b.feePerKb
    else
      if a.priority == b.priority then a.feePerKb < b.feePerKb else a.priority < b.priority
  }

  predicate Eligible(c: Context, tx: Tx) {
    !tx.IsCoinBase() && !tx.IsCoinStake() && c.isFinal(tx)
  }

  predicate InPool(c: Context, o: OutPoint) {
    o.hash in c.src.pool && o.n < |c.src.pool[o.hash].vout|
  }

  /** An input is found in the chain or in the pool, and one that names a pool transaction names one
      of its outputs. */
  predicate Connected(c: Context, o: OutPoint) {
    (Readable(c.db, c.src.disk, o) || InPool(c, o)) && (o.hash in c.src.pool ==> InPool(c, o))
  }

  ghost predicate PoolConnects(c: Context) {
    && (forall h :: h in c.src.pool ==> c.src.pool[h].id == h && c.src.pool[h].size > 0)
    && (forall h, i :: h in c.src.pool && 0 <= i < |c.src.pool[h].vin| ==> Connected(c, c.src.pool[h].vin[i].prevout))
  }

  /** The parents that are not in the chain. */
  function Waits(c: Context, vin: seq<TxIn>): set<Txid> {
    if vin == [] then {}
    else
      var o := vin[|vin| - 1].prevout;
      Waits(c, vin[..|vin| - 1]) + if Readable(c.db, c.src.disk, o) then {} else {o.hash}
  }

  function Age(c: Context, vin: seq<TxIn>): int {
    if vin == [] then 0
    else
      var o := vin[|vin| - 1].prevout;
      Age(c, vin[..|vin| - 1]) +
      if Readable(c.db, c.src.disk, o) then OutValue(c.db, c.src.disk, o) * c.depth(c.db[o.hash].pos) else 0
  }

  function Worth(c: Context, vin: seq<TxIn>): int {
    if vin == [] then 0
    else
      var o := vin[|vin| - 1].prevout;
      Worth(c, vin[..|vin| - 1]) +
      if Readable(c.db, c.src.disk, o) then OutValue(c.db, c.src.disk, o)
      else if InPool(c, o) then c.src.pool[o.hash].vout[o.n].nValue else 0
  }

  function Rank(c: Context, tx: Tx): Item
    requires tx.size > 0
  {
    Item(Age(c, tx.vin) as real / tx.size as real,
         (Worth(c, tx.vin) - ValueOut(tx.vout)) as real / (tx.size as real / 1000.0),
         tx)
  }

  // ----- The ranking in whole numbers -----------------------------------------------------------

  /** What an input is worth, in the chain or in the pool. */
  function InputValue(c: Context, o: OutPoint): int {
    if Readable(c.db, c.src.disk, o) then c.src.disk[c.db[o.hash].pos].vout[o.n].nValue
    else if InPool(c, o) then c.src.pool[o.hash].vout[o.n].nValue
    else 0
  }

  function InputValues(c: Context, vin: seq<TxIn>): seq<int> {
    seq(|vin|, i requires 0 <= i < |vin| => InputValue(c, vin[i].prevout))
  }

  /** The values of the inputs in the chain, each times its depth. */
  function AgedValues(c: Context, vin: seq<TxIn>): seq<int> {
    seq(|vin|, i requires 0 <= i < |vin| =>
      if Readable(c.db, c.src.disk, vin[i].prevout)
      then InputValue(c, vin[i].prevout) * c.depth(c.db[vin[i].prevout.hash].pos) else 0)
  }

  /** What a transaction pays: its inputs less its outputs. */
  function Fee(c: Context, tx: Tx): int {
    Total(InputValues(c, tx.vin)) - Total(OutputValues(tx.vout))
  }

  function Aged(c: Context, tx: Tx): int {
    Total(AgedValues(c, tx.vin))
  }

  /** `a` comes before `b`: by fee it pays more for its size, or as much with more age-weighted value for
      its size; by priority the other way round. */
  predicate ComesBefore(c: Context, byFee: bool, a: Tx, b: Tx) {
    var fees, ages := Fee(c, a) * b.size - Fee(c, b) * a.size, Aged(c, a) * b.size - Aged(c, b) * a.size;
    if byFee then fees > 0 || (fees == 0 && ages > 0) else ages > 0 || (ages == 0 && fees > 0)
  }

  lemma {:induction false} WorthIsTotal(c: Context, vin: seq<TxIn>)
    ensures Worth(c, vin) == Total(InputValues(c, vin))
  {
    if vin != [] {
      var f := vin[..|vin| - 1];
      WorthIsTotal(c, f);
      assert InputValues(c, vin)[..|f|] == InputValues(c, f);
      TotalSnoc(InputValues(c, vin));
    }
  }

  lemma {:induction false} AgeIsTotal(c: Context, vin: seq<TxIn>)
    ensures Age(c, vin) == Total(AgedValues(c, vin))
  {
    if vin != [] {
      var f := vin[..|vin| - 1];
      AgeIsTotal(c, f);
      assert AgedValues(c, vin)[..|f|] == AgedValues(c, f);
      TotalSnoc(AgedValues(c, vin));
    }
  }

  /** Comparing quotients is comparing products. */
  lemma QuotientsCompare(x: int, y: int, z: int, w: int, k: real)
    requires y > 0 && w > 0 && k > 0.0
    ensures x as real / (y as real / k) < z as real / (w as real / k) <==> x * w < z * y
    ensures x as real / (y as real / k) == z as real / (w as real / k) <==> x * w == z * y
  {
    var p, q, a, b := x as real, z as real, y as real, w as real;
    CrossMultiply(p, a, q, b, k);
    assert (x * w) as real == p * b && (z * y) as real == q * a;
  }

  lemma CrossMultiply(p: real, a: real, q: real, b: real, k: real)
    requires a > 0.0 && b > 0.0 && k > 0.0
    ensures p / (a / k) < q / (b / k) <==> p * b < q * a
    ensures p / (a / k) == q / (b / k) <==> p * b == q * a
  {
    var u, v := p / (a / k), q / (b / k);
    assert u * a == p * k && v * b == q * k;
    var s := a * b;
    assert s > 0.0;
    assert u * s == p * b * k && v * s == q * a * k;
    Scaled(u, v, s);
    Scaled(p * b, q * a, k);
  }

  lemma Scaled(u: real, v: real, s: real)
    requires s > 0.0
    ensures u < v <==> u * s < v * s
    ensures u == v <==> u * s == v * s
  {
    if u < v {
      assert (v - u) * s > 0.0;
    } else if u > v {
      assert (u - v) * s > 0.0;
    }
  }

  /** The comparer of the heap says just that. */
  lemma BelowIsBehind(c: Context, byFee: bool, a: Tx, b: Tx)
    requires a.size > 0 && b.size > 0
    ensures Below(byFee, Rank(c, a), Rank(c, b)) <==> ComesBefore(c, byFee, b, a)
  {
    hide Age, Worth, ValueOut, Fee, Aged;
    InWholeNumbers(c, a);
    InWholeNumbers(c, b);
    QuotientsCompare(Fee(c, a), a.size, Fee(c, b), b.size, 1000.0);
    QuotientsCompare(Fee(c, b), b.size, Fee(c, a), a.size, 1000.0);
    QuotientsCompare(Aged(c, a), a.size, Aged(c, b), b.size, 1.0);
    QuotientsCompare(Aged(c, b), b.size, Aged(c, a), a.size, 1.0);
  }

  lemma InWholeNumbers(c: Context, tx: Tx)
    requires tx.size > 0
    ensures Rank(c, tx).feePerKb == Fee(c, tx) as real / (tx.size as real / 1000.0)
    ensures Rank(c, tx).priority == Aged(c, tx) as real / (tx.size as real / 1.0)
  {
    WorthIsTotal(c, tx.vin);
    AgeIsTotal(c, tx.vin);
    ValueOutIsTotal(tx.vout);
  }

  lemma SumsStep(c: Context, vin: seq<TxIn>, k: nat)
    requires k < |vin|
    ensures var o := vin[k].prevout; var readable := Readable(c.db, c.src.disk, o);
            && Waits(c, vin[..k + 1]) == Waits(c, vin[..k]) + (if readable then {} else {o.hash})
            && Age(c, vin[..k + 1]) == Age(c, vin[..k])
                 + (if readable then OutValue(c.db, c.src.disk, o) * c.depth(c.db[o.hash].pos) else 0)
            && Worth(c, vin[..k + 1]) == Worth(c, vin[..k])
                 + (if readable then OutValue(c.db, c.src.disk, o)
                    else if InPool(c, o) then c.src.pool[o.hash].vout[o.n].nValue else 0)
  {
    assert vin[..k + 1][..k] == vin[..k];
  }

  lemma {:induction false} WaitsMeans(c: Context, vin: seq<TxIn>, i: nat)
    requires i < |vin| && !Readable(c.db, c.src.disk, vin[i].prevout)
    ensures vin[i].prevout.hash in Waits(c, vin)
    decreases |vin|
  {
    if i < |vin| - 1 {
      WaitsMeans(c, vin[..|vin| - 1], i);
    }
  }

  // ----- Building the queue and the waiting list -----------------------------------------------

  type Dependers = map<Txid, seq<int>>

  predicate Lists(deps: Dependers, h: Txid, k: int) {
    h in deps && k in deps[h]
  }

  function AddDepender(deps: Dependers, h: Txid, k: int): Dependers {
    deps[h := (if h in deps then deps[h] else []) + [k]]
  }

  lemma AddsOne(deps: Dependers, h: Txid, k: int, g: Txid, j: int)
    ensures Lists(AddDepender(deps, h, k), g, j) <==> Lists(deps, g, j) || (g == h && j == k)
  {
  }

  function ItemIds(items: seq<Item>): set<Txid> {
    set i | 0 <= i < |items| :: items[i].tx.id
  }

  lemma ItemIdsSnoc(items: seq<Item>, x: Item)
    ensures ItemIds(items + [x]) == ItemIds(items) + {x.tx.id}
  {
    var all := items + [x];
    forall h | h in ItemIds(items) + {x.tx.id} ensures h in ItemIds(all) {
      if h == x.tx.id {
        assert all[|items|].tx.id == h;
      } else {
        var i :| 0 <= i < |items| && items[i].tx.id == h;
        assert all[i].tx.id == h;
      }
    }
  }

  predicate DistinctItems(items: seq<Item>) {
    forall i, j :: 0 <= i < j < |items| ==> items[i].tx.id != items[j].tx.id
  }

  /** Items stand for eligible pool transactions, at their rank, each at most once. */
  ghost predicate Ranked(c: Context, items: seq<Item>) {
    && DistinctItems(items)
    && forall i :: 0 <= i < |items| ==>
         var h := items[i].tx.id;
         && h in c.src.pool && c.src.pool[h] == items[i].tx && items[i].tx.size > 0
         && items[i] == Rank(c, items[i].tx) && Eligible(c, items[i].tx)
  }

  ghost predicate Held(c: Context, orphans: seq<Item>, waiting: seq<set<Txid>>, placed: set<Txid>) {
    && |waiting| == |orphans|
    && forall k :: 0 <= k < |orphans| ==> waiting[k] == Waits(c, orphans[k].tx.vin) - placed
  }

  ghost predicate Listed(c: Context, orphans: seq<Item>, deps: Dependers) {
    forall h, k :: Lists(deps, h, k) <==> 0 <= k < |orphans| && h in Waits(c, orphans[k].tx.vin)
  }

  ghost predicate Fed(c: Context, queue: seq<Item>, placed: set<Txid>) {
    forall i :: 0 <= i < |queue| ==> Waits(c, queue[i].tx.vin) <= placed
  }

  /** Whatever still waits is neither queued nor taken already. */
  ghost predicate Apart(queue: seq<Item>, orphans: seq<Item>, waiting: seq<set<Txid>>, taken: set<Txid>)
    requires |waiting| == |orphans|
  {
    && ItemIds(queue) !! taken
    && forall k :: 0 <= k < |orphans| && waiting[k] != {} ==>
         orphans[k].tx.id !in taken && orphans[k].tx.id !in ItemIds(queue)
  }

  ghost predicate StillWaits(orphans: seq<Item>, waiting: seq<set<Txid>>, h: Txid)
    requires |waiting| == |orphans|
  {
    exists k :: 0 <= k < |orphans| && orphans[k].tx.id == h && waiting[k] != {}
  }

  /** No eligible transaction among `seen` is overlooked. */
  ghost predicate Tracked(
    c: Context, queue: seq<Item>, orphans: seq<Item>, waiting: seq<set<Txid>>, taken: set<Txid>, seen: set<Txid>)
    requires |waiting| == |orphans|
  {
    forall h :: h in seen && h in c.src.pool && Eligible(c, c.src.pool[h]) ==>
      h in taken || h in ItemIds(queue) || StillWaits(orphans, waiting, h)
  }

  ghost predicate Sched(
    c: Context, queue: seq<Item>, orphans: seq<Item>, waiting: seq<set<Txid>>, placed: set<Txid>, taken: set<Txid>,
    seen: set<Txid>) {
    && Ranked(c, queue) && Ranked(c, orphans) && Held(c, orphans, waiting, placed) && Fed(c, queue, placed)
    && Apart(queue, orphans, waiting, taken) && Tracked(c, queue, orphans, waiting, taken, seen)
  }

  /** The inputs of one transaction: which parents it waits for, its age-weighted value and its total
      value. Each parent it waits for lists it as its `k`-th orphan. */
  method ScanInputs(c: Context, tx: Tx, k: int, deps: Dependers)
    returns (waits: set<Txid>, age: int, total: int, deps': Dependers)
    requires forall i :: 0 <= i < |tx.vin| ==> Connected(c, tx.vin[i].prevout)
    ensures waits == Waits(c, tx.vin) && age == Age(c, tx.vin) && total == Worth(c, tx.vin)
    ensures forall h, j :: Lists(deps', h, j) <==> Lists(deps, h, j) || (j == k && h in waits)
    ensures waits == {} ==> deps' == deps
  {
    waits, age, total, deps' := {}, 0, 0, deps;
    for i := 0 to |tx.vin|
      invariant waits == Waits(c, tx.vin[..i]) && age == Age(c, tx.vin[..i]) && total == Worth(c, tx.vin[..i])
      invariant forall h, j :: Lists(deps', h, j) <==> Lists(deps, h, j) || (j == k && h in waits)
      invariant waits == {} ==> deps' == deps
    {
      SumsStep(c, tx.vin, i);
      var o := tx.vin[i].prevout;
      if !Readable(c.db, c.src.disk, o) {
        forall h, j
          ensures Lists(AddDepender(deps', o.hash, k), h, j) <==> Lists(deps', h, j) || (h == o.hash && j == k)
        {
          AddsOne(deps', o.hash, k, h, j);
        }
        deps' := AddDepender(deps', o.hash, k);
        waits := waits + {o.hash};
        total := total + c.src.pool[o.hash].vout[o.n].nValue;
      } else {
        var value := c.src.disk[c.db[o.hash].pos].vout[o.n].nValue;
        total := total + value;
        age := age + value * c.depth(c.db[o.hash].pos);
      }
    }
    assert tx.vin[..|tx.vin|] == tx.vin;
  }

  lemma QueueReady(
    c: Context, queue: seq<Item>, orphans: seq<Item>, waiting: seq<set<Txid>>, placed: set<Txid>, taken: set<Txid>,
    seen: set<Txid>, x: Item)
    requires Sched(c, queue, orphans, waiting, placed, taken, seen) && ItemIds(queue) <= seen + taken
             && ItemIds(orphans) <= seen
    requires x.tx.id !in seen && x.tx.id !in taken
    requires Ranked(c, [x]) && Waits(c, x.tx.vin) <= placed
    ensures Sched(c, queue + [x], orphans, waiting, placed, taken, seen + {x.tx.id})
    ensures ItemIds(queue + [x]) <= seen + {x.tx.id} + taken
  {
    hide Waits, Rank, Eligible;
    ItemIdsSnoc(queue, x);
    assert [x][0] == x;
    forall i | 0 <= i < |queue| ensures queue[i].tx.id in ItemIds(queue) {
    }
    forall k | 0 <= k < |orphans| ensures orphans[k].tx.id in ItemIds(orphans) {
    }
  }

  lemma HoldBack(c: Context, queue: seq<Item>, orphans: seq<Item>, waiting: seq<set<Txid>>, seen: set<Txid>, x: Item)
    requires Sched(c, queue, orphans, waiting, {}, {}, seen) && ItemIds(queue) <= seen && ItemIds(orphans) <= seen
    requires x.tx.id !in seen && Ranked(c, [x]) && Waits(c, x.tx.vin) != {}
    ensures Sched(c, queue, orphans + [x], waiting + [Waits(c, x.tx.vin)], {}, {}, seen + {x.tx.id})
    ensures ItemIds(orphans + [x]) <= seen + {x.tx.id}
  {
    hide Waits, Rank, Eligible;
    ItemIdsSnoc(orphans, x);
    assert [x][0] == x;
    forall k | 0 <= k < |orphans| ensures orphans[k].tx.id in ItemIds(orphans) {
    }
    var all, ws := orphans + [x], waiting + [Waits(c, x.tx.vin)];
    assert all[|orphans|].tx.id == x.tx.id && ws[|orphans|] != {};
    forall h | h in seen && StillWaits(orphans, waiting, h) ensures StillWaits(all, ws, h) {
      var k :| 0 <= k < |orphans| && orphans[k].tx.id == h && waiting[k] != {};
      assert all[k].tx.id == h && ws[k] != {};
    }
  }

  lemma ListMore(c: Context, orphans: seq<Item>, deps: Dependers, deps': Dependers, x: Item)
    requires Listed(c, orphans, deps)
    requires forall h, j :: Lists(deps', h, j) <==> Lists(deps, h, j) || (j == |orphans| && h in Waits(c, x.tx.vin))
    ensures Listed(c, orphans + [x], deps')
  {
    var all := orphans + [x];
    forall h, k ensures Lists(deps', h, k) <==> 0 <= k < |all| && h in Waits(c, all[k].tx.vin) {
      if 0 <= k < |orphans| {
        assert all[k] == orphans[k];
      }
    }
  }

  /** Walks the pool in key order: transactions whose inputs are all in the chain are queued, the
      others wait for their parents. */
  method Gather(c: Context) returns (queue: seq<Item>, orphans: seq<Item>, waiting: seq<set<Txid>>, deps: Dependers)
    requires PoolConnects(c)
    ensures Sched(c, queue, orphans, waiting, {}, {}, c.src.pool.Keys) && Listed(c, orphans, deps)
  {
    var ids := Ordered.Ascending(c.src.pool.Keys);
    queue, orphans, waiting, deps := [], [], [], map[];
    ghost var seen: set<Txid> := {};
    for n := 0 to |ids|
      invariant forall h :: h in seen <==> h in ids[..n]
      invariant Sched(c, queue, orphans, waiting, {}, {}, seen) && Listed(c, orphans, deps)
      invariant ItemIds(queue) <= seen && ItemIds(orphans) <= seen
    {
      assert ids[n] in ids && ids[..n + 1] == ids[..n] + [ids[n]];
      queue, orphans, waiting, deps := GatherOne(c, c.src.pool[ids[n]], queue, orphans, waiting, deps, seen);
      seen := seen + {ids[n]};
    }
    assert ids[..|ids|] == ids;
    forall h ensures h in c.src.pool.Keys <==> h in seen {
      assert h in ids <==> h in c.src.pool.Keys;
    }
    assert c.src.pool.Keys == seen;
  }

  method GatherOne(
    c: Context, tx: Tx, queue: seq<Item>, orphans: seq<Item>, waiting: seq<set<Txid>>, deps: Dependers,
    ghost seen: set<Txid>)
    returns (queue': seq<Item>, orphans': seq<Item>, waiting': seq<set<Txid>>, deps': Dependers)
    requires PoolConnects(c) && tx.id in c.src.pool && c.src.pool[tx.id] == tx && tx.id !in seen
    requires Sched(c, queue, orphans, waiting, {}, {}, seen) && Listed(c, orphans, deps)
    requires ItemIds(queue) <= seen && ItemIds(orphans) <= seen
    ensures Sched(c, queue', orphans', waiting', {}, {}, seen + {tx.id}) && Listed(c, orphans', deps')
    ensures ItemIds(queue') <= seen + {tx.id} && ItemIds(orphans') <= seen + {tx.id}
  {
    queue', orphans', waiting', deps' := queue, orphans, waiting, deps;
    if !Eligible(c, tx) {
      return;
    }
    var waits, age, total;
    waits, age, total, deps' := ScanInputs(c, tx, |orphans|, deps);
    var x := Item(age as real / tx.size as real, (total - ValueOut(tx.vout)) as real / (tx.size as real / 1000.0), tx);
    assert x == Rank(c, tx);
    if waits != {} {
      HoldBack(c, queue, orphans, waiting, seen, x);
      ListMore(c, orphans, deps, deps', x);
      orphans', waiting' := orphans + [x], waiting + [waits];
    } else {
      QueueReady(c, queue, orphans, waiting, {}, {}, seen, x);
      queue' := queue + [x];
    }
  }

  // ----- Taking the best item ---------------------------------------------------------------------

  /** The front of the heap: no other item ranks above it. */
  method PopBest(queue: seq<Item>, byFee: bool) returns (k: nat)
    requires queue != []
    ensures k < |queue| && forall i :: 0 <= i < |queue| ==> !Below(byFee, queue[k], queue[i])
    ensures byFee ==> forall i :: 0 <= i < |queue| ==>
              && queue[i].feePerKb <= queue[k].feePerKb
              && (queue[i].feePerKb == queue[k].feePerKb ==> queue[i].priority <= queue[k].priority)
    ensures !byFee ==> forall i :: 0 <= i < |queue| ==>
              && queue[i].priority <= queue[k].priority
              && (queue[i].priority == queue[k].priority ==> queue[i].feePerKb <= queue[k].feePerKb)
  {
    k := 0;
    for n := 1 to |queue|
      invariant k < n
      invariant forall i :: 0 <= i < n ==> !Below(byFee, queue[k], queue[i])
    {
      if Below(byFee, queue[k], queue[n]) {
        k := n;
      }
    }
  }

  lemma WithoutIds(queue: seq<Item>, k: int)
    requires 0 <= k < |queue| && DistinctItems(queue)
    ensures DistinctItems(DropAt(queue, k))
    ensures ItemIds(DropAt(queue, k)) == ItemIds(queue) - {queue[k].tx.id}
  {
    var rest := DropAt(queue, k);
    forall i | 0 <= i < |rest| ensures rest[i] == queue[if i < k then i else i + 1] {
    }
    forall h | h in ItemIds(queue) - {queue[k].tx.id} ensures h in ItemIds(rest) {
      var i :| 0 <= i < |queue| && queue[i].tx.id == h;
      assert rest[if i < k then i else i - 1].tx.id == h;
    }
  }

  lemma Taken(
    c: Context, queue: seq<Item>, orphans: seq<Item>, waiting: seq<set<Txid>>, placed: set<Txid>, taken: set<Txid>,
    k: int)
    requires 0 <= k < |queue| && Sched(c, queue, orphans, waiting, placed, taken, c.src.pool.Keys)
    ensures Sched(c, DropAt(queue, k), orphans, waiting, placed, taken + {queue[k].tx.id}, c.src.pool.Keys)
    ensures queue[k].tx.id !in taken
  {
    WithoutIds(queue, k);
    assert queue[k].tx.id in ItemIds(queue);
    var rest := DropAt(queue, k);
    forall i | 0 <= i < |rest| ensures rest[i] == queue[if i < k then i else i + 1] {
    }
  }

  // ----- Releasing dependents -----------------------------------------------------------------------

  /** While the dependents `ks` of a newly placed parent are visited, the first `n` of them no longer
      wait for it. */
  ghost predicate Releasing(
    c: Context, orphans: seq<Item>, waiting: seq<set<Txid>>, placed: set<Txid>, h: Txid, done: seq<int>) {
    && |waiting| == |orphans|
    && forall k :: 0 <= k < |orphans| ==>
         waiting[k] == Waits(c, orphans[k].tx.vin) - placed - (if k in done then {h} else {})
  }

  lemma ReleaseOne(
    c: Context, queue: seq<Item>, orphans: seq<Item>, waiting: seq<set<Txid>>, placed: set<Txid>, taken: set<Txid>,
    h: Txid, done: seq<int>, k: int)
    requires Ranked(c, queue) && Ranked(c, orphans) && Fed(c, queue, placed + {h})
    requires Releasing(c, orphans, waiting, placed, h, done)
    requires Apart(queue, orphans, waiting, taken) && Tracked(c, queue, orphans, waiting, taken, c.src.pool.Keys)
    requires 0 <= k < |orphans| && waiting[k] - {h} == {} && waiting[k] != {}
    ensures var q, w := queue + [orphans[k]], waiting[k := {}];
            && Ranked(c, q) && Fed(c, q, placed + {h}) && Releasing(c, orphans, w, placed, h, done + [k])
            && Apart(q, orphans, w, taken) && Tracked(c, q, orphans, w, taken, c.src.pool.Keys)
  {
    hide Waits, Rank, Eligible;
    ItemIdsSnoc(queue, orphans[k]);
    var q, w := queue + [orphans[k]], waiting[k := {}];
    forall i | 0 <= i < |queue| ensures queue[i].tx.id in ItemIds(queue) {
    }
    forall g | StillWaits(orphans, waiting, g) && g != orphans[k].tx.id ensures StillWaits(orphans, w, g) {
      var j :| 0 <= j < |orphans| && orphans[j].tx.id == g && waiting[j] != {};
      assert w[j] != {};
    }
  }

  lemma EraseOne(
    c: Context, queue: seq<Item>, orphans: seq<Item>, waiting: seq<set<Txid>>, placed: set<Txid>, taken: set<Txid>,
    h: Txid, done: seq<int>, k: int)
    requires Releasing(c, orphans, waiting, placed, h, done)
    requires Apart(queue, orphans, waiting, taken) && Tracked(c, queue, orphans, waiting, taken, c.src.pool.Keys)
    requires 0 <= k < |orphans| && (waiting[k] - {h} != {} || waiting[k] == {})
    ensures var w := waiting[k := waiting[k] - {h}];
            && Releasing(c, orphans, w, placed, h, done + [k])
            && Apart(queue, orphans, w, taken) && Tracked(c, queue, orphans, w, taken, c.src.pool.Keys)
  {
    var w := waiting[k := waiting[k] - {h}];
    forall g | StillWaits(orphans, waiting, g) ensures StillWaits(orphans, w, g) {
      var j :| 0 <= j < |orphans| && orphans[j].tx.id == g && waiting[j] != {};
      assert w[j] != {};
    }
  }

  /** Dependents of a placed transaction stop waiting for it; each whose last parent this was is
      queued, once. */
  method Release(
    c: Context, queue: seq<Item>, orphans: seq<Item>, waiting: seq<set<Txid>>, deps: Dependers, h: Txid,
    ghost placed: set<Txid>, ghost taken: set<Txid>)
    returns (queue': seq<Item>, waiting': seq<set<Txid>>)
    requires Sched(c, queue, orphans, waiting, placed, taken, c.src.pool.Keys) && Listed(c, orphans, deps)
    ensures Sched(c, queue', orphans, waiting', placed + {h}, taken, c.src.pool.Keys)
  {
    hide Waits, Apart, Tracked, Ranked;
    queue', waiting' := queue, waiting;
    var ks := if h in deps then deps[h] else [];
    for n := 0 to |ks|
      invariant Ranked(c, queue') && Fed(c, queue', placed + {h}) && Releasing(c, orphans, waiting', placed, h, ks[..n])
      invariant Apart(queue', orphans, waiting', taken) && Tracked(c, queue', orphans, waiting', taken, c.src.pool.Keys)
    {
      var k := ks[n];
      assert Lists(deps, h, k);
      assert ks[..n + 1] == ks[..n] + [k];
      if waiting'[k] != {} && waiting'[k] - {h} == {} {
        ReleaseOne(c, queue', orphans, waiting', placed, taken, h, ks[..n], k);
        queue', waiting' := queue' + [orphans[k]], waiting'[k := {}];
      } else {
        EraseOne(c, queue', orphans, waiting', placed, taken, h, ks[..n], k);
        waiting' := waiting'[k := waiting'[k] - {h}];
      }
    }
    assert ks[..|ks|] == ks;
    forall k | 0 <= k < |orphans| ensures waiting'[k] == Waits(c, orphans[k].tx.vin) - (placed + {h}) {
      assert Lists(deps, h, k) <==> h in Waits(c, orphans[k].tx.vin);
    }
  }
}
