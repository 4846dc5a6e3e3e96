/** A branch grown at the tip on which the emission bound fails: its last block is a proof-of-work block
    with a coinstake behind its second transaction. */
module StrayCoinstake {
  import opened Ledger
  import opened Supply
  import opened Connect
  import opened BlockConnect
  import opened Blocks
  import opened Freshness
  import opened Emission
  import opened CoinbaseBlocks

  // ----- A branch of coinbase blocks ---------------------------------------------------------------

  const LENGTH := 24
  const PLAIN_DRAW: int -> bool := h => false
  const ENV := Easy(PLAIN_DRAW)

  function HeightSig(h: nat): Script {
    if h <= 16 then [0x50 + h, 0] else [1, h]
  }

  function Coinbase(h: nat): Tx {
    CoinbaseTx(h, HeightSig(h), COIN)
  }

  function Line(n: nat): BlockIndex {
    if n == 0 then Genesis(Block(0, 0, 0, [], 1, 0)) else Child(Line(n - 1), Block(n, 0, 1000 * n, [Coinbase(n)], 1, 0))
  }

  function Place(n: nat): DiskTxPos {
    DiskTxPos(0, 1000 * n, 1000 * n + 81)
  }

  lemma {:induction false} LineShape(n: nat)
    ensures Height(Line(n)) == n && (n > 0 ==> Pos(Line(n).block) == [Place(n)])
  {
    if n > 0 {
      LineShape(n - 1);
      var txs := Line(n).block.vtx;
      assert txs[..0] == [] && SizeOf(txs[..0]) == 0;
    }
  }

  lemma SigStartsWithHeight(h: nat)
    requires 1 <= h < 128
    ensures StartsWithHeight(HeightSig(h), h) && |HeightSig(h)| == 2
  {
    if h <= 16 {
      SmallHeight(h);
    } else {
      OneByte(h);
    }
  }

  /** After n blocks the index holds their coinbases, all unspent. */
  ghost predicate Holds(idx: Index, n: nat) {
    && (forall h :: h in idx <==> 1 <= h <= n)
    && (forall h :: h in idx ==> idx[h] == TxIndex(Place(h), Unspents(1)))
  }

  lemma {:induction false} LineReplays(n: nat)
    ensures Replay(Line(n)).Some? && Holds(Replay(Line(n)).value, n)
  {
    if n > 0 {
      LineReplays(n - 1);
      LineShape(n);
      CoinbaseReplays(Line(n), n, HeightSig(n), COIN);
    }
  }

  /** The block files hold the branch. */
  ghost predicate HasLine(disk: Disk, n: nat) {
    forall h :: 1 <= h <= n ==> Place(h) in disk && disk[Place(h)] == Coinbase(h)
  }

  lemma {:induction false} LineOnDisk(disk: Disk, n: nat)
    requires HasLine(disk, n)
    ensures ChainOnDisk(disk, Line(n))
  {
    if n > 0 {
      LineOnDisk(disk, n - 1);
      LineShape(n);
    }
  }

  /** Every block of the branch is accepted on top of its predecessor. */
  lemma {:induction false} LineGrown(disk: Disk, n: nat)
    requires n <= LENGTH + 1
    ensures GrownAtTip(ENV, disk, Line(n))
  {
    hide SupplyAt, BlockConnects, StartsWithHeight, Pos, Replay, Holds;
    if n > 0 {
      LineGrown(disk, n - 1);
      LineReplays(n - 1);
      LineShape(n);
      LineShape(n - 1);
      SigStartsWithHeight(n);
      if n == 1 {
        NothingIssued(Line(0), disk);
      }
      CoinbaseAccepted(PLAIN_DRAW, TipView(disk, Line(n - 1)), Replay(Line(n - 1)).value, Line(n), n, HeightSig(n),
                       COIN);
    }
  }

  /** Coinbases of the branch are mature once 23 further blocks follow. */
  lemma {:induction false} Matures(n: nat, depth: int, h: nat)
    requires 1 <= h && h + depth <= n
    ensures !ConfirmedWithin(Line(n), depth, Place(h))
  {
    if depth > 0 {
      Matures(n - 1, depth - 1, h);
    }
  }

  lemma {:induction false} LineProper(name: Txid -> Tx, n: nat)
    requires n < 128 && forall h :: 1 <= h <= n ==> name(h) == Coinbase(h)
    ensures Proper(name, Line(n))
  {
    hide StartsWithHeight, CheckBlock, HeightSig;
    if n > 0 {
      LineProper(name, n - 1);
      LineShape(n);
      SigStartsWithHeight(n);
      CoinbaseChecks(Coinbase(n), n, HeightSig(n), COIN);
    }
  }

  /** Each block of the branch adds one coin. */
  lemma {:induction false} LineSupply(name: Txid -> Tx, disk: Disk, n: nat)
    requires n <= LENGTH + 1 && HasLine(disk, n) && forall h :: 1 <= h <= n ==> name(h) == Coinbase(h)
    ensures SupplyAt(Line(n), disk) == n * COIN
  {
    hide SupplyAt, Connects, AllStakeRewards, Totals, Proper, ChainOnDisk, CheckBlock, StartsWithHeight;
    if n == 0 {
      NothingIssued(Line(0), disk);
    } else {
      LineSupply(name, disk, n - 1);
      LineGrown(disk, n);
      LineOnDisk(disk, n);
      LineProper(name, n);
      SupplyGrowth(name, ENV, TipView(disk, Line(n - 1)), Line(n));
      CoinbaseChecks(Coinbase(n), n, HeightSig(n), COIN);
      NoFeesNoStakes(TipView(disk, Line(n - 1)), Line(n), n);
    }
  }

  lemma NoFeesNoStakes(v: View, b: BlockIndex, h: nat)
    requires Connects(ENV, v, b) && b.block.vtx == [Coinbase(h)]
    ensures AllStakeRewards(ENV, v, b) == 0 && Totals(ENV, v, b).fees == 0
  {
    hide CheckBlock, Replay;
    var r, src, idx := RulesFor(ENV, b), Source(v.disk, map[]), Replay(b.pprev).value;
    var txs, pos := b.block.vtx, Pos(b.block);
    assert txs[..0] == [] && pos[..0] == [];
    assert StakeRewards(r, src, idx, txs[..0], pos[..0]) == 0;
    assert Accept(r, src, idx, txs[..0], pos[..0]) == Some((idx, NO_TALLY));
    assert txs[0].IsCoinBase();
  }

  // ----- The last block ------------------------------------------------------------------------------

  /** Spends the first coinbase. */
  const PLAIN := Tx(1001, 0, [TxIn(OutPoint(1, 0), [])], [TxOut(COIN, [1])], 100, 0)
  /** A coinstake that spends the second coinbase and pays out all the money there may be. */
  const STAKE := Tx(1002, 0, [TxIn(OutPoint(2, 0), [])], [TxOut(0, []), TxOut(MAX_SINGLE_TX, [1])], 100, 0)
  const STRAY := Child(Line(LENGTH), Block(2000, 0, 1000 * (LENGTH + 1), [Coinbase(LENGTH + 1), PLAIN, STAKE], 1, 0))

  ghost function NameOf(id: Txid): Tx {
    if 1 <= id <= LENGTH + 1 then Coinbase(id) else if id == 1001 then PLAIN else STAKE
  }

  /** A transaction with one input that is found, mature, unspent and worth one coin is accepted if its fee
      passes. */
  lemma SpendsOne(r: Rules, src: Source, idx: Index, tx: Tx, p: DiskTxPos, h: nat)
    requires tx.vin == [TxIn(OutPoint(h, 0), [])] && 1 <= h && !tx.IsCoinBase() && tx.nTime == 0 && FeePasses(tx, COIN)
    requires h in idx && idx[h] == TxIndex(Place(h), Unspents(1))
    requires Place(h) in src.disk && src.disk[Place(h)] == Coinbase(h)
    requires !r.immature(Place(h)) && r.sigOk(Coinbase(h), tx, 0)
    ensures TxAccepted(r, src, idx, tx, p)
    ensures PaidIn(Prev(src, idx, tx), tx.vin) == COIN
    ensures ConnectTx(idx, tx, p) == Some(Enter(Mark(idx, OutPoint(h, 0), p), tx, p))
  {
    var vin := tx.vin;
    assert vin[..0] == [] && vin[..1] == vin;
    assert Hashes(vin[..0]) == {} && Hashes(vin) == {h};
    var a := Prev(src, idx, tx);
    assert Lookup(idx, src, map[], BlockMode, h) == Some((idx[h], Coinbase(h)));
    assert a == map[h := (idx[h], Coinbase(h))];
    assert AllFound(idx, src, map[], BlockMode, vin, 0) && AllFit(a, vin, 0);
    assert PaidIn(a, vin[..0]) == 0 && PaidIn(a, vin) == COIN;
    assert InputsPass(r, tx, a, 0) && InputPasses(r, tx, a, 0);
    assert SigsPass(r, tx, a, 0) && SigPasses(r, tx, a, 0);
    assert SpendAll(Marks(a), vin[..0], p) == Some(Marks(a)) && SpendAll(idx, vin[..0], p) == Some(idx);
  }

  /** Acceptance of the first k transactions of the last block. */
  ghost function After(disk: Disk, k: nat): Option<(Index, Tally)>
    requires k <= 3
  {
    LineReplays(LENGTH);
    Accept(RulesFor(ENV, STRAY), Source(disk, map[]), Replay(Line(LENGTH)).value, STRAY.block.vtx[..k],
           Pos(STRAY.block)[..k])
  }

  ghost function RewardsAfter(disk: Disk, k: nat): int
    requires k <= 3
  {
    LineReplays(LENGTH);
    StakeRewards(RulesFor(ENV, STRAY), Source(disk, map[]), Replay(Line(LENGTH)).value, STRAY.block.vtx[..k],
                 Pos(STRAY.block)[..k])
  }

  lemma Mature(h: nat)
    requires 1 <= h <= 2
    ensures !RulesFor(ENV, STRAY).immature(Place(h))
  {
    Matures(LENGTH, COINBASE_MATURITY - 1, h);
  }

  lemma Step(disk: Disk, k: nat)
    requires k < 3 && After(disk, k).Some?
    ensures After(disk, k + 1)
         == AcceptOne(RulesFor(ENV, STRAY), Source(disk, map[]), After(disk, k).value, STRAY.block.vtx[k],
                      Pos(STRAY.block)[k])
    ensures RewardsAfter(disk, k + 1) == RewardsAfter(disk, k)
              + if STRAY.block.vtx[k].IsCoinStake()
                then ValueOut(STRAY.block.vtx[k].vout)
                     - PaidIn(Prev(Source(disk, map[]), After(disk, k).value.0, STRAY.block.vtx[k]),
                              STRAY.block.vtx[k].vin)
                else 0
  {
    hide AcceptOne, Replay, PaidIn, Prev, ValueOut;
    LineReplays(LENGTH);
    var txs, pos := STRAY.block.vtx, Pos(STRAY.block);
    AcceptStep(RulesFor(ENV, STRAY), Source(disk, map[]), Replay(Line(LENGTH)).value, txs, pos, k);
    assert txs[..k + 1][..k] == txs[..k] && pos[..k + 1][..k] == pos[..k];
  }

  lemma FirstStep(disk: Disk)
    ensures var a := After(disk, 1);
            && a.Some? && a.value.1.fees == 0 && a.value.1.sigOps == 0 && RewardsAfter(disk, 1) == 0
            && forall h :: 1 <= h <= LENGTH ==> h in a.value.0 && a.value.0[h] == TxIndex(Place(h), Unspents(1))
  {
    hide After, RewardsAfter, Replay, Line;
    NoStep(disk);
    var txs := STRAY.block.vtx;
    assert txs[0].IsCoinBase() && !txs[0].IsCoinStake();
    Step(disk, 0);
  }

  lemma NoStep(disk: Disk)
    ensures After(disk, 0).Some? && After(disk, 0).value.1 == NO_TALLY && RewardsAfter(disk, 0) == 0
    ensures Holds(After(disk, 0).value.0, LENGTH)
  {
    hide Replay, Line;
    LineReplays(LENGTH);
    var txs, pos := STRAY.block.vtx, Pos(STRAY.block);
    assert txs[..0] == [] && pos[..0] == [];
  }

  lemma OneOut(x: TxOut)
    ensures ValueOut([x]) == x.nValue
  {
    assert [x][..0] == [];
  }

  lemma TwoOuts(x: TxOut, y: TxOut)
    ensures ValueOut([x, y]) == x.nValue + y.nValue
  {
    assert [x, y][..1] == [x];
    OneOut(x);
  }

  lemma SecondStep(disk: Disk)
    requires HasLine(disk, LENGTH)
    ensures var a := After(disk, 2);
            && a.Some? && a.value.1.fees == 0 && a.value.1.sigOps == 0 && RewardsAfter(disk, 2) == 0
            && 2 in a.value.0 && a.value.0[2] == TxIndex(Place(2), Unspents(1))
  {
    hide ValueOut, TxAccepted, ConnectTx, PaidIn, Prev, After, RewardsAfter;
    FirstStep(disk);
    var a := After(disk, 1).value;
    OneOut(PLAIN.vout[0]);
    Mature(1);
    SpendsOne(RulesFor(ENV, STRAY), Source(disk, map[]), a.0, PLAIN, Pos(STRAY.block)[1], 1);
    Step(disk, 1);
  }

  /** The coinstake is accepted whatever it pays out, and adds nothing to the fees. */
  lemma ThirdStep(disk: Disk)
    requires HasLine(disk, LENGTH)
    ensures After(disk, 3).Some? && After(disk, 3).value.1.fees == 0 && RewardsAfter(disk, 3) == MAX_SINGLE_TX - COIN
  {
    hide ValueOut, TxAccepted, ConnectTx, PaidIn, Prev, After, RewardsAfter;
    SecondStep(disk);
    var a := After(disk, 2).value;
    TwoOuts(STAKE.vout[0], STAKE.vout[1]);
    Mature(2);
    SpendsOne(RulesFor(ENV, STRAY), Source(disk, map[]), a.0, STAKE, Pos(STRAY.block)[2], 2);
    Step(disk, 2);
  }

  lemma StrayTxsCheck()
    ensures CheckTransaction(Coinbase(LENGTH + 1)) && CheckTransaction(PLAIN) && CheckTransaction(STAKE)
    ensures ValueOut(Coinbase(LENGTH + 1).vout) == COIN
  {
    hide StartsWithHeight, ProofOfStake;
    SigStartsWithHeight(LENGTH + 1);
    CoinbaseChecks(Coinbase(LENGTH + 1), LENGTH + 1, HeightSig(LENGTH + 1), COIN);
    OneOut(PLAIN.vout[0]);
    TwoOuts(STAKE.vout[0], STAKE.vout[1]);
    OneOut(STAKE.vout[0]);
    InRange1(PLAIN.vout[0]);
    InRange1(STAKE.vout[0]);
    assert STAKE.vout[..1] == [STAKE.vout[0]];
    assert ValuesInRange(STAKE.vout);
    assert CheckTransaction(Coinbase(LENGTH + 1)) by {
      assert [Coinbase(LENGTH + 1)][0] == Coinbase(LENGTH + 1);
    }
    assert CheckTransaction(PLAIN) && CheckTransaction(STAKE);
  }

  lemma StrayChecks()
    ensures CheckBlock(STRAY.block.vtx) && !ProofOfStake(STRAY.block.vtx) && Named(NameOf, STRAY.block.vtx)
    ensures ValueOut(Coinbase(LENGTH + 1).vout) == COIN
  {
    hide CheckTransaction, ValueOut;
    StrayTxsCheck();
  }

  lemma InRange1(x: TxOut)
    requires MoneyRange(x.nValue)
    ensures ValuesInRange([x])
  {
    OneOut(x);
    assert [x][..0] == [];
  }

  /** The block files hold the branch and the last block. */
  ghost predicate HasAll(disk: Disk) {
    HasLine(disk, LENGTH) && OnDisk(disk, STRAY.block.vtx, Pos(STRAY.block))
  }

  lemma StrayConnects(disk: Disk, v: View)
    requires HasAll(disk) && v == TipView(disk, Line(LENGTH))
    ensures Connects(ENV, v, STRAY) && AllStakeRewards(ENV, v, STRAY) == MAX_SINGLE_TX - COIN
            && Totals(ENV, v, STRAY).fees == 0
  {
    hide SupplyAt, Replay, CheckBlock, Accept, StakeRewards, Line, Subsidy, Pos;
    LineReplays(LENGTH);
    LineShape(LENGTH);
    OneCoinIsCovered(v.bestSupply);
    ThirdStep(disk);
    StrayChecks();
    var txs, pos := STRAY.block.vtx, Pos(STRAY.block);
    assert txs[..3] == txs && pos[..3] == pos;
  }

  lemma OneCoinIsCovered(supply: int)
    ensures COIN <= Subsidy(ENV, LENGTH + 1, Line(LENGTH), supply)
  {
  }

  /** The blocks of the branch are within every limit there may be. */
  ghost predicate AllSmall(b: BlockIndex) {
    b.Child? ==> AllSmall(b.pprev) && WithinLimits(MIN_BLOCK_SIZE, b.block)
  }

  lemma {:induction false} LineSmall(n: nat)
    ensures AllSmall(Line(n))
  {
    hide WithinLimits;
    if n > 0 {
      LineSmall(n - 1);
      CoinbaseFits(MIN_BLOCK_SIZE, Line(n).block, n, HeightSig(n), COIN);
    }
  }

  lemma StraySmall()
    ensures AllSmall(STRAY)
  {
    LineSmall(LENGTH);
    var txs := STRAY.block.vtx;
    assert txs[..2][..1] == txs[..1] && txs[..1][..0] == [];
    assert SizeOf(txs[..1]) == 100 && SizeOf(txs[..2]) == 200 && SizeOf(txs) == 300;
    assert LegacySigOps(txs[..1]) == 0 && LegacySigOps(txs[..2]) == 0 && LegacySigOps(txs) == 0;
  }

  lemma StrayProper()
    ensures Proper(NameOf, STRAY)
  {
    hide StartsWithHeight, CheckBlock;
    LineProper(NameOf, LENGTH);
    LineShape(LENGTH);
    StrayChecks();
    SigStartsWithHeight(LENGTH + 1);
  }

  /** The law that a block issues at most its subsidy, and the emission bound with it, fail on this branch:
      all its blocks pass every check and are accepted at the tip. */
  lemma StrayCoinstakeOverIssues(disk: Disk)
    requires HasAll(disk)
    ensures Proper(NameOf, STRAY) && ChainOnDisk(disk, STRAY) && GrownAtTip(ENV, disk, STRAY)
    ensures var parent := STRAY.pprev; var supply := SupplyAt(parent, disk);
            SupplyAt(STRAY, disk) > supply + Subsidy(ENV, Height(STRAY), parent, supply)
    ensures SupplyAt(STRAY, disk) > (99_990_000 + 300 * Height(STRAY)) * COIN
    ensures AllSmall(STRAY)
  {
    hide SupplyAt, Proper, Connects, StakeRewards, CheckBlock, AllSmall;
    StrayProper();
    StraySmall();
    LineOnDisk(disk, LENGTH);
    LineGrown(disk, LENGTH);
    LineShape(LENGTH);
    var v := TipView(disk, Line(LENGTH));
    StrayConnects(disk, v);
    StrayChecks();
    SupplyGrowth(NameOf, ENV, v, STRAY);
    LineSupply(NameOf, disk, LENGTH);
  }

  lemma StrayPos()
    ensures Pos(STRAY.block) == [DiskTxPos(0, 25000, 25081), DiskTxPos(0, 25000, 25181), DiskTxPos(0, 25000, 25281)]
  {
    var txs := STRAY.block.vtx;
    assert txs[..0] == [] && txs[..1] == [txs[0]] && txs[..2] == [txs[0], txs[1]];
    assert txs[..1][..0] == [] && txs[..2][..1] == txs[..1];
    assert SizeOf(txs[..1]) == 100 && SizeOf(txs[..2]) == 200;
    PositionAt(0, 25000, 25081, txs, 0);
    PositionAt(0, 25000, 25081, txs, 1);
    PositionAt(0, 25000, 25081, txs, 2);
  }

  /** There are such block files. */
  lemma SomeDisk() returns (disk: Disk)
    ensures HasAll(disk)
  {
    hide Pos, LineDisk, Line, Coinbase;
    var line, txs, pos := LineDisk(LENGTH), STRAY.block.vtx, Pos(STRAY.block);
    LineDiskHas(LENGTH);
    StrayPos();
    disk := line[pos[0] := txs[0]][pos[1] := txs[1]][pos[2] := txs[2]];
    forall h | 1 <= h <= LENGTH ensures Place(h) !in pos {
    }
  }

  ghost function LineDisk(n: nat): Disk {
    if n == 0 then map[] else LineDisk(n - 1)[Place(n) := Coinbase(n)]
  }

  lemma {:induction false} LineDiskHas(n: nat)
    ensures HasLine(LineDisk(n), n) && forall p :: p in LineDisk(n) ==> p.nBlockPos <= 1000 * n
  {
    if n > 0 {
      LineDiskHas(n - 1);
    }
  }
}
