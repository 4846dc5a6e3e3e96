/** What it takes for a transaction of a block to be accepted, input by input and in plain totals. */
module Spending {
  import opened Sequences
  import opened Ledger
  import opened Supply
  import opened Connect
  import opened BlockConnect
  import opened Blocks

  // ----- Maturity -----------------------------------------------------------------------------------

  /** A position lies within `depth` blocks of `b`, itself included, exactly when it is in a block of the
      branch less than `depth` below it. */
  lemma {:induction false} ConfirmedIff(b: BlockIndex, depth: int, pos: DiskTxPos)
    ensures ConfirmedWithin(b, depth, pos) <==>
            exists a :: Ancestor(a, b) && Height(b) - Height(a) < depth
                        && a.block.nFile == pos.nFile && a.block.nBlockPos == pos.nBlockPos
  {
    if depth <= 0 {
      forall a | Ancestor(a, b) ensures Height(a) <= Height(b) {
        AncestorHeight(a, b);
      }
    } else {
      assert Ancestor(b, b);
      if b.Child? {
        ConfirmedIff(b.pprev, depth - 1, pos);
      }
    }
  }

  /** No block less than 23 below `b`, `b` included, holds the position. */
  ghost predicate Mature(b: BlockIndex, pos: DiskTxPos) {
    forall a :: Ancestor(a, b) && Height(b) - Height(a) < 23 ==>
      a.block.nFile != pos.nFile || a.block.nBlockPos != pos.nBlockPos
  }

  lemma MatureIff(env: Env, b: BlockIndex, pos: DiskTxPos)
    ensures RulesFor(env, b).immature(pos) <==> !Mature(b, pos)
  {
    ConfirmedIff(b, COINBASE_MATURITY, pos);
  }

  // ----- Generated transactions ---------------------------------------------------------------------

  /** The shapes of coinbases and coinstakes. */
  lemma Shapes(tx: Tx)
    ensures tx.IsCoinBase() <==>
            |tx.vin| == 1 && tx.vin[0].prevout == OutPoint(0, 4_294_967_295) && tx.vout != []
    ensures tx.IsCoinStake() <==>
            && tx.vin != [] && tx.vin[0].prevout != OutPoint(0, 4_294_967_295)
            && |tx.vout| >= 2 && tx.vout[0] == TxOut(0, [])
  {
  }

  // ----- Inputs -----------------------------------------------------------------------------------------

  /** Inputs can be spent one after the other exactly when each is unspent and no two are the same. */
  lemma {:induction false} SpendAllIff(idx: Index, vin: seq<TxIn>, p: DiskTxPos)
    requires !p.IsNull()
    ensures SpendAll(idx, vin, p).Some? <==>
            && (forall i :: 0 <= i < |vin| ==> CanSpend(idx, vin[i].prevout))
            && (forall i, j :: 0 <= i < j < |vin| ==> vin[i].prevout != vin[j].prevout)
  {
    if SpendAll(idx, vin, p).Some? {
      SpendAllMarks(idx, vin, p);
    } else {
      var n := |vin| - 1;
      SpendAllIff(idx, vin[..n], p);
      if SpendAll(idx, vin[..n], p).Some? {
        SpendAllMarks(idx, vin[..n], p);
        var o := vin[n].prevout;
        if Spends(vin[..n], o) {
          var i :| 0 <= i < n && vin[..n][i].prevout == o;
          assert vin[i].prevout == vin[n].prevout;
        } else {
          assert !CanSpend(idx, o);
        }
      }
    }
  }

  /** The previous transaction of an input and the output it names, for an index whose entries are all in
      the block files. */
  ghost predicate There(idx: Index, disk: Disk, o: OutPoint) {
    && o.hash in idx && idx[o.hash].pos in disk
    && o.n < |idx[o.hash].vSpent| && o.n < |disk[idx[o.hash].pos].vout|
  }

  function WorthOf(idx: Index, disk: Disk, o: OutPoint): int {
    if Readable(idx, disk, o) then disk[idx[o.hash].pos].vout[o.n].nValue else 0
  }

  function WorthIn(idx: Index, disk: Disk, vin: seq<TxIn>): (s: seq<int>)
    ensures |s| == |vin| && forall i :: 0 <= i < |s| ==> s[i] == WorthOf(idx, disk, vin[i].prevout)
  {
    seq(|vin|, i requires 0 <= i < |vin| => WorthOf(idx, disk, vin[i].prevout))
  }

  /** An input that may be spent: there and unspent, mature if it was generated, no younger than its
      spender, not empty, worth an amount that may exist, and signed for. */
  ghost predicate GoodInput(env: Env, b: BlockIndex, idx: Index, disk: Disk, tx: Tx, i: nat)
    requires i < |tx.vin|
  {
    var o := tx.vin[i].prevout;
    && There(idx, disk, o)
    && var prev := disk[idx[o.hash].pos];
    && idx[o.hash].vSpent[o.n].nFile == 0xFFFF_FFFF
    && (prev.IsCoinBase() || prev.IsCoinStake() ==> Mature(b, idx[o.hash].pos))
    && prev.nTime <= tx.nTime
    && prev.vout[o.n] != TxOut(0, [])
    && 0 <= prev.vout[o.n].nValue <= 30_000_000_000_000_000
    && env.sigOk(prev, tx, i)
  }

  /** A transaction of a block that spends is accepted exactly when all its inputs are good and different,
      they are worth an amount that may exist, and, unless it is a coinstake, its outputs are no more. */
  ghost predicate GoodSpending(env: Env, b: BlockIndex, idx: Index, disk: Disk, tx: Tx) {
    var paid, out := Total(WorthIn(idx, disk, tx.vin)), Total(OutputValues(tx.vout));
    && (forall i :: 0 <= i < |tx.vin| ==> GoodInput(env, b, idx, disk, tx, i))
    && (forall i, j :: 0 <= i < j < |tx.vin| ==> tx.vin[i].prevout != tx.vin[j].prevout)
    && paid <= 30_000_000_000_000_000
    && (tx.IsCoinStake() || 0 <= paid - out <= 30_000_000_000_000_000)
  }

  // ----- What is fetched -----------------------------------------------------------------------------------

  lemma {:induction false} FoundIff(idx: Index, src: Source, vin: seq<TxIn>, n: nat)
    requires n <= |vin|
    ensures AllFound(idx, src, map[], BlockMode, vin, n) <==>
            forall i :: 0 <= i < n ==> Lookup(idx, src, map[], BlockMode, vin[i].prevout.hash).Some?
  {
    if n > 0 {
      FoundIff(idx, src, vin, n - 1);
    }
  }

  lemma {:induction false} FitIff(inputs: PrevTxs, vin: seq<TxIn>, n: nat)
    requires n <= |vin|
    ensures AllFit(inputs, vin, n) <==> forall i :: 0 <= i < n ==> Fits(inputs, vin[i].prevout)
  {
    if n > 0 {
      FitIff(inputs, vin, n - 1);
    }
  }

  lemma {:induction false} PassIff(r: Rules, tx: Tx, inputs: PrevTxs, n: nat)
    requires n <= |tx.vin|
    ensures InputsPass(r, tx, inputs, n) <==> forall i :: 0 <= i < n ==> InputPasses(r, tx, inputs, i)
    ensures SigsPass(r, tx, inputs, n) <==> forall i :: 0 <= i < n ==> SigPasses(r, tx, inputs, i)
  {
    hide InputPasses, SigPasses;
    if n > 0 {
      PassIff(r, tx, inputs, n - 1);
    }
  }

  /** What is fetched for an input is its index entry and the transaction that lies there. */
  lemma PrevAt(idx: Index, disk: Disk, tx: Tx, i: nat)
    requires i < |tx.vin| && NoPool(idx)
    ensures var a, h := Prev(Source(disk, map[]), idx, tx), tx.vin[i].prevout.hash;
            && (h in a <==> h in idx && idx[h].pos in disk)
            && (h in a ==> a[h] == (idx[h], disk[idx[h].pos]))
            && (Lookup(idx, Source(disk, map[]), map[], BlockMode, h).Some? <==> h in a)
            && (Fits(a, tx.vin[i].prevout) <==> There(idx, disk, tx.vin[i].prevout))
  {
    HashesHas(tx.vin, i);
  }

  lemma {:induction false} PaidIsTotal(idx: Index, disk: Disk, tx: Tx, n: nat)
    requires n <= |tx.vin| && NoPool(idx)
    ensures PaidIn(Prev(Source(disk, map[]), idx, tx), tx.vin[..n]) == Total(WorthIn(idx, disk, tx.vin)[..n])
  {
    hide Prev, WorthIn;
    var a, s := Prev(Source(disk, map[]), idx, tx), WorthIn(idx, disk, tx.vin);
    if n > 0 {
      PaidIsTotal(idx, disk, tx, n - 1);
      PaidInStep(a, tx.vin, n - 1);
      assert s[..n][..n - 1] == s[..n - 1];
      TotalSnoc(s[..n]);
      PaidAt(idx, disk, tx, n - 1);
    } else {
      assert tx.vin[..0] == [] && s[..0] == [];
    }
  }

  lemma PaidAt(idx: Index, disk: Disk, tx: Tx, i: nat)
    requires i < |tx.vin| && NoPool(idx)
    ensures PaidBy(Prev(Source(disk, map[]), idx, tx), tx.vin[i].prevout) == WorthOf(idx, disk, tx.vin[i].prevout)
  {
    PrevAt(idx, disk, tx, i);
  }

  /** Amounts add up within range exactly when their total does. */
  lemma {:induction false} PrefixAtMost(s: seq<int>, n: nat)
    requires n <= |s| && forall i :: 0 <= i < |s| ==> s[i] >= 0
    ensures 0 <= Total(s[..n]) <= Total(s)
  {
    assert s == s[..n] + s[n..];
    TotalAppend(s[..n], s[n..]);
    TotalNonNegative(s[..n]);
    TotalNonNegative(s[n..]);
  }

  // ----- Acceptance ----------------------------------------------------------------------------------------

  /** An input passes all its checks exactly when it is good and the amounts so far are in range. */
  lemma InputIff(env: Env, b: BlockIndex, idx: Index, disk: Disk, tx: Tx, i: nat)
    requires i < |tx.vin| && NoPool(idx)
    ensures var a, r := Prev(Source(disk, map[]), idx, tx), RulesFor(env, b);
            InputPasses(r, tx, a, i) && SigPasses(r, tx, a, i) && CanSpend(Marks(a), tx.vin[i].prevout)
            <==> GoodInput(env, b, idx, disk, tx, i) && MoneyRange(Total(WorthIn(idx, disk, tx.vin)[..i + 1]))
  {
    hide Prev, WorthIn, PaidIn, Mature;
    PrevAt(idx, disk, tx, i);
    PaidIsTotal(idx, disk, tx, i + 1);
    var o := tx.vin[i].prevout;
    if There(idx, disk, o) {
      MatureIff(env, b, idx[o.hash].pos);
    }
  }

  lemma GoodAmounts(env: Env, b: BlockIndex, idx: Index, disk: Disk, tx: Tx)
    requires forall i :: 0 <= i < |tx.vin| ==> GoodInput(env, b, idx, disk, tx, i)
    ensures forall i :: 0 <= i < |tx.vin| ==> 0 <= WorthOf(idx, disk, tx.vin[i].prevout)
  {
    forall i | 0 <= i < |tx.vin| ensures 0 <= WorthOf(idx, disk, tx.vin[i].prevout) {
      assert GoodInput(env, b, idx, disk, tx, i);
    }
  }

  /** All checks on an input that ConnectInputs makes. */
  ghost predicate Checks(env: Env, b: BlockIndex, idx: Index, disk: Disk, tx: Tx, i: nat)
    requires i < |tx.vin|
  {
    var a, r := Prev(Source(disk, map[]), idx, tx), RulesFor(env, b);
    InputPasses(r, tx, a, i) && SigPasses(r, tx, a, i) && CanSpend(Marks(a), tx.vin[i].prevout)
  }

  lemma ChecksEach(env: Env, b: BlockIndex, idx: Index, disk: Disk, tx: Tx, p: DiskTxPos)
    requires !tx.IsCoinBase() && NoPool(idx) && !p.IsNull()
    ensures TxAccepted(RulesFor(env, b), Source(disk, map[]), idx, tx, p) <==>
            && (forall i :: 0 <= i < |tx.vin| ==> Checks(env, b, idx, disk, tx, i))
            && (forall i, j :: 0 <= i < j < |tx.vin| ==> tx.vin[i].prevout != tx.vin[j].prevout)
            && FeePasses(tx, Total(WorthIn(idx, disk, tx.vin)))
  {
    hide Prev, WorthIn, PaidIn, InputPasses, SigPasses, CanSpend, SpendAll, RulesFor, Marks, Lookup, FeePasses, Fits;
    var a, r, n := Prev(Source(disk, map[]), idx, tx), RulesFor(env, b), |tx.vin|;
    FoundIff(idx, Source(disk, map[]), tx.vin, n);
    FitIff(a, tx.vin, n);
    PassIff(r, tx, a, n);
    SpendAllIff(Marks(a), tx.vin, p);
    PaidIsTotal(idx, disk, tx, n);
    assert tx.vin[..n] == tx.vin && WorthIn(idx, disk, tx.vin)[..n] == WorthIn(idx, disk, tx.vin);
    forall i | 0 <= i < n
      ensures InputPasses(r, tx, a, i) ==>
                Fits(a, tx.vin[i].prevout)
                && Lookup(idx, Source(disk, map[]), map[], BlockMode, tx.vin[i].prevout.hash).Some?
    {
      InputIsThere(env, b, idx, disk, tx, i);
    }
    assert PaidIn(a, tx.vin) == Total(WorthIn(idx, disk, tx.vin));
    if forall i :: 0 <= i < n ==> Checks(env, b, idx, disk, tx, i) {
      forall i | 0 <= i < n
        ensures InputPasses(r, tx, a, i) && SigPasses(r, tx, a, i) && CanSpend(Marks(a), tx.vin[i].prevout)
      {
        assert Checks(env, b, idx, disk, tx, i);
      }
      assert AllFound(idx, Source(disk, map[]), map[], BlockMode, tx.vin, n) && AllFit(a, tx.vin, n);
      assert InputsPass(r, tx, a, n) && SigsPass(r, tx, a, n);
    }
  }

  function TotalUpTo(s: seq<int>, i: nat): int
    requires i < |s|
  {
    Total(s[..i + 1])
  }

  lemma AmountsInRange(env: Env, b: BlockIndex, idx: Index, disk: Disk, tx: Tx)
    requires NoPool(idx)
    ensures (forall i :: 0 <= i < |tx.vin| ==> Checks(env, b, idx, disk, tx, i)) <==>
            && (forall i :: 0 <= i < |tx.vin| ==> GoodInput(env, b, idx, disk, tx, i))
            && Total(WorthIn(idx, disk, tx.vin)) <= 30_000_000_000_000_000
  {
    hide Checks, GoodInput, WorthIn, WorthOf;
    var s, n := WorthIn(idx, disk, tx.vin), |tx.vin|;
    assert s[..n] == s;
    forall i | 0 <= i < n
      ensures Checks(env, b, idx, disk, tx, i) <==>
              GoodInput(env, b, idx, disk, tx, i) && MoneyRange(TotalUpTo(s, i))
    {
      ChecksIff(env, b, idx, disk, tx, i);
    }
    if forall i :: 0 <= i < n ==> GoodInput(env, b, idx, disk, tx, i) {
      GoodAmounts(env, b, idx, disk, tx);
      forall i | 0 <= i < n ensures 0 <= TotalUpTo(s, i) <= Total(s) {
        PrefixAtMost(s, i + 1);
      }
      if n > 0 && Checks(env, b, idx, disk, tx, n - 1) {
        assert TotalUpTo(s, n - 1) == Total(s);
      }
    }
  }

  lemma ChecksIff(env: Env, b: BlockIndex, idx: Index, disk: Disk, tx: Tx, i: nat)
    requires i < |tx.vin| && NoPool(idx)
    ensures Checks(env, b, idx, disk, tx, i) <==>
            GoodInput(env, b, idx, disk, tx, i) && MoneyRange(TotalUpTo(WorthIn(idx, disk, tx.vin), i))
  {
    InputIff(env, b, idx, disk, tx, i);
  }

  /** Acceptance by ConnectBlock's checks, input by input and in totals. */
  lemma SpendingIff(env: Env, b: BlockIndex, idx: Index, disk: Disk, tx: Tx, p: DiskTxPos)
    requires !tx.IsCoinBase() && NoPool(idx) && !p.IsNull()
    ensures TxAccepted(RulesFor(env, b), Source(disk, map[]), idx, tx, p) <==> GoodSpending(env, b, idx, disk, tx)
  {
    hide TxAccepted, Checks, GoodInput, WorthIn;
    ChecksEach(env, b, idx, disk, tx, p);
    AmountsInRange(env, b, idx, disk, tx);
    ValueOutIsTotal(tx.vout);
  }

  lemma InputIsThere(env: Env, b: BlockIndex, idx: Index, disk: Disk, tx: Tx, i: nat)
    requires i < |tx.vin| && NoPool(idx)
    ensures var a := Prev(Source(disk, map[]), idx, tx);
            InputPasses(RulesFor(env, b), tx, a, i) ==>
              Fits(a, tx.vin[i].prevout)
              && Lookup(idx, Source(disk, map[]), map[], BlockMode, tx.vin[i].prevout.hash).Some?
  {
    hide Prev, PaidIn;
    PrevAt(idx, disk, tx, i);
  }
}
