/** No transaction id repeats on a branch that connects: what the checks made before a block is stored
    are good for. */
module Freshness {
  import opened Ledger
  import opened Supply
  import opened Blocks
  import Compact
  import Digits

  // ----- The height in front of a coinbase -------------------------------------------------------

  /** How a height is pushed onto a script: one opcode up to 16, else its bytes behind their number. */
  function HeightScript(h: nat): Script {
    if 1 <= h <= 16 then [0x50 + h] else [|Compact.GetVch(h)|] + Compact.GetVch(h)
  }

  /** AcceptBlock's rule on coinbases. Every 32-bit height has fewer bytes than the push opcodes leave
      room for. */
  predicate StartsWithHeight(script: Script, h: nat) {
    |Compact.GetVch(h)| < 0x4C && HeightScript(h) <= script
  }

  /** Up to 16 a height is one opcode. Behind its number of bytes a larger one is written least byte first,
      with as many bytes as keep the top bit of the last one free. */
  lemma HeightScriptIs(h: nat)
    ensures 1 <= h <= 16 ==> HeightScript(h) == [80 + h]
    ensures h == 0 || h > 16 ==>
              var s := HeightScript(h);
              && s != [] && s[0] == |s| - 1
              && var b := Compact.Reversed(s[1..]);
                 && Digits.Valid(256, b) && Digits.Value(256, b) == h
                 && (b != [] ==> b[0] < 128 && (b[0] != 0 || (|b| > 1 && b[1] >= 128)))
  {
    hide Compact.GetVch, Compact.ToMpi, Compact.Reversed, Digits.Valid, Digits.Value;
    if h == 0 || h > 16 {
      Compact.MagnitudeOf(h);
      assert HeightScript(h)[1..] == Compact.GetVch(h);
    }
  }

  /** No script starts with two heights. */
  lemma OneHeight(script: Script, h: nat, k: nat)
    requires StartsWithHeight(script, h) && StartsWithHeight(script, k)
    ensures h == k
  {
    hide Compact.GetVch;
    var v, w := Compact.GetVch(h), Compact.GetVch(k);
    assert script[0] == HeightScript(h)[0] == HeightScript(k)[0];
    if !(1 <= h <= 16) && !(1 <= k <= 16) {
      assert script[1..1 + |v|] == v && script[1..1 + |w|] == w;
      Compact.VchRoundTrip(h);
      Compact.VchRoundTrip(k);
    }
  }

  // ----- Branches of checked blocks ----------------------------------------------------------------

  /** Every block of the branch passed CheckBlock and AcceptBlock's coinbase rule, and its ids stand for
      the transactions that `name` says. */
  ghost predicate Proper(name: Txid -> Tx, b: BlockIndex) {
    b.Child? ==>
      && Proper(name, b.pprev)
      && CheckBlock(b.block.vtx) && Named(name, b.block.vtx)
      && StartsWithHeight(b.block.vtx[0].vin[0].scriptSig, Height(b))
  }

  function ChainTxs(b: BlockIndex): seq<Tx> {
    if b.Genesis? then [] else ChainTxs(b.pprev) + b.block.vtx
  }

  function ChainPos(b: BlockIndex): (pos: seq<DiskTxPos>)
    ensures |pos| == |ChainTxs(b)|
  {
    if b.Genesis? then [] else ChainPos(b.pprev) + Pos(b.block)
  }

  lemma {:induction false} ReplayConnectsAll(b: BlockIndex)
    ensures Replay(b) == ConnectTxs(map[], ChainTxs(b), ChainPos(b))
  {
    if b.Child? {
      ReplayConnectsAll(b.pprev);
      ConnectTxsAppend(map[], ChainTxs(b.pprev), ChainPos(b.pprev), b.block.vtx, Pos(b.block));
    }
  }

  lemma {:induction false} ChainPosProper(disk: Disk, b: BlockIndex)
    requires ChainOnDisk(disk, b)
    ensures forall i :: 0 <= i < |ChainPos(b)| ==> !ChainPos(b)[i].IsNull()
  {
    if b.Child? {
      ChainPosProper(disk, b.pprev);
    }
  }

  lemma {:induction false} ChainNamed(name: Txid -> Tx, b: BlockIndex)
    requires Proper(name, b)
    ensures Named(name, ChainTxs(b)) && HaveInputs(ChainTxs(b))
  {
    hide CheckBlock, StartsWithHeight;
    if b.Child? {
      ChainNamed(name, b.pprev);
      BlockHasInputs(b.block.vtx);
    }
  }

  lemma BlockHasInputs(txs: seq<Tx>)
    requires CheckBlock(txs)
    ensures HaveInputs(txs)
  {
    forall i | 0 <= i < |txs| ensures txs[i].vin != [] {
      assert CheckTransaction(txs[i]);
    }
  }

  /** Every coinbase of the branch starts with the height of one of its blocks. */
  lemma {:induction false} CoinbaseHeight(name: Txid -> Tx, b: BlockIndex, i: nat) returns (h: nat)
    requires Proper(name, b) && i < |ChainTxs(b)| && ChainTxs(b)[i].IsCoinBase()
    ensures h <= Height(b) && StartsWithHeight(ChainTxs(b)[i].vin[0].scriptSig, h)
  {
    hide StartsWithHeight, CheckTransaction, DistinctIds, Named;
    var n := |ChainTxs(b.pprev)|;
    if i < n {
      h := CoinbaseHeight(name, b.pprev, i);
    } else {
      assert ChainTxs(b)[i] == b.block.vtx[i - n];
      h := Height(b);
    }
  }

  lemma {:induction false} ChainCoinbasesDiffer(name: Txid -> Tx, b: BlockIndex)
    requires Proper(name, b)
    ensures CoinbasesDiffer(ChainTxs(b))
  {
    if b.Child? {
      ChainCoinbasesDiffer(name, b.pprev);
      var txs, n := ChainTxs(b), |ChainTxs(b.pprev)|;
      ChainNamed(name, b);
      forall i, j | 0 <= i < j < |txs| && txs[i].IsCoinBase() && txs[j].IsCoinBase() ensures txs[i].id != txs[j].id {
        if j < n {
          assert txs[i] == ChainTxs(b.pprev)[i] && txs[j] == ChainTxs(b.pprev)[j];
        } else {
          LastCoinbaseDiffers(name, b, i, j);
        }
      }
    }
  }

  /** The coinbase of the last block differs from all before it by its height. */
  lemma LastCoinbaseDiffers(name: Txid -> Tx, b: BlockIndex, i: nat, j: nat)
    requires b.Child? && Proper(name, b) && Named(name, ChainTxs(b))
    requires i < j < |ChainTxs(b)| && j >= |ChainTxs(b.pprev)|
    requires ChainTxs(b)[i].IsCoinBase() && ChainTxs(b)[j].IsCoinBase()
    ensures ChainTxs(b)[i].id != ChainTxs(b)[j].id
  {
    var txs, n := ChainTxs(b), |ChainTxs(b.pprev)|;
    assert txs[j] == b.block.vtx[j - n];
    assert j == n;
    assert txs[i] == ChainTxs(b.pprev)[i];
    var h := CoinbaseHeight(name, b.pprev, i);
    if txs[i].id == txs[j].id {
      OneHeight(txs[j].vin[0].scriptSig, h, Height(b));
    }
  }

  /** Freshness is not an assumption: on a stored branch of checked blocks that connects, no transaction
      id occurs twice. */
  lemma ProperIsFresh(name: Txid -> Tx, disk: Disk, b: BlockIndex)
    requires Proper(name, b) && ChainOnDisk(disk, b) && Replay(b).Some?
    ensures FreshChain(b)
  {
    hide Proper;
    ReplayConnectsAll(b);
    ChainPosProper(disk, b);
    ChainNamed(name, b);
    ChainCoinbasesDiffer(name, b);
    NoIdRepeats(name, ChainTxs(b), ChainPos(b));
    DistinctIsFresh(b);
  }

  lemma {:induction false} DistinctIsFresh(b: BlockIndex)
    requires DistinctIds(ChainTxs(b))
    ensures FreshChain(b) && ChainIds(b) == Ids(ChainTxs(b))
  {
    if b.Child? {
      var a, t := ChainTxs(b.pprev), b.block.vtx;
      SplitDistinct(a, t);
      DistinctIsFresh(b.pprev);
    }
  }

  lemma SplitDistinct(a: seq<Tx>, t: seq<Tx>)
    requires DistinctIds(a + t)
    ensures DistinctIds(a) && DistinctIds(t) && Ids(t) !! Ids(a) && Ids(a + t) == Ids(a) + Ids(t)
  {
    var s := a + t;
    forall i | 0 <= i < |a| ensures s[i] == a[i] {
    }
    forall i | 0 <= i < |t| ensures s[|a| + i] == t[i] {
    }
    forall h | h in Ids(a) + Ids(t) ensures h in Ids(s) {
      if h in Ids(a) {
        var i :| 0 <= i < |a| && a[i].id == h;
        assert s[i].id == h;
      } else {
        var i :| 0 <= i < |t| && t[i].id == h;
        assert s[|a| + i].id == h;
      }
    }
    forall h | h in Ids(a) ensures h !in Ids(t) {
      var i :| 0 <= i < |a| && a[i].id == h;
      forall j | 0 <= j < |t| ensures t[j].id != h {
        assert s[i].id != s[|a| + j].id;
      }
    }
  }
}
