/** Choosing the blocks whose entropy bits make up the next stake modifier. */
module StakeModifier {
  import Digits
  import Ordered
  import opened Sequences
  import opened Sorting

  /** `proof` is the block's proof hash, `entropy` its entropy bit, `modifier` the stake modifier it
      carries and `generated` whether it generated that modifier itself. */
  datatype Block = Block(hash: int, time: int, stake: bool, entropy: bool, proof: int, modifier: int, generated: bool)

  /** The hash of a proof hash and the previous modifier. */
  type Hasher = (int, int) -> nat

  const MODIFIER_INTERVAL := 120
  const MODIFIER_INTERVAL_RATIO := 3

  // ----- Interval sections --------------------------------------------------------------------------

  function Section(n: nat): int
    requires n < 64
  {
    MODIFIER_INTERVAL * 63 / (63 + (63 - n) * (MODIFIER_INTERVAL_RATIO - 1))
  }

  /** Sections grow from a third of the interval to the whole. */
  lemma SectionBounds(m: nat, n: nat)
    requires m <= n < 64
    ensures 40 <= Section(m) <= Section(n) <= 120
  {
    var a, b := 63 + (63 - m) * 2, 63 + (63 - n) * 2;
    Digits.QuotientFalls(7560, b, a);
    Digits.QuotientFalls(7560, a, 189);
    Digits.QuotientFalls(7560, 63, b);
  }

  /** The n-th section is 7560 seconds divided by 189 - 2n, rounded down. */
  lemma SectionIs(n: nat)
    requires n < 64
    ensures Section(n) * (189 - 2 * n) <= 7560 < (Section(n) + 1) * (189 - 2 * n)
  {
    Digits.Parts(7560, 189 - 2 * n);
  }

  function SectionSum(n: nat): int
    requires n <= 64
  {
    if n == 0 then 0 else SectionSum(n - 1) + Section(n - 1)
  }

  /** The sections before the n-th. */
  function Sections(n: nat): (s: seq<int>)
    requires n <= 64
    ensures |s| == n && forall i :: 0 <= i < n ==> s[i] == Section(i)
  {
    seq(n, i requires 0 <= i < n => Section(i))
  }

  lemma {:induction false} SectionSumIsTotal(n: nat)
    requires n <= 64
    ensures SectionSum(n) == Total(Sections(n))
  {
    hide Section;
    if n > 0 {
      SectionSumIsTotal(n - 1);
      TotalSnoc(Sections(n));
      assert Sections(n)[..n - 1] == Sections(n - 1);
    }
  }

  method GetStakeModifierSelectionInterval() returns (total: int)
    ensures total == SectionSum(64)
  {
    total := 0;
    for n := 0 to 64
      invariant total == SectionSum(n)
    {
      total := total + Section(n);
    }
  }

  // ----- One round ---------------------------------------------------------------------------------------

  predicate InTimeOrder(cands: seq<Block>) {
    forall i, j :: 0 <= i < j < |cands| ==> cands[i].time <= cands[j].time
  }

  predicate DistinctHashes(cands: seq<Block>) {
    forall i, j :: 0 <= i < j < |cands| ==> cands[i].hash != cands[j].hash
  }

  /** Proof-of-stake blocks are favoured by a factor of 2^32. */
  function SelectionHash(hasher: Hasher, b: Block, modifier: int): nat {
    if b.stake then hasher(b.proof, modifier) / 0x1_0000_0000 else hasher(b.proof, modifier)
  }

  /** The hash of a proof-of-stake block loses its lowest 32 bits. */
  lemma StakeIsFavoured(hasher: Hasher, b: Block, modifier: int)
    ensures var h, s := hasher(b.proof, modifier), SelectionHash(hasher, b, modifier);
            if b.stake then 4294967296 * s <= h < 4294967296 * (s + 1) else s == h
  {
  }

  predicate Open(b: Block, taken: set<int>) {
    b.hash !in taken
  }

  predicate InTime(b: Block, taken: set<int>, stop: int) {
    Open(b, taken) && b.time <= stop
  }

  /** `k` is the smallest selection hash among the open candidates up to `stop`, the earliest of equal
      ones; or the earliest open candidate, when none is that early. */
  ghost predicate Selected(hasher: Hasher, cands: seq<Block>, taken: set<int>, stop: int, modifier: int, k: int) {
    && 0 <= k < |cands| && Open(cands[k], taken)
    && (if exists i :: 0 <= i < |cands| && InTime(cands[i], taken, stop)
        then
          && cands[k].time <= stop
          && (forall i :: 0 <= i < |cands| && InTime(cands[i], taken, stop) ==>
                SelectionHash(hasher, cands[k], modifier) <= SelectionHash(hasher, cands[i], modifier))
          && (forall i :: 0 <= i < k && InTime(cands[i], taken, stop) ==>
                SelectionHash(hasher, cands[k], modifier) < SelectionHash(hasher, cands[i], modifier))
        else forall i :: 0 <= i < k ==> !Open(cands[i], taken))
  }

  /** Fails only when every candidate is taken. */
  method SelectBlockFromCandidates(hasher: Hasher, cands: seq<Block>, taken: set<int>, stop: int, modifier: int)
    returns (k: int)
    requires InTimeOrder(cands)
    ensures k == -1 <==> forall i :: 0 <= i < |cands| ==> !Open(cands[i], taken)
    ensures k != -1 ==> Selected(hasher, cands, taken, stop, modifier, k)
  {
    k := -1;
    var hashBest := 0;
    for n := 0 to |cands|
      invariant -1 <= k < n
      invariant k == -1 ==> forall i :: 0 <= i < n ==> !Open(cands[i], taken)
      invariant k != -1 ==> Open(cands[k], taken) && hashBest == SelectionHash(hasher, cands[k], modifier)
      invariant k != -1 && cands[k].time > stop ==> forall i :: 0 <= i < n && i != k ==> !Open(cands[i], taken)
      invariant k != -1 && cands[k].time <= stop ==>
                  forall i :: 0 <= i < n && Open(cands[i], taken) ==> cands[i].time <= stop
      invariant k != -1 && cands[k].time <= stop ==>
                  forall i :: 0 <= i < n && Open(cands[i], taken) ==>
                    hashBest <= SelectionHash(hasher, cands[i], modifier)
      invariant k != -1 && cands[k].time <= stop ==>
                  forall i :: 0 <= i < k && Open(cands[i], taken) ==>
                    hashBest < SelectionHash(hasher, cands[i], modifier)
    {
      var b := cands[n];
      if k != -1 && b.time > stop {
        break;
      }
      if b.hash in taken {
        continue;
      }
      var hashSelection := SelectionHash(hasher, b, modifier);
      if k != -1 && hashSelection < hashBest {
        hashBest, k := hashSelection, n;
      } else if k == -1 {
        hashBest, k := hashSelection, n;
      }
    }
  }

  // ----- All rounds --------------------------------------------------------------------------------------

  const MAX_ROUNDS := 64

  function TakenBy(cands: seq<Block>, picks: seq<int>): set<int> {
    if picks == [] then {}
    else
      var k := picks[|picks| - 1];
      TakenBy(cands, picks[..|picks| - 1]) + if 0 <= k < |cands| then {cands[k].hash} else {}
  }

  function HashSet(cands: seq<Block>): set<int> {
    if cands == [] then {} else HashSet(cands[..|cands| - 1]) + {cands[|cands| - 1].hash}
  }

  lemma {:induction false} HashSetHas(cands: seq<Block>, h: int)
    ensures h in HashSet(cands) <==> exists i :: 0 <= i < |cands| && cands[i].hash == h
  {
    if cands != [] {
      var f, l := cands[..|cands| - 1], cands[|cands| - 1];
      HashSetHas(f, h);
      if exists i :: 0 <= i < |f| && f[i].hash == h {
        var i :| 0 <= i < |f| && f[i].hash == h;
        assert cands[i].hash == h;
      }
      if exists i :: 0 <= i < |cands| && cands[i].hash == h {
        var i :| 0 <= i < |cands| && cands[i].hash == h;
        assert i < |f| ==> f[i].hash == h;
      }
    }
  }

  lemma {:induction false} HashSetSize(cands: seq<Block>)
    requires DistinctHashes(cands)
    ensures |HashSet(cands)| == |cands|
  {
    if cands != [] {
      var f, l := cands[..|cands| - 1], cands[|cands| - 1];
      HashSetSize(f);
      HashSetHas(f, l.hash);
    }
  }

  lemma {:induction false} TakenSize(cands: seq<Block>, picks: seq<int>)
    ensures |TakenBy(cands, picks)| <= |picks|
  {
    if picks != [] {
      TakenSize(cands, picks[..|picks| - 1]);
    }
  }

  /** As long as fewer blocks are taken than there are candidates, one is open. */
  lemma SomeOpen(cands: seq<Block>, picks: seq<int>)
    requires DistinctHashes(cands) && |picks| < |cands|
    ensures exists i :: 0 <= i < |cands| && Open(cands[i], TakenBy(cands, picks))
  {
    hide HashSet, TakenBy, DistinctHashes;
    HashSetSize(cands);
    TakenSize(cands, picks);
    var taken := TakenBy(cands, picks);
    if forall i :: 0 <= i < |cands| ==> !Open(cands[i], taken) {
      forall h | h in HashSet(cands) ensures h in taken {
        HashSetHas(cands, h);
      }
      Ordered.SubsetSize(HashSet(cands), taken);
    }
  }

  /** Every round selects by its own stop time among the candidates not selected before. */
  ghost predicate Picked(hasher: Hasher, cands: seq<Block>, start: int, modifier: int, picks: seq<int>) {
    |picks| <= MAX_ROUNDS &&
    forall r :: 0 <= r < |picks| ==>
      Selected(hasher, cands, TakenBy(cands, picks[..r]), start + SectionSum(r + 1), modifier, picks[r])
  }

  /** The entropy bits of the selected blocks, first round lowest. */
  function Bits(cands: seq<Block>, picks: seq<int>): int {
    if picks == [] then 0
    else
      var n, k := |picks| - 1, picks[|picks| - 1];
      Bits(cands, picks[..n]) + if 0 <= k < |cands| && cands[k].entropy then Digits.Power(2, n) else 0
  }

  lemma {:induction false} BitsBound(cands: seq<Block>, picks: seq<int>)
    ensures 0 <= Bits(cands, picks) < Digits.Power(2, |picks|)
  {
    if picks != [] {
      BitsBound(cands, picks[..|picks| - 1]);
    }
  }

  /** Bit `r` of the modifier is the entropy bit of the block that round `r` selected. */
  lemma {:induction false} BitIsEntropy(cands: seq<Block>, picks: seq<int>, r: nat)
    requires r < |picks| && 0 <= picks[r] < |cands|
    ensures Digits.Power(2, r) >= 1
    ensures Bits(cands, picks) / Digits.Power(2, r) % 2 == if cands[picks[r]].entropy then 1 else 0
    decreases |picks|
  {
    var n := |picks| - 1;
    var low := Bits(cands, picks[..n]);
    BitsBound(cands, picks[..n]);
    Digits.PowerPositive(2, r);
    if r < n {
      BitIsEntropy(cands, picks[..n], r);
      var p, q := Digits.Power(2, r), Digits.Power(2, n - r - 1);
      Digits.PowerPositive(2, n - r - 1);
      Digits.PowerAdd(2, r, n - r);
      assert Digits.Power(2, n) == p * (2 * q);
      HigherBits(low, p, q);
    } else {
      TopBit(low, Digits.Power(2, n));
    }
  }

  lemma HigherBits(low: nat, p: int, q: nat)
    requires p >= 1
    ensures (low + p * (2 * q)) / p % 2 == low / p % 2
  {
    Digits.QuotientOfSum(low, p, 2 * q);
  }

  lemma TopBit(low: nat, p: int)
    requires low < p
    ensures low / p == 0 && (low + p) / p == 1
  {
    Digits.QuotientOfSum(low, p, 1);
  }

  lemma PickedMore(hasher: Hasher, cands: seq<Block>, start: int, modifier: int, picks: seq<int>, k: int)
    requires Picked(hasher, cands, start, modifier, picks) && |picks| < MAX_ROUNDS
    requires Selected(hasher, cands, TakenBy(cands, picks), start + SectionSum(|picks| + 1), modifier, k)
    ensures Picked(hasher, cands, start, modifier, picks + [k])
  {
    hide Selected, TakenBy, SectionSum;
    var all := picks + [k];
    assert all[..|picks|] == picks;
    forall r | 0 <= r < |picks| ensures all[..r] == picks[..r] && all[r] == picks[r] {
    }
  }

  lemma TakenMore(cands: seq<Block>, picks: seq<int>, k: int)
    requires 0 <= k < |cands|
    ensures TakenBy(cands, picks + [k]) == TakenBy(cands, picks) + {cands[k].hash}
    ensures Bits(cands, picks + [k]) == Bits(cands, picks) + if cands[k].entropy then Digits.Power(2, |picks|) else 0
  {
    hide Digits.Power;
    assert (picks + [k])[..|picks|] == picks;
  }

  lemma NothingPicked(hasher: Hasher, cands: seq<Block>, start: int, modifier: int)
    ensures Picked(hasher, cands, start, modifier, []) && TakenBy(cands, []) == {} && Bits(cands, []) == 0
            && SectionSum(0) == 0
  {
  }

  lemma SectionMore(n: nat)
    requires n < 64
    ensures SectionSum(n + 1) == SectionSum(n) + Section(n)
  {
  }

  /** No round fails for lack of a candidate. */
  method SelectRounds(hasher: Hasher, cands: seq<Block>, start: int, modifier: int) returns (bits: int, picks: seq<int>)
    requires InTimeOrder(cands) && DistinctHashes(cands)
    ensures Picked(hasher, cands, start, modifier, picks) && bits == Bits(cands, picks)
    ensures |picks| == if |cands| < 64 then |cands| else 64
  {
    hide Selected, TakenBy, Bits, Picked, Section, SectionSum, DistinctHashes, InTimeOrder;
    NothingPicked(hasher, cands, start, modifier);
    bits, picks := 0, [];
    var stop, taken := start, {};
    var rounds := if |cands| < MAX_ROUNDS then |cands| else MAX_ROUNDS;
    for round := 0 to rounds
      invariant |picks| == round && Picked(hasher, cands, start, modifier, picks)
      invariant taken == TakenBy(cands, picks) && bits == Bits(cands, picks) && stop == start + SectionSum(round)
    {
      stop := stop + Section(round);
      SectionMore(round);
      SomeOpen(cands, picks);
      var k := SelectBlockFromCandidates(hasher, cands, taken, stop, modifier);
      SelectedOpen(hasher, cands, taken, stop, modifier, k);
      PickedMore(hasher, cands, start, modifier, picks, k);
      TakenMore(cands, picks, k);
      if cands[k].entropy {
        bits := bits + Digits.Power(2, round);
      }
      taken := taken + {cands[k].hash};
      picks := picks + [k];
    }
  }

  lemma SelectedOpen(hasher: Hasher, cands: seq<Block>, taken: set<int>, stop: int, modifier: int, k: int)
    requires Selected(hasher, cands, taken, stop, modifier, k)
    ensures 0 <= k < |cands| && cands[k].hash !in taken
  {
  }

  lemma {:induction false} TakenHas(cands: seq<Block>, picks: seq<int>, r: nat)
    requires r < |picks| && 0 <= picks[r] < |cands|
    ensures cands[picks[r]].hash in TakenBy(cands, picks)
    decreases |picks|
  {
    if r < |picks| - 1 {
      TakenHas(cands, picks[..|picks| - 1], r);
    }
  }

  /** Taken are exactly the blocks of the rounds before. */
  lemma {:induction false} TakenIff(cands: seq<Block>, picks: seq<int>, h: int)
    ensures h in TakenBy(cands, picks) <==>
            exists r :: 0 <= r < |picks| && 0 <= picks[r] < |cands| && cands[picks[r]].hash == h
  {
    if r :| 0 <= r < |picks| && 0 <= picks[r] < |cands| && cands[picks[r]].hash == h {
      TakenHas(cands, picks, r);
    }
    if h in TakenBy(cands, picks) {
      var f := picks[..|picks| - 1];
      TakenIff(cands, f, h);
      if r :| 0 <= r < |f| && 0 <= f[r] < |cands| && cands[f[r]].hash == h {
        assert picks[r] == f[r];
      } else {
        assert cands[picks[|f|]].hash == h;
      }
    }
  }

  /** No block is selected twice. */
  lemma PicksDiffer(hasher: Hasher, cands: seq<Block>, start: int, modifier: int, picks: seq<int>, q: nat, r: nat)
    requires Picked(hasher, cands, start, modifier, picks) && q < r < |picks|
    ensures picks[q] != picks[r]
  {
    SelectedOpen(hasher, cands, TakenBy(cands, picks[..q]), start + SectionSum(q + 1), modifier, picks[q]);
    SelectedOpen(hasher, cands, TakenBy(cands, picks[..r]), start + SectionSum(r + 1), modifier, picks[r]);
    TakenHas(cands, picks[..r], q);
  }

  // ----- Candidates ------------------------------------------------------------------------------------------

  /** The order of pairs of time and hash. */
  predicate Before(a: Block, b: Block) {
    a.time < b.time || (a.time == b.time && a.hash < b.hash)
  }

  lemma BagHashes(s: seq<Block>, t: seq<Block>)
    requires multiset(s) == multiset(t)
    ensures HashSet(s) == HashSet(t)
  {
    forall h ensures h in HashSet(s) <==> h in HashSet(t) {
      HashSetHas(s, h);
      HashSetHas(t, h);
      if h in HashSet(s) {
        SameBag(s, t, h);
      }
      if h in HashSet(t) {
        SameBag(t, s, h);
      }
    }
  }

  lemma SameBag(s: seq<Block>, t: seq<Block>, h: int)
    requires multiset(s) == multiset(t) && exists i :: 0 <= i < |s| && s[i].hash == h
    ensures exists i :: 0 <= i < |t| && t[i].hash == h
  {
    var i :| 0 <= i < |s| && s[i].hash == h;
    assert s[i] in multiset(t);
    var j :| 0 <= j < |t| && t[j] == s[i];
  }

  /** Distinct hashes are as many as the blocks. */
  lemma {:induction false} DistinctIffSize(s: seq<Block>)
    ensures DistinctHashes(s) <==> |HashSet(s)| == |s|
    ensures |HashSet(s)| <= |s|
  {
    hide DistinctHashes;
    if s == [] {
      EmptyDistinct();
    } else {
      var f, l := s[..|s| - 1], s[|s| - 1];
      DistinctIffSize(f);
      HashSetHas(f, l.hash);
      assert s == f + [l];
      if l.hash in HashSet(f) {
        var i :| 0 <= i < |f| && f[i].hash == l.hash;
        Repeats(f, l, i);
        assert HashSet(s) == HashSet(f);
      } else {
        SplitDistinct(f, l);
      }
    }
  }

  lemma EmptyDistinct()
    ensures DistinctHashes([])
  {
  }

  lemma Repeats(f: seq<Block>, l: Block, i: nat)
    requires i < |f| && f[i].hash == l.hash
    ensures !DistinctHashes(f + [l])
  {
    var s := f + [l];
    assert s[i].hash == s[|f|].hash;
  }

  lemma SplitDistinct(f: seq<Block>, l: Block)
    requires l.hash !in HashSet(f)
    ensures DistinctHashes(f + [l]) <==> DistinctHashes(f)
  {
    var s := f + [l];
    forall i | 0 <= i < |f| ensures s[i] == f[i] && f[i].hash != l.hash {
      HashSetHas(f, f[i].hash);
    }
    if DistinctHashes(s) {
      forall i, j | 0 <= i < j < |f| ensures f[i].hash != f[j].hash {
        assert s[i].hash != s[j].hash;
      }
    }
  }

  /** Sorting gives a permutation in ascending order of time and, at equal times, of hash. */
  lemma SortedSorts(s: seq<Block>)
    ensures InOrder(Before, Sorted(Before, s)) && multiset(Sorted(Before, s)) == multiset(s)
    ensures var r := Sorted(Before, s); forall i, j :: 0 <= i < j < |r| ==>
              r[i].time < r[j].time || (r[i].time == r[j].time && r[i].hash <= r[j].hash)
    ensures |Sorted(Before, s)| == |s| && HashSet(Sorted(Before, s)) == HashSet(s)
  {
    Sorting.SortedSorts(Before, s);
    BagHashes(Sorted(Before, s), s);
    assert |multiset(Sorted(Before, s))| == |multiset(s)|;
  }

  /** How far back from the tip the candidates go: up to the first block before `start`. */
  function FirstCandidate(chain: seq<Block>, start: int): (at: nat)
    ensures at <= |chain| && (forall i :: at <= i < |chain| ==> chain[i].time >= start)
    ensures at > 0 ==> chain[at - 1].time < start
  {
    if chain == [] then 0
    else
      var n := |chain| - 1;
      if chain[n].time < start then |chain|
      else
        assert forall i :: 0 <= i < n ==> chain[..n][i] == chain[i];
        FirstCandidate(chain[..n], start)
  }

  method Candidates(chain: seq<Block>, start: int) returns (cands: seq<Block>)
    ensures cands == Sorted(Before, chain[FirstCandidate(chain, start)..])
  {
    cands := [];
    var at := |chain|;
    assert chain[..at] == chain;
    while at > 0 && chain[at - 1].time >= start
      invariant 0 <= at <= |chain| && cands == chain[at..]
      invariant FirstCandidate(chain, start) == FirstCandidate(chain[..at], start)
    {
      at := at - 1;
      assert chain[..at + 1][..at] == chain[..at];
      cands := [chain[at]] + cands;
    }
    assert FirstCandidate(chain[..at], start) == at;
    cands := Sorted(Before, cands);
  }

  // ----- The modifier ------------------------------------------------------------------------------------------

  /** The last block that generated a modifier, or genesis. */
  function LastGenerated(chain: seq<Block>): (at: nat)
    requires chain != []
    ensures at < |chain| && (at > 0 ==> chain[at].generated) && forall i :: at < i < |chain| ==> !chain[i].generated
  {
    var n := |chain| - 1;
    if n == 0 || chain[n].generated then n
    else
      assert forall i :: 0 <= i < n ==> chain[..n][i] == chain[i];
      LastGenerated(chain[..n])
  }

  method GetLastStakeModifier(chain: seq<Block>) returns (ok: bool, modifier: int, time: int)
    requires chain != []
    ensures ok <==> chain[LastGenerated(chain)].generated
    ensures ok ==> modifier == chain[LastGenerated(chain)].modifier && time == chain[LastGenerated(chain)].time
  {
    var at := |chain| - 1;
    assert chain[..at + 1] == chain;
    while at > 0 && !chain[at].generated
      invariant 0 <= at < |chain| && LastGenerated(chain) == LastGenerated(chain[..at + 1])
    {
      assert chain[..at + 1][..at] == chain[..at];
      at := at - 1;
    }
    return chain[at].generated, chain[at].modifier, chain[at].time;
  }

  function SelectionStart(time: int): int {
    time / MODIFIER_INTERVAL * MODIFIER_INTERVAL - SectionSum(64)
  }

  /** The selection goes back as far from the last multiple of two minutes as all sections together are
      long. */
  lemma StartIs(time: int)
    ensures exists q :: 120 * q <= time < 120 * (q + 1) && SelectionStart(time) == 120 * q - Total(Sections(64))
  {
    hide SectionSum, Sections;
    SectionSumIsTotal(64);
    var q := time / 120;
    assert 120 * q <= time < 120 * (q + 1);
  }

  /** Computing the next modifier fails only when no block of the chain, genesis included, generated
      one. Within the interval of the last it stays; otherwise it is made of the entropy bits of up to
      64 different blocks, each the choice of its round. */
  method ComputeNextStakeModifier(hasher: Hasher, chain: seq<Block>)
    returns (ok: bool, modifier: int, generated: bool, cands: seq<Block>, picks: seq<int>)
    requires DistinctHashes(chain) && forall i :: 0 <= i < |chain| ==> chain[i].time >= 0
    ensures chain == [] ==> ok && modifier == 0 && generated
    ensures chain != [] ==> (ok <==> chain[LastGenerated(chain)].generated)
    ensures chain != [] && ok ==>
              (generated <==>
               chain[LastGenerated(chain)].time / 120 < chain[|chain| - 1].time / 120)
    ensures chain != [] && ok && !generated ==> modifier == chain[LastGenerated(chain)].modifier
    ensures chain != [] && ok && generated ==>
              var start := SelectionStart(chain[|chain| - 1].time);
              && cands == Sorted(Before, chain[FirstCandidate(chain, start)..])
              && Picked(hasher, cands, start, chain[LastGenerated(chain)].modifier, picks)
              && |picks| == (if |cands| < 64 then |cands| else 64)
              && modifier == Bits(cands, picks)
  {
    hide Picked, Bits, Sorted, FirstCandidate, SectionSum, LastGenerated, DistinctHashes, InTimeOrder;
    modifier, generated, cands, picks := 0, false, [], [];
    if chain == [] {
      return true, 0, true, [], [];
    }
    var nModifierTime;
    ok, modifier, nModifierTime := GetLastStakeModifier(chain);
    if !ok {
      return;
    }
    var tip := chain[|chain| - 1].time;
    if nModifierTime / MODIFIER_INTERVAL >= tip / MODIFIER_INTERVAL {
      return;
    }
    var nSelectionInterval := GetStakeModifierSelectionInterval();
    var start := tip / MODIFIER_INTERVAL * MODIFIER_INTERVAL - nSelectionInterval;
    cands := Candidates(chain, start);
    SuffixSorted(chain, FirstCandidate(chain, start));
    modifier, picks := SelectRounds(hasher, cands, start, modifier);
    generated := true;
  }

  lemma SuffixSorted(chain: seq<Block>, k: nat)
    requires DistinctHashes(chain) && k <= |chain|
    ensures InTimeOrder(Sorted(Before, chain[k..])) && DistinctHashes(Sorted(Before, chain[k..]))
  {
    hide Sorted, HashSet;
    SortedSorts(chain[k..]);
    DistinctIffSize(chain[k..]);
    DistinctIffSize(Sorted(Before, chain[k..]));
  }
}
