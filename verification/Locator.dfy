/** Block locators: hashes of a branch at exponentially growing distances from its tip. */
module Locator {

  /** The branch of the sender: block hashes by height, genesis at 0. */
  type Branch = seq<int>

  // ----- Distances from the tip -----------------------------------------------------------------------

  /** Distance back and step size of the `k`-th entry. The step doubles from the twelfth on. */
  function Walk(k: nat): (nat, nat) {
    if k == 0 then (0, 1)
    else
      var (d, s) := Walk(k - 1);
      (d + s, if k > 10 then 2 * s else s)
  }

  function Distance(k: nat): nat {
    Walk(k).0
  }

  function Pow2(n: nat): (p: nat)
    ensures p >= 1
  {
    if n == 0 then 1 else 2 * Pow2(n - 1)
  }

  function Log2(n: nat): nat
    requires n >= 1
  {
    if n == 1 then 0 else 1 + Log2(n / 2)
  }

  lemma {:induction false} Log2Bounds(n: nat)
    requires n >= 1
    ensures Pow2(Log2(n)) <= n < 2 * Pow2(Log2(n))
  {
    if n > 1 {
      Log2Bounds(n / 2);
    }
  }

  lemma {:induction false} Pow2Mono(m: nat, n: nat)
    requires m <= n
    ensures Pow2(m) <= Pow2(n)
  {
    if m < n {
      Pow2Mono(m, n - 1);
    }
  }

  /** Eleven entries one apart, then distances 9 + 2, 9 + 4, 9 + 8 and so on. */
  lemma {:induction false} WalkIs(k: nat)
    ensures k <= 10 ==> Walk(k) == (k, 1)
    ensures k >= 11 ==> Walk(k) == (9 + Pow2(k - 10), Pow2(k - 10))
  {
    if k > 0 {
      WalkIs(k - 1);
    }
  }

  lemma {:induction false} DistanceGrows(j: nat, k: nat)
    requires j < k
    ensures Distance(j) < Distance(k)
  {
    WalkIs(k - 1);
    if j < k - 1 {
      DistanceGrows(j, k - 1);
    }
  }

  // ----- Building a locator ------------------------------------------------------------------------------

  /** How many entries of the walk lie on a branch of height `h`. */
  function EntryCount(h: nat): nat {
    if h < 11 then h + 1 else 11 + Log2(h - 9)
  }

  /** The walk stays on the branch for exactly that many entries. */
  lemma EntriesFit(h: nat, k: nat)
    ensures k < EntryCount(h) <==> Distance(k) <= h
  {
    WalkIs(k);
    if h >= 11 {
      Log2Bounds(h - 9);
      if k >= 11 {
        if k < EntryCount(h) {
          Pow2Mono(k - 10, Log2(h - 9));
        } else {
          Pow2Mono(Log2(h - 9) + 1, k - 10);
        }
      }
    }
  }

  /** The hashes at the walk's distances from the tip, and genesis once more. */
  function Entries(branch: Branch, n: nat): (s: seq<int>)
    requires branch != []
    ensures |s| == n
  {
    if n == 0 then []
    else
      var at := |branch| - 1 - Distance(n - 1);
      Entries(branch, n - 1) + [if 0 <= at then branch[at] else branch[0]]
  }

  function LocatorOf(branch: Branch): (vHave: seq<int>)
    requires branch != []
    ensures |vHave| == EntryCount(|branch| - 1) + 1 && vHave[|vHave| - 1] == branch[0]
  {
    Entries(branch, EntryCount(|branch| - 1)) + [branch[0]]
  }

  method StepBack(at: int, nStep: nat) returns (r: int)
    requires at >= 0
    ensures r == if at - nStep >= 0 then at - nStep else -1
  {
    r := at;
    for i := 0 to nStep
      invariant r == if at - i >= 0 then at - i else -1
    {
      if r != -1 {
        r := r - 1;
      }
    }
  }

  /** `pindex` is a height on the branch, or -1 for none. */
  method Set(branch: Branch) returns (vHave: seq<int>)
    requires branch != []
    ensures vHave == LocatorOf(branch)
  {
    vHave := [];
    var pindex, nStep := |branch| - 1, 1;
    while pindex != -1
      invariant -1 <= pindex < |branch| && vHave == Entries(branch, |vHave|)
      invariant nStep == Walk(|vHave|).1
      invariant pindex == if Distance(|vHave|) <= |branch| - 1 then |branch| - 1 - Distance(|vHave|) else -1
      invariant |vHave| > 0 ==> Distance(|vHave| - 1) <= |branch| - 1
      decreases pindex
    {
      ghost var k := |vHave|;
      vHave := vHave + [branch[pindex]];
      assert vHave[..k] + [branch[pindex]] == vHave;
      DistanceGrows(k, k + 1);
      pindex := StepBack(pindex, nStep);
      if |vHave| > 10 {
        nStep := nStep * 2;
      }
    }
    EntriesFit(|branch| - 1, |vHave|);
    EntriesFit(|branch| - 1, |vHave| - 1);
    vHave := vHave + [branch[0]];
  }

  lemma {:induction false} EntryAt(branch: Branch, n: nat, k: nat)
    requires branch != [] && k < n
    ensures Distance(k) <= |branch| - 1 ==> Entries(branch, n)[k] == branch[|branch| - 1 - Distance(k)]
  {
    if k < n - 1 {
      EntryAt(branch, n - 1, k);
    }
  }

  /** A locator ends in genesis and, from height 11 on, has 12 + log2(height - 9) entries. */
  lemma LocatorLength(branch: Branch)
    requires branch != []
    ensures var h, vHave := |branch| - 1, LocatorOf(branch);
            && vHave[|vHave| - 1] == branch[0]
            && |vHave| == (if h < 11 then h + 2 else 12 + Log2(h - 9))
            && (h >= 11 ==> |vHave| <= 12 + Log2(h))
  {
    var h := |branch| - 1;
    if h >= 11 {
      Log2Bounds(h - 9);
      Log2Bounds(h);
      if Log2(h) < Log2(h - 9) {
        Pow2Mono(Log2(h) + 1, Log2(h - 9));
      }
    }
  }

  // ----- Distance back -------------------------------------------------------------------------------------

  /** The first entry that the main chain contains, or the number of entries. */
  function FirstKnown(vHave: seq<int>, inMain: int -> bool, from: nat): (k: nat)
    requires from <= |vHave|
    ensures from <= k <= |vHave| && (k < |vHave| ==> inMain(vHave[k]))
    ensures forall j :: from <= j < k ==> !inMain(vHave[j])
    decreases |vHave| - from
  {
    if from == |vHave| || inMain(vHave[from]) then from else FirstKnown(vHave, inMain, from + 1)
  }

  method GetDistanceBack(vHave: seq<int>, inMain: int -> bool) returns (nDistance: int)
    ensures nDistance == Distance(FirstKnown(vHave, inMain, 0))
  {
    nDistance := 0;
    var nStep := 1;
    for k := 0 to |vHave|
      invariant (nDistance, nStep) == Walk(k)
      invariant FirstKnown(vHave, inMain, 0) == FirstKnown(vHave, inMain, k)
    {
      if inMain(vHave[k]) {
        return;
      }
      WalkIs(k);
      WalkIs(k + 1);
      nDistance := nDistance + nStep;
      if nDistance > 10 {
        nStep := nStep * 2;
      }
    }
  }

  lemma EntryHeight(branch: Branch, k: nat)
    requires branch != [] && k < EntryCount(|branch| - 1)
    ensures Distance(k) <= |branch| - 1 && LocatorOf(branch)[k] == branch[|branch| - 1 - Distance(k)]
  {
    hide Entries, Distance, EntryCount;
    EntriesFit(|branch| - 1, k);
    EntryAt(branch, EntryCount(|branch| - 1), k);
  }

  /** For a locator of a branch the distance is the height difference from the tip to the first entry
      in the main chain, whenever that is not the appended genesis. */
  lemma DistanceIsHeightDifference(branch: Branch, inMain: int -> bool)
    requires branch != [] && FirstKnown(LocatorOf(branch), inMain, 0) < EntryCount(|branch| - 1)
    ensures var h, back := |branch| - 1, Distance(FirstKnown(LocatorOf(branch), inMain, 0));
            back <= h && inMain(branch[h - back])
  {
    hide LocatorOf, Distance, EntryCount, FirstKnown;
    EntryHeight(branch, FirstKnown(LocatorOf(branch), inMain, 0));
  }

  /** When only the appended genesis is known, the distance overshoots the height of the tip. */
  lemma GenesisOvershoots(branch: Branch)
    requires branch != []
    ensures Distance(EntryCount(|branch| - 1)) > |branch| - 1
  {
    EntriesFit(|branch| - 1, EntryCount(|branch| - 1));
  }
}
