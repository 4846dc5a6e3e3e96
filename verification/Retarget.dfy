/** The VRX difficulty retarget: five recent block spacings, the balance of block types and the last
    spacing of the wanted type give a factor by which the old target is divided. */
module Retarget {
  import opened Compact
  import opened Digits

  /** A chain is the sequence of its block headers, genesis first; the last one is the tip. */
  datatype Header = Header(time: int, stake: bool, bits: int)

  predicate Sane(chain: seq<Header>) {
    chain != [] && forall i :: 0 <= i < |chain| ==>
      0 <= chain[i].time < 0x1_0000_0000 && 0 <= chain[i].bits < 0x1_0000_0000
  }

  const BLOCK_SPACING := 180
  const BLOCK_SPACING_MAX := 270
  const SCAN_HEIGHT := 6
  const FIRST_RETARGET := SCAN_HEIGHT + 99

  // ----- Spacings ------------------------------------------------------------------------------------

  /** The factor of one spacing: above one for fast blocks, below one for slow ones. */
  function Factor(rate: int): real {
    if rate >= BLOCK_SPACING then
      if rate > BLOCK_SPACING_MAX + 90 then 0.5 else if rate > BLOCK_SPACING_MAX then 0.75 else 1.0
    else
      if rate < BLOCK_SPACING - 90 then 2.0 else if rate < BLOCK_SPACING - 60 then 1.5 else 1.25
  }

  /** The time between the `k`-th last block and the one before it. */
  function Spacing(chain: seq<Header>, k: nat): int
    requires 1 <= k < |chain|
  {
    chain[|chain| - k].time - chain[|chain| - k - 1].time
  }

  function FactorSum(chain: seq<Header>, k: nat): real
    requires k < |chain|
  {
    if k == 0 then 0.0 else FactorSum(chain, k - 1) + Factor(Spacing(chain, k))
  }

  /** Proof-of-stake blocks among the `k` before the tip. */
  function StakesBehind(chain: seq<Header>, k: nat): nat
    requires k < |chain|
  {
    if k == 0 then 0 else StakesBehind(chain, k - 1) + if chain[|chain| - 1 - k].stake then 1 else 0
  }

  method BaseEngine(chain: seq<Header>) returns (average: real, prevPoW: int, prevPoS: int)
    requires |chain| >= SCAN_HEIGHT
    ensures average == FactorSum(chain, SCAN_HEIGHT - 1) / 5.0
    ensures prevPoS == StakesBehind(chain, SCAN_HEIGHT - 1) && prevPoW == SCAN_HEIGHT - 1 - prevPoS
  {
    var factors := [0.0, 0.0, 0.0, 0.0, 0.0];
    var scanblocks, at := 1, |chain| - 1;
    var scantime1, scantime2 := 0, chain[at].time;
    prevPoW, prevPoS := 0, 0;
    while scanblocks < SCAN_HEIGHT
      invariant 1 <= scanblocks <= SCAN_HEIGHT && at == |chain| - scanblocks && scantime2 == chain[at].time
      invariant |factors| == 5 && forall j :: 1 <= j < scanblocks ==> factors[j - 1] == Factor(Spacing(chain, j))
      invariant prevPoS == StakesBehind(chain, scanblocks - 1) && prevPoW == scanblocks - 1 - prevPoS
    {
      scantime1 := scantime2;
      at := at - 1;
      scantime2 := chain[at].time;
      var rate := scantime1 - scantime2;
      factors := factors[scanblocks - 1 := Factor(rate)];
      if chain[at].stake {
        prevPoS := prevPoS + 1;
      } else {
        prevPoW := prevPoW + 1;
      }
      scanblocks := scanblocks + 1;
    }
    SumOfFive(chain);
    average := (factors[0] + factors[1] + factors[2] + factors[3] + factors[4]) / 5.0;
  }

  lemma SumOfFive(chain: seq<Header>)
    requires |chain| >= SCAN_HEIGHT
    ensures FactorSum(chain, 5) == Factor(Spacing(chain, 1)) + Factor(Spacing(chain, 2)) + Factor(Spacing(chain, 3))
                                   + Factor(Spacing(chain, 4)) + Factor(Spacing(chain, 5))
  {
    assert FactorSum(chain, 3) == Factor(Spacing(chain, 1)) + Factor(Spacing(chain, 2)) + Factor(Spacing(chain, 3)) by {
      assert FactorSum(chain, 1) == Factor(Spacing(chain, 1));
    }
  }

  // ----- The curve -----------------------------------------------------------------------------------

  /** The last block of the wanted type, or genesis when there is none. */
  function LastOfType(chain: seq<Header>, stake: bool, at: nat): (i: nat)
    requires at < |chain|
    ensures i <= at && (i == 0 || chain[i].stake == stake)
    ensures forall j :: i < j <= at ==> chain[j].stake != stake
  {
    if at == 0 || chain[at].stake == stake then at else LastOfType(chain, stake, at - 1)
  }

  method GetLastBlockIndex(chain: seq<Header>, stake: bool) returns (at: nat)
    requires chain != []
    ensures at == LastOfType(chain, stake, |chain| - 1)
  {
    at := |chain| - 1;
    while at > 0 && chain[at].stake != stake
      invariant at < |chain| && LastOfType(chain, stake, |chain| - 1) == LastOfType(chain, stake, at)
    {
      at := at - 1;
    }
  }

  function Skewed(average: real, pow: int, pos: int, stake: bool): real {
    if (pow < pos && !stake && pos - pow > 3) || (pow > pos && stake && pow - pos > 3) then average / 3.0 else average
  }

  function AtLeastHalf(average: real): real {
    if average < 0.5 then 0.5 else average
  }

  /** The time since the last block of the type is an unsigned 64-bit difference. */
  function Wrapped(time: int): int {
    time % 0x1_0000_0000_0000_0000
  }

  /** The time between a block and the one before it. */
  function Gap(chain: seq<Header>, i: nat): int
    requires 1 <= i < |chain|
  {
    chain[i].time - chain[i - 1].time
  }

  /** One halving for each full hour, up to four. */
  function Slowed(average: real, since: int): real {
    if since > 14400 then average / 16.0
    else if since > 10800 then average / 8.0
    else if since > 7200 then average / 4.0
    else if since > 3600 then average / 2.0
    else average
  }

  /** The average factor, skewed against the type that came up too often. */
  function Average(chain: seq<Header>, stake: bool): real
    requires |chain| >= SCAN_HEIGHT
  {
    var pos := StakesBehind(chain, SCAN_HEIGHT - 1);
    AtLeastHalf(Skewed(FactorSum(chain, SCAN_HEIGHT - 1) / 5.0, SCAN_HEIGHT - 1 - pos, pos, stake))
  }

  function Curve(chain: seq<Header>, stake: bool, velocity: nat): real
    requires |chain| >= SCAN_HEIGHT && 1 <= velocity < |chain|
  {
    Slowed(Average(chain, stake), Wrapped(Gap(chain, velocity)))
  }

  method ThreadCurve(chain: seq<Header>, stake: bool, velocity: nat) returns (average: real)
    requires |chain| >= SCAN_HEIGHT && 1 <= velocity < |chain|
    ensures average == Curve(chain, stake, velocity)
  {
    var prevPoW, prevPoS;
    average, prevPoW, prevPoS := BaseEngine(chain);
    if prevPoW < prevPoS && !stake {
      if prevPoS - prevPoW > 3 {
        average := average / 3.0;
      }
    } else if prevPoW > prevPoS && stake {
      if prevPoW - prevPoS > 3 {
        average := average / 3.0;
      }
    }
    if average < 0.5 {
      average := 0.5;
    }
    var since := Wrapped(chain[velocity].time - chain[velocity - 1].time);
    if since > 1 * 60 * 60 {
      average := average / 2.0;
    }
    if since > 2 * 60 * 60 {
      average := average / 2.0;
    }
    if since > 3 * 60 * 60 {
      average := average / 2.0;
    }
    if since > 4 * 60 * 60 {
      average := average / 2.0;
    }
  }

  lemma {:induction false} FactorSumBounds(chain: seq<Header>, k: nat)
    requires k < |chain|
    ensures 0.5 * k as real <= FactorSum(chain, k) <= 2.0 * k as real
  {
    if k > 0 {
      FactorSumBounds(chain, k - 1);
    }
  }

  /** The curve stays between a half of a sixteenth and two. */
  lemma CurveBounds(chain: seq<Header>, stake: bool, velocity: nat)
    requires |chain| >= SCAN_HEIGHT && 1 <= velocity < |chain|
    ensures 0.03125 <= Curve(chain, stake, velocity) <= 2.0
  {
    FactorSumBounds(chain, SCAN_HEIGHT - 1);
  }

  // ----- The new target ------------------------------------------------------------------------------

  /** Division of big numbers truncates toward zero. */
  function Quotient(a: int, b: int): int
    requires b > 0
  {
    if a < 0 then -(-a / b) else a / b
  }

  /** It is the whole number nearest to the quotient on the side of zero. */
  lemma QuotientTruncates(a: int, b: int)
    requires b > 0
    ensures a >= 0 ==> Quotient(a, b) * b <= a < (Quotient(a, b) + 1) * b
    ensures a <= 0 ==> (Quotient(a, b) - 1) * b < a <= Quotient(a, b) * b
  {
    var n := if a < 0 then -a else a;
    var q := n / b;
    assert b * q <= n < b * q + b;
    assert Quotient(a, b) == if a < 0 then -q else q;
  }

  function DifficultyFactor(chain: seq<Header>, stake: bool, velocity: nat): (f: int)
    requires |chain| >= SCAN_HEIGHT && 1 <= velocity < |chain|
    ensures 312 <= f <= 20000
  {
    CurveBounds(chain, stake, velocity);
    (10000.0 * Curve(chain, stake, velocity)).Floor
  }

  function Capped(target: int, limit: int): int {
    if target > limit then limit else target
  }

  function NewTarget(chain: seq<Header>, stake: bool, velocity: nat, limit: nat): int
    requires Sane(chain) && |chain| >= SCAN_HEIGHT && 1 <= velocity < |chain|
  {
    Capped(Quotient(SetCompact(chain[velocity].bits), DifficultyFactor(chain, stake, velocity)) * 10000, limit)
  }

  /** The chain is too short to retarget, or holds a block of the wanted type above genesis. */
  predicate Ready(chain: seq<Header>, stake: bool) {
    chain != [] && (|chain| - 1 < FIRST_RETARGET || LastOfType(chain, stake, |chain| - 1) > 0)
  }

  function Target(chain: seq<Header>, stake: bool, limit: nat): int
    requires Sane(chain) && Ready(chain, stake)
  {
    if |chain| - 1 < FIRST_RETARGET then limit
    else NewTarget(chain, stake, LastOfType(chain, stake, |chain| - 1), limit)
  }

  method Retarget(chain: seq<Header>, stake: bool, limit: nat) returns (bits: int)
    requires Sane(chain) && Ready(chain, stake)
    ensures bits == GetCompact(Target(chain, stake, limit))
  {
    hide SetCompact, GetCompact, Curve, Quotient;
    if |chain| - 1 < FIRST_RETARGET {
      return GetCompact(limit);
    }
    var velocity := GetLastBlockIndex(chain, stake);
    var average := ThreadCurve(chain, stake, velocity);
    CurveBounds(chain, stake, velocity);
    var difficultyfactor := (10000.0 * average).Floor;
    var bnOld := SetCompact(chain[velocity].bits);
    var bnNew := Quotient(bnOld, difficultyfactor) * 10000;
    if bnNew > limit {
      bnNew := limit;
    }
    bits := GetCompact(bnNew);
  }

  /** The target that the returned bits stand for. */
  function Decoded(chain: seq<Header>, stake: bool, limit: nat): int
    requires Sane(chain) && Ready(chain, stake)
    requires 0 <= GetCompact(Target(chain, stake, limit)) < 0x1_0000_0000
  {
    SetCompact(GetCompact(Target(chain, stake, limit)))
  }

  lemma QuotientRange(prior: nat, f: int, q: int)
    requires 312 <= f <= 20000 && f * q <= prior < f * q + f
    ensures 312 * q <= prior && 20000 * q > prior - 20000
  {
    if q < 0 {
      Times(q, -1, f);
    }
    Times(312, f, q);
    Times(f, 20000, q);
  }

  lemma QuotientBounds(prior: nat, f: int)
    requires 312 <= f <= 20000
    ensures 0 <= prior / f && 312 * (prior / f) <= prior && 20000 * (prior / f) > prior - 20000
  {
    Parts(prior, f);
    QuotientRange(prior, f, prior / f);
  }

  lemma DecodedIsRounded(t: nat, limit: nat)
    requires t <= limit && Len(limit) < 256
    ensures 0 <= GetCompact(t) < 0x1_0000_0000 && SetCompact(GetCompact(t)) == Rounded(t)
  {
    LenMono(t, limit);
    CompactKeepsThree(t);
    CompactRounds(t);
  }

  /** The next target is at most the limit and at most 10000/312 of the old target; unless capped, it
      is above half of the old target less 10000, but for one part in 2^15. */
  lemma TargetBounds(chain: seq<Header>, stake: bool, limit: nat)
    requires Sane(chain) && |chain| - 1 >= FIRST_RETARGET && Ready(chain, stake) && Len(limit) < 256
    requires SetCompact(chain[LastOfType(chain, stake, |chain| - 1)].bits) >= 0
    ensures 0 <= GetCompact(Target(chain, stake, limit)) < 0x1_0000_0000
    ensures var t, prior := Decoded(chain, stake, limit), SetCompact(chain[LastOfType(chain, stake, |chain| - 1)].bits);
            && 0 <= t <= limit && 312 * t <= 10000 * prior
            && (t == Rounded(limit) || 0x1_0000 * t > 0x7FFF * (prior - 20000))
  {
    hide SetCompact, GetCompact, Rounded, DifficultyFactor;
    var velocity := LastOfType(chain, stake, |chain| - 1);
    var prior, f := SetCompact(chain[velocity].bits), DifficultyFactor(chain, stake, velocity);
    QuotientBounds(prior, f);
    var t := Target(chain, stake, limit);
    DecodedIsRounded(t, limit);
    RoundedClose(t);
  }

  /** Below the first retarget height the limit itself is returned. */
  lemma EarlyTarget(chain: seq<Header>, stake: bool, limit: nat)
    requires Sane(chain) && |chain| - 1 < FIRST_RETARGET && Len(limit) < 256
    ensures 0 <= GetCompact(Target(chain, stake, limit)) < 0x1_0000_0000
    ensures Decoded(chain, stake, limit) == Rounded(limit) <= limit
  {
    DecodedIsRounded(limit, limit);
    RoundedClose(limit);
  }

  // ----- What the factors are -----------------------------------------------------------------------------

  /** Two below a minute and a half, then one and a half below two minutes, one and a quarter below three,
      one up to four and a half, three quarters up to six, and a half beyond. */
  lemma FactorIs(rate: int)
    ensures Factor(rate) == 2.0 <==> rate < 90
    ensures Factor(rate) == 1.5 <==> 90 <= rate < 120
    ensures Factor(rate) == 1.25 <==> 120 <= rate < 180
    ensures Factor(rate) == 1.0 <==> 180 <= rate <= 270
    ensures Factor(rate) == 0.75 <==> 270 < rate <= 360
    ensures Factor(rate) == 0.5 <==> rate > 360
  {
  }

  ghost function StakesAmong(chain: seq<Header>, k: nat): set<nat>
    requires k < |chain|
  {
    set j: nat | |chain| - 1 - k <= j < |chain| - 1 && chain[j].stake
  }

  lemma {:induction false} StakesAreCounted(chain: seq<Header>, k: nat)
    requires k < |chain|
    ensures StakesBehind(chain, k) == |StakesAmong(chain, k)| <= k
  {
    if k > 0 {
      StakesAreCounted(chain, k - 1);
      var j := |chain| - 1 - k;
      assert StakesAmong(chain, k) == StakesAmong(chain, k - 1) + if chain[j].stake then {j} else {};
    }
  }

  /** All five blocks behind the tip are of the one type. */
  predicate FiveOf(chain: seq<Header>, stake: bool)
    requires |chain| >= 6
  {
    forall j :: |chain| - 6 <= j < |chain| - 1 ==> chain[j].stake == stake
  }

  lemma FiveIff(chain: seq<Header>)
    requires |chain| >= 6
    ensures StakesBehind(chain, 5) == 5 <==> FiveOf(chain, true)
    ensures StakesBehind(chain, 5) == 0 <==> FiveOf(chain, false)
    ensures StakesBehind(chain, 5) <= 5
  {
    var n := |chain|;
    assert StakesBehind(chain, 1) == if chain[n - 2].stake then 1 else 0;
    assert StakesBehind(chain, 3) == StakesBehind(chain, 1) + (if chain[n - 3].stake then 1 else 0)
                                     + (if chain[n - 4].stake then 1 else 0);
    assert StakesBehind(chain, 5) == StakesBehind(chain, 3) + (if chain[n - 5].stake then 1 else 0)
                                     + (if chain[n - 6].stake then 1 else 0);
  }

  /** The mean of the five factors; a third of it when all five blocks behind the tip are of the other
      type than the wanted one; never less than a half. */
  lemma AverageIs(chain: seq<Header>, stake: bool)
    requires |chain| >= 6
    ensures var n := |chain|;
            var sum := Factor(chain[n - 1].time - chain[n - 2].time) + Factor(chain[n - 2].time - chain[n - 3].time)
                       + Factor(chain[n - 3].time - chain[n - 4].time) + Factor(chain[n - 4].time - chain[n - 5].time)
                       + Factor(chain[n - 5].time - chain[n - 6].time);
            var mean := if FiveOf(chain, !stake) then sum / 15.0 else sum / 5.0;
            Average(chain, stake) == if mean < 0.5 then 0.5 else mean
  {
    hide Factor, FactorSum, StakesBehind;
    SumOfFive(chain);
    FiveIff(chain);
  }

  /** It is halved once for each full hour since the block before the last one of the type, up to four. */
  lemma SlowedIs(average: real, since: int)
    ensures since <= 3600 ==> Slowed(average, since) == average
    ensures 3600 < since <= 7200 ==> Slowed(average, since) * 2.0 == average
    ensures 7200 < since <= 10800 ==> Slowed(average, since) * 4.0 == average
    ensures 10800 < since <= 14400 ==> Slowed(average, since) * 8.0 == average
    ensures since > 14400 ==> Slowed(average, since) * 16.0 == average
  {
  }

  /** The unsigned difference: the difference itself, or 2^64 more when that is negative. */
  lemma WrappedIs(time: int)
    ensures 0 <= time < 0x1_0000_0000_0000_0000 ==> Wrapped(time) == time
    ensures -0x1_0000_0000_0000_0000 <= time < 0 ==> Wrapped(time) == time + 18_446_744_073_709_551_616
  {
  }

  /** The factor in ten-thousandths is rounded down; the new target is ten thousand times as often as it
      goes into the old one, and at most the limit. */
  lemma NewTargetIs(chain: seq<Header>, stake: bool, velocity: nat, limit: nat)
    requires Sane(chain) && |chain| >= 6 && 1 <= velocity < |chain| && SetCompact(chain[velocity].bits) >= 0
    ensures var f, prior, t := DifficultyFactor(chain, stake, velocity), SetCompact(chain[velocity].bits),
                               NewTarget(chain, stake, velocity, limit);
            var factor := Slowed(Average(chain, stake), Wrapped(chain[velocity].time - chain[velocity - 1].time));
            && f as real <= 10000.0 * factor < f as real + 1.0
            && t == (if prior / f * 10000 > limit then limit else prior / f * 10000)
  {
    hide SetCompact, Average, Slowed, Wrapped;
    CurveBounds(chain, stake, velocity);
  }

  /** From height 105 on the target is that of the last block of the type; before, it is the limit. */
  lemma TargetIs(chain: seq<Header>, stake: bool, limit: nat)
    requires Sane(chain) && Ready(chain, stake)
    ensures |chain| <= 105 ==> Target(chain, stake, limit) == limit
    ensures |chain| >= 106 ==>
              exists at :: 1 <= at < |chain| && chain[at].stake == stake
                           && (forall j :: at < j < |chain| ==> chain[j].stake != stake)
                           && Target(chain, stake, limit) == NewTarget(chain, stake, at, limit)
  {
    hide NewTarget;
    if |chain| >= 106 {
      var at := LastOfType(chain, stake, |chain| - 1);
      assert chain[at].stake == stake;
    }
  }

  // ----- Slower blocks never make it harder ----------------------------------------------------------------

  /** Same types and bits, and no spacing of `b` shorter than that of `a`. */
  ghost predicate NoFaster(a: seq<Header>, b: seq<Header>) {
    && |a| == |b|
    && (forall i :: 0 <= i < |a| ==> a[i].stake == b[i].stake && a[i].bits == b[i].bits)
    && (forall i :: 1 <= i < |a| ==> a[i].time - a[i - 1].time <= b[i].time - b[i - 1].time)
  }

  /** The unsigned difference at the last block of the type does not count `a` as the later one: it
      wraps for both chains or for neither, or `b` is more than four hours late anyway. */
  predicate NoWrap(a: seq<Header>, b: seq<Header>, velocity: nat)
    requires 1 <= velocity < |a| == |b|
  {
    Gap(a, velocity) >= 0 || Gap(b, velocity) < 0 || Gap(b, velocity) > 14400
  }

  lemma {:induction false} SameStakes(a: seq<Header>, b: seq<Header>, k: nat)
    requires NoFaster(a, b) && k < |a|
    ensures StakesBehind(a, k) == StakesBehind(b, k)
  {
    if k > 0 {
      SameStakes(a, b, k - 1);
    }
  }

  lemma {:induction false} SameLast(a: seq<Header>, b: seq<Header>, stake: bool, at: nat)
    requires NoFaster(a, b) && at < |a|
    ensures LastOfType(a, stake, at) == LastOfType(b, stake, at)
  {
    if at > 0 {
      SameLast(a, b, stake, at - 1);
    }
  }

  lemma {:induction false} FactorSumFalls(a: seq<Header>, b: seq<Header>, k: nat)
    requires NoFaster(a, b) && k < |a|
    ensures FactorSum(a, k) >= FactorSum(b, k)
  {
    if k > 0 {
      FactorSumFalls(a, b, k - 1);
      assert Spacing(a, k) <= Spacing(b, k);
    }
  }

  lemma SlowedFalls(x: real, y: real, s: int, t: int)
    requires 0.5 <= y <= x && (0 <= s <= t || 14400 < t)
    ensures Slowed(y, t) <= Slowed(x, s)
  {
  }

  lemma WrapOrder(a: seq<Header>, b: seq<Header>, velocity: nat)
    requires NoFaster(a, b) && Sane(a) && Sane(b) && 1 <= velocity < |a| && NoWrap(a, b, velocity)
    ensures var s, t := Wrapped(Gap(a, velocity)), Wrapped(Gap(b, velocity)); 0 <= s <= t || 14400 < t
  {
  }

  lemma AverageFalls(a: seq<Header>, b: seq<Header>, stake: bool)
    requires NoFaster(a, b) && |a| >= SCAN_HEIGHT
    ensures 0.5 <= Average(b, stake) <= Average(a, stake)
  {
    hide FactorSum;
    FactorSumFalls(a, b, SCAN_HEIGHT - 1);
    SameStakes(a, b, SCAN_HEIGHT - 1);
  }

  lemma CurveFalls(a: seq<Header>, b: seq<Header>, stake: bool, velocity: nat)
    requires NoFaster(a, b) && Sane(a) && Sane(b) && |a| >= SCAN_HEIGHT && 1 <= velocity < |a|
    requires NoWrap(a, b, velocity)
    ensures Curve(b, stake, velocity) <= Curve(a, stake, velocity)
  {
    hide Average, Slowed, Wrapped;
    AverageFalls(a, b, stake);
    WrapOrder(a, b, velocity);
    SlowedFalls(Average(a, stake), Average(b, stake), Wrapped(Gap(a, velocity)), Wrapped(Gap(b, velocity)));
  }

  /** A smaller factor gives a target at least as large. */
  lemma TargetRises(prior: nat, f: int, g: int, limit: nat)
    requires 0 < f <= g
    ensures 0 <= Capped(Quotient(prior, g) * 10000, limit) <= Capped(Quotient(prior, f) * 10000, limit) <= limit
  {
    QuotientFalls(prior, f, g);
  }

  lemma FactorFalls(a: seq<Header>, b: seq<Header>, stake: bool, velocity: nat)
    requires NoFaster(a, b) && Sane(a) && Sane(b) && |a| >= SCAN_HEIGHT && 1 <= velocity < |a|
    requires NoWrap(a, b, velocity)
    ensures DifficultyFactor(b, stake, velocity) <= DifficultyFactor(a, stake, velocity)
  {
    hide Curve;
    CurveFalls(a, b, stake, velocity);
  }

  lemma TargetOrder(a: seq<Header>, b: seq<Header>, stake: bool, limit: nat)
    requires NoFaster(a, b) && Sane(a) && Sane(b) && |a| - 1 >= FIRST_RETARGET && Ready(a, stake)
    requires SetCompact(a[LastOfType(a, stake, |a| - 1)].bits) >= 0 && NoWrap(a, b, LastOfType(a, stake, |a| - 1))
    ensures Ready(b, stake) && 0 <= Target(a, stake, limit) <= Target(b, stake, limit) <= limit
  {
    hide SetCompact, DifficultyFactor, Quotient, Capped, NoFaster;
    SameLast(a, b, stake, |a| - 1);
    var velocity := LastOfType(a, stake, |a| - 1);
    SameBits(a, b, velocity);
    FactorFalls(a, b, stake, velocity);
    TargetRises(SetCompact(a[velocity].bits), DifficultyFactor(b, stake, velocity),
                DifficultyFactor(a, stake, velocity), limit);
  }

  lemma SameBits(a: seq<Header>, b: seq<Header>, i: nat)
    requires NoFaster(a, b) && i < |a|
    ensures |a| == |b| && a[i].bits == b[i].bits
  {
  }

  /** Lengthening spacings never lowers the target. */
  lemma SlowerIsNoHarder(a: seq<Header>, b: seq<Header>, stake: bool, limit: nat)
    requires NoFaster(a, b) && Sane(a) && Sane(b) && |a| - 1 >= FIRST_RETARGET && Ready(a, stake) && Len(limit) < 256
    requires SetCompact(a[LastOfType(a, stake, |a| - 1)].bits) >= 0 && NoWrap(a, b, LastOfType(a, stake, |a| - 1))
    ensures Ready(b, stake)
    ensures 0 <= GetCompact(Target(a, stake, limit)) < 0x1_0000_0000
            && 0 <= GetCompact(Target(b, stake, limit)) < 0x1_0000_0000
    ensures Decoded(a, stake, limit) <= Decoded(b, stake, limit)
  {
    hide SetCompact, GetCompact, Rounded, Target, NoFaster, Sane, Len;
    TargetOrder(a, b, stake, limit);
    DecodedIsRounded(Target(a, stake, limit), limit);
    DecodedIsRounded(Target(b, stake, limit), limit);
    RoundedMono(Target(a, stake, limit), Target(b, stake, limit));
  }

  /** A last block of the type stamped before its predecessor counts as more than four hours late:
      the unsigned difference wraps. */
  lemma NegativeSpacingWraps(average: real, spacing: int)
    requires -0x1_0000_0000 < spacing < 0
    ensures Slowed(average, Wrapped(spacing)) == average / 16.0
  {
  }

  /** Where it wraps for `a` alone, a chain that is no faster but within two hours always gets the
      larger factor. */
  lemma WrapHardens(a: seq<Header>, b: seq<Header>, stake: bool, velocity: nat)
    requires Sane(a) && |a| == |b| >= SCAN_HEIGHT && 1 <= velocity < |a|
    requires Gap(a, velocity) < 0 <= Gap(b, velocity) <= 7200
    ensures DifficultyFactor(a, stake, velocity) < DifficultyFactor(b, stake, velocity)
  {
    hide Average;
    AverageBounds(a, stake);
    AverageBounds(b, stake);
    NegativeSpacingWraps(Average(a, stake), Gap(a, velocity));
  }

  lemma AverageBounds(chain: seq<Header>, stake: bool)
    requires |chain| >= SCAN_HEIGHT
    ensures 0.5 <= Average(chain, stake) <= 2.0
  {
    FactorSumBounds(chain, SCAN_HEIGHT - 1);
  }

  // ----- Chains that AcceptBlock lets in ---------------------------------------------------------------

  const BLOCK_SPACING_MIN := 60
  const VELOCITY_TOGGLE := 175

  /** From the toggle height on, a block less than a minute after its predecessor is refused. */
  predicate Spaced(chain: seq<Header>) {
    forall i :: VELOCITY_TOGGLE <= i < |chain| ==> Gap(chain, i) >= BLOCK_SPACING_MIN
  }

  /** So where the last block of the type is at or above that height, lengthening spacings never lowers
      the target. */
  lemma SpacedIsMonotone(a: seq<Header>, b: seq<Header>, stake: bool, limit: nat)
    requires NoFaster(a, b) && Sane(a) && Sane(b) && Spaced(a) && Len(limit) < 256
    requires VELOCITY_TOGGLE < |a| && LastOfType(a, stake, |a| - 1) >= VELOCITY_TOGGLE
    requires SetCompact(a[LastOfType(a, stake, |a| - 1)].bits) >= 0
    ensures Ready(a, stake) && Ready(b, stake)
    ensures 0 <= GetCompact(Target(a, stake, limit)) < 0x1_0000_0000
    ensures 0 <= GetCompact(Target(b, stake, limit)) < 0x1_0000_0000
    ensures Decoded(a, stake, limit) <= Decoded(b, stake, limit)
  {
    hide SetCompact, GetCompact, Decoded, Target, NoFaster, Len;
    SameBits(a, b, 0);
    assert Gap(a, LastOfType(a, stake, |a| - 1)) >= 0;
    SlowerIsNoHarder(a, b, stake, limit);
  }

  /** Every block carries the bits that the retarget gives for the blocks before it. */
  ghost predicate Retargeted(chain: seq<Header>, limit: nat) {
    forall i :: 1 <= i < |chain| ==>
      && Sane(chain[..i]) && Ready(chain[..i], chain[i].stake)
      && chain[i].bits == GetCompact(Target(chain[..i], chain[i].stake, limit))
  }

  /** Proof-of-work blocks of one time, but for the last one, as hard as the limit asks. */
  function Steady(limit: nat, last: int): seq<Header> {
    seq(FIRST_RETARGET, i => Header(100000, false, GetCompact(limit))) + [Header(last, false, GetCompact(limit))]
  }

  lemma SteadyAt(limit: nat, last: int)
    requires Len(limit) < 256 && 0 <= last <= 100000
    ensures |Steady(limit, last)| == FIRST_RETARGET + 1
    ensures Sane(Steady(limit, last)) && Ready(Steady(limit, last), false)
    ensures forall i :: 0 <= i <= FIRST_RETARGET ==>
              Steady(limit, last)[i] == Header(if i < FIRST_RETARGET then 100000 else last, false, GetCompact(limit))
    ensures LastOfType(Steady(limit, last), false, FIRST_RETARGET) == FIRST_RETARGET
  {
    hide GetCompact, SetCompact, Rounded, Len;
    DecodedIsRounded(limit, limit);
  }

  lemma SteadyRetargeted(limit: nat, last: int)
    requires Len(limit) < 256 && 0 <= last <= 100000
    ensures Retargeted(Steady(limit, last), limit)
  {
    hide GetCompact, Len, Steady;
    SteadyAt(limit, last);
    var chain := Steady(limit, last);
    forall i | 1 <= i < |chain|
      ensures Sane(chain[..i]) && Ready(chain[..i], chain[i].stake)
      ensures chain[i].bits == GetCompact(Target(chain[..i], chain[i].stake, limit))
    {
      assert |chain[..i]| - 1 < FIRST_RETARGET;
    }
  }

  lemma {:induction false} SteadySum(limit: nat, last: int, k: nat)
    requires Len(limit) < 256 && 0 <= last <= 100000 && k < |Steady(limit, last)|
    ensures FactorSum(Steady(limit, last), k) == 2.0 * k as real && StakesBehind(Steady(limit, last), k) == 0
  {
    hide GetCompact, Len, Steady;
    SteadyAt(limit, last);
    if k > 0 {
      SteadySum(limit, last, k - 1);
    }
  }

  lemma SteadyFactor(limit: nat, last: int)
    requires Len(limit) < 256 && 0 <= last <= 100000
    ensures |Steady(limit, last)| == FIRST_RETARGET + 1
    ensures DifficultyFactor(Steady(limit, last), false, FIRST_RETARGET) == if last < 100000 then 1250 else 20000
  {
    hide GetCompact, Len, Steady, FactorSum, StakesBehind;
    SteadyAt(limit, last);
    SteadySum(limit, last, SCAN_HEIGHT - 1);
    assert Average(Steady(limit, last), false) == 2.0;
    assert Gap(Steady(limit, last), FIRST_RETARGET) == last - 100000;
  }

  /** Where the last spacing wraps the limit is returned, otherwise at most half of it. */
  lemma SteadyTarget(limit: nat, last: int)
    requires Len(limit) < 256 && limit >= 10000 && 0 <= last <= 100000
    ensures Sane(Steady(limit, last)) && Ready(Steady(limit, last), false)
    ensures var t := Target(Steady(limit, last), false, limit);
            if last < 100000 then t == limit else 0 <= 2 * t <= Rounded(limit)
  {
    hide GetCompact, SetCompact, Rounded, DifficultyFactor, Len, Steady;
    SteadyAt(limit, last);
    SteadyFactor(limit, last);
    DecodedIsRounded(limit, limit);
    RoundedClose(limit);
  }

  /** The law fails where only the faster chain wraps: one second less between the last two blocks keeps
      the target at the limit, which is at least halved otherwise. */
  lemma SlowerCanBeHarder(limit: nat)
    requires Len(limit) < 256 && limit >= 10000
    ensures var a, b := Steady(limit, 99999), Steady(limit, 100000);
      && NoFaster(a, b) && Sane(a) && Sane(b) && Ready(a, false) && Ready(b, false)
      && Retargeted(a, limit) && Retargeted(b, limit)
      && 0 <= GetCompact(Target(a, false, limit)) < 0x1_0000_0000
      && 0 <= GetCompact(Target(b, false, limit)) < 0x1_0000_0000
      && Decoded(a, false, limit) >= 2 * Decoded(b, false, limit) && Decoded(a, false, limit) > Decoded(b, false, limit)
  {
    hide GetCompact, SetCompact, Target, Ready, Steady, Retargeted, Len, Rounded;
    SteadyTarget(limit, 99999);
    SteadyTarget(limit, 100000);
    SteadyAt(limit, 99999);
    SteadyAt(limit, 100000);
    SteadyRetargeted(limit, 99999);
    SteadyRetargeted(limit, 100000);
    var t := Target(Steady(limit, 100000), false, limit);
    DecodedIsRounded(limit, limit);
    RoundedClose(limit);
    DecodedIsRounded(t, limit);
    RoundedClose(t);
  }
}
