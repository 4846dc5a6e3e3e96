/** The stochastic address manager: adding, trying, evicting and selecting addresses. */
module AddrMan {
  import opened AddrTable
  import opened Sequences
  import opened Ordered

  /** A uniformly random number below `n`: any such number. */
  method RandInt(n: int) returns (r: int)
    requires n > 0
    ensures 0 <= r < n
  {
    r :| 0 <= r < n;
  }

  /** The random numbers that adding one address may use: one to decide whether a known address may
      enter another bucket, four to pick entries of a full one. */
  datatype Dice = Dice(again: nat, p0: nat, p1: nat, p2: nat, p3: nat)
  {
    function Positions(size: int): (q: seq<int>)
      requires size > 0
      ensures |q| == 4 && forall i :: 0 <= i < 4 ==> 0 <= q[i] < size
    {
      [p0 % size, p1 % size, p2 % size, p3 % size]
    }
  }

  predicate IsTerrible(i: Info, nNow: int) {
    if i.nLastTry != 0 && i.nLastTry >= nNow - 60 then false
    else if i.nTime > nNow + 10 * 60 then true
    else if i.nTime == 0 || nNow - i.nTime > 30 * 86400 then true
    else if i.nLastSuccess == 0 && i.nAttempts >= 3 then true
    else nNow - i.nLastSuccess > 7 * 86400 && i.nAttempts >= 10
  }

  /** Worth keeping: tried within the last minute; or with a time that is known, no more than ten minutes
      ahead and at most thirty days old, once successful or tried less than three times, and with a
      success in the last week or less than ten attempts. */
  predicate WorthKeeping(i: Info, nNow: int) {
    || (i.nLastTry != 0 && nNow - i.nLastTry <= 60)
    || (&& i.nTime != 0 && -600 <= nNow - i.nTime <= 2_592_000
        && (i.nLastSuccess != 0 || i.nAttempts < 3)
        && (nNow - i.nLastSuccess <= 604_800 || i.nAttempts < 10))
  }

  lemma TerribleIff(i: Info, nNow: int)
    ensures IsTerrible(i, nNow) <==> !WorthKeeping(i, nNow)
  {
  }

  ghost predicate AscendingIn(q: seq<int>, s: set<int>) {
    (forall i, j :: 0 <= i < j < |q| ==> q[i] < q[j]) && forall x :: x in q <==> x in s
  }

  /** Among the picked positions, `pos` has the smallest time, and is the first of those that do. */
  ghost predicate OldestAt(m: Infos, q: seq<int>, picks: seq<int>, pos: int) {
    && pos in picks && 0 <= pos < |q| && q[pos] in m
    && forall j :: j in picks && 0 <= j < |q| && q[j] in m ==>
         m[q[pos]].nTime < m[q[j]].nTime || (m[q[pos]].nTime == m[q[j]].nTime && pos <= j)
  }

  ghost predicate AllWorthKeeping(m: Infos, s: set<int>, nNow: int) {
    forall x :: x in s && x in m ==> WorthKeeping(m[x], nNow)
  }

  /** The entry that makes way in a full bucket: the first not worth keeping, or else the oldest pick. */
  ghost predicate MakesWay(m: Infos, s: set<int>, nNow: int, dice: Dice, id: int) {
    id in s && id in m &&
    if !AllWorthKeeping(m, s, nNow)
    then !WorthKeeping(m[id], nNow) && forall x :: x in s && x in m && x < id ==> WorthKeeping(m[x], nNow)
    else exists q, pos :: AscendingIn(q, s) && q != [] && OldestAt(m, q, dice.Positions(|q|), pos) && q[pos] == id
  }

  lemma MakesWayFrame(m: Infos, m': Infos, s: set<int>, nNow: int, dice: Dice, id: int)
    requires forall x :: x in s ==> (x in m <==> x in m') && (x in m ==> m[x] == m'[x])
    requires MakesWay(m, s, nNow, dice, id)
    ensures MakesWay(m', s, nNow, dice, id)
  {
    if AllWorthKeeping(m, s, nNow) {
      var q, pos :| AscendingIn(q, s) && q != [] && OldestAt(m, q, dice.Positions(|q|), pos) && q[pos] == id;
      assert forall j :: 0 <= j < |q| ==> q[j] in s;
      assert OldestAt(m', q, dice.Positions(|q|), pos);
    }
  }

  function Doubled(n: int): (r: int)
    ensures r >= 1
  {
    if n <= 0 then 1 else 2 * Doubled(n - 1)
  }

  function Penalised(time: int, nTimePenalty: int): int {
    if time - nTimePenalty > 0 then time - nTimePenalty else 0
  }

  /** A known entry after its address was heard of again. */
  function Refreshed(i: Info, nServices: set<int>, addrTime: int, nTimePenalty: int, nNow: int): Info {
    var interval := if nNow - addrTime < 24 * 60 * 60 then 60 * 60 else 24 * 60 * 60;
    var stale := addrTime != 0 && (i.nTime == 0 || i.nTime < addrTime - interval - nTimePenalty);
    i.(nTime := if stale then Penalised(addrTime, nTimePenalty) else i.nTime, nServices := i.nServices + nServices)
  }

  /** Whether a refreshed entry may enter another bucket: there is news, it is not tried, has a
      reference to spare, and wins one draw out of two to the power of its references. */
  predicate Spreads(i: Info, addrTime: int, dice: Dice) {
    && addrTime != 0 && (i.nTime == 0 || addrTime > i.nTime)
    && !i.fInTried && i.nRefCount != NEW_BUCKETS_PER_ADDRESS && dice.again % Doubled(i.nRefCount) == 0
  }

  /** An untried entry with news enters a second bucket with one chance in two, a third with one in four,
      a fourth with one in eight, and no fifth. */
  lemma SpreadOdds(i: Info, addrTime: int, dice: Dice)
    ensures i.fInTried || addrTime == 0 || (i.nTime != 0 && addrTime <= i.nTime) ==> !Spreads(i, addrTime, dice)
    ensures !i.fInTried && addrTime != 0 && (i.nTime == 0 || addrTime > i.nTime) ==>
              && (i.nRefCount == 0 ==> Spreads(i, addrTime, dice))
              && (i.nRefCount == 1 ==> (Spreads(i, addrTime, dice) <==> dice.again % 2 == 0))
              && (i.nRefCount == 2 ==> (Spreads(i, addrTime, dice) <==> dice.again % 4 == 0))
              && (i.nRefCount == 3 ==> (Spreads(i, addrTime, dice) <==> dice.again % 8 == 0))
              && (i.nRefCount == 4 ==> !Spreads(i, addrTime, dice))
  {
    assert Doubled(1) == 2 && Doubled(2) == 4 && Doubled(3) == 8 by {
      assert Doubled(0) == 1;
    }
  }

  /** A known entry takes over a new time, less the penalty but never negative, if it has none or the new
      one is ahead by more than an hour, or more than a day if it is over a day old itself. Nothing else
      changes but the services, which add up. */
  lemma RefreshedTime(i: Info, nServices: set<int>, addrTime: int, nTimePenalty: int, nNow: int)
    ensures var r := Refreshed(i, nServices, addrTime, nTimePenalty, nNow);
            var ahead := addrTime - nTimePenalty - i.nTime;
            var taken := addrTime != 0 && (|| i.nTime == 0
                                           || (nNow - addrTime < 86_400 && ahead > 3_600)
                                           || (nNow - addrTime >= 86_400 && ahead > 86_400));
            && r.(nTime := i.nTime, nServices := i.nServices) == i && r.nServices == i.nServices + nServices
            && (!taken ==> r.nTime == i.nTime)
            && (taken ==> r.nTime >= 0 && r.nTime >= addrTime - nTimePenalty)
            && (taken ==> r.nTime == 0 || r.nTime == addrTime - nTimePenalty)
  {
  }

  /** The dice can pick any four positions. */
  lemma AnyPositions(size: nat, a: nat, b: nat, c: nat, d: nat)
    requires a < size && b < size && c < size && d < size
    ensures Dice(0, a, b, c, d).Positions(size) == [a, b, c, d]
  {
    SmallRest(a, size);
    SmallRest(b, size);
    SmallRest(c, size);
    SmallRest(d, size);
  }

  lemma SmallRest(x: nat, n: nat)
    requires x < n
    ensures x % n == x
  {
  }

  /** Entry `id`, with statistics `i`, is in new bucket `u` of `vv'`, and `gone` made way if it had to. */
  ghost predicate Entered(
    m: Infos, vv: Buckets, id: int, i: Info, u: int, nNow: int, dice: Dice, gone: int, m': Infos, vv': Buckets)
  {
    && 0 <= u < |vv|
    && id in m' && gone != id
    && if id in vv[u] then
         m'[id] == i.(nRandomPos := m'[id].nRandomPos) && vv' == vv && gone == NOBODY
       else
         && m'[id] == i.(nRefCount := i.nRefCount + 1, nRandomPos := m'[id].nRandomPos)
         && if |vv[u]| == NEW_BUCKET_SIZE
            then MakesWay(m, vv[u], nNow, dice, gone) && vv' == vv[u := vv[u] - {gone} + {id}]
            else gone == NOBODY && vv' == vv[u := vv[u] + {id}]
  }

  lemma EnteredFrame(
    m: Infos, m0: Infos, vv: Buckets, id: int, i: Info, u: int, nNow: int, dice: Dice, gone: int, m': Infos,
    vv': Buckets)
    requires id in m && m == m0[id := m[id]] && i == m[id].(nRandomPos := i.nRandomPos)
    requires Entered(m, vv, id, m[id], u, nNow, dice, gone, m', vv')
    ensures Entered(m0, vv, id, i, u, nNow, dice, gone, m', vv')
  {
    hide MakesWay;
    if id !in vv[u] && |vv[u]| == NEW_BUCKET_SIZE {
      MakesWayFrame(m, m0, vv[u], nNow, dice, gone);
    }
  }

  /** What makes way is not worth keeping, and not tried within the last minute; or else all the bucket is
      worth keeping. */
  lemma WhoGoes(
    m: Infos, vv: Buckets, id: int, i: Info, u: int, nNow: int, dice: Dice, gone: int, m': Infos, vv': Buckets)
    requires Entered(m, vv, id, i, u, nNow, dice, gone, m', vv')
    ensures |vv'| == |vv| && (gone != NOBODY ==> gone in m)
    ensures gone != NOBODY ==> forall w, x ::
              0 <= w < |vv| && gone in vv[w] && gone !in vv'[w] && x in vv[w] && x in m ==>
              || ((m[gone].nLastTry == 0 || nNow - m[gone].nLastTry > 60) && !WorthKeeping(m[gone], nNow))
              || WorthKeeping(m[x], nNow)
  {
  }

  // ----- Choosing a tried entry to replace -----------------------------------------------------------

  /** Random numbers for up to four draws from a bucket. */
  datatype Draws = Draws(d0: nat, d1: nat, d2: nat, d3: nat)
  {
    /** The place of the `i`-th draw: any from `i` on. */
    function At(i: nat, size: nat): (pos: int)
      requires i < size
      ensures i <= pos < size
    {
      i + (if i == 0 then d0 else if i == 1 then d1 else if i == 2 then d2 else d3) % (size - i)
    }
  }

  /** The draws can be any position from the `i`-th on. */
  lemma AnyDraws(size: nat, a: nat, b: nat, c: nat, d: nat)
    requires size >= 4 && a < size && b < size - 1 && c < size - 2 && d < size - 3
    ensures var draws := Draws(a, b, c, d);
            && draws.At(0, size) == a && draws.At(1, size) == 1 + b
            && draws.At(2, size) == 2 + c && draws.At(3, size) == 3 + d
  {
    SmallRest(a, size);
    SmallRest(b, size - 1);
    SmallRest(c, size - 2);
    SmallRest(d, size - 3);
  }

  /** The bucket after `n` draws, each swapped to the front. */
  function Shuffled(b: seq<int>, draws: Draws, n: nat): (r: seq<int>)
    requires n <= |b|
    ensures |r| == |b|
  {
    if n == 0 then b else Swapped(Shuffled(b, draws, n - 1), draws.At(n - 1, |b|), n - 1)
  }

  function LastSuccess(m: Infos, id: int): int {
    if id in m then m[id].nLastSuccess else 0
  }

  /** The first of the `n` front entries whose last success lies furthest back. */
  function FirstOldest(m: Infos, b: seq<int>, n: nat): (i: nat)
    requires 1 <= n <= |b|
    ensures i < n
    ensures forall j :: 0 <= j < n ==>
              LastSuccess(m, b[i]) < LastSuccess(m, b[j]) || (LastSuccess(m, b[i]) == LastSuccess(m, b[j]) && i <= j)
  {
    if n == 1 then 0
    else
      var i := FirstOldest(m, b, n - 1);
      if LastSuccess(m, b[n - 1]) < LastSuccess(m, b[i]) then n - 1 else i
  }

  function Inspected(b: seq<int>): nat {
    if |b| < 4 then |b| else 4
  }

  /** Which of the entries drawn is the oldest. */
  function OldestDrawn(m: Infos, b: seq<int>, draws: Draws): (i: nat)
    requires b != []
    ensures i < Inspected(b)
  {
    FirstOldest(m, Shuffled(b, draws, Inspected(b)), Inspected(b))
  }

  /** The entry that is replaced: the one now standing where the oldest was drawn from. */
  function Victim(m: Infos, b: seq<int>, draws: Draws): int
    requires b != []
  {
    Shuffled(b, draws, Inspected(b))[draws.At(OldestDrawn(m, b, draws), |b|)]
  }

  lemma {:induction false} FirstOldestFrame(m: Infos, b: seq<int>, c: seq<int>, n: nat)
    requires 1 <= n <= |b| == |c| && forall j :: 0 <= j < n ==> b[j] == c[j]
    ensures FirstOldest(m, b, n) == FirstOldest(m, c, n)
  {
    if n > 1 {
      FirstOldestFrame(m, b, c, n - 1);
    }
  }

  lemma {:induction false} ShuffledDistinct(b: seq<int>, draws: Draws, n: nat)
    requires n <= |b| && Distinct(b)
    ensures Distinct(Shuffled(b, draws, n))
  {
    if n > 0 {
      ShuffledDistinct(b, draws, n - 1);
    }
  }

  lemma NotDrawn(b: seq<int>, draws: Draws)
    ensures Shuffled(b, draws, 0) == b
  {
  }

  lemma DrawNext(m: Infos, b: seq<int>, draws: Draws, i: nat)
    requires i < |b|
    ensures var s, t, pos := Shuffled(b, draws, i), Shuffled(b, draws, i + 1), draws.At(i, |b|);
            && t == Swapped(s, pos, i) && t[i] == s[pos]
            && (i == 0 ==> FirstOldest(m, t, 1) == 0)
            && (i > 0 ==>
                  var o := FirstOldest(m, s, i);
                  t[o] == s[o]
                  && FirstOldest(m, t, i + 1) == if LastSuccess(m, t[i]) < LastSuccess(m, s[o]) then i else o)
  {
    if i > 0 {
      FirstOldestFrame(m, Shuffled(b, draws, i), Shuffled(b, draws, i + 1), i);
    }
  }

  /** The bucket an evicted entry goes to: its own, or the one just vacated if that is full. */
  function Refuge(newHash: (Service, int) -> int, i: Info, vv: Buckets, origin: int): (w: int)
    requires |vv| == NEW_BUCKET_COUNT && 0 <= origin < |vv|
    ensures 0 <= w < |vv|
  {
    var u := newHash(i.addr, i.source) % NEW_BUCKET_COUNT;
    if |vv[u]| < NEW_BUCKET_SIZE then u else origin
  }

  lemma RefugeIs(newHash: (Service, int) -> int, i: Info, vv: Buckets, origin: int)
    requires |vv| == NEW_BUCKET_COUNT && 0 <= origin < |vv|
    ensures var u := newHash(i.addr, i.source) % 256;
            Refuge(newHash, i, vv, origin) == if |vv[u]| < 64 then u else origin
  {
  }

  /** In tried bucket `k`, shuffled, `id` stands in the victim's place, and the victim is in its refuge. */
  ghost predicate Exchanged(
    newHash: (Service, int) -> int, m: Infos, vv: Buckets, tt: seq<seq<int>>, id: int, k: int, origin: int,
    draws: Draws, evicted: int, vv': Buckets, tt': seq<seq<int>>)
  {
    && |vv| == NEW_BUCKET_COUNT && 0 <= origin < |vv| && 0 <= k < |tt| && tt[k] != []
    && evicted == Victim(m, tt[k], draws) && evicted in m
    && tt' == tt[k := Shuffled(tt[k], draws, Inspected(tt[k]))[draws.At(OldestDrawn(m, tt[k], draws), |tt[k]|) := id]]
    && var w := Refuge(newHash, m[evicted], vv, origin);
       vv' == vv[w := vv[w] + {evicted}]
  }

  /** Who goes, and where, does not depend on reference counts. */
  lemma ExchangedFrame(
    newHash: (Service, int) -> int, m: Infos, vv: Buckets, tt: seq<seq<int>>, id: int, k: int, origin: int,
    draws: Draws, evicted: int, vv': Buckets, tt': seq<seq<int>>)
    requires id in m && Exchanged(newHash, WithRef(m, id, 0), vv, tt, id, k, origin, draws, evicted, vv', tt')
    ensures Exchanged(newHash, m, vv, tt, id, k, origin, draws, evicted, vv', tt')
  {
    hide Shuffled, FirstOldest;
    OldestWithRef(m, id, Shuffled(tt[k], draws, Inspected(tt[k])), Inspected(tt[k]));
  }

  lemma {:induction false} OldestWithRef(m: Infos, id: int, b: seq<int>, n: nat)
    requires id in m && 1 <= n <= |b|
    ensures FirstOldest(WithRef(m, id, 0), b, n) == FirstOldest(m, b, n)
  {
    if n > 1 {
      OldestWithRef(m, id, b, n - 1);
    }
  }

  /** The oldest entry drawn is the one replaced if and only if it stood at the front already when it
      was drawn; otherwise the swap has moved it away. */
  lemma VictimIsOldestIff(m: Infos, b: seq<int>, draws: Draws)
    requires b != [] && Distinct(b)
    ensures var i := OldestDrawn(m, b, draws);
            Victim(m, b, draws) == Shuffled(b, draws, Inspected(b))[i] <==> draws.At(i, |b|) == i
    ensures var s, i := Shuffled(b, draws, Inspected(b)), OldestDrawn(m, b, draws);
            i < |b| && i < 4 && forall j :: 0 <= j < |b| && j < 4 && s[i] in m && s[j] in m ==>
              m[s[i]].nLastSuccess <= m[s[j]].nLastSuccess
  {
    ShuffledDistinct(b, draws, Inspected(b));
  }

  /** Of two entries, the more recent one can go. */
  lemma OldestSurvives()
    ensures exists m: Infos, b: seq<int>, draws: Draws ::
              && |b| == 2 && Distinct(b) && b[0] in m && b[1] in m
              && m[b[1]].nLastSuccess < m[b[0]].nLastSuccess && Victim(m, b, draws) == b[0]
  {
    var i := Info(Service(0, 0), 0, {}, 0, 0, 0, 0, 0, true, 0);
    var m: Infos := map[7 := i.(nLastSuccess := 100), 8 := i.(nLastSuccess := 5)];
    var b, draws := [7, 8], Draws(1, 0, 0, 0);
    assert Shuffled(b, draws, 0) == [7, 8];
    assert Shuffled(b, draws, 1) == [8, 7];
    assert Shuffled(b, draws, 2) == [8, 7];
    assert FirstOldest(m, [8, 7], 1) == 0;
    assert Victim(m, b, draws) == b[0];
  }

  ghost predicate RefRangeBut(m: Infos, loose: int) {
    forall id :: id in m && id != loose ==>
      if m[id].fInTried then m[id].nRefCount == 0 else 1 <= m[id].nRefCount <= NEW_BUCKETS_PER_ADDRESS
  }

  /** Entries differ at most in their random positions. */
  ghost predicate Moved(m: Infos, m': Infos) {
    m.Keys == m'.Keys && forall id :: id in m.Keys ==> m'[id] == m[id].(nRandomPos := m'[id].nRandomPos)
  }

  lemma MovedIsSameRoles(m: Infos, m': Infos)
    requires Moved(m, m')
    ensures SameRoles(m, m')
  {
    forall id | id in m.Keys ensures SameRole(m[id], m'[id]) {
      assert m'[id] == m[id].(nRandomPos := m'[id].nRandomPos);
    }
  }

  lemma MovedKeeps(m: Infos, m': Infos, loose: int)
    requires Moved(m, m')
    ensures RefRangeBut(m, loose) ==> RefRangeBut(m', loose)
    ensures TimesOk(m) ==> TimesOk(m')
  {
    forall id | id in m'.Keys ensures id in m && m'[id] == m[id].(nRandomPos := m'[id].nRandomPos) {
    }
  }

  class AddrMan {
    const triedHash: Service -> int         // hash of key and address, spread over the tried buckets
    const newHash: (Service, int) -> int    // hash of key, address and source
    var nIdCount: int
    var mapInfo: Infos
    var mapAddr: map<int, int>
    var vRandom: seq<int>
    var nTried: int
    var vvTried: seq<seq<int>>
    var nNew: int
    var vvNew: Buckets

    /** The tables are consistent, except that `pending` is counted for a bucket it is not in yet
        and the reference count of `loose` may be out of range. */
    ghost predicate Consistent(pending: int, loose: int)
      reads this
    {
      && IdsBelow(mapInfo, nIdCount)
      && AddrOk(mapInfo, mapAddr)
      && RandomOk(mapInfo, vRandom)
      && RefOk(mapInfo, vvNew, pending)
      && RefRangeBut(mapInfo, loose)
      && TriedOk(mapInfo, vvTried, triedHash)
      && Small(vvNew) && TriedSmall(vvTried)
      && nTried == |TriedIds(mapInfo)| && nNew == |NewIds(mapInfo)|
    }

    ghost predicate Valid()
      reads this
    {
      Consistent(NOBODY, NOBODY)
    }

    constructor (triedHash: Service -> int, newHash: (Service, int) -> int)
      ensures Valid() && TimesOk(mapInfo) && mapInfo == map[]
    {
      this.triedHash := triedHash;
      this.newHash := newHash;
      nIdCount, nTried, nNew := 0, 0, 0;
      mapInfo, mapAddr, vRandom := map[], map[], [];
      vvTried := seq(TRIED_BUCKET_COUNT, _ => []);
      vvNew := seq(NEW_BUCKET_COUNT, _ => {});
    }

    method SwapRandom(i: int, j: int)
      requires RandomOk(mapInfo, vRandom) && 0 <= i < |vRandom| && 0 <= j < |vRandom|
      modifies `mapInfo, `vRandom
      ensures RandomOk(mapInfo, vRandom) && Moved(old(mapInfo), mapInfo)
      ensures vRandom == Swapped(old(vRandom), i, j)
    {
      if i == j {
        return;
      }
      SwapKeeps(mapInfo, vRandom, i, j);
      var nId1, nId2 := vRandom[i], vRandom[j];
      mapInfo := mapInfo[nId1 := mapInfo[nId1].(nRandomPos := j)];
      mapInfo := mapInfo[nId2 := mapInfo[nId2].(nRandomPos := i)];
      vRandom := vRandom[i := nId2];
      vRandom := vRandom[j := nId1];
    }

    /** Brings an entry to the end of the random order. */
    method MoveLast(id: int, ghost pending: int)
      requires Consistent(pending, id) && id in mapInfo
      modifies `mapInfo, `vRandom
      ensures Consistent(pending, id) && Moved(old(mapInfo), mapInfo) && id in mapInfo
      ensures vRandom != [] && vRandom[|vRandom| - 1] == id
    {
      hide RefOk, TriedOk, Small, TriedSmall, AddrOk, RandomOk, RefRangeBut, SameRoles, TriedIds, NewIds, Moved;
      ghost var m := mapInfo;
      RandomAt(m, vRandom, id);
      SwapRandom(mapInfo[id].nRandomPos, |vRandom| - 1);
      MovedIsSameRoles(m, mapInfo);
      MovedKeeps(m, mapInfo, id);
      MovedBelow(m, mapInfo, nIdCount);
      SameRolesKeep(m, mapInfo, mapAddr, vvNew, pending, vvTried, triedHash);
    }

    /** Removes an entry that no bucket holds. */
    method Delete(id: int, ghost pending: int)
      requires id in mapInfo && !mapInfo[id].fInTried && id != pending && Count(vvNew, id) == 0
      requires Consistent(pending, id)
      modifies `mapInfo, `mapAddr, `vRandom, `nNew
      ensures Consistent(pending, NOBODY)
      ensures mapInfo.Keys == old(mapInfo.Keys) - {id} && Moved(old(mapInfo) - {id}, mapInfo)
    {
      hide RefOk, TriedOk, Small, TriedSmall, AddrOk, RandomOk, RefRangeBut, Count, TriedIds, NewIds;
      MoveLast(id, pending);
      ghost var m := mapInfo;
      RandomLast(m, vRandom, id);
      PopKeeps(m, vRandom, id);
      EraseKeeps(m, mapAddr, vvNew, pending, vvTried, triedHash, id);
      EraseRange(m, id);
      vRandom := vRandom[..|vRandom| - 1];
      mapAddr := mapAddr - {mapInfo[id].addr.ip};
      mapInfo := mapInfo - {id};
      nNew := nNew - 1;
    }

    /** Takes an entry out of one new bucket; an entry in no bucket any more is removed. */
    method DropFrom(b: int, id: int, ghost pending: int)
      requires Consistent(pending, NOBODY) && 0 <= b < |vvNew| && id in vvNew[b] && id != pending
      modifies `mapInfo, `mapAddr, `vRandom, `nNew, `vvNew
      ensures Consistent(pending, NOBODY)
      ensures vvNew == old(vvNew)[b := old(vvNew[b]) - {id}]
      ensures OnlyDropped(old(mapInfo), mapInfo, id)
    {
      hide RefOk, TriedOk, AddrOk, RandomOk, RefRangeBut, TriedIds, NewIds, Small;
      InBucket(mapInfo, vvNew, pending, b, id);
      DropKeeps(mapInfo, vvNew, pending, b, id);
      RefChangeKeeps(mapInfo, mapAddr, vRandom, vvTried, triedHash, id, mapInfo[id].nRefCount - 1);
      DroppedRange(mapInfo, vvNew, pending, b, id);
      SmallerBucket(vvNew, b, id);
      mapInfo := mapInfo[id := mapInfo[id].(nRefCount := mapInfo[id].nRefCount - 1)];
      vvNew := vvNew[b := vvNew[b] - {id}];
      if mapInfo[id].nRefCount == 0 {
        Delete(id, pending);
      }
    }

    /** Frees a place in a new bucket: drops the first terrible entry in id order, or else the one
        seen longest ago among four random picks. */
    method ShrinkNew(b: int, nNow: int, dice: Dice, ghost pending: int) returns (code: int, ghost out: int)
      requires Consistent(pending, NOBODY) && 0 <= b < |vvNew| && vvNew[b] != {} && pending !in vvNew[b]
      modifies `mapInfo, `mapAddr, `vRandom, `nNew, `vvNew
      ensures Consistent(pending, NOBODY)
      ensures out in old(vvNew[b]) && vvNew == old(vvNew)[b := old(vvNew[b]) - {out}]
      ensures OnlyDropped(old(mapInfo), mapInfo, out)
      ensures code == if AllWorthKeeping(old(mapInfo), old(vvNew[b]), nNow) then 1 else 0
      ensures code == 0 ==>
                var i := old(mapInfo)[out];
                && (i.nLastTry == 0 || nNow - i.nLastTry > 60)
                && (|| i.nTime == 0 || i.nTime > nNow + 600 || nNow - i.nTime > 2_592_000
                    || (i.nLastSuccess == 0 && i.nAttempts >= 3)
                    || (nNow - i.nLastSuccess > 604_800 && i.nAttempts >= 10))
      ensures code == 1 ==> forall x :: x in old(vvNew[b]) ==>
                x in old(mapInfo) &&
                var i := old(mapInfo)[x];
                || (i.nLastTry != 0 && nNow - i.nLastTry <= 60)
                || (&& i.nTime != 0 && i.nTime <= nNow + 600 && nNow - i.nTime <= 2_592_000
                    && (i.nLastSuccess != 0 || i.nAttempts < 3)
                    && (nNow - i.nLastSuccess <= 604_800 || i.nAttempts < 10))
      ensures MakesWay(old(mapInfo), old(vvNew[b]), nNow, dice, out)
    {
      hide TriedOk, AddrOk, RandomOk, RefRangeBut, TriedIds, NewIds, Small, TriedSmall, IdsBelow;
      var ids := Ascending(vvNew[b]);
      for i := 0 to |ids|
        invariant mapInfo == old(mapInfo) && vvNew == old(vvNew) && Consistent(pending, NOBODY)
        invariant forall j :: 0 <= j < i ==> ids[j] in mapInfo && WorthKeeping(mapInfo[ids[j]], nNow)
      {
        assert ids[i] in ids;
        assert ids[i] in vvNew[b] && ids[i] in mapInfo;
        TerribleIff(mapInfo[ids[i]], nNow);
        if IsTerrible(mapInfo[ids[i]], nNow) {
          out := ids[i];
          DropFrom(b, ids[i], pending);
          return 0, out;
        }
      }
      var pos := Earliest(ids, dice.Positions(|ids|));
      out := ids[pos];
      assert AscendingIn(ids, vvNew[b]);
      DropFrom(b, ids[pos], pending);
      code := 1;
    }

    /** Scans the bucket in order, looking only at the picked positions. */
    method Earliest(ids: seq<int>, picks: seq<int>) returns (pos: int)
      requires picks != [] && forall i :: 0 <= i < |picks| ==> 0 <= picks[i] < |ids|
      requires forall i :: 0 <= i < |ids| ==> ids[i] in mapInfo
      ensures 0 <= pos < |ids| && OldestAt(mapInfo, ids, picks, pos)
    {
      pos := -1;
      for nI := 0 to |ids|
        invariant pos == -1 || (pos in picks && 0 <= pos < nI)
        invariant forall j :: j in picks && j < nI ==>
                    pos != -1 && (mapInfo[ids[pos]].nTime < mapInfo[ids[j]].nTime
                                  || (mapInfo[ids[pos]].nTime == mapInfo[ids[j]].nTime && pos <= j))
      {
        if nI in picks {
          if pos == -1 || mapInfo[ids[nI]].nTime < mapInfo[ids[pos]].nTime {
            pos := nI;
          }
        }
      }
      assert picks[0] in picks;
    }

    method Create(addr: Service, nServices: set<int>, nTime: int, source: int) returns (id: int)
      requires Valid() && addr.ip !in mapAddr
      modifies `nIdCount, `mapInfo, `mapAddr, `vRandom, `nNew
      ensures Consistent(NOBODY, id) && id !in old(mapInfo)
      ensures mapInfo == old(mapInfo)[id := Info(addr, source, nServices, nTime, 0, 0, 0, 0, false, |old(vRandom)|)]
      ensures mapAddr == old(mapAddr)[addr.ip := id]
    {
      hide RefOk, TriedOk, AddrOk, RandomOk, RefRangeBut, TriedIds, NewIds, Small, TriedSmall, Count, IdsBelow;
      id := nIdCount;
      var info := Info(addr, source, nServices, nTime, 0, 0, 0, 0, false, |vRandom|);
      NextBelow(mapInfo, id, info);
      CreateKeeps(mapInfo, mapAddr, vRandom, vvNew, vvTried, triedHash, id, info);
      NewRange(mapInfo, id, info);
      nIdCount := nIdCount + 1;
      mapInfo := mapInfo[id := info];
      mapAddr := mapAddr[addr.ip := id];
      vRandom := vRandom + [id];
      nNew := nNew + 1;
    }

    /** Puts an entry into a new bucket, making room first if the bucket is full. */
    method Reference(id: int, u: int, nNow: int, dice: Dice) returns (ghost gone: int)
      requires Consistent(NOBODY, id) && id in mapInfo && !mapInfo[id].fInTried && 0 <= u < |vvNew|
      requires 0 <= mapInfo[id].nRefCount < NEW_BUCKETS_PER_ADDRESS
      modifies `mapInfo, `mapAddr, `vRandom, `nNew, `vvNew
      ensures Valid() && id in mapInfo && gone != id
      ensures Kept(old(mapInfo), mapInfo, id, gone)
      ensures Entered(old(mapInfo), old(vvNew), id, old(mapInfo)[id], u, nNow, dice, gone, mapInfo, vvNew)
    {
      hide TriedOk, AddrOk, RandomOk, RefOk, RefRangeBut, TriedIds, NewIds, Small, TriedSmall, MakesWay, Kept;
      gone := NOBODY;
      if id in vvNew[u] {
        InBucketCounts(mapInfo, vvNew, u, id);
        Tighten(mapInfo, id);
        KeptSame(mapInfo, id);
        return;
      }
      ghost var m := mapInfo;
      PromiseKeeps(mapInfo, vvNew, id);
      RefChangeKeeps(mapInfo, mapAddr, vRandom, vvTried, triedHash, id, mapInfo[id].nRefCount + 1);
      PromisedRange(mapInfo, id);
      mapInfo := mapInfo[id := mapInfo[id].(nRefCount := mapInfo[id].nRefCount + 1)];
      KeptPromise(m, id);
      gone := MakeRoom(m, id, u, nNow, dice);
      RoomFor(vvNew, u, id);
      EnterKeeps(mapInfo, vvNew, u, id);
      vvNew := vvNew[u := vvNew[u] + {id}];
    }

    /** Shrinks the bucket that a counted entry is about to enter, if it is full. */
    method MakeRoom(ghost m: Infos, id: int, u: int, nNow: int, dice: Dice) returns (ghost gone: int)
      requires Consistent(id, NOBODY) && 0 <= u < |vvNew| && id !in vvNew[u]
      requires id in m && mapInfo == WithRef(m, id, m[id].nRefCount + 1) && Kept(m, mapInfo, id, NOBODY)
      modifies `mapInfo, `mapAddr, `vRandom, `nNew, `vvNew
      ensures Consistent(id, NOBODY) && Kept(m, mapInfo, id, gone) && |vvNew| == old(|vvNew|)
      ensures |vvNew[u]| < NEW_BUCKET_SIZE && id !in vvNew[u] && id in mapInfo && gone != id
      ensures mapInfo[id] == m[id].(nRefCount := m[id].nRefCount + 1, nRandomPos := mapInfo[id].nRandomPos)
      ensures if |old(vvNew[u])| == NEW_BUCKET_SIZE
              then MakesWay(m, old(vvNew[u]), nNow, dice, gone) && vvNew == old(vvNew)[u := old(vvNew[u]) - {gone}]
              else gone == NOBODY && vvNew == old(vvNew)
    {
      hide TriedOk, AddrOk, RandomOk, RefOk, RefRangeBut, TriedIds, NewIds, Small, TriedSmall, MakesWay, Kept;
      gone := NOBODY;
      SmallBucket(vvNew, u, id);
      if |vvNew[u]| == NEW_BUCKET_SIZE {
        ghost var m1 := mapInfo;
        var code;
        code, gone := ShrinkNew(u, nNow, dice, id);
        MakesWayFrame(m1, m, old(vvNew[u]), nNow, dice, gone);
        KeptDropped(m, m1, mapInfo, id, gone);
        RemoveOne(old(vvNew[u]), gone);
      }
    }

    /** The id under which an address is known, if any. */
    method Find(ip: int) returns (found: bool, id: int)
      requires Valid()
      ensures found <==> ip in mapAddr
      ensures found ==> id == mapAddr[ip] && id in mapInfo && mapInfo[id].addr.ip == ip
    {
      found, id := false, 0;
      if ip in mapAddr {
        id := mapAddr[ip];
        found := id in mapInfo;
      }
    }

    /** Replaces the statistics of an entry. */
    method SetStats(id: int, info: Info)
      requires Valid() && id in mapInfo && SameRole(mapInfo[id], info) && info.nRandomPos == mapInfo[id].nRandomPos
      modifies `mapInfo
      ensures Valid() && mapInfo == old(mapInfo)[id := info]
    {
      hide RefOk, TriedOk, AddrOk, RandomOk, TriedIds, NewIds, Small, TriedSmall;
      StatsKeep(mapInfo, vRandom, id, info);
      SameRolesKeep(mapInfo, mapInfo[id := info], mapAddr, vvNew, NOBODY, vvTried, triedHash);
      mapInfo := mapInfo[id := info];
    }

    /** A known address is heard of again: refreshes time and services and decides whether it may
        enter another new bucket. */
    method Refresh(id: int, nServices: set<int>, addrTime: int, nTimePenalty: int, nNow: int, dice: Dice)
      returns (proceed: bool)
      requires Valid() && id in mapInfo
      modifies `mapInfo
      ensures Valid()
      ensures mapInfo == old(mapInfo)[id := Refreshed(old(mapInfo)[id], nServices, addrTime, nTimePenalty, nNow)]
      ensures proceed <==> Spreads(mapInfo[id], addrTime, dice)
      ensures proceed ==> !mapInfo[id].fInTried && mapInfo[id].nRefCount < NEW_BUCKETS_PER_ADDRESS
    {
      var info := mapInfo[id];
      var nUpdateInterval := if nNow - addrTime < 24 * 60 * 60 then 60 * 60 else 24 * 60 * 60;
      if addrTime != 0 && (info.nTime == 0 || info.nTime < addrTime - nUpdateInterval - nTimePenalty) {
        info := info.(nTime := Penalised(addrTime, nTimePenalty));
      }
      info := info.(nServices := info.nServices + nServices);
      SetStats(id, info);
      if addrTime == 0 || (info.nTime != 0 && addrTime <= info.nTime) {
        return false;
      }
      if info.fInTried {
        return false;
      }
      if info.nRefCount == NEW_BUCKETS_PER_ADDRESS {
        return false;
      }
      var nFactor := 1;
      for n := 0 to info.nRefCount
        invariant nFactor == Doubled(n)
      {
        nFactor := nFactor * 2;
      }
      if nFactor > 1 && dice.again % nFactor != 0 {
        return false;
      }
      proceed := true;
    }

    /** Adds an address heard of from `source`. Returns whether it was unknown; then it is known now.
        A known one is refreshed, and may enter another bucket. At most one entry, never a tried one,
        makes way. */
    method Add(
      addr: Service, routable: bool, nServices: set<int>, addrTime: int, source: int, nTimePenalty: int, nNow: int,
      dice: Dice)
      returns (fNew: bool, ghost gone: int)
      requires Valid()
      modifies `nIdCount, `mapInfo, `mapAddr, `vRandom, `nNew, `vvNew
      ensures Valid() && (old(TimesOk(mapInfo)) ==> TimesOk(mapInfo))
      ensures fNew <==> routable && addr.port != 0 && addr.ip !in old(mapAddr)
      ensures !routable || addr.port == 0 ==> mapInfo == old(mapInfo) && vvNew == old(vvNew)
      ensures fNew ==>
                && addr.ip in mapAddr && mapAddr[addr.ip] !in old(mapInfo)
                && Entered(old(mapInfo), old(vvNew), mapAddr[addr.ip],
                           Info(addr, source, nServices, Penalised(addrTime, nTimePenalty), 0, 0, 0, 0, false, 0),
                           newHash(addr, source) % NEW_BUCKET_COUNT, nNow, dice, gone, mapInfo, vvNew)
      ensures routable && addr.port != 0 && !fNew ==>
                && addr.ip in mapAddr && mapAddr[addr.ip] == old(mapAddr)[addr.ip] && mapAddr[addr.ip] in old(mapInfo)
                && var id := mapAddr[addr.ip];
                   var i := Refreshed(old(mapInfo)[id], nServices, addrTime, nTimePenalty, nNow);
                   if Spreads(i, addrTime, dice) then
                     Entered(old(mapInfo), old(vvNew), id, i, newHash(i.addr, source) % NEW_BUCKET_COUNT,
                             nNow, dice, gone, mapInfo, vvNew)
                   else mapInfo == old(mapInfo)[id := i] && vvNew == old(vvNew)
      ensures old(mapInfo.Keys) <= mapInfo.Keys + {gone}
      ensures forall x :: x in old(mapInfo) && x in mapInfo ==>
                mapInfo[x].addr == old(mapInfo)[x].addr && mapInfo[x].fInTried == old(mapInfo)[x].fInTried
      ensures gone in old(mapInfo) ==> !old(mapInfo)[gone].fInTried
      ensures gone != NOBODY ==>
                gone in old(mapInfo) &&
                forall u, x :: 0 <= u < |old(vvNew)| <= |vvNew| && gone in old(vvNew[u]) && gone !in vvNew[u]
                               && x in old(vvNew[u]) && x in old(mapInfo) ==>
                  (|| (&& (old(mapInfo)[gone].nLastTry == 0 || nNow - old(mapInfo)[gone].nLastTry > 60)
                       && !WorthKeeping(old(mapInfo)[gone], nNow))
                   || WorthKeeping(old(mapInfo)[x], nNow))
    {
      hide RefOk, TriedOk, RandomOk, TriedIds, NewIds, Small, TriedSmall, RefRangeBut, Entered, Spreads, WorthKeeping;
      gone := NOBODY;
      if !routable || addr.port == 0 {
        return false, gone;
      }
      var found, id := Find(addr.ip);
      if found {
        var proceed := Refresh(id, nServices, addrTime, nTimePenalty, nNow, dice);
        if !proceed {
          return false, gone;
        }
      } else {
        id := Create(addr, nServices, Penalised(addrTime, nTimePenalty), source);
        fNew := true;
      }
      ghost var m := mapInfo;
      var u := newHash(mapInfo[id].addr, source) % NEW_BUCKET_COUNT;
      LooseToo(mapInfo, id);
      RefNonNegative(mapInfo, vvNew, id);
      BucketsThere(mapInfo, vvNew);
      gone := Reference(id, u, nNow, dice);
      fNew := !found;
      KeptFacts(m, mapInfo, id, gone);
      EnteredFrame(m, old(mapInfo), old(vvNew), id, if found then m[id] else m[id].(nRandomPos := 0), u,
                   nNow, dice, gone, mapInfo, vvNew);
      WhoGoes(old(mapInfo), old(vvNew), id, if found then m[id] else m[id].(nRandomPos := 0), u,
              nNow, dice, gone, mapInfo, vvNew);
      assert mapAddr[mapInfo[id].addr.ip] == id;
    }

    method Attempt(addr: Service, nTime: int)
      requires Valid()
      modifies `mapInfo
      ensures Valid() && mapInfo.Keys == old(mapInfo.Keys)
      ensures nTime >= 0 && old(TimesOk(mapInfo)) ==> TimesOk(mapInfo)
      ensures forall x :: x in mapInfo ==>
                mapInfo[x] == if mapInfo[x].addr == addr
                              then old(mapInfo)[x].(nLastTry := nTime, nAttempts := old(mapInfo)[x].nAttempts + 1)
                              else old(mapInfo)[x]
    {
      hide RefOk, TriedOk, RandomOk, TriedIds, NewIds, Small, TriedSmall, RefRangeBut;
      var found, id := Find(addr.ip);
      if !found || mapInfo[id].addr != addr {
        return;
      }
      SetStats(id, mapInfo[id].(nLastTry := nTime, nAttempts := mapInfo[id].nAttempts + 1));
    }

    method Connected(addr: Service, nTime: int)
      requires Valid()
      modifies `mapInfo
      ensures Valid() && mapInfo.Keys == old(mapInfo.Keys)
      ensures old(TimesOk(mapInfo)) ==> TimesOk(mapInfo)
      ensures forall x :: x in mapInfo ==>
                mapInfo[x] == if mapInfo[x].addr == addr && nTime - old(mapInfo)[x].nTime > 20 * 60
                              then old(mapInfo)[x].(nTime := nTime) else old(mapInfo)[x]
    {
      hide RefOk, TriedOk, RandomOk, TriedIds, NewIds, Small, TriedSmall, RefRangeBut;
      var found, id := Find(addr.ip);
      if !found || mapInfo[id].addr != addr {
        return;
      }
      if nTime - mapInfo[id].nTime > 20 * 60 {
        SetStats(id, mapInfo[id].(nTime := nTime));
      }
    }

    /** Shuffles the front of a full tried bucket and picks a position to replace. */
    method SelectTried(k: int, draws: Draws) returns (nOldestPos: int)
      requires TriedOk(mapInfo, vvTried, triedHash) && 0 <= k < |vvTried| && vvTried[k] != [] && NOBODY !in mapInfo
      modifies `vvTried
      ensures TriedOk(mapInfo, vvTried, triedHash)
      ensures var b := old(vvTried[k]);
              && vvTried == old(vvTried)[k := Shuffled(b, draws, Inspected(b))]
              && 0 <= nOldestPos < |b| && nOldestPos == draws.At(OldestDrawn(mapInfo, b, draws), |b|)
    {
      hide TriedOk, FirstOldest, Shuffled, Swapped;
      ghost var b := vvTried[k];
      var nOldest := -1;
      nOldestPos := -1;
      var i := 0;
      NotDrawn(b, draws);
      while i < 4 && i < |vvTried[k]|
        invariant TriedOk(mapInfo, vvTried, triedHash)
        invariant 0 <= i <= Inspected(b) && vvTried == old(vvTried)[k := Shuffled(b, draws, i)]
        invariant i == 0 ==> nOldest == -1
        invariant i > 0 ==>
                    var o := FirstOldest(mapInfo, vvTried[k], i);
                    nOldest == vvTried[k][o] && nOldest in mapInfo && nOldestPos == draws.At(o, |b|)
      {
        var nPos := draws.At(i, |vvTried[k]|);
        TriedSwapKeeps(mapInfo, vvTried, triedHash, k, nPos, i);
        TriedMember(mapInfo, vvTried, triedHash, k, nPos);
        DrawNext(mapInfo, b, draws, i);
        var nTemp := vvTried[k][nPos];
        vvTried := vvTried[k := Swapped(vvTried[k], nPos, i)];
        if nOldest == -1 || mapInfo[nTemp].nLastSuccess < mapInfo[nOldest].nLastSuccess {
          nOldest, nOldestPos := nTemp, nPos;
        }
        i := i + 1;
      }
    }

    /** Takes an entry out of every new bucket. */
    method LeaveNew(id: int)
      requires RefOk(mapInfo, vvNew, NOBODY) && id in mapInfo && NOBODY !in mapInfo
      modifies `mapInfo, `vvNew
      ensures vvNew == Without(old(vvNew), id) && mapInfo == WithRef(old(mapInfo), id, 0)
    {
      ghost var vv, m := vvNew, mapInfo;
      assert m[id].nRefCount == Count(vv, id);
      hide RefOk, Count, Without;
      CountStart(vv, id);
      for n := 0 to |vvNew|
        invariant |vvNew| == |vv|
        invariant forall b :: 0 <= b < |vv| ==> vvNew[b] == if b < n then vv[b] - {id} else vv[b]
        invariant mapInfo == WithRef(m, id, m[id].nRefCount - Count(vv[..n], id))
      {
        CountStep(vv, n, id);
        if id in vvNew[n] {
          mapInfo := mapInfo[id := mapInfo[id].(nRefCount := mapInfo[id].nRefCount - 1)];
        }
        vvNew := vvNew[n := vvNew[n] - {id}];
      }
      assert vv[..|vv|] == vv;
      assert vvNew == Without(vv, id);
    }

    /** First half of the move to the tried table: the entry is in no bucket, and its old bucket has room. */
    method Detach(id: int, origin: int)
      requires Valid() && 0 <= origin < |vvNew| && id in vvNew[origin]
      modifies `mapInfo, `vvNew
      ensures Consistent(NOBODY, id) && Count(vvNew, id) == 0
      ensures vvNew == Without(old(vvNew), id) && |vvNew[origin]| < NEW_BUCKET_SIZE
      ensures id in old(mapInfo) && !old(mapInfo)[id].fInTried && mapInfo == WithRef(old(mapInfo), id, 0)
    {
      hide RefOk, TriedOk, AddrOk, RandomOk, TriedIds, NewIds, Small, TriedSmall, RefRangeBut, Count;
      InBucket(mapInfo, vvNew, NOBODY, origin, id);
      WithoutKeeps(mapInfo, vvNew, id);
      RefChangeKeeps(mapInfo, mapAddr, vRandom, vvTried, triedHash, id, 0);
      LooseRange(mapInfo, id);
      OriginHasRoom(vvNew, origin, id);
      LeaveNew(id);
    }

    /** Moves a new entry from all its new buckets into the tried table. Only if its tried bucket is full,
        another entry goes back to a new bucket, which always has room for it. */
    method MakeTried(id: int, origin: int, draws: Draws) returns (ghost evicted: int)
      requires Valid() && 0 <= origin < |vvNew| && id in vvNew[origin]
      modifies `mapInfo, `vvTried, `nTried, `nNew, `vvNew
      ensures Valid() && mapInfo.Keys == old(mapInfo.Keys)
      ensures id in mapInfo && mapInfo[id] == old(mapInfo)[id].(fInTried := true, nRefCount := 0)
      ensures evicted != id
      ensures forall x :: x in mapInfo && x != id && x != evicted ==> mapInfo[x] == old(mapInfo)[x]
      ensures evicted in mapInfo ==>
                && old(mapInfo)[evicted].fInTried
                && mapInfo[evicted] == old(mapInfo)[evicted].(fInTried := false, nRefCount := 1)
      ensures var k, tt, vv := TriedBucket(triedHash, old(mapInfo)[id].addr), old(vvTried), Without(old(vvNew), id);
              && 0 <= k < |tt|
              && if |tt[k]| < TRIED_BUCKET_SIZE
                 then evicted == NOBODY && vvNew == vv && vvTried == tt[k := tt[k] + [id]]
                 else Exchanged(newHash, old(mapInfo), vv, tt, id, k, origin, draws, evicted, vvNew, vvTried)
    {
      hide RefOk, TriedOk, AddrOk, RandomOk, TriedIds, NewIds, Small, TriedSmall, RefRangeBut, Count, Exchanged;
      hide Without;
      evicted := NOBODY;
      ghost var m, tt := mapInfo, vvTried;
      Detach(id, origin);
      ghost var vv := vvNew;
      var k := TriedBucket(triedHash, mapInfo[id].addr);
      TriedThere(mapInfo, vvTried, triedHash, k);
      if |vvTried[k]| < TRIED_BUCKET_SIZE {
        JoinKeeps(mapInfo, mapAddr, vRandom, vvNew, vvTried, triedHash, id);
        TriedRoom(vvTried, k, vvTried[k] + [id]);
        vvTried := vvTried[k := vvTried[k] + [id]];
        nTried := nTried + 1;
        nNew := nNew - 1;
        mapInfo := mapInfo[id := mapInfo[id].(fInTried := true)];
        return;
      }
      evicted := Evict(id, origin, k, draws);
      ExchangedFrame(newHash, m, vv, tt, id, k, origin, draws, evicted, vvNew, vvTried);
    }

    /** Exchanges a tried entry of a full bucket for `id`. */
    method Evict(id: int, origin: int, k: int, draws: Draws) returns (ghost evicted: int)
      requires Consistent(NOBODY, id) && id in mapInfo && !mapInfo[id].fInTried && mapInfo[id].nRefCount == 0
      requires 0 <= origin < |vvNew| && |vvNew[origin]| < NEW_BUCKET_SIZE
      requires Count(vvNew, id) == 0
      requires k == TriedBucket(triedHash, mapInfo[id].addr) && 0 <= k < |vvTried| && vvTried[k] != []
      modifies `mapInfo, `vvTried, `vvNew
      ensures Valid() && mapInfo.Keys == old(mapInfo.Keys)
      ensures mapInfo[id] == old(mapInfo)[id].(fInTried := true)
      ensures evicted != id && evicted in mapInfo && old(mapInfo)[evicted].fInTried
      ensures Exchanged(newHash, old(mapInfo), old(vvNew), old(vvTried), id, k, origin, draws, evicted, vvNew, vvTried)
      ensures mapInfo[evicted] == old(mapInfo)[evicted].(fInTried := false, nRefCount := 1)
      ensures forall x :: x in mapInfo && x != id && x != evicted ==> mapInfo[x] == old(mapInfo)[x]
    {
      hide RefOk, TriedOk, AddrOk, RandomOk, TriedIds, NewIds, Small, RefRangeBut;
      var nPos := SelectTried(k, draws);
      var out := vvTried[k][nPos];
      evicted := out;
      TriedMember(mapInfo, vvTried, triedHash, k, nPos);
      BucketsThere(mapInfo, vvNew);
      var w := Refuge(newHash, mapInfo[out], vvNew, origin);
      EvictKeeps(mapInfo, mapAddr, vRandom, vvNew, vvTried, triedHash, id, nPos, w);
      RoomFor(vvNew, w, out);
      mapInfo := mapInfo[out := mapInfo[out].(fInTried := false, nRefCount := 1)];
      vvNew := vvNew[w := vvNew[w] + {out}];
      vvTried := vvTried[k := vvTried[k][nPos := id]];
      mapInfo := mapInfo[id := mapInfo[id].(fInTried := true)];
    }

    /** A new bucket that holds the entry, searched from a random one on; there always is one. */
    method BucketOf(id: int) returns (b: int)
      requires Valid() && id in mapInfo && !mapInfo[id].fInTried
      ensures 0 <= b < |vvNew| && id in vvNew[b]
    {
      hide TriedOk, AddrOk, RandomOk, TriedIds, NewIds, Small, TriedSmall;
      var nRnd := RandInt(NEW_BUCKET_COUNT);
      ghost var last := SomeBucket(vvNew, id, nRnd);
      var n := 0;
      while id !in vvNew[Around(n, nRnd)]
        invariant 0 <= n <= last
        decreases last - n
      {
        n := n + 1;
      }
      b := Around(n, nRnd);
    }

    /** Marks an address as reachable. A known address with the same port ends up tried, with fresh
        statistics; nothing is ever deleted, and at most one other entry goes back from tried to new.
        The times stay sane exactly when the given time is positive. */
    method Good(addr: Service, nTime: int, draws: Draws) returns (ghost evicted: int)
      requires Valid()
      modifies `mapInfo, `vvTried, `nTried, `nNew, `vvNew
      ensures Valid() && mapInfo.Keys == old(mapInfo.Keys)
      ensures !Knows(addr) ==> mapInfo == old(mapInfo)
      ensures Knows(addr) ==>
                var id := mapAddr[addr.ip];
                && id in mapInfo && mapInfo[id].fInTried && evicted != id
                && mapInfo[id].(nRefCount := 0, fInTried := true) == old(mapInfo)[id].(
                     nLastSuccess := nTime, nLastTry := nTime, nTime := nTime, nAttempts := 0,
                     nRefCount := 0, fInTried := true)
                && (forall x :: x in mapInfo && x != id && x != evicted ==> mapInfo[x] == old(mapInfo)[x])
                && (evicted in mapInfo ==>
                      && old(mapInfo)[evicted].fInTried
                      && mapInfo[evicted] == old(mapInfo)[evicted].(fInTried := false, nRefCount := 1))
      ensures Knows(addr) && old(TimesOk(mapInfo)) ==> (TimesOk(mapInfo) <==> nTime > 0)
    {
      hide RefOk, TriedOk, RandomOk, AddrOk, TriedIds, NewIds, Small, TriedSmall, RefRangeBut, Exchanged, Without;
      hide TimesOk;
      ghost var m := mapInfo;
      evicted := NOBODY;
      var found, id := Find(addr.ip);
      if !found || mapInfo[id].addr != addr {
        return;
      }
      SetStats(id, mapInfo[id].(nLastSuccess := nTime, nLastTry := nTime, nTime := nTime, nAttempts := 0));
      if mapInfo[id].fInTried {
        TriedHasNoRefs(mapInfo, id);
        GoodTimes(m, mapInfo, id, evicted, nTime);
        return;
      }
      var b := BucketOf(id);
      evicted := MakeTried(id, b, draws);
      GoodTimes(m, mapInfo, id, evicted, nTime);
    }

    /** The address is known, with this very port. */
    predicate Knows(addr: Service)
      reads this
    {
      addr.ip in mapAddr && mapAddr[addr.ip] in mapInfo && mapInfo[mapAddr[addr.ip]].addr == addr
    }

    /** A random selection of at most 23 percent of the known addresses, and at most 2500, without repetition. */
    method GetAddr() returns (addrs: seq<Service>)
      requires Valid()
      modifies `mapInfo, `vRandom
      ensures Valid() && Moved(old(mapInfo), mapInfo)
      ensures |addrs| == var n := 23 * |mapInfo| / 100; if n > 2500 then 2500 else n
      ensures forall i :: 0 <= i < |addrs| ==> Knows(addrs[i])
      ensures forall i, j :: 0 <= i < j < |addrs| ==> addrs[i].ip != addrs[j].ip
    {
      hide RefOk, TriedOk, TriedIds, NewIds, Small, TriedSmall, RefRangeBut, AddrOk, RandomOk, Moved;
      RandomCounts(mapInfo, vRandom);
      MovedSelf(mapInfo);
      ghost var m := mapInfo;
      var nNodes := 23 * |vRandom| / 100;
      if nNodes > 2500 {
        nNodes := 2500;
      }
      addrs := [];
      for n := 0 to nNodes
        invariant Valid() && Moved(m, mapInfo) && |vRandom| == old(|vRandom|)
        invariant |addrs| == n
        invariant forall i :: 0 <= i < n ==> vRandom[i] in m && addrs[i] == m[vRandom[i]].addr
      {
        var r := RandInt(|vRandom| - n);
        ShuffleStep(n, r + n);
        RandomHas(mapInfo, vRandom, n);
        MovedAddr(m, mapInfo, vRandom[n]);
        addrs := addrs + [mapInfo[vRandom[n]].addr];
      }
      SelectionDistinct(m, mapInfo, mapAddr, vRandom, addrs);
      RandomCounts(mapInfo, vRandom);
    }

    method ShuffleStep(i: int, j: int)
      requires Valid() && 0 <= i < |vRandom| && 0 <= j < |vRandom|
      modifies `mapInfo, `vRandom
      ensures Valid() && vRandom == Swapped(old(vRandom), i, j)
      ensures forall m :: Moved(m, old(mapInfo)) ==> Moved(m, mapInfo)
    {
      hide RefOk, TriedOk, TriedIds, NewIds, Small, TriedSmall, RefRangeBut, AddrOk, RandomOk, Moved;
      ghost var m := mapInfo;
      SwapRandom(i, j);
      MovedIsSameRoles(m, mapInfo);
      MovedKeeps(m, mapInfo, NOBODY);
      MovedBelow(m, mapInfo, nIdCount);
      SameRolesKeep(m, mapInfo, mapAddr, vvNew, NOBODY, vvTried, triedHash);
      forall a | Moved(a, m) ensures Moved(a, mapInfo) {
        MovedTrans(a, m, mapInfo);
      }
    }

    /** There are 64 tried and 256 new buckets of at most 64 entries, and no entry is in more than four. */
    lemma BucketSizes()
      requires Valid()
      ensures |vvTried| == 64 && forall b :: 0 <= b < 64 ==> |vvTried[b]| <= 64
      ensures |vvNew| == 256 && forall b :: 0 <= b < 256 ==> |vvNew[b]| <= 64
      ensures forall id :: id in mapInfo && !mapInfo[id].fInTried ==> 1 <= mapInfo[id].nRefCount <= 4
    {
      hide AddrOk, RandomOk, Count;
    }

    /** No more than 64 * 64 tried and 256 * 64 new entries ever exist. */
    lemma AtMost20480Entries()
      requires Valid()
      ensures |mapInfo| == |vRandom| == nTried + nNew
      ensures nTried <= TRIED_BUCKET_COUNT * TRIED_BUCKET_SIZE && nNew <= NEW_BUCKET_COUNT * NEW_BUCKET_SIZE
      ensures |mapInfo| <= 20480
    {
      RandomCounts(mapInfo, vRandom);
      TriedBound(mapInfo, vvTried, triedHash);
      NewBound(mapInfo, vvNew);
    }
  }

  /** Of the times, only those of the entry marked change. */
  lemma GoodTimes(m: Infos, m': Infos, id: int, evicted: int, nTime: int)
    requires m'.Keys == m.Keys && id in m && evicted != id
    requires m'[id].nLastTry == nTime && m'[id].nLastSuccess == nTime && m'[id].fInTried
    requires forall x :: x in m' && x != id && x != evicted ==> m'[x] == m[x]
    requires evicted in m ==> m'[evicted] == m[evicted].(fInTried := false, nRefCount := 1)
    ensures TimesOk(m) ==> (TimesOk(m') <==> nTime > 0)
  {
  }

  lemma RandomAt(m: Infos, v: seq<int>, id: int)
    requires RandomOk(m, v) && id in m
    ensures 0 <= m[id].nRandomPos < |v| && v[m[id].nRandomPos] == id
  {
  }

  lemma RandomLast(m: Infos, v: seq<int>, id: int)
    requires RandomOk(m, v) && |v| > 0 && v[|v| - 1] == id
    ensures id in m && m[id].nRandomPos == |v| - 1
  {
  }

  lemma EraseRange(m: Infos, id: int)
    requires RefRangeBut(m, id)
    ensures RefRangeBut(m - {id}, NOBODY)
  {
  }

  /** Compared with `m`, entry `id` lost one reference or went away; no other entry changed its role or statistics. */
  ghost predicate OnlyDropped(m: Infos, m': Infos, id: int) {
    && m'.Keys <= m.Keys && m.Keys <= m'.Keys + {id}
    && id in m && !m[id].fInTried
    && (forall x :: x in m' && x != id ==> m'[x] == m[x].(nRandomPos := m'[x].nRandomPos))
    && (id in m' ==> m'[id] == m[id].(nRandomPos := m'[id].nRandomPos, nRefCount := m[id].nRefCount - 1))
  }

  lemma InBucket(m: Infos, vv: Buckets, pending: int, b: nat, id: int)
    requires RefOk(m, vv, pending) && RefRangeBut(m, NOBODY) && b < |vv| && id in vv[b] && NOBODY !in m
    ensures id in m && !m[id].fInTried && 1 <= m[id].nRefCount <= NEW_BUCKETS_PER_ADDRESS
  {
  }

  lemma DroppedRange(m: Infos, vv: Buckets, pending: int, b: nat, id: int)
    requires RefOk(m, vv, pending) && RefRangeBut(m, NOBODY) && b < |vv| && id in vv[b] && id != pending && NOBODY !in m
    ensures id in m
    ensures var m' := WithRef(m, id, m[id].nRefCount - 1);
            && RefRangeBut(m', id)
            && (m'[id].nRefCount > 0 ==> RefRangeBut(m', NOBODY))
            && m'[id].nRefCount == Count(vv[b := vv[b] - {id}], id)
  {
    DropKeeps(m, vv, pending, b, id);
  }

  lemma SmallerBucket(vv: Buckets, b: nat, id: int)
    requires Small(vv) && b < |vv|
    ensures Small(vv[b := vv[b] - {id}])
  {
    if id in vv[b] {
      assert vv[b] == (vv[b] - {id}) + {id};
    } else {
      assert vv[b] - {id} == vv[b];
    }
  }

  /** Compared with `m`: entry `id` is still there, at most entry `gone` is missing and was not tried,
      and all entries but those two keep role and statistics. */
  ghost predicate Kept(m: Infos, m': Infos, id: int, gone: int) {
    && m.Keys <= m'.Keys + {gone} && m'.Keys <= m.Keys
    && (gone in m ==> !m[gone].fInTried)
    && (forall x :: x in m' && x != id && x != gone ==> m'[x] == m[x].(nRandomPos := m'[x].nRandomPos))
    && (forall x :: x in m' ==> m'[x] == m[x].(nRandomPos := m'[x].nRandomPos, nRefCount := m'[x].nRefCount))
  }

  lemma KeptSame(m: Infos, id: int)
    requires NOBODY !in m
    ensures Kept(m, m, id, NOBODY)
  {
  }

  lemma KeptPromise(m: Infos, id: int)
    requires id in m && NOBODY !in m
    ensures Kept(m, WithRef(m, id, m[id].nRefCount + 1), id, NOBODY)
  {
  }

  lemma KeptDropped(m: Infos, m1: Infos, m2: Infos, id: int, gone: int)
    requires id in m && m1 == WithRef(m, id, m[id].nRefCount + 1) && OnlyDropped(m1, m2, gone) && gone != id
    ensures Kept(m, m2, id, gone) && id in m2
    ensures m2[id] == m[id].(nRefCount := m[id].nRefCount + 1, nRandomPos := m2[id].nRandomPos)
  {
  }

  lemma InBucketCounts(m: Infos, vv: Buckets, b: nat, id: int)
    requires RefOk(m, vv, NOBODY) && id in m && b < |vv| && id in vv[b] && NOBODY !in m
    ensures m[id].nRefCount >= 1
  {
    CountZero(vv, id);
  }

  lemma Tighten(m: Infos, id: int)
    requires RefRangeBut(m, id) && id in m && !m[id].fInTried && 1 <= m[id].nRefCount <= NEW_BUCKETS_PER_ADDRESS
    ensures RefRangeBut(m, NOBODY)
  {
  }

  lemma PromisedRange(m: Infos, id: int)
    requires RefRangeBut(m, id) && id in m && !m[id].fInTried && 0 <= m[id].nRefCount < NEW_BUCKETS_PER_ADDRESS
    ensures RefRangeBut(WithRef(m, id, m[id].nRefCount + 1), NOBODY)
  {
  }

  lemma NextBelow(m: Infos, n: int, info: Info)
    requires IdsBelow(m, n)
    ensures n !in m && n != NOBODY && NOBODY !in m && IdsBelow(m[n := info], n + 1)
  {
  }

  lemma NewRange(m: Infos, id: int, info: Info)
    requires RefRangeBut(m, NOBODY) && NOBODY !in m
    ensures RefRangeBut(m[id := info], id)
  {
  }

  lemma RemoveOne(s: set<int>, x: int)
    requires x in s
    ensures |s - {x}| == |s| - 1
  {
  }

  lemma SmallBucket(vv: Buckets, b: nat, id: int)
    requires Small(vv) && b < |vv|
    ensures |vv[b]| <= NEW_BUCKET_SIZE
  {
  }

  lemma RoomFor(vv: Buckets, b: nat, id: int)
    requires Small(vv) && b < |vv| && |vv[b]| < NEW_BUCKET_SIZE
    ensures Small(vv[b := vv[b] + {id}])
  {
  }

  lemma LooseToo(m: Infos, id: int)
    requires NOBODY !in m
    ensures RefRangeBut(m, NOBODY) ==> RefRangeBut(m, id)
  {
  }

  lemma RefNonNegative(m: Infos, vv: Buckets, id: int)
    requires RefOk(m, vv, NOBODY) && id in m
    ensures m[id].nRefCount >= 0
  {
  }

  lemma BucketsThere(m: Infos, vv: Buckets)
    requires RefOk(m, vv, NOBODY)
    ensures |vv| == NEW_BUCKET_COUNT
  {
  }

  lemma KeptFacts(m: Infos, m': Infos, id: int, gone: int)
    requires Kept(m, m', id, gone)
    ensures forall x :: x in m && x in m' ==> m'[x].addr == m[x].addr && m'[x].fInTried == m[x].fInTried
    ensures TimesOk(m) ==> TimesOk(m')
  {
  }

  lemma TriedMember(m: Infos, tt: seq<seq<int>>, hash: Service -> int, k: int, n: int)
    requires TriedOk(m, tt, hash) && 0 <= k < |tt| && 0 <= n < |tt[k]|
    ensures tt[k][n] in m && m[tt[k][n]].fInTried
  {
    var id := tt[k][n];
    assert id in tt[k];
  }

  lemma CountStart(vv: Buckets, id: int)
    ensures Count(vv[..0], id) == 0
  {
  }

  lemma CountStep(vv: Buckets, n: nat, id: int)
    requires n < |vv|
    ensures Count(vv[..n + 1], id) == Count(vv[..n], id) + Bit(id in vv[n])
  {
    assert vv[..n + 1][..n] == vv[..n];
  }

  /** Everything that holds after an entry has joined a tried bucket with room. */
  lemma JoinKeeps(
    m: Infos, ma: map<int, int>, v: seq<int>, vv: Buckets, tt: seq<seq<int>>, hash: Service -> int, id: int)
    requires AddrOk(m, ma) && RandomOk(m, v) && RefOk(m, vv, NOBODY) && TriedOk(m, tt, hash) && RefRangeBut(m, id)
    requires id in m && !m[id].fInTried && m[id].nRefCount == 0 && Count(vv, id) == 0
    ensures var m' := m[id := m[id].(fInTried := true)]; var k := TriedBucket(hash, m[id].addr);
            && AddrOk(m', ma) && RandomOk(m', v) && RefOk(m', vv, NOBODY) && RefRangeBut(m', NOBODY)
            && TriedOk(m', tt[k := tt[k] + [id]], hash)
            && |TriedIds(m')| == |TriedIds(m)| + 1 && |NewIds(m')| == |NewIds(m)| - 1
  {
    hide RefOk, TriedOk, AddrOk, RandomOk, TriedIds, NewIds, RefRangeBut;
    JoinTried(m, vv, tt, hash, id);
    TriedChangeKeeps(m, ma, v, id, true);
    TriedRange(m, id);
  }

  /** Everything that holds after `id` has taken the place of a tried entry. */
  lemma EvictKeeps(m: Infos, ma: map<int, int>, v: seq<int>, vv: Buckets, tt: seq<seq<int>>, hash: Service -> int,
                   id: int, n: int, w: nat)
    requires AddrOk(m, ma) && RandomOk(m, v) && RefOk(m, vv, NOBODY) && TriedOk(m, tt, hash) && RefRangeBut(m, id)
    requires id in m && !m[id].fInTried && m[id].nRefCount == 0 && Count(vv, id) == 0 && NOBODY !in m && w < |vv|
    requires 0 <= n < |tt[TriedBucket(hash, m[id].addr)]|
    ensures var k := TriedBucket(hash, m[id].addr); var out := tt[k][n];
            && out in m && out != id && out !in vv[w]
            && var m' := m[out := m[out].(fInTried := false, nRefCount := 1)][id := m[id].(fInTried := true)];
            && AddrOk(m', ma) && RandomOk(m', v) && RefRangeBut(m', NOBODY)
            && RefOk(m', vv[w := vv[w] + {out}], NOBODY)
            && TriedOk(m', tt[k := tt[k][n := id]], hash)
            && |TriedIds(m')| == |TriedIds(m)| && |NewIds(m')| == |NewIds(m)|
  {
    hide RefOk, TriedOk, AddrOk, RandomOk, TriedIds, NewIds, RefRangeBut, Count;
    TriedThere(m, tt, hash, 0);
    var out := tt[TriedBucket(hash, m[id].addr)][n];
    TriedMember(m, tt, hash, TriedBucket(hash, m[id].addr), n);
    RefChangeKeeps(m, ma, v, tt, hash, out, 1);
    var m1 := WithRef(m, out, 1);
    ReplaceTried(m1, tt, hash, id, n);
    TriedChangeKeeps(m1, ma, v, out, false);
    TriedChangeKeeps(WithTried(m1, out, false), ma, v, id, true);
    EvictRange(m, out, id);
    EvictRefs(m, vv, out, id, w);
    EvictIds(m, WithTried(WithTried(m1, out, false), id, true), out, id);
    assert m[out := m[out].(fInTried := false, nRefCount := 1)][id := m[id].(fInTried := true)]
        == WithTried(WithTried(m1, out, false), id, true);
  }

  lemma TriedThere(m: Infos, tt: seq<seq<int>>, hash: Service -> int, k: int)
    requires TriedOk(m, tt, hash)
    ensures |tt| == TRIED_BUCKET_COUNT
  {
  }

  lemma LooseRange(m: Infos, id: int)
    requires RefRangeBut(m, NOBODY) && id in m && NOBODY !in m
    ensures RefRangeBut(WithRef(m, id, 0), id)
  {
  }

  lemma TriedRange(m: Infos, id: int)
    requires RefRangeBut(m, id) && id in m && m[id].nRefCount == 0
    ensures RefRangeBut(WithTried(m, id, true), NOBODY)
  {
  }

  lemma EvictRange(m: Infos, out: int, id: int)
    requires RefRangeBut(m, id) && id in m && out in m && id != out && m[id].nRefCount == 0
    ensures RefRangeBut(WithTried(WithTried(WithRef(m, out, 1), out, false), id, true), NOBODY)
  {
  }

  lemma OriginHasRoom(vv: Buckets, b: nat, id: int)
    requires Small(vv) && b < |vv| && id in vv[b]
    ensures |Without(vv, id)[b]| < NEW_BUCKET_SIZE
  {
    assert vv[b] == (vv[b] - {id}) + {id};
  }

  lemma TriedRoom(tt: seq<seq<int>>, k: int, s: seq<int>)
    requires TriedSmall(tt) && 0 <= k < |tt| && |s| <= TRIED_BUCKET_SIZE
    ensures TriedSmall(tt[k := s])
  {
  }

  lemma TriedHasNoRefs(m: Infos, id: int)
    requires RefRangeBut(m, NOBODY) && id in m && m[id].fInTried && NOBODY !in m
    ensures m[id].nRefCount == 0
  {
  }

  function Around(n: int, start: int): (b: int)
    ensures 0 <= b < NEW_BUCKET_COUNT
  {
    (n + start) % NEW_BUCKET_COUNT
  }

  lemma SomeBucket(vv: Buckets, id: int, start: int) returns (n: int)
    requires |vv| == NEW_BUCKET_COUNT && Count(vv, id) >= 1
    ensures n >= 0 && id in vv[Around(n, start)]
  {
    CountZero(vv, id);
    var b :| 0 <= b < |vv| && id in vv[b];
    n := (b - start) % NEW_BUCKET_COUNT;
  }

  lemma RandomHas(m: Infos, v: seq<int>, k: int)
    requires RandomOk(m, v) && 0 <= k < |v|
    ensures v[k] in m
  {
  }

  lemma MovedAddr(m: Infos, m': Infos, id: int)
    requires Moved(m, m') && id in m'
    ensures id in m && m'[id].addr == m[id].addr
  {
    assert id in m.Keys;
    assert m'[id] == m[id].(nRandomPos := m'[id].nRandomPos);
  }

  lemma MovedBelow(m: Infos, m': Infos, n: int)
    requires Moved(m, m') && IdsBelow(m, n)
    ensures IdsBelow(m', n)
  {
    forall id | id in m' ensures 0 <= id < n {
      assert id in m'.Keys;
    }
  }

  lemma SelectionDistinct(m: Infos, m': Infos, ma: map<int, int>, v: seq<int>, addrs: seq<Service>)
    requires Moved(m, m') && AddrOk(m', ma) && RandomOk(m', v) && |addrs| <= |v|
    requires forall i :: 0 <= i < |addrs| ==> v[i] in m && addrs[i] == m[v[i]].addr
    ensures forall i :: 0 <= i < |addrs| ==>
            addrs[i].ip in ma && ma[addrs[i].ip] == v[i] && v[i] in m' && m'[v[i]].addr == addrs[i]
    ensures forall i, j :: 0 <= i < j < |addrs| ==> addrs[i].ip != addrs[j].ip
  {
    forall i | 0 <= i < |addrs|
      ensures addrs[i].ip in ma && ma[addrs[i].ip] == v[i] && v[i] in m' && m'[v[i]].addr == addrs[i]
    {
      MovedAddr(m, m', v[i]);
    }
    forall i, j | 0 <= i < j < |addrs| ensures addrs[i].ip != addrs[j].ip {
      assert m'[v[i]].nRandomPos == i && m'[v[j]].nRandomPos == j;
    }
  }

  lemma MovedSelf(m: Infos)
    ensures Moved(m, m)
  {
  }

  lemma MovedTrans(a: Infos, b: Infos, c: Infos)
    requires Moved(a, b) && Moved(b, c)
    ensures Moved(a, c)
  {
    forall id | id in a.Keys ensures c[id] == a[id].(nRandomPos := c[id].nRandomPos) {
      assert id in b.Keys && b[id] == a[id].(nRandomPos := b[id].nRandomPos);
    }
  }

  function Elements(s: seq<int>): set<int> {
    set k | 0 <= k < |s| :: s[k]
  }

  function TriedUnion(tt: seq<seq<int>>): set<int> {
    if tt == [] then {} else TriedUnion(tt[..|tt| - 1]) + Elements(tt[|tt| - 1])
  }

  function NewUnion(vv: Buckets): set<int> {
    if vv == [] then {} else NewUnion(vv[..|vv| - 1]) + vv[|vv| - 1]
  }

  lemma {:induction false} ElementsSize(s: seq<int>)
    ensures |Elements(s)| <= |s|
  {
    if s != [] {
      var n := |s| - 1;
      ElementsSize(s[..n]);
      assert Elements(s) == Elements(s[..n]) + {s[n]};
    }
  }

  lemma {:induction false} TriedUnionSize(tt: seq<seq<int>>)
    requires TriedSmall(tt)
    ensures |TriedUnion(tt)| <= TRIED_BUCKET_SIZE * |tt|
    ensures forall b, x :: 0 <= b < |tt| && x in tt[b] ==> x in TriedUnion(tt)
  {
    if tt != [] {
      var n := |tt| - 1;
      TriedUnionSize(tt[..n]);
      ElementsSize(tt[n]);
      forall b, x | 0 <= b < |tt| && x in tt[b] ensures x in TriedUnion(tt) {
        assert b < n ==> tt[..n][b] == tt[b];
        if b == n {
          var k :| 0 <= k < |tt[n]| && tt[n][k] == x;
          assert x in Elements(tt[n]);
        }
      }
    }
  }

  lemma {:induction false} NewUnionSize(vv: Buckets)
    requires Small(vv)
    ensures |NewUnion(vv)| <= NEW_BUCKET_SIZE * |vv|
    ensures forall b, x :: 0 <= b < |vv| && x in vv[b] ==> x in NewUnion(vv)
  {
    if vv != [] {
      var n := |vv| - 1;
      NewUnionSize(vv[..n]);
      forall b, x | 0 <= b < |vv| && x in vv[b] ensures x in NewUnion(vv) {
        assert b < n ==> vv[..n][b] == vv[b];
      }
    }
  }

  lemma TriedBound(m: Infos, tt: seq<seq<int>>, hash: Service -> int)
    requires TriedOk(m, tt, hash) && TriedSmall(tt)
    ensures |TriedIds(m)| <= TRIED_BUCKET_COUNT * TRIED_BUCKET_SIZE
  {
    TriedUnionSize(tt);
    forall id | id in TriedIds(m) ensures id in TriedUnion(tt) {
      assert id in tt[TriedBucket(hash, m[id].addr)];
    }
    SubsetSize(TriedIds(m), TriedUnion(tt));
  }

  lemma NewBound(m: Infos, vv: Buckets)
    requires RefOk(m, vv, NOBODY) && RefRangeBut(m, NOBODY) && Small(vv) && NOBODY !in m
    ensures |NewIds(m)| <= NEW_BUCKET_COUNT * NEW_BUCKET_SIZE
  {
    NewUnionSize(vv);
    forall id | id in NewIds(m) ensures id in NewUnion(vv) {
      CountZero(vv, id);
    }
    SubsetSize(NewIds(m), NewUnion(vv));
  }
}
