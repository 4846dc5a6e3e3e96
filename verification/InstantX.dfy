/** Transaction locks: votes of floating cities are collected per transaction, and a complete lock
    claims the transaction's inputs. */
module InstantX {
  import opened Ledger
  import opened Ranking
  import Digits
  import Ordered

  const INSTANTX_SIGNATURES_REQUIRED := 2
  const INSTANTX_SIGNATURES_TOTAL := 4
  const TWO_256: int := 0x1_0000000000000000_0000000000000000_0000000000000000_0000000000000000

  datatype Vote = Vote(vin: TxIn, txHash: Txid, nBlockHeight: int, signature: seq<int>)

  datatype Lock = Lock(txHash: Txid, nBlockHeight: int, votes: seq<Vote>, nExpiration: int, nTimeout: int)

  type Locks = map<Txid, Lock>

  /** The city's outpoint and the transaction hash, added up modulo 2^256. */
  function VoteHash(v: Vote): int {
    (v.vin.prevout.hash + v.vin.prevout.n + v.txHash) % TWO_256
  }

  /** The sum of the three 256-bit numbers, less the carry. */
  lemma VoteHashIs(v: Vote)
    ensures 0 <= VoteHash(v) < Digits.Power(0x1_0000_0000, 8)
    ensures exists k ::
              VoteHash(v) == v.vin.prevout.hash + v.vin.prevout.n + v.txHash - Digits.Power(0x1_0000_0000, 8) * k
  {
    WordsOf256();
    var sum := v.vin.prevout.hash + v.vin.prevout.n + v.txHash;
    assert VoteHash(v) == sum - TWO_256 * (sum / TWO_256);
  }

  lemma WordsOf256()
    ensures TWO_256 == Digits.Power(0x1_0000_0000, 8)
  {
    assert Digits.Power(0x1_0000_0000, 2) == 0x1_0000000000000000;
    assert Digits.Power(0x1_0000_0000, 4) == 0x1_0000000000000000_0000000000000000;
    assert Digits.Power(0x1_0000_0000, 6) == 0x1_0000000000000000_0000000000000000_0000000000000000;
  }

  predicate InTop(reg: Registry, v: Vote) {
    1 <= Rank(reg, v.vin, v.nBlockHeight, MIN_INSTANTX_PROTO_VERSION) <= INSTANTX_SIGNATURES_TOTAL
  }

  // ----- Counting ------------------------------------------------------------------------------

  function CountAt(votes: seq<Vote>, h: int): nat {
    if votes == [] then 0
    else CountAt(votes[..|votes| - 1], h) + if votes[|votes| - 1].nBlockHeight == h then 1 else 0
  }

  method CountSignatures(lock: Lock) returns (n: int)
    ensures n == if lock.nBlockHeight == 0 then -1 else CountAt(lock.votes, lock.nBlockHeight)
  {
    if lock.nBlockHeight == 0 {
      return -1;
    }
    n := 0;
    for i := 0 to |lock.votes|
      invariant n == CountAt(lock.votes[..i], lock.nBlockHeight)
    {
      assert lock.votes[..i + 1][..i] == lock.votes[..i];
      if lock.votes[i].nBlockHeight == lock.nBlockHeight {
        n := n + 1;
      }
    }
    assert lock.votes[..|lock.votes|] == lock.votes;
  }

  function Complete(lock: Lock): bool {
    lock.nBlockHeight != 0 && CountAt(lock.votes, lock.nBlockHeight) >= INSTANTX_SIGNATURES_REQUIRED
  }

  /** The places of the votes at a height. */
  ghost function PlacesAt(votes: seq<Vote>, h: int): set<nat> {
    set i: nat | i < |votes| && votes[i].nBlockHeight == h
  }

  lemma {:induction false} CountIsPlaces(votes: seq<Vote>, h: int)
    ensures CountAt(votes, h) == |PlacesAt(votes, h)|
  {
    if votes == [] {
      assert PlacesAt(votes, h) == {};
    } else {
      var n := |votes| - 1;
      CountIsPlaces(votes[..n], h);
      assert PlacesAt(votes, h) == PlacesAt(votes[..n], h) + if votes[n].nBlockHeight == h then {n} else {};
    }
  }

  /** A lock is complete exactly when it has a height and at least two votes at that height. */
  lemma CompleteIff(lock: Lock)
    ensures Complete(lock) <==>
            lock.nBlockHeight != 0 && exists i: nat, j: nat ::
              i < j < |lock.votes| && lock.votes[i].nBlockHeight == lock.votes[j].nBlockHeight == lock.nBlockHeight
  {
    var places := PlacesAt(lock.votes, lock.nBlockHeight);
    CountIsPlaces(lock.votes, lock.nBlockHeight);
    if |places| >= 2 {
      var i :| i in places;
      assert |places - {i}| >= 1;
      var j :| j in places - {i};
      var a, b := if i < j then i else j, if i < j then j else i;
      assert a < b < |lock.votes|;
      assert lock.votes[a].nBlockHeight == lock.votes[b].nBlockHeight == lock.nBlockHeight;
    }
    if i: nat, j: nat :|
      i < j < |lock.votes| && lock.votes[i].nBlockHeight == lock.votes[j].nBlockHeight == lock.nBlockHeight
    {
      Ordered.SubsetSize({i, j}, places);
    }
  }

  /** The votes of a lock come from pairwise different cities, each among the first four at the
      height its vote claims. */
  ghost predicate Sound(reg: Registry, votes: seq<Vote>) {
    && (forall i :: 0 <= i < |votes| ==> InTop(reg, votes[i]))
    && (forall i, j :: 0 <= i < j < |votes| ==> votes[i].vin.prevout != votes[j].vin.prevout)
  }

  /** The cities that voted at a height. */
  function Voters(votes: seq<Vote>, h: int): set<TxIn> {
    if votes == [] then {}
    else
      Voters(votes[..|votes| - 1], h) + if votes[|votes| - 1].nBlockHeight == h then {votes[|votes| - 1].vin} else {}
  }

  lemma {:induction false} VotersVoted(votes: seq<Vote>, h: int, x: TxIn)
    requires x in Voters(votes, h)
    ensures exists i :: 0 <= i < |votes| && votes[i].vin == x && votes[i].nBlockHeight == h
  {
    var f, l := votes[..|votes| - 1], votes[|votes| - 1];
    if x in Voters(f, h) {
      VotersVoted(f, h, x);
      var i :| 0 <= i < |f| && f[i].vin == x && f[i].nBlockHeight == h;
      assert votes[i].vin == x && votes[i].nBlockHeight == h;
    } else {
      assert l.vin == x;
    }
  }

  lemma {:induction false} CountIsVoters(reg: Registry, votes: seq<Vote>, h: int)
    requires Sound(reg, votes)
    ensures CountAt(votes, h) == |Voters(votes, h)|
  {
    if votes != [] {
      var f, l := votes[..|votes| - 1], votes[|votes| - 1];
      CountIsVoters(reg, f, h);
      if l.vin in Voters(f, h) {
        VotersVoted(f, h, l.vin);
      }
    }
  }

  /** The first places of a ranking. */
  function Firsts(order: seq<Scored>, k: nat): (s: set<TxIn>)
    ensures |s| <= k
  {
    if k == 0 then {} else Firsts(order, k - 1) + if k <= |order| then {order[k - 1].1} else {}
  }

  lemma {:induction false} FirstsHave(order: seq<Scored>, k: nat, i: nat)
    requires i < k && i < |order|
    ensures order[i].1 in Firsts(order, k)
  {
    if i < k - 1 {
      FirstsHave(order, k - 1, i);
    }
  }

  /** At most four votes of a lock count, whatever height it is counted at. */
  lemma AtMostFour(reg: Registry, votes: seq<Vote>, h: int)
    requires Sound(reg, votes)
    ensures CountAt(votes, h) <= 4
  {
    var top := Firsts(Order(reg, h, MIN_INSTANTX_PROTO_VERSION), INSTANTX_SIGNATURES_TOTAL);
    forall x | x in Voters(votes, h) ensures x in top {
      VotersVoted(votes, h, x);
      var i :| 0 <= i < |votes| && votes[i].vin == x && votes[i].nBlockHeight == h;
      assert InTop(reg, votes[i]);
      FirstsHave(Order(reg, h, MIN_INSTANTX_PROTO_VERSION), INSTANTX_SIGNATURES_TOTAL,
                 Rank(reg, x, h, MIN_INSTANTX_PROTO_VERSION) - 1);
    }
    CountIsVoters(reg, votes, h);
    Ordered.SubsetSize(Voters(votes, h), top);
  }

  /** The outpoints of the voting cities that score more than `s` at a height. */
  ghost function Better(reg: Registry, h: int, s: int): set<TxIn> {
    set c | c in reg.cities && c.enabled && c.protocol >= 62005 && reg.score(c, h) > s :: c.vin
  }

  /** A city among the first four is an enabled city of the protocol at a known height, outscored by
      three others at most. */
  lemma InTopMeans(reg: Registry, v: Vote)
    requires InTop(reg, v)
    ensures reg.knows(v.nBlockHeight)
    ensures exists c :: c in reg.cities && c.vin == v.vin && c.enabled && c.protocol >= 62005
                        && |Better(reg, v.nBlockHeight, reg.score(c, v.nBlockHeight))| <= 3
  {
    hide Scores, Order;
    var h := v.nBlockHeight;
    var order, r := Order(reg, h, MIN_INSTANTX_PROTO_VERSION), Rank(reg, v.vin, h, MIN_INSTANTX_PROTO_VERSION);
    OrderComesFromCities(reg, h, MIN_INSTANTX_PROTO_VERSION, order[r - 1]);
    var c :| c in reg.cities && Votes(c, MIN_INSTANTX_PROTO_VERSION) && order[r - 1] == (reg.score(c, h), c.vin);
    var better, top := Better(reg, h, reg.score(c, h)), Firsts(order, r - 1);
    forall x | x in better ensures x in top {
      var d :| d in reg.cities && d.enabled && d.protocol >= 62005 && reg.score(d, h) > reg.score(c, h) && d.vin == x;
      OrderComesFromCities(reg, h, MIN_INSTANTX_PROTO_VERSION, (reg.score(d, h), d.vin));
      var i :| 0 <= i < |order| && order[i] == (reg.score(d, h), d.vin);
      OrderDescends(reg, h, MIN_INSTANTX_PROTO_VERSION);
      assert i < r - 1;
      FirstsHave(order, r - 1, i);
    }
    Ordered.SubsetSize(better, top);
  }

  // ----- Where each vote hash lives ----------------------------------------------------------------

  type Homes = map<int, (Txid, int)>

  /** Each collected vote's hash has one home: the lock and place the vote stands at. */
  ghost predicate Housed(locks: Locks, home: Homes) {
    forall h, i :: h in locks && 0 <= i < |locks[h].votes| ==>
      VoteHash(locks[h].votes[i]) in home && home[VoteHash(locks[h].votes[i])] == (h, i)
  }

  ghost predicate Admitted(reg: Registry, locks: Locks) {
    forall h :: h in locks ==>
      locks[h].txHash == h && forall i :: 0 <= i < |locks[h].votes| ==>
        locks[h].votes[i].txHash == h && InTop(reg, locks[h].votes[i])
  }

  ghost predicate Kept(reg: Registry, locks: Locks, seen: set<int>, home: Homes) {
    Housed(locks, home) && Admitted(reg, locks) && home.Keys <= seen
  }

  /** One home per hash makes the voters of a lock different cities. */
  lemma KeptIsSound(reg: Registry, locks: Locks, seen: set<int>, home: Homes, h: Txid)
    requires Kept(reg, locks, seen, home) && h in locks
    ensures Sound(reg, locks[h].votes)
  {
    var vs := locks[h].votes;
    forall i, j | 0 <= i < j < |vs| ensures vs[i].vin.prevout != vs[j].vin.prevout {
      assert home[VoteHash(vs[i])] == (h, i) && home[VoteHash(vs[j])] == (h, j);
    }
  }

  function VotesOf(locks: Locks, h: Txid): seq<Vote> {
    if h in locks then locks[h].votes else []
  }

  /** Locks whose votes are the same, whatever their heights and times. */
  ghost predicate SameVotes(a: Locks, b: Locks) {
    a.Keys == b.Keys && forall h :: h in a ==> a[h].votes == b[h].votes && a[h].txHash == b[h].txHash
  }

  lemma SameVotesKept(reg: Registry, a: Locks, b: Locks, seen: set<int>, home: Homes)
    requires Kept(reg, a, seen, home) && SameVotes(a, b)
    ensures Kept(reg, b, seen, home)
  {
  }

  lemma NewLockKept(reg: Registry, locks: Locks, seen: set<int>, home: Homes, l: Lock)
    requires Kept(reg, locks, seen, home) && l.txHash !in locks && l.votes == []
    ensures Kept(reg, locks[l.txHash := l], seen, home)
  {
  }

  function AddVote(locks: Locks, v: Vote): Locks
    requires v.txHash in locks
  {
    locks[v.txHash := locks[v.txHash].(votes := locks[v.txHash].votes + [v])]
  }

  lemma AddVoteKept(reg: Registry, locks: Locks, seen: set<int>, home: Homes, v: Vote)
    requires Kept(reg, locks, seen, home) && v.txHash in locks && InTop(reg, v)
    requires VoteHash(v) in seen && VoteHash(v) !in home
    ensures Kept(reg, AddVote(locks, v), seen, home[VoteHash(v) := (v.txHash, |locks[v.txHash].votes|)])
  {
    hide VoteHash, InTop;
  }

  // ----- Locked inputs --------------------------------------------------------------------------------

  type Owners = map<OutPoint, Txid>

  /** The owner of an outpoint is never replaced. */
  ghost predicate OwnersKept(a: Owners, b: Owners) {
    forall o :: o in a ==> o in b && b[o] == a[o]
  }

  predicate Conflicts(owners: Owners, o: OutPoint, id: Txid) {
    o in owners && owners[o] != id
  }

  ghost predicate AnyConflict(owners: Owners, tx: Tx) {
    exists i :: 0 <= i < |tx.vin| && Conflicts(owners, tx.vin[i].prevout, tx.id)
  }

  /** `b` is `a` with the free inputs among `vin` given to `id`. */
  ghost predicate Claimed(a: Owners, b: Owners, vin: seq<TxIn>, id: Txid) {
    && OwnersKept(a, b)
    && (forall o :: o in b <==> o in a || Spends(vin, o))
    && (forall o :: o in b && o !in a ==> b[o] == id)
  }

  method ClaimInputs(owners: Owners, vin: seq<TxIn>, id: Txid) returns (owners': Owners)
    ensures Claimed(owners, owners', vin, id)
  {
    owners' := owners;
    for i := 0 to |vin|
      invariant Claimed(owners, owners', vin[..i], id)
    {
      forall o ensures Spends(vin[..i + 1], o) <==> Spends(vin[..i], o) || o == vin[i].prevout {
        assert vin[..i + 1][..i] == vin[..i];
        SpendsSnoc(vin[..i + 1], o);
      }
      if vin[i].prevout !in owners' {
        owners' := owners'[vin[i].prevout := id];
      }
    }
    assert vin[..|vin|] == vin;
  }

  function Expire(locks: Locks, h: Txid, now: int): Locks {
    if h in locks then locks[h := locks[h].(nExpiration := now)] else locks
  }

  lemma ExpireSameVotes(locks: Locks, h: Txid, now: int)
    ensures SameVotes(locks, Expire(locks, h, now))
  {
  }

  /** If an input of `tx` is held by another, its lock and that of the owner expire now. */
  ghost predicate Judged(owners: Owners, locks: Locks, tx: Tx, now: int, locks': Locks) {
    if AnyConflict(owners, tx) then
      exists i ::
        && 0 <= i < |tx.vin| && Conflicts(owners, tx.vin[i].prevout, tx.id)
        && locks' == Expire(Expire(locks, tx.id, now), owners[tx.vin[i].prevout], now)
    else locks' == locks
  }

  /** The two locks that fight over the first contested input are due to expire. */
  method CheckForConflictingLocks(owners: Owners, locks: Locks, tx: Tx, now: int)
    returns (conflict: bool, locks': Locks)
    ensures conflict <==> AnyConflict(owners, tx)
    ensures Judged(owners, locks, tx, now, locks') && SameVotes(locks, locks')
    ensures conflict ==>
              exists i ::
                && 0 <= i < |tx.vin| && Conflicts(owners, tx.vin[i].prevout, tx.id)
                && forall h :: h in locks ==>
                     var l := locks[h];
                     locks'[h] == if h == tx.id || h == owners[tx.vin[i].prevout]
                                  then Lock(l.txHash, l.nBlockHeight, l.votes, now, l.nTimeout) else l
    ensures !conflict ==> locks' == locks
  {
    for i := 0 to |tx.vin|
      invariant forall j :: 0 <= j < i ==> !Conflicts(owners, tx.vin[j].prevout, tx.id)
    {
      var o := tx.vin[i].prevout;
      if o in owners && owners[o] != tx.id {
        assert Conflicts(owners, o, tx.id);
        ExpireSameVotes(locks, tx.id, now);
        ExpireSameVotes(Expire(locks, tx.id, now), owners[o], now);
        return true, Expire(Expire(locks, tx.id, now), owners[o], now);
      }
    }
    return false, locks;
  }

  // ----- The lock tables --------------------------------------------------------------------------------

  /** What looking up a missing key with the subscript operator enters. */
  const EMPTY_TX := Tx(0, 0, [], [], 0, 0)
  const MIN_INPUT_AGE := 9

  predicate OldEnough(tx: Tx, age: TxIn -> int) {
    forall i :: 0 <= i < |tx.vin| ==> age(tx.vin[i]) >= MIN_INPUT_AGE
  }

  /** A height newer than the first input. */
  function LockHeight(tx: Tx, age: TxIn -> int, bestHeight: int): int {
    bestHeight - (if tx.vin == [] then 0 else age(tx.vin[0])) + 4
  }

  function VoteHashes(votes: seq<Vote>): set<int> {
    if votes == [] then {} else VoteHashes(votes[..|votes| - 1]) + {VoteHash(votes[|votes| - 1])}
  }

  lemma {:induction false} VoteHashesAre(votes: seq<Vote>, x: int)
    ensures x in VoteHashes(votes) <==> exists i :: 0 <= i < |votes| && VoteHash(votes[i]) == x
  {
    if votes != [] {
      var f, l := votes[..|votes| - 1], votes[|votes| - 1];
      VoteHashesAre(f, x);
      if exists i :: 0 <= i < |votes| && VoteHash(votes[i]) == x {
        var i :| 0 <= i < |votes| && VoteHash(votes[i]) == x;
        assert i < |f| ==> VoteHash(f[i]) == x;
      }
      if exists i :: 0 <= i < |f| && VoteHash(f[i]) == x {
        var i :| 0 <= i < |f| && VoteHash(f[i]) == x;
        assert VoteHash(votes[i]) == x;
      }
    }
  }

  function Outpoints(vin: seq<TxIn>): set<OutPoint> {
    if vin == [] then {} else Outpoints(vin[..|vin| - 1]) + {vin[|vin| - 1].prevout}
  }

  ghost function HomesWithout(home: Homes, h: Txid): Homes {
    map x | x in home && home[x].0 != h :: home[x]
  }

  /** Dropping a lock with the records of its votes leaves the other locks' votes recorded. */
  lemma DropKept(reg: Registry, locks: Locks, seen: set<int>, home: Homes, h: Txid)
    requires Kept(reg, locks, seen, home) && h in locks
    ensures Kept(reg, locks - {h}, seen - VoteHashes(locks[h].votes), HomesWithout(home, h))
    ensures Kept(reg, locks - {h}, seen, HomesWithout(home, h))
  {
    hide VoteHash, InTop;
    var vs, home' := locks[h].votes, HomesWithout(home, h);
    forall x | x in home' ensures x in seen - VoteHashes(vs) {
      VoteHashesAre(vs, x);
      forall i | 0 <= i < |vs| ensures VoteHash(vs[i]) != x {
        assert home[VoteHash(vs[i])] == (h, i);
      }
    }
  }

  method EraseInputs(owners: Owners, vin: seq<TxIn>) returns (owners': Owners)
    ensures owners' == owners - Outpoints(vin)
  {
    owners' := owners;
    for i := 0 to |vin|
      invariant owners' == owners - Outpoints(vin[..i])
    {
      assert vin[..i + 1][..i] == vin[..i];
      owners' := owners' - {vin[i].prevout};
    }
    assert vin[..|vin|] == vin;
  }

  method EraseVotes(votes: map<int, Vote>, vs: seq<Vote>) returns (votes': map<int, Vote>)
    ensures votes' == votes - VoteHashes(vs)
  {
    votes' := votes;
    for i := 0 to |vs|
      invariant votes' == votes - VoteHashes(vs[..i])
    {
      assert vs[..i + 1][..i] == vs[..i];
      votes' := votes' - {VoteHash(vs[i])};
    }
    assert vs[..|vs|] == vs;
  }

  predicate Due(locks: Locks, now: int, h: Txid) {
    h in locks && now > locks[h].nExpiration
  }

  function Expired(locks: Locks, now: int): set<Txid> {
    set h | h in locks && Due(locks, now, h)
  }

  /** The outpoints that dropping the locks of `done` frees: the inputs of their requests. */
  ghost predicate Frees(requests: map<Txid, Tx>, done: set<Txid>, o: OutPoint) {
    exists h :: h in done && h in requests && o in Outpoints(requests[h].vin)
  }

  /** The lock tables after the locks of `done` are dropped. */
  ghost predicate Cleaned(
    locks: Locks, requests: map<Txid, Tx>, rejected: map<Txid, Tx>, owners: Owners, done: set<Txid>,
    locks': Locks, requests': map<Txid, Tx>, rejected': map<Txid, Tx>, owners': Owners)
  {
    && locks' == locks - done && requests' == requests - done && rejected' == rejected - (done * requests.Keys)
    && (forall o :: o in owners' ==> o in owners && owners'[o] == owners[o])
    && (forall o :: o in owners ==> (o in owners' <==> !Frees(requests, done, o)))
  }

  lemma CleanedMore(locks: Locks, requests: map<Txid, Tx>, rejected: map<Txid, Tx>, owners: Owners, done: set<Txid>,
                    locks': Locks, requests': map<Txid, Tx>, rejected': map<Txid, Tx>, owners': Owners, h: Txid)
    requires Cleaned(locks, requests, rejected, owners, done, locks', requests', rejected', owners') && h !in done
    ensures h in requests' ==>
              Cleaned(locks, requests, rejected, owners, done + {h},
                      locks' - {h}, requests' - {h}, rejected' - {h}, owners' - Outpoints(requests'[h].vin))
    ensures h !in requests' ==>
              Cleaned(locks, requests, rejected, owners, done + {h}, locks' - {h}, requests', rejected', owners')
  {
    forall o
      ensures Frees(requests, done + {h}, o) <==>
              Frees(requests, done, o) || (h in requests && o in Outpoints(requests[h].vin))
    {
      if Frees(requests, done, o) {
        var g :| g in done && g in requests && o in Outpoints(requests[g].vin);
        assert g in done + {h};
      }
      if h in requests && o in Outpoints(requests[h].vin) {
        assert h in done + {h};
      }
    }
    assert done + {h} - {h} == done;
    if h in requests' {
      assert rejected' - {h} == rejected - ((done + {h}) * requests.Keys);
    } else {
      assert (done + {h}) * requests.Keys == done * requests.Keys;
    }
  }

  /** Every request is filed under its own id, but for the empty ones that the subscript enters. */
  predicate Keyed(requests: map<Txid, Tx>) {
    forall h :: h in requests ==> requests[h].id == h || requests[h] == EMPTY_TX
  }

  /** The table after a subscript access at `h`. */
  function Touched(requests: map<Txid, Tx>, h: Txid): map<Txid, Tx> {
    if h in requests then requests else requests[h := EMPTY_TX]
  }

  /** What a complete lock does: it claims the free inputs of its request; or, if another holds one of
      them, both locks expire and nothing is claimed. */
  ghost predicate Settled(locks: Locks, requests: map<Txid, Tx>, owners: Owners, h: Txid, now: int,
                          locks': Locks, requests': map<Txid, Tx>, owners': Owners)
  {
    && requests' == Touched(requests, h)
    && Judged(owners, locks, requests'[h], now, locks')
    && if AnyConflict(owners, requests'[h]) then owners' == owners else Claimed(owners, owners', requests'[h].vin, h)
  }

  function LockWithVote(locks: Locks, v: Vote, now: int): Locks {
    AddVote(if v.txHash in locks then locks
            else locks[v.txHash := Lock(v.txHash, 0, [], now + 20 * 60, now + 60 * 5)], v)
  }

  /** A good vote is put on its lock, which is opened for it if need be and settled if complete. */
  ghost predicate Voted(locks: Locks, requests: map<Txid, Tx>, owners: Owners, v: Vote, now: int,
                        locks': Locks, requests': map<Txid, Tx>, owners': Owners)
  {
    var l := LockWithVote(locks, v, now);
    if Complete(l[v.txHash]) then Settled(l, requests, owners, v.txHash, now, locks', requests', owners')
    else locks' == l && requests' == requests && owners' == owners
  }

  /** A vote moves no lock's height, and opens a lock without one. The only time it moves is the expiry
      of a contested lock. */
  lemma VoteKeepsHeights(locks: Locks, requests: map<Txid, Tx>, owners: Owners, v: Vote, now: int,
                         locks': Locks, requests': map<Txid, Tx>, owners': Owners, h: Txid)
    requires Voted(locks, requests, owners, v, now, locks', requests', owners')
    ensures h in locks' <==> h in locks || h == v.txHash
    ensures h in locks ==>
              && locks'[h].nBlockHeight == locks[h].nBlockHeight && locks'[h].nTimeout == locks[h].nTimeout
              && (locks'[h].nExpiration == locks[h].nExpiration || locks'[h].nExpiration == now)
    ensures h in locks' && h !in locks ==>
              && locks'[h].nBlockHeight == 0 && locks'[h].nTimeout == now + 300
              && (locks'[h].nExpiration == now + 1200 || locks'[h].nExpiration == now)
  {
    hide AnyConflict, Complete, Conflicts;
  }

  /** The locks after one was opened for the transaction, or had its height moved, unless an input is
      younger than nine blocks. */
  function Opened(locks: Locks, tx: Tx, age: TxIn -> int, bestHeight: int, now: int): Locks {
    var h := LockHeight(tx, age, bestHeight);
    if !OldEnough(tx, age) then locks
    else if tx.id in locks then locks[tx.id := locks[tx.id].(nBlockHeight := h)]
    else locks[tx.id := Lock(tx.id, h, [], now + 20 * 60, now + 60 * 5)]
  }

  /** The vote of this node, if it is a city among the first four and its signature is good. */
  ghost function OwnVote(
    reg: Registry, sigValid: Vote -> bool, tx: Tx, nBlockHeight: int, me: Option<TxIn>,
    sign: Vote -> Option<Vote>): Option<Vote>
  {
    if me.Some? && InTop(reg, Vote(me.value, tx.id, nBlockHeight, [])) then
      var signed := sign(Vote(me.value, tx.id, nBlockHeight, []));
      if signed.Some? && sigValid(signed.value) then signed else None
    else None
  }

  function Recorded(votes: map<int, Vote>, v: Option<Vote>): map<int, Vote> {
    if v.Some? then votes[VoteHash(v.value) := v.value] else votes
  }

  class LockPool {
    const reg: Registry
    /** Whether the signature on a vote verifies under the city's key. */
    const sigValid: Vote -> bool

    var requests: map<Txid, Tx>
    var rejected: map<Txid, Tx>
    var votes: map<int, Vote>
    var locks: Locks
    var lockedInputs: Owners
    ghost var home: Homes

    /** Holds after every step of every run. */
    ghost predicate Valid()
      reads this
    {
      Kept(reg, locks, votes.Keys, home) && Keyed(requests)
    }

    constructor (reg: Registry, sigValid: Vote -> bool)
      ensures Valid() && locks == map[] && lockedInputs == map[] && votes == map[] && requests == map[]
              && rejected == map[]
    {
      this.reg, this.sigValid := reg, sigValid;
      requests, rejected, votes, locks, lockedInputs, home := map[], map[], map[], map[], map[], map[];
    }

    /** No lock ever counts more than four signatures. */
    lemma CountBound(h: Txid)
      requires Valid() && h in locks
      ensures Sound(reg, locks[h].votes)
      ensures CountAt(locks[h].votes, locks[h].nBlockHeight) <= 4
    {
      KeptIsSound(reg, locks, votes.Keys, home, h);
      AtMostFour(reg, locks[h].votes, locks[h].nBlockHeight);
    }

    /** Opens a lock for the transaction, or moves the height of the one it has, unless an input is
        younger than nine blocks. */
    method CreateNewLock(tx: Tx, age: TxIn -> int, bestHeight: int, now: int) returns (nBlockHeight: int)
      requires Valid()
      modifies this`locks
      ensures Valid() && locks == Opened(old(locks), tx, age, bestHeight, now)
      ensures nBlockHeight == if OldEnough(tx, age) then LockHeight(tx, age, bestHeight) else 0
      ensures (exists i :: 0 <= i < |tx.vin| && age(tx.vin[i]) <= 8) ==> nBlockHeight == 0 && locks == old(locks)
      ensures (forall i :: 0 <= i < |tx.vin| ==> age(tx.vin[i]) >= 9) ==>
                && nBlockHeight == bestHeight + 4 - (if tx.vin == [] then 0 else age(tx.vin[0]))
                && locks.Keys == old(locks).Keys + {tx.id}
                && (forall h :: h in locks && h != tx.id ==> locks[h] == old(locks)[h])
                && locks[tx.id].nBlockHeight == nBlockHeight
                && (tx.id !in old(locks) ==> locks[tx.id] == Lock(tx.id, nBlockHeight, [], now + 1200, now + 300))
                && (tx.id in old(locks) ==>
                      locks[tx.id].nExpiration == old(locks)[tx.id].nExpiration
                      && locks[tx.id].nTimeout == old(locks)[tx.id].nTimeout)
      ensures forall h :: VotesOf(locks, h) == VotesOf(old(locks), h)
    {
      var nTxAge, k := 0, |tx.vin|;
      while k > 0
        invariant 0 <= k <= |tx.vin|
        invariant forall i :: k <= i < |tx.vin| ==> age(tx.vin[i]) >= MIN_INPUT_AGE
        invariant nTxAge == if k < |tx.vin| then age(tx.vin[k]) else 0
      {
        k := k - 1;
        nTxAge := age(tx.vin[k]);
        if nTxAge < MIN_INPUT_AGE {
          return 0;
        }
      }
      nBlockHeight := bestHeight - nTxAge + 4;
      if tx.id !in locks {
        var l := Lock(tx.id, nBlockHeight, [], now + 20 * 60, now + 60 * 5);
        NewLockKept(reg, locks, votes.Keys, home, l);
        locks := locks[tx.id := l];
      } else {
        var locks' := locks[tx.id := locks[tx.id].(nBlockHeight := nBlockHeight)];
        SameVotesKept(reg, locks, locks', votes.Keys, home);
        locks := locks';
      }
    }

    /** This node's own vote, if it is a city among the first four. It is recorded and relayed, but
        not put on the lock. */
    method DoConsensusVote(tx: Tx, nBlockHeight: int, me: Option<TxIn>, sign: Vote -> Option<Vote>)
      requires Valid()
      modifies this`votes
      ensures Valid() && old(votes).Keys <= votes.Keys
      ensures votes == Recorded(old(votes), OwnVote(reg, sigValid, tx, nBlockHeight, me, sign))
    {
      if me.None? {
        return;
      }
      var n := GetFloatingcityRank(reg, me.value, nBlockHeight, MIN_INSTANTX_PROTO_VERSION);
      RankRange(reg, Vote(me.value, tx.id, nBlockHeight, []));
      if n == -1 || n > INSTANTX_SIGNATURES_TOTAL {
        return;
      }
      var signed := sign(Vote(me.value, tx.id, nBlockHeight, []));
      if signed.None? || !sigValid(signed.value) {
        return;
      }
      votes := votes[VoteHash(signed.value) := signed.value];
    }

    /** A vote that arrives is recorded under its hash and processed once; a hash that is already
        recorded is ignored. */
    method ReceiveVote(v: Vote, now: int) returns (ok: bool)
      requires Valid()
      modifies this
      ensures Valid() && OwnersKept(old(lockedInputs), lockedInputs)
      ensures ok <==> VoteHash(v) !in old(votes) && InTop(reg, v) && sigValid(v)
      ensures forall h :: VotesOf(locks, h) == VotesOf(old(locks), h) + if ok && h == v.txHash then [v] else []
      ensures votes == if VoteHash(v) in old(votes) then old(votes) else old(votes)[VoteHash(v) := v]
      ensures !ok ==> locks == old(locks) && lockedInputs == old(lockedInputs) && requests == old(requests)
      ensures ok ==> Voted(old(locks), old(requests), old(lockedInputs), v, now, locks, requests, lockedInputs)
      ensures rejected == old(rejected)
    {
      if VoteHash(v) in votes {
        return false;
      }
      votes := votes[VoteHash(v) := v];
      ok := ProcessConsensusVote(v, now);
    }

    method ProcessConsensusVote(v: Vote, now: int) returns (ok: bool)
      requires Valid() && VoteHash(v) in votes && VoteHash(v) !in home
      modifies this`locks, this`requests, this`lockedInputs, this`home
      ensures Valid() && OwnersKept(old(lockedInputs), lockedInputs)
      ensures ok <==> InTop(reg, v) && sigValid(v)
      ensures forall h :: VotesOf(locks, h) == VotesOf(old(locks), h) + if ok && h == v.txHash then [v] else []
      ensures !ok ==> locks == old(locks) && lockedInputs == old(lockedInputs) && requests == old(requests)
      ensures ok ==> Voted(old(locks), old(requests), old(lockedInputs), v, now, locks, requests, lockedInputs)
    {
      hide Kept, VoteHash, AnyConflict, Rank;
      var n := GetFloatingcityRank(reg, v.vin, v.nBlockHeight, MIN_INSTANTX_PROTO_VERSION);
      RankRange(reg, v);
      if n == -1 || n > INSTANTX_SIGNATURES_TOTAL || !sigValid(v) {
        return false;
      }
      if v.txHash !in locks {
        var l := Lock(v.txHash, 0, [], now + 20 * 60, now + 60 * 5);
        NewLockKept(reg, locks, votes.Keys, home, l);
        locks := locks[v.txHash := l];
      }
      AddVoteKept(reg, locks, votes.Keys, home, v);
      home := home[VoteHash(v) := (v.txHash, |locks[v.txHash].votes|)];
      locks := AddVote(locks, v);
      ok := true;
      var count := CountSignatures(locks[v.txHash]);
      if count >= INSTANTX_SIGNATURES_REQUIRED {
        Settle(v.txHash, now);
      }
    }

    /** A lock request: the transaction gets a lock and, if the memory pool accepts it, is recorded as
        requested and voted on; otherwise it is recorded as rejected and claims its free inputs. */
    method RequestLock(tx: Tx, plausible: bool, accepted: bool, age: TxIn -> int, bestHeight: int, now: int,
                       me: Option<TxIn>, sign: Vote -> Option<Vote>)
      requires Valid()
      modifies this
      ensures Valid() && OwnersKept(old(lockedInputs), lockedInputs)
      ensures forall h :: VotesOf(locks, h) == VotesOf(old(locks), h)
      ensures var taken := tx.id !in old(requests) && tx.id !in old(rejected) && plausible;
              && requests == (if taken && accepted then old(requests)[tx.id := tx] else old(requests))
              && rejected == (if taken && !accepted then old(rejected)[tx.id := tx] else old(rejected))
              && (if taken && !accepted then Claimed(old(lockedInputs), lockedInputs, tx.vin, tx.id)
                  else lockedInputs == old(lockedInputs))
              && (!taken ==> locks == old(locks))
              && (taken ==>
                    var l := Opened(old(locks), tx, age, bestHeight, now);
                    if !accepted && tx.id in l && Complete(l[tx.id]) then Judged(lockedInputs, l, tx, now, locks)
                    else locks == l)
              && votes == if !taken || !accepted then old(votes)
                          else var h := if OldEnough(tx, age) then LockHeight(tx, age, bestHeight) else 0;
                               Recorded(old(votes), OwnVote(reg, sigValid, tx, h, me, sign))
    {
      hide Kept, Spends, Opened, OwnVote, Recorded, Judged, OldEnough;
      if tx.id in requests || tx.id in rejected || !plausible {
        return;
      }
      var nBlockHeight := CreateNewLock(tx, age, bestHeight, now);
      if accepted {
        DoConsensusVote(tx, nBlockHeight, me, sign);
        requests := requests[tx.id := tx];
        return;
      }
      rejected := rejected[tx.id := tx];
      lockedInputs := ClaimInputs(lockedInputs, tx.vin, tx.id);
      if tx.id in locks {
        var count := CountSignatures(locks[tx.id]);
        if count >= INSTANTX_SIGNATURES_REQUIRED {
          var conflict, locks' := CheckForConflictingLocks(lockedInputs, locks, tx, now);
          SameVotesKept(reg, locks, locks', votes.Keys, home);
          locks := locks';
        }
      }
    }

    /** The wallet's own request. */
    method RequestOwnLock(tx: Tx, age: TxIn -> int, bestHeight: int, now: int)
      requires Valid()
      modifies this`locks, this`requests
      ensures Valid() && requests == if tx.id in old(requests) then old(requests) else old(requests)[tx.id := tx]
      ensures locks == Opened(old(locks), tx, age, bestHeight, now)
      ensures forall h :: VotesOf(locks, h) == VotesOf(old(locks), h)
    {
      if tx.id !in requests {
        requests := requests[tx.id := tx];
      }
      var nBlockHeight := CreateNewLock(tx, age, bestHeight, now);
    }

    /** Drops one lock; if it has a request, its inputs, the request and the votes go with it. */
    method DropLock(h: Txid)
      requires Valid() && h in locks
      modifies this
      ensures Valid() && locks == old(locks) - {h}
      ensures h in old(requests) ==>
                && requests == old(requests) - {h} && rejected == old(rejected) - {h}
                && lockedInputs == old(lockedInputs) - Outpoints(old(requests)[h].vin)
                && votes == old(votes) - VoteHashes(old(locks)[h].votes)
      ensures h !in old(requests) ==>
                requests == old(requests) && rejected == old(rejected) && lockedInputs == old(lockedInputs)
                  && votes == old(votes)
    {
      DropKept(reg, locks, votes.Keys, home, h);
      if h in requests {
        lockedInputs := EraseInputs(lockedInputs, requests[h].vin);
        requests := requests - {h};
        rejected := rejected - {h};
        votes := EraseVotes(votes, locks[h].votes);
        assert votes.Keys == old(votes).Keys - VoteHashes(locks[h].votes);
      }
      home := HomesWithout(home, h);
      locks := locks - {h};
    }

    /** Cleaning drops exactly the locks past their expiry, and frees exactly the inputs of their
        requests: the one way an outpoint loses its owner. */
    method CleanTransactionLocksList(now: int)
      requires Valid()
      modifies this
      ensures Valid()
      ensures Cleaned(old(locks), old(requests), old(rejected), old(lockedInputs),
                      Expired(old(locks), now), locks, requests, rejected, lockedInputs)
      ensures forall h :: h in locks <==> h in old(locks) && now <= old(locks)[h].nExpiration
      ensures forall h :: h in requests <==>
                h in old(requests) && (h in old(locks) ==> now <= old(locks)[h].nExpiration)
    {
      hide Kept, Frees, Keyed, Cleaned, VoteHashes, Outpoints;
      var ids := Ordered.Ascending(locks.Keys);
      ghost var done: set<Txid> := {};
      NothingCleaned(locks, requests, rejected, lockedInputs);
      for n := 0 to |ids|
        invariant Valid()
        invariant Cleaned(old(locks), old(requests), old(rejected), old(lockedInputs), done,
                          locks, requests, rejected, lockedInputs)
        invariant forall h :: h in done <==> h in ids[..n] && Due(old(locks), now, h)
      {
        var h := ids[n];
        assert h in ids && ids[..n + 1] == ids[..n] + [h];
        assert h !in ids[..n];
        NotCleaned(old(locks), old(requests), old(rejected), old(lockedInputs), done,
                   locks, requests, rejected, lockedInputs, h);
        if now > locks[h].nExpiration {
          CleanedMore(old(locks), old(requests), old(rejected), old(lockedInputs), done,
                      locks, requests, rejected, lockedInputs, h);
          DropLock(h);
          done := done + {h};
        }
      }
      assert ids[..|ids|] == ids;
      forall h ensures h in done <==> h in Expired(old(locks), now) {
        assert h in ids <==> h in old(locks).Keys;
      }
      assert done == Expired(old(locks), now);
      CleanedKeys(old(locks), old(requests), old(rejected), old(lockedInputs), now,
                  locks, requests, rejected, lockedInputs);
    }

    /** A complete lock claims the free inputs of its request, unless some input is held by another. */
    method Settle(h: Txid, now: int)
      requires Valid() && h in locks
      modifies this`locks, this`requests, this`lockedInputs
      ensures Valid() && SameVotes(old(locks), locks)
      ensures OwnersKept(old(lockedInputs), lockedInputs)
      ensures Settled(old(locks), old(requests), old(lockedInputs), h, now, locks, requests, lockedInputs)
    {
      if h !in requests {
        requests := requests[h := EMPTY_TX];
      }
      var tx := requests[h];
      var conflict, locks' := CheckForConflictingLocks(lockedInputs, locks, tx, now);
      SameVotesKept(reg, locks, locks', votes.Keys, home);
      locks := locks';
      if !conflict {
        lockedInputs := ClaimInputs(lockedInputs, tx.vin, h);
      }
    }
  }

  lemma CleanedKeys(locks: Locks, requests: map<Txid, Tx>, rejected: map<Txid, Tx>, owners: Owners, now: int,
                    locks': Locks, requests': map<Txid, Tx>, rejected': map<Txid, Tx>, owners': Owners)
    requires Cleaned(locks, requests, rejected, owners, Expired(locks, now), locks', requests', rejected', owners')
    ensures forall h :: h in locks' <==> h in locks && now <= locks[h].nExpiration
    ensures forall h :: h in requests' <==> h in requests && (h in locks ==> now <= locks[h].nExpiration)
  {
    forall h ensures h in Expired(locks, now) <==> h in locks && now > locks[h].nExpiration {
    }
  }

  lemma NotCleaned(locks: Locks, requests: map<Txid, Tx>, rejected: map<Txid, Tx>, owners: Owners, done: set<Txid>,
                   locks': Locks, requests': map<Txid, Tx>, rejected': map<Txid, Tx>, owners': Owners, h: Txid)
    requires Cleaned(locks, requests, rejected, owners, done, locks', requests', rejected', owners')
    requires h in locks && h !in done
    ensures h in locks' && locks'[h] == locks[h]
  {
  }

  lemma NothingCleaned(locks: Locks, requests: map<Txid, Tx>, rejected: map<Txid, Tx>, owners: Owners)
    ensures Cleaned(locks, requests, rejected, owners, {}, locks, requests, rejected, owners)
  {
  }

  /** Two locks that contest an input cancel each other out: the next cleaning drops both, and the
      contested input is free again. */
  lemma ConflictCancels(
    locks: Locks, requests: map<Txid, Tx>, owners: Owners, h: Txid, now: int,
    locks': Locks, requests': map<Txid, Tx>, owners': Owners,
    rejected: map<Txid, Tx>, later: int,
    locks'': Locks, requests'': map<Txid, Tx>, rejected'': map<Txid, Tx>, owners'': Owners)
    requires Keyed(requests) && h in requests && h in locks && AnyConflict(owners, requests[h])
    requires Settled(locks, requests, owners, h, now, locks', requests', owners')
    requires later > now
    requires Cleaned(locks', requests', rejected, owners', Expired(locks', later), locks'', requests'', rejected'',
                     owners'')
    ensures h !in locks'' && h !in requests''
    ensures exists i :: 0 <= i < |requests[h].vin| && Conflicts(owners, requests[h].vin[i].prevout, h)
                        && owners[requests[h].vin[i].prevout] !in locks'' && requests[h].vin[i].prevout !in owners''
  {
    var vin := requests[h].vin;
    var i :| 0 <= i < |vin| && Conflicts(owners, vin[i].prevout, h)
             && locks' == Expire(Expire(locks, h, now), owners[vin[i].prevout], now);
    assert Due(locks', later, h);
    OutpointsHas(vin, i);
    assert Frees(requests', Expired(locks', later), vin[i].prevout);
    var g := owners[vin[i].prevout];
    if g in locks {
      assert Due(locks', later, g);
    }
  }

  lemma {:induction false} OutpointsHas(vin: seq<TxIn>, i: nat)
    requires i < |vin|
    ensures vin[i].prevout in Outpoints(vin)
  {
    if i < |vin| - 1 {
      OutpointsHas(vin[..|vin| - 1], i);
    }
  }

  /** The sum is no injection: votes of different cities on different transactions can share a hash,
      and then the one that comes second is never processed. */
  lemma HashesCollide()
    ensures exists v: Vote, w: Vote :: v.vin != w.vin && v.txHash != w.txHash && VoteHash(v) == VoteHash(w)
  {
    var v := Vote(TxIn(OutPoint(1, 0), []), 5, 0, []);
    var w := Vote(TxIn(OutPoint(2, 0), []), 4, 0, []);
    assert v.vin != w.vin && v.txHash != w.txHash && VoteHash(v) == VoteHash(w);
  }

  lemma RankRange(reg: Registry, v: Vote)
    ensures var r := Rank(reg, v.vin, v.nBlockHeight, MIN_INSTANTX_PROTO_VERSION);
            InTop(reg, v) <==> r != -1 && r <= INSTANTX_SIGNATURES_TOTAL
  {
  }
}
