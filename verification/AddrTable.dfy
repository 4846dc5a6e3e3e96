/** The tables of the address manager and what keeps them consistent. */
module AddrTable {
  import opened Sequences

  const TRIED_BUCKET_COUNT: int := 64
  const TRIED_BUCKET_SIZE: int := 64
  const NEW_BUCKET_COUNT: int := 256
  const NEW_BUCKET_SIZE: int := 64
  const NEW_BUCKETS_PER_ADDRESS: int := 4

  /** A network address with a port. */
  datatype Service = Service(ip: int, port: int)

  datatype Info = Info(
    addr: Service, source: int, nServices: set<int>, nTime: int,
    nLastSuccess: int, nLastTry: int, nAttempts: int,
    nRefCount: int, fInTried: bool, nRandomPos: int)

  type Infos = map<int, Info>
  type Buckets = seq<set<int>>

  // ----- How many buckets hold an id ----------------------------------------------------

  function Count(vv: Buckets, id: int): nat {
    if vv == [] then 0
    else Count(vv[..|vv| - 1], id) + if id in vv[|vv| - 1] then 1 else 0
  }

  function Bit(c: bool): nat {
    if c then 1 else 0
  }

  lemma {:induction false} CountUpdate(vv: Buckets, b: nat, s: set<int>, id: int)
    requires b < |vv|
    ensures Count(vv[b := s], id) == Count(vv, id) - Bit(id in vv[b]) + Bit(id in s)
    decreases |vv|
  {
    var n := |vv| - 1;
    if b < n {
      CountUpdate(vv[..n], b, s, id);
      assert vv[b := s][..n] == vv[..n][b := s];
    } else {
      assert vv[b := s][..n] == vv[..n];
    }
  }

  lemma {:induction false} CountZero(vv: Buckets, id: int)
    ensures Count(vv, id) == 0 <==> forall b :: 0 <= b < |vv| ==> id !in vv[b]
  {
    if vv != [] {
      var n := |vv| - 1;
      CountZero(vv[..n], id);
      assert forall b :: 0 <= b < n ==> vv[..n][b] == vv[b];
      if Count(vv, id) == 0 {
        forall b | 0 <= b < |vv| ensures id !in vv[b] {
          assert b < n ==> vv[..n][b] == vv[b];
        }
      } else if id !in vv[n] {
        var b :| 0 <= b < n && id in vv[..n][b];
        assert id in vv[b];
      }
    }
  }

  // ----- The parts of the invariant -----------------------------------------------------

  /** Ids and addresses name each other. */
  ghost predicate AddrOk(m: Infos, ma: map<int, int>) {
    && (forall id :: id in m ==> m[id].addr.ip in ma && ma[m[id].addr.ip] == id)
    && (forall a :: a in ma ==> ma[a] in m && m[ma[a]].addr.ip == a)
  }

  /** The random-order vector holds each id once, at the position the entry records. */
  ghost predicate RandomOk(m: Infos, v: seq<int>) {
    && (forall id :: id in m ==> 0 <= m[id].nRandomPos < |v| && v[m[id].nRandomPos] == id)
    && (forall k :: 0 <= k < |v| ==> v[k] in m && m[v[k]].nRandomPos == k)
  }

  /** Only new entries are in new buckets, and reference counts are the numbers of buckets holding
      them; the entry `pending` (if any) has been counted for a bucket it is not in yet. */
  ghost predicate RefOk(m: Infos, vv: Buckets, pending: int) {
    && |vv| == NEW_BUCKET_COUNT
    && (forall b, id :: 0 <= b < |vv| && id in vv[b] ==> id in m && !m[id].fInTried)
    && (forall id :: id in m ==> m[id].nRefCount == Count(vv, id) + Bit(id == pending))
  }

  /** Tried entries have no references; new ones have between one and four. */
  ghost predicate RefRange(m: Infos) {
    forall id :: id in m ==>
      if m[id].fInTried then m[id].nRefCount == 0 else 1 <= m[id].nRefCount <= NEW_BUCKETS_PER_ADDRESS
  }

  function TriedBucket(hash: Service -> int, a: Service): (b: int)
    ensures 0 <= b < 64 && exists q :: hash(a) == 64 * q + b
  {
    assert hash(a) == 64 * (hash(a) / 64) + hash(a) % 64;
    hash(a) % TRIED_BUCKET_COUNT
  }

  /** Tried buckets hold exactly the tried entries, each once, in the bucket of its address. */
  ghost predicate TriedOk(m: Infos, tt: seq<seq<int>>, hash: Service -> int) {
    && |tt| == TRIED_BUCKET_COUNT
    && (forall b :: 0 <= b < |tt| ==> Distinct(tt[b]))
    && (forall b, id :: 0 <= b < |tt| && id in tt[b] ==>
          id in m && m[id].fInTried && TriedBucket(hash, m[id].addr) == b)
    && (forall id :: id in m && m[id].fInTried ==> id in tt[TriedBucket(hash, m[id].addr)])
  }

  ghost predicate Small(vv: Buckets) {
    forall b :: 0 <= b < |vv| ==> |vv[b]| <= NEW_BUCKET_SIZE
  }

  ghost predicate TriedSmall(tt: seq<seq<int>>) {
    forall b :: 0 <= b < |tt| ==> |tt[b]| <= TRIED_BUCKET_SIZE
  }

  function TriedIds(m: Infos): set<int> {
    set id | id in m && m[id].fInTried
  }

  function NewIds(m: Infos): set<int> {
    set id | id in m && !m[id].fInTried
  }

  /** Times are sane: none negative, and a tried entry has succeeded once. */
  ghost predicate TimesOk(m: Infos) {
    forall id :: id in m ==>
      m[id].nLastTry >= 0 && m[id].nLastSuccess >= 0 && (m[id].fInTried ==> m[id].nLastSuccess != 0)
  }

  // ----- Changing what an entry says about itself ------------------------------------------

  predicate SameRole(a: Info, b: Info) {
    a.addr == b.addr && a.source == b.source && a.nRefCount == b.nRefCount && a.fInTried == b.fInTried
  }

  /** The entries agree on everything the tables depend on except the random position. */
  ghost predicate SameRoles(m: Infos, m': Infos) {
    m.Keys == m'.Keys && forall id :: id in m.Keys ==> SameRole(m[id], m'[id])
  }

  lemma SameRolesKeep(
    m: Infos, m': Infos, ma: map<int, int>, vv: Buckets, pending: int, tt: seq<seq<int>>, hash: Service -> int)
    requires SameRoles(m, m')
    ensures AddrOk(m, ma) ==> AddrOk(m', ma)
    ensures RefOk(m, vv, pending) ==> RefOk(m', vv, pending)
    ensures RefRange(m) ==> RefRange(m')
    ensures TriedOk(m, tt, hash) ==> TriedOk(m', tt, hash)
    ensures TriedIds(m') == TriedIds(m) && NewIds(m') == NewIds(m)
  {
    forall id | id in m.Keys + m'.Keys ensures id in m && id in m' && SameRole(m[id], m'[id]) {
    }
  }

  // ----- Swapping two random positions -----------------------------------------------------

  function Swapped(v: seq<int>, i: int, j: int): seq<int>
    requires 0 <= i < |v| && 0 <= j < |v|
  {
    v[i := v[j]][j := v[i]]
  }

  function Repositioned(m: Infos, a: int, i: int, b: int, j: int): Infos
    requires a in m && b in m
  {
    m[a := m[a].(nRandomPos := i)][b := m[b].(nRandomPos := j)]
  }

  lemma SwapKeeps(m: Infos, v: seq<int>, i: int, j: int)
    requires RandomOk(m, v) && 0 <= i < |v| && 0 <= j < |v| && i != j
    ensures v[i] != v[j]
    ensures RandomOk(Repositioned(m, v[i], j, v[j], i), Swapped(v, i, j))
    ensures SameRoles(m, Repositioned(m, v[i], j, v[j], i))
  {
  }

  // ----- Removing the last id of the random order -------------------------------------------

  lemma PopKeeps(m: Infos, v: seq<int>, id: int)
    requires RandomOk(m, v) && id in m && m[id].nRandomPos == |v| - 1
    ensures RandomOk(m - {id}, v[..|v| - 1])
  {
  }

  lemma EraseKeeps(
    m: Infos, ma: map<int, int>, vv: Buckets, pending: int, tt: seq<seq<int>>, hash: Service -> int, id: int)
    requires id in m && !m[id].fInTried && id != pending
    requires AddrOk(m, ma) && RefOk(m, vv, pending) && TriedOk(m, tt, hash) && Count(vv, id) == 0
    ensures AddrOk(m - {id}, ma - {m[id].addr.ip})
    ensures RefOk(m - {id}, vv, pending)
    ensures TriedOk(m - {id}, tt, hash)
    ensures TriedIds(m - {id}) == TriedIds(m) && NewIds(m - {id}) == NewIds(m) - {id} && id in NewIds(m)
  {
    CountZero(vv, id);
  }

  // ----- The random order counts the entries -------------------------------------------------

  lemma {:induction false} DistinctCardinality(s: seq<int>)
    requires Distinct(s)
    ensures |set k | 0 <= k < |s| :: s[k]| == |s|
  {
    if s != [] {
      var n := |s| - 1;
      DistinctCardinality(s[..n]);
      assert (set k | 0 <= k < |s| :: s[k]) == (set k | 0 <= k < n :: s[..n][k]) + {s[n]};
    }
  }

  lemma RandomCounts(m: Infos, v: seq<int>)
    requires RandomOk(m, v)
    ensures |v| == |m| && |m| == |TriedIds(m)| + |NewIds(m)|
  {
    assert Distinct(v) by {
      forall i, j | 0 <= i < j < |v| ensures v[i] != v[j] {
        assert m[v[i]].nRandomPos == i && m[v[j]].nRandomPos == j;
      }
    }
    DistinctCardinality(v);
    var s := set k | 0 <= k < |v| :: v[k];
    assert s == m.Keys by {
      forall id | id in m ensures id in s {
        assert v[m[id].nRandomPos] == id;
      }
    }
    assert m.Keys == TriedIds(m) + NewIds(m);
  }

  // ----- Creating an entry ---------------------------------------------------------------------

  const NOBODY: int := -1

  /** All ids handed out so far are below the counter. */
  ghost predicate IdsBelow(m: Infos, n: int) {
    0 <= n && forall id :: id in m ==> 0 <= id < n
  }

  lemma CreateKeeps(
    m: Infos, ma: map<int, int>, v: seq<int>, vv: Buckets, tt: seq<seq<int>>, hash: Service -> int, id: int, info: Info)
    requires id !in m && info.addr.ip !in ma
    requires info.nRefCount == 0 && !info.fInTried && info.nRandomPos == |v|
    requires AddrOk(m, ma) && RandomOk(m, v) && RefOk(m, vv, NOBODY) && TriedOk(m, tt, hash) && id != NOBODY
    ensures AddrOk(m[id := info], ma[info.addr.ip := id])
    ensures RandomOk(m[id := info], v + [id])
    ensures RefOk(m[id := info], vv, NOBODY)
    ensures TriedOk(m[id := info], tt, hash)
    ensures TriedIds(m[id := info]) == TriedIds(m) && NewIds(m[id := info]) == NewIds(m) + {id} && id !in NewIds(m)
  {
    CountZero(vv, id);
  }

  // ----- Counting references -------------------------------------------------------------------

  function WithRef(m: Infos, id: int, n: int): Infos
    requires id in m
  {
    m[id := m[id].(nRefCount := n)]
  }

  lemma RefChangeKeeps(
    m: Infos, ma: map<int, int>, v: seq<int>, tt: seq<seq<int>>, hash: Service -> int, id: int, n: int)
    requires id in m
    ensures AddrOk(m, ma) ==> AddrOk(WithRef(m, id, n), ma)
    ensures RandomOk(m, v) ==> RandomOk(WithRef(m, id, n), v)
    ensures TriedOk(m, tt, hash) ==> TriedOk(WithRef(m, id, n), tt, hash)
    ensures TriedIds(WithRef(m, id, n)) == TriedIds(m) && NewIds(WithRef(m, id, n)) == NewIds(m)
  {
  }

  /** Counting a reference that is still to be entered in a bucket. */
  lemma PromiseKeeps(m: Infos, vv: Buckets, id: int)
    requires RefOk(m, vv, NOBODY) && id in m && NOBODY !in m
    ensures RefOk(WithRef(m, id, m[id].nRefCount + 1), vv, id)
  {
  }

  /** Entering the promised reference. */
  lemma EnterKeeps(m: Infos, vv: Buckets, b: nat, id: int)
    requires RefOk(m, vv, id) && id in m && !m[id].fInTried && id != NOBODY && b < |vv| && id !in vv[b]
    requires NOBODY !in m
    ensures RefOk(m, vv[b := vv[b] + {id}], NOBODY)
  {
    var vv' := vv[b := vv[b] + {id}];
    forall x | x in m ensures m[x].nRefCount == Count(vv', x) + Bit(x == NOBODY) {
      CountUpdate(vv, b, vv[b] + {id}, x);
    }
  }

  /** Taking an entry out of one bucket and counting it down. */
  lemma DropKeeps(m: Infos, vv: Buckets, pending: int, b: nat, id: int)
    requires RefOk(m, vv, pending) && b < |vv| && id in vv[b]
    ensures RefOk(WithRef(m, id, m[id].nRefCount - 1), vv[b := vv[b] - {id}], pending)
  {
    var vv' := vv[b := vv[b] - {id}];
    var m' := WithRef(m, id, m[id].nRefCount - 1);
    forall x | x in m' ensures m'[x].nRefCount == Count(vv', x) + Bit(x == pending) {
      CountUpdate(vv, b, vv[b] - {id}, x);
    }
  }

  // ----- Taking an entry out of every bucket ------------------------------------------------------

  function Without(vv: Buckets, id: int): (r: Buckets)
    ensures |r| == |vv| && forall b :: 0 <= b < |vv| ==> r[b] == vv[b] - {id}
  {
    if vv == [] then [] else Without(vv[..|vv| - 1], id) + [vv[|vv| - 1] - {id}]
  }

  lemma {:induction false} CountWithout(vv: Buckets, id: int, x: int)
    ensures Count(Without(vv, id), x) == if x == id then 0 else Count(vv, x)
  {
    if vv != [] {
      CountWithout(vv[..|vv| - 1], id, x);
      assert Without(vv, id)[..|vv| - 1] == Without(vv[..|vv| - 1], id);
    }
  }

  lemma WithoutKeeps(m: Infos, vv: Buckets, id: int)
    requires RefOk(m, vv, NOBODY) && id in m && NOBODY !in m
    ensures RefOk(WithRef(m, id, 0), Without(vv, id), NOBODY)
    ensures Count(Without(vv, id), id) == 0
    ensures Small(vv) ==> Small(Without(vv, id))
  {
    var m' := WithRef(m, id, 0);
    forall x | x in m' ensures m'[x].nRefCount == Count(Without(vv, id), x) + Bit(x == NOBODY) {
      CountWithout(vv, id, x);
    }
    CountWithout(vv, id, id);
    if Small(vv) {
      forall b | 0 <= b < |vv| ensures |Without(vv, id)[b]| <= NEW_BUCKET_SIZE {
        if id in vv[b] {
          assert vv[b] == (vv[b] - {id}) + {id};
        } else {
          assert vv[b] - {id} == vv[b];
        }
      }
    }
  }

  // ----- Moving into the tried table ---------------------------------------------------------------

  function WithTried(m: Infos, id: int, t: bool): Infos
    requires id in m
  {
    m[id := m[id].(fInTried := t)]
  }

  lemma TriedChangeKeeps(m: Infos, ma: map<int, int>, v: seq<int>, id: int, t: bool)
    requires id in m
    ensures AddrOk(m, ma) ==> AddrOk(WithTried(m, id, t), ma)
    ensures RandomOk(m, v) ==> RandomOk(WithTried(m, id, t), v)
  {
  }

  /** There is room: the entry joins the tried bucket of its address. */
  lemma JoinTried(m: Infos, vv: Buckets, tt: seq<seq<int>>, hash: Service -> int, id: int)
    requires RefOk(m, vv, NOBODY) && TriedOk(m, tt, hash) && id in m && !m[id].fInTried && Count(vv, id) == 0
    ensures var k := TriedBucket(hash, m[id].addr);
            && TriedOk(WithTried(m, id, true), tt[k := tt[k] + [id]], hash)
            && RefOk(WithTried(m, id, true), vv, NOBODY)
    ensures TriedIds(WithTried(m, id, true)) == TriedIds(m) + {id} && id !in TriedIds(m)
    ensures NewIds(WithTried(m, id, true)) == NewIds(m) - {id} && id in NewIds(m)
  {
    CountZero(vv, id);
    var k := TriedBucket(hash, m[id].addr);
    var m', tt' := WithTried(m, id, true), tt[k := tt[k] + [id]];
    assert id !in tt[k];
    assert Distinct(tt'[k]);
    forall b, x | 0 <= b < |tt'| && x in tt'[b]
      ensures x in m' && m'[x].fInTried && TriedBucket(hash, m'[x].addr) == b
    {
      if b != k || x != id {
        assert x in tt[b];
      }
    }
  }

  /** Putting a tried entry back: it leaves its place in the tried bucket to `id`. */
  lemma ReplaceTried(m: Infos, tt: seq<seq<int>>, hash: Service -> int, id: int, n: int)
    requires TriedOk(m, tt, hash) && id in m && !m[id].fInTried
    requires 0 <= n < |tt[TriedBucket(hash, m[id].addr)]|
    ensures var k := TriedBucket(hash, m[id].addr); var old_ := tt[k][n];
            && old_ in m && m[old_].fInTried && old_ != id
            && TriedOk(WithTried(WithTried(m, old_, false), id, true), tt[k := tt[k][n := id]], hash)
  {
    var k := TriedBucket(hash, m[id].addr);
    var out := tt[k][n];
    assert out in tt[k];
    assert id !in tt[k];
    var m', tt' := WithTried(WithTried(m, out, false), id, true), tt[k := tt[k][n := id]];
    forall b | 0 <= b < |tt'| ensures Distinct(tt'[b]) {
      if b == k {
        forall i, j | 0 <= i < j < |tt'[k]| ensures tt'[k][i] != tt'[k][j] {
          assert tt[k][i] in tt[k] && tt[k][j] in tt[k];
        }
      }
    }
    forall b, x | 0 <= b < |tt'| && x in tt'[b]
      ensures x in m' && m'[x].fInTried && TriedBucket(hash, m'[x].addr) == b
    {
      if b == k {
        var i :| 0 <= i < |tt'[k]| && tt'[k][i] == x;
        assert i != n ==> tt[k][i] == x && x in tt[k] && x != out;
      } else {
        assert x in tt[b];
      }
    }
    forall x | x in m' && m'[x].fInTried ensures x in tt'[TriedBucket(hash, m'[x].addr)] {
      if x == id {
        assert tt'[k][n] == id;
      } else {
        var b := TriedBucket(hash, m[x].addr);
        if b == k {
          var i :| 0 <= i < |tt[k]| && tt[k][i] == x;
          assert i != n;
          assert tt'[k][i] == x;
        }
      }
    }
  }

  /** Shuffling inside a tried bucket changes nothing that matters. */
  lemma TriedSwapKeeps(m: Infos, tt: seq<seq<int>>, hash: Service -> int, b: int, i: int, j: int)
    requires TriedOk(m, tt, hash) && 0 <= b < |tt| && 0 <= i < |tt[b]| && 0 <= j < |tt[b]|
    ensures TriedOk(m, tt[b := Swapped(tt[b], i, j)], hash)
  {
    var s := Swapped(tt[b], i, j);
    assert s[j] == tt[b][i] && s[i] == tt[b][j];
    forall x ensures x in s <==> x in tt[b] {
      if x in s {
        var k :| 0 <= k < |s| && s[k] == x;
        assert x == tt[b][if k == j then i else if k == i then j else k];
      }
      if x in tt[b] {
        var k :| 0 <= k < |s| && tt[b][k] == x;
        assert x == s[if k == j then i else if k == i then j else k];
      }
    }
  }

  /** A tried entry goes back to one new bucket while `id` takes its place. */
  lemma EvictRefs(m: Infos, vv: Buckets, out: int, id: int, w: nat)
    requires RefOk(m, vv, NOBODY) && out in m && id in m && out != id && NOBODY !in m
    requires m[out].fInTried && Count(vv, id) == 0 && w < |vv|
    ensures out !in vv[w]
    ensures RefOk(WithTried(WithTried(WithRef(m, out, 1), out, false), id, true), vv[w := vv[w] + {out}], NOBODY)
  {
    CountZero(vv, out);
    CountZero(vv, id);
    var m' := WithTried(WithTried(WithRef(m, out, 1), out, false), id, true);
    var vv' := vv[w := vv[w] + {out}];
    forall x | x in m' ensures m'[x].nRefCount == Count(vv', x) + Bit(x == NOBODY) {
      CountUpdate(vv, w, vv[w] + {out}, x);
    }
    forall b, x | 0 <= b < |vv'| && x in vv'[b] ensures x in m' && !m'[x].fInTried {
      if x != out {
        assert x in vv[b];
      }
    }
  }

  lemma ExchangeCardinality(s: set<int>, out: int, id: int)
    requires out in s && id !in s
    ensures |s - {out} + {id}| == |s|
  {
  }

  lemma EvictIds(m: Infos, m': Infos, out: int, id: int)
    requires out in m && id in m && m[out].fInTried && !m[id].fInTried
    requires m' == WithTried(WithTried(WithRef(m, out, 1), out, false), id, true)
    ensures |TriedIds(m')| == |TriedIds(m)| && |NewIds(m')| == |NewIds(m)|
  {
    ExchangeCardinality(TriedIds(m), out, id);
    ExchangeCardinality(NewIds(m), id, out);
    assert TriedIds(m') == TriedIds(m) - {out} + {id};
    assert NewIds(m') == NewIds(m) - {id} + {out};
  }

  /** New statistics for an entry, in the same role and place. */
  lemma StatsKeep(m: Infos, v: seq<int>, id: int, info: Info)
    requires id in m && SameRole(m[id], info) && info.nRandomPos == m[id].nRandomPos
    ensures SameRoles(m, m[id := info])
    ensures RandomOk(m, v) ==> RandomOk(m[id := info], v)
  {
  }
}
