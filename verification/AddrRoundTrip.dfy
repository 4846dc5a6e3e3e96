/** Reading back what was written gives the same tables up to renumbering. */
module AddrRoundTrip {
  import opened AddrTable
  import opened Sequences
  import opened AddrMan
  import opened AddrStore
  import opened Ordered

  /** Consistent tables and the stream written from them. */
  datatype Original = Original(
    m: Infos, ma: map<int, int>, v: seq<int>, tt: seq<seq<int>>, vv: Buckets,
    s: Saved, newIds: seq<int>, triedIds: seq<int>, triedHash: Service -> int, newHash: (Service, int) -> int)
  {
    ghost predicate Ok() {
      && AddrOk(m, ma) && RandomOk(m, v) && RefOk(m, vv, NOBODY) && RefRangeBut(m, NOBODY) && NOBODY !in m
      && TriedOk(m, tt, triedHash) && Small(vv) && TriedSmall(tt)
      && WrittenFrom(s, m, vv, newIds, triedIds)
    }
  }

  /** Tables read so far: consistent, with ids 0 to n - 1. */
  ghost predicate Stage(t: Tables, hash: Service -> int, n: int) {
    && AddrOk(t.m, t.ma) && RandomOk(t.m, t.v) && RefOk(t.m, t.vv, NOBODY) && TriedOk(t.m, t.tt, hash)
      && TriedSmall(t.tt)
    && |t.v| == n && (forall i :: i in t.m <==> 0 <= i < n)
  }

  lemma DifferentIp(m: Infos, ma: map<int, int>, x: int, y: int)
    requires AddrOk(m, ma) && x in m && y in m && x != y
    ensures m[x].addr.ip != m[y].addr.ip
  {
  }

  // ----- New entries ----------------------------------------------------------------------------

  ghost predicate NewRead(o: Original, t: Tables, n: nat)
    requires n <= |o.s.newInfos|
  {
    && Stage(t, o.triedHash, n)
    && (forall i :: 0 <= i < n ==> t.m[i] == Load(o.s.newInfos[i], i))
    && (forall b :: 0 <= b < |t.vv| ==> t.vv[b] == {}) && (forall b :: 0 <= b < |t.tt| ==> t.tt[b] == [])
    && t.nTried == 0
  }

  lemma {:induction false} ReadsNew(o: Original, n: nat)
    requires o.Ok() && n <= |o.s.newInfos|
    ensures NewRead(o, AfterNew(o.s, o.newHash, n), n)
  {
    if n == 0 {
      EmptyCounts(NoTables().vv);
    } else {
      ReadsNew(o, n - 1);
      ReadsNewStep(o, AfterNew(o.s, o.newHash, n - 1), n - 1);
    }
  }

  lemma EmptyCounts(vv: Buckets)
    requires forall b :: 0 <= b < |vv| ==> vv[b] == {}
    ensures forall id :: Count(vv, id) == 0
  {
    forall id ensures Count(vv, id) == 0 {
      CountZero(vv, id);
    }
  }

  lemma FreshNewIp(o: Original, t: Tables, n: nat)
    requires o.Ok() && n < |o.s.newInfos| && NewRead(o, t, n)
    ensures o.s.newInfos[n].addr.ip !in t.ma
  {
    forall i | 0 <= i < n ensures t.m[i].addr.ip != o.s.newInfos[n].addr.ip {
      DifferentIp(o.m, o.ma, o.newIds[i], o.newIds[n]);
    }
  }

  lemma ReadsNewStep(o: Original, t: Tables, n: nat)
    requires o.Ok() && n < |o.s.newInfos| && NewRead(o, t, n)
    ensures |t.vv| == NEW_BUCKET_COUNT
    ensures NewRead(o, ReadNew(t, o.s.newInfos[n], n, |o.s.buckets| != NEW_BUCKET_COUNT, o.newHash), n + 1)
  {
    FreshNewIp(o, t, n);
    CreateKeeps(t.m, t.ma, t.v, t.vv, t.tt, o.triedHash, n, Load(o.s.newInfos[n], n));
  }

  // ----- Tried entries -----------------------------------------------------------------------------

  ghost predicate TriedRead(o: Original, t: Tables, n: nat)
    requires n <= |o.s.triedInfos|
  {
    var base := |o.s.newInfos|;
    && Stage(t, o.triedHash, base + n)
    && (forall i :: 0 <= i < base ==> t.m[i] == Load(o.s.newInfos[i], i))
    && (forall i :: base <= i < base + n ==> t.m[i] == Load(o.s.triedInfos[i - base], i).(fInTried := true))
    && (forall b :: 0 <= b < |t.vv| ==> t.vv[b] == {})
    && t.nIdCount == base + n && t.nNew == base && t.nTried == n
  }

  lemma {:induction false} ReadsTried(o: Original, n: nat)
    requires o.Ok() && n <= |o.s.triedInfos|
    ensures TriedRead(o, AfterTried(o.s, o.triedHash, o.newHash, n), n)
  {
    hide TriedRead, ReadTried;
    if n == 0 {
      TriedStart(o);
    } else {
      ReadsTried(o, n - 1);
      ReadsTriedStep(o, AfterTried(o.s, o.triedHash, o.newHash, n - 1), n - 1);
    }
  }

  lemma TriedStart(o: Original)
    requires o.Ok()
    ensures TriedRead(o, AfterTried(o.s, o.triedHash, o.newHash, 0), 0)
  {
    ReadsNew(o, |o.s.newInfos|);
    hide AddrOk, RandomOk, RefOk, TriedOk, RefRangeBut, Small, TriedSmall, BucketWritten, AfterNew;
  }

  lemma FreshTriedIp(o: Original, t: Tables, n: nat)
    requires o.Ok() && n < |o.s.triedInfos| && TriedRead(o, t, n)
    ensures o.s.triedInfos[n].addr.ip !in t.ma
  {
    hide RandomOk, RefOk, TriedOk, RefRangeBut, Small, TriedSmall, BucketWritten;
    var base := |o.s.newInfos|;
    assert o.triedIds[n] in Elements(o.triedIds);
    forall i | 0 <= i < base ensures t.m[i].addr.ip != o.s.triedInfos[n].addr.ip {
      assert o.newIds[i] in Elements(o.newIds);
      DifferentIp(o.m, o.ma, o.newIds[i], o.triedIds[n]);
    }
    forall i | base <= i < base + n ensures t.m[i].addr.ip != o.s.triedInfos[n].addr.ip {
      DifferentIp(o.m, o.ma, o.triedIds[i - base], o.triedIds[n]);
    }
  }

  /** No tried entry is lost: its bucket cannot be full yet, since all its entries were in one bucket before. */
  lemma NotLost(o: Original, t: Tables, n: nat)
    requires o.Ok() && n < |o.s.triedInfos| && TriedRead(o, t, n)
    ensures |t.tt| == TRIED_BUCKET_COUNT && |t.tt[TriedBucket(o.triedHash, o.s.triedInfos[n].addr)]| < TRIED_BUCKET_SIZE
  {
    hide RandomOk, RefOk, AddrOk, RefRangeBut, Small, BucketWritten;
    var base, k := |o.s.newInfos|, TriedBucket(o.triedHash, o.s.triedInfos[n].addr);
    var r := t.tt[k];
    forall i | 0 <= i < |r| ensures base <= r[i] < base + n && o.triedIds[r[i] - base] in o.tt[k] {
      TriedRowMember(o, t, n, k, i);
    }
    InTriedBucket(o, n);
    Injected(r, base, o.triedIds, n, o.tt[k]);
  }

  /** Distinct numbers, and one more, name distinct members of a list: the list is longer. */
  lemma Injected(r: seq<int>, base: int, ids: seq<int>, n: nat, row: seq<int>)
    requires Distinct(r) && Rising(ids) && n < |ids| && ids[n] in row
    requires forall i :: 0 <= i < |r| ==> base <= r[i] < base + n && ids[r[i] - base] in row
    ensures |r| < |row|
  {
    var q := seq(|r|, i requires 0 <= i < |r| => ids[r[i] - base]) + [ids[n]];
    assert Distinct(q) by {
      forall i, j | 0 <= i < j < |q| ensures q[i] != q[j] {
        if j < |r| {
          assert r[i] != r[j];
        }
      }
    }
    DistinctCardinality(q);
    ElementsSize(row);
    forall x | x in Elements(q) ensures x in Elements(row) {
      var i :| 0 <= i < |q| && q[i] == x;
      assert x in row;
      var j :| 0 <= j < |row| && row[j] == x;
    }
    SubsetSize(Elements(q), Elements(row));
  }

  lemma InTriedBucket(o: Original, n: nat)
    requires o.Ok() && n < |o.s.triedInfos|
    ensures o.triedIds[n] in o.m && o.m[o.triedIds[n]].fInTried
    ensures o.triedIds[n] in o.tt[TriedBucket(o.triedHash, o.s.triedInfos[n].addr)]
  {
    assert o.triedIds[n] in Elements(o.triedIds);
    assert o.triedIds[n] in TriedIds(o.m);
  }

  lemma TriedRowMember(o: Original, t: Tables, n: nat, k: int, i: nat)
    requires o.Ok() && n <= |o.s.triedInfos| && TriedRead(o, t, n) && 0 <= k < |t.tt| && i < |t.tt[k]|
    ensures var base := |o.s.newInfos|; var x := t.tt[k][i];
            base <= x < base + n && TriedBucket(o.triedHash, o.s.triedInfos[x - base].addr) == k
              && o.triedIds[x - base] in o.tt[k]
  {
    hide RandomOk, RefOk, AddrOk, RefRangeBut, Small, BucketWritten;
    var x := t.tt[k][i];
    assert x in t.tt[k];
    assert x in t.m && t.m[x].fInTried && TriedBucket(o.triedHash, t.m[x].addr) == k;
    InTriedBucket(o, x - |o.s.newInfos|);
  }

  lemma ReadsTriedStep(o: Original, t: Tables, n: nat)
    requires o.Ok() && n < |o.s.triedInfos| && TriedRead(o, t, n)
    ensures |t.tt| == TRIED_BUCKET_COUNT
    ensures TriedRead(o, ReadTried(t, o.s.triedInfos[n], o.triedHash), n + 1)
  {
    hide AddrOk, RandomOk, RefOk, TriedOk, RefRangeBut, Small, TriedSmall, BucketWritten, WrittenFrom;
    var id, i := t.nIdCount, o.s.triedInfos[n];
    FreshTriedIp(o, t, n);
    NotLost(o, t, n);
    TriedStepTables(t, o.triedHash, i, id);
    assert ReadTried(t, i, o.triedHash).m == t.m[id := Load(i, |t.v|).(fInTried := true)];
  }

  /** Entering one tried entry keeps the tables consistent. */
  lemma TriedStepTables(t: Tables, hash: Service -> int, i: SavedInfo, id: int)
    requires Stage(t, hash, id) && id == t.nIdCount >= 0 && i.addr.ip !in t.ma
    requires |t.tt[TriedBucket(hash, i.addr)]| < TRIED_BUCKET_SIZE
    ensures |t.tt| == TRIED_BUCKET_COUNT && Stage(ReadTried(t, i, hash), hash, id + 1)
  {
    hide AddrOk, RandomOk, RefOk, TriedOk;
    var info, k := Load(i, |t.v|), TriedBucket(hash, i.addr);
    TriedThere(t.m, t.tt, hash, 0);
    CreateKeeps(t.m, t.ma, t.v, t.vv, t.tt, hash, id, info);
    var m1 := t.m[id := info];
    RefZero(m1, t.vv, id);
    JoinTried(m1, t.vv, t.tt, hash, id);
    TriedChangeKeeps(m1, t.ma[i.addr.ip := id], t.v + [id], id, true);
    TriedRoom(t.tt, k, t.tt[k] + [id]);
    assert WithTried(m1, id, true) == t.m[id := info.(fInTried := true)];
  }

  lemma RefZero(m: Infos, vv: Buckets, id: int)
    requires RefOk(m, vv, NOBODY) && id in m && m[id].nRefCount == 0
    ensures Count(vv, id) == 0
  {
  }

  // ----- Bucket memberships --------------------------------------------------------------------------

  /** The tables while memberships are read: reference counts and new buckets grow, nothing else changes. */
  ghost predicate RefsRead(o: Original, t0: Tables, t: Tables, b: nat, k: nat)
    requires b <= |o.s.buckets| && (b < |o.s.buckets| ==> k <= |o.s.buckets[b]|)
  {
    && t.ma == t0.ma && t.v == t0.v && t.tt == t0.tt && t.nIdCount == t0.nIdCount && t.nNew == t0.nNew
      && t.nTried == t0.nTried
    && SameButRefs(t0.m, t.m)
    && RefOk(t.m, t.vv, NOBODY) && |t.vv| == |o.s.buckets|
    && (forall c :: 0 <= c < b ==> t.vv[c] == Elements(o.s.buckets[c]))
    && (b < |t.vv| ==> t.vv[b] == if b < |o.s.buckets| then Elements(o.s.buckets[b][..k]) else {})
    && (forall c :: b < c < |t.vv| ==> t.vv[c] == {})
  }

  ghost predicate SameButRefs(m: Infos, m': Infos) {
    m.Keys == m'.Keys && forall i :: i in m.Keys ==> m'[i] == m[i].(nRefCount := m'[i].nRefCount)
  }

  lemma {:induction false} CountLess(vv: Buckets, i: int, ww: Buckets, x: int)
    requires |vv| == |ww| && forall b :: 0 <= b < |vv| && i in vv[b] ==> x in ww[b]
    ensures Count(vv, i) <= Count(ww, x)
    ensures (exists b :: 0 <= b < |vv| && i !in vv[b] && x in ww[b]) ==> Count(vv, i) < Count(ww, x)
    ensures (forall b :: 0 <= b < |vv| ==> (i in vv[b] <==> x in ww[b])) ==> Count(vv, i) == Count(ww, x)
  {
    if vv != [] {
      var n := |vv| - 1;
      assert forall b :: 0 <= b < n ==> vv[..n][b] == vv[b] && ww[..n][b] == ww[b];
      CountLess(vv[..n], i, ww[..n], x);
      if b :| 0 <= b < |vv| && i !in vv[b] && x in ww[b] {
        assert b < n ==> i !in vv[..n][b] && x in ww[..n][b];
      }
    }
  }

  /** The next stored number may enter: its entry has fewer references than it had originally, so fewer than four. */
  lemma RoomForRef(o: Original, t0: Tables, t: Tables, b: nat, k: nat)
    requires o.Ok() && TriedRead(o, t0, |o.s.triedInfos|) && b < |o.s.buckets| && k < |o.s.buckets[b]|
             && RefsRead(o, t0, t, b, k)
    ensures var n := o.s.buckets[b][k];
            && 0 <= n < |o.newIds| && n in t.m && !t.m[n].fInTried && n !in t.vv[b]
            && t.m[n].nRefCount < NEW_BUCKETS_PER_ADDRESS
  {
    hide RandomOk, AddrOk, TriedOk, Small, TriedSmall;
    var n := o.s.buckets[b][k];
    assert BucketWritten(o.s.buckets[b], o.vv[b], o.newIds);
    assert n in t0.m && t0.m[n] == Load(o.s.newInfos[n], n);
    var x := o.newIds[n];
    forall c | 0 <= c < |t.vv| && n in t.vv[c] ensures x in o.vv[c] {
      StoredMember(o, c, n);
    }
    assert n !in t.vv[b] && x in o.vv[b];
    CountLess(t.vv, n, o.vv, x);
    assert x in Elements(o.newIds);
    assert x in NewIds(o.m);
  }

  lemma StoredMember(o: Original, c: nat, n: int)
    requires o.Ok() && c < |o.s.buckets|
    ensures n in Elements(o.s.buckets[c]) <==> 0 <= n < |o.newIds| && o.newIds[n] in o.vv[c]
  {
    assert BucketWritten(o.s.buckets[c], o.vv[c], o.newIds);
    if 0 <= n < |o.newIds| && o.newIds[n] in o.vv[c] {
      assert n in o.s.buckets[c];
      var k :| 0 <= k < |o.s.buckets[c]| && o.s.buckets[c][k] == n;
    }
  }

  lemma ReadsRefStep(o: Original, t0: Tables, t: Tables, b: nat, k: nat)
    requires o.Ok() && TriedRead(o, t0, |o.s.triedInfos|) && b < |o.s.buckets| && k < |o.s.buckets[b]|
             && RefsRead(o, t0, t, b, k)
    ensures |t.vv| == NEW_BUCKET_COUNT
    ensures RefsRead(o, t0, ReadRef(t, b, o.s.buckets[b][k], true), b, k + 1)
  {
    var n := o.s.buckets[b][k];
    RoomForRef(o, t0, t, b, k);
    assert NOBODY !in t.m by {
      assert NOBODY !in t0.m.Keys;
    }
    ElementsNext(o.s.buckets[b], k);
    RefStepTables(t0, t, b, n);
  }

  lemma ElementsNext(s: seq<int>, k: nat)
    requires k < |s|
    ensures Elements(s[..k + 1]) == Elements(s[..k]) + {s[k]}
  {
    assert s[..k + 1][..k] == s[..k];
    forall x | x in Elements(s[..k]) + {s[k]} ensures x in Elements(s[..k + 1]) {
      if x == s[k] {
        assert s[..k + 1][k] == x;
      } else {
        var i :| 0 <= i < k && s[..k][i] == x;
        assert s[..k + 1][i] == x;
      }
    }
  }

  lemma RefStepTables(t0: Tables, t: Tables, b: nat, n: int)
    requires RefOk(t.m, t.vv, NOBODY) && b < |t.vv| && n in t.m && !t.m[n].fInTried && n !in t.vv[b] && NOBODY !in t.m
    requires t.m[n].nRefCount < NEW_BUCKETS_PER_ADDRESS && SameButRefs(t0.m, t.m)
    ensures var r := ReadRef(t, b, n, true);
            RefOk(r.m, r.vv, NOBODY) && SameButRefs(t0.m, r.m) && r.vv == t.vv[b := t.vv[b] + {n}]
  {
    PromiseKeeps(t.m, t.vv, n);
    EnterKeeps(WithRef(t.m, n, t.m[n].nRefCount + 1), t.vv, b, n);
  }

  lemma {:induction false} ReadsRefs(o: Original, t0: Tables, b: nat, k: nat)
    requires o.Ok() && TriedRead(o, t0, |o.s.triedInfos|) && |t0.vv| == NEW_BUCKET_COUNT
    requires b <= |o.s.buckets| && (if b < |o.s.buckets| then k <= |o.s.buckets[b]| else k == 0)
    ensures |o.s.buckets| == NEW_BUCKET_COUNT && RefsRead(o, t0, AfterRefs(t0, o.s, b, k), b, k)
    decreases b, k
  {
    hide RefsRead, TriedRead, AddrOk, RandomOk, RefOk, TriedOk, RefRangeBut, Small, TriedSmall, BucketWritten,
         WrittenFrom, ReadRef;
    BucketCount(o);
    if k > 0 {
      ReadsRefs(o, t0, b, k - 1);
      ReadsRefStep(o, t0, AfterRefs(t0, o.s, b, k - 1), b, k - 1);
    } else if b > 0 {
      ReadsRefs(o, t0, b - 1, |o.s.buckets[b - 1]|);
      RefsNext(o, t0, AfterRefs(t0, o.s, b - 1, |o.s.buckets[b - 1]|), b - 1);
    } else {
      RefsStart(o, t0);
    }
  }

  lemma BucketCount(o: Original)
    requires o.Ok()
    ensures |o.s.buckets| == NEW_BUCKET_COUNT
  {
  }

  lemma RefsStart(o: Original, t0: Tables)
    requires o.Ok() && TriedRead(o, t0, |o.s.triedInfos|)
    ensures RefsRead(o, t0, t0, 0, 0)
  {
    hide AddrOk, RandomOk, TriedOk, Small, TriedSmall, BucketWritten;
    assert Elements(o.s.buckets[0][..0]) == {};
  }

  lemma RefsNext(o: Original, t0: Tables, t: Tables, b: nat)
    requires b < |o.s.buckets| && RefsRead(o, t0, t, b, |o.s.buckets[b]|)
    ensures RefsRead(o, t0, t, b + 1, 0)
  {
    assert o.s.buckets[b][..|o.s.buckets[b]|] == o.s.buckets[b];
    assert b + 1 < |o.s.buckets| ==> Elements(o.s.buckets[b + 1][..0]) == {};
  }

  // ----- The round trip --------------------------------------------------------------------------------

  /** The fields of an entry that outlive a restart. */
  predicate SameFields(a: Info, b: Info) {
    && a.addr == b.addr && a.source == b.source && a.nServices == b.nServices && a.nTime == b.nTime
    && a.nLastSuccess == b.nLastSuccess && a.nAttempts == b.nAttempts
  }

  /** Every entry is there again with its stored fields, its table and its reference count: new entry i
      under id i, tried entry j under id nNew + j. */
  ghost predicate SameEntries(o: Original, t: Tables)
    requires o.Ok()
  {
    var base := |o.newIds|;
    && t.nNew == base && t.nTried == |o.triedIds| && t.nIdCount == base + |o.triedIds|
    && (forall i :: i in t.m <==> 0 <= i < base + |o.triedIds|)
    && (forall i :: i in t.m ==> t.m[i].nLastTry == 0)
    && (forall i :: 0 <= i < base ==>
          SameFields(t.m[i], o.m[o.newIds[i]]) && !t.m[i].fInTried && t.m[i].nRefCount == o.m[o.newIds[i]].nRefCount)
    && (forall i :: base <= i < base + |o.triedIds| ==>
          SameFields(t.m[i], o.m[o.triedIds[i - base]]) && t.m[i].fInTried)
  }

  /** Every new-bucket membership is kept and none is added. */
  ghost predicate SameNewBuckets(o: Original, vv: Buckets) {
    && |vv| == |o.vv|
    && forall b :: 0 <= b < |vv| ==>
         |vv[b]| == |o.vv[b]| && forall i :: i in vv[b] <==> 0 <= i < |o.newIds| && o.newIds[i] in o.vv[b]
  }

  /** Every tried bucket has the same entries. */
  ghost predicate SameTriedBuckets(o: Original, tt: seq<seq<int>>) {
    && |tt| == |o.tt|
    && forall b, j :: 0 <= b < |tt| && 0 <= j < |o.triedIds| ==> (|o.newIds| + j in tt[b] <==> o.triedIds[j] in o.tt[b])
  }

  lemma BucketsMatch(o: Original, t0: Tables, t: Tables)
    requires o.Ok() && RefsRead(o, t0, t, |o.s.buckets|, 0)
    ensures SameNewBuckets(o, t.vv)
  {
    hide AddrOk, RandomOk, TriedOk, RefOk, Small, TriedSmall, RefRangeBut;
    forall b | 0 <= b < |t.vv|
      ensures |t.vv[b]| == |o.vv[b]| && forall i :: i in t.vv[b] <==> 0 <= i < |o.newIds| && o.newIds[i] in o.vv[b]
    {
      assert BucketWritten(o.s.buckets[b], o.vv[b], o.newIds);
      assert Distinct(o.s.buckets[b]);
      DistinctCardinality(o.s.buckets[b]);
      forall i ensures i in t.vv[b] <==> 0 <= i < |o.newIds| && o.newIds[i] in o.vv[b] {
        StoredMember(o, b, i);
      }
    }
  }

  lemma RefsMatch(o: Original, t0: Tables, t: Tables, i: nat)
    requires o.Ok() && RefsRead(o, t0, t, |o.s.buckets|, 0) && SameNewBuckets(o, t.vv) && i < |o.newIds| && i in t.m
    ensures t.m[i].nRefCount == o.m[o.newIds[i]].nRefCount
  {
    hide AddrOk, RandomOk, TriedOk, Small, TriedSmall, RefRangeBut;
    CountLess(t.vv, i, o.vv, o.newIds[i]);
  }

  lemma TriedMatch(o: Original, t: Tables)
    requires o.Ok() && TriedRead(o, t, |o.s.triedInfos|)
    ensures SameTriedBuckets(o, t.tt)
  {
    hide AddrOk, RandomOk, RefOk, Small, TriedSmall, RefRangeBut;
    forall b, j | 0 <= b < |t.tt| && 0 <= j < |o.triedIds|
      ensures |o.newIds| + j in t.tt[b] <==> o.triedIds[j] in o.tt[b]
    {
      TriedMatchOne(o, t, b, j);
    }
  }

  lemma TriedMatchOne(o: Original, t: Tables, b: nat, j: nat)
    requires o.Ok() && TriedRead(o, t, |o.s.triedInfos|) && b < |t.tt| && j < |o.triedIds|
    ensures |o.tt| == |t.tt| && (|o.newIds| + j in t.tt[b] <==> o.triedIds[j] in o.tt[b])
  {
    hide AddrOk, RandomOk, RefOk, Small, TriedSmall, RefRangeBut, BucketWritten;
    var x, k := |o.newIds| + j, TriedBucket(o.triedHash, o.s.triedInfos[j].addr);
    InTriedBucket(o, j);
    assert t.m[x] == Load(o.s.triedInfos[j], x).(fInTried := true);
    assert x in t.tt[k] && o.triedIds[j] in o.tt[k];
    OneTriedBucket(t.m, t.tt, o.triedHash, x, b, k);
    OneTriedBucket(o.m, o.tt, o.triedHash, o.triedIds[j], b, k);
  }

  lemma OneTriedBucket(m: Infos, tt: seq<seq<int>>, hash: Service -> int, id: int, b: nat, k: nat)
    requires TriedOk(m, tt, hash) && b < |tt| && k < |tt| && id in tt[k]
    ensures id in tt[b] <==> b == k
  {
    forall c | 0 <= c < |tt| && id in tt[c] ensures c == TriedBucket(hash, m[id].addr) {
    }
    assert k == TriedBucket(hash, m[id].addr);
  }

  lemma EntriesMatch(o: Original, t0: Tables, t: Tables)
    requires o.Ok() && TriedRead(o, t0, |o.s.triedInfos|) && RefsRead(o, t0, t, |o.s.buckets|, 0)
             && SameNewBuckets(o, t.vv)
    ensures SameEntries(o, t)
  {
    hide AddrOk, RandomOk, RefOk, TriedOk, Small, TriedSmall, RefRangeBut, SameNewBuckets, BucketWritten;
    forall i | i in t0.m.Keys ensures i in t.m && t.m[i] == t0.m[i].(nRefCount := t.m[i].nRefCount) {
    }
    assert forall i :: i in t.m <==> i in t0.m;
    forall i | 0 <= i < |o.newIds|
      ensures SameFields(t.m[i], o.m[o.newIds[i]]) && !t.m[i].fInTried
              && t.m[i].nRefCount == o.m[o.newIds[i]].nRefCount
    {
      assert i in t0.m && t0.m[i] == Load(o.s.newInfos[i], i);
      RefsMatch(o, t0, t, i);
    }
  }

  /** The tables read back satisfy the whole invariant. */
  lemma TablesConsistent(o: Original, t0: Tables, t: Tables)
    requires o.Ok() && TriedRead(o, t0, |o.s.triedInfos|) && RefsRead(o, t0, t, |o.s.buckets|, 0)
    requires SameEntries(o, t) && SameNewBuckets(o, t.vv)
    ensures AddrOk(t.m, t.ma) && RandomOk(t.m, t.v) && RefOk(t.m, t.vv, NOBODY) && TriedOk(t.m, t.tt, o.triedHash)
    ensures Small(t.vv) && TriedSmall(t.tt) && IdsBelow(t.m, t.nIdCount)
  {
    hide RefOk, RefRangeBut, WrittenFrom, SameEntries;
    RefsOnly(t0.m, t.m, t.ma, t.v, t.tt, o.triedHash);
    hide AddrOk, RandomOk, TriedOk;
    assert IdsBelow(t.m, t.nIdCount) by {
      forall i | i in t.m ensures 0 <= i < t.nIdCount {
        assert i in t0.m.Keys;
      }
    }
  }

  lemma RefsOnly(m: Infos, m': Infos, ma: map<int, int>, v: seq<int>, tt: seq<seq<int>>, hash: Service -> int)
    requires SameButRefs(m, m') && AddrOk(m, ma) && RandomOk(m, v) && TriedOk(m, tt, hash)
    ensures AddrOk(m', ma) && RandomOk(m', v) && TriedOk(m', tt, hash)
  {
    forall i | i in m.Keys + m'.Keys ensures i in m && i in m' && m'[i] == m[i].(nRefCount := m'[i].nRefCount) {
    }
  }

  lemma RangesMatch(o: Original, t: Tables)
    requires o.Ok() && SameEntries(o, t) && RefOk(t.m, t.vv, NOBODY)
    ensures RefRangeBut(t.m, NOBODY)
  {
    TriedRefs(o, t);
    hide AddrOk, RandomOk, TriedOk, Small, TriedSmall, BucketWritten, RefOk;
    forall i | 0 <= i < |o.newIds| ensures o.newIds[i] in NewIds(o.m) {
      assert o.newIds[i] in Elements(o.newIds);
    }
  }

  lemma CountsMatch(o: Original, t: Tables)
    requires o.Ok() && SameEntries(o, t)
    ensures t.nNew == |NewIds(t.m)| == |NewIds(o.m)| && t.nTried == |TriedIds(t.m)| == |TriedIds(o.m)|
  {
    hide AddrOk, RandomOk, TriedOk, Small, TriedSmall, BucketWritten, RefOk, RefRangeBut, NewIds, TriedIds, Elements;
    IdSets(t.m, |o.newIds|, |o.triedIds|);
    RisingSize(o.newIds);
    RisingSize(o.triedIds);
  }

  lemma IdSets(m: Infos, n: nat, k: nat)
    requires forall i :: i in m <==> 0 <= i < n + k
    requires (forall i :: 0 <= i < n ==> !m[i].fInTried) && (forall i :: n <= i < n + k ==> m[i].fInTried)
    ensures |NewIds(m)| == n && |TriedIds(m)| == k
  {
    assert NewIds(m) == Interval(0, n);
    assert TriedIds(m) == Interval(n, n + k);
  }

  lemma RisingSize(s: seq<int>)
    requires Rising(s)
    ensures |Elements(s)| == |s|
  {
    assert Distinct(s);
    DistinctCardinality(s);
  }

  function Interval(a: int, b: int): (s: set<int>)
    requires a <= b
    ensures |s| == b - a && forall x :: x in s <==> a <= x < b
    decreases b - a
  {
    if a == b then {} else Interval(a, b - 1) + {b - 1}
  }

  lemma TriedRefs(o: Original, t: Tables)
    requires o.Ok() && SameEntries(o, t) && RefOk(t.m, t.vv, NOBODY)
    ensures forall i :: i in t.m && t.m[i].fInTried ==> t.m[i].nRefCount == 0
    ensures TimesOk(o.m) ==> TimesOk(t.m)
  {
    hide AddrOk, RandomOk, TriedOk, Small, TriedSmall, BucketWritten;
    forall i | i in t.m && t.m[i].fInTried ensures t.m[i].nRefCount == 0 {
      CountZero(t.vv, i);
    }
    if TimesOk(o.m) {
      var base := |o.newIds|;
      forall i | i in t.m
        ensures t.m[i].nLastTry >= 0 && t.m[i].nLastSuccess >= 0 && (t.m[i].fInTried ==> t.m[i].nLastSuccess != 0)
      {
        var x := if i < base then o.newIds[i] else o.triedIds[i - base];
        assert SameFields(t.m[i], o.m[x]);
        assert i >= base ==> x in Elements(o.triedIds);
      }
    }
  }

  /** Serialising consistent tables and reading them back gives consistent tables that are the same up to
      renumbering of ids and order within tried buckets. */
  lemma RoundTrip(o: Original)
    requires o.Ok()
    ensures |o.s.buckets| == NEW_BUCKET_COUNT
    ensures var t := ReadAll(o.s, o.triedHash, o.newHash);
            && SameEntries(o, t) && SameNewBuckets(o, t.vv) && SameTriedBuckets(o, t.tt)
            && AddrOk(t.m, t.ma) && RandomOk(t.m, t.v) && RefOk(t.m, t.vv, NOBODY) && RefRangeBut(t.m, NOBODY)
            && TriedOk(t.m, t.tt, o.triedHash) && Small(t.vv) && TriedSmall(t.tt) && IdsBelow(t.m, t.nIdCount)
            && t.nNew == |NewIds(t.m)| == |NewIds(o.m)| && t.nTried == |TriedIds(t.m)| == |TriedIds(o.m)|
            && (TimesOk(o.m) ==> TimesOk(t.m))
  {
    BucketCount(o);
    hide AddrOk, RandomOk, RefOk, TriedOk, Small, TriedSmall, RefRangeBut, SameNewBuckets, SameEntries,
         SameTriedBuckets;
    hide TriedRead, WrittenFrom, NewIds, TriedIds, TimesOk, IdsBelow;
    var t0 := AfterTried(o.s, o.triedHash, o.newHash, |o.s.triedInfos|);
    ReadsTried(o, |o.s.triedInfos|);
    TriedMatch(o, t0);
    ReadsRefs(o, t0, |o.s.buckets|, 0);
    var t := ReadAll(o.s, o.triedHash, o.newHash);
    assert t.tt == t0.tt;
    hide RefsRead;
    BucketsMatch(o, t0, t);
    EntriesMatch(o, t0, t);
    TablesConsistent(o, t0, t);
    RangesMatch(o, t);
    TriedRefs(o, t);
    CountsMatch(o, t);
  }
}
