/** Writing the address manager to a stream and reading it back. */
module AddrStore {
  import opened AddrTable
  import opened Sequences
  import opened AddrMan
  import opened Ordered

  /** The fields of an entry that are stored. */
  datatype SavedInfo = SavedInfo(
    addr: Service, source: int, nServices: set<int>, nTime: int, nLastSuccess: int, nAttempts: int)

  /** The stream: new entries, tried entries, and per new bucket the numbers of its entries. */
  datatype Saved = Saved(newInfos: seq<SavedInfo>, triedInfos: seq<SavedInfo>, buckets: seq<seq<int>>)

  function Save(i: Info): SavedInfo {
    SavedInfo(i.addr, i.source, i.nServices, i.nTime, i.nLastSuccess, i.nAttempts)
  }

  /** What is written of an entry: its address with services and time, where it was heard of, its last
      success and its attempts. */
  predicate Stores(s: SavedInfo, i: Info) {
    && s.addr == i.addr && s.source == i.source && s.nServices == i.nServices && s.nTime == i.nTime
    && s.nLastSuccess == i.nLastSuccess && s.nAttempts == i.nAttempts
  }

  lemma SaveStores(i: Info)
    ensures Stores(Save(i), i)
  {
  }

  function Load(i: SavedInfo, pos: int): Info {
    Info(i.addr, i.source, i.nServices, i.nTime, i.nLastSuccess, 0, i.nAttempts, 0, false, pos)
  }

  // ----- Writing --------------------------------------------------------------------------

  ghost predicate Rising(s: seq<int>) {
    forall i, j :: 0 <= i < j < |s| ==> s[i] < s[j]
  }

  /** A stored bucket numbers exactly the entries of the bucket, each once. */
  ghost predicate BucketWritten(stored: seq<int>, bucket: set<int>, ids: seq<int>) {
    && |stored| == |bucket|
    && (forall k :: 0 <= k < |stored| ==> 0 <= stored[k] < |ids| && ids[stored[k]] in bucket)
    && (forall j, k :: 0 <= j < k < |stored| ==> stored[j] != stored[k])
    && (forall i :: 0 <= i < |ids| && ids[i] in bucket ==> i in stored)
  }

  /** The stream holds the tables; entry number i of each list is the entry with the i-th id. */
  ghost predicate WrittenFrom(s: Saved, m: Infos, vv: Buckets, newIds: seq<int>, triedIds: seq<int>) {
    && Rising(newIds) && Elements(newIds) == NewIds(m)
    && Rising(triedIds) && Elements(triedIds) == TriedIds(m)
    && |s.newInfos| == |newIds| && |s.triedInfos| == |triedIds| && |s.buckets| == |vv|
    && (forall i :: 0 <= i < |newIds| ==> newIds[i] in m && Stores(s.newInfos[i], m[newIds[i]]))
    && (forall i :: 0 <= i < |triedIds| ==> triedIds[i] in m && Stores(s.triedInfos[i], m[triedIds[i]]))
    && (forall b :: 0 <= b < |vv| ==> BucketWritten(s.buckets[b], vv[b], newIds))
  }

  /** Numbers the entries with references in id order until all `nNew` are found. */
  method WriteNew(m: Infos, nNew: int) returns (infos: seq<SavedInfo>, unk: map<int, int>, ghost ids: seq<int>)
    requires nNew == |NewIds(m)| && forall id :: id in m ==> (m[id].nRefCount != 0 <==> !m[id].fInTried)
    ensures Rising(ids) && Elements(ids) == NewIds(m) && |infos| == |ids|
    ensures forall i :: 0 <= i < |ids| ==>
            ids[i] in m && Stores(infos[i], m[ids[i]]) && ids[i] in unk && unk[ids[i]] == i
  {
    hide Stores, Save;
    infos, unk, ids := [], map[], [];
    var all := Ascending(m.Keys);
    var nIds, k := 0, 0;
    while k < |all| && nIds != nNew
      invariant 0 <= k <= |all| && nIds == |infos| == |ids|
      invariant Rising(ids)
      invariant forall x :: x in ids <==> x in all[..k] && x in m && !m[x].fInTried
      invariant forall i :: 0 <= i < |ids| ==>
                ids[i] in m && Stores(infos[i], m[ids[i]]) && ids[i] in unk && unk[ids[i]] == i
    {
      var id := all[k];
      assert id in all && all[..k + 1] == all[..k] + [id];
      BeforeIn(all, k);
      unk := unk[id := nIds];
      if m[id].nRefCount != 0 {
        SaveStores(m[id]);
        infos, ids := infos + [Save(m[id])], ids + [id];
        nIds := nIds + 1;
      }
      k := k + 1;
    }
    assert all[..|all|] == all;
    ListedAll(ids, NewIds(m), k == |all|);
  }

  lemma BeforeIn(all: seq<int>, k: nat)
    requires Rising(all) && k < |all|
    ensures forall x :: x in all[..k] ==> x < all[k]
  {
  }

  /** A rising list of members is all of the set once it is as long as the set. */
  lemma ListedAll(ids: seq<int>, s: set<int>, complete: bool)
    requires Rising(ids) && (forall x :: x in ids ==> x in s)
    requires |ids| == |s| || (complete && forall x :: x in s ==> x in ids)
    ensures Elements(ids) == s
  {
    assert Distinct(ids);
    DistinctCardinality(ids);
    assert Elements(ids) <= s;
    if |ids| == |s| {
      if exists x :: x in s && x !in Elements(ids) {
        var x :| x in s && x !in Elements(ids);
        SubsetSize(Elements(ids) + {x}, s);
      }
    } else {
      forall x | x in s ensures x in Elements(ids) {
        var k :| 0 <= k < |ids| && ids[k] == x;
      }
    }
  }

  method WriteTried(m: Infos, nTried: int) returns (infos: seq<SavedInfo>, ghost ids: seq<int>)
    requires nTried == |TriedIds(m)|
    ensures Rising(ids) && Elements(ids) == TriedIds(m) && |infos| == |ids|
    ensures forall i :: 0 <= i < |ids| ==> ids[i] in m && Stores(infos[i], m[ids[i]])
  {
    hide Stores, Save;
    infos, ids := [], [];
    var all := Ascending(m.Keys);
    var nIds, k := 0, 0;
    while k < |all| && nIds != nTried
      invariant 0 <= k <= |all| && nIds == |infos| == |ids|
      invariant Rising(ids)
      invariant forall x :: x in ids <==> x in all[..k] && x in m && m[x].fInTried
      invariant forall i :: 0 <= i < |ids| ==> ids[i] in m && Stores(infos[i], m[ids[i]])
    {
      var id := all[k];
      assert id in all && all[..k + 1] == all[..k] + [id];
      BeforeIn(all, k);
      if m[id].fInTried {
        SaveStores(m[id]);
        infos, ids := infos + [Save(m[id])], ids + [id];
        nIds := nIds + 1;
      }
      k := k + 1;
    }
    assert all[..|all|] == all;
    ListedAll(ids, TriedIds(m), k == |all|);
  }

  method WriteBucket(bucket: set<int>, unk: map<int, int>, ghost ids: seq<int>) returns (stored: seq<int>)
    requires Rising(ids) && bucket <= Elements(ids)
    requires forall i :: 0 <= i < |ids| ==> ids[i] in unk && unk[ids[i]] == i
    ensures BucketWritten(stored, bucket, ids)
  {
    stored := [];
    var members := Ascending(bucket);
    for k := 0 to |members|
      invariant |stored| == k
      invariant forall j :: 0 <= j < k ==> 0 <= stored[j] < |ids| && ids[stored[j]] == members[j]
    {
      assert members[k] in members && members[k] in Elements(ids);
      stored := stored + [unk[members[k]]];
    }
    forall i | 0 <= i < |ids| && ids[i] in bucket ensures i in stored {
      assert ids[i] in members;
      var k :| 0 <= k < |members| && members[k] == ids[i];
      assert ids[stored[k]] == ids[i];
      assert stored[k] == i;
    }
    forall k | 0 <= k < |stored| ensures 0 <= stored[k] < |ids| && ids[stored[k]] in bucket {
      assert members[k] in members;
    }
  }

  /** Writes consistent tables to a stream. */
  method Write(m: Infos, vv: Buckets, nNew: int, nTried: int)
    returns (s: Saved, ghost newIds: seq<int>, ghost triedIds: seq<int>)
    requires nNew == |NewIds(m)| && nTried == |TriedIds(m)|
    requires RefOk(m, vv, NOBODY) && RefRangeBut(m, NOBODY) && NOBODY !in m
    ensures WrittenFrom(s, m, vv, newIds, triedIds)
  {
    var newInfos, unk, triedInfos;
    newInfos, unk, newIds := WriteNew(m, nNew);
    triedInfos, triedIds := WriteTried(m, nTried);
    var buckets := [];
    for b := 0 to |vv|
      invariant |buckets| == b
      invariant forall c :: 0 <= c < b ==> BucketWritten(buckets[c], vv[c], newIds)
    {
      forall x | x in vv[b] ensures x in Elements(newIds) {
      }
      var stored := WriteBucket(vv[b], unk, newIds);
      buckets := buckets + [stored];
    }
    s := Saved(newInfos, triedInfos, buckets);
  }

  // ----- Reading --------------------------------------------------------------------------

  datatype Tables = Tables(
    m: Infos, ma: map<int, int>, v: seq<int>, tt: seq<seq<int>>, vv: Buckets, nIdCount: int, nNew: int, nTried: int)

  const DEFAULT_INFO := Info(Service(0, 0), 0, {}, 0, 0, 0, 0, 0, false, -1)

  function NoTables(): Tables {
    Tables(map[], map[], [], seq(TRIED_BUCKET_COUNT, _ => []), seq(NEW_BUCKET_COUNT, _ => {}), 0, 0, 0)
  }

  /** Reads one new entry. With another number of buckets in the stream, it is put in its default bucket. */
  function ReadNew(t: Tables, i: SavedInfo, n: int, rehash: bool, newHash: (Service, int) -> int): Tables
    requires |t.vv| == NEW_BUCKET_COUNT
  {
    var info := Load(i, |t.v|);
    var u := newHash(i.addr, i.source) % NEW_BUCKET_COUNT;
    t.(m := t.m[n := if rehash then info.(nRefCount := 1) else info],
       ma := t.ma[i.addr.ip := n],
       v := t.v + [n],
       vv := if rehash then t.vv[u := t.vv[u] + {n}] else t.vv)
  }

  /** Reads one tried entry; it is lost if its bucket is full. */
  function ReadTried(t: Tables, i: SavedInfo, triedHash: Service -> int): Tables
    requires |t.tt| == TRIED_BUCKET_COUNT
  {
    var k := TriedBucket(triedHash, i.addr);
    if |t.tt[k]| < TRIED_BUCKET_SIZE then
      t.(m := t.m[t.nIdCount := Load(i, |t.v|).(fInTried := true)],
         ma := t.ma[i.addr.ip := t.nIdCount],
         v := t.v + [t.nIdCount],
         tt := t.tt[k := t.tt[k] + [t.nIdCount]],
         nIdCount := t.nIdCount + 1,
         nTried := t.nTried + 1)
    else t
  }

  /** Reads one bucket membership. */
  function ReadRef(t: Tables, b: int, n: int, sameCount: bool): Tables
    requires 0 <= b < |t.vv|
  {
    var m := if n in t.m then t.m else t.m[n := DEFAULT_INFO];
    if sameCount && m[n].nRefCount < NEW_BUCKETS_PER_ADDRESS then
      t.(m := m[n := m[n].(nRefCount := m[n].nRefCount + 1)], vv := t.vv[b := t.vv[b] + {n}])
    else t.(m := m)
  }

  function AfterNew(s: Saved, newHash: (Service, int) -> int, n: nat): (t: Tables)
    requires n <= |s.newInfos|
    ensures |t.vv| == NEW_BUCKET_COUNT && |t.tt| == TRIED_BUCKET_COUNT
  {
    if n == 0 then NoTables()
    else ReadNew(AfterNew(s, newHash, n - 1), s.newInfos[n - 1], n - 1, |s.buckets| != NEW_BUCKET_COUNT, newHash)
  }

  function AfterTried(s: Saved, triedHash: Service -> int, newHash: (Service, int) -> int, n: nat): (t: Tables)
    requires n <= |s.triedInfos|
    ensures |t.vv| == NEW_BUCKET_COUNT && |t.tt| == TRIED_BUCKET_COUNT
  {
    if n == 0 then AfterNew(s, newHash, |s.newInfos|).(nIdCount := |s.newInfos|, nNew := |s.newInfos|)
    else ReadTried(AfterTried(s, triedHash, newHash, n - 1), s.triedInfos[n - 1], triedHash)
  }

  /** After a bucket's first `k` memberships. */
  function AfterRefs(t: Tables, s: Saved, b: nat, k: nat): (r: Tables)
    requires b <= |s.buckets| <= |t.vv| && (b < |s.buckets| ==> k <= |s.buckets[b]|) && (b == |s.buckets| ==> k == 0)
    ensures |r.vv| == |t.vv|
    decreases b, k
  {
    if k > 0 then ReadRef(AfterRefs(t, s, b, k - 1), b, s.buckets[b][k - 1], |s.buckets| == NEW_BUCKET_COUNT)
    else if b > 0 then AfterRefs(t, s, b - 1, |s.buckets[b - 1]|)
    else t
  }

  /** With another number of buckets the stored memberships cannot be used; then every new entry is put
      into its own bucket and no other, with one reference. */
  lemma {:induction false} RehashedEach(s: Saved, newHash: (Service, int) -> int, n: nat, i: int, b: nat)
    requires n <= |s.newInfos| && |s.buckets| != 256 && b < 256
    ensures var t := AfterNew(s, newHash, n);
            && (i in t.m <==> 0 <= i < n)
            && (i in t.m ==> t.m[i].nRefCount == 1 && Stores(s.newInfos[i], t.m[i]))
            && (i in t.vv[b] <==> 0 <= i < n && newHash(s.newInfos[i].addr, s.newInfos[i].source) % 256 == b)
  {
    if n > 0 {
      RehashedEach(s, newHash, n - 1, i, b);
    }
  }

  function ReadAll(s: Saved, triedHash: Service -> int, newHash: (Service, int) -> int): Tables
    requires |s.buckets| <= NEW_BUCKET_COUNT
  {
    AfterRefs(AfterTried(s, triedHash, newHash, |s.triedInfos|), s, |s.buckets|, 0)
  }

  ghost predicate RefsAtMost(t: Tables, n: int) {
    forall i :: i in t.m ==> 0 <= t.m[i].nRefCount <= n
  }

  ghost predicate TriedAtMost(t: Tables, n: int) {
    forall k :: 0 <= k < |t.tt| ==> |t.tt[k]| <= n
  }

  lemma {:induction false} NewWithin(s: Saved, newHash: (Service, int) -> int, n: nat)
    requires n <= |s.newInfos|
    ensures RefsAtMost(AfterNew(s, newHash, n), 1) && TriedAtMost(AfterNew(s, newHash, n), 0)
  {
    if n > 0 {
      NewWithin(s, newHash, n - 1);
    }
  }

  lemma {:induction false} TriedWithin(s: Saved, triedHash: Service -> int, newHash: (Service, int) -> int, n: nat)
    requires n <= |s.triedInfos|
    ensures var t := AfterTried(s, triedHash, newHash, n); RefsAtMost(t, 1) && TriedAtMost(t, 64)
  {
    hide AfterNew;
    if n > 0 {
      TriedWithin(s, triedHash, newHash, n - 1);
    } else {
      NewWithin(s, newHash, |s.newInfos|);
    }
  }

  lemma {:induction false} RefsWithin(t: Tables, s: Saved, b: nat, k: nat)
    requires b <= |s.buckets| <= |t.vv| && (b < |s.buckets| ==> k <= |s.buckets[b]|) && (b == |s.buckets| ==> k == 0)
    requires RefsAtMost(t, 4)
    ensures RefsAtMost(AfterRefs(t, s, b, k), 4) && AfterRefs(t, s, b, k).tt == t.tt
    decreases b, k
  {
    if k > 0 {
      RefsWithin(t, s, b, k - 1);
    } else if b > 0 {
      RefsWithin(t, s, b - 1, |s.buckets[b - 1]|);
    }
  }

  /** Whatever the stream holds, no tried bucket gets more than 64 entries and no entry more than four
      references. */
  lemma AnyStream(s: Saved, triedHash: Service -> int, newHash: (Service, int) -> int)
    requires |s.buckets| <= 256
    ensures var t := ReadAll(s, triedHash, newHash);
            && (forall k :: 0 <= k < |t.tt| ==> |t.tt[k]| <= 64)
            && (forall i :: i in t.m ==> 0 <= t.m[i].nRefCount <= 4)
  {
    hide AfterTried, AfterRefs;
    TriedWithin(s, triedHash, newHash, |s.triedInfos|);
    RefsWithin(AfterTried(s, triedHash, newHash, |s.triedInfos|), s, |s.buckets|, 0);
  }

  /** Clears and rebuilds all tables from a stream. */
  method Read(s: Saved, triedHash: Service -> int, newHash: (Service, int) -> int) returns (t: Tables)
    requires |s.buckets| <= NEW_BUCKET_COUNT
    ensures t == ReadAll(s, triedHash, newHash)
  {
    t := NoTables();
    for n := 0 to |s.newInfos|
      invariant t == AfterNew(s, newHash, n)
    {
      t := ReadNew(t, s.newInfos[n], n, |s.buckets| != NEW_BUCKET_COUNT, newHash);
    }
    t := t.(nIdCount := |s.newInfos|, nNew := |s.newInfos|);
    for n := 0 to |s.triedInfos|
      invariant t == AfterTried(s, triedHash, newHash, n)
    {
      t := ReadTried(t, s.triedInfos[n], triedHash);
    }
    ghost var t0 := t;
    for b := 0 to |s.buckets|
      invariant t == AfterRefs(t0, s, b, 0)
    {
      for k := 0 to |s.buckets[b]|
        invariant t == AfterRefs(t0, s, b, k)
      {
        t := ReadRef(t, b, s.buckets[b][k], |s.buckets| == NEW_BUCKET_COUNT);
      }
    }
  }
}
