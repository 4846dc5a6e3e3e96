/** The address manager's own consistency check, and what its verdict means. */
module AddrCheck {
  import opened AddrTable
  import opened Sequences
  import opened AddrMan
  import opened Ordered

  /** A tried entry has succeeded and has no references, a new one has one to four; its address leads to
      its id, by default to zero, and so does its place in the random order; its times are not negative. */
  ghost predicate EntryOk(m: Infos, ma: map<int, int>, v: seq<int>, id: int)
    requires id in m
  {
    var i := m[id];
    && (i.fInTried ==> i.nLastSuccess > 0 && i.nRefCount == 0)
    && (!i.fInTried ==> 1 <= i.nRefCount <= 4 && i.nLastSuccess >= 0)
    && i.nLastTry >= 0
    && (i.addr.ip !in ma ==> id == 0) && (i.addr.ip in ma ==> ma[i.addr.ip] == id)
    && 0 <= i.nRandomPos < |v| && v[i.nRandomPos] == id
  }

  function Flat(tt: seq<seq<int>>): seq<int> {
    if tt == [] then [] else Flat(tt[..|tt| - 1]) + tt[|tt| - 1]
  }

  /** The tried buckets list exactly the tried ids, none twice. */
  ghost predicate TriedExact(m: Infos, s: seq<int>) {
    Distinct(s) && Elements(s) == TriedIds(m)
  }

  /** Every new entry is in as many buckets as it has references, and nothing else is in a bucket. */
  ghost predicate RefsExact(m: Infos, vv: Buckets) {
    && (forall b, id :: 0 <= b < |vv| && id in vv[b] ==> id in NewIds(m))
    && (forall id :: id in NewIds(m) ==> Count(vv, id) == m[id].nRefCount)
  }

  ghost predicate Passes(
    m: Infos, ma: map<int, int>, v: seq<int>, tt: seq<seq<int>>, vv: Buckets, nTried: int, nNew: int) {
    && |v| == nTried + nNew
    && (forall id :: id in m ==> EntryOk(m, ma, v, id))
    && |TriedIds(m)| == nTried && |NewIds(m)| == nNew
    && TriedExact(m, Flat(tt))
    && RefsExact(m, vv)
  }

  /** First loop: each entry by itself; sorts the ids into tried and new. */
  method CheckEntries(m: Infos, ma: map<int, int>, v: seq<int>) returns (ok: bool, tried: set<int>, refs: map<int, int>)
    ensures ok <==> forall id :: id in m ==> EntryOk(m, ma, v, id)
    ensures ok ==> tried == TriedIds(m) && refs.Keys == NewIds(m)
    ensures ok ==> forall id :: id in refs ==> refs[id] == m[id].nRefCount
  {
    tried, refs := {}, map[];
    var ids := Ascending(m.Keys);
    for k := 0 to |ids|
      invariant forall j :: 0 <= j < k ==> ids[j] in m && EntryOk(m, ma, v, ids[j])
      invariant forall id :: id in tried <==> id in ids[..k] && id in m && m[id].fInTried
      invariant forall id :: id in refs <==> id in ids[..k] && id in m && !m[id].fInTried
      invariant forall id :: id in refs ==> refs[id] == m[id].nRefCount
    {
      assert ids[k] in ids && ids[..k + 1] == ids[..k] + [ids[k]];
      var id := ids[k];
      var info := m[id];
      if info.fInTried {
        if info.nLastSuccess == 0 || info.nRefCount != 0 {
          return false, tried, refs;
        }
        tried := tried + {id};
      } else {
        if info.nRefCount < 0 || info.nRefCount > NEW_BUCKETS_PER_ADDRESS || info.nRefCount == 0 {
          return false, tried, refs;
        }
        refs := refs[id := info.nRefCount];
      }
      if (if info.addr.ip in ma then ma[info.addr.ip] else 0) != id {
        return false, tried, refs;
      }
      if info.nRandomPos < 0 || info.nRandomPos >= |v| || v[info.nRandomPos] != id {
        return false, tried, refs;
      }
      if info.nLastTry < 0 || info.nLastSuccess < 0 {
        return false, tried, refs;
      }
    }
    assert ids[..|ids|] == ids;
    forall id | id in m ensures id in ids && EntryOk(m, ma, v, id) {
    }
    forall id ensures id in tried <==> id in TriedIds(m) {
    }
    forall id ensures id in refs.Keys <==> id in NewIds(m) {
    }
    ok := true;
  }

  /** Second loop: strikes the ids of the tried buckets off the tried set. */
  method CheckTried(m: Infos, tt: seq<seq<int>>) returns (ok: bool)
    ensures ok <==> TriedExact(m, Flat(tt))
  {
    var left := TriedIds(m);
    ghost var seen: seq<int> := [];
    for n := 0 to |tt|
      invariant seen == Flat(tt[..n])
      invariant Distinct(seen) && Elements(seen) <= TriedIds(m) && left == TriedIds(m) - Elements(seen)
    {
      assert tt[..n + 1][..n] == tt[..n];
      for k := 0 to |tt[n]|
        invariant seen == Flat(tt[..n]) + tt[n][..k]
        invariant Distinct(seen) && Elements(seen) <= TriedIds(m) && left == TriedIds(m) - Elements(seen)
      {
        var id := tt[n][k];
        ElementsSnoc(seen, id);
        assert seen + [id] == Flat(tt[..n]) + tt[n][..k + 1];
        if id !in left {
          FlatPrefix(tt, n, k + 1);
          NotExact(m, seen, id, Flat(tt));
          return false;
        }
        seen := seen + [id];
        left := left - {id};
      }
      assert tt[n][..|tt[n]|] == tt[n];
    }
    assert tt[..|tt|] == tt;
    LeftEmpty(TriedIds(m), Elements(seen), left);
    ok := left == {};
  }

  lemma LeftEmpty(all: set<int>, seen: set<int>, left: set<int>)
    requires seen <= all && left == all - seen
    ensures left == {} <==> seen == all
  {
    if left == {} {
      forall x | x in all ensures x in seen {
        assert x !in left;
      }
    }
  }

  lemma ElementsSnoc(s: seq<int>, x: int)
    ensures Elements(s + [x]) == Elements(s) + {x}
    ensures x !in Elements(s) && Distinct(s) ==> Distinct(s + [x])
  {
    forall y | y in Elements(s) + {x} ensures y in Elements(s + [x]) {
      if y == x {
        assert (s + [x])[|s|] == y;
      } else {
        var i :| 0 <= i < |s| && s[i] == y;
        assert (s + [x])[i] == y;
      }
    }
    if x !in Elements(s) && Distinct(s) {
      forall i, j | 0 <= i < j < |s + [x]| ensures (s + [x])[i] != (s + [x])[j] {
        assert s[i] in Elements(s);
      }
    }
  }

  lemma {:induction false} FlatPrefix(tt: seq<seq<int>>, n: nat, k: nat)
    requires n < |tt| && k <= |tt[n]|
    ensures Flat(tt[..n]) + tt[n][..k] <= Flat(tt)
    decreases |tt|
  {
    var l := |tt| - 1;
    if n < l {
      FlatPrefix(tt[..l], n, k);
      assert tt[..l][..n] == tt[..n];
    }
  }

  lemma NotExact(m: Infos, seen: seq<int>, id: int, all: seq<int>)
    requires seen + [id] <= all && (id !in TriedIds(m) || id in Elements(seen))
    ensures !TriedExact(m, all)
  {
    assert all[|seen|] == id && id in Elements(all);
    if id in Elements(seen) {
      var i :| 0 <= i < |seen| && seen[i] == id;
      assert all[i] == id;
    }
  }

  /** How often an id has been seen after `n` buckets and the ids `part` of the next one. */
  function Seen(vv: Buckets, n: nat, part: seq<int>, id: int): nat
    requires n <= |vv|
  {
    Count(vv[..n], id) + Bit(id in part)
  }

  /** What is left of the reference counts. */
  ghost predicate Remaining(m: Infos, left: map<int, int>, vv: Buckets, n: nat, part: seq<int>)
    requires n <= |vv|
  {
    && (forall id :: Seen(vv, n, part, id) > 0 ==> id in NewIds(m) && Seen(vv, n, part, id) <= m[id].nRefCount)
    && (forall id :: id in left <==> id in NewIds(m) && Seen(vv, n, part, id) < m[id].nRefCount)
    && (forall id :: id in left ==> left[id] == m[id].nRefCount - Seen(vv, n, part, id))
  }

  lemma RemainingStep(m: Infos, left: map<int, int>, vv: Buckets, n: nat, part: seq<int>, id: int)
    requires n <= |vv| && Remaining(m, left, vv, n, part) && id in left && id !in part
    ensures Remaining(m, if left[id] == 1 then left - {id} else left[id := left[id] - 1], vv, n, part + [id])
  {
    forall x ensures Seen(vv, n, part + [id], x) == Seen(vv, n, part, x) + Bit(x == id) {
    }
  }

  lemma RemainingNext(m: Infos, left: map<int, int>, vv: Buckets, n: nat, part: seq<int>)
    requires n < |vv| && Remaining(m, left, vv, n, part) && forall x :: x in part <==> x in vv[n]
    ensures Remaining(m, left, vv, n + 1, [])
  {
    forall x ensures Seen(vv, n + 1, [], x) == Seen(vv, n, part, x) {
      CountStep(vv, n, x);
    }
  }

  lemma {:induction false} CountMono(vv: Buckets, n: nat, id: int)
    requires n <= |vv|
    ensures Count(vv[..n], id) <= Count(vv, id)
    decreases |vv|
  {
    if n == |vv| {
      assert vv[..n] == vv;
    } else {
      CountMono(vv[..|vv| - 1], n, id);
      assert vv[..|vv| - 1][..n] == vv[..n];
    }
  }

  lemma TooMany(m: Infos, left: map<int, int>, vv: Buckets, n: nat, part: seq<int>, id: int)
    requires n < |vv| && Remaining(m, left, vv, n, part) && id in vv[n] && id !in part && id !in left
    ensures !RefsExact(m, vv)
  {
    CountStep(vv, n, id);
    CountMono(vv, n + 1, id);
  }

  /** Third loop: counts the new buckets down against the reference counts. */
  method CheckNew(m: Infos, refs: map<int, int>, vv: Buckets) returns (ok: bool)
    requires refs.Keys == NewIds(m) && forall id :: id in refs ==> refs[id] == m[id].nRefCount >= 1
    ensures ok <==> RefsExact(m, vv)
  {
    var left := refs;
    RemainingStart(m, refs, vv);
    for n := 0 to |vv|
      invariant Remaining(m, left, vv, n, [])
    {
      var ids := Ascending(vv[n]);
      for k := 0 to |ids|
        invariant Remaining(m, left, vv, n, ids[..k])
      {
        var id := ids[k];
        assert id in ids && id !in ids[..k] && ids[..k + 1] == ids[..k] + [id];
        if id !in left {
          TooMany(m, left, vv, n, ids[..k], id);
          return false;
        }
        RemainingStep(m, left, vv, n, ids[..k], id);
        left := if left[id] == 1 then left - {id} else left[id := left[id] - 1];
      }
      assert ids[..|ids|] == ids;
      RemainingNext(m, left, vv, n, ids);
    }
    RemainingEnd(m, left, vv);
    ok := left.Keys == {};
  }

  lemma RemainingStart(m: Infos, refs: map<int, int>, vv: Buckets)
    requires refs.Keys == NewIds(m) && forall id :: id in refs ==> refs[id] == m[id].nRefCount >= 1
    ensures Remaining(m, refs, vv, 0, [])
  {
    assert vv[..0] == [];
  }

  lemma RemainingEnd(m: Infos, left: map<int, int>, vv: Buckets)
    requires Remaining(m, left, vv, |vv|, []) && forall id :: id in NewIds(m) ==> m[id].nRefCount >= 1
    ensures left.Keys == {} <==> RefsExact(m, vv)
  {
    assert vv[..|vv|] == vv;
    assert forall id :: Seen(vv, |vv|, [], id) == Count(vv, id);
    if left.Keys == {} {
      forall b, id | 0 <= b < |vv| && id in vv[b] ensures id in NewIds(m) {
        CountZero(vv, id);
        assert Seen(vv, |vv|, [], id) > 0;
      }
      forall id | id in NewIds(m) ensures Count(vv, id) == m[id].nRefCount {
        assert id !in left.Keys;
      }
    } else if RefsExact(m, vv) {
      var id := SomeMember(left.Keys);
    }
  }

  /** The whole check: passes exactly when all tables agree. */
  method Check(m: Infos, ma: map<int, int>, v: seq<int>, tt: seq<seq<int>>, vv: Buckets, nTried: int, nNew: int)
    returns (ok: bool)
    ensures ok <==> Passes(m, ma, v, tt, vv, nTried, nNew)
  {
    if |v| != nTried + nNew {
      return false;
    }
    var tried, refs;
    ok, tried, refs := CheckEntries(m, ma, v);
    if !ok {
      return;
    }
    if |tried| != nTried || |refs.Keys| != nNew {
      return false;
    }
    ok := CheckTried(m, tt);
    if !ok {
      return;
    }
    assert forall id :: id in refs ==> EntryOk(m, ma, v, id);
    ok := CheckNew(m, refs, vv);
  }

  // ----- Consistent tables pass the check ------------------------------------------------------

  lemma {:induction false} FlatHas(tt: seq<seq<int>>, x: int)
    ensures x in Elements(Flat(tt)) <==> exists b :: 0 <= b < |tt| && x in tt[b]
  {
    if tt != [] {
      var l := |tt| - 1;
      FlatHas(tt[..l], x);
      ElementsConcat(Flat(tt[..l]), tt[l], x);
      if b :| 0 <= b < l && x in tt[..l][b] {
        assert x in tt[b];
      }
      if b :| 0 <= b < |tt| && x in tt[b] {
        assert b < l ==> x in tt[..l][b];
      }
    }
  }

  lemma ElementsConcat(s: seq<int>, t: seq<int>, x: int)
    ensures x in Elements(s + t) <==> x in Elements(s) || x in t
  {
    if x in Elements(s) {
      var i :| 0 <= i < |s| && s[i] == x;
      assert (s + t)[i] == x;
    }
    if x in t {
      var i :| 0 <= i < |t| && t[i] == x;
      assert (s + t)[|s| + i] == x;
    }
  }

  lemma {:induction false} FlatDistinct(m: Infos, tt: seq<seq<int>>, hash: Service -> int, n: nat)
    requires TriedOk(m, tt, hash) && n <= |tt|
    ensures Distinct(Flat(tt[..n]))
  {
    if n > 0 {
      FlatDistinct(m, tt, hash, n - 1);
      assert tt[..n][..n - 1] == tt[..n - 1];
      var s, t := Flat(tt[..n - 1]), tt[n - 1];
      forall i, j | 0 <= i < j < |s + t| ensures (s + t)[i] != (s + t)[j] {
        if j < |s| {
          assert s[i] != s[j];
        } else if |s| <= i {
          assert t[i - |s|] != t[j - |s|];
        } else {
          assert s[i] in Elements(s) && t[j - |s|] in t;
          FlatHas(tt[..n - 1], s[i]);
          var b :| 0 <= b < n - 1 && s[i] in tt[..n - 1][b];
          var y := t[j - |s|];
          assert s[i] in tt[b] && y in tt[n - 1];
          assert TriedBucket(hash, m[s[i]].addr) == b && TriedBucket(hash, m[y].addr) == n - 1;
        }
      }
    }
  }

  lemma TriedIsExact(m: Infos, tt: seq<seq<int>>, hash: Service -> int)
    requires TriedOk(m, tt, hash)
    ensures TriedExact(m, Flat(tt))
  {
    FlatDistinct(m, tt, hash, |tt|);
    assert tt[..|tt|] == tt;
    forall x ensures x in Elements(Flat(tt)) <==> x in TriedIds(m) {
      FlatHas(tt, x);
      if x in TriedIds(m) {
        assert x in tt[TriedBucket(hash, m[x].addr)];
      }
    }
  }

  lemma EntriesAreOk(m: Infos, ma: map<int, int>, v: seq<int>)
    requires AddrOk(m, ma) && RandomOk(m, v) && RefRangeBut(m, NOBODY) && TimesOk(m) && NOBODY !in m
    ensures forall id :: id in m ==> EntryOk(m, ma, v, id)
  {
  }

  /** Whatever the operations keep consistent passes the repository's own check. */
  lemma ConsistentPasses(m: Infos, ma: map<int, int>, v: seq<int>, tt: seq<seq<int>>, vv: Buckets, hash: Service -> int)
    requires AddrOk(m, ma) && RandomOk(m, v) && RefOk(m, vv, NOBODY) && RefRangeBut(m, NOBODY) && TriedOk(m, tt, hash)
    requires TimesOk(m) && NOBODY !in m
    ensures Passes(m, ma, v, tt, vv, |TriedIds(m)|, |NewIds(m)|)
  {
    hide AddrOk, RandomOk, RefRangeBut, TriedOk, TimesOk, EntryOk, TriedExact, Flat, Count;
    RandomCounts(m, v);
    TriedIsExact(m, tt, hash);
    EntriesAreOk(m, ma, v);
  }
}
