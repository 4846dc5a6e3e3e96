/** Reference counts of memory pages that must not be swapped out. */
module LockedPages {
  import Digits

  /** A memory range: its first address and its length. */
  datatype Range = Range(base: nat, size: nat)

  const ADDRESS_SPACE: int := 0x1_0000_0000_0000_0000

  function PageOf(addr: int, pageSize: int): int
    requires pageSize > 0
  {
    addr - addr % pageSize
  }

  predicate Touches(r: Range, page: int, pageSize: int)
    requires pageSize > 0
  {
    r.size > 0 && page % pageSize == 0 && PageOf(r.base, pageSize) <= page <= PageOf(r.base + r.size - 1, pageSize)
  }

  /** The range ends below the last page of the address space. */
  predicate BelowLastPage(r: Range, pageSize: int) {
    r.size == 0 || r.base + r.size <= ADDRESS_SPACE - pageSize
  }

  /** The page counter of the loops is an unsigned 64-bit number. */
  function Next(page: int, pageSize: int): int {
    (page + pageSize) % ADDRESS_SPACE
  }

  lemma NoWrap(page: int, pageSize: int)
    requires 0 <= page + pageSize < ADDRESS_SPACE
    ensures Next(page, pageSize) == page + pageSize
  {
  }

  /** How many of the live ranges touch a page. */
  function Uses(live: seq<Range>, page: int, pageSize: int): nat
    requires pageSize > 0
  {
    if live == [] then 0
    else Uses(live[..|live| - 1], page, pageSize) + if Touches(live[|live| - 1], page, pageSize) then 1 else 0
  }

  function Counter(histogram: map<int, int>, page: int): int {
    if page in histogram then histogram[page] else 0
  }

  ghost predicate Counts(histogram: map<int, int>, live: seq<Range>, pageSize: int)
    requires pageSize > 0
  {
    && (forall page :: page in histogram ==> histogram[page] > 0)
    && (forall page :: Counter(histogram, page) == Uses(live, page, pageSize))
  }

  lemma {:induction false} UsesWithout(live: seq<Range>, k: nat, page: int, pageSize: int)
    requires k < |live| && pageSize > 0
    ensures Uses(live, page, pageSize)
         == Uses(live[..k] + live[k + 1..], page, pageSize) + if Touches(live[k], page, pageSize) then 1 else 0
    decreases |live|
  {
    var n := |live| - 1;
    if k == n {
      assert live[..k] + live[k + 1..] == live[..n];
    } else {
      UsesWithout(live[..n], k, page, pageSize);
      var rest := live[..k] + live[k + 1..];
      assert rest[..|rest| - 1] == live[..n][..k] + live[..n][k + 1..];
    }
  }

  lemma UsesMore(live: seq<Range>, r: Range, page: int, pageSize: int)
    requires pageSize > 0
    ensures Uses(live + [r], page, pageSize) == Uses(live, page, pageSize) + if Touches(r, page, pageSize) then 1 else 0
  {
    assert (live + [r])[..|live|] == live;
  }

  lemma PageOfIsPage(addr: int, pageSize: int)
    requires pageSize > 0
    ensures PageOf(addr, pageSize) % pageSize == 0 && PageOf(addr, pageSize) <= addr < PageOf(addr, pageSize) + pageSize
  {
    var q := addr / pageSize;
    assert addr - addr % pageSize == q * pageSize;
    MultipleIsPage(q, pageSize);
  }

  lemma MultipleIsPage(q: int, pageSize: int)
    requires pageSize > 0
    ensures (q * pageSize) % pageSize == 0
  {
    var r := (q * pageSize) % pageSize;
    var p := (q * pageSize) / pageSize;
    assert q * pageSize == p * pageSize + r;
    assert (q - p) * pageSize == r;
    NoMultipleBetween(q - p, pageSize);
  }

  lemma NoMultipleBetween(k: int, pageSize: int)
    requires pageSize > 0 && 0 <= k * pageSize < pageSize
    ensures k * pageSize == 0
  {
    Digits.OnlyZero(k, pageSize);
  }

  /** Between one page and the next there is no other. */
  lemma NextPage(page: int, p: int, pageSize: int)
    requires pageSize > 0 && page % pageSize == 0 && p % pageSize == 0 && page <= p < page + pageSize
    ensures p == page
  {
    var a, b := page / pageSize, p / pageSize;
    assert page == a * pageSize && p == b * pageSize;
    assert (b - a) * pageSize == p - page;
    NoMultipleBetween(b - a, pageSize);
  }

  predicate Holds(r: Range, addr: int) {
    r.base <= addr < r.base + r.size
  }

  predicate LiesOn(addr: int, page: int, pageSize: int) {
    page <= addr < page + pageSize
  }

  /** A range touches exactly the pages on which one of its addresses lies. */
  lemma TouchesIff(r: Range, page: int, pageSize: int)
    requires pageSize > 0
    ensures Touches(r, page, pageSize) <==>
            page % pageSize == 0 && exists a :: Holds(r, a) && LiesOn(a, page, pageSize)
  {
    hide PageOf;
    var last := r.base + r.size - 1;
    PageOfIsPage(r.base, pageSize);
    PageOfIsPage(last, pageSize);
    if page % pageSize == 0 {
      var a := if page <= r.base then r.base else page;
      if Touches(r, page, pageSize) {
        assert Holds(r, a) && LiesOn(a, page, pageSize);
      }
      if PageOf(r.base, pageSize) > page && PageOf(r.base, pageSize) < page + pageSize {
        NextPage(page, PageOf(r.base, pageSize), pageSize);
      }
      if page > PageOf(last, pageSize) && page < PageOf(last, pageSize) + pageSize {
        NextPage(PageOf(last, pageSize), page, pageSize);
      }
    }
  }

  lemma PageAfter(page: int, pageSize: int)
    requires pageSize > 0 && page % pageSize == 0
    ensures (page + pageSize) % pageSize == 0
  {
    var a := page / pageSize;
    assert page + pageSize == (a + 1) * pageSize;
    MultipleIsPage(a + 1, pageSize);
  }

  /** The counters of the pages from `start` up to `page` are `delta` more than before, all others as
      before. */
  ghost predicate Shifted(
    was: map<int, int>, histogram: map<int, int>, start: int, page: int, pageSize: int, delta: int)
    requires pageSize > 0
  {
    && (forall p :: p in histogram ==> histogram[p] > 0)
    && (forall p :: Counter(histogram, p)
                    == Counter(was, p) + if p % pageSize == 0 && start <= p < page then delta else 0)
  }

  lemma ShiftedStep(
    was: map<int, int>, histogram: map<int, int>, histogram': map<int, int>, start: int, page: int, pageSize: int,
    delta: int)
    requires pageSize > 0 && page % pageSize == 0 && start <= page
    requires Shifted(was, histogram, start, page, pageSize, delta)
    requires (forall p :: p in histogram' ==> histogram'[p] > 0)
    requires forall p :: Counter(histogram', p) == Counter(histogram, p) + if p == page then delta else 0
    ensures Shifted(was, histogram', start, page + pageSize, pageSize, delta)
  {
    forall p
      ensures Counter(histogram', p)
           == Counter(was, p) + if p % pageSize == 0 && start <= p < page + pageSize then delta else 0
    {
      if p % pageSize == 0 && page <= p < page + pageSize {
        NextPage(page, p, pageSize);
      }
    }
  }

  /** The page after the last is beyond every page of the range. */
  lemma Finished(was: map<int, int>, histogram: map<int, int>, r: Range, page: int, pageSize: int, delta: int)
    requires pageSize > 0 && r.size > 0 && page % pageSize == 0
    requires PageOf(r.base + r.size - 1, pageSize) < page <= PageOf(r.base + r.size - 1, pageSize) + pageSize
    requires Shifted(was, histogram, PageOf(r.base, pageSize), page, pageSize, delta)
    ensures forall p :: Counter(histogram, p) == Counter(was, p) + if Touches(r, p, pageSize) then delta else 0
  {
    var last := PageOf(r.base + r.size - 1, pageSize);
    PageOfIsPage(r.base + r.size - 1, pageSize);
    forall p | p % pageSize == 0 && last < p < page ensures false {
      NextPage(last, p, pageSize);
    }
  }

  // ----- When the loops end ---------------------------------------------------------------------------

  lemma PageBefore(page: int, pageSize: int)
    requires pageSize > 0 && page % pageSize == 0
    ensures (page - pageSize) % pageSize == 0
  {
    var a := page / pageSize;
    assert page - pageSize == (a - 1) * pageSize;
    MultipleIsPage(a - 1, pageSize);
  }

  /** No page of the address space starts behind the last one. */
  lemma AtMostLast(page: int, pageSize: int)
    requires pageSize > 0 && page % pageSize == 0 && page < ADDRESS_SPACE && ADDRESS_SPACE % pageSize == 0
    ensures page <= ADDRESS_SPACE - pageSize
  {
    if page > ADDRESS_SPACE - pageSize {
      PageBefore(ADDRESS_SPACE, pageSize);
      NextPage(ADDRESS_SPACE - pageSize, page, pageSize);
    }
  }

  lemma PagesInOrder(a: int, b: int, pageSize: int)
    requires pageSize > 0 && a <= b
    ensures PageOf(a, pageSize) <= PageOf(b, pageSize)
  {
    PageOfIsPage(a, pageSize);
    PageOfIsPage(b, pageSize);
    if PageOf(b, pageSize) < PageOf(a, pageSize) {
      NextPage(PageOf(b, pageSize), PageOf(a, pageSize), pageSize);
    }
  }

  /** The page counter after `n` turns. */
  function CounterAt(start: int, pageSize: int, n: nat): int {
    if n == 0 then start else Next(CounterAt(start, pageSize, n - 1), pageSize)
  }

  lemma NextIsPage(page: int, pageSize: int)
    requires pageSize > 0 && ADDRESS_SPACE % pageSize == 0
    requires page % pageSize == 0 && 0 <= page <= ADDRESS_SPACE - pageSize
    ensures Next(page, pageSize) % pageSize == 0 && 0 <= Next(page, pageSize) <= ADDRESS_SPACE - pageSize
  {
    hide Next;
    if page + pageSize < ADDRESS_SPACE {
      NoWrap(page, pageSize);
      PageAfter(page, pageSize);
      AtMostLast(page + pageSize, pageSize);
    } else {
      WrapsToZero(page, pageSize);
    }
  }

  lemma WrapsToZero(page: int, pageSize: int)
    requires page + pageSize == ADDRESS_SPACE
    ensures Next(page, pageSize) == 0
  {
  }

  lemma {:induction false} CounterIsPage(start: int, pageSize: int, n: nat)
    requires pageSize > 0 && ADDRESS_SPACE % pageSize == 0 && start % pageSize == 0 && 0 <= start < ADDRESS_SPACE
    ensures 0 <= CounterAt(start, pageSize, n) <= ADDRESS_SPACE - pageSize
    ensures CounterAt(start, pageSize, n) % pageSize == 0
  {
    hide Next;
    if n > 0 {
      CounterIsPage(start, pageSize, n - 1);
      NextIsPage(CounterAt(start, pageSize, n - 1), pageSize);
    } else {
      AtMostLast(start, pageSize);
    }
  }

  /** As long as it does not pass `last`, the counter climbs. */
  lemma {:induction false} CounterClimbs(start: int, pageSize: int, last: int, n: nat)
    requires 0 < pageSize && 0 <= start <= last && last + pageSize < ADDRESS_SPACE
    ensures Passes(start, pageSize, last) || start + n <= CounterAt(start, pageSize, n) <= last
  {
    if n > 0 {
      CounterClimbs(start, pageSize, last, n - 1);
    }
  }

  /** Whether the counter ever passes the page `last`. */
  ghost predicate Passes(start: int, pageSize: int, last: int) {
    exists n: nat :: CounterAt(start, pageSize, n) > last
  }

  lemma NeverPasses(start: int, pageSize: int)
    requires pageSize > 0 && ADDRESS_SPACE % pageSize == 0 && start % pageSize == 0 && 0 <= start < ADDRESS_SPACE
    ensures !Passes(start, pageSize, ADDRESS_SPACE - pageSize)
  {
    forall n: nat ensures CounterAt(start, pageSize, n) <= ADDRESS_SPACE - pageSize {
      CounterIsPage(start, pageSize, n);
    }
  }

  /** The loop over the pages of a range ends if and only if the range stays below the last page: from
      there the counter wraps to zero and starts over. */
  lemma EndsIffBelow(r: Range, pageSize: int)
    requires 0 < pageSize < ADDRESS_SPACE && ADDRESS_SPACE % pageSize == 0
    requires r.size > 0 && r.base + r.size <= ADDRESS_SPACE
    ensures Passes(PageOf(r.base, pageSize), pageSize, PageOf(r.base + r.size - 1, pageSize))
            <==> BelowLastPage(r, pageSize)
  {
    hide PageOf, Passes;
    var start, last := PageOf(r.base, pageSize), PageOf(r.base + r.size - 1, pageSize);
    FirstPage(r.base, pageSize);
    PageOfIsPage(r.base, pageSize);
    PageOfIsPage(r.base + r.size - 1, pageSize);
    PagesInOrder(r.base, r.base + r.size - 1, pageSize);
    if BelowLastPage(r, pageSize) {
      CounterClimbs(start, pageSize, last, last - start + 1);
    } else {
      LastPage(r.base + r.size - 1, pageSize);
      NeverPasses(start, pageSize);
    }
  }

  lemma FirstPage(addr: nat, pageSize: int)
    requires pageSize > 0
    ensures PageOf(addr, pageSize) >= 0
  {
    assert addr == addr / pageSize * pageSize + addr % pageSize;
  }

  lemma LastPage(addr: int, pageSize: int)
    requires 0 < pageSize && ADDRESS_SPACE % pageSize == 0 && ADDRESS_SPACE - pageSize <= addr < ADDRESS_SPACE
    ensures PageOf(addr, pageSize) == ADDRESS_SPACE - pageSize
  {
    PageOfIsPage(addr, pageSize);
    AtMostLast(PageOf(addr, pageSize), pageSize);
    PageBefore(ADDRESS_SPACE, pageSize);
    NextPage(PageOf(addr, pageSize), ADDRESS_SPACE - pageSize, pageSize);
  }

  class LockedPageManager {
    const pageSize: int
    var histogram: map<int, int>
    /** The pages the operating system holds locked. */
    var locked: set<int>
    /** The ranges locked and not yet unlocked. */
    ghost var live: seq<Range>

    /** A page's counter is the number of live ranges that touch it, and exactly the pages in use are
        locked. Holds after every step of every run of matched calls. */
    ghost predicate Valid()
      reads this
    {
      && pageSize > 0 && Counts(histogram, live, pageSize) && locked == histogram.Keys
      && forall i :: 0 <= i < |live| ==> BelowLastPage(live[i], pageSize)
    }

    constructor (pageSize: int)
      requires pageSize > 0
      ensures Valid() && live == [] && histogram == map[] && this.pageSize == pageSize
    {
      this.pageSize := pageSize;
      histogram, locked, live := map[], {}, [];
    }

    /** Locking a page is asked for only when it is not locked. */
    method Lock(page: int)
      requires page !in locked
      modifies this`locked
      ensures locked == old(locked) + {page}
    {
      locked := locked + {page};
    }

    /** Unlocking a page is asked for only when it is locked. */
    method Unlock(page: int)
      requires page in locked
      modifies this`locked
      ensures locked == old(locked) - {page}
    {
      locked := locked - {page};
    }

    method LockRange(base: nat, size: nat)
      requires Valid() && BelowLastPage(Range(base, size), pageSize)
      modifies this
      ensures Valid() && live == old(live) + [Range(base, size)]
    {
      hide PageOf, Next;
      var r := Range(base, size);
      forall page
        ensures Uses(live + [r], page, pageSize)
             == Uses(live, page, pageSize) + if Touches(r, page, pageSize) then 1 else 0
      {
        UsesMore(live, r, page, pageSize);
      }
      live := live + [r];
      if size == 0 {
        return;
      }
      var startPage, endPage := PageOf(base, pageSize), PageOf(base + size - 1, pageSize);
      PageOfIsPage(base, pageSize);
      PageOfIsPage(base + size - 1, pageSize);
      assert endPage + pageSize < ADDRESS_SPACE;
      var page := startPage;
      while page <= endPage
        invariant page % pageSize == 0 && startPage <= page <= endPage + pageSize
        invariant Shifted(old(histogram), histogram, startPage, page, pageSize, 1)
        invariant locked == histogram.Keys && live == old(live) + [r]
        decreases endPage - page
      {
        ghost var was := histogram;
        if page !in histogram {
          Lock(page);
          histogram := histogram[page := 1];
        } else {
          histogram := histogram[page := histogram[page] + 1];
        }
        ShiftedStep(old(histogram), was, histogram, startPage, page, pageSize, 1);
        PageAfter(page, pageSize);
        NoWrap(page, pageSize);
        page := Next(page, pageSize);
      }
      Finished(old(histogram), histogram, r, page, pageSize, 1);
    }

    /** Unlocks a range that was locked before; every page of it is found in the histogram. */
    method UnlockRange(base: nat, size: nat, ghost k: nat)
      requires Valid() && k < |live| && live[k] == Range(base, size)
      modifies this
      ensures Valid() && live == old(live)[..k] + old(live)[k + 1..]
    {
      hide PageOf, Next;
      var r := Range(base, size);
      ghost var rest := live[..k] + live[k + 1..];
      forall page
        ensures Uses(live, page, pageSize)
             == Uses(rest, page, pageSize) + if Touches(r, page, pageSize) then 1 else 0
      {
        UsesWithout(live, k, page, pageSize);
      }
      live := rest;
      if size == 0 {
        return;
      }
      var startPage, endPage := PageOf(base, pageSize), PageOf(base + size - 1, pageSize);
      PageOfIsPage(base, pageSize);
      PageOfIsPage(base + size - 1, pageSize);
      assert endPage + pageSize < ADDRESS_SPACE;
      var page := startPage;
      while page <= endPage
        invariant page % pageSize == 0 && startPage <= page <= endPage + pageSize
        invariant Shifted(old(histogram), histogram, startPage, page, pageSize, -1)
        invariant locked == histogram.Keys && live == rest
        decreases endPage - page
      {
        ghost var was := histogram;
        assert Touches(r, page, pageSize) && Counter(old(histogram), page) >= 1;
        assert page in histogram;
        histogram := histogram[page := histogram[page] - 1];
        if histogram[page] == 0 {
          Unlock(page);
          histogram := histogram - {page};
        }
        ShiftedStep(old(histogram), was, histogram, startPage, page, pageSize, -1);
        PageAfter(page, pageSize);
        NoWrap(page, pageSize);
        page := Next(page, pageSize);
      }
      Finished(old(histogram), histogram, r, page, pageSize, -1);
    }

    method GetLockedPageCount() returns (n: int)
      requires Valid()
      ensures n == |histogram| == |locked|
    {
      n := |histogram|;
      assert |histogram| == |histogram.Keys|;
    }

    /** Once every range is released no page is locked. */
    lemma AllReleased()
      requires Valid() && live == []
      ensures histogram == map[] && locked == {}
    {
      forall page ensures page !in histogram {
        assert Uses(live, page, pageSize) == 0;
      }
    }
  }
}
