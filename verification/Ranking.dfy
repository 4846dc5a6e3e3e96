/** Ranking the floating cities by their score at a block height. */
module Ranking {
  import opened Ledger
  import opened Sorting

  datatype City = City(vin: TxIn, protocol: int, enabled: bool)

  /** The node registry, which block heights are known, and the score of a city at a height. */
  datatype Registry = Registry(cities: seq<City>, knows: int -> bool, score: (City, int) -> int)

  const MIN_INSTANTX_PROTO_VERSION := 62005

  type Scored = (int, TxIn)

  predicate Votes(c: City, minProtocol: int) {
    c.protocol >= minProtocol && c.enabled
  }

  function Scores(reg: Registry, cities: seq<City>, h: int, minProtocol: int): seq<Scored> {
    if cities == [] then []
    else
      var before, c := Scores(reg, cities[..|cities| - 1], h, minProtocol), cities[|cities| - 1];
      if Votes(c, minProtocol) then before + [(reg.score(c, h), c.vin)] else before
  }

  predicate Descending(s: seq<Scored>) {
    forall i, j :: 0 <= i < j < |s| ==> s[i].0 >= s[j].0
  }

  predicate Higher(a: Scored, b: Scored) {
    a.0 > b.0
  }

  /** Sorting gives a descending permutation. */
  lemma SortedSorts(s: seq<Scored>)
    ensures Descending(Sorted(Higher, s)) && multiset(Sorted(Higher, s)) == multiset(s)
  {
    Sorting.SortedSorts(Higher, s);
    var r := Sorted(Higher, s);
    forall i, j | 0 <= i < j < |r| ensures r[i].0 >= r[j].0 {
      assert !Higher(r[j], r[i]);
    }
  }

  /** The ranking at a height, best first. */
  function Order(reg: Registry, h: int, minProtocol: int): seq<Scored> {
    Sorted(Higher, Scores(reg, reg.cities, h, minProtocol))
  }

  /** One more than the first place at which `vin` stands, or -1. */
  function Place(order: seq<Scored>, vin: TxIn): (r: int)
    ensures r == -1 <==> forall i :: 0 <= i < |order| ==> order[i].1 != vin
    ensures r != -1 ==> 1 <= r <= |order| && order[r - 1].1 == vin && forall i :: 0 <= i < r - 1 ==> order[i].1 != vin
  {
    if order == [] then -1
    else
      var n := |order| - 1;
      var before := Place(order[..n], vin);
      assert forall i :: 0 <= i < n ==> order[..n][i] == order[i];
      if before != -1 then before else if order[n].1 == vin then n + 1 else -1
  }

  function Rank(reg: Registry, vin: TxIn, h: int, minProtocol: int): int {
    if reg.knows(h) then Place(Order(reg, h, minProtocol), vin) else -1
  }

  method CollectScores(reg: Registry, h: int, minProtocol: int) returns (scores: seq<Scored>)
    ensures scores == Scores(reg, reg.cities, h, minProtocol)
  {
    scores := [];
    for i := 0 to |reg.cities|
      invariant scores == Scores(reg, reg.cities[..i], h, minProtocol)
    {
      assert reg.cities[..i + 1][..i] == reg.cities[..i];
      var c := reg.cities[i];
      if c.protocol >= minProtocol && c.enabled {
        scores := scores + [(reg.score(c, h), c.vin)];
      }
    }
    assert reg.cities[..|reg.cities|] == reg.cities;
  }

  method GetFloatingcityRank(reg: Registry, vin: TxIn, h: int, minProtocol: int) returns (rank: int)
    ensures rank == Rank(reg, vin, h, minProtocol)
  {
    if !reg.knows(h) {
      return -1;
    }
    var scores := CollectScores(reg, h, minProtocol);
    var order := Sorted(Higher, scores);
    rank := 0;
    while rank < |order|
      invariant 0 <= rank <= |order|
      invariant forall i :: 0 <= i < rank ==> order[i].1 != vin
    {
      rank := rank + 1;
      if order[rank - 1].1 == vin {
        return;
      }
    }
    rank := -1;
  }

  method GetFloatingcityByRank(reg: Registry, nRank: int, h: int, minProtocol: int) returns (city: Option<TxIn>)
    ensures var order := Order(reg, h, minProtocol);
            city == if 1 <= nRank <= |order| then Some(order[nRank - 1].1) else None
  {
    var scores := CollectScores(reg, h, minProtocol);
    var order := Sorted(Higher, scores);
    var rank := 0;
    while rank < |order|
      invariant 0 <= rank <= |order|
      invariant nRank < 1 || rank < nRank
    {
      rank := rank + 1;
      if rank == nRank {
        return Some(order[rank - 1].1);
      }
    }
    city := None;
  }

  lemma {:induction false} ScoresComeFromCities(reg: Registry, cities: seq<City>, h: int, minProtocol: int, x: Scored)
    ensures x in Scores(reg, cities, h, minProtocol) <==>
            exists c :: c in cities && Votes(c, minProtocol) && x == (reg.score(c, h), c.vin)
  {
    if cities != [] {
      var f, l := cities[..|cities| - 1], cities[|cities| - 1];
      ScoresComeFromCities(reg, f, h, minProtocol, x);
      assert cities == f + [l];
    }
  }

  /** A city that ranks `r`-th scores no more than any of the `r - 1` before it and no less than any
      behind it; every voting city has a rank. */
  lemma RankMeans(reg: Registry, h: int, minProtocol: int, c: City)
    requires reg.knows(h) && c in reg.cities && Votes(c, minProtocol)
    ensures var r := Rank(reg, c.vin, h, minProtocol); var order := Order(reg, h, minProtocol);
            && 1 <= r <= |order|
            && (forall i :: 0 <= i < r ==> order[i].0 >= order[r - 1].0)
            && (forall i :: r <= i < |order| ==> order[i].0 <= order[r - 1].0)
  {
    hide Scores, Sorted, Place;
    var scores, x := Scores(reg, reg.cities, h, minProtocol), (reg.score(c, h), c.vin);
    ScoresComeFromCities(reg, reg.cities, h, minProtocol, x);
    SortedSorts(scores);
    SortedKeeps(scores, x);
    var i :| 0 <= i < |Sorted(Higher, scores)| && Sorted(Higher, scores)[i] == x;
  }

  /** The order is descending. */
  lemma OrderDescends(reg: Registry, h: int, minProtocol: int)
    ensures Descending(Order(reg, h, minProtocol))
  {
    SortedSorts(Scores(reg, reg.cities, h, minProtocol));
  }

  /** The order holds the scores of the enabled cities of the protocol and no others. */
  lemma OrderComesFromCities(reg: Registry, h: int, minProtocol: int, x: Scored)
    ensures x in Order(reg, h, minProtocol) <==>
            exists c :: c in reg.cities && c.enabled && c.protocol >= minProtocol && x == (reg.score(c, h), c.vin)
  {
    hide Sorted, Scores;
    var scores := Scores(reg, reg.cities, h, minProtocol);
    ScoresComeFromCities(reg, reg.cities, h, minProtocol, x);
    SortedSorts(scores);
    assert x in multiset(scores) <==> x in multiset(Sorted(Higher, scores));
    forall c ensures Votes(c, minProtocol) <==> c.enabled && c.protocol >= minProtocol {
    }
  }

  lemma SortedKeeps(s: seq<Scored>, x: Scored)
    requires x in s
    ensures x in Sorted(Higher, s)
  {
    hide Sorted, Descending;
    SortedSorts(s);
    assert x in multiset(s);
    assert x in multiset(Sorted(Higher, s));
  }

  /** Looking up the city at a city's rank gives that city back; the other way round it needs the
      city to be listed once. */
  lemma RankInverts(reg: Registry, h: int, minProtocol: int, vin: TxIn, k: int)
    requires reg.knows(h)
    ensures var order := Order(reg, h, minProtocol); var r := Rank(reg, vin, h, minProtocol);
            && (r != -1 ==> order[r - 1].1 == vin)
            && (1 <= k <= |order| ==>
                  (Rank(reg, order[k - 1].1, h, minProtocol) == k <==>
                   forall i :: 0 <= i < k - 1 ==> order[i].1 != order[k - 1].1))
  {
    var order := Order(reg, h, minProtocol);
    if 1 <= k <= |order| {
      assert order[k - 1].1 == order[k - 1].1;
    }
  }
}
