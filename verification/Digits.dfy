/** Numbers as digit strings in an arbitrary base, most significant digit first. */
module Digits {
  import opened Sequences

  predicate Valid(base: int, d: seq<int>) {
    forall i :: 0 <= i < |d| ==> 0 <= d[i] < base
  }

  function Value(base: int, d: seq<int>): int {
    if d == [] then 0 else Value(base, d[..|d| - 1]) * base + d[|d| - 1]
  }

  function Abs(v: int): nat {
    if v < 0 then -v else v
  }

  function Power(base: int, n: nat): int {
    if n == 0 then 1 else base * Power(base, n - 1)
  }

  lemma {:induction false} PowerPositive(base: int, n: nat)
    requires base >= 1
    ensures Power(base, n) >= 1
  {
    if n > 0 {
      PowerPositive(base, n - 1);
      Times(1, Power(base, n - 1), base);
    }
  }

  lemma Times(x: int, y: int, k: int)
    requires x <= y && k >= 0
    ensures x * k <= y * k
  {
    assert (y - x) * k >= 0;
  }

  lemma {:induction false} PowerAdd(base: int, m: nat, n: nat)
    ensures Power(base, m + n) == Power(base, m) * Power(base, n)
  {
    if m > 0 {
      PowerAdd(base, m - 1, n);
      var a, b := Power(base, m - 1), Power(base, n);
      assert base * (a * b) == (base * a) * b;
    }
  }

  lemma {:induction false} PowerMono(base: int, m: nat, n: nat)
    requires base >= 1 && m <= n
    ensures Power(base, m) <= Power(base, n)
  {
    if m < n {
      PowerMono(base, m, n - 1);
      PowerPositive(base, n - 1);
      Times(1, base, Power(base, n - 1));
    }
  }

  lemma {:induction false} ValueRange(base: int, d: seq<int>)
    requires base >= 1 && Valid(base, d)
    ensures 0 <= Value(base, d) < Power(base, |d|)
  {
    if d != [] {
      var f := d[..|d| - 1];
      ValueRange(base, f);
      Times(0, Value(base, f), base);
      Times(Value(base, f), Power(base, |f|) - 1, base);
      assert (Power(base, |f|) - 1) * base == Power(base, |d|) - base;
    }
  }

  lemma {:induction false} ValueSplit(base: int, d: seq<int>, k: nat)
    requires k <= |d|
    ensures Value(base, d) == Value(base, d[..k]) * Power(base, |d| - k) + Value(base, d[k..])
    decreases |d|
  {
    if k == |d| {
      assert d[..k] == d && d[k..] == [];
    } else {
      var n := |d| - 1;
      ValueSplit(base, d[..n], k);
      assert d[..n][..k] == d[..k] && d[..n][k..] == d[k..n] && d[k..][..n - k] == d[k..n];
      var x, p, y := Value(base, d[..k]), Power(base, n - k), Value(base, d[k..n]);
      assert (x * p + y) * base == x * (base * p) + y * base;
    }
  }

  lemma OneDigit(base: int, x: int)
    ensures Value(base, [x]) == x
  {
    assert [x][..0] == [];
  }

  /** The first digit counts for its place. */
  lemma FirstDigit(base: int, d: seq<int>)
    requires d != []
    ensures Value(base, d) == d[0] * Power(base, |d| - 1) + Value(base, d[1..])
  {
    ValueSplit(base, d, 1);
    assert d[..1] == [d[0]];
    OneDigit(base, d[0]);
  }

  /** The shortest digit string of a number. */
  function Shortest(base: int, v: nat): (d: seq<int>)
    requires base >= 2
    ensures Valid(base, d) && (d != [] ==> d[0] != 0) && (d == [] <==> v == 0)
    ensures Value(base, d) == v
  {
    if v == 0 then [] else
      SplitLast(base, v);
      var f := Shortest(base, v / base);
      Appended(base, f, v % base);
      f + [v % base]
  }

  lemma SplitLast(base: int, v: nat)
    requires base >= 2
    ensures v == v / base * base + v % base && 0 <= v % base < base && 0 <= v / base && (v > 0 ==> v / base < v)
  {
    var q := v / base;
    assert v == q * base + v % base;
    if q < 0 {
      Times(q, -1, base);
    } else {
      Times(2, base, q);
    }
  }

  lemma Appended(base: int, f: seq<int>, x: int)
    ensures Value(base, f + [x]) == Value(base, f) * base + x
  {
    assert (f + [x])[..|f|] == f;
  }

  lemma ShortestUnique(base: int, d: seq<int>)
    requires base >= 2 && Valid(base, d) && (d != [] ==> d[0] != 0)
    ensures Value(base, d) >= 0 && Shortest(base, Value(base, d)) == d
  {
    ValueRange(base, d);
    Unique(base, d, Shortest(base, Value(base, d)));
  }

  function Stripped(d: seq<int>): seq<int> {
    if d != [] && d[0] == 0 then Stripped(d[1..]) else d
  }

  lemma {:induction false} StrippedShape(d: seq<int>)
    ensures |Stripped(d)| <= |d| && Stripped(d) == d[|d| - |Stripped(d)|..]
    ensures forall i :: 0 <= i < |d| - |Stripped(d)| ==> d[i] == 0
    ensures Stripped(d) != [] ==> Stripped(d)[0] != 0
    ensures |Stripped(d)| == |d| <==> d == [] || d[0] != 0
  {
    if d != [] && d[0] == 0 {
      StrippedShape(d[1..]);
      var k := |d| - |Stripped(d)|;
      assert d[1..][k - 1..] == d[k..];
      forall i | 0 <= i < k ensures d[i] == 0 {
        assert i > 0 ==> d[i] == d[1..][i - 1];
      }
    }
  }

  lemma {:induction false} StrippedValue(base: int, d: seq<int>)
    ensures Value(base, Stripped(d)) == Value(base, d)
  {
    if d != [] && d[0] == 0 {
      StrippedValue(base, d[1..]);
      FirstDigit(base, d);
    }
  }

  /** Without a leading zero a number has one digit string only. */
  lemma {:induction false} Unique(base: int, d: seq<int>, e: seq<int>)
    requires base >= 2 && Valid(base, d) && Valid(base, e) && Value(base, d) == Value(base, e)
    requires d != [] ==> d[0] != 0
    requires e != [] ==> e[0] != 0
    ensures d == e
    decreases |d|
  {
    if d != [] && e != [] {
      var f, g := d[..|d| - 1], e[..|e| - 1];
      SameLast(base, Value(base, f), d[|d| - 1], Value(base, g), e[|e| - 1]);
      assert f != [] ==> f[0] == d[0];
      assert g != [] ==> g[0] == e[0];
      Unique(base, f, g);
      assert d == f + [d[|d| - 1]] && e == g + [e[|e| - 1]];
    } else {
      NotZero(base, d);
      NotZero(base, e);
    }
  }

  lemma NotZero(base: int, d: seq<int>)
    requires base >= 2 && Valid(base, d) && (d != [] ==> d[0] != 0)
    ensures d != [] ==> Value(base, d) > 0
  {
    if d != [] {
      FirstDigit(base, d);
      ValueRange(base, d[1..]);
      PowerPositive(base, |d| - 1);
      Times(1, d[0], Power(base, |d| - 1));
    }
  }

  lemma SameLast(base: int, x: int, a: int, y: int, b: int)
    requires base >= 2 && x * base + a == y * base + b && 0 <= a < base && 0 <= b < base
    ensures x == y && a == b
  {
    assert (x - y) * base == b - a;
    OnlyZero(x - y, base);
  }

  lemma OnlyZero(k: int, base: int)
    requires -base < k * base < base
    ensures k == 0
  {
    if k >= 1 {
      Times(1, k, base);
    } else if k <= -1 {
      Times(k, -1, base);
    }
  }

  // ----- Quotients ------------------------------------------------------------------------------

  lemma Parts(a: nat, f: int)
    requires f > 0
    ensures f * (a / f) <= a < f * (a / f) + f
  {
  }

  lemma QuotientOrder(x: nat, f: int, q: int, g: int, r: int)
    requires 0 < f <= g && f * q <= x < f * q + f && g * r <= x < g * r + g && r >= 0
    ensures r <= q
  {
    Times(f, g, r);
    if r > q {
      Times(q + 1, r, f);
    }
  }

  lemma QuotientFalls(x: nat, f: int, g: int)
    requires 0 < f <= g
    ensures 0 <= x / g <= x / f
  {
    Parts(x, f);
    Parts(x, g);
    QuotientOrder(x, f, x / f, g, x / g);
  }

  lemma QuotientOfSum(low: nat, p: int, k: nat)
    requires p >= 1
    ensures (low + p * k) / p == low / p + k
  {
    var x := low + p * k;
    Parts(low, p);
    Parts(x, p);
    Between(x, p, x / p, low / p + k);
  }

  lemma Between(x: int, p: int, q: int, r: int)
    requires p * q <= x < p * q + p && p * r <= x < p * r + p
    ensures q == r
  {
    assert (q - r) * p == p * q - p * r;
    OnlyZero(q - r, p);
  }

  /** Each digit times the power of the base for its place. */
  function Weighted(base: int, d: seq<int>): (s: seq<int>)
    ensures |s| == |d| && forall i :: 0 <= i < |d| ==> s[i] == d[i] * Power(base, |d| - 1 - i)
  {
    seq(|d|, i requires 0 <= i < |d| => d[i] * Power(base, |d| - 1 - i))
  }

  lemma {:induction false} ValueIsTotal(base: int, d: seq<int>)
    ensures Value(base, d) == Total(Weighted(base, d))
  {
    if d != [] {
      FirstDigit(base, d);
      ValueIsTotal(base, d[1..]);
      assert Weighted(base, d)[1..] == Weighted(base, d[1..]);
    }
  }
}
