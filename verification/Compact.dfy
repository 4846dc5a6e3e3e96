/** Big numbers as sign-and-magnitude byte strings, and the compact form of a target. */
module Compact {
  import opened Digits

  // ----- With a sign: the top bit of the first byte -----------------------------------------------

  /** A zero byte is put in front of a magnitude whose top bit is taken. */
  function Padded(m: seq<int>): seq<int> {
    if m != [] && m[0] >= 128 then [0] + m else m
  }

  function ToMpi(v: int): (b: seq<int>)
    ensures Valid(256, b) && (b == [] <==> v == 0)
  {
    var e := Padded(Shortest(256, Abs(v)));
    if v < 0 then e[0 := e[0] + 128] else e
  }

  function Unsigned(b: seq<int>): seq<int> {
    if b == [] then [] else b[0 := b[0] % 128]
  }

  function FromMpi(b: seq<int>): int {
    if b != [] && b[0] >= 128 then -Value(256, Unsigned(b)) else Value(256, Unsigned(b))
  }

  lemma PaddedValue(m: seq<int>)
    requires Valid(256, m)
    ensures Value(256, Padded(m)) == Value(256, m)
  {
    if m != [] && m[0] >= 128 {
      ValueSplit(256, [0] + m, 1);
      assert ([0] + m)[..1] == [0] && ([0] + m)[1..] == m;
      assert Value(256, [0]) == 0 by {
        assert [0][..0] == [];
      }
    }
  }

  /** Every number survives the trip through the byte format. */
  lemma MpiRoundTrip(v: int)
    ensures FromMpi(ToMpi(v)) == v
  {
    hide Shortest, Value;
    var e := Padded(Shortest(256, Abs(v)));
    PaddedValue(Shortest(256, Abs(v)));
    assert v != 0 ==> Unsigned(ToMpi(v)) == e;
  }

  /** No byte of a number is superfluous. */
  predicate Minimal(b: seq<int>) {
    b == [] || b[0] % 128 != 0 || (|b| > 1 && b[1] >= 128)
  }

  lemma MpiIsMinimal(v: int)
    ensures Minimal(ToMpi(v))
  {
    hide Shortest, Value;
  }

  lemma StripPadding(b: seq<int>)
    requires Valid(256, b) && Minimal(b) && b != []
    ensures Value(256, Unsigned(b)) > 0
    ensures Padded(Shortest(256, Value(256, Unsigned(b)))) == Unsigned(b)
  {
    var u := Unsigned(b);
    if u[0] > 0 {
      ShortestUnique(256, u);
    } else {
      var m := u[1..];
      assert u == [0] + m;
      ShortestUnique(256, m);
      assert m[0] >= 128;
      PaddedValue(m);
    }
  }

  lemma NoBytes()
    ensures Value(256, []) == 0
  {
  }

  /** A number that is not negative is written as its digits, with the top bit free. */
  lemma MagnitudeOf(v: nat)
    ensures var b := ToMpi(v);
            && Reversed(GetVch(v)) == b && Valid(256, b) && Value(256, b) == v
            && (b != [] ==> b[0] < 128 && (b[0] != 0 || (|b| > 1 && b[1] >= 128)))
  {
    hide Shortest, Value;
    PaddedValue(Shortest(256, v));
    MpiIsMinimal(v);
  }

  /** A byte string is what its value is written as, exactly when it is minimal. */
  lemma MpiIffMinimal(b: seq<int>)
    requires Valid(256, b)
    ensures ToMpi(FromMpi(b)) == b <==> Minimal(b)
  {
    hide Shortest, Value;
    NoBytes();
    MpiIsMinimal(FromMpi(b));
    if Minimal(b) && b != [] {
      StripPadding(b);
    }
  }

  function Reversed(b: seq<int>): seq<int> {
    seq(|b|, i requires 0 <= i < |b| => b[|b| - 1 - i])
  }

  /** The little-endian form used for script numbers. */
  function GetVch(v: int): seq<int> {
    Reversed(ToMpi(v))
  }

  function SetVch(vch: seq<int>): int {
    FromMpi(Reversed(vch))
  }

  lemma VchRoundTrip(v: int)
    ensures SetVch(GetVch(v)) == v
  {
    MpiRoundTrip(v);
    assert Reversed(Reversed(ToMpi(v))) == ToMpi(v);
  }

  // ----- The compact form ------------------------------------------------------------------------------

  function ByteAt(b: seq<int>, i: nat): int {
    if i < |b| then b[i] else 0
  }

  /** Length and first three bytes, in 32 bits. */
  function GetCompact(v: int): int {
    var b := ToMpi(v);
    |b| * 0x100_0000 % 0x1_0000_0000 + ByteAt(b, 0) * 0x1_0000 + ByteAt(b, 1) * 0x100 + ByteAt(b, 2)
  }

  function SetCompact(c: int): int
    requires 0 <= c < 0x1_0000_0000
  {
    FromMpi(seq(c / 0x100_0000, i =>
      if i == 0 then c / 0x1_0000 % 256 else if i == 1 then c / 0x100 % 256 else if i == 2 then c % 256 else 0))
  }

  function FirstThree(b: seq<int>): seq<int> {
    seq(|b|, i requires 0 <= i < |b| => if i < 3 then b[i] else 0)
  }

  lemma LastDigit(n: int, x: int, base: int)
    requires base >= 2 && 0 <= x < base
    ensures (n * base + x) / base == n && (n * base + x) % base == x
  {
    var q, r := (n * base + x) / base, (n * base + x) % base;
    assert q * base + r == n * base + x;
    SameLast(base, q, r, n, x);
  }

  lemma CompactBytes(n: nat, x: int, y: int, z: int)
    requires n < 256 && 0 <= x < 256 && 0 <= y < 256 && 0 <= z < 256
    ensures var c := n * 0x100_0000 % 0x1_0000_0000 + x * 0x1_0000 + y * 0x100 + z;
            && 0 <= c < 0x1_0000_0000 && c / 0x100_0000 == n
            && c / 0x1_0000 % 256 == x && c / 0x100 % 256 == y && c % 256 == z
  {
    var a, b, c := n * 0x100 + x, n * 0x1_0000 + x * 0x100 + y, n * 0x100_0000 + x * 0x1_0000 + y * 0x100 + z;
    LastDigit(n, x, 256);
    LastDigit(a, y, 256);
    LastDigit(b, z, 256);
    assert c / 0x1_0000 == c / 256 / 256 && c / 0x100_0000 == c / 256 / 256 / 256;
  }

  lemma CompactKeepsThree(v: int)
    requires |ToMpi(v)| < 256
    ensures 0 <= GetCompact(v) < 0x1_0000_0000
    ensures SetCompact(GetCompact(v)) == FromMpi(FirstThree(ToMpi(v)))
  {
    var b := ToMpi(v);
    var x, y, z := ByteAt(b, 0), ByteAt(b, 1), ByteAt(b, 2);
    CompactBytes(|b|, x, y, z);
    var c := GetCompact(v);
    assert seq(c / 0x100_0000, i =>
      if i == 0 then c / 0x1_0000 % 256 else if i == 1 then c / 0x100 % 256 else if i == 2 then c % 256 else 0)
        == FirstThree(b);
  }

  /** The weight of the last byte that the compact form keeps. */
  function Unit(v: nat): (u: int)
    ensures u >= 1
  {
    var n := |ToMpi(v)|;
    if n <= 3 then 1 else PowerPositive(256, n - 3); Power(256, n - 3)
  }

  function Rounded(v: nat): int {
    v / Unit(v) * Unit(v)
  }

  lemma {:induction false} ZeroBytes(b: seq<int>)
    requires forall i :: 0 <= i < |b| ==> b[i] == 0
    ensures Value(256, b) == 0
  {
    if b != [] {
      ZeroBytes(b[..|b| - 1]);
    }
  }

  lemma QuotientUnique(u: int, q: int, r: int, hi: int, lo: int)
    requires q * u + r == hi * u + lo && 0 <= r < u && 0 <= lo < u
    ensures q == hi
  {
    assert q * u - hi * u == (q - hi) * u;
    AtLeastOneUnit(u, q - hi);
    AtLeastOneUnit(u, hi - q);
    assert (hi - q) * u == -((q - hi) * u);
  }

  lemma AtLeastOneUnit(u: int, k: int)
    requires u >= 1
    ensures k >= 1 ==> k * u >= u
  {
    if k >= 1 {
      assert k * u == u + (k - 1) * u;
    }
  }

  lemma DivisionByUnit(v: int, hi: int, u: int, lo: int)
    requires u >= 1 && v == hi * u + lo && 0 <= lo < u
    ensures v / u == hi
  {
    var q, r := v / u, v % u;
    assert v == q * u + r;
    QuotientUnique(u, q, r, hi, lo);
  }

  /** Packing a target and unpacking it rounds it down to a multiple of its unit. */
  lemma CompactRounds(v: nat)
    requires |ToMpi(v)| < 256
    ensures 0 <= GetCompact(v) < 0x1_0000_0000 && SetCompact(GetCompact(v)) == Rounded(v)
  {
    hide ToMpi, FromMpi, Value, GetCompact, GetVch, SetCompact, Power;
    var b := ToMpi(v);
    var t := FirstThree(b);
    CompactKeepsThree(v);
    MagnitudeOf(v);
    PlainMpi(t);
    if |b| <= 3 {
      assert t == b;
    } else {
      TopBytes(b);
      DivisionByUnit(v, Value(256, b[..3]), Power(256, |b| - 3), Value(256, b[3..]));
    }
  }

  lemma PlainMpi(b: seq<int>)
    requires b != [] ==> 0 <= b[0] < 128
    ensures FromMpi(b) == Value(256, b)
  {
    hide Value, Unsigned;
    AlreadyUnsigned(b);
  }

  lemma AlreadyUnsigned(b: seq<int>)
    requires b != [] ==> 0 <= b[0] < 128
    ensures Unsigned(b) == b
  {
    if b != [] {
      NoTopBit(b[0]);
    }
  }

  lemma NoTopBit(x: int)
    requires 0 <= x < 128
    ensures x % 128 == x
  {
  }

  lemma TopBytes(b: seq<int>)
    requires Valid(256, b) && |b| > 3
    ensures Value(256, b) == Value(256, b[..3]) * Power(256, |b| - 3) + Value(256, b[3..])
    ensures 0 <= Value(256, b[3..]) < Power(256, |b| - 3)
    ensures Value(256, FirstThree(b)) == Value(256, b[..3]) * Power(256, |b| - 3)
  {
    hide Value, Power;
    var t := FirstThree(b);
    ValueSplit(256, b, 3);
    ValueSplit(256, t, 3);
    assert t[..3] == b[..3];
    ZeroBytes(t[3..]);
    ValueRange(256, b[3..]);
  }

  // ----- How far packing rounds, and that it keeps order --------------------------------------------------

  function Len(v: nat): nat {
    |ToMpi(v)|
  }

  /** A number of `n` bytes lies between the smallest and the largest of that length. */
  lemma LenBounds(v: nat)
    requires v > 0
    ensures Len(v) >= 1 && v < 128 * Power(256, Len(v) - 1)
    ensures Len(v) >= 2 ==> v >= 128 * Power(256, Len(v) - 2)
  {
    hide Shortest, Value;
    var b := ToMpi(v);
    PaddedValue(Shortest(256, v));
    MpiBounds(b);
  }

  lemma MpiBounds(b: seq<int>)
    requires Valid(256, b) && b != [] && b[0] < 128 && (b[0] > 0 || (|b| > 1 && b[1] >= 128))
    ensures Value(256, b) < 128 * Power(256, |b| - 1)
    ensures |b| >= 2 ==> Value(256, b) >= 128 * Power(256, |b| - 2)
  {
    hide Value;
    FirstDigit(256, b);
    ValueRange(256, b[1..]);
    PowerPositive(256, |b| - 1);
    Times(b[0], 127, Power(256, |b| - 1));
    if |b| >= 2 {
      FirstDigit(256, b[1..]);
      ValueRange(256, b[1..][1..]);
      PowerPositive(256, |b| - 2);
      if b[0] > 0 {
        Times(1, b[0], Power(256, |b| - 1));
      } else {
        Times(128, b[1], Power(256, |b| - 2));
      }
    }
  }

  lemma LenMono(v: nat, w: nat)
    requires v <= w
    ensures Len(v) <= Len(w)
  {
    hide ToMpi;
    if v > 0 {
      LenBounds(v);
      LenBounds(w);
      if Len(v) > Len(w) {
        PowerMono(256, Len(w) - 1, Len(v) - 2);
      }
    } else {
      LenZero();
    }
  }

  lemma LenZero()
    ensures Len(0) == 0
  {
  }

  /** Packing loses less than one part in 2^15. */
  lemma RoundedClose(v: nat)
    ensures 0 <= Rounded(v) <= v && 0x8000 * (v - Rounded(v)) <= v
  {
    hide ToMpi;
    var u := Unit(v);
    assert v == v / u * u + v % u;
    if Len(v) > 3 {
      LenZero();
      LenBounds(v);
      assert 128 * Power(256, Len(v) - 2) == 0x8000 * Power(256, Len(v) - 3);
    }
  }

  lemma MultipleBelow(v: int, w: int, u: int)
    requires u >= 1 && v <= w
    ensures v / u * u <= w / u * u
  {
    var q, r, q', r' := v / u, v % u, w / u, w % u;
    assert v == q * u + r && w == q' * u + r';
    AtLeastOneUnit(u, q - q');
    assert q * u - q' * u == (q - q') * u;
    assert q <= q';
    assert (q' - q) * u >= 0;
  }

  /** Packing keeps the order of targets. */
  lemma RoundedMono(v: nat, w: nat)
    requires v <= w
    ensures Rounded(v) <= Rounded(w)
  {
    hide ToMpi;
    LenMono(v, w);
    RoundedClose(v);
    RoundedClose(w);
    if Len(v) == Len(w) {
      MultipleBelow(v, w, Unit(w));
    } else if Len(w) > 3 {
      LenZero();
      LenBounds(w);
      PowerMono(256, 2, Len(w) - 1);
      if v > 0 {
        LenBounds(v);
        PowerMono(256, Len(v) - 1, Len(w) - 2);
      }
      TopUnit(w);
    }
  }

  /** The smallest number of a length is a multiple of its unit. */
  lemma TopUnit(w: nat)
    requires Len(w) > 3
    ensures Rounded(w) >= 128 * Power(256, Len(w) - 2)
  {
    hide ToMpi;
    LenZero();
    LenBounds(w);
    var u := Unit(w);
    assert 128 * Power(256, Len(w) - 2) == 0x8000 * u;
    DivisionByUnit(0x8000 * u, 0x8000, u, 0);
    MultipleBelow(0x8000 * u, w, u);
  }

  /** Three bytes, and zeros behind them. */
  function Laid(n: nat, x: int, y: int, z: int): (b: seq<int>)
    ensures |b| == n && forall i :: 3 <= i < n ==> b[i] == 0
    ensures n >= 3 ==> b[0] == x && b[1] == y && b[2] == z
  {
    seq(n, i => if i == 0 then x else if i == 1 then y else if i == 2 then z else 0)
  }

  lemma Unpacks(n: nat, x: int, y: int, z: int)
    requires n < 256 && 0 <= x < 256 && 0 <= y < 256 && 0 <= z < 256
    ensures var c := n * 0x100_0000 + x * 0x1_0000 + y * 0x100 + z;
            0 <= c < 0x1_0000_0000 && SetCompact(c) == FromMpi(Laid(n, x, y, z))
  {
    hide SetCompact, FromMpi, Laid;
    NoCarry(n);
    CompactBytes(n, x, y, z);
    LaidOut(n * 0x100_0000 + x * 0x1_0000 + y * 0x100 + z, n, x, y, z);
  }

  lemma NoCarry(n: nat)
    requires n < 256
    ensures n * 0x100_0000 % 0x1_0000_0000 == n * 0x100_0000
  {
  }

  lemma LaidOut(c: int, n: nat, x: int, y: int, z: int)
    requires 0 <= c < 0x1_0000_0000
    requires c / 0x100_0000 == n && c / 0x1_0000 % 256 == x && c / 0x100 % 256 == y && c % 256 == z
    ensures SetCompact(c) == FromMpi(Laid(n, x, y, z))
  {
    hide FromMpi;
  }

  /** A compact number: its highest byte is a length, the other three are shifted left by as many bytes as
      the length exceeds three; negative if the highest of their bits is set. */
  lemma CompactIs(n: nat, x: int, y: int, z: int)
    requires 3 <= n < 256 && 0 <= x < 256 && 0 <= y < 256 && 0 <= z < 256
    ensures var c := n * 0x100_0000 + x * 0x1_0000 + y * 0x100 + z;
            && 0 <= c < 0x1_0000_0000
            && SetCompact(c) == if x >= 128 then -((x % 128 * 0x1_0000 + y * 0x100 + z) * Power(256, n - 3))
                                else (x * 0x1_0000 + y * 0x100 + z) * Power(256, n - 3)
  {
    hide Power, Value, FromMpi, SetCompact, Laid;
    Unpacks(n, x, y, z);
    FromThree(Laid(n, x, y, z));
  }

  /** A byte string of which only the first three count. */
  lemma FromThree(b: seq<int>)
    requires |b| >= 3 && 0 <= b[0] < 256 && forall i :: 3 <= i < |b| ==> b[i] == 0
    ensures var m := b[0] % 128 * 0x1_0000 + b[1] * 0x100 + b[2];
            FromMpi(b) == if b[0] >= 128 then -(m * Power(256, |b| - 3)) else m * Power(256, |b| - 3)
  {
    hide Power, Value;
    var u := Unsigned(b);
    ValueSplit(256, u, 3);
    ZeroBytes(u[3..]);
    ThreeBytes(u[..3]);
    assert |u| - 3 == |b| - 3;
  }

  lemma ThreeBytes(d: seq<int>)
    requires |d| == 3
    ensures Value(256, d) == d[0] * 0x1_0000 + d[1] * 0x100 + d[2]
  {
    assert d[..2][..1] == [d[0]] && d[..2][..1][..0] == [];
    assert Value(256, d[..2][..1]) == d[0];
    assert Value(256, d[..2]) == d[0] * 256 + d[1];
  }
}
