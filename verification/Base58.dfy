/** Base-58 text for byte strings, with and without a checksum. */
module Base58 {
  import opened Digits
  import opened Compact
  import opened Ledger

  /** The character of a digit: 1 to 9, A to Z without I and O, a to z without l. */
  function CharOf(d: int): char
    requires 0 <= d < 58
  {
    if d < 9 then (49 + d) as char
    else if d < 17 then (65 + d - 9) as char
    else if d < 22 then (74 + d - 17) as char
    else if d < 33 then (80 + d - 22) as char
    else if d < 44 then (97 + d - 33) as char
    else (109 + d - 44) as char
  }

  /** The digit of a character, or -1. */
  function DigitOf(c: char): (d: int)
    ensures -1 <= d < 58 && (d >= 0 ==> CharOf(d) == c)
  {
    var n := c as int;
    if 49 <= n < 58 then n - 49
    else if 65 <= n < 73 then n - 65 + 9
    else if 74 <= n < 79 then n - 74 + 17
    else if 80 <= n < 91 then n - 80 + 22
    else if 97 <= n < 108 then n - 97 + 33
    else if 109 <= n < 123 then n - 109 + 44
    else -1
  }

  lemma DigitOfChar(d: int)
    requires 0 <= d < 58
    ensures DigitOf(CharOf(d)) == d && !IsSpace(CharOf(d)) && CharOf(d) != '\0' && (CharOf(d) == '1' <==> d == 0)
  {
  }

  predicate IsSpace(c: char) {
    c == ' ' || 9 <= c as int <= 13
  }

  // ----- The buffer is large enough --------------------------------------------------------------------

  function BufferSize(n: nat): nat {
    n * 138 / 100 + 1
  }

  lemma EightBytes()
    ensures Power(256, 8) <= Power(58, 11)
  {
    assert Power(256, 4) == 0x1_0000_0000 by {
      assert Power(256, 2) == 0x1_0000;
    }
    assert Power(256, 6) == 0x1_0000_0000_0000;
    assert Power(58, 3) == 195_112;
    assert Power(58, 5) == 656_356_768;
    assert Power(58, 7) == 2_207_984_167_552;
    assert Power(58, 9) == 7_427_658_739_644_928;
    assert Power(58, 10) == 430_804_206_899_405_824;
  }

  /** Up to seven bytes fit. */
  lemma FewBytes(n: nat)
    requires n < 8
    ensures Power(256, n) <= Power(58, BufferSize(n))
  {
    assert Power(58, 3) == 195_112;
    assert Power(58, 5) == 656_356_768;
    assert Power(58, 6) == 38_068_692_544;
    assert Power(58, 7) == 2_207_984_167_552;
    assert Power(58, 9) == 7_427_658_739_644_928;
    assert Power(256, 2) == 0x1_0000;
    assert Power(256, 4) == 0x1_0000_0000;
    assert Power(256, 6) == 0x1_0000_0000_0000;
  }

  /** Eight more bytes need at most eleven more digits, and the buffer grows by at least eleven. */
  lemma {:induction false} BufferFits(n: nat)
    ensures Power(256, n) <= Power(58, BufferSize(n))
  {
    if n < 8 {
      FewBytes(n);
    } else {
      BufferFits(n - 8);
      EightBytes();
      PowerAdd(256, n - 8, 8);
      PowerAdd(58, BufferSize(n - 8), 11);
      PowerPositive(256, 8);
      PowerPositive(58, BufferSize(n - 8));
      var a, b, c, d := Power(256, n - 8), Power(58, BufferSize(n - 8)), Power(256, 8), Power(58, 11);
      Times(a, b, c);
      Times(c, d, b);
      assert b * c == c * b && d * b == b * d;
      PowerMono(58, BufferSize(n - 8) + 11, BufferSize(n));
    }
  }

  // ----- Encoding -----------------------------------------------------------------------------------------

  function Text(d: seq<int>): string
    requires Valid(58, d)
  {
    seq(|d|, i requires 0 <= i < |d| => CharOf(d[i]))
  }

  function Ones(n: nat): string {
    seq(n, _ => '1')
  }

  /** A one for each leading zero byte, then the number in base 58. */
  function Encoded(b: seq<int>): string
    requires Valid(256, b)
  {
    StrippedShape(b);
    ValueRange(256, b);
    Ones(|b| - |Stripped(b)|) + Text(Shortest(58, Value(256, b)))
  }

  lemma CarryStep(was: seq<int>, rest: seq<int>, carry: int, c: int, digit: int, up: int)
    requires was != [] && |rest| == |was| - 1
    requires Value(58, rest) + carry * Power(58, |rest|) == 256 * Value(58, was[1..]) + c
    requires carry + 256 * was[0] == up * 58 + digit
    ensures Value(58, [digit] + rest) + up * Power(58, |was|) == 256 * Value(58, was) + c
  {
    hide Value;
    FirstDigit(58, was);
    FirstDigit(58, [digit] + rest);
    assert ([digit] + rest)[1..] == rest;
    Carry(up, digit, carry, was[0], Power(58, |rest|));
  }

  lemma Carry(up: int, digit: int, carry: int, first: int, p: int)
    requires carry + 256 * first == up * 58 + digit
    ensures up * (58 * p) + digit * p == carry * p + 256 * (first * p)
  {
    assert digit * p == (carry + 256 * first - 58 * up) * p;
  }

  /** Multiplies the number in the buffer by 256 and adds a byte, digit by digit from the end. */
  method MulAdd(a: array<int>, c: int) returns (carry: int)
    requires Valid(58, a[..]) && 0 <= c < 256
    modifies a
    ensures Valid(58, a[..]) && carry >= 0
    ensures Value(58, a[..]) + carry * Power(58, a.Length) == 256 * Value(58, old(a[..])) + c
  {
    hide Value, Power;
    ghost var was := a[..];
    carry := c;
    var i := a.Length;
    Start(was, c);
    assert a[i..] == [];
    while i > 0
      invariant 0 <= i <= a.Length && 0 <= carry < 256
      invariant a[..i] == was[..i] && Valid(58, a[i..])
      invariant Value(58, a[i..]) + carry * Power(58, a.Length - i) == 256 * Value(58, was[i..]) + c
    {
      ghost var rest := a[i..];
      i := i - 1;
      assert a[i] == a[..i + 1][i] == was[i];
      var t := carry + 256 * a[i];
      CarryStep(was[i..], rest, carry, c, t % 58, t / 58);
      assert was[i..][1..] == was[i + 1..];
      a[i] := t % 58;
      carry := t / 58;
      assert a[i..] == [t % 58] + rest;
    }
    assert a[0..] == a[..] && was[0..] == was;
  }

  lemma Start(was: seq<int>, c: int)
    ensures Value(58, []) + c * Power(58, 0) == 256 * Value(58, was[|was|..]) + c
  {
  }

  lemma NoCarry(v: int, carry: int, p: int, whole: int)
    requires v >= 0 && carry >= 0 && 0 <= v + carry * p == whole < p
    ensures carry == 0
  {
    if carry >= 1 {
      Times(1, carry, p);
    }
  }

  lemma NextByte(m: seq<int>, k: nat)
    requires Valid(256, m) && k < |m|
    ensures 0 <= Value(256, m[..k + 1]) == 256 * Value(256, m[..k]) + m[k] < Power(58, BufferSize(|m|))
  {
    assert m[..k + 1][..k] == m[..k];
    ValueRange(256, m[..k + 1]);
    PowerMono(256, k + 1, |m|);
    BufferFits(|m|);
  }

  lemma {:induction false} AllZero(base: int, d: seq<int>)
    requires forall i :: 0 <= i < |d| ==> d[i] == 0
    ensures Value(base, d) == 0 && Stripped(d) == []
  {
    if d != [] {
      AllZero(base, d[1..]);
      FirstDigit(base, d);
    }
  }

  /** Encoding never runs out of buffer: the carry is zero after every byte. */
  method EncodeBase58(b: seq<int>) returns (s: string)
    requires Valid(256, b)
    ensures s == Encoded(b)
  {
    hide Value, Power, Stripped;
    var zeroes := CountZeroes(b);
    var m := b[zeroes..];
    StrippedValue(256, b);
    var b58 := new int[BufferSize(|m|)](_ => 0);
    AllZero(58, b58[..]);
    Empty(m);
    for k := 0 to |m|
      invariant fresh(b58) && Valid(58, b58[..]) && Value(58, b58[..]) == Value(256, m[..k])
    {
      NextByte(m, k);
      var carry := MulAdd(b58, m[k]);
      ValueRange(58, b58[..]);
      NoCarry(Value(58, b58[..]), carry, Power(58, b58.Length), Value(256, m[..k + 1]));
      assert carry == 0;
    }
    assert m[..|m|] == m;
    var skip := CountZeroes(b58[..]);
    var d := b58[skip..];
    assert d == b58[..][skip..];
    StrippedValue(58, b58[..]);
    ShortestUnique(58, d);
    s := Ones(zeroes) + Text(d);
  }

  lemma Empty(m: seq<int>)
    ensures Value(256, m[..0]) == 0
  {
  }

  method CountZeroes(d: seq<int>) returns (n: nat)
    ensures n <= |d| && d[n..] == Stripped(d) && n == |d| - |Stripped(d)| && (n < |d| ==> d[n] != 0)
  {
    n := 0;
    while n < |d| && d[n] == 0
      invariant n <= |d| && Stripped(d[n..]) == Stripped(d)
    {
      assert d[n..][1..] == d[n + 1..];
      n := n + 1;
    }
    assert Stripped(d[n..]) == d[n..];
  }

  // ----- Decoding -----------------------------------------------------------------------------------------

  function WithoutSpaces(s: string): string {
    if s != [] && IsSpace(s[0]) then WithoutSpaces(s[1..]) else s
  }

  function WithoutOnes(s: string): string {
    if s != [] && s[0] == '1' then WithoutOnes(s[1..]) else s
  }

  /** The digits at the front. */
  function DigitsOf(s: string): (d: seq<int>)
    ensures Valid(58, d) && |d| <= |s|
  {
    if s == [] || DigitOf(s[0]) < 0 then [] else [DigitOf(s[0])] + DigitsOf(s[1..])
  }

  /** Spaces, ones and digits, and then only spaces: the number in base 256. Leading ones leave no
      trace. */
  function Decoded(s: string): Option<seq<int>> {
    var t := WithoutOnes(WithoutSpaces(s));
    var d := DigitsOf(t);
    ValueRange(58, d);
    if WithoutSpaces(t[|d|..]) == [] then Some(Shortest(256, Value(58, d))) else None
  }

  /** The characters before the terminator. */
  function CString(s: string): string {
    if s != [] && s[0] != '\0' then [s[0]] + CString(s[1..]) else []
  }

  /** All characters up to the first terminator, or all there are. */
  lemma {:induction false} CStringIs(s: string)
    ensures var n := |CString(s)|;
            && n <= |s| && CString(s) == s[..n] && (n < |s| ==> s[n] == '\0')
            && forall i :: 0 <= i < n ==> s[i] != '\0'
  {
    if s != [] && s[0] != '\0' {
      CStringIs(s[1..]);
    }
  }

  method SkipSpaces(s: string, from: nat) returns (i: nat)
    requires from <= |s|
    ensures from <= i <= |s| && s[i..] == WithoutSpaces(s[from..])
  {
    i := from;
    while i < |s| && IsSpace(s[i])
      invariant from <= i <= |s| && WithoutSpaces(s[i..]) == WithoutSpaces(s[from..])
    {
      assert s[i..][1..] == s[i + 1..];
      i := i + 1;
    }
    assert WithoutSpaces(s[i..]) == s[i..];
  }

  method SkipOnes(s: string, from: nat) returns (i: nat)
    requires from <= |s|
    ensures from <= i <= |s| && s[i..] == WithoutOnes(s[from..]) && (i < |s| ==> s[i] != '1')
    ensures forall k :: from <= k < i ==> s[k] == '1'
  {
    i := from;
    while i < |s| && s[i] == '1'
      invariant from <= i <= |s| && WithoutOnes(s[i..]) == WithoutOnes(s[from..])
      invariant forall k :: from <= k < i ==> s[k] == '1'
    {
      assert s[i..][1..] == s[i + 1..];
      i := i + 1;
    }
    assert WithoutOnes(s[i..]) == s[i..];
  }

  lemma DigitsStep(s: string, p: nat)
    requires p < |s|
    ensures DigitsOf(s[p..]) == if DigitOf(s[p]) < 0 then [] else [DigitOf(s[p])] + DigitsOf(s[p + 1..])
  {
    hide DigitOf;
    assert s[p..][1..] == s[p + 1..];
  }

  lemma NothingRead()
    ensures Value(58, []) == 0 && WithoutSpaces([]) == [] && DigitsOf([]) == []
  {
  }

  /** Accumulates digits until a character is none; what follows may only be space. */
  method ReadNumber(s: string, from: nat) returns (ok: bool, bn: int)
    requires from <= |s|
    ensures var d := DigitsOf(s[from..]);
            && (ok <==> WithoutSpaces(s[from..][|d|..]) == [])
            && (ok ==> bn == Value(58, d))
  {
    hide DigitsOf, DigitOf, Value, WithoutSpaces;
    NothingRead();
    bn := 0;
    var p := from;
    ghost var done: seq<int> := [];
    while p < |s|
      invariant from <= p <= |s| && |done| == p - from && bn == Value(58, done)
      invariant done + DigitsOf(s[p..]) == DigitsOf(s[from..])
    {
      var digit := DigitOf(s[p]);
      DigitsStep(s, p);
      assert s[from..][|done|..] == s[p..];
      if digit < 0 {
        assert done == DigitsOf(s[from..]);
        p := SkipSpaces(s, p);
        return p == |s|, bn;
      }
      assert done + ([digit] + DigitsOf(s[p + 1..])) == (done + [digit]) + DigitsOf(s[p + 1..]);
      Appended(58, done, digit);
      bn := bn * 58 + digit;
      done := done + [digit];
      p := p + 1;
    }
    assert s[p..] == [] && s[from..][|done|..] == [];
    assert done == DigitsOf(s[from..]);
    ok := true;
  }

  /** The little-endian bytes without a sign byte. */
  method TrimSign(vch: seq<int>) returns (r: seq<int>)
    ensures var n := |vch|; r == if n >= 2 && vch[n - 1] == 0 && vch[n - 2] >= 0x80 then vch[..n - 1] else vch
  {
    r := vch;
    if |r| >= 2 && r[|r| - 1] == 0 && r[|r| - 2] >= 0x80 {
      r := r[..|r| - 1];
    }
  }

  lemma TrimPadded(m: seq<int>, r: seq<int>)
    requires m != [] ==> m[0] != 0
    requires var vch := Reversed(Padded(m)); var n := |vch|;
             r == if n >= 2 && vch[n - 1] == 0 && vch[n - 2] >= 0x80 then vch[..n - 1] else vch
    ensures Reversed(r) == m
  {
    var vch := Reversed(Padded(m));
    if m != [] && m[0] >= 128 {
      assert vch[|vch| - 1] == 0 && vch[|vch| - 2] == m[0];
      assert Reversed(r) == m;
    } else {
      assert m != [] ==> vch[|vch| - 1] == m[0];
      assert Reversed(r) == m;
    }
  }

  lemma TrimmedIsShortest(v: nat, r: seq<int>)
    requires var vch := GetVch(v); var n := |vch|;
             r == if n >= 2 && vch[n - 1] == 0 && vch[n - 2] >= 0x80 then vch[..n - 1] else vch
    ensures Reversed(r) == Shortest(256, v)
  {
    hide Shortest, Padded, Reversed;
    TrimPadded(Shortest(256, v), r);
  }

  /** Succeeds exactly on well-formed text. The second count of leading ones starts behind them and
      is always zero. */
  method DecodeBase58(text: string) returns (r: Option<seq<int>>)
    ensures r == Decoded(CString(text))
  {
    hide DigitsOf, DigitOf, Value, WithoutSpaces, WithoutOnes, Shortest, CString, GetVch, Reversed;
    var s := CString(text);
    assert s[0..] == s;
    var i := SkipSpaces(s, 0);
    i := SkipOnes(s, i);
    var ok, bn := ReadNumber(s, i);
    if !ok {
      return None;
    }
    ValueRange(58, DigitsOf(s[i..]));
    var vchTmp := TrimSign(GetVch(bn));
    TrimmedIsShortest(bn, vchTmp);
    var behind := SkipOnes(s, i);
    var nLeadingZeros := behind - i;
    var zeros := seq(nLeadingZeros, _ => 0);
    assert zeros + Reversed(vchTmp) == Reversed(vchTmp);
    r := Some(zeros + Reversed(vchTmp));
  }

  // ----- Round trip -----------------------------------------------------------------------------------------

  lemma {:induction false} TextHasDigits(d: seq<int>)
    requires Valid(58, d)
    ensures DigitsOf(Text(d)) == d
  {
    if d != [] {
      DigitOfChar(d[0]);
      TextHasDigits(d[1..]);
      assert Text(d)[1..] == Text(d[1..]);
    }
  }

  lemma {:induction false} OnesFallAway(n: nat, s: string)
    requires s == [] || s[0] != '1'
    ensures WithoutOnes(Ones(n) + s) == s
  {
    if n > 0 {
      OnesFallAway(n - 1, s);
      assert (Ones(n) + s)[1..] == Ones(n - 1) + s;
    } else {
      assert Ones(0) + s == s;
    }
  }

  lemma {:induction false} NoTerminator(s: string)
    requires forall i :: 0 <= i < |s| ==> s[i] != '\0'
    ensures CString(s) == s
  {
    if s != [] {
      NoTerminator(s[1..]);
    }
  }

  lemma OneIsNoSpace()
    ensures !IsSpace('1')
  {
  }

  /** Decoding an encoding gives the bytes back without their leading zeros. */
  lemma DecodeOfEncode(b: seq<int>)
    requires Valid(256, b)
    ensures Decoded(CString(Encoded(b))) == Some(Stripped(b))
  {
    hide Shortest, Value, Stripped, Power, IsSpace, CharOf, DigitsOf;
    StrippedShape(b);
    ValueRange(256, b);
    StrippedValue(256, b);
    NothingRead();
    OneIsNoSpace();
    var d, n := Shortest(58, Value(256, b)), |b| - |Stripped(b)|;
    var s := Encoded(b);
    forall i | 0 <= i < |d|
      ensures Text(d)[i] == CharOf(d[i]) && !IsSpace(Text(d)[i]) && Text(d)[i] != '\0'
      ensures Text(d)[i] == '1' <==> d[i] == 0
    {
      DigitOfChar(d[i]);
    }
    NoTerminator(s);
    OnesFallAway(n, Text(d));
    assert WithoutSpaces(s) == s;
    TextHasDigits(d);
    assert Text(d)[|d|..] == [];
    ShortestUnique(256, Stripped(b));
  }

  /** The round trip is exact if and only if there is no leading zero byte. */
  lemma RoundTripIff(b: seq<int>)
    requires Valid(256, b)
    ensures Decoded(CString(Encoded(b))) == Some(b) <==> b == [] || b[0] != 0
  {
    DecodeOfEncode(b);
    StrippedShape(b);
  }

  // ----- With a checksum --------------------------------------------------------------------------------------

  /** The first four bytes of the hash of the payload. */
  type Checksum = seq<int> -> seq<int>

  ghost predicate FourBytes(sum: Checksum) {
    forall b :: |sum(b)| == 4 && Valid(256, sum(b))
  }

  function CheckedEncoding(sum: Checksum, b: seq<int>): string
    requires Valid(256, b) && Valid(256, sum(b))
  {
    Encoded(b + sum(b))
  }

  method EncodeBase58Check(sum: Checksum, b: seq<int>) returns (s: string)
    requires FourBytes(sum) && Valid(256, b)
    ensures s == CheckedEncoding(sum, b)
  {
    s := EncodeBase58(b + sum(b));
  }

  function CheckedDecoding(sum: Checksum, s: string): Option<seq<int>> {
    var d := Decoded(s);
    if d.None? || |d.value| < 4 then None
    else
      var n := |d.value| - 4;
      if d.value[n..] == sum(d.value[..n]) then Some(d.value[..n]) else None
  }

  method DecodeBase58Check(sum: Checksum, text: string) returns (r: Option<seq<int>>)
    ensures r == CheckedDecoding(sum, CString(text))
    ensures r.Some? ==> Decoded(CString(text)) == Some(r.value + sum(r.value))
  {
    var d := DecodeBase58(text);
    if d.None? || |d.value| < 4 {
      return None;
    }
    var n := |d.value| - 4;
    if d.value[n..] != sum(d.value[..n]) {
      return None;
    }
    assert d.value == d.value[..n] + d.value[n..];
    r := Some(d.value[..n]);
  }

  /** The checked round trip is exact if and only if payload and checksum together do not start with
      a zero byte, whatever the checksum function. */
  lemma CheckedRoundTripIff(sum: Checksum, b: seq<int>)
    requires FourBytes(sum) && Valid(256, b)
    ensures CheckedDecoding(sum, CString(CheckedEncoding(sum, b))) == Some(b) <==> (b + sum(b))[0] != 0
  {
    hide Decoded, Encoded, Stripped;
    var whole := b + sum(b);
    DecodeOfEncode(whole);
    StrippedShape(whole);
    if whole[0] != 0 {
      assert Stripped(whole) == whole[0..] == whole;
      assert whole[..|b|] == b && whole[|b|..] == sum(b);
    }
  }

  // ----- The alphabet and the text in plain terms --------------------------------------------------------

  /** The digits' characters are, in order, those of this set. */
  predicate InAlphabet(c: char) {
    || '1' <= c <= '9'
    || ('A' <= c <= 'Z' && c != 'I' && c != 'O')
    || ('a' <= c <= 'z' && c != 'l')
  }

  lemma AlphabetInOrder()
    ensures forall d, e :: 0 <= d < e < 58 ==> CharOf(d) < CharOf(e)
    ensures forall d :: 0 <= d < 58 ==> InAlphabet(CharOf(d)) && DigitOf(CharOf(d)) == d
    ensures forall c :: DigitOf(c) >= 0 <==> InAlphabet(c)
  {
  }

  /** Space, tab, line feed, vertical tab, form feed and carriage return. */
  lemma Spaces(c: char)
    ensures IsSpace(c) <==> c as int in {32, 9, 10, 11, 12, 13}
  {
  }

  /** The digits of the text have the value of the bytes. */
  lemma EncodedValue(b: seq<int>)
    requires Valid(256, b)
    ensures |DigitsOf(Encoded(b))| == |Encoded(b)| && Value(58, DigitsOf(Encoded(b))) == Value(256, b)
  {
    hide Stripped, Value, Shortest, CharOf, DigitsOf;
    EncodedIsText(b);
    var d, zeros := Shortest(58, Value(256, b)), LeadingZeros(b);
    TextHasDigits(zeros + d);
    ValueSplit(58, zeros + d, |zeros|);
    AllZero(58, zeros);
    assert (zeros + d)[..|zeros|] == zeros && (zeros + d)[|zeros|..] == d;
  }

  function LeadingZeros(b: seq<int>): (z: seq<int>)
    requires Valid(256, b)
    ensures Valid(58, z) && |z| == |b| - |Stripped(b)| && forall i :: 0 <= i < |z| ==> z[i] == 0
  {
    StrippedShape(b);
    seq(|b| - |Stripped(b)|, _ => 0)
  }

  lemma EncodedIsText(b: seq<int>)
    requires Valid(256, b)
    ensures 0 <= Value(256, b) && Valid(58, LeadingZeros(b) + Shortest(58, Value(256, b)))
    ensures Encoded(b) == Text(LeadingZeros(b) + Shortest(58, Value(256, b)))
  {
    hide Stripped, Value, Shortest;
    ValueRange(256, b);
    StrippedShape(b);
  }

  /** The text starts with a one for each zero that the bytes start with. */
  lemma EncodedOnes(b: seq<int>, k: nat)
    requires Valid(256, b) && k <= |b|
    ensures var s := Encoded(b);
            (forall i :: 0 <= i < k ==> b[i] == 0) <==> k <= |s| && forall i :: 0 <= i < k ==> s[i] == '1'
  {
    hide Stripped, Value, Shortest, CharOf, Encoded;
    EncodedIsText(b);
    StrippedShape(b);
    StrippedNonZero(b);
    var n, d := |b| - |Stripped(b)|, Shortest(58, Value(256, b));
    var all := LeadingZeros(b) + d;
    forall i | 0 <= i < |all| ensures Text(all)[i] == '1' <==> all[i] == 0 {
      OneIsZero(all[i]);
    }
    if n < |b| {
      assert b[n] == Stripped(b)[0] && all[n] == d[0];
    }
  }

  lemma OneIsZero(d: int)
    requires 0 <= d < 58
    ensures CharOf(d) == '1' <==> d == 0
  {
  }

  lemma StrippedNonZero(b: seq<int>)
    requires Valid(256, b)
    ensures 0 <= Value(256, b) && (Stripped(b) != [] ==> Shortest(58, Value(256, b)) != [])
  {
    ValueRange(256, b);
    StrippedValue(256, b);
    StrippedShape(b);
    NotZero(256, Stripped(b));
  }

  // ----- What can be decoded --------------------------------------------------------------------------------

  /** Spaces up to `p`, characters of the alphabet up to `r`, and spaces to the end. */
  ghost predicate SpacedDigits(s: string, p: nat, r: nat) {
    && p <= r <= |s|
    && (forall i :: 0 <= i < p ==> IsSpace(s[i]))
    && (forall i :: p <= i < r ==> InAlphabet(s[i]))
    && forall i :: r <= i < |s| ==> IsSpace(s[i])
  }

  function FrontDigits(s: string, r: nat): (d: seq<int>)
    requires r <= |s|
    ensures |d| == r && forall i :: 0 <= i < r ==> d[i] == DigitOf(s[i])
  {
    seq(r, i requires 0 <= i < r => DigitOf(s[i]))
  }

  lemma SpaceOrDigit(c: char)
    ensures !(IsSpace(c) && InAlphabet(c)) && (DigitOf(c) >= 0 <==> InAlphabet(c)) && (c == '1' <==> DigitOf(c) == 0)
  {
  }

  lemma {:induction false} DigitsAre(s: string, r: nat)
    requires SpacedDigits(s, 0, r)
    ensures DigitsOf(s) == FrontDigits(s, r)
  {
    hide DigitOf, IsSpace, InAlphabet;
    if s != [] {
      SpaceOrDigit(s[0]);
      if r > 0 {
        DigitsAre(s[1..], r - 1);
        assert FrontDigits(s, r) == [DigitOf(s[0])] + FrontDigits(s[1..], r - 1);
      }
    }
  }

  lemma {:induction false} OnesCountNothing(s: string, r: nat)
    requires SpacedDigits(s, 0, r)
    ensures var t := WithoutOnes(s); var d := DigitsOf(t);
            t[|d|..] == s[r..] && Value(58, d) == Value(58, FrontDigits(s, r))
  {
    hide DigitOf, IsSpace, InAlphabet, Value;
    if s != [] && s[0] == '1' {
      SpaceOrDigit(s[0]);
      OnesCountNothing(s[1..], r - 1);
      FirstDigit(58, FrontDigits(s, r));
      assert FrontDigits(s, r)[1..] == FrontDigits(s[1..], r - 1);
      assert s[1..][r - 1..] == s[r..];
    } else {
      DigitsAre(s, r);
    }
  }

  lemma {:induction false} SpacesFallAway(s: string, p: nat, r: nat)
    requires SpacedDigits(s, p, r)
    ensures p < r ==> WithoutSpaces(s) == s[p..]
    ensures p == r ==> WithoutSpaces(s) == []
  {
    hide IsSpace, InAlphabet;
    if s != [] {
      SpaceOrDigit(s[0]);
      if IsSpace(s[0]) {
        SpacesFallAway(s[1..], if p > 0 then p - 1 else 0, if p > 0 then r - 1 else 0);
      }
    }
  }

  lemma Trailing(s: string)
    requires forall i :: 0 <= i < |s| ==> IsSpace(s[i])
    ensures WithoutSpaces(s) == []
  {
    SpacesFallAway(s, |s|, |s|);
  }

  /** Characters of the alphabet between spaces decode to the number they write in base 58, its bytes
      without leading zeros. */
  lemma DecodedMeans(s: string, p: nat, r: nat)
    requires SpacedDigits(s, p, r)
    ensures Valid(58, FrontDigits(s[p..], r - p)) && 0 <= Value(58, FrontDigits(s[p..], r - p))
    ensures Decoded(s) == Some(Shortest(256, Value(58, FrontDigits(s[p..], r - p))))
  {
    hide DigitOf, IsSpace, InAlphabet, Value, Shortest, WithoutSpaces, WithoutOnes, DigitsOf;
    var d := FrontDigits(s[p..], r - p);
    forall i | 0 <= i < r - p ensures 0 <= d[i] < 58 {
      SpaceOrDigit(s[p + i]);
    }
    ValueRange(58, d);
    SpacesFallAway(s, p, r);
    if p < r {
      OnesCountNothing(s[p..], r - p);
      assert s[p..][r - p..] == s[r..];
      Trailing(s[r..]);
    } else {
      NothingRead();
      OnesCountNothing("", 0);
      Trailing("");
    }
  }

  /** And nothing else decodes. */
  lemma DecodedOnly(s: string)
    requires Decoded(s).Some?
    ensures exists p: nat, r: nat :: SpacedDigits(s, p, r)
  {
    hide DigitOf, IsSpace, InAlphabet, Value, Shortest;
    var p := LeadingSpaces(s);
    var t := s[p..];
    var q := LeadingOnes(t);
    var m := AllDigits(t[q..]);
    var r := p + q + m;
    assert t[q..][m..] == s[r..];
    AllSpaces(s[r..]);
    forall i | p <= i < r ensures InAlphabet(s[i]) {
      SpaceOrDigit(s[i]);
      assert s[i] == t[i - p];
      if i >= p + q {
        assert s[i] == t[q..][i - p - q];
      }
    }
    forall i | r <= i < |s| ensures IsSpace(s[i]) {
      assert s[i] == s[r..][i - r];
    }
    assert SpacedDigits(s, p, r);
  }

  lemma {:induction false} LeadingSpaces(s: string) returns (p: nat)
    ensures p <= |s| && WithoutSpaces(s) == s[p..] && forall i :: 0 <= i < p ==> IsSpace(s[i])
  {
    hide IsSpace;
    p := 0;
    if s != [] && IsSpace(s[0]) {
      var k := LeadingSpaces(s[1..]);
      p := k + 1;
    }
  }

  lemma {:induction false} LeadingOnes(s: string) returns (q: nat)
    ensures q <= |s| && WithoutOnes(s) == s[q..] && forall i :: 0 <= i < q ==> s[i] == '1'
  {
    q := 0;
    if s != [] && s[0] == '1' {
      var k := LeadingOnes(s[1..]);
      q := k + 1;
    }
  }

  lemma {:induction false} AllDigits(s: string) returns (m: nat)
    ensures m == |DigitsOf(s)| && forall i :: 0 <= i < m ==> DigitOf(s[i]) >= 0
  {
    hide DigitOf;
    m := |DigitsOf(s)|;
    if m > 0 {
      var k := AllDigits(s[1..]);
    }
  }

  lemma {:induction false} AllSpaces(s: string)
    requires WithoutSpaces(s) == []
    ensures forall i :: 0 <= i < |s| ==> IsSpace(s[i])
  {
    hide IsSpace;
    if s != [] {
      AllSpaces(s[1..]);
    }
  }
}
