/** The padding of MD5, sections 3.1 and 3.2 of RFC 1321, with the length multiplied by hand. */
module Md5Padding {
  import opened Common

  type Byte = n: int | 0 <= n < 256

  const CODE_LIMIT: int := 0x1_0000_0000_0000
  const RFC_LIMIT: int := SIZE_T_RANGE

  /** The n digits of v in base 256, low-order digit first. */
  function LittleEndian(v: nat, n: nat): (r: seq<Byte>)
    ensures |r| == n
    decreases v, n
  {
    if n == 0 then [] else [v % 256] + LittleEndian(v / 256, n - 1)
  }

  /** The least number of zeros that leaves room for eight bytes; see ZerosAreLeast. */
  function ZeroCount(len: nat): nat {
    (55 - len) % 64
  }

  lemma ZerosAreLeast(len: nat, k: nat)
    ensures (len + 1 + ZeroCount(len)) % 64 == 56
    ensures (len + 1 + k) % 64 == 56 ==> ZeroCount(len) <= k
  {
  }

  /** What md5 computes as extra_len. */
  lemma ExtraBytes(len: nat)
    ensures 9 + ZeroCount(len) == 64 - len % 64 + if 64 - len % 64 <= 8 then 64 else 0
    ensures (len + 9 + ZeroCount(len)) % 64 == 0
  {
  }

  function Tail(len: nat, limit: int): seq<Byte>
    requires limit > 0
  {
    [0x80] + seq(ZeroCount(len), _ => 0) + LittleEndian(8 * len % limit, 8)
  }

  function PaddedTo(m: seq<Byte>, limit: int): seq<Byte>
    requires limit > 0
  {
    m + Tail(|m|, limit)
  }

  /** The buffer that md5 fills: the bit length is kept modulo 2^48. */
  function Padded(m: seq<Byte>): seq<Byte> {
    PaddedTo(m, CODE_LIMIT)
  }

  /** The buffer of RFC 1321: the bit length is kept modulo 2^64. */
  function RfcPadded(m: seq<Byte>): seq<Byte> {
    PaddedTo(m, RFC_LIMIT)
  }

  lemma PaddedLength(m: seq<Byte>, limit: int)
    requires limit > 0
    ensures |PaddedTo(m, limit)| % 64 == 0
    ensures |m| + 9 <= |PaddedTo(m, limit)| <= |m| + 72
  {
    assert |PaddedTo(m, limit)| == |m| + 9 + ZeroCount(|m|) == 64 * (1 - (55 - |m|) / 64);
  }

  lemma {:induction false} DigitsDetermine(v: nat, w: nat, n: nat)
    requires LittleEndian(v, n) == LittleEndian(w, n)
    requires v < Power(n) && w < Power(n)
    ensures v == w
  {
    if n > 0 {
      var s, t := LittleEndian(v, n), LittleEndian(w, n);
      assert s[0] == t[0] && s[1..] == t[1..];
      DigitsDetermine(v / 256, w / 256, n - 1);
    }
  }

  function Power(n: nat): nat {
    if n == 0 then 1 else 256 * Power(n - 1)
  }

  lemma PowerOfEight()
    ensures Power(8) == RFC_LIMIT && CODE_LIMIT < Power(8)
  {
  }

  lemma LimitsAgreeIff(v: nat)
    ensures v % CODE_LIMIT == v % RFC_LIMIT <==> v % RFC_LIMIT < CODE_LIMIT
  {
    var w := v % RFC_LIMIT;
    if w < CODE_LIMIT {
      RemainderIs(v, v / RFC_LIMIT * 0x1_0000, w);
    }
  }

  /** The last eight bytes of the padded form determine the bit length modulo the limit. */
  lemma LengthFieldDetermines(m: seq<Byte>, limit: int, n: seq<Byte>, other: int)
    requires 0 < limit <= RFC_LIMIT && 0 < other <= RFC_LIMIT
    requires PaddedTo(m, limit) == PaddedTo(n, other)
    ensures 8 * |m| % limit == 8 * |n| % other
  {
    var p, q := PaddedTo(m, limit), PaddedTo(n, other);
    var v, w := LittleEndian(8 * |m| % limit, 8), LittleEndian(8 * |n| % other, 8);
    LengthFieldAt(m, limit);
    LengthFieldAt(n, other);
    PowerOfEight();
    DigitsDetermine(8 * |m| % limit, 8 * |n| % other, 8);
  }

  lemma LengthFieldAt(m: seq<Byte>, limit: int)
    requires limit > 0
    ensures var p := PaddedTo(m, limit); p[|p| - 8..] == LittleEndian(8 * |m| % limit, 8)
  {
  }

  /** The code's padding is that of RFC 1321 exactly for the lengths whose bit count fits 48 bits. */
  lemma PaddingFollowsRfcIff(m: seq<Byte>)
    ensures Padded(m) == RfcPadded(m) <==> 8 * |m| % RFC_LIMIT < CODE_LIMIT
  {
    LimitsAgreeIff(8 * |m|);
    if Padded(m) == RfcPadded(m) {
      LengthFieldDetermines(m, CODE_LIMIT, m, RFC_LIMIT);
    } else {
      EqualLengthFields(m, CODE_LIMIT, RFC_LIMIT);
    }
  }

  lemma EqualLengthFields(m: seq<Byte>, limit: int, other: int)
    requires limit > 0 && other > 0
    ensures 8 * |m| % limit == 8 * |m| % other ==> PaddedTo(m, limit) == PaddedTo(m, other)
  {
  }

  lemma SmallRemainder(v: nat)
    requires v < RFC_LIMIT
    ensures v % RFC_LIMIT == v
  {
  }

  lemma ShortMessagesFollowRfc(m: seq<Byte>)
    requires |m| < 0x2000_0000_0000
    ensures Padded(m) == RfcPadded(m)
  {
    SmallRemainder(8 * |m|);
    PaddingFollowsRfcIff(m);
  }

  /** Messages of any lengths with the same padded form are the same, also where the length wraps. */
  lemma PaddingIsInjective(m: seq<Byte>, n: seq<Byte>, limit: int)
    requires limit == CODE_LIMIT || limit == RFC_LIMIT
    requires PaddedTo(m, limit) == PaddedTo(n, limit)
    ensures m == n
  {
    LengthFieldDetermines(m, limit, n, limit);
    CloseLengths(|m|, |n|, limit);
    assert m == PaddedTo(m, limit)[..|m|];
    assert n == PaddedTo(n, limit)[..|n|];
  }

  lemma CloseLengths(m: nat, n: nat, limit: int)
    requires limit == CODE_LIMIT || limit == RFC_LIMIT
    requires m + ZeroCount(m) == n + ZeroCount(n) && 8 * m % limit == 8 * n % limit
    ensures m == n
  {
    var p, q := 8 * m / limit, 8 * n / limit;
    assert 8 * m - 8 * n == (p - q) * limit;
    assert -512 < 8 * m - 8 * n < 512;
    assert p > q ==> (p - q) * limit >= limit;
    assert p < q ==> (q - p) * limit >= limit;
  }

  lemma DivideByBase(d: Byte, v: nat)
    ensures (d + 256 * v) / 256 == v && (d + 256 * v) % 256 == d
  {
  }

  /** The number with the given digits. */
  function Value(digits: seq<Byte>): nat {
    if digits == [] then 0 else digits[0] + 256 * Value(digits[1..])
  }

  lemma {:induction false} DigitsOfValue(digits: seq<Byte>)
    ensures LittleEndian(Value(digits), |digits|) == digits
  {
    if digits != [] {
      DivideByBase(digits[0], Value(digits[1..]));
      DigitsOfValue(digits[1..]);
    }
  }

  lemma ValueOfTwo(d0: Byte, d1: Byte, rest: seq<Byte>)
    ensures Value([d0, d1] + rest) == d0 + 256 * d1 + 0x1_0000 * Value(rest)
  {
    var digits := [d0, d1] + rest;
    assert digits[1..] == [d1] + rest && digits[1..][1..] == rest;
  }

  lemma ValueOfSix(d0: Byte, d1: Byte, d2: Byte, d3: Byte, d4: Byte, d5: Byte)
    ensures Value([d0, d1, d2, d3, d4, d5, 0, 0])
         == d0 + 256 * d1 + 0x1_0000 * (d2 + 256 * d3) + 0x1_0000_0000 * (d4 + 256 * d5)
  {
    ValueOfTwo(0, 0, []);
    ValueOfTwo(d4, d5, [0, 0]);
    ValueOfTwo(d2, d3, [d4, d5, 0, 0]);
    ValueOfTwo(d0, d1, [d2, d3, d4, d5, 0, 0]);
    assert [0, 0] + [] == [0, 0];
    assert [d4, d5] + [0, 0] == [d4, d5, 0, 0];
    assert [d2, d3] + [d4, d5, 0, 0] == [d2, d3, d4, d5, 0, 0];
    assert [d0, d1] + [d2, d3, d4, d5, 0, 0] == [d0, d1, d2, d3, d4, d5, 0, 0];
  }

  lemma RemainderIs(a: nat, q: nat, r: nat)
    requires a == r + q * CODE_LIMIT && r < CODE_LIMIT
    ensures a % CODE_LIMIT == r
  {
  }

  lemma Halves(n: nat)
    ensures n % 0x1_0000 % 256 == n % 256 && n % 0x1_0000 / 256 == n / 256 % 256
  {
  }

  /** The number in base 65536 that md5 multiplies by hand is the bit length, here modulo 2^48. */
  lemma LengthDigits(len: nat, low: nat, high: nat, upper: nat)
    requires low < 0x1_0000 && high < 0x1_0000
    requires 8 * len == low + high * 0x1_0000 + upper * 0x1_0000_0000
    ensures LittleEndian(8 * len % CODE_LIMIT, 8)
         == [low % 256, low / 256 % 256, high % 256, high / 256 % 256, upper % 256, upper / 256 % 256, 0, 0]
  {
    var top, over := upper % 0x1_0000, upper / 0x1_0000;
    var v := low + high * 0x1_0000 + top * 0x1_0000_0000;
    assert 8 * len == v + over * CODE_LIMIT;
    RemainderIs(8 * len, over, v);
    Halves(upper);
    TwoDigits(low);
    TwoDigits(high);
    TwoDigits(top);
    DigitsOfSix(low % 256, low / 256, high % 256, high / 256, top % 256, top / 256);
  }

  lemma TwoDigits(x: nat)
    requires x < 0x1_0000
    ensures 0 <= x / 256 < 256 && x / 256 % 256 == x / 256 && x % 256 + 256 * (x / 256) == x
  {
  }

  lemma DigitsOfSix(d0: Byte, d1: Byte, d2: Byte, d3: Byte, d4: Byte, d5: Byte)
    ensures LittleEndian(d0 + 256 * d1 + 0x1_0000 * (d2 + 256 * d3) + 0x1_0000_0000 * (d4 + 256 * d5), 8)
         == [d0, d1, d2, d3, d4, d5, 0, 0]
  {
    ValueOfSix(d0, d1, d2, d3, d4, d5);
    DigitsOfValue([d0, d1, d2, d3, d4, d5, 0, 0]);
  }

  lemma TimesEight(len: nat)
    ensures var t := len % 0x1_0000 * 8;
            var u := len / 0x1_0000 * 8 + t / 0x1_0000;
            8 * len == t % 0x1_0000 + u % 0x1_0000 * 0x1_0000 + u / 0x1_0000 * 0x1_0000_0000
  {
  }

  /** The one block of a message of fewer than 32 bytes. */
  lemma ShortPadded(m: seq<Byte>)
    requires |m| < 32
    ensures var p := Padded(m);
            && |p| == 64 && p[..|m|] == m && p[|m|] == 0x80 && p[56] == 8 * |m|
            && forall k :: |m| < k < 64 && k != 56 ==> p[k] == 0
  {
    LengthDigits(|m|, 8 * |m|, 0, 0);
    assert ZeroCount(|m|) == 55 - |m|;
    PaddedPlaces(m, seq(ZeroCount(|m|), _ => 0), [8 * |m|, 0, 0, 0, 0, 0, 0, 0]);
  }

  lemma PaddedPlaces(m: seq<Byte>, zeros: seq<Byte>, tail: seq<Byte>)
    requires |m| + 1 + |zeros| == 56 && |tail| == 8 && forall k :: 0 <= k < |zeros| ==> zeros[k] == 0
    ensures var p := m + [0x80] + zeros + tail;
            && |p| == 64 && p[..|m|] == m && p[|m|] == 0x80
            && (forall k :: |m| < k < 56 ==> p[k] == 0)
            && (forall k :: 56 <= k < 64 ==> p[k] == tail[k - 56])
  {
  }

  /** Fills temp with the message, the padding and the length. */
  method PadBuffer(input: array<Byte>, len: nat, temp: array<Byte>)
    requires len <= input.Length && temp != input && temp.Length == len + 9 + ZeroCount(len)
    modifies temp
    ensures temp[..] == Padded(input[..len])
  {
    var end := temp.Length - 8;
    CopyAndPad(input, len, temp, end);
    AppendLength(len, temp, end);
    assert temp[..] == temp[..end] + temp[end..];
  }

  method CopyAndPad(input: array<Byte>, len: nat, temp: array<Byte>, end: nat)
    requires len <= input.Length && temp != input && len < end <= temp.Length
    modifies temp
    ensures temp[..end] == input[..len] + [0x80] + seq(end - len - 1, _ => 0)
  {
    var k := 0;
    while k != len
      invariant 0 <= k <= len
      invariant temp[..k] == input[..k]
    {
      temp[k] := input[k];
      k := k + 1;
    }
    temp[k] := 0x80;
    k := k + 1;
    while k != end
      invariant len + 1 <= k <= end
      invariant temp[..len] == input[..len] && temp[len] == 0x80
      invariant forall j :: len < j < k ==> temp[j] == 0
    {
      temp[k] := 0;
      k := k + 1;
    }
  }

  method AppendLength(len: nat, temp: array<Byte>, k: nat)
    requires temp.Length == k + 8
    modifies temp
    ensures temp[..k] == old(temp[..k])
    ensures temp[k..] == LittleEndian(8 * len % CODE_LIMIT, 8)
  {
    var low := len % 0x1_0000;
    var high := len / 0x1_0000;
    var t := low * 8;
    low := t % 0x1_0000;
    t := high * 8 + t / 0x1_0000;
    high := t % 0x1_0000;
    var upper := t / 0x1_0000;
    TimesEight(len);
    LengthDigits(len, low, high, upper);
    temp[k] := low % 256;
    temp[k + 1] := low / 256 % 256;
    temp[k + 2] := high % 256;
    temp[k + 3] := high / 256 % 256;
    temp[k + 4] := upper % 256;
    temp[k + 5] := upper / 256 % 256;
    temp[k + 6] := 0;
    temp[k + 7] := 0;
    assert temp[k..] == [low % 256, low / 256 % 256, high % 256, high / 256 % 256,
                         upper % 256, upper / 256 % 256, 0, 0];
  }
}
