/**
 * Base64 as in RFC 4648 sections 4 and 5, with '.' where section 5 has '=' in this code's
 * URL form, and the line breaks of PEM and MIME. Masks and shifts by constants are written
 * as division and remainder.
 */
module Base64 {
  import opened Common

  type Byte = x: int | 0 <= x < 256

  const UPPER: string := "ABCDEFGHIJKLMNOPQRSTUVWXYZ"
  const LOWER: string := "abcdefghijklmnopqrstuvwxyz"
  const DIGITS: string := "0123456789"
  const LETTERS: string := UPPER + LOWER + DIGITS
  const STANDARD_CHARS: string := LETTERS + "+/"
  const URL_CHARS: string := LETTERS + "-_"

  datatype Base64Error = InvalidCharacter

  /** A table of 64 characters and the character that fills the last group. */
  datatype Alphabet = Alphabet(chars: Table, pad: char)

  type Table = t: string | |t| == 64 witness seq(64, _ => 'A')

  lemma TableSize()
    ensures |LETTERS| == 62 && |STANDARD_CHARS| == 64 && |URL_CHARS| == 64
  {
  }

  function AlphabetOf(url: bool): Alphabet {
    TableSize();
    if url then Alphabet(URL_CHARS, '.') else Alphabet(STANDARD_CHARS, '=')
  }

  function PosOfChar(c: char): (r: Option<int>)
    ensures r.Some? ==> 0 <= r.value < 64
  {
    if 'A' <= c <= 'Z' then Some(c as int - 'A' as int)
    else if 'a' <= c <= 'z' then Some(c as int - 'a' as int + 26)
    else if '0' <= c <= '9' then Some(c as int - '0' as int + 52)
    else if c == '+' || c == '-' then Some(62)
    else if c == '/' || c == '_' then Some(63)
    else None
  }

  // ----- Tables -----

  lemma UpperLetters(i: int)
    requires 0 <= i < 26
    ensures |UPPER| == 26 && UPPER[i] as int == 'A' as int + i
  {
  }

  lemma LowerLetters(i: int)
    requires 0 <= i < 26
    ensures |LOWER| == 26 && LOWER[i] as int == 'a' as int + i
  {
  }

  lemma Digits(i: int)
    requires 0 <= i < 10
    ensures |DIGITS| == 10 && DIGITS[i] as int == '0' as int + i
  {
  }

  lemma LetterAt(i: int)
    requires 0 <= i < 62
    ensures |LETTERS| == 62
    ensures LETTERS[i] as int == if i < 26 then 'A' as int + i
                                 else if i < 52 then 'a' as int + i - 26
                                 else '0' as int + i - 52
  {
    TableSize();
    if i < 26 {
      UpperLetters(i);
    } else if i < 52 {
      LowerLetters(i - 26);
    } else {
      Digits(i - 52);
    }
  }

  /** Neither a padding character nor a newline. */
  predicate Plain(c: char) {
    c != '=' && c != '.' && c != '\n'
  }

  type Sextet = x: int | 0 <= x < 64

  predicate Readable(a: Alphabet, p: Sextet) {
    PosOfChar(a.chars[p]) == Some(p) && Plain(a.chars[p])
  }

  /** pos_of_char inverts the table, and the table holds only plain characters. */
  ghost predicate Usable(a: Alphabet) {
    (a.pad == '=' || a.pad == '.') && forall p: Sextet :: Readable(a, p)
  }

  lemma AlphabetsAreUsable(url: bool)
    ensures Usable(AlphabetOf(url))
  {
    var a := AlphabetOf(url);
    TableSize();
    forall i: Sextet
      ensures Readable(a, i)
    {
      if i < 62 {
        LetterAt(i);
        assert a.chars[i] == LETTERS[i];
      }
    }
  }

  // ----- Groups -----

  function Min(a: int, b: int): int {
    if a < b then a else b
  }

  /** Up to three bytes become four characters. */
  function EncodeGroup(g: seq<Byte>, a: Alphabet): (r: string)
    requires 1 <= |g| <= 3
    ensures |r| == 4
  {
    var pad := a.pad;
    var c0 := a.chars[g[0] / 4];
    if |g| == 1 then
      [c0, a.chars[g[0] % 4 * 16], pad, pad]
    else
      var c1 := a.chars[g[0] % 4 * 16 + g[1] / 16];
      if |g| == 2 then
        [c0, c1, a.chars[g[1] % 16 * 4], pad]
      else
        [c0, c1, a.chars[g[1] % 16 * 4 + g[2] / 64], a.chars[g[2] % 64]]
  }

  /** operator[] of std::string, which yields a null character one past the end. */
  function At(g: string, i: nat): char {
    if i < |g| then g[i] else '\0'
  }

  function IsData(g: string, i: nat): bool {
    i < |g| && g[i] != '=' && g[i] != '.'
  }

  /** One iteration of decode. */
  function DecodeGroup(g: string): Result<seq<Byte>, Base64Error>
    requires 1 <= |g| <= 4
  {
    var p0, p1, p2, p3 := PosOfChar(At(g, 0)), PosOfChar(At(g, 1)), PosOfChar(At(g, 2)), PosOfChar(At(g, 3));
    if p1.None? || p0.None? then Failure(InvalidCharacter)
    else
      var b0 := p0.value * 4 + p1.value / 16;
      if !IsData(g, 2) then Success([b0])
      else if p2.None? then Failure(InvalidCharacter)
      else
        var b1 := p1.value % 16 * 16 + p2.value / 4;
        if !IsData(g, 3) then Success([b0, b1])
        else if p3.None? then Failure(InvalidCharacter)
        else Success([b0, b1, p2.value % 4 * 64 + p3.value])
  }

  function Encode(s: seq<Byte>, a: Alphabet): string {
    if s == [] then "" else EncodeGroup(s[..Min(3, |s|)], a) + Encode(s[Min(3, |s|)..], a)
  }

  function Decode(t: string): Result<seq<Byte>, Base64Error> {
    if t == "" then Success([])
    else
      var first := DecodeGroup(t[..Min(4, |t|)]);
      Joined(first, Decode(t[Min(4, |t|)..]))
  }

  function Joined(first: Result<seq<Byte>, Base64Error>, rest: Result<seq<Byte>, Base64Error>)
    : Result<seq<Byte>, Base64Error>
  {
    if first.Failure? then first
    else if rest.Failure? then rest
    else Success(first.value + rest.value)
  }

  // ----- Loops -----

  /** The part of the input that a loop standing at pos has still to read. */
  function From<T>(s: seq<T>, pos: nat): seq<T> {
    if pos < |s| then s[pos..] else []
  }

  lemma EncodeFrom(s: seq<Byte>, pos: nat, a: Alphabet)
    requires pos < |s|
    ensures Encode(From(s, pos), a) == EncodeGroup(s[pos..Min(pos + 3, |s|)], a) + Encode(From(s, pos + 3), a)
  {
    var rest := From(s, pos);
    assert rest[..Min(3, |rest|)] == s[pos..Min(pos + 3, |s|)];
    assert rest[Min(3, |rest|)..] == From(s, pos + 3);
  }

  lemma EncodeNext(done: string, s: seq<Byte>, pos: nat, a: Alphabet)
    requires pos < |s|
    ensures done + EncodeGroup(s[pos..Min(pos + 3, |s|)], a) + Encode(From(s, pos + 3), a)
         == done + Encode(From(s, pos), a)
  {
    EncodeFrom(s, pos, a);
    Append(done, EncodeGroup(s[pos..Min(pos + 3, |s|)], a), Encode(From(s, pos + 3), a));
  }

  /** base64_encode. The 32-bit pos does not wrap as long as the length fits 32 bits. */
  method Base64Encode(s: seq<Byte>, a: Alphabet) returns (ret: string)
    requires |s| < 0x1_0000_0000
    ensures ret == Encode(s, a)
  {
    ret := "";
    var pos := 0;
    while pos < |s|
      invariant 0 <= pos <= |s| + 2 && pos % 3 == 0
      invariant ret + Encode(From(s, pos), a) == Encode(s, a)
      decreases |s| + 3 - pos
    {
      EncodeNext(ret, s, pos, a);
      var group := PushGroup(s, pos, a);
      ret := ret + group;
      CounterDoesNotWrap(pos, |s|);
      pos := Advanced(pos);
    }
  }

  /** The next value of the 32-bit pos. */
  function Advanced(pos: nat): nat {
    (pos + 3) % 0x1_0000_0000
  }

  lemma CounterDoesNotWrap(pos: nat, length: nat)
    requires pos % 3 == 0 && pos < length < 0x1_0000_0000
    ensures Advanced(pos) == pos + 3 && (pos + 3) % 3 == 0
  {
  }

  lemma Append<T>(a: seq<T>, b: seq<T>, c: seq<T>)
    ensures a + (b + c) == (a + b) + c
  {
  }

  /** The characters that one iteration pushes. */
  method PushGroup(s: seq<Byte>, pos: nat, a: Alphabet) returns (ret: string)
    requires pos < |s|
    ensures ret == EncodeGroup(s[pos..Min(pos + 3, |s|)], a)
  {
    var trailing := a.pad;
    ret := [a.chars[s[pos] / 4]];
    if pos + 1 < |s| {
      ret := ret + [a.chars[s[pos] % 4 * 16 + s[pos + 1] / 16]];
      if pos + 2 < |s| {
        ret := ret + [a.chars[s[pos + 1] % 16 * 4 + s[pos + 2] / 64]];
        ret := ret + [a.chars[s[pos + 2] % 64]];
      } else {
        ret := ret + [a.chars[s[pos + 1] % 16 * 4]];
        ret := ret + [trailing];
      }
    } else {
      ret := ret + [a.chars[s[pos] % 4 * 16]];
      ret := ret + [trailing];
      ret := ret + [trailing];
    }
  }

  /** The 32-bit pos of base64_encode after k iterations. */
  function Counter(k: nat): nat {
    if k == 0 then 0 else Advanced(Counter(k - 1))
  }

  lemma AddToRemainder(x: nat)
    ensures (x % 0x1_0000_0000 + 3) % 0x1_0000_0000 == (x + 3) % 0x1_0000_0000
  {
  }

  lemma {:induction false} CounterIs(k: nat)
    ensures Counter(k) == 3 * k % 0x1_0000_0000
  {
    if k > 0 {
      CounterIs(k - 1);
      AddToRemainder(3 * (k - 1));
    }
  }

  /** With a length that does not fit 32 bits the counter stays below it for ever. */
  lemma CounterNeverPassesLongInputs(length: nat, k: nat)
    requires length >= 0x1_0000_0000
    ensures Counter(k) < length
  {
    CounterIs(k);
  }

  /** The loop of base64_encode ends exactly for the lengths that fit 32 bits. */
  lemma LoopEndsIff(length: nat)
    ensures (exists k: nat :: Counter(k) >= length) <==> length < 0x1_0000_0000
  {
    if length < 0x1_0000_0000 {
      CounterIs((length + 2) / 3);
      assert Counter((length + 2) / 3) >= length;
    } else {
      forall k: nat
        ensures Counter(k) < length
      {
        CounterNeverPassesLongInputs(length, k);
      }
    }
  }

  lemma DecodeFrom(t: string, pos: nat)
    requires pos < |t|
    ensures var first, rest := DecodeGroup(t[pos..Min(pos + 4, |t|)]), Decode(From(t, pos + 4));
            Decode(From(t, pos)) == Joined(first, rest)
  {
    var all := From(t, pos);
    assert all[..Min(4, |all|)] == t[pos..Min(pos + 4, |t|)];
    assert all[Min(4, |all|)..] == From(t, pos + 4);
  }

  /** The loop of decode. */
  method DecodeLoop(t: string) returns (r: Result<seq<Byte>, Base64Error>)
    ensures r == Decode(t)
  {
    var ret: seq<Byte> := [];
    var pos := 0;
    assert From(t, 0) == t;
    assert Decode(t).Success? ==> [] + Decode(t).value == Decode(t).value;
    while pos < |t|
      invariant 0 <= pos
      invariant var rest := Decode(From(t, pos));
                Decode(t) == if rest.Failure? then rest else Success(ret + rest.value)
      decreases |t| + 4 - pos
    {
      DecodeFrom(t, pos);
      var group := PopGroup(t, pos);
      if group.Failure? {
        return group;
      }
      if Decode(From(t, pos + 4)).Success? {
        Append(ret, group.value, Decode(From(t, pos + 4)).value);
      }
      ret := ret + group.value;
      pos := pos + 4;
    }
    assert ret + [] == ret;
    return Success(ret);
  }

  /** The bytes that one iteration pushes. */
  method PopGroup(t: string, pos: nat) returns (r: Result<seq<Byte>, Base64Error>)
    requires pos < |t|
    ensures r == DecodeGroup(t[pos..Min(pos + 4, |t|)])
  {
    ghost var g := t[pos..Min(pos + 4, |t|)];
    GroupAt(t, pos);
    var p1 := PosOfChar(At(t, pos + 1));
    if p1.None? {
      return Failure(InvalidCharacter);
    }
    var p0 := PosOfChar(t[pos]);
    if p0.None? {
      return Failure(InvalidCharacter);
    }
    assert At(g, 0) == g[0] && At(g, 1) == At(t, pos + 1) == g[1];
    var ret: seq<Byte> := [p0.value * 4 + p1.value / 16];
    if pos + 2 < |t| && t[pos + 2] != '=' && t[pos + 2] != '.' {
      var p2 := PosOfChar(t[pos + 2]);
      if p2.None? {
        return Failure(InvalidCharacter);
      }
      ret := ret + [p1.value % 16 * 16 + p2.value / 4];
      if pos + 3 < |t| && t[pos + 3] != '=' && t[pos + 3] != '.' {
        var p3 := PosOfChar(t[pos + 3]);
        if p3.None? {
          return Failure(InvalidCharacter);
        }
        ret := ret + [p2.value % 4 * 64 + p3.value];
        assert IsData(g, 2) && IsData(g, 3) && At(g, 2) == g[2] && At(g, 3) == g[3];
        DecodeGroupOf(g, p0.value, p1.value, p2.value, p3.value);
        assert ret == [p0.value * 4 + p1.value / 16, p1.value % 16 * 16 + p2.value / 4, p2.value % 4 * 64 + p3.value];
      } else {
        assert IsData(g, 2) && At(g, 2) == g[2];
        DecodeGroupOf(g, p0.value, p1.value, p2.value, 0);
        assert ret == [p0.value * 4 + p1.value / 16, p1.value % 16 * 16 + p2.value / 4];
      }
    } else {
      DecodeGroupOf(g, p0.value, p1.value, 0, 0);
    }
    return Success(ret);
  }

  lemma GroupAt(t: string, pos: nat)
    requires pos < |t|
    ensures var g := t[pos..Min(pos + 4, |t|)];
            && (forall i :: 0 <= i < 4 ==> At(g, i) == (if pos + i < |t| then t[pos + i] else '\0'))
            && (forall i :: 0 <= i < 4 ==> (IsData(g, i) <==> pos + i < |t| && t[pos + i] != '=' && t[pos + i] != '.'))
  {
  }

  // ----- Round trips -----

  lemma GroupsOf(n: nat)
    requires n > 0
    ensures (n + 2) / 3 == (n - Min(3, n) + 2) / 3 + 1
  {
  }

  lemma {:induction false} EncodedLength(s: seq<Byte>, a: Alphabet)
    ensures |Encode(s, a)| == (|s| + 2) / 3 * 4
  {
    if s != [] {
      EncodedLength(s[Min(3, |s|)..], a);
      GroupsOf(|s|);
    }
  }

  /** What a group decodes to, given the sextets of its characters. */
  lemma DecodeGroupOf(g: string, p0: int, p1: int, p2: int, p3: int)
    requires 2 <= |g| <= 4 && PosOfChar(g[0]) == Some(p0) && PosOfChar(g[1]) == Some(p1)
    requires IsData(g, 2) ==> PosOfChar(g[2]) == Some(p2)
    requires IsData(g, 2) && IsData(g, 3) ==> PosOfChar(g[3]) == Some(p3)
    ensures DecodeGroup(g) == Success(
              if !IsData(g, 2) then [p0 * 4 + p1 / 16]
              else if !IsData(g, 3) then [p0 * 4 + p1 / 16, p1 % 16 * 16 + p2 / 4]
              else [p0 * 4 + p1 / 16, p1 % 16 * 16 + p2 / 4, p2 % 4 * 64 + p3])
  {
  }

  /** The same for characters taken from a table. */
  lemma DecodeTableThree(p0: Sextet, p1: Sextet, p2: Sextet, p3: Sextet, a: Alphabet)
    requires Usable(a)
    ensures DecodeGroup([a.chars[p0], a.chars[p1], a.chars[p2], a.chars[p3]])
         == Success([p0 * 4 + p1 / 16, p1 % 16 * 16 + p2 / 4, p2 % 4 * 64 + p3])
  {
    assert Readable(a, p0) && Readable(a, p1) && Readable(a, p2) && Readable(a, p3);
    DecodeGroupOf([a.chars[p0], a.chars[p1], a.chars[p2], a.chars[p3]], p0, p1, p2, p3);
  }

  lemma DecodeTableTwo(p0: Sextet, p1: Sextet, p2: Sextet, a: Alphabet)
    requires Usable(a)
    ensures DecodeGroup([a.chars[p0], a.chars[p1], a.chars[p2], a.pad])
         == DecodeGroup([a.chars[p0], a.chars[p1], a.chars[p2]])
         == Success([p0 * 4 + p1 / 16, p1 % 16 * 16 + p2 / 4])
  {
    assert Readable(a, p0) && Readable(a, p1) && Readable(a, p2);
    DecodeGroupOf([a.chars[p0], a.chars[p1], a.chars[p2], a.pad], p0, p1, p2, 0);
    DecodeGroupOf([a.chars[p0], a.chars[p1], a.chars[p2]], p0, p1, p2, 0);
  }

  lemma DecodeTableOne(p0: Sextet, p1: Sextet, a: Alphabet)
    requires Usable(a)
    ensures DecodeGroup([a.chars[p0], a.chars[p1], a.pad, a.pad]) == DecodeGroup([a.chars[p0], a.chars[p1]])
         == Success([p0 * 4 + p1 / 16])
  {
    assert Readable(a, p0) && Readable(a, p1);
    DecodeGroupOf([a.chars[p0], a.chars[p1], a.pad, a.pad], p0, p1, 0, 0);
    DecodeGroupOf([a.chars[p0], a.chars[p1]], p0, p1, 0, 0);
  }

  /** A group decodes to its bytes, with its padding or without. */
  lemma GroupRoundTrip(g: seq<Byte>, a: Alphabet)
    requires 1 <= |g| <= 3 && Usable(a)
    ensures DecodeGroup(EncodeGroup(g, a)) == Success(g)
    ensures DecodeGroup(EncodeGroup(g, a)[..|g| + 1]) == Success(g)
  {
    var e := EncodeGroup(g, a);
    if |g| == 1 {
      RoundTripOne(g, a);
      assert e[..|g| + 1] == e[..2];
    } else if |g| == 2 {
      RoundTripTwo(g, a);
      assert e[..|g| + 1] == e[..3];
    } else {
      RoundTripThree(g, a);
      assert e[..|g| + 1] == e[..4];
    }
  }

  lemma RoundTripOne(g: seq<Byte>, a: Alphabet)
    requires |g| == 1 && Usable(a)
    ensures DecodeGroup(EncodeGroup(g, a)) == DecodeGroup(EncodeGroup(g, a)[..2]) == Success(g)
  {
    var p0, p1, p2, p3 := ToSextets(g[0], 0, 0);
    DecodeTableOne(p0, p1, a);
    EncodedAs(g, a, p0, p1, p2, p3);
    assert g == [g[0]];
  }

  lemma RoundTripTwo(g: seq<Byte>, a: Alphabet)
    requires |g| == 2 && Usable(a)
    ensures DecodeGroup(EncodeGroup(g, a)) == DecodeGroup(EncodeGroup(g, a)[..3]) == Success(g)
  {
    var p0, p1, p2, p3 := ToSextets(g[0], g[1], 0);
    DecodeTableTwo(p0, p1, p2, a);
    EncodedAs(g, a, p0, p1, p2, p3);
    assert g == [g[0], g[1]];
  }

  lemma RoundTripThree(g: seq<Byte>, a: Alphabet)
    requires |g| == 3 && Usable(a)
    ensures DecodeGroup(EncodeGroup(g, a)) == DecodeGroup(EncodeGroup(g, a)[..4]) == Success(g)
  {
    var p0, p1, p2, p3 := ToSextets(g[0], g[1], g[2]);
    DecodeTableThree(p0, p1, p2, p3, a);
    EncodedAs(g, a, p0, p1, p2, p3);
    assert g == [g[0], g[1], g[2]];
  }

  lemma ToSextets(b0: Byte, b1: Byte, b2: Byte) returns (p0: Sextet, p1: Sextet, p2: Sextet, p3: Sextet)
    ensures p0 == b0 / 4 && p1 == b0 % 4 * 16 + b1 / 16 && p2 == b1 % 16 * 4 + b2 / 64 && p3 == b2 % 64
    ensures b0 == p0 * 4 + p1 / 16 && b1 == p1 % 16 * 16 + p2 / 4 && b2 == p2 % 4 * 64 + p3
  {
    p0, p1, p2, p3 := b0 / 4, b0 % 4 * 16 + b1 / 16, b1 % 16 * 4 + b2 / 64, b2 % 64;
  }

  lemma EncodedAs(g: seq<Byte>, a: Alphabet, p0: Sextet, p1: Sextet, p2: Sextet, p3: Sextet)
    requires 1 <= |g| <= 3
    requires p0 == g[0] / 4
    requires p1 == g[0] % 4 * 16 + if |g| > 1 then g[1] / 16 else 0
    requires |g| > 1 ==> p2 == g[1] % 16 * 4 + if |g| > 2 then g[2] / 64 else 0
    requires |g| > 2 ==> p3 == g[2] % 64
    ensures var e := EncodeGroup(g, a);
            if |g| == 1 then
              e == [a.chars[p0], a.chars[p1], a.pad, a.pad] && e[..2] == [a.chars[p0], a.chars[p1]]
            else if |g| == 2 then
              e == [a.chars[p0], a.chars[p1], a.chars[p2], a.pad] && e[..3] == [a.chars[p0], a.chars[p1], a.chars[p2]]
            else
              e == e[..4] == [a.chars[p0], a.chars[p1], a.chars[p2], a.chars[p3]]
  {
  }

  lemma DecodeConcat(group: string, rest: string)
    requires |group| == 4
    ensures var first, others := DecodeGroup(group), Decode(rest);
            Decode(group + rest) == Joined(first, others)
  {
    assert (group + rest)[..4] == group && (group + rest)[4..] == rest;
  }

  /** decode undoes encode, for every byte string and both alphabets. */
  lemma {:induction false} DecodeEncode(s: seq<Byte>, a: Alphabet)
    requires Usable(a)
    ensures Decode(Encode(s, a)) == Success(s)
  {
    if s != [] {
      var n := Min(3, |s|);
      DecodeEncode(s[n..], a);
      DecodeFirst(s[..n], s[n..], a);
      assert s[..n] + s[n..] == s;
    }
  }

  lemma DecodeFirst(g: seq<Byte>, rest: seq<Byte>, a: Alphabet)
    requires Usable(a) && 1 <= |g| <= 3 && Decode(Encode(rest, a)) == Success(rest)
    ensures Decode(EncodeGroup(g, a) + Encode(rest, a)) == Success(g + rest)
  {
    GroupRoundTrip(g, a);
    DecodeJoined(EncodeGroup(g, a), Encode(rest, a), g, rest);
  }

  lemma DecodeJoined(group: string, rest: string, b: seq<Byte>, c: seq<Byte>)
    requires |group| == 4 && DecodeGroup(group) == Success(b) && Decode(rest) == Success(c)
    ensures Decode(group + rest) == Success(b + c)
  {
    DecodeConcat(group, rest);
    JoinedBytes(b, c);
  }

  lemma JoinedBytes(b: seq<Byte>, c: seq<Byte>)
    ensures Joined(Success(b), Success(c)) == Success(b + c)
  {
  }

  // ----- Without padding -----

  function StripPadding(t: string): string {
    if t != "" && (t[|t| - 1] == '=' || t[|t| - 1] == '.') then StripPadding(t[..|t| - 1]) else t
  }

  lemma {:induction false} StripConcat(t: string, u: string)
    requires StripPadding(u) != ""
    ensures StripPadding(t + u) == t + StripPadding(u)
  {
    var last := |u| - 1;
    assert (t + u)[|t + u| - 1] == u[last];
    if u[last] == '=' || u[last] == '.' {
      StripConcat(t, u[..last]);
      assert (t + u)[..|t + u| - 1] == t + u[..last];
    }
  }

  lemma EncodedCharsArePlain(g: seq<Byte>, a: Alphabet)
    requires 1 <= |g| <= 3 && Usable(a)
    ensures forall i :: 0 <= i < 4 ==> if i <= |g| then Plain(EncodeGroup(g, a)[i]) else EncodeGroup(g, a)[i] == a.pad
  {
    var p0, p1, p2, p3 := ToSextets(g[0], if |g| > 1 then g[1] else 0, if |g| > 2 then g[2] else 0);
    assert Readable(a, p0) && Readable(a, p1) && Readable(a, p2) && Readable(a, p3);
    EncodedAs(g, a, p0, p1, p2, p3);
  }

  lemma StripGroup(g: seq<Byte>, a: Alphabet)
    requires 1 <= |g| <= 3 && Usable(a)
    ensures StripPadding(EncodeGroup(g, a)) == EncodeGroup(g, a)[..|g| + 1]
  {
    var e := EncodeGroup(g, a);
    EncodedCharsArePlain(g, a);
    StripNothing(e[..|g| + 1]);
    if |g| < 3 {
      assert e == e[..3] + [a.pad] && e[..4 - 1] == e[..3];
      StripPad(e[..3], a);
    }
    if |g| == 1 {
      assert e[..3] == e[..2] + [a.pad];
      StripPad(e[..2], a);
    }
  }

  lemma StripNothing(t: string)
    requires t != "" && Plain(t[|t| - 1])
    ensures StripPadding(t) == t
  {
  }

  lemma StripPad(t: string, a: Alphabet)
    requires Usable(a)
    ensures StripPadding(t + [a.pad]) == StripPadding(t)
  {
    assert (t + [a.pad])[..|t|] == t;
  }

  /** decode undoes encode also when the trailing padding has been stripped. */
  lemma {:induction false} DecodeStripped(s: seq<Byte>, a: Alphabet)
    requires Usable(a)
    ensures Decode(StripPadding(Encode(s, a))) == Success(s)
  {
    if 0 < |s| <= 3 {
      assert s[..|s|] == s && s[|s|..] == [];
      assert Encode(s, a) == EncodeGroup(s, a);
      StripGroup(s, a);
      GroupRoundTrip(s, a);
      DecodeShort(EncodeGroup(s, a)[..|s| + 1], s);
    } else if |s| > 3 {
      DecodeStripped(s[3..], a);
      GroupRoundTrip(s[..3], a);
      assert StripPadding(Encode(s[3..], a)) != "";
      StripConcat(EncodeGroup(s[..3], a), Encode(s[3..], a));
      DecodeConcat(EncodeGroup(s[..3], a), StripPadding(Encode(s[3..], a)));
      assert s[..3] + s[3..] == s;
    }
  }

  lemma JoinedEmpty(b: seq<Byte>)
    ensures Joined(Success(b), Success([])) == Success(b)
  {
    assert b + [] == b;
  }

  lemma DecodeShort(t: string, b: seq<Byte>)
    requires 1 <= |t| <= 4 && DecodeGroup(t) == Success(b)
    ensures Decode(t) == Success(b)
  {
    assert t[..|t|] == t && t[|t|..] == "";
    JoinedEmpty(b);
  }

  // ----- Canonical texts -----

  /** A character of this very table. */
  predicate IsDigit(c: char, a: Alphabet) {
    PosOfChar(c).Some? && a.chars[PosOfChar(c).value] == c
  }

  predicate FullGroup(g: string, a: Alphabet) {
    |g| == 4 && IsDigit(g[0], a) && IsDigit(g[1], a) && IsDigit(g[2], a) && IsDigit(g[3], a)
  }

  /** A last group: full, or padded with zeros in the bits that no byte uses. */
  predicate LastGroup(g: string, a: Alphabet) {
    || FullGroup(g, a)
    || (|g| == 4 && IsDigit(g[0], a) && IsDigit(g[1], a) && g[3] == a.pad
        && if g[2] == a.pad then PosOfChar(g[1]).value % 16 == 0
           else IsDigit(g[2], a) && PosOfChar(g[2]).value % 4 == 0)
  }

  predicate Canonical(t: string, a: Alphabet) {
    t == "" || LastGroup(t, a) || (|t| > 4 && FullGroup(t[..4], a) && Canonical(t[4..], a))
  }

  lemma EncodedGroupIsCanonical(g: seq<Byte>, a: Alphabet)
    requires 1 <= |g| <= 3 && Usable(a)
    ensures LastGroup(EncodeGroup(g, a), a)
    ensures |g| == 3 ==> FullGroup(EncodeGroup(g, a), a)
  {
    var b0, b1, b2 := g[0], if |g| > 1 then g[1] else 0, if |g| > 2 then g[2] else 0;
    var p0, p1, p2, p3 := ToSextets(b0, b1, b2);
    EncodedAs(g, a, p0, p1, p2, p3);
    DigitAt(p0, a);
    DigitAt(p1, a);
    DigitAt(p2, a);
    DigitAt(p3, a);
  }

  lemma DigitAt(p: Sextet, a: Alphabet)
    requires Usable(a)
    ensures IsDigit(a.chars[p], a) && PosOfChar(a.chars[p]) == Some(p) && a.chars[p] != a.pad
  {
    assert Readable(a, p);
  }

  lemma {:induction false} EncodedIsCanonical(s: seq<Byte>, a: Alphabet)
    requires Usable(a)
    ensures Canonical(Encode(s, a), a)
  {
    if 0 < |s| <= 3 {
      assert s[..|s|] == s && s[|s|..] == [];
      assert Encode(s, a) == EncodeGroup(s, a);
      EncodedGroupIsCanonical(s, a);
    } else if |s| > 3 {
      var group, rest := EncodeGroup(s[..3], a), Encode(s[3..], a);
      EncodedGroupIsCanonical(s[..3], a);
      EncodedIsCanonical(s[3..], a);
      EncodedLength(s[3..], a);
      assert (group + rest)[..4] == group && (group + rest)[4..] == rest;
    }
  }

  lemma FromSextets(p0: Sextet, p1: Sextet, p2: Sextet, p3: Sextet) returns (b0: Byte, b1: Byte, b2: Byte)
    ensures b0 == p0 * 4 + p1 / 16 && b1 == p1 % 16 * 16 + p2 / 4 && b2 == p2 % 4 * 64 + p3
    ensures p0 == b0 / 4 && p1 == b0 % 4 * 16 + b1 / 16 && p2 == b1 % 16 * 4 + b2 / 64 && p3 == b2 % 64
    ensures p1 % 16 == 0 ==> p1 == b0 % 4 * 16
    ensures p2 % 4 == 0 ==> p2 == b1 % 16 * 4
  {
    b0, b1, b2 := p0 * 4 + p1 / 16, p1 % 16 * 16 + p2 / 4, p2 % 4 * 64 + p3;
  }

  lemma FullGroupOf(p0: Sextet, p1: Sextet, p2: Sextet, p3: Sextet, a: Alphabet) returns (b: seq<Byte>)
    requires Usable(a)
    ensures var g := [a.chars[p0], a.chars[p1], a.chars[p2], a.chars[p3]];
            |b| == 3 && DecodeGroup(g) == Success(b) && EncodeGroup(b, a) == g
  {
    var b0, b1, b2 := FromSextets(p0, p1, p2, p3);
    b := [b0, b1, b2];
    DecodeTableThree(p0, p1, p2, p3, a);
    EncodedAs(b, a, p0, p1, p2, p3);
  }

  lemma TwoByteGroupOf(p0: Sextet, p1: Sextet, p2: Sextet, a: Alphabet) returns (b: seq<Byte>)
    requires Usable(a) && p2 % 4 == 0
    ensures var g := [a.chars[p0], a.chars[p1], a.chars[p2], a.pad];
            |b| == 2 && DecodeGroup(g) == Success(b) && EncodeGroup(b, a) == g
  {
    var b0, b1, b2 := FromSextets(p0, p1, p2, 0);
    b := [b0, b1];
    DecodeTableTwo(p0, p1, p2, a);
    EncodedAs(b, a, p0, p1, p2, 0);
  }

  lemma OneByteGroupOf(p0: Sextet, p1: Sextet, a: Alphabet) returns (b: seq<Byte>)
    requires Usable(a) && p1 % 16 == 0
    ensures var g := [a.chars[p0], a.chars[p1], a.pad, a.pad];
            |b| == 1 && DecodeGroup(g) == Success(b) && EncodeGroup(b, a) == g
  {
    var b0, b1, b2 := FromSextets(p0, p1, 0, 0);
    b := [b0];
    DecodeTableOne(p0, p1, a);
    EncodedAs(b, a, p0, p1, 0, 0);
  }

  lemma CanonicalFullGroup(g: string, a: Alphabet) returns (b: seq<Byte>)
    requires Usable(a) && FullGroup(g, a)
    ensures |b| == 3 && DecodeGroup(g) == Success(b) && EncodeGroup(b, a) == g
  {
    var p0, p1 := PosOfChar(g[0]).value, PosOfChar(g[1]).value;
    var p2, p3 := PosOfChar(g[2]).value, PosOfChar(g[3]).value;
    b := FullGroupOf(p0, p1, p2, p3, a);
    assert g == [a.chars[p0], a.chars[p1], a.chars[p2], a.chars[p3]];
  }

  lemma CanonicalTwoByteGroup(g: string, a: Alphabet) returns (b: seq<Byte>)
    requires Usable(a) && |g| == 4 && IsDigit(g[0], a) && IsDigit(g[1], a) && IsDigit(g[2], a) && g[3] == a.pad
    requires PosOfChar(g[2]).value % 4 == 0
    ensures |b| == 2 && DecodeGroup(g) == Success(b) && EncodeGroup(b, a) == g
  {
    var p0, p1, p2 := PosOfChar(g[0]).value, PosOfChar(g[1]).value, PosOfChar(g[2]).value;
    b := TwoByteGroupOf(p0, p1, p2, a);
    assert g == [a.chars[p0], a.chars[p1], a.chars[p2], a.pad];
  }

  lemma CanonicalOneByteGroup(g: string, a: Alphabet) returns (b: seq<Byte>)
    requires Usable(a) && |g| == 4 && IsDigit(g[0], a) && IsDigit(g[1], a) && g[2] == a.pad && g[3] == a.pad
    requires PosOfChar(g[1]).value % 16 == 0
    ensures |b| == 1 && DecodeGroup(g) == Success(b) && EncodeGroup(b, a) == g
  {
    var p0, p1 := PosOfChar(g[0]).value, PosOfChar(g[1]).value;
    b := OneByteGroupOf(p0, p1, a);
    assert g == [a.chars[p0], a.chars[p1], a.pad, a.pad];
  }

  lemma CanonicalLastGroup(g: string, a: Alphabet) returns (b: seq<Byte>)
    requires Usable(a) && LastGroup(g, a)
    ensures 1 <= |b| <= 3 && DecodeGroup(g) == Success(b) && EncodeGroup(b, a) == g
  {
    if FullGroup(g, a) {
      b := CanonicalFullGroup(g, a);
    } else if g[2] == a.pad {
      b := CanonicalOneByteGroup(g, a);
    } else {
      b := CanonicalTwoByteGroup(g, a);
    }
  }

  lemma EncodeConcat(g: seq<Byte>, rest: seq<Byte>, a: Alphabet)
    requires |g| == 3 || (1 <= |g| <= 3 && rest == [])
    ensures Encode(g + rest, a) == EncodeGroup(g, a) + Encode(rest, a)
  {
    var n := Min(3, |g + rest|);
    assert (g + rest)[..n] == g && (g + rest)[n..] == rest;
  }

  lemma {:induction false} CanonicalRoundTrip(t: string, a: Alphabet)
    requires Usable(a) && Canonical(t, a)
    ensures Decode(t).Success? && Encode(Decode(t).value, a) == t
  {
    if t == "" {
    } else if LastGroup(t, a) {
      var b := CanonicalLastGroup(t, a);
      DecodeShort(t, b);
      EncodeConcat(b, [], a);
      assert b + [] == b;
    } else {
      var b := CanonicalFullGroup(t[..4], a);
      CanonicalRoundTrip(t[4..], a);
      DecodeConcat(t[..4], t[4..]);
      EncodeConcat(b, Decode(t[4..]).value, a);
      assert t[..4] + t[4..] == t;
    }
  }

  /** encode undoes decode exactly on the canonical texts of its alphabet. */
  lemma EncodeDecodeIff(t: string, a: Alphabet)
    requires Usable(a)
    ensures Decode(t).Success? && Encode(Decode(t).value, a) == t <==> Canonical(t, a)
  {
    if Decode(t).Success? && Encode(Decode(t).value, a) == t {
      EncodedIsCanonical(Decode(t).value, a);
    }
    if Canonical(t, a) {
      CanonicalRoundTrip(t, a);
    }
  }

  // ----- Line breaks -----

  function Lines(t: string, width: nat): string
    requires width > 0
  {
    if |t| <= width then t else t[..width] + "\n" + Lines(t[width..], width)
  }

  lemma LinesStep(done: string, rest: string, width: nat)
    requires 0 < width < |rest|
    ensures done + Lines(rest, width) == done + rest[..width] + "\n" + Lines(rest[width..], width)
  {
  }

  method InsertLinebreaks(text: string, distance: nat) returns (str: string)
    requires distance > 0
    ensures str == Lines(text, distance)
  {
    str := text;
    if |str| == 0 {
      return "";
    }
    var pos := distance;
    assert str[pos - distance..] == text;
    while pos < |str|
      invariant distance <= pos <= |str| + distance
      invariant str[..pos - distance] + Lines(str[pos - distance..], distance) == Lines(text, distance)
      decreases |str| - pos
    {
      ghost var done, rest := str[..pos - distance], str[pos - distance..];
      LinesStep(done, rest, distance);
      str := str[..pos] + "\n" + str[pos..];
      pos := pos + distance + 1;
      assert str[..pos - distance] == done + rest[..distance] + "\n";
      assert str[pos - distance..] == rest[distance..];
    }
  }

  function RemoveNewlines(t: string): string {
    if t == "" then "" else (if t[0] == '\n' then "" else [t[0]]) + RemoveNewlines(t[1..])
  }

  /** base64_decode, with or without the removal of line breaks. */
  function DecodeText(t: string, removeLinebreaks: bool): Result<seq<Byte>, Base64Error> {
    if removeLinebreaks then Decode(RemoveNewlines(t)) else Decode(t)
  }

  method Base64Decode(t: string, removeLinebreaks: bool) returns (r: Result<seq<Byte>, Base64Error>)
    ensures r == DecodeText(t, removeLinebreaks)
  {
    if t == "" {
      return Success([]);
    }
    if removeLinebreaks {
      var copy := EraseNewlines(t);
      r := DecodeLoop(copy);
    } else {
      r := DecodeLoop(t);
    }
  }

  lemma RemoveNext(copy: string, t: string, i: nat)
    requires i < |t|
    ensures copy + RemoveNewlines(t[i..])
         == (if t[i] == '\n' then copy else copy + [t[i]]) + RemoveNewlines(t[i + 1..])
  {
    assert t[i..][0] == t[i] && t[i..][1..] == t[i + 1..];
    Append(copy, [t[i]], RemoveNewlines(t[i + 1..]));
  }

  /** The erase-remove idiom. */
  method EraseNewlines(t: string) returns (copy: string)
    ensures copy == RemoveNewlines(t)
  {
    copy := "";
    for i := 0 to |t|
      invariant copy + RemoveNewlines(t[i..]) == RemoveNewlines(t)
    {
      RemoveNext(copy, t, i);
      if t[i] != '\n' {
        copy := copy + [t[i]];
      }
    }
  }

  lemma {:induction false} RemoveConcat(t: string, u: string)
    ensures RemoveNewlines(t + u) == RemoveNewlines(t) + RemoveNewlines(u)
  {
    if t == "" {
      assert t + u == u;
    } else {
      assert (t + u)[1..] == t[1..] + u;
      RemoveConcat(t[1..], u);
    }
  }

  /** Exactly the newlines go, wherever they stand. */
  lemma RemovesOnlyNewlines(t: string, c: char, u: string)
    ensures RemoveNewlines("") == ""
    ensures RemoveNewlines(t + [c] + u) == RemoveNewlines(t) + (if c == '\n' then "" else [c]) + RemoveNewlines(u)
  {
    RemoveConcat(t + [c], u);
    RemoveConcat(t, [c]);
    assert [c][1..] == "";
  }

  lemma {:induction false} RemoveNothing(t: string)
    requires '\n' !in t
    ensures RemoveNewlines(t) == t
  {
    if t != "" {
      assert '\n' !in t[1..];
      RemoveNothing(t[1..]);
    }
  }

  lemma RemoveBetween(t: string, u: string)
    ensures RemoveNewlines(t + "\n" + u) == RemoveNewlines(t) + RemoveNewlines(u)
  {
    RemoveConcat(t, "\n" + u);
    assert ("\n" + u)[1..] == u;
    assert t + "\n" + u == t + ("\n" + u);
  }

  lemma LineUndone(head: string, lines: string, rest: string)
    requires '\n' !in head && RemoveNewlines(lines) == rest
    ensures RemoveNewlines(head + "\n" + lines) == head + rest
  {
    RemoveNothing(head);
    RemoveBetween(head, lines);
  }

  lemma {:induction false} LinesUndone(t: string, width: nat)
    requires '\n' !in t && width > 0
    ensures RemoveNewlines(Lines(t, width)) == t
  {
    if |t| <= width {
      RemoveNothing(t);
    } else {
      var head, rest := t[..width], t[width..];
      LinesUndone(rest, width);
      LineUndone(head, Lines(rest, width), rest);
      assert head + rest == t;
    }
  }

  /** Every line but the last has exactly the given width: newlines stand at the multiples of width + 1. */
  lemma {:induction false} LinesHaveWidth(t: string, width: nat, i: nat)
    requires '\n' !in t && width > 0 && i < |Lines(t, width)|
    ensures Lines(t, width)[i] == '\n' <==> (i + 1) % (width + 1) == 0
  {
    var all := Lines(t, width);
    SmallMod(i + 1, width + 1);
    if |t| <= width {
      assert all[i] in t;
    } else if i < width {
      assert all[i] == t[i] && t[i] in t;
    } else if i > width {
      var rest := i - (width + 1);
      assert all[i] == Lines(t[width..], width)[rest];
      LinesHaveWidth(t[width..], width, rest);
      ShiftMod(rest + 1, width + 1);
    }
  }

  lemma SmallMod(x: nat, m: nat)
    requires m > 0
    ensures x < m ==> x % m == x
    ensures x == m ==> x % m == 0
  {
  }

  lemma ShiftMod(x: int, m: int)
    requires m > 0
    ensures (x + m) % m == x % m
  {
    var q, r := x / m, x % m;
    assert x + m == (q + 1) * m + r;
    var k := (x + m) / m - (q + 1);
    assert ((x + m) / m) * m == k * m + (q + 1) * m;
    assert k >= 1 ==> k * m >= m;
    assert k <= -1 ==> k * m <= -m;
  }

  lemma {:induction false} EncodedHasNoNewline(s: seq<Byte>, a: Alphabet)
    requires Usable(a)
    ensures '\n' !in Encode(s, a)
  {
    if s != [] {
      var n := Min(3, |s|);
      EncodedHasNoNewline(s[n..], a);
      var group := EncodeGroup(s[..n], a);
      EncodedCharsArePlain(s[..Min(3, |s|)], a);
      assert group[0] != '\n' && group[1] != '\n' && group[2] != '\n' && group[3] != '\n';
    }
  }

  const PEM_WIDTH: nat := 64
  const MIME_WIDTH: nat := 76

  /** The PEM and MIME forms always use the standard alphabet. */
  method Base64EncodeWithLineBreaks(s: seq<Byte>, width: nat) returns (t: string)
    requires |s| < 0x1_0000_0000 && width > 0
    ensures t == Lines(Encode(s, AlphabetOf(false)), width)
  {
    var text := Base64Encode(s, AlphabetOf(false));
    t := InsertLinebreaks(text, width);
  }

  method Base64EncodePem(s: seq<Byte>) returns (t: string)
    requires |s| < 0x1_0000_0000
    ensures t == Lines(Encode(s, AlphabetOf(false)), 64)
    ensures DecodeText(t, true) == Success(s)
  {
    DecodeUndoesLineBreaks(s, PEM_WIDTH);
    t := Base64EncodeWithLineBreaks(s, PEM_WIDTH);
  }

  method Base64EncodeMime(s: seq<Byte>) returns (t: string)
    requires |s| < 0x1_0000_0000
    ensures t == Lines(Encode(s, AlphabetOf(false)), 76)
    ensures DecodeText(t, true) == Success(s)
  {
    DecodeUndoesLineBreaks(s, MIME_WIDTH);
    t := Base64EncodeWithLineBreaks(s, MIME_WIDTH);
  }

  // ----- Main results -----

  /** For every byte string and both alphabets: decode(encode(s)) is s, also without the padding. */
  lemma DecodeUndoesEncode(s: seq<Byte>, url: bool)
    ensures DecodeText(Encode(s, AlphabetOf(url)), false) == Success(s)
    ensures DecodeText(StripPadding(Encode(s, AlphabetOf(url))), false) == Success(s)
    ensures |Encode(s, AlphabetOf(url))| == (|s| + 2) / 3 * 4
  {
    AlphabetsAreUsable(url);
    DecodeEncode(s, AlphabetOf(url));
    DecodeStripped(s, AlphabetOf(url));
    EncodedLength(s, AlphabetOf(url));
  }

  /** Line breaks at any positive width, those of PEM and MIME included, are undone by their removal. */
  lemma DecodeUndoesLineBreaks(s: seq<Byte>, width: nat)
    requires width > 0
    ensures DecodeText(Lines(Encode(s, AlphabetOf(false)), width), true) == Success(s)
  {
    AlphabetsAreUsable(false);
    EncodedHasNoNewline(s, AlphabetOf(false));
    LinesUndone(Encode(s, AlphabetOf(false)), width);
    DecodeEncode(s, AlphabetOf(false));
  }

  /** encode undoes decode exactly on the canonical texts of the alphabet. */
  lemma EncodeUndoesDecodeIff(t: string, url: bool)
    ensures (DecodeText(t, false).Success? && Encode(DecodeText(t, false).value, AlphabetOf(url)) == t)
            <==> Canonical(t, AlphabetOf(url))
  {
    AlphabetsAreUsable(url);
    EncodeDecodeIff(t, AlphabetOf(url));
  }
}
