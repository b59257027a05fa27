/** What stands at each place of a base64 text, told from the bits of the bytes and from the characters themselves. */
module Base64Values {
  import opened Common
  import opened Base64

  // ----- Encoding -----

  /** The characters of both alphabets, and their pads. */
  lemma CharacterOf(i: Sextet, url: bool)
    ensures var c, a := AlphabetOf(url).chars[i], AlphabetOf(url);
            && (i < 26 ==> c as int == 'A' as int + i)
            && (26 <= i < 52 ==> c as int == 'a' as int + i - 26)
            && (52 <= i < 62 ==> c as int == '0' as int + i - 52)
            && (i == 62 ==> c == if url then '-' else '+')
            && (i == 63 ==> c == if url then '_' else '/')
            && a.pad == if url then '.' else '='
  {
    TableSize();
    if i < 62 {
      LetterAt(i);
      assert AlphabetOf(url).chars[i] == LETTERS[i];
    }
  }

  function ByteAt(s: seq<Byte>, i: nat): Byte {
    if i < |s| then s[i] else 0
  }

  /** Bytes 3 * k to 3 * k + 2 as one number of 24 bits, the first byte highest; missing bytes are 0. */
  function Word(s: seq<Byte>, k: nat): (w: int)
    ensures 0 <= w < 0x100_0000
  {
    ByteAt(s, 3 * k) * 0x1_0000 + ByteAt(s, 3 * k + 1) * 0x100 + ByteAt(s, 3 * k + 2)
  }

  /** The six bits of w that character m of its group carries. */
  function SixBits(w: int, m: int): Sextet {
    w / (if m == 0 then 0x4_0000 else if m == 1 then 0x1000 else if m == 2 then 0x40 else 1) % 64
  }

  lemma LowSix(q: int, r: Sextet)
    ensures (q * 64 + r) % 64 == r && (q * 64 + r) / 64 == q
  {
  }

  lemma SixBitsOf(p0: Sextet, p1: Sextet, p2: Sextet, p3: Sextet)
    ensures var w := ((p0 * 64 + p1) * 64 + p2) * 64 + p3;
            && w / 0x4_0000 % 64 == p0 && w / 0x1000 % 64 == p1 && w / 0x40 % 64 == p2 && w % 64 == p3
  {
    var q2: int := p0 * 64 + p1;
    var q3: int := q2 * 64 + p2;
    var w: int := q3 * 64 + p3;
    LowSix(q3, p3);
    LowSix(q2, p2);
    LowSix(p0, p1);
    assert w / 64 == q3 && w / 0x1000 == q2 && w / 0x4_0000 == p0;
  }

  lemma WordOf(b0: Byte, b1: Byte, b2: Byte) returns (p0: Sextet, p1: Sextet, p2: Sextet, p3: Sextet)
    ensures p0 == b0 / 4 && p1 == b0 % 4 * 16 + b1 / 16 && p2 == b1 % 16 * 4 + b2 / 64 && p3 == b2 % 64
    ensures b0 * 0x1_0000 + b1 * 0x100 + b2 == ((p0 * 64 + p1) * 64 + p2) * 64 + p3
  {
    p0, p1, p2, p3 := ToSextets(b0, b1, b2);
  }

  lemma GroupCharacter(s: seq<Byte>, a: Alphabet, m: nat)
    requires s != [] && m < 4
    ensures EncodeGroup(s[..Min(3, |s|)], a)[m] == if m <= |s| then a.chars[SixBits(Word(s, 0), m)] else a.pad
  {
    var p0: Sextet, p1: Sextet, p2: Sextet, p3: Sextet := WordOf(ByteAt(s, 0), ByteAt(s, 1), ByteAt(s, 2));
    SixBitsOf(p0, p1, p2, p3);
    SixBitsAt(Word(s, 0), m);
    EncodedAs(s[..Min(3, |s|)], a, p0, p1, p2, p3);
  }

  lemma SixBitsAt(w: int, m: nat)
    requires m < 4
    ensures SixBits(w, m) == if m == 0 then w / 0x4_0000 % 64 else if m == 1 then w / 0x1000 % 64
                             else if m == 2 then w / 0x40 % 64 else w % 64
  {
  }

  lemma DropPrefix(head: string, tail: string, n: nat)
    requires n <= |tail|
    ensures (head + tail)[|head| + n..] == tail[n..]
  {
  }

  lemma {:induction false} EncodeBehind(s: seq<Byte>, a: Alphabet, k: nat)
    requires 3 * k <= |s|
    ensures 4 * k <= |Encode(s, a)| && Encode(s, a)[4 * k..] == Encode(s[3 * k..], a)
  {
    if k == 0 {
      assert s[0..] == s;
    } else {
      var head, tail := EncodeGroup(s[..3], a), Encode(s[3..], a);
      EncodeBehind(s[3..], a, k - 1);
      assert s[3..][3 * (k - 1)..] == s[3 * k..];
      assert Encode(s, a) == head + tail;
      DropPrefix(head, tail, 4 * (k - 1));
    }
  }

  lemma WordBehind(s: seq<Byte>, k: nat)
    requires 3 * k <= |s|
    ensures Word(s[3 * k..], 0) == Word(s, k)
  {
    forall i: nat
      ensures ByteAt(s[3 * k..], i) == ByteAt(s, 3 * k + i)
    {
    }
  }

  /**
   * Character m of group k carries bits 6 * m to 6 * m + 5 of bytes 3 * k to 3 * k + 2, counted
   * from the highest; it is the pad when no byte has a bit there.
   */
  lemma EncodedCharacter(s: seq<Byte>, a: Alphabet, k: nat, m: nat)
    requires 3 * k < |s| && m < 4
    ensures 4 * k + m < |Encode(s, a)|
    ensures Encode(s, a)[4 * k + m] == if m <= |s| - 3 * k then a.chars[SixBits(Word(s, k), m)] else a.pad
  {
    EncodeBehind(s, a, k);
    WordBehind(s, k);
    FirstGroup(s[3 * k..], a, m);
    assert Encode(s, a)[4 * k..][m] == Encode(s, a)[4 * k + m];
  }

  lemma FirstGroup(s: seq<Byte>, a: Alphabet, m: nat)
    requires s != [] && m < 4
    ensures m < |Encode(s, a)|
    ensures Encode(s, a)[m] == if m <= |s| then a.chars[SixBits(Word(s, 0), m)] else a.pad
  {
    GroupCharacter(s, a, m);
  }

  // ----- Decoding -----

  predicate IsSymbol(c: char) {
    'A' <= c <= 'Z' || 'a' <= c <= 'z' || '0' <= c <= '9' || c == '+' || c == '-' || c == '/' || c == '_'
  }

  predicate IsPad(c: char) {
    c == '=' || c == '.'
  }

  /** Pads are taken at the third and fourth place of any group, and anything behind a pad at the third. */
  predicate Acceptable(t: string, i: nat)
    requires i < |t|
  {
    || IsSymbol(t[i])
    || (i % 4 >= 2 && IsPad(t[i]))
    || (i % 4 == 3 && IsPad(t[i - 1]))
  }

  /** Every character is acceptable, and no group has just one. */
  predicate Decodable(t: string) {
    |t| % 4 != 1 && forall i :: 0 <= i < |t| ==> Acceptable(t, i)
  }

  lemma GroupDecodesIff(g: string)
    requires 1 <= |g| <= 4
    ensures DecodeGroup(g).Success? <==> Decodable(g)
  {
    if Decodable(g) {
      assert Acceptable(g, 0) && Acceptable(g, 1);
      assert |g| > 2 ==> Acceptable(g, 2);
      assert |g| > 3 ==> Acceptable(g, 3);
    }
  }

  lemma DecodableBehindGroup(t: string)
    requires |t| > 4
    ensures Decodable(t) <==> Decodable(t[..4]) && Decodable(t[4..])
  {
    forall i | 0 <= i < 4
      ensures Acceptable(t[..4], i) <==> Acceptable(t, i)
    {
      AcceptableInFirst(t, i);
    }
    forall i | 0 <= i < |t| - 4
      ensures Acceptable(t[4..], i) <==> Acceptable(t, i + 4)
    {
      AcceptableBehind(t, i);
    }
    if Decodable(t[..4]) && Decodable(t[4..]) {
      forall i | 0 <= i < |t|
        ensures Acceptable(t, i)
      {
        assert if i < 4 then Acceptable(t[..4], i) else Acceptable(t[4..], i - 4);
      }
    }
  }

  lemma AcceptableInFirst(t: string, i: nat)
    requires i < 4 < |t|
    ensures Acceptable(t[..4], i) <==> Acceptable(t, i)
  {
  }

  lemma AcceptableBehind(t: string, i: nat)
    requires i + 4 < |t|
    ensures Acceptable(t[4..], i) <==> Acceptable(t, i + 4)
  {
  }

  /** Which texts decode at all. Both alphabets are taken, also mixed in one text. */
  lemma {:induction false} DecodesIff(t: string)
    ensures Decode(t).Success? <==> Decodable(t)
    decreases |t|
  {
    if 0 < |t| <= 4 {
      assert t[..|t|] == t && t[|t|..] == "";
      JoinedSucceedsIff(DecodeGroup(t), Decode(""));
      GroupDecodesIff(t);
    } else if |t| > 4 {
      JoinedSucceedsIff(DecodeGroup(t[..4]), Decode(t[4..]));
      GroupDecodesIff(t[..4]);
      DecodesIff(t[4..]);
      DecodableBehindGroup(t);
    }
  }

  lemma JoinedSucceedsIff(first: Result<seq<Byte>, Base64Error>, rest: Result<seq<Byte>, Base64Error>)
    ensures Joined(first, rest).Success? <==> first.Success? && rest.Success?
  {
  }

  /** The value of a symbol, in either alphabet. */
  function ValueOf(c: char): Sextet
    requires IsSymbol(c)
  {
    if 'A' <= c <= 'Z' then c as int - 65
    else if 'a' <= c <= 'z' then c as int - 71
    else if '0' <= c <= '9' then c as int + 4
    else if c == '+' || c == '-' then 62 else 63
  }

  /** The value of the symbol at place i of a group, or 0 where the group has none. */
  function ValueAt(g: string, i: nat): Sextet {
    if i < |g| && IsSymbol(g[i]) then ValueOf(g[i]) else 0
  }

  /** The bytes of a group are the upper bytes of the 24 bits that its symbols hold. */
  lemma DecodedGroup(g: string)
    requires 1 <= |g| <= 4 && DecodeGroup(g).Success?
    ensures var w := ValueAt(g, 0) * 0x4_0000 + ValueAt(g, 1) * 0x1000 + ValueAt(g, 2) * 0x40 + ValueAt(g, 3);
            var bytes := [w / 0x1_0000, w / 0x100 % 0x100, w % 0x100];
            DecodeGroup(g).value == if |g| < 3 || IsPad(g[2]) then bytes[..1]
                                    else if |g| < 4 || IsPad(g[3]) then bytes[..2] else bytes
  {
    var p0, p1, p2, p3 := ValueAt(g, 0), ValueAt(g, 1), ValueAt(g, 2), ValueAt(g, 3);
    ValuesOfGroup(g);
    DecodeGroupOf(g, p0, p1, p2, p3);
    BytesOf(p0, p1, p2, p3);
  }

  lemma PositionIs(c: char)
    ensures PosOfChar(c) == if IsSymbol(c) then Some(ValueOf(c)) else None
    ensures IsSymbol(c) ==> !IsPad(c)
  {
  }

  lemma ValuesOfGroup(g: string)
    requires 1 <= |g| <= 4 && DecodeGroup(g).Success?
    ensures |g| >= 2 && PosOfChar(g[0]) == Some(ValueAt(g, 0)) && PosOfChar(g[1]) == Some(ValueAt(g, 1))
    ensures IsData(g, 2) ==> PosOfChar(g[2]) == Some(ValueAt(g, 2))
    ensures IsData(g, 2) && IsData(g, 3) ==> PosOfChar(g[3]) == Some(ValueAt(g, 3))
  {
    GroupDecodesIff(g);
    assert Acceptable(g, 0) && Acceptable(g, 1);
    forall i | 0 <= i < |g|
      ensures Acceptable(g, i) && (IsSymbol(g[i]) ==> PosOfChar(g[i]) == Some(ValueAt(g, i)))
    {
      PositionIs(g[i]);
    }
  }

  lemma BytesOf(p0: Sextet, p1: Sextet, p2: Sextet, p3: Sextet)
    ensures var w := p0 * 0x4_0000 + p1 * 0x1000 + p2 * 0x40 + p3;
            && w / 0x1_0000 == p0 * 4 + p1 / 16
            && w / 0x100 % 0x100 == p1 % 16 * 16 + p2 / 4
            && w % 0x100 == p2 % 4 * 64 + p3
  {
    var w := p0 * 0x4_0000 + p1 * 0x1000 + p2 * 0x40 + p3;
    assert w / 0x100 == p0 * 1024 + p1 * 16 + p2 / 4;
  }
}
