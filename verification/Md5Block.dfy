/**
 * The block function of MD5: which word is updated when, and from what. It is modelled for any
 * type of word, because this does not depend on the arithmetic.
 */
module Md5Block {
  type Turn = n: int | 0 < n < 32 witness 1
  type Constant = n: int | 0 <= n < 0x1_0000_0000
  type Step = i: int | 0 <= i < 64

  /** The words A, B, C and D. */
  datatype State<W> = State(a: W, b: W, c: W, d: W)

  /** The new value of a from a, b, c, d, a word of the block, a rotation and a constant. */
  type Update<!W> = (W, W, W, W, W, Turn, Constant) -> W

  /** The four update functions, one for each round. */
  datatype Updates<!W> = Updates(ff: Update<W>, gg: Update<W>, hh: Update<W>, ii: Update<W>)

  // ----- Section 3.4 of RFC 1321: the sixty-four steps by number -----

  function UpdateOf<W>(u: Updates<W>, i: Step): Update<W> {
    match i / 16
    case 0 => u.ff
    case 1 => u.gg
    case 2 => u.hh
    case _ => u.ii
  }

  function WordIndex(i: Step): (k: int)
    ensures 0 <= k < 16
  {
    match i / 16
    case 0 => i
    case 1 => (5 * i + 1) % 16
    case 2 => (3 * i + 5) % 16
    case _ => 7 * i % 16
  }

  function Shift(i: Step): Turn {
    match i / 16
    case 0 => [7, 12, 17, 22][i % 4]
    case 1 => [5, 9, 14, 20][i % 4]
    case 2 => [4, 11, 16, 23][i % 4]
    case _ => [6, 10, 15, 21][i % 4]
  }

  /** Four entries of the table T, the integer parts of 2^32 * abs(sin(i + 1)). */
  function SineRow(row: int): (r: seq<Constant>)
    requires 0 <= row < 16
    ensures |r| == 4
  {
    match row
    case 0 => [0xd76aa478, 0xe8c7b756, 0x242070db, 0xc1bdceee]
    case 1 => [0xf57c0faf, 0x4787c62a, 0xa8304613, 0xfd469501]
    case 2 => [0x698098d8, 0x8b44f7af, 0xffff5bb1, 0x895cd7be]
    case 3 => [0x6b901122, 0xfd987193, 0xa679438e, 0x49b40821]
    case 4 => [0xf61e2562, 0xc040b340, 0x265e5a51, 0xe9b6c7aa]
    case 5 => [0xd62f105d, 0x02441453, 0xd8a1e681, 0xe7d3fbc8]
    case 6 => [0x21e1cde6, 0xc33707d6, 0xf4d50d87, 0x455a14ed]
    case 7 => [0xa9e3e905, 0xfcefa3f8, 0x676f02d9, 0x8d2a4c8a]
    case 8 => [0xfffa3942, 0x8771f681, 0x6d9d6122, 0xfde5380c]
    case 9 => [0xa4beea44, 0x4bdecfa9, 0xf6bb4b60, 0xbebfbc70]
    case 10 => [0x289b7ec6, 0xeaa127fa, 0xd4ef3085, 0x04881d05]
    case 11 => [0xd9d4d039, 0xe6db99e5, 0x1fa27cf8, 0xc4ac5665]
    case 12 => [0xf4292244, 0x432aff97, 0xab9423a7, 0xfc93a039]
    case 13 => [0x655b59c3, 0x8f0ccc92, 0xffeff47d, 0x85845dd1]
    case 14 => [0x6fa87e4f, 0xfe2ce6e0, 0xa3014314, 0x4e0811a1]
    case _ => [0xf7537e82, 0xbd3af235, 0x2ad7d2bb, 0xeb86d391]
  }

  function Sine(i: Step): Constant {
    SineRow(i / 4)[i % 4]
  }

  /** Step i renames the words, so that the word it computes is always the new B. */
  function RfcStep<W>(u: Updates<W>, i: Step, s: State<W>, x: seq<W>): State<W>
    requires |x| == 16
  {
    State(s.d, UpdateOf(u, i)(s.a, s.b, s.c, s.d, x[WordIndex(i)], Shift(i), Sine(i)), s.b, s.c)
  }

  /** The first n of the sixteen steps from step i. */
  function Steps<W>(u: Updates<W>, i: Step, n: nat, s: State<W>, x: seq<W>): State<W>
    requires |x| == 16 && i + n <= 64
    decreases |x|, n
  {
    if n == 0 then s else RfcStep(u, i + n - 1, Steps(u, i, n - 1, s, x), x)
  }

  /** All four rounds of sixteen steps. */
  function Compress<W>(u: Updates<W>, s: State<W>, x: seq<W>): State<W>
    requires |x| == 16
  {
    Steps(u, 48, 16, Steps(u, 32, 16, Steps(u, 16, 16, Steps(u, 0, 16, s, x), x), x), x)
  }

  // ----- scramble_block: the steps written out -----

  method RoundOne<W>(u: Updates<W>, s: State<W>, x: seq<W>) returns (r: State<W>)
    requires |x| == 16
    ensures r == Steps(u, 0, 16, s, x)
  {
    var a, b, c, d := s.a, s.b, s.c, s.d;
    a := u.ff(a, b, c, d, x[0], 7, 0xd76aa478);
    assert State(d, a, b, c) == Steps(u, 0, 1, s, x);
    d := u.ff(d, a, b, c, x[1], 12, 0xe8c7b756);
    assert State(c, d, a, b) == Steps(u, 0, 2, s, x);
    c := u.ff(c, d, a, b, x[2], 17, 0x242070db);
    assert State(b, c, d, a) == Steps(u, 0, 3, s, x);
    b := u.ff(b, c, d, a, x[3], 22, 0xc1bdceee);
    assert State(a, b, c, d) == Steps(u, 0, 4, s, x);
    a := u.ff(a, b, c, d, x[4], 7, 0xf57c0faf);
    assert State(d, a, b, c) == Steps(u, 0, 5, s, x);
    d := u.ff(d, a, b, c, x[5], 12, 0x4787c62a);
    assert State(c, d, a, b) == Steps(u, 0, 6, s, x);
    c := u.ff(c, d, a, b, x[6], 17, 0xa8304613);
    assert State(b, c, d, a) == Steps(u, 0, 7, s, x);
    b := u.ff(b, c, d, a, x[7], 22, 0xfd469501);
    assert State(a, b, c, d) == Steps(u, 0, 8, s, x);
    a := u.ff(a, b, c, d, x[8], 7, 0x698098d8);
    assert State(d, a, b, c) == Steps(u, 0, 9, s, x);
    d := u.ff(d, a, b, c, x[9], 12, 0x8b44f7af);
    assert State(c, d, a, b) == Steps(u, 0, 10, s, x);
    c := u.ff(c, d, a, b, x[10], 17, 0xffff5bb1);
    assert State(b, c, d, a) == Steps(u, 0, 11, s, x);
    b := u.ff(b, c, d, a, x[11], 22, 0x895cd7be);
    assert State(a, b, c, d) == Steps(u, 0, 12, s, x);
    a := u.ff(a, b, c, d, x[12], 7, 0x6b901122);
    assert State(d, a, b, c) == Steps(u, 0, 13, s, x);
    d := u.ff(d, a, b, c, x[13], 12, 0xfd987193);
    assert State(c, d, a, b) == Steps(u, 0, 14, s, x);
    c := u.ff(c, d, a, b, x[14], 17, 0xa679438e);
    assert State(b, c, d, a) == Steps(u, 0, 15, s, x);
    b := u.ff(b, c, d, a, x[15], 22, 0x49b40821);
    assert State(a, b, c, d) == Steps(u, 0, 16, s, x);
    r := State(a, b, c, d);
  }

  method RoundTwo<W>(u: Updates<W>, s: State<W>, x: seq<W>) returns (r: State<W>)
    requires |x| == 16
    ensures r == Steps(u, 16, 16, s, x)
  {
    var a, b, c, d := s.a, s.b, s.c, s.d;
    a := u.gg(a, b, c, d, x[1], 5, 0xf61e2562);
    assert State(d, a, b, c) == Steps(u, 16, 1, s, x);
    d := u.gg(d, a, b, c, x[6], 9, 0xc040b340);
    assert State(c, d, a, b) == Steps(u, 16, 2, s, x);
    c := u.gg(c, d, a, b, x[11], 14, 0x265e5a51);
    assert State(b, c, d, a) == Steps(u, 16, 3, s, x);
    b := u.gg(b, c, d, a, x[0], 20, 0xe9b6c7aa);
    assert State(a, b, c, d) == Steps(u, 16, 4, s, x);
    a := u.gg(a, b, c, d, x[5], 5, 0xd62f105d);
    assert State(d, a, b, c) == Steps(u, 16, 5, s, x);
    d := u.gg(d, a, b, c, x[10], 9, 0x02441453);
    assert State(c, d, a, b) == Steps(u, 16, 6, s, x);
    c := u.gg(c, d, a, b, x[15], 14, 0xd8a1e681);
    assert State(b, c, d, a) == Steps(u, 16, 7, s, x);
    b := u.gg(b, c, d, a, x[4], 20, 0xe7d3fbc8);
    assert State(a, b, c, d) == Steps(u, 16, 8, s, x);
    a := u.gg(a, b, c, d, x[9], 5, 0x21e1cde6);
    assert State(d, a, b, c) == Steps(u, 16, 9, s, x);
    d := u.gg(d, a, b, c, x[14], 9, 0xc33707d6);
    assert State(c, d, a, b) == Steps(u, 16, 10, s, x);
    c := u.gg(c, d, a, b, x[3], 14, 0xf4d50d87);
    assert State(b, c, d, a) == Steps(u, 16, 11, s, x);
    b := u.gg(b, c, d, a, x[8], 20, 0x455a14ed);
    assert State(a, b, c, d) == Steps(u, 16, 12, s, x);
    a := u.gg(a, b, c, d, x[13], 5, 0xa9e3e905);
    assert State(d, a, b, c) == Steps(u, 16, 13, s, x);
    d := u.gg(d, a, b, c, x[2], 9, 0xfcefa3f8);
    assert State(c, d, a, b) == Steps(u, 16, 14, s, x);
    c := u.gg(c, d, a, b, x[7], 14, 0x676f02d9);
    assert State(b, c, d, a) == Steps(u, 16, 15, s, x);
    b := u.gg(b, c, d, a, x[12], 20, 0x8d2a4c8a);
    assert State(a, b, c, d) == Steps(u, 16, 16, s, x);
    r := State(a, b, c, d);
  }

  method RoundThree<W>(u: Updates<W>, s: State<W>, x: seq<W>) returns (r: State<W>)
    requires |x| == 16
    ensures r == Steps(u, 32, 16, s, x)
  {
    var a, b, c, d := s.a, s.b, s.c, s.d;
    a := u.hh(a, b, c, d, x[5], 4, 0xfffa3942);
    assert State(d, a, b, c) == Steps(u, 32, 1, s, x);
    d := u.hh(d, a, b, c, x[8], 11, 0x8771f681);
    assert State(c, d, a, b) == Steps(u, 32, 2, s, x);
    c := u.hh(c, d, a, b, x[11], 16, 0x6d9d6122);
    assert State(b, c, d, a) == Steps(u, 32, 3, s, x);
    b := u.hh(b, c, d, a, x[14], 23, 0xfde5380c);
    assert State(a, b, c, d) == Steps(u, 32, 4, s, x);
    a := u.hh(a, b, c, d, x[1], 4, 0xa4beea44);
    assert State(d, a, b, c) == Steps(u, 32, 5, s, x);
    d := u.hh(d, a, b, c, x[4], 11, 0x4bdecfa9);
    assert State(c, d, a, b) == Steps(u, 32, 6, s, x);
    c := u.hh(c, d, a, b, x[7], 16, 0xf6bb4b60);
    assert State(b, c, d, a) == Steps(u, 32, 7, s, x);
    b := u.hh(b, c, d, a, x[10], 23, 0xbebfbc70);
    assert State(a, b, c, d) == Steps(u, 32, 8, s, x);
    a := u.hh(a, b, c, d, x[13], 4, 0x289b7ec6);
    assert State(d, a, b, c) == Steps(u, 32, 9, s, x);
    d := u.hh(d, a, b, c, x[0], 11, 0xeaa127fa);
    assert State(c, d, a, b) == Steps(u, 32, 10, s, x);
    c := u.hh(c, d, a, b, x[3], 16, 0xd4ef3085);
    assert State(b, c, d, a) == Steps(u, 32, 11, s, x);
    b := u.hh(b, c, d, a, x[6], 23, 0x04881d05);
    assert State(a, b, c, d) == Steps(u, 32, 12, s, x);
    a := u.hh(a, b, c, d, x[9], 4, 0xd9d4d039);
    assert State(d, a, b, c) == Steps(u, 32, 13, s, x);
    d := u.hh(d, a, b, c, x[12], 11, 0xe6db99e5);
    assert State(c, d, a, b) == Steps(u, 32, 14, s, x);
    c := u.hh(c, d, a, b, x[15], 16, 0x1fa27cf8);
    assert State(b, c, d, a) == Steps(u, 32, 15, s, x);
    b := u.hh(b, c, d, a, x[2], 23, 0xc4ac5665);
    assert State(a, b, c, d) == Steps(u, 32, 16, s, x);
    r := State(a, b, c, d);
  }

  method RoundFour<W>(u: Updates<W>, s: State<W>, x: seq<W>) returns (r: State<W>)
    requires |x| == 16
    ensures r == Steps(u, 48, 16, s, x)
  {
    var a, b, c, d := s.a, s.b, s.c, s.d;
    a := u.ii(a, b, c, d, x[0], 6, 0xf4292244);
    assert State(d, a, b, c) == Steps(u, 48, 1, s, x);
    d := u.ii(d, a, b, c, x[7], 10, 0x432aff97);
    assert State(c, d, a, b) == Steps(u, 48, 2, s, x);
    c := u.ii(c, d, a, b, x[14], 15, 0xab9423a7);
    assert State(b, c, d, a) == Steps(u, 48, 3, s, x);
    b := u.ii(b, c, d, a, x[5], 21, 0xfc93a039);
    assert State(a, b, c, d) == Steps(u, 48, 4, s, x);
    a := u.ii(a, b, c, d, x[12], 6, 0x655b59c3);
    assert State(d, a, b, c) == Steps(u, 48, 5, s, x);
    d := u.ii(d, a, b, c, x[3], 10, 0x8f0ccc92);
    assert State(c, d, a, b) == Steps(u, 48, 6, s, x);
    c := u.ii(c, d, a, b, x[10], 15, 0xffeff47d);
    assert State(b, c, d, a) == Steps(u, 48, 7, s, x);
    b := u.ii(b, c, d, a, x[1], 21, 0x85845dd1);
    assert State(a, b, c, d) == Steps(u, 48, 8, s, x);
    a := u.ii(a, b, c, d, x[8], 6, 0x6fa87e4f);
    assert State(d, a, b, c) == Steps(u, 48, 9, s, x);
    d := u.ii(d, a, b, c, x[15], 10, 0xfe2ce6e0);
    assert State(c, d, a, b) == Steps(u, 48, 10, s, x);
    c := u.ii(c, d, a, b, x[6], 15, 0xa3014314);
    assert State(b, c, d, a) == Steps(u, 48, 11, s, x);
    b := u.ii(b, c, d, a, x[13], 21, 0x4e0811a1);
    assert State(a, b, c, d) == Steps(u, 48, 12, s, x);
    a := u.ii(a, b, c, d, x[4], 6, 0xf7537e82);
    assert State(d, a, b, c) == Steps(u, 48, 13, s, x);
    d := u.ii(d, a, b, c, x[11], 10, 0xbd3af235);
    assert State(c, d, a, b) == Steps(u, 48, 14, s, x);
    c := u.ii(c, d, a, b, x[2], 15, 0x2ad7d2bb);
    assert State(b, c, d, a) == Steps(u, 48, 15, s, x);
    b := u.ii(b, c, d, a, x[9], 21, 0xeb86d391);
    assert State(a, b, c, d) == Steps(u, 48, 16, s, x);
    r := State(a, b, c, d);
  }

  method ScrambleBlock<W>(u: Updates<W>, s: State<W>, x: seq<W>) returns (r: State<W>)
    requires |x| == 16
    ensures r == Compress(u, s, x)
  {
    r := RoundOne(u, s, x);
    r := RoundTwo(u, r, x);
    r := RoundThree(u, r, x);
    r := RoundFour(u, r, x);
  }
}
