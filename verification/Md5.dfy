/** MD5 as in RFC 1321: the arithmetic on 32-bit words, and the loop over the blocks. */
module Md5 {
  import opened Common
  import opened Md5Block
  import opened Md5Padding

  type Word = bv32

  // ----- 32-bit words -----

  function F(x: Word, y: Word, z: Word): Word {
    (x & y) | (!x & z)
  }

  function G(x: Word, y: Word, z: Word): Word {
    (x & z) | (y & !z)
  }

  function H(x: Word, y: Word, z: Word): Word {
    x ^ y ^ z
  }

  function I(x: Word, y: Word, z: Word): Word {
    y ^ (x | !z)
  }

  function RotateLeft(x: Word, n: Turn): Word {
    var k := n as bv6;
    (x << k) | (x >> (32 - k))
  }

  // What section 3.4 of RFC 1321 says of these functions, for the bits of any mask m.

  predicate AllSet(w: Word, m: Word) {
    w & m == m
  }

  predicate AllClear(w: Word, m: Word) {
    w & m == 0
  }

  predicate Agree(v: Word, w: Word, m: Word) {
    v & m == w & m
  }

  /** If x then y else z. */
  lemma BitsOfF(x: Word, y: Word, z: Word, m: Word)
    ensures AllSet(x, m) ==> Agree(F(x, y, z), y, m)
    ensures AllClear(x, m) ==> Agree(F(x, y, z), z, m)
  {
  }

  /** If z then x else y. */
  lemma BitsOfG(x: Word, y: Word, z: Word, m: Word)
    ensures AllSet(z, m) ==> Agree(G(x, y, z), x, m)
    ensures AllClear(z, m) ==> Agree(G(x, y, z), y, m)
  {
  }

  /** The parity: x where y and z agree, its complement where they differ. */
  lemma BitsOfH(x: Word, y: Word, z: Word, m: Word)
    ensures Agree(y, z, m) ==> Agree(H(x, y, z), x, m)
    ensures Agree(y, !z, m) ==> Agree(H(x, y, z), !x, m)
  {
  }

  /** The complement of y where x is set or z is not, and y elsewhere. */
  lemma BitsOfI(x: Word, y: Word, z: Word, m: Word)
    ensures AllSet(x, m) || AllClear(z, m) ==> Agree(I(x, y, z), !y, m)
    ensures AllClear(x, m) && AllSet(z, m) ==> Agree(I(x, y, z), y, m)
  {
    OrOfSet(x, !z, m);
    OrOfClear(x, z, m);
    OrOfBoth(x, z, m);
    BitsOfXor(y, x | !z, m);
  }

  lemma OrOfSet(x: Word, w: Word, m: Word)
    ensures AllSet(x, m) ==> AllSet(x | w, m)
  {
  }

  lemma OrOfClear(x: Word, z: Word, m: Word)
    ensures AllClear(z, m) ==> AllSet(x | !z, m)
  {
  }

  lemma OrOfBoth(x: Word, z: Word, m: Word)
    ensures AllClear(x, m) && AllSet(z, m) ==> AllClear(x | !z, m)
  {
  }

  lemma BitsOfXor(y: Word, w: Word, m: Word)
    ensures AllSet(w, m) ==> Agree(y ^ w, !y, m)
    ensures AllClear(w, m) ==> Agree(y ^ w, y, m)
  {
  }

  lemma RotatedBit(x: Word, k: bv6, i: bv6)
    requires 0 < k < 32 && i < 32
    ensures (((x << k) | (x >> (32 - k))) >> ((i + k) & 31)) & 1 == (x >> i) & 1
  {
  }

  /** Bit i moves to bit i + n modulo 32. */
  lemma BitsOfRotation(x: Word, n: Turn, i: bv6)
    requires i < 32
    ensures (RotateLeft(x, n) >> ((i + n as bv6) & 31)) & 1 == (x >> i) & 1
  {
    RotatedBit(x, n as bv6, i);
  }

  /** a = b + ((a + f + x + t) <<< s), as section 3.4 of RFC 1321 has it. */
  function Mix(f: Word, a: Word, b: Word, x: Word, s: Turn, t: Constant): Word {
    b + RotateLeft(a + f + x + t as Word, s)
  }

  lemma OrderOfSums(f: Word, a: Word, b: Word, x: Word, s: Turn, t: Constant)
    ensures RotateLeft(a + (f + x + t as Word), s) + b == Mix(f, a, b, x, s, t)
  {
  }

  function FF(a: Word, b: Word, c: Word, d: Word, x: Word, s: Turn, t: Constant): (r: Word)
    ensures r == Mix(F(b, c, d), a, b, x, s, t)
  {
    OrderOfSums(F(b, c, d), a, b, x, s, t);
    RotateLeft(a + (F(b, c, d) + x + t as Word), s) + b
  }

  function GG(a: Word, b: Word, c: Word, d: Word, x: Word, s: Turn, t: Constant): (r: Word)
    ensures r == Mix(G(b, c, d), a, b, x, s, t)
  {
    OrderOfSums(G(b, c, d), a, b, x, s, t);
    RotateLeft(a + (G(b, c, d) + x + t as Word), s) + b
  }

  function HH(a: Word, b: Word, c: Word, d: Word, x: Word, s: Turn, t: Constant): (r: Word)
    ensures r == Mix(H(b, c, d), a, b, x, s, t)
  {
    OrderOfSums(H(b, c, d), a, b, x, s, t);
    RotateLeft(a + (H(b, c, d) + x + t as Word), s) + b
  }

  function II(a: Word, b: Word, c: Word, d: Word, x: Word, s: Turn, t: Constant): (r: Word)
    ensures r == Mix(I(b, c, d), a, b, x, s, t)
  {
    OrderOfSums(I(b, c, d), a, b, x, s, t);
    RotateLeft(a + (I(b, c, d) + x + t as Word), s) + b
  }

  const WORDS: Updates<Word> := Updates(FF, GG, HH, II)

  /** A word from four bytes, low-order byte first, and back. */
  function Join(b0: bv8, b1: bv8, b2: bv8, b3: bv8): Word {
    (b3 as Word << 24) | (b2 as Word << 16) | (b1 as Word << 8) | b0 as Word
  }

  function Split(w: Word): (bv8, bv8, bv8, bv8) {
    ((w & 0xFF) as bv8, ((w >> 8) & 0xFF) as bv8, ((w >> 16) & 0xFF) as bv8, ((w >> 24) & 0xFF) as bv8)
  }

  lemma SplitUndoesJoin(b0: bv8, b1: bv8, b2: bv8, b3: bv8)
    ensures Split(Join(b0, b1, b2, b3)) == (b0, b1, b2, b3)
  {
  }

  lemma JoinUndoesSplit(w: Word)
    ensures var b := Split(w); Join(b.0, b.1, b.2, b.3) == w
  {
  }

  function WordOf(b0: Byte, b1: Byte, b2: Byte, b3: Byte): Word {
    Join(b0 as bv8, b1 as bv8, b2 as bv8, b3 as bv8)
  }

  function BytesOf(w: Word): (r: seq<Byte>)
    ensures |r| == 4
  {
    var b := Split(w);
    [b.0 as int, b.1 as int, b.2 as int, b.3 as int]
  }

  // ----- md5 -----

  datatype Md5Error = NullInput

  const START: State<Word> := State(0x67452301, 0xefcdab89, 0x98badcfe, 0x10325476)

  /** The start words of section 3.3, which the RFC gives by their bytes, low-order byte first. */
  lemma StartBytes()
    ensures Split(START.a) == (0x01, 0x23, 0x45, 0x67) && Split(START.b) == (0x89, 0xab, 0xcd, 0xef)
    ensures Split(START.c) == (0xfe, 0xdc, 0xba, 0x98) && Split(START.d) == (0x76, 0x54, 0x32, 0x10)
  {
  }

  function WordAt(p: seq<Byte>, k: nat): Word
    requires k + 4 <= |p|
  {
    WordOf(p[k], p[k + 1], p[k + 2], p[k + 3])
  }

  type Block = x: seq<Word> | |x| == 16 witness seq(16, _ => 0)

  function BlockAt(p: seq<Byte>, i: nat): Block
    requires 64 * i + 64 <= |p|
  {
    seq(16, j requires 0 <= j < 16 => WordAt(p, 4 * (j + 16 * i)))
  }

  function AddWords(s: State<Word>, t: State<Word>): State<Word> {
    State(s.a + t.a, s.b + t.b, s.c + t.c, s.d + t.d)
  }

  function Next(s: State<Word>, x: Block): State<Word> {
    AddWords(Compress(WORDS, s, x), s)
  }

  ghost predicate IsSum(t: State<Word>, r: State<Word>, s: State<Word>) {
    t.a == s.a + r.a && t.b == s.b + r.b && t.c == s.c + r.c && t.d == s.d + r.d
  }

  /** Each old word is added to the scrambled one. */
  lemma NextAdds(s: State<Word>, x: Block)
    ensures IsSum(Next(s, x), Compress(WORDS, s, x), s)
  {
    WordsAdded(Compress(WORDS, s, x), s);
  }

  lemma WordsAdded(r: State<Word>, s: State<Word>)
    ensures IsSum(AddWords(r, s), r, s)
  {
  }

  /** The words after the first n blocks of p, for any way of going on from one block to the next. */
  function Chain(next: (State<Word>, Block) -> State<Word>, p: seq<Byte>, n: nat): State<Word>
    requires 64 * n <= |p|
  {
    if n == 0 then START else next(Chain(next, p, n - 1), BlockAt(p, n - 1))
  }

  lemma SameWord(p: seq<Byte>, k: nat, q: seq<Byte>, l: nat)
    requires k + 4 <= |p| && l + 4 <= |q|
    requires p[k] == q[l] && p[k + 1] == q[l + 1] && p[k + 2] == q[l + 2] && p[k + 3] == q[l + 3]
    ensures WordAt(p, k) == WordAt(q, l)
  {
  }

  ghost predicate SameBlocks(p: seq<Byte>, i: nat, q: seq<Byte>, j: nat)
    requires 64 * i + 64 <= |p| && 64 * j + 64 <= |q|
  {
    BlockAt(p, i) == BlockAt(q, j)
  }

  lemma SameBlock(p: seq<Byte>, i: nat, q: seq<Byte>, j: nat)
    requires 64 * i + 64 <= |p| && 64 * j + 64 <= |q|
    requires p[64 * i..64 * i + 64] == q[64 * j..64 * j + 64]
    ensures SameBlocks(p, i, q, j)
  {
    forall n | 0 <= n < 16
      ensures BlockAt(p, i)[n] == BlockAt(q, j)[n]
    {
      SameBytes(p, 64 * i, q, 64 * j, 4 * n);
      SameWord(p, 4 * (n + 16 * i), q, 4 * (n + 16 * j));
    }
  }

  lemma SameBytes(p: seq<Byte>, k: nat, q: seq<Byte>, l: nat, m: nat)
    requires m + 4 <= 64 && k + 64 <= |p| && l + 64 <= |q| && p[k..k + 64] == q[l..l + 64]
    ensures p[k + m] == q[l + m] && p[k + m + 1] == q[l + m + 1]
    ensures p[k + m + 2] == q[l + m + 2] && p[k + m + 3] == q[l + m + 3]
  {
    var g := p[k..k + 64];
    assert g[m] == p[k + m] == q[l + m] && g[m + 1] == p[k + m + 1] == q[l + m + 1];
    assert g[m + 2] == p[k + m + 2] == q[l + m + 2] && g[m + 3] == p[k + m + 3] == q[l + m + 3];
  }

  lemma BlockOfPrefix(p: seq<Byte>, q: seq<Byte>, n: nat)
    requires 64 * n + 64 <= |p|
    ensures SameBlocks(p + q, n, p, n)
  {
    assert (p + q)[64 * n..64 * n + 64] == p[64 * n..64 * n + 64];
    SameBlock(p + q, n, p, n);
  }

  lemma BlockBehind(p: seq<Byte>, block: seq<Byte>)
    requires |p| % 64 == 0 && |block| == 64
    ensures SameBlocks(p + block, |p| / 64, block, 0)
  {
    var n := |p| / 64;
    assert (p + block)[64 * n..64 * n + 64] == block[0..64];
    SameBlock(p + block, n, block, 0);
  }

  ghost predicate SameChain(next: (State<Word>, Block) -> State<Word>, p: seq<Byte>, q: seq<Byte>, n: nat)
    requires 64 * n <= |p| && 64 * n <= |q|
  {
    Chain(next, p, n) == Chain(next, q, n)
  }

  ghost predicate IsChain(s: State<Word>, next: (State<Word>, Block) -> State<Word>, p: seq<Byte>, n: nat)
    requires 64 * n <= |p|
  {
    s == Chain(next, p, n)
  }

  ghost predicate IsBlock(x: seq<Word>, p: seq<Byte>, n: nat)
    requires 64 * n + 64 <= |p|
  {
    x == BlockAt(p, n)
  }

  lemma DigestOfChain(next: (State<Word>, Block) -> State<Word>, p: seq<Byte>, s: State<Word>)
    requires IsChain(s, next, p, |p| / 64)
    ensures Digest(next, p) == Output(s)
  {
  }

  ghost predicate IsNext(t: State<Word>, next: (State<Word>, Block) -> State<Word>, s: State<Word>, x: Block) {
    t == next(s, x)
  }

  lemma ChainNext(next: (State<Word>, Block) -> State<Word>, p: seq<Byte>, n: nat,
                  s: State<Word>, x: Block, t: State<Word>)
    requires 64 * n + 64 <= |p| && IsChain(s, next, p, n) && IsBlock(x, p, n) && IsNext(t, next, s, x)
    ensures IsChain(t, next, p, n + 1)
  {
  }

  lemma SameChainNext(next: (State<Word>, Block) -> State<Word>, p: seq<Byte>, q: seq<Byte>, n: nat)
    requires 64 * n + 64 <= |p| && 64 * n + 64 <= |q|
    requires SameChain(next, p, q, n) && SameBlocks(p, n, q, n)
    ensures SameChain(next, p, q, n + 1)
  {
  }

  lemma {:induction false} ChainOfPrefix(next: (State<Word>, Block) -> State<Word>, p: seq<Byte>, q: seq<Byte>, n: nat)
    requires 64 * n <= |p|
    ensures SameChain(next, p + q, p, n)
  {
    if n > 0 {
      ChainOfPrefix(next, p, q, n - 1);
      BlockOfPrefix(p, q, n - 1);
      SameChainNext(next, p + q, p, n - 1);
    }
  }

  function Output(s: State<Word>): seq<Byte> {
    BytesOf(s.a) + BytesOf(s.b) + BytesOf(s.c) + BytesOf(s.d)
  }

  /** Byte 4 * k + j of the output is byte j of word k. */
  lemma OutputBytes(s: State<Word>, k: int, j: int)
    requires 0 <= k < 4 && 0 <= j < 4
    ensures |Output(s)| == 16
    ensures Output(s)[4 * k + j] == BytesOf([s.a, s.b, s.c, s.d][k])[j]
  {
    FourInARow(BytesOf(s.a), BytesOf(s.b), BytesOf(s.c), BytesOf(s.d), k, j);
  }

  lemma FourInARow<T>(a: seq<T>, b: seq<T>, c: seq<T>, d: seq<T>, k: int, j: int)
    requires |a| == |b| == |c| == |d| == 4 && 0 <= k < 4 && 0 <= j < 4
    ensures |a + b + c + d| == 16
    ensures (a + b + c + d)[4 * k + j]
            == if k == 0 then a[j] else if k == 1 then b[j] else if k == 2 then c[j] else d[j]
  {
  }

  function Digest(next: (State<Word>, Block) -> State<Word>, p: seq<Byte>): seq<Byte> {
    Output(Chain(next, p, |p| / 64))
  }

  /** The digest of p and one more block: the block's own words are scrambled onto what p has left. */
  ghost predicate Continues(next: (State<Word>, Block) -> State<Word>, p: seq<Byte>, block: seq<Byte>)
    requires |p| % 64 == 0 && |block| == 64
  {
    Digest(next, p + block) == Output(next(Chain(next, p, |p| / 64), BlockAt(block, 0)))
  }

  /** The digest starts from START, and every further block continues it. */
  lemma DigestContinues(next: (State<Word>, Block) -> State<Word>, p: seq<Byte>, block: seq<Byte>)
    requires |p| % 64 == 0 && |block| == 64
    ensures Digest(next, []) == Output(START)
    ensures Continues(next, p, block)
  {
    ChainOfPrefix(next, p, block, |p| / 64);
    BlockBehind(p, block);
    ContinuesFrom(next, p, block);
  }

  lemma ContinuesFrom(next: (State<Word>, Block) -> State<Word>, p: seq<Byte>, block: seq<Byte>)
    requires |p| % 64 == 0 && |block| == 64
    requires SameChain(next, p + block, p, |p| / 64) && SameBlocks(p + block, |p| / 64, block, 0)
    ensures Continues(next, p, block)
  {
    assert |p + block| / 64 == |p| / 64 + 1;
  }

  method Md5(input: array?<Byte>, len: nat) returns (r: Result<seq<Byte>, Md5Error>)
    requires input != null ==> len <= input.Length
    ensures r == if input == null then Failure(NullInput) else Success(Digest(Next, Padded(input[..len])))
  {
    if input == null {
      return Failure(NullInput);
    }
    var extra := 64 - len % 64;
    if extra <= 8 {
      extra := extra + 64;
    }
    ExtraBytes(len);
    var temp := new Byte[extra + len];
    var blocks := (extra + len) / 64;
    PadBuffer(input, len, temp);
    var digest := Process(temp, blocks);
    return Success(digest);
  }

  method Process(temp: array<Byte>, blocks: nat) returns (digest: seq<Byte>)
    requires blocks == temp.Length / 64
    ensures digest == Digest(Next, temp[..])
  {
    var s := START;
    var x := new Word[16];
    for i := 0 to blocks
      invariant IsChain(s, Next, temp[..], i)
    {
      s := ProcessBlock(temp, i, x, s);
    }
    DigestOfChain(Next, temp[..], s);
    return Output(s);
  }

  /** One iteration, over the array x that all iterations share. */
  method ProcessBlock(temp: array<Byte>, i: nat, x: array<Word>, s: State<Word>) returns (r: State<Word>)
    requires 64 * i + 64 <= temp.Length && x.Length == 16 && IsChain(s, Next, temp[..], i)
    modifies x
    ensures IsChain(r, Next, temp[..], i + 1)
  {
    LoadBlock(temp, i, x);
    r := AddBlock(s, x[..]);
    ChainNext(Next, temp[..], i, s, x[..], r);
  }

  method AddBlock(s: State<Word>, x: Block) returns (r: State<Word>)
    ensures IsNext(r, Next, s, x)
  {
    r := ScrambleBlock(WORDS, s, x);
    r := AddWords(r, s);
  }

  method LoadBlock(temp: array<Byte>, i: nat, x: array<Word>)
    requires 64 * i + 64 <= temp.Length && x.Length == 16
    modifies x
    ensures IsBlock(x[..], temp[..], i)
  {
    for j := 0 to 16
      invariant forall l :: 0 <= l < j ==> x[l] == WordAt(temp[..], 4 * (l + 16 * i))
    {
      var k := 4 * (j + 16 * i);
      x[j] := WordOf(temp[k], temp[k + 1], temp[k + 2], temp[k + 3]);
    }
  }
}
