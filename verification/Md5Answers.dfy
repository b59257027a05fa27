/**
 * Two of the known answers of appendix A.5 of RFC 1321, followed through the sixty-four steps.
 * For each round a predicate gives the results of the sixteen updates on the very words that
 * occur; a lemma for any update functions with these results gives the state after the round.
 */
module Md5Answers {
  import opened Common
  import opened Md5Block
  import opened Md5Padding
  import opened Md5

  lemma ZeroWord(p: seq<Byte>, k: nat)
    requires k + 4 <= |p| && p[k] == p[k + 1] == p[k + 2] == p[k + 3] == 0
    ensures WordAt(p, k) == 0
  {
    NoBytes();
  }

  lemma WordIs(p: seq<Byte>, k: nat, b0: Byte, b1: Byte, b2: Byte, b3: Byte)
    requires k + 4 <= |p| && p[k] == b0 && p[k + 1] == b1 && p[k + 2] == b2 && p[k + 3] == b3
    ensures WordAt(p, k) == WordOf(b0, b1, b2, b3)
  {
  }

  lemma NoBytes()
    ensures WordOf(0, 0, 0, 0) == 0
  {
  }

  // ----- The message "" -----

  /** The one block of the padded message. */
  predicate IsEmpty(x: seq<Word>) {
    && |x| == 16
    && x[0] == 0x00000080 && x[1] == 0 && x[2] == 0 && x[3] == 0
    && x[4] == 0 && x[5] == 0 && x[6] == 0 && x[7] == 0
    && x[8] == 0 && x[9] == 0 && x[10] == 0 && x[11] == 0
    && x[12] == 0 && x[13] == 0 && x[14] == 0 && x[15] == 0
  }

  predicate EmptyRoundOne(u: Updates<Word>) {
    && u.ff(0x67452301, 0xefcdab89, 0x98badcfe, 0x10325476, 0x00000080, 7, 0xd76aa478) == 0xa5202774
    && u.ff(0x10325476, 0xa5202774, 0xefcdab89, 0x98badcfe, 0, 12, 0xe8c7b756) == 0xf59592dd
    && u.ff(0x98badcfe, 0xf59592dd, 0xa5202774, 0xefcdab89, 0, 17, 0x242070db) == 0xe7f06b23
    && u.ff(0xefcdab89, 0xe7f06b23, 0xf59592dd, 0xa5202774, 0, 22, 0xc1bdceee) == 0x1b163203
    && u.ff(0xa5202774, 0x1b163203, 0xe7f06b23, 0xf59592dd, 0, 7, 0xf57c0faf) == 0x32033344
    && u.ff(0xf59592dd, 0x32033344, 0x1b163203, 0xe7f06b23, 0, 12, 0x4787c62a) == 0x2f35d494
    && u.ff(0xe7f06b23, 0x2f35d494, 0x32033344, 0x1b163203, 0, 17, 0xa8304613) == 0xf5b158db
    && u.ff(0x1b163203, 0xf5b158db, 0x2f35d494, 0x32033344, 0, 22, 0xfd469501) == 0x9bc13ce9
    && u.ff(0x32033344, 0x9bc13ce9, 0xf5b158db, 0x2f35d494, 0, 7, 0x698098d8) == 0x3893b991
    && u.ff(0x2f35d494, 0x3893b991, 0x9bc13ce9, 0xf5b158db, 0, 12, 0x8b44f7af) == 0xfce4a312
    && u.ff(0xf5b158db, 0xfce4a312, 0x3893b991, 0x9bc13ce9, 0, 17, 0xffff5bb1) == 0xe1ef0576
    && u.ff(0x9bc13ce9, 0xe1ef0576, 0xfce4a312, 0x3893b991, 0, 22, 0x895cd7be) == 0x70768a29
    && u.ff(0x3893b991, 0x70768a29, 0xe1ef0576, 0xfce4a312, 0, 7, 0x6b901122) == 0xf56c7cf1
    && u.ff(0xfce4a312, 0xf56c7cf1, 0x70768a29, 0xe1ef0576, 0, 12, 0xfd987193) == 0x374943a7
    && u.ff(0xe1ef0576, 0x374943a7, 0xf56c7cf1, 0x70768a29, 0, 17, 0xa679438e) == 0x5aa53f75
    && u.ff(0x70768a29, 0x5aa53f75, 0x374943a7, 0xf56c7cf1, 0, 22, 0x49b40821) == 0xd6819c6a
  }

  lemma EmptyRoundOneSteps(u: Updates<Word>, x: seq<Word>)
    requires EmptyRoundOne(u) && IsEmpty(x)
    ensures Steps(u, 0, 16, State(0x67452301, 0xefcdab89, 0x98badcfe, 0x10325476), x)
         == State(0xf56c7cf1, 0xd6819c6a, 0x5aa53f75, 0x374943a7)
  {
    var s := State(0x67452301, 0xefcdab89, 0x98badcfe, 0x10325476);
    assert Steps(u, 0, 1, s, x) == State(0x10325476, 0xa5202774, 0xefcdab89, 0x98badcfe);
    assert Steps(u, 0, 2, s, x) == State(0x98badcfe, 0xf59592dd, 0xa5202774, 0xefcdab89);
    assert Steps(u, 0, 3, s, x) == State(0xefcdab89, 0xe7f06b23, 0xf59592dd, 0xa5202774);
    assert Steps(u, 0, 4, s, x) == State(0xa5202774, 0x1b163203, 0xe7f06b23, 0xf59592dd);
    assert Steps(u, 0, 5, s, x) == State(0xf59592dd, 0x32033344, 0x1b163203, 0xe7f06b23);
    assert Steps(u, 0, 6, s, x) == State(0xe7f06b23, 0x2f35d494, 0x32033344, 0x1b163203);
    assert Steps(u, 0, 7, s, x) == State(0x1b163203, 0xf5b158db, 0x2f35d494, 0x32033344);
    assert Steps(u, 0, 8, s, x) == State(0x32033344, 0x9bc13ce9, 0xf5b158db, 0x2f35d494);
    assert Steps(u, 0, 9, s, x) == State(0x2f35d494, 0x3893b991, 0x9bc13ce9, 0xf5b158db);
    assert Steps(u, 0, 10, s, x) == State(0xf5b158db, 0xfce4a312, 0x3893b991, 0x9bc13ce9);
    assert Steps(u, 0, 11, s, x) == State(0x9bc13ce9, 0xe1ef0576, 0xfce4a312, 0x3893b991);
    assert Steps(u, 0, 12, s, x) == State(0x3893b991, 0x70768a29, 0xe1ef0576, 0xfce4a312);
    assert Steps(u, 0, 13, s, x) == State(0xfce4a312, 0xf56c7cf1, 0x70768a29, 0xe1ef0576);
    assert Steps(u, 0, 14, s, x) == State(0xe1ef0576, 0x374943a7, 0xf56c7cf1, 0x70768a29);
    assert Steps(u, 0, 15, s, x) == State(0x70768a29, 0x5aa53f75, 0x374943a7, 0xf56c7cf1);
  }

  lemma EmptyRoundOneWords(x: seq<Word>)
    requires IsEmpty(x)
    ensures Steps(WORDS, 0, 16, State(0x67452301, 0xefcdab89, 0x98badcfe, 0x10325476), x)
         == State(0xf56c7cf1, 0xd6819c6a, 0x5aa53f75, 0x374943a7)
  {
    assert EmptyRoundOne(WORDS);
    EmptyRoundOneSteps(WORDS, x);
  }

  predicate EmptyRoundTwo(u: Updates<Word>) {
    && u.gg(0xf56c7cf1, 0xd6819c6a, 0x5aa53f75, 0x374943a7, 0, 5, 0xf61e2562) == 0x1c7d7513
    && u.gg(0x374943a7, 0x1c7d7513, 0xd6819c6a, 0x5aa53f75, 0, 9, 0xc040b340) == 0x7bd57a3a
    && u.gg(0x5aa53f75, 0x7bd57a3a, 0x1c7d7513, 0xd6819c6a, 0, 14, 0x265e5a51) == 0xc095f13a
    && u.gg(0xd6819c6a, 0xc095f13a, 0x7bd57a3a, 0x1c7d7513, 0x00000080, 20, 0xe9b6c7aa) == 0xbd782e17
    && u.gg(0x1c7d7513, 0xbd782e17, 0xc095f13a, 0x7bd57a3a, 0, 5, 0xd62f105d) == 0x3d1e3e6c
    && u.gg(0x7bd57a3a, 0x3d1e3e6c, 0xbd782e17, 0xc095f13a, 0, 9, 0x02441453) == 0x68b7b3e3
    && u.gg(0xc095f13a, 0x68b7b3e3, 0x3d1e3e6c, 0xbd782e17, 0, 14, 0xd8a1e681) == 0xeb41643e
    && u.gg(0xbd782e17, 0xeb41643e, 0x68b7b3e3, 0x3d1e3e6c, 0, 20, 0xe7d3fbc8) == 0xe422531a
    && u.gg(0x3d1e3e6c, 0xe422531a, 0xeb41643e, 0x68b7b3e3, 0, 5, 0x21e1cde6) == 0x306ec122
    && u.gg(0x68b7b3e3, 0x306ec122, 0xe422531a, 0xeb41643e, 0, 9, 0xc33707d6) == 0xd28c77c2
    && u.gg(0xeb41643e, 0xd28c77c2, 0x306ec122, 0xe422531a, 0, 14, 0xf4d50d87) == 0xa3c663da
    && u.gg(0xe422531a, 0xa3c663da, 0xd28c77c2, 0x306ec122, 0, 20, 0x455a14ed) == 0xa0572807
    && u.gg(0x306ec122, 0xa0572807, 0xa3c663da, 0xd28c77c2, 0, 5, 0xa9e3e905) == 0x13707036
    && u.gg(0xd28c77c2, 0x13707036, 0xa0572807, 0xa3c663da, 0, 9, 0xfcefa3f8) == 0xae7813db
    && u.gg(0xa3c663da, 0xae7813db, 0x13707036, 0xa0572807, 0, 14, 0x676f02d9) == 0x1c31c384
    && u.gg(0xa0572807, 0x1c31c384, 0xae7813db, 0x13707036, 0, 20, 0x8d2a4c8a) == 0xa2205f1f
  }

  lemma EmptyRoundTwoSteps(u: Updates<Word>, x: seq<Word>)
    requires EmptyRoundTwo(u) && IsEmpty(x)
    ensures Steps(u, 16, 16, State(0xf56c7cf1, 0xd6819c6a, 0x5aa53f75, 0x374943a7), x)
         == State(0x13707036, 0xa2205f1f, 0x1c31c384, 0xae7813db)
  {
    var s := State(0xf56c7cf1, 0xd6819c6a, 0x5aa53f75, 0x374943a7);
    assert Steps(u, 16, 1, s, x) == State(0x374943a7, 0x1c7d7513, 0xd6819c6a, 0x5aa53f75);
    assert Steps(u, 16, 2, s, x) == State(0x5aa53f75, 0x7bd57a3a, 0x1c7d7513, 0xd6819c6a);
    assert Steps(u, 16, 3, s, x) == State(0xd6819c6a, 0xc095f13a, 0x7bd57a3a, 0x1c7d7513);
    assert Steps(u, 16, 4, s, x) == State(0x1c7d7513, 0xbd782e17, 0xc095f13a, 0x7bd57a3a);
    assert Steps(u, 16, 5, s, x) == State(0x7bd57a3a, 0x3d1e3e6c, 0xbd782e17, 0xc095f13a);
    assert Steps(u, 16, 6, s, x) == State(0xc095f13a, 0x68b7b3e3, 0x3d1e3e6c, 0xbd782e17);
    assert Steps(u, 16, 7, s, x) == State(0xbd782e17, 0xeb41643e, 0x68b7b3e3, 0x3d1e3e6c);
    assert Steps(u, 16, 8, s, x) == State(0x3d1e3e6c, 0xe422531a, 0xeb41643e, 0x68b7b3e3);
    assert Steps(u, 16, 9, s, x) == State(0x68b7b3e3, 0x306ec122, 0xe422531a, 0xeb41643e);
    assert Steps(u, 16, 10, s, x) == State(0xeb41643e, 0xd28c77c2, 0x306ec122, 0xe422531a);
    assert Steps(u, 16, 11, s, x) == State(0xe422531a, 0xa3c663da, 0xd28c77c2, 0x306ec122);
    assert Steps(u, 16, 12, s, x) == State(0x306ec122, 0xa0572807, 0xa3c663da, 0xd28c77c2);
    assert Steps(u, 16, 13, s, x) == State(0xd28c77c2, 0x13707036, 0xa0572807, 0xa3c663da);
    assert Steps(u, 16, 14, s, x) == State(0xa3c663da, 0xae7813db, 0x13707036, 0xa0572807);
    assert Steps(u, 16, 15, s, x) == State(0xa0572807, 0x1c31c384, 0xae7813db, 0x13707036);
  }

  lemma EmptyRoundTwoWords(x: seq<Word>)
    requires IsEmpty(x)
    ensures Steps(WORDS, 16, 16, State(0xf56c7cf1, 0xd6819c6a, 0x5aa53f75, 0x374943a7), x)
         == State(0x13707036, 0xa2205f1f, 0x1c31c384, 0xae7813db)
  {
    assert EmptyRoundTwo(WORDS);
    EmptyRoundTwoSteps(WORDS, x);
  }

  predicate EmptyRoundThree(u: Updates<Word>) {
    && u.hh(0x13707036, 0xa2205f1f, 0x1c31c384, 0xae7813db, 0, 4, 0xfffa3942) == 0xdf63eaa1
    && u.hh(0xae7813db, 0xdf63eaa1, 0xa2205f1f, 0x1c31c384, 0, 11, 0x8771f681) == 0xc3689f5b
    && u.hh(0x1c31c384, 0xc3689f5b, 0xdf63eaa1, 0xa2205f1f, 0, 16, 0x6d9d6122) == 0x12f3e755
    && u.hh(0xa2205f1f, 0x12f3e755, 0xc3689f5b, 0xdf63eaa1, 0, 23, 0xfde5380c) == 0x004b6669
    && u.hh(0xdf63eaa1, 0x004b6669, 0x12f3e755, 0xc3689f5b, 0, 4, 0xa4beea44) == 0x5f7a9b2e
    && u.hh(0xc3689f5b, 0x5f7a9b2e, 0x004b6669, 0x12f3e755, 0, 11, 0x4bdecfa9) == 0xabc34e16
    && u.hh(0x12f3e755, 0xabc34e16, 0x5f7a9b2e, 0x004b6669, 0, 16, 0xf6bb4b60) == 0x91ca4cb7
    && u.hh(0x004b6669, 0x91ca4cb7, 0xabc34e16, 0x5f7a9b2e, 0, 23, 0xbebfbc70) == 0xc5dc8c15
    && u.hh(0x5f7a9b2e, 0xc5dc8c15, 0x91ca4cb7, 0xabc34e16, 0, 4, 0x289b7ec6) == 0x4497169d
    && u.hh(0xabc34e16, 0x4497169d, 0xc5dc8c15, 0x91ca4cb7, 0x00000080, 11, 0xeaa127fa) == 0x76fd93d4
    && u.hh(0x91ca4cb7, 0x76fd93d4, 0x4497169d, 0xc5dc8c15, 0, 16, 0xd4ef3085) == 0xfd95f243
    && u.hh(0xc5dc8c15, 0xfd95f243, 0x76fd93d4, 0x4497169d, 0, 23, 0x04881d05) == 0x0fe32453
    && u.hh(0x4497169d, 0x0fe32453, 0xfd95f243, 0x76fd93d4, 0, 4, 0xd9d4d039) == 0x3f55edfd
    && u.hh(0x76fd93d4, 0x3f55edfd, 0x0fe32453, 0xfd95f243, 0, 11, 0xe6db99e5) == 0x22a31f54
    && u.hh(0xfd95f243, 0x22a31f54, 0x3f55edfd, 0x0fe32453, 0, 16, 0x1fa27cf8) == 0x68d84ea2
    && u.hh(0x0fe32453, 0x68d84ea2, 0x22a31f54, 0x3f55edfd, 0, 23, 0xc4ac5665) == 0xca7d2dbd
  }

  lemma EmptyRoundThreeSteps(u: Updates<Word>, x: seq<Word>)
    requires EmptyRoundThree(u) && IsEmpty(x)
    ensures Steps(u, 32, 16, State(0x13707036, 0xa2205f1f, 0x1c31c384, 0xae7813db), x)
         == State(0x3f55edfd, 0xca7d2dbd, 0x68d84ea2, 0x22a31f54)
  {
    var s := State(0x13707036, 0xa2205f1f, 0x1c31c384, 0xae7813db);
    assert Steps(u, 32, 1, s, x) == State(0xae7813db, 0xdf63eaa1, 0xa2205f1f, 0x1c31c384);
    assert Steps(u, 32, 2, s, x) == State(0x1c31c384, 0xc3689f5b, 0xdf63eaa1, 0xa2205f1f);
    assert Steps(u, 32, 3, s, x) == State(0xa2205f1f, 0x12f3e755, 0xc3689f5b, 0xdf63eaa1);
    assert Steps(u, 32, 4, s, x) == State(0xdf63eaa1, 0x004b6669, 0x12f3e755, 0xc3689f5b);
    assert Steps(u, 32, 5, s, x) == State(0xc3689f5b, 0x5f7a9b2e, 0x004b6669, 0x12f3e755);
    assert Steps(u, 32, 6, s, x) == State(0x12f3e755, 0xabc34e16, 0x5f7a9b2e, 0x004b6669);
    assert Steps(u, 32, 7, s, x) == State(0x004b6669, 0x91ca4cb7, 0xabc34e16, 0x5f7a9b2e);
    assert Steps(u, 32, 8, s, x) == State(0x5f7a9b2e, 0xc5dc8c15, 0x91ca4cb7, 0xabc34e16);
    assert Steps(u, 32, 9, s, x) == State(0xabc34e16, 0x4497169d, 0xc5dc8c15, 0x91ca4cb7);
    assert Steps(u, 32, 10, s, x) == State(0x91ca4cb7, 0x76fd93d4, 0x4497169d, 0xc5dc8c15);
    assert Steps(u, 32, 11, s, x) == State(0xc5dc8c15, 0xfd95f243, 0x76fd93d4, 0x4497169d);
    assert Steps(u, 32, 12, s, x) == State(0x4497169d, 0x0fe32453, 0xfd95f243, 0x76fd93d4);
    assert Steps(u, 32, 13, s, x) == State(0x76fd93d4, 0x3f55edfd, 0x0fe32453, 0xfd95f243);
    assert Steps(u, 32, 14, s, x) == State(0xfd95f243, 0x22a31f54, 0x3f55edfd, 0x0fe32453);
    assert Steps(u, 32, 15, s, x) == State(0x0fe32453, 0x68d84ea2, 0x22a31f54, 0x3f55edfd);
  }

  lemma EmptyRoundThreeWords(x: seq<Word>)
    requires IsEmpty(x)
    ensures Steps(WORDS, 32, 16, State(0x13707036, 0xa2205f1f, 0x1c31c384, 0xae7813db), x)
         == State(0x3f55edfd, 0xca7d2dbd, 0x68d84ea2, 0x22a31f54)
  {
    assert EmptyRoundThree(WORDS);
    EmptyRoundThreeSteps(WORDS, x);
  }

  predicate EmptyRoundFour(u: Updates<Word>) {
    && u.ii(0x3f55edfd, 0xca7d2dbd, 0x68d84ea2, 0x22a31f54, 0x00000080, 6, 0xf4292244) == 0x93aa2577
    && u.ii(0x22a31f54, 0x93aa2577, 0xca7d2dbd, 0x68d84ea2, 0, 10, 0x432aff97) == 0x1688dc85
    && u.ii(0x68d84ea2, 0x1688dc85, 0x93aa2577, 0xca7d2dbd, 0, 15, 0xab9423a7) == 0xcd85b8cb
    && u.ii(0xca7d2dbd, 0xcd85b8cb, 0x1688dc85, 0x93aa2577, 0, 21, 0xfc93a039) == 0x561e0689
    && u.ii(0x93aa2577, 0x561e0689, 0xcd85b8cb, 0x1688dc85, 0, 6, 0x655b59c3) == 0x5625a114
    && u.ii(0x1688dc85, 0x5625a114, 0x561e0689, 0xcd85b8cb, 0, 10, 0x8f0ccc92) == 0x3450f42b
    && u.ii(0xcd85b8cb, 0x3450f42b, 0x5625a114, 0x561e0689, 0, 15, 0xffeff47d) == 0x392ad0d0
    && u.ii(0x561e0689, 0x392ad0d0, 0x3450f42b, 0x5625a114, 0, 21, 0x85845dd1) == 0x1e77fa61
    && u.ii(0x5625a114, 0x1e77fa61, 0x392ad0d0, 0x3450f42b, 0, 6, 0x6fa87e4f) == 0x474a9c8c
    && u.ii(0x3450f42b, 0x474a9c8c, 0x1e77fa61, 0x392ad0d0, 0, 10, 0xfe2ce6e0) == 0xdfce00bc
    && u.ii(0x392ad0d0, 0xdfce00bc, 0x474a9c8c, 0x1e77fa61, 0, 15, 0xa3014314) == 0x36594b14
    && u.ii(0x1e77fa61, 0x36594b14, 0xdfce00bc, 0x474a9c8c, 0, 21, 0x4e0811a1) == 0x30130182
    && u.ii(0x474a9c8c, 0x30130182, 0x36594b14, 0xdfce00bc, 0, 6, 0xf7537e82) == 0x7246fad3
    && u.ii(0xdfce00bc, 0x7246fad3, 0x30130182, 0x36594b14, 0, 10, 0xbd3af235) == 0x6e10a476
    && u.ii(0x36594b14, 0x6e10a476, 0x7246fad3, 0x30130182, 0, 15, 0x2ad7d2bb) == 0xff4ea3eb
    && u.ii(0x30130182, 0xff4ea3eb, 0x6e10a476, 0x7246fad3, 0, 21, 0xeb86d391) == 0x14e45506
  }

  lemma EmptyRoundFourSteps(u: Updates<Word>, x: seq<Word>)
    requires EmptyRoundFour(u) && IsEmpty(x)
    ensures Steps(u, 48, 16, State(0x3f55edfd, 0xca7d2dbd, 0x68d84ea2, 0x22a31f54), x)
         == State(0x7246fad3, 0x14e45506, 0xff4ea3eb, 0x6e10a476)
  {
    var s := State(0x3f55edfd, 0xca7d2dbd, 0x68d84ea2, 0x22a31f54);
    assert Steps(u, 48, 1, s, x) == State(0x22a31f54, 0x93aa2577, 0xca7d2dbd, 0x68d84ea2);
    assert Steps(u, 48, 2, s, x) == State(0x68d84ea2, 0x1688dc85, 0x93aa2577, 0xca7d2dbd);
    assert Steps(u, 48, 3, s, x) == State(0xca7d2dbd, 0xcd85b8cb, 0x1688dc85, 0x93aa2577);
    assert Steps(u, 48, 4, s, x) == State(0x93aa2577, 0x561e0689, 0xcd85b8cb, 0x1688dc85);
    assert Steps(u, 48, 5, s, x) == State(0x1688dc85, 0x5625a114, 0x561e0689, 0xcd85b8cb);
    assert Steps(u, 48, 6, s, x) == State(0xcd85b8cb, 0x3450f42b, 0x5625a114, 0x561e0689);
    assert Steps(u, 48, 7, s, x) == State(0x561e0689, 0x392ad0d0, 0x3450f42b, 0x5625a114);
    assert Steps(u, 48, 8, s, x) == State(0x5625a114, 0x1e77fa61, 0x392ad0d0, 0x3450f42b);
    assert Steps(u, 48, 9, s, x) == State(0x3450f42b, 0x474a9c8c, 0x1e77fa61, 0x392ad0d0);
    assert Steps(u, 48, 10, s, x) == State(0x392ad0d0, 0xdfce00bc, 0x474a9c8c, 0x1e77fa61);
    assert Steps(u, 48, 11, s, x) == State(0x1e77fa61, 0x36594b14, 0xdfce00bc, 0x474a9c8c);
    assert Steps(u, 48, 12, s, x) == State(0x474a9c8c, 0x30130182, 0x36594b14, 0xdfce00bc);
    assert Steps(u, 48, 13, s, x) == State(0xdfce00bc, 0x7246fad3, 0x30130182, 0x36594b14);
    assert Steps(u, 48, 14, s, x) == State(0x36594b14, 0x6e10a476, 0x7246fad3, 0x30130182);
    assert Steps(u, 48, 15, s, x) == State(0x30130182, 0xff4ea3eb, 0x6e10a476, 0x7246fad3);
  }

  lemma EmptyRoundFourWords(x: seq<Word>)
    requires IsEmpty(x)
    ensures Steps(WORDS, 48, 16, State(0x3f55edfd, 0xca7d2dbd, 0x68d84ea2, 0x22a31f54), x)
         == State(0x7246fad3, 0x14e45506, 0xff4ea3eb, 0x6e10a476)
  {
    assert EmptyRoundFour(WORDS);
    EmptyRoundFourSteps(WORDS, x);
  }

  lemma EmptyCompressed(x: seq<Word>)
    requires IsEmpty(x)
    ensures Compress(WORDS, START, x) == State(0x7246fad3, 0x14e45506, 0xff4ea3eb, 0x6e10a476)
  {
    EmptyRoundOneWords(x);
    EmptyRoundTwoWords(x);
    EmptyRoundThreeWords(x);
    EmptyRoundFourWords(x);
  }

  lemma EmptyPadded()
    ensures var p := Padded([]); |p| == 64 && IsEmpty(BlockAt(p, 0))
  {
    var p := Padded([]);
    ShortPadded([]);
    FirstAndLengthWordEmpty();
    forall k | 1 <= k < 16 && k != 14
      ensures BlockAt(p, 0)[k] == 0
    {
      ZeroWord(p, 4 * k);
    }
    WordIs(p, 0, 0x80, 0, 0, 0);
    WordIs(p, 56, 0, 0, 0, 0);
    assert BlockAt(p, 0)[0] == WordAt(p, 0) && BlockAt(p, 0)[14] == WordAt(p, 56);
  }

  lemma FirstAndLengthWordEmpty()
    ensures WordOf(0x80, 0, 0, 0) == 0x00000080
    ensures WordOf(0, 0, 0, 0) == 0
  {
  }

  lemma EmptyNext(x: Block)
    requires IsEmpty(x)
    ensures IsNext(State(0xd98c1dd4, 0x04b2008f, 0x980980e9, 0x7e42f8ec), Next, START, x)
  {
    EmptyCompressed(x);
  }

  /** MD5("") = d41d8cd98f00b204e9800998ecf8427e. */
  lemma EmptyDigest()
    ensures Digest(Next, Padded([]))
         == [0xd4, 0x1d, 0x8c, 0xd9, 0x8f, 0x00, 0xb2, 0x04,
             0xe9, 0x80, 0x09, 0x98, 0xec, 0xf8, 0x42, 0x7e]
  {
    var p := Padded([]);
    EmptyPadded();
    EmptyNext(BlockAt(p, 0));
    ChainNext(Next, p, 0, START, BlockAt(p, 0), State(0xd98c1dd4, 0x04b2008f, 0x980980e9, 0x7e42f8ec));
    DigestOfChain(Next, p, State(0xd98c1dd4, 0x04b2008f, 0x980980e9, 0x7e42f8ec));
    EmptyOutput();
  }

  lemma EmptyOutput()
    ensures Output(State(0xd98c1dd4, 0x04b2008f, 0x980980e9, 0x7e42f8ec))
         == [0xd4, 0x1d, 0x8c, 0xd9, 0x8f, 0x00, 0xb2, 0x04,
             0xe9, 0x80, 0x09, 0x98, 0xec, 0xf8, 0x42, 0x7e]
  {
  }

  // ----- The message "abc" -----

  /** The one block of the padded message. */
  predicate IsAbc(x: seq<Word>) {
    && |x| == 16
    && x[0] == 0x80636261 && x[1] == 0 && x[2] == 0 && x[3] == 0
    && x[4] == 0 && x[5] == 0 && x[6] == 0 && x[7] == 0
    && x[8] == 0 && x[9] == 0 && x[10] == 0 && x[11] == 0
    && x[12] == 0 && x[13] == 0 && x[14] == 0x00000018 && x[15] == 0
  }

  predicate AbcRoundOne(u: Updates<Word>) {
    && u.ff(0x67452301, 0xefcdab89, 0x98badcfe, 0x10325476, 0x80636261, 7, 0xd76aa478) == 0xd6d117b4
    && u.ff(0x10325476, 0xd6d117b4, 0xefcdab89, 0x98badcfe, 0, 12, 0xe8c7b756) == 0x344a8432
    && u.ff(0x98badcfe, 0x344a8432, 0xd6d117b4, 0xefcdab89, 0, 17, 0x242070db) == 0x2f6fbd72
    && u.ff(0xefcdab89, 0x2f6fbd72, 0x344a8432, 0xd6d117b4, 0, 22, 0xc1bdceee) == 0x7ad956f2
    && u.ff(0xd6d117b4, 0x7ad956f2, 0x2f6fbd72, 0x344a8432, 0, 7, 0xf57c0faf) == 0xc73741ef
    && u.ff(0x344a8432, 0xc73741ef, 0x7ad956f2, 0x2f6fbd72, 0, 12, 0x4787c62a) == 0x8bac3051
    && u.ff(0x2f6fbd72, 0x8bac3051, 0xc73741ef, 0x7ad956f2, 0, 17, 0xa8304613) == 0x207dc67b
    && u.ff(0x7ad956f2, 0x207dc67b, 0x8bac3051, 0xc73741ef, 0, 22, 0xfd469501) == 0x928d99f6
    && u.ff(0xc73741ef, 0x928d99f6, 0x207dc67b, 0x8bac3051, 0, 7, 0x698098d8) == 0x854b3712
    && u.ff(0x8bac3051, 0x854b3712, 0x928d99f6, 0x207dc67b, 0, 12, 0x8b44f7af) == 0x74e2f284
    && u.ff(0x207dc67b, 0x74e2f284, 0x854b3712, 0x928d99f6, 0, 17, 0xffff5bb1) == 0x3020401c
    && u.ff(0x928d99f6, 0x3020401c, 0x74e2f284, 0x854b3712, 0, 22, 0x895cd7be) == 0x5ed49596
    && u.ff(0x854b3712, 0x5ed49596, 0x3020401c, 0x74e2f284, 0, 7, 0x6b901122) == 0xdda9b9a6
    && u.ff(0x74e2f284, 0xdda9b9a6, 0x5ed49596, 0x3020401c, 0, 12, 0xfd987193) == 0xa1051895
    && u.ff(0x3020401c, 0xa1051895, 0xdda9b9a6, 0x5ed49596, 0x00000018, 17, 0xa679438e) == 0xe396856b
    && u.ff(0x5ed49596, 0xe396856b, 0xa1051895, 0xdda9b9a6, 0, 22, 0x49b40821) == 0x72aff2e0
  }

  lemma AbcRoundOneSteps(u: Updates<Word>, x: seq<Word>)
    requires AbcRoundOne(u) && IsAbc(x)
    ensures Steps(u, 0, 16, State(0x67452301, 0xefcdab89, 0x98badcfe, 0x10325476), x)
         == State(0xdda9b9a6, 0x72aff2e0, 0xe396856b, 0xa1051895)
  {
    var s := State(0x67452301, 0xefcdab89, 0x98badcfe, 0x10325476);
    assert Steps(u, 0, 1, s, x) == State(0x10325476, 0xd6d117b4, 0xefcdab89, 0x98badcfe);
    assert Steps(u, 0, 2, s, x) == State(0x98badcfe, 0x344a8432, 0xd6d117b4, 0xefcdab89);
    assert Steps(u, 0, 3, s, x) == State(0xefcdab89, 0x2f6fbd72, 0x344a8432, 0xd6d117b4);
    assert Steps(u, 0, 4, s, x) == State(0xd6d117b4, 0x7ad956f2, 0x2f6fbd72, 0x344a8432);
    assert Steps(u, 0, 5, s, x) == State(0x344a8432, 0xc73741ef, 0x7ad956f2, 0x2f6fbd72);
    assert Steps(u, 0, 6, s, x) == State(0x2f6fbd72, 0x8bac3051, 0xc73741ef, 0x7ad956f2);
    assert Steps(u, 0, 7, s, x) == State(0x7ad956f2, 0x207dc67b, 0x8bac3051, 0xc73741ef);
    assert Steps(u, 0, 8, s, x) == State(0xc73741ef, 0x928d99f6, 0x207dc67b, 0x8bac3051);
    assert Steps(u, 0, 9, s, x) == State(0x8bac3051, 0x854b3712, 0x928d99f6, 0x207dc67b);
    assert Steps(u, 0, 10, s, x) == State(0x207dc67b, 0x74e2f284, 0x854b3712, 0x928d99f6);
    assert Steps(u, 0, 11, s, x) == State(0x928d99f6, 0x3020401c, 0x74e2f284, 0x854b3712);
    assert Steps(u, 0, 12, s, x) == State(0x854b3712, 0x5ed49596, 0x3020401c, 0x74e2f284);
    assert Steps(u, 0, 13, s, x) == State(0x74e2f284, 0xdda9b9a6, 0x5ed49596, 0x3020401c);
    assert Steps(u, 0, 14, s, x) == State(0x3020401c, 0xa1051895, 0xdda9b9a6, 0x5ed49596);
    assert Steps(u, 0, 15, s, x) == State(0x5ed49596, 0xe396856b, 0xa1051895, 0xdda9b9a6);
  }

  lemma AbcRoundOneWords(x: seq<Word>)
    requires IsAbc(x)
    ensures Steps(WORDS, 0, 16, State(0x67452301, 0xefcdab89, 0x98badcfe, 0x10325476), x)
         == State(0xdda9b9a6, 0x72aff2e0, 0xe396856b, 0xa1051895)
  {
    assert AbcRoundOne(WORDS);
    AbcRoundOneSteps(WORDS, x);
  }

  predicate AbcRoundTwo(u: Updates<Word>) {
    && u.gg(0xdda9b9a6, 0x72aff2e0, 0xe396856b, 0xa1051895, 0, 5, 0xf61e2562) == 0x3e9e9126
    && u.gg(0xa1051895, 0x3e9e9126, 0x72aff2e0, 0xe396856b, 0, 9, 0xc040b340) == 0x4a1d804e
    && u.gg(0xe396856b, 0x4a1d804e, 0x3e9e9126, 0x72aff2e0, 0, 14, 0x265e5a51) == 0xe25e1652
    && u.gg(0x72aff2e0, 0xe25e1652, 0x4a1d804e, 0x3e9e9126, 0x80636261, 20, 0xe9b6c7aa) == 0xb5b204e4
    && u.gg(0x3e9e9126, 0xb5b204e4, 0xe25e1652, 0x4a1d804e, 0, 5, 0xd62f105d) == 0x59a8ffda
    && u.gg(0x4a1d804e, 0x59a8ffda, 0xb5b204e4, 0xe25e1652, 0, 9, 0x02441453) == 0x6d002f1e
    && u.gg(0xe25e1652, 0x6d002f1e, 0x59a8ffda, 0xb5b204e4, 0, 14, 0xd8a1e681) == 0xabfc7920
    && u.gg(0xb5b204e4, 0xabfc7920, 0x6d002f1e, 0x59a8ffda, 0, 20, 0xe7d3fbc8) == 0x47092c07
    && u.gg(0x59a8ffda, 0x47092c07, 0xabfc7920, 0x6d002f1e, 0, 5, 0x21e1cde6) == 0xb7f268cf
    && u.gg(0x6d002f1e, 0xb7f268cf, 0x47092c07, 0xabfc7920, 0x00000018, 9, 0xc33707d6) == 0x09388eff
    && u.gg(0xabfc7920, 0x09388eff, 0xb7f268cf, 0x47092c07, 0, 14, 0xf4d50d87) == 0xfe1623b1
    && u.gg(0x47092c07, 0xfe1623b1, 0x09388eff, 0xb7f268cf, 0, 20, 0x455a14ed) == 0x786acb8f
    && u.gg(0xb7f268cf, 0x786acb8f, 0xfe1623b1, 0x09388eff, 0, 5, 0xa9e3e905) == 0x790a77fb
    && u.gg(0x09388eff, 0x790a77fb, 0x786acb8f, 0xfe1623b1, 0, 9, 0xfcefa3f8) == 0x9f47e4f8
    && u.gg(0xfe1623b1, 0x9f47e4f8, 0x790a77fb, 0x786acb8f, 0, 14, 0x676f02d9) == 0xa62884aa
    && u.gg(0x786acb8f, 0xa62884aa, 0x9f47e4f8, 0x790a77fb, 0, 20, 0x8d2a4c8a) == 0x726342d3
  }

  lemma AbcRoundTwoSteps(u: Updates<Word>, x: seq<Word>)
    requires AbcRoundTwo(u) && IsAbc(x)
    ensures Steps(u, 16, 16, State(0xdda9b9a6, 0x72aff2e0, 0xe396856b, 0xa1051895), x)
         == State(0x790a77fb, 0x726342d3, 0xa62884aa, 0x9f47e4f8)
  {
    var s := State(0xdda9b9a6, 0x72aff2e0, 0xe396856b, 0xa1051895);
    assert Steps(u, 16, 1, s, x) == State(0xa1051895, 0x3e9e9126, 0x72aff2e0, 0xe396856b);
    assert Steps(u, 16, 2, s, x) == State(0xe396856b, 0x4a1d804e, 0x3e9e9126, 0x72aff2e0);
    assert Steps(u, 16, 3, s, x) == State(0x72aff2e0, 0xe25e1652, 0x4a1d804e, 0x3e9e9126);
    assert Steps(u, 16, 4, s, x) == State(0x3e9e9126, 0xb5b204e4, 0xe25e1652, 0x4a1d804e);
    assert Steps(u, 16, 5, s, x) == State(0x4a1d804e, 0x59a8ffda, 0xb5b204e4, 0xe25e1652);
    assert Steps(u, 16, 6, s, x) == State(0xe25e1652, 0x6d002f1e, 0x59a8ffda, 0xb5b204e4);
    assert Steps(u, 16, 7, s, x) == State(0xb5b204e4, 0xabfc7920, 0x6d002f1e, 0x59a8ffda);
    assert Steps(u, 16, 8, s, x) == State(0x59a8ffda, 0x47092c07, 0xabfc7920, 0x6d002f1e);
    assert Steps(u, 16, 9, s, x) == State(0x6d002f1e, 0xb7f268cf, 0x47092c07, 0xabfc7920);
    assert Steps(u, 16, 10, s, x) == State(0xabfc7920, 0x09388eff, 0xb7f268cf, 0x47092c07);
    assert Steps(u, 16, 11, s, x) == State(0x47092c07, 0xfe1623b1, 0x09388eff, 0xb7f268cf);
    assert Steps(u, 16, 12, s, x) == State(0xb7f268cf, 0x786acb8f, 0xfe1623b1, 0x09388eff);
    assert Steps(u, 16, 13, s, x) == State(0x09388eff, 0x790a77fb, 0x786acb8f, 0xfe1623b1);
    assert Steps(u, 16, 14, s, x) == State(0xfe1623b1, 0x9f47e4f8, 0x790a77fb, 0x786acb8f);
    assert Steps(u, 16, 15, s, x) == State(0x786acb8f, 0xa62884aa, 0x9f47e4f8, 0x790a77fb);
  }

  lemma AbcRoundTwoWords(x: seq<Word>)
    requires IsAbc(x)
    ensures Steps(WORDS, 16, 16, State(0xdda9b9a6, 0x72aff2e0, 0xe396856b, 0xa1051895), x)
         == State(0x790a77fb, 0x726342d3, 0xa62884aa, 0x9f47e4f8)
  {
    assert AbcRoundTwo(WORDS);
    AbcRoundTwoSteps(WORDS, x);
  }

  predicate AbcRoundThree(u: Updates<Word>) {
    && u.hh(0x790a77fb, 0x726342d3, 0xa62884aa, 0x9f47e4f8, 0, 4, 0xfffa3942) == 0xb3707ebf
    && u.hh(0x9f47e4f8, 0xb3707ebf, 0x726342d3, 0xa62884aa, 0, 11, 0x8771f681) == 0x60127b2e
    && u.hh(0xa62884aa, 0x60127b2e, 0xb3707ebf, 0x726342d3, 0, 16, 0x6d9d6122) == 0x8d212ff5
    && u.hh(0x726342d3, 0x8d212ff5, 0x60127b2e, 0xb3707ebf, 0x00000018, 23, 0xfde5380c) == 0x3b0875c7
    && u.hh(0xb3707ebf, 0x3b0875c7, 0x8d212ff5, 0x60127b2e, 0, 4, 0xa4beea44) == 0x21b117b9
    && u.hh(0x60127b2e, 0x21b117b9, 0x3b0875c7, 0x8d212ff5, 0, 11, 0x4bdecfa9) == 0x6e7429d5
    && u.hh(0x8d212ff5, 0x6e7429d5, 0x21b117b9, 0x3b0875c7, 0, 16, 0xf6bb4b60) == 0x3575227e
    && u.hh(0x3b0875c7, 0x3575227e, 0x6e7429d5, 0x21b117b9, 0, 23, 0xbebfbc70) == 0x5a2f5ea5
    && u.hh(0x21b117b9, 0x5a2f5ea5, 0x3575227e, 0x6e7429d5, 0, 4, 0x289b7ec6) == 0x11de1779
    && u.hh(0x6e7429d5, 0x11de1779, 0x5a2f5ea5, 0x3575227e, 0x80636261, 11, 0xeaa127fa) == 0xfadcaa38
    && u.hh(0x3575227e, 0xfadcaa38, 0x11de1779, 0x5a2f5ea5, 0, 16, 0xd4ef3085) == 0x31c465ca
    && u.hh(0x5a2f5ea5, 0x31c465ca, 0xfadcaa38, 0x11de1779, 0, 23, 0x04881d05) == 0x4c6124f4
    && u.hh(0x11de1779, 0x4c6124f4, 0x31c465ca, 0xfadcaa38, 0, 4, 0xd9d4d039) == 0x7f2e507b
    && u.hh(0xfadcaa38, 0x7f2e507b, 0x4c6124f4, 0x31c465ca, 0, 11, 0xe6db99e5) == 0x99d9679d
    && u.hh(0x31c465ca, 0x99d9679d, 0x7f2e507b, 0x4c6124f4, 0, 16, 0x1fa27cf8) == 0x8fae6399
    && u.hh(0x4c6124f4, 0x8fae6399, 0x99d9679d, 0x7f2e507b, 0, 23, 0xc4ac5665) == 0x7beb9700
  }

  lemma AbcRoundThreeSteps(u: Updates<Word>, x: seq<Word>)
    requires AbcRoundThree(u) && IsAbc(x)
    ensures Steps(u, 32, 16, State(0x790a77fb, 0x726342d3, 0xa62884aa, 0x9f47e4f8), x)
         == State(0x7f2e507b, 0x7beb9700, 0x8fae6399, 0x99d9679d)
  {
    var s := State(0x790a77fb, 0x726342d3, 0xa62884aa, 0x9f47e4f8);
    assert Steps(u, 32, 1, s, x) == State(0x9f47e4f8, 0xb3707ebf, 0x726342d3, 0xa62884aa);
    assert Steps(u, 32, 2, s, x) == State(0xa62884aa, 0x60127b2e, 0xb3707ebf, 0x726342d3);
    assert Steps(u, 32, 3, s, x) == State(0x726342d3, 0x8d212ff5, 0x60127b2e, 0xb3707ebf);
    assert Steps(u, 32, 4, s, x) == State(0xb3707ebf, 0x3b0875c7, 0x8d212ff5, 0x60127b2e);
    assert Steps(u, 32, 5, s, x) == State(0x60127b2e, 0x21b117b9, 0x3b0875c7, 0x8d212ff5);
    assert Steps(u, 32, 6, s, x) == State(0x8d212ff5, 0x6e7429d5, 0x21b117b9, 0x3b0875c7);
    assert Steps(u, 32, 7, s, x) == State(0x3b0875c7, 0x3575227e, 0x6e7429d5, 0x21b117b9);
    assert Steps(u, 32, 8, s, x) == State(0x21b117b9, 0x5a2f5ea5, 0x3575227e, 0x6e7429d5);
    assert Steps(u, 32, 9, s, x) == State(0x6e7429d5, 0x11de1779, 0x5a2f5ea5, 0x3575227e);
    assert Steps(u, 32, 10, s, x) == State(0x3575227e, 0xfadcaa38, 0x11de1779, 0x5a2f5ea5);
    assert Steps(u, 32, 11, s, x) == State(0x5a2f5ea5, 0x31c465ca, 0xfadcaa38, 0x11de1779);
    assert Steps(u, 32, 12, s, x) == State(0x11de1779, 0x4c6124f4, 0x31c465ca, 0xfadcaa38);
    assert Steps(u, 32, 13, s, x) == State(0xfadcaa38, 0x7f2e507b, 0x4c6124f4, 0x31c465ca);
    assert Steps(u, 32, 14, s, x) == State(0x31c465ca, 0x99d9679d, 0x7f2e507b, 0x4c6124f4);
    assert Steps(u, 32, 15, s, x) == State(0x4c6124f4, 0x8fae6399, 0x99d9679d, 0x7f2e507b);
  }

  lemma AbcRoundThreeWords(x: seq<Word>)
    requires IsAbc(x)
    ensures Steps(WORDS, 32, 16, State(0x790a77fb, 0x726342d3, 0xa62884aa, 0x9f47e4f8), x)
         == State(0x7f2e507b, 0x7beb9700, 0x8fae6399, 0x99d9679d)
  {
    assert AbcRoundThree(WORDS);
    AbcRoundThreeSteps(WORDS, x);
  }

  predicate AbcRoundFour(u: Updates<Word>) {
    && u.ii(0x7f2e507b, 0x7beb9700, 0x8fae6399, 0x99d9679d, 0x80636261, 6, 0xf4292244) == 0x7b201df8
    && u.ii(0x99d9679d, 0x7b201df8, 0x7beb9700, 0x8fae6399, 0, 10, 0x432aff97) == 0xf4e8e96e
    && u.ii(0x8fae6399, 0xf4e8e96e, 0x7b201df8, 0x7beb9700, 0x00000018, 15, 0xab9423a7) == 0xb298cefd
    && u.ii(0x7beb9700, 0xb298cefd, 0xf4e8e96e, 0x7b201df8, 0, 21, 0xfc93a039) == 0x8bf025c4
    && u.ii(0x7b201df8, 0x8bf025c4, 0xb298cefd, 0xf4e8e96e, 0, 6, 0x655b59c3) == 0x06cc5e8a
    && u.ii(0xf4e8e96e, 0x06cc5e8a, 0x8bf025c4, 0xb298cefd, 0, 10, 0x8f0ccc92) == 0x5b0d97aa
    && u.ii(0xb298cefd, 0x5b0d97aa, 0x06cc5e8a, 0x8bf025c4, 0, 15, 0xffeff47d) == 0x7d632dd0
    && u.ii(0x8bf025c4, 0x7d632dd0, 0x5b0d97aa, 0x06cc5e8a, 0, 21, 0x85845dd1) == 0x3bfa2c27
    && u.ii(0x06cc5e8a, 0x3bfa2c27, 0x7d632dd0, 0x5b0d97aa, 0, 6, 0x6fa87e4f) == 0x7f81cc35
    && u.ii(0x5b0d97aa, 0x7f81cc35, 0x3bfa2c27, 0x7d632dd0, 0, 10, 0xfe2ce6e0) == 0x094454ab
    && u.ii(0x7d632dd0, 0x094454ab, 0x7f81cc35, 0x3bfa2c27, 0, 15, 0xa3014314) == 0x4f9dbe3f
    && u.ii(0x3bfa2c27, 0x4f9dbe3f, 0x094454ab, 0x7f81cc35, 0, 21, 0x4e0811a1) == 0x7327d604
    && u.ii(0x7f81cc35, 0x7327d604, 0x4f9dbe3f, 0x094454ab, 0, 6, 0xf7537e82) == 0x310ade8f
    && u.ii(0x094454ab, 0x310ade8f, 0x7327d604, 0x4f9dbe3f, 0, 10, 0xbd3af235) == 0x624d8cb2
    && u.ii(0x4f9dbe3f, 0x624d8cb2, 0x310ade8f, 0x7327d604, 0, 15, 0x2ad7d2bb) == 0xe484b9d8
    && u.ii(0x7327d604, 0xe484b9d8, 0x624d8cb2, 0x310ade8f, 0, 21, 0xeb86d391) == 0xc08226b3
  }

  lemma AbcRoundFourSteps(u: Updates<Word>, x: seq<Word>)
    requires AbcRoundFour(u) && IsAbc(x)
    ensures Steps(u, 48, 16, State(0x7f2e507b, 0x7beb9700, 0x8fae6399, 0x99d9679d), x)
         == State(0x310ade8f, 0xc08226b3, 0xe484b9d8, 0x624d8cb2)
  {
    var s := State(0x7f2e507b, 0x7beb9700, 0x8fae6399, 0x99d9679d);
    assert Steps(u, 48, 1, s, x) == State(0x99d9679d, 0x7b201df8, 0x7beb9700, 0x8fae6399);
    assert Steps(u, 48, 2, s, x) == State(0x8fae6399, 0xf4e8e96e, 0x7b201df8, 0x7beb9700);
    assert Steps(u, 48, 3, s, x) == State(0x7beb9700, 0xb298cefd, 0xf4e8e96e, 0x7b201df8);
    assert Steps(u, 48, 4, s, x) == State(0x7b201df8, 0x8bf025c4, 0xb298cefd, 0xf4e8e96e);
    assert Steps(u, 48, 5, s, x) == State(0xf4e8e96e, 0x06cc5e8a, 0x8bf025c4, 0xb298cefd);
    assert Steps(u, 48, 6, s, x) == State(0xb298cefd, 0x5b0d97aa, 0x06cc5e8a, 0x8bf025c4);
    assert Steps(u, 48, 7, s, x) == State(0x8bf025c4, 0x7d632dd0, 0x5b0d97aa, 0x06cc5e8a);
    assert Steps(u, 48, 8, s, x) == State(0x06cc5e8a, 0x3bfa2c27, 0x7d632dd0, 0x5b0d97aa);
    assert Steps(u, 48, 9, s, x) == State(0x5b0d97aa, 0x7f81cc35, 0x3bfa2c27, 0x7d632dd0);
    assert Steps(u, 48, 10, s, x) == State(0x7d632dd0, 0x094454ab, 0x7f81cc35, 0x3bfa2c27);
    assert Steps(u, 48, 11, s, x) == State(0x3bfa2c27, 0x4f9dbe3f, 0x094454ab, 0x7f81cc35);
    assert Steps(u, 48, 12, s, x) == State(0x7f81cc35, 0x7327d604, 0x4f9dbe3f, 0x094454ab);
    assert Steps(u, 48, 13, s, x) == State(0x094454ab, 0x310ade8f, 0x7327d604, 0x4f9dbe3f);
    assert Steps(u, 48, 14, s, x) == State(0x4f9dbe3f, 0x624d8cb2, 0x310ade8f, 0x7327d604);
    assert Steps(u, 48, 15, s, x) == State(0x7327d604, 0xe484b9d8, 0x624d8cb2, 0x310ade8f);
  }

  lemma AbcRoundFourWords(x: seq<Word>)
    requires IsAbc(x)
    ensures Steps(WORDS, 48, 16, State(0x7f2e507b, 0x7beb9700, 0x8fae6399, 0x99d9679d), x)
         == State(0x310ade8f, 0xc08226b3, 0xe484b9d8, 0x624d8cb2)
  {
    assert AbcRoundFour(WORDS);
    AbcRoundFourSteps(WORDS, x);
  }

  lemma AbcCompressed(x: seq<Word>)
    requires IsAbc(x)
    ensures Compress(WORDS, START, x) == State(0x310ade8f, 0xc08226b3, 0xe484b9d8, 0x624d8cb2)
  {
    AbcRoundOneWords(x);
    AbcRoundTwoWords(x);
    AbcRoundThreeWords(x);
    AbcRoundFourWords(x);
  }

  lemma AbcPadded()
    ensures var p := Padded([0x61, 0x62, 0x63]); |p| == 64 && IsAbc(BlockAt(p, 0))
  {
    var p := Padded([0x61, 0x62, 0x63]);
    ShortPadded([0x61, 0x62, 0x63]);
    FirstAndLengthWordAbc();
    forall k | 1 <= k < 16 && k != 14
      ensures BlockAt(p, 0)[k] == 0
    {
      ZeroWord(p, 4 * k);
    }
    WordIs(p, 0, 0x61, 0x62, 0x63, 0x80);
    WordIs(p, 56, 0x18, 0, 0, 0);
    assert BlockAt(p, 0)[0] == WordAt(p, 0) && BlockAt(p, 0)[14] == WordAt(p, 56);
  }

  lemma FirstAndLengthWordAbc()
    ensures WordOf(0x61, 0x62, 0x63, 0x80) == 0x80636261
    ensures WordOf(0x18, 0, 0, 0) == 0x00000018
  {
  }

  lemma AbcNext(x: Block)
    requires IsAbc(x)
    ensures IsNext(State(0x98500190, 0xb04fd23c, 0x7d3f96d6, 0x727fe128), Next, START, x)
  {
    AbcCompressed(x);
  }

  /** MD5("abc") = 900150983cd24fb0d6963f7d28e17f72. */
  lemma AbcDigest()
    ensures Digest(Next, Padded([0x61, 0x62, 0x63]))
         == [0x90, 0x01, 0x50, 0x98, 0x3c, 0xd2, 0x4f, 0xb0,
             0xd6, 0x96, 0x3f, 0x7d, 0x28, 0xe1, 0x7f, 0x72]
  {
    var p := Padded([0x61, 0x62, 0x63]);
    AbcPadded();
    AbcNext(BlockAt(p, 0));
    ChainNext(Next, p, 0, START, BlockAt(p, 0), State(0x98500190, 0xb04fd23c, 0x7d3f96d6, 0x727fe128));
    DigestOfChain(Next, p, State(0x98500190, 0xb04fd23c, 0x7d3f96d6, 0x727fe128));
    AbcOutput();
  }

  lemma AbcOutput()
    ensures Output(State(0x98500190, 0xb04fd23c, 0x7d3f96d6, 0x727fe128))
         == [0x90, 0x01, 0x50, 0x98, 0x3c, 0xd2, 0x4f, 0xb0,
             0xd6, 0x96, 0x3f, 0x7d, 0x28, 0xe1, 0x7f, 0x72]
  {
  }
}
