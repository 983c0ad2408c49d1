/** The digest of the empty message, operation by operation: section A.5 of RFC 1321. */
module KnownDigest {
  import opened Words
  import opened Md5

  /** The registers after `n` operations of the only block. */
  ghost predicate After(n: nat, a: Word, b: Word, c: Word, d: Word) {
    n <= 64 && |Padding(0)| == BLOCK && Operations(n, INIT, Padding(0)) == Regs(a, b, c, d)
  }

  lemma {:induction false} ZerosAre(n: nat, i: nat)
    requires i < n
    ensures Zeros(n)[i] == 0
  {
    if i < n - 1 {
      ZerosAre(n - 1, i);
    }
  }

  lemma NoSize()
    ensures InMemory(0, 8) == [0, 0, 0, 0, 0, 0, 0, 0]
  {
    FourBytes(0, 8);
    FourBytes(0, 4);
  }

  lemma {:induction false} PaddingIs(i: nat)
    requires i < 64
    ensures |Padding(0)| == 64 && Padding(0)[i] == if i == 0 then 0x80 else 0
  {
    hide Zeros, InMemory;
    NoSize();
    if 0 < i < 56 {
      ZerosAre(55, i - 1);
    }
  }

  /** All words of the block are zero but for the first. */
  lemma {:induction false} WordIs(w: nat)
    requires w < 16
    ensures |Padding(0)| == 64 && Read32(Padding(0), w * 4) == if w == 0 then 0x80 else 0
  {
    hide Padding;
    PaddingIs(w * 4);
    PaddingIs(w * 4 + 1);
    PaddingIs(w * 4 + 2);
    PaddingIs(w * 4 + 3);
  }

  lemma {:induction false} NumberedIs(n: nat, a: Word, b: Word, c: Word, d: Word)
    requires n < 64
    ensures |Padding(0)| == 64 && |SHIFTS[n / 16]| == 4 && SHIFTS[n / 16][n % 4] <= 32
    ensures Numbered(n, a, b, c, d, Padding(0))
         == Operation(n / 16, a, b, c, d, if WordOf(n / 16, n % 16) == 0 then 0x80 else 0, SHIFTS[n / 16][n % 4],
                      SineOf(n / 16, n % 16))
  {
    hide Operation, Read32, SineOf, Padding, WordOf;
    WordsAgree(n / 16, n % 16);
    ShiftsSmall(n / 16, n % 4);
    WordIs(WordOf(n / 16, n % 16));
  }

  lemma {:induction false} Step(round: nat, k: nat, a: Word, b: Word, c: Word, d: Word, x: Word, s: bv6, t: Word,
                                e: Word)
    requires round < 4 && k < 16 && s <= 32 && After(round * 16 + k, a, b, c, d)
    requires x == if WordOf(round, k) == 0 then 0x80 else 0
    requires |SHIFTS[round]| == 4 && SHIFTS[round][k % 4] == s && SineOf(round, k) == t
    requires Operation(round, a, b, c, d, x, s, t) == e
    ensures After(round * 16 + k + 1, d, e, b, c)
  {
    hide Operation, Numbered, SineOf, Padding, WordOf;
    StepNumber(round, k);
    NumberedIs(round * 16 + k, a, b, c, d);
  }

  lemma StepNumber(round: nat, k: nat)
    requires round < 4 && k < 16
    ensures var n := round * 16 + k; n / 16 == round && n % 16 == k && n % 4 == k % 4
  {
  }

  lemma {:induction false} Starts()
    ensures After(0, 0x67452301, 0xefcdab89, 0x98badcfe, 0x10325476)
  {
    hide Padding;
    PaddingIs(0);
  }

  lemma Sines0()
    ensures SineOf(0, 0) == 0xd76aa478 && SineOf(0, 1) == 0xe8c7b756
    ensures SineOf(0, 2) == 0x242070db && SineOf(0, 3) == 0xc1bdceee
    ensures SineOf(0, 4) == 0xf57c0faf && SineOf(0, 5) == 0x4787c62a
    ensures SineOf(0, 6) == 0xa8304613 && SineOf(0, 7) == 0xfd469501
    ensures SineOf(0, 8) == 0x698098d8 && SineOf(0, 9) == 0x8b44f7af
    ensures SineOf(0, 10) == 0xffff5bb1 && SineOf(0, 11) == 0x895cd7be
    ensures SineOf(0, 12) == 0x6b901122 && SineOf(0, 13) == 0xfd987193
    ensures SineOf(0, 14) == 0xa679438e && SineOf(0, 15) == 0x49b40821
  {
  }

  lemma {:induction false} Round0()
    ensures After(16, 0xf56c7cf1, 0xd6819c6a, 0x5aa53f75, 0x374943a7)
  {
    hide After, SineOf;
    Sines0();
    Starts();
    Step(0, 0, 0x67452301, 0xefcdab89, 0x98badcfe, 0x10325476, 0x80, 7, 0xd76aa478, 0xa5202774);
    Step(0, 1, 0x10325476, 0xa5202774, 0xefcdab89, 0x98badcfe, 0, 12, 0xe8c7b756, 0xf59592dd);
    Step(0, 2, 0x98badcfe, 0xf59592dd, 0xa5202774, 0xefcdab89, 0, 17, 0x242070db, 0xe7f06b23);
    Step(0, 3, 0xefcdab89, 0xe7f06b23, 0xf59592dd, 0xa5202774, 0, 22, 0xc1bdceee, 0x1b163203);
    Step(0, 4, 0xa5202774, 0x1b163203, 0xe7f06b23, 0xf59592dd, 0, 7, 0xf57c0faf, 0x32033344);
    Step(0, 5, 0xf59592dd, 0x32033344, 0x1b163203, 0xe7f06b23, 0, 12, 0x4787c62a, 0x2f35d494);
    Step(0, 6, 0xe7f06b23, 0x2f35d494, 0x32033344, 0x1b163203, 0, 17, 0xa8304613, 0xf5b158db);
    Step(0, 7, 0x1b163203, 0xf5b158db, 0x2f35d494, 0x32033344, 0, 22, 0xfd469501, 0x9bc13ce9);
    Step(0, 8, 0x32033344, 0x9bc13ce9, 0xf5b158db, 0x2f35d494, 0, 7, 0x698098d8, 0x3893b991);
    Step(0, 9, 0x2f35d494, 0x3893b991, 0x9bc13ce9, 0xf5b158db, 0, 12, 0x8b44f7af, 0xfce4a312);
    Step(0, 10, 0xf5b158db, 0xfce4a312, 0x3893b991, 0x9bc13ce9, 0, 17, 0xffff5bb1, 0xe1ef0576);
    Step(0, 11, 0x9bc13ce9, 0xe1ef0576, 0xfce4a312, 0x3893b991, 0, 22, 0x895cd7be, 0x70768a29);
    Step(0, 12, 0x3893b991, 0x70768a29, 0xe1ef0576, 0xfce4a312, 0, 7, 0x6b901122, 0xf56c7cf1);
    Step(0, 13, 0xfce4a312, 0xf56c7cf1, 0x70768a29, 0xe1ef0576, 0, 12, 0xfd987193, 0x374943a7);
    Step(0, 14, 0xe1ef0576, 0x374943a7, 0xf56c7cf1, 0x70768a29, 0, 17, 0xa679438e, 0x5aa53f75);
    Step(0, 15, 0x70768a29, 0x5aa53f75, 0x374943a7, 0xf56c7cf1, 0, 22, 0x49b40821, 0xd6819c6a);
  }

  lemma Sines1()
    ensures SineOf(1, 0) == 0xf61e2562 && SineOf(1, 1) == 0xc040b340
    ensures SineOf(1, 2) == 0x265e5a51 && SineOf(1, 3) == 0xe9b6c7aa
    ensures SineOf(1, 4) == 0xd62f105d && SineOf(1, 5) == 0x02441453
    ensures SineOf(1, 6) == 0xd8a1e681 && SineOf(1, 7) == 0xe7d3fbc8
    ensures SineOf(1, 8) == 0x21e1cde6 && SineOf(1, 9) == 0xc33707d6
    ensures SineOf(1, 10) == 0xf4d50d87 && SineOf(1, 11) == 0x455a14ed
    ensures SineOf(1, 12) == 0xa9e3e905 && SineOf(1, 13) == 0xfcefa3f8
    ensures SineOf(1, 14) == 0x676f02d9 && SineOf(1, 15) == 0x8d2a4c8a
  {
  }

  lemma {:induction false} Round1()
    ensures After(32, 0x13707036, 0xa2205f1f, 0x1c31c384, 0xae7813db)
  {
    hide After, SineOf;
    Sines1();
    Round0();
    Step(1, 0, 0xf56c7cf1, 0xd6819c6a, 0x5aa53f75, 0x374943a7, 0, 5, 0xf61e2562, 0x1c7d7513);
    Step(1, 1, 0x374943a7, 0x1c7d7513, 0xd6819c6a, 0x5aa53f75, 0, 9, 0xc040b340, 0x7bd57a3a);
    Step(1, 2, 0x5aa53f75, 0x7bd57a3a, 0x1c7d7513, 0xd6819c6a, 0, 14, 0x265e5a51, 0xc095f13a);
    Step(1, 3, 0xd6819c6a, 0xc095f13a, 0x7bd57a3a, 0x1c7d7513, 0x80, 20, 0xe9b6c7aa, 0xbd782e17);
    Step(1, 4, 0x1c7d7513, 0xbd782e17, 0xc095f13a, 0x7bd57a3a, 0, 5, 0xd62f105d, 0x3d1e3e6c);
    Step(1, 5, 0x7bd57a3a, 0x3d1e3e6c, 0xbd782e17, 0xc095f13a, 0, 9, 0x02441453, 0x68b7b3e3);
    Step(1, 6, 0xc095f13a, 0x68b7b3e3, 0x3d1e3e6c, 0xbd782e17, 0, 14, 0xd8a1e681, 0xeb41643e);
    Step(1, 7, 0xbd782e17, 0xeb41643e, 0x68b7b3e3, 0x3d1e3e6c, 0, 20, 0xe7d3fbc8, 0xe422531a);
    Step(1, 8, 0x3d1e3e6c, 0xe422531a, 0xeb41643e, 0x68b7b3e3, 0, 5, 0x21e1cde6, 0x306ec122);
    Step(1, 9, 0x68b7b3e3, 0x306ec122, 0xe422531a, 0xeb41643e, 0, 9, 0xc33707d6, 0xd28c77c2);
    Step(1, 10, 0xeb41643e, 0xd28c77c2, 0x306ec122, 0xe422531a, 0, 14, 0xf4d50d87, 0xa3c663da);
    Step(1, 11, 0xe422531a, 0xa3c663da, 0xd28c77c2, 0x306ec122, 0, 20, 0x455a14ed, 0xa0572807);
    Step(1, 12, 0x306ec122, 0xa0572807, 0xa3c663da, 0xd28c77c2, 0, 5, 0xa9e3e905, 0x13707036);
    Step(1, 13, 0xd28c77c2, 0x13707036, 0xa0572807, 0xa3c663da, 0, 9, 0xfcefa3f8, 0xae7813db);
    Step(1, 14, 0xa3c663da, 0xae7813db, 0x13707036, 0xa0572807, 0, 14, 0x676f02d9, 0x1c31c384);
    Step(1, 15, 0xa0572807, 0x1c31c384, 0xae7813db, 0x13707036, 0, 20, 0x8d2a4c8a, 0xa2205f1f);
  }

  lemma Sines2()
    ensures SineOf(2, 0) == 0xfffa3942 && SineOf(2, 1) == 0x8771f681
    ensures SineOf(2, 2) == 0x6d9d6122 && SineOf(2, 3) == 0xfde5380c
    ensures SineOf(2, 4) == 0xa4beea44 && SineOf(2, 5) == 0x4bdecfa9
    ensures SineOf(2, 6) == 0xf6bb4b60 && SineOf(2, 7) == 0xbebfbc70
    ensures SineOf(2, 8) == 0x289b7ec6 && SineOf(2, 9) == 0xeaa127fa
    ensures SineOf(2, 10) == 0xd4ef3085 && SineOf(2, 11) == 0x04881d05
    ensures SineOf(2, 12) == 0xd9d4d039 && SineOf(2, 13) == 0xe6db99e5
    ensures SineOf(2, 14) == 0x1fa27cf8 && SineOf(2, 15) == 0xc4ac5665
  {
  }

  lemma {:induction false} Round2()
    ensures After(48, 0x3f55edfd, 0xca7d2dbd, 0x68d84ea2, 0x22a31f54)
  {
    hide After, SineOf;
    Sines2();
    Round1();
    Step(2, 0, 0x13707036, 0xa2205f1f, 0x1c31c384, 0xae7813db, 0, 4, 0xfffa3942, 0xdf63eaa1);
    Step(2, 1, 0xae7813db, 0xdf63eaa1, 0xa2205f1f, 0x1c31c384, 0, 11, 0x8771f681, 0xc3689f5b);
    Step(2, 2, 0x1c31c384, 0xc3689f5b, 0xdf63eaa1, 0xa2205f1f, 0, 16, 0x6d9d6122, 0x12f3e755);
    Step(2, 3, 0xa2205f1f, 0x12f3e755, 0xc3689f5b, 0xdf63eaa1, 0, 23, 0xfde5380c, 0x004b6669);
    Step(2, 4, 0xdf63eaa1, 0x004b6669, 0x12f3e755, 0xc3689f5b, 0, 4, 0xa4beea44, 0x5f7a9b2e);
    Step(2, 5, 0xc3689f5b, 0x5f7a9b2e, 0x004b6669, 0x12f3e755, 0, 11, 0x4bdecfa9, 0xabc34e16);
    Step(2, 6, 0x12f3e755, 0xabc34e16, 0x5f7a9b2e, 0x004b6669, 0, 16, 0xf6bb4b60, 0x91ca4cb7);
    Step(2, 7, 0x004b6669, 0x91ca4cb7, 0xabc34e16, 0x5f7a9b2e, 0, 23, 0xbebfbc70, 0xc5dc8c15);
    Step(2, 8, 0x5f7a9b2e, 0xc5dc8c15, 0x91ca4cb7, 0xabc34e16, 0, 4, 0x289b7ec6, 0x4497169d);
    Step(2, 9, 0xabc34e16, 0x4497169d, 0xc5dc8c15, 0x91ca4cb7, 0x80, 11, 0xeaa127fa, 0x76fd93d4);
    Step(2, 10, 0x91ca4cb7, 0x76fd93d4, 0x4497169d, 0xc5dc8c15, 0, 16, 0xd4ef3085, 0xfd95f243);
    Step(2, 11, 0xc5dc8c15, 0xfd95f243, 0x76fd93d4, 0x4497169d, 0, 23, 0x04881d05, 0x0fe32453);
    Step(2, 12, 0x4497169d, 0x0fe32453, 0xfd95f243, 0x76fd93d4, 0, 4, 0xd9d4d039, 0x3f55edfd);
    Step(2, 13, 0x76fd93d4, 0x3f55edfd, 0x0fe32453, 0xfd95f243, 0, 11, 0xe6db99e5, 0x22a31f54);
    Step(2, 14, 0xfd95f243, 0x22a31f54, 0x3f55edfd, 0x0fe32453, 0, 16, 0x1fa27cf8, 0x68d84ea2);
    Step(2, 15, 0x0fe32453, 0x68d84ea2, 0x22a31f54, 0x3f55edfd, 0, 23, 0xc4ac5665, 0xca7d2dbd);
  }

  lemma Sines3()
    ensures SineOf(3, 0) == 0xf4292244 && SineOf(3, 1) == 0x432aff97
    ensures SineOf(3, 2) == 0xab9423a7 && SineOf(3, 3) == 0xfc93a039
    ensures SineOf(3, 4) == 0x655b59c3 && SineOf(3, 5) == 0x8f0ccc92
    ensures SineOf(3, 6) == 0xffeff47d && SineOf(3, 7) == 0x85845dd1
    ensures SineOf(3, 8) == 0x6fa87e4f && SineOf(3, 9) == 0xfe2ce6e0
    ensures SineOf(3, 10) == 0xa3014314 && SineOf(3, 11) == 0x4e0811a1
    ensures SineOf(3, 12) == 0xf7537e82 && SineOf(3, 13) == 0xbd3af235
    ensures SineOf(3, 14) == 0x2ad7d2bb && SineOf(3, 15) == 0xeb86d391
  {
  }

  lemma {:induction false} Round3()
    ensures After(64, 0x7246fad3, 0x14e45506, 0xff4ea3eb, 0x6e10a476)
  {
    hide After, SineOf;
    Sines3();
    Round2();
    Step(3, 0, 0x3f55edfd, 0xca7d2dbd, 0x68d84ea2, 0x22a31f54, 0x80, 6, 0xf4292244, 0x93aa2577);
    Step(3, 1, 0x22a31f54, 0x93aa2577, 0xca7d2dbd, 0x68d84ea2, 0, 10, 0x432aff97, 0x1688dc85);
    Step(3, 2, 0x68d84ea2, 0x1688dc85, 0x93aa2577, 0xca7d2dbd, 0, 15, 0xab9423a7, 0xcd85b8cb);
    Step(3, 3, 0xca7d2dbd, 0xcd85b8cb, 0x1688dc85, 0x93aa2577, 0, 21, 0xfc93a039, 0x561e0689);
    Step(3, 4, 0x93aa2577, 0x561e0689, 0xcd85b8cb, 0x1688dc85, 0, 6, 0x655b59c3, 0x5625a114);
    Step(3, 5, 0x1688dc85, 0x5625a114, 0x561e0689, 0xcd85b8cb, 0, 10, 0x8f0ccc92, 0x3450f42b);
    Step(3, 6, 0xcd85b8cb, 0x3450f42b, 0x5625a114, 0x561e0689, 0, 15, 0xffeff47d, 0x392ad0d0);
    Step(3, 7, 0x561e0689, 0x392ad0d0, 0x3450f42b, 0x5625a114, 0, 21, 0x85845dd1, 0x1e77fa61);
    Step(3, 8, 0x5625a114, 0x1e77fa61, 0x392ad0d0, 0x3450f42b, 0, 6, 0x6fa87e4f, 0x474a9c8c);
    Step(3, 9, 0x3450f42b, 0x474a9c8c, 0x1e77fa61, 0x392ad0d0, 0, 10, 0xfe2ce6e0, 0xdfce00bc);
    Step(3, 10, 0x392ad0d0, 0xdfce00bc, 0x474a9c8c, 0x1e77fa61, 0, 15, 0xa3014314, 0x36594b14);
    Step(3, 11, 0x1e77fa61, 0x36594b14, 0xdfce00bc, 0x474a9c8c, 0, 21, 0x4e0811a1, 0x30130182);
    Step(3, 12, 0x474a9c8c, 0x30130182, 0x36594b14, 0xdfce00bc, 0, 6, 0xf7537e82, 0x7246fad3);
    Step(3, 13, 0xdfce00bc, 0x7246fad3, 0x30130182, 0x36594b14, 0, 10, 0xbd3af235, 0x6e10a476);
    Step(3, 14, 0x36594b14, 0x6e10a476, 0x7246fad3, 0x30130182, 0, 15, 0x2ad7d2bb, 0xff4ea3eb);
    Step(3, 15, 0x30130182, 0xff4ea3eb, 0x6e10a476, 0x7246fad3, 0, 21, 0xeb86d391, 0x14e45506);
  }

  lemma {:induction false} Ends()
    requires After(64, 0x7246fad3, 0x14e45506, 0xff4ea3eb, 0x6e10a476)
    ensures Digest([]) == Output(Regs(0xd98c1dd4, 0x04b2008f, 0x980980e9, 0x7e42f8ec))
  {
    hide Padding, Operations, Output;
    PaddingIs(0);
    assert [] + Padding(0) == Padding(0);
    BlocksOne(INIT, Padding(0));
    Sum();
  }

  lemma Sum()
    ensures Added(INIT, Regs(0x7246fad3, 0x14e45506, 0xff4ea3eb, 0x6e10a476))
         == Regs(0xd98c1dd4, 0x04b2008f, 0x980980e9, 0x7e42f8ec)
  {
  }

  lemma Bytes16()
    ensures Output(Regs(0xd98c1dd4, 0x04b2008f, 0x980980e9, 0x7e42f8ec))
         == [0xd4, 0x1d, 0x8c, 0xd9, 0x8f, 0x00, 0xb2, 0x04, 0xe9, 0x80, 0x09, 0x98, 0xec, 0xf8, 0x42, 0x7e]
  {
  }

  /** MD5 ("") = d41d8cd98f00b204e9800998ecf8427e */
  lemma {:induction false} EmptyDigest()
    ensures Digest([]) == [0xd4, 0x1d, 0x8c, 0xd9, 0x8f, 0x00, 0xb2, 0x04, 0xe9, 0x80, 0x09, 0x98, 0xec, 0xf8, 0x42,
                           0x7e]
  {
    hide After, Digest, Output;
    Round3();
    Ends();
    Bytes16();
  }
}
