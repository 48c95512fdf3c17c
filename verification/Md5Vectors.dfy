/**
 * Two digests that RFC 1321 lists in appendix A.5, those of "" and of "a",
 * computed operation by operation.
 *
 * Each message fits into one block. Its sixteen words are given by a predicate,
 * and each lemma takes the chaining value four operations further, as numbers.
 * Next is one operation of section 3.4 with all that it computes on the way: the
 * word and the entry of the table, the auxiliary function, the three sums, the
 * rotation, and the last sum.
 */
module Md5Vectors {
  import opened Md5Spec

  lemma Next(i: nat, st: Chain, x: seq<bv32>,
             w: bv32, t: bv32, f: bv32, u: bv32, v: bv32, sum: bv32, rot: bv32, b: bv32)
    requires |x| == 16 && Operations(i, INITIAL, x) == st
    requires x[WordIndex(i)] == w && T(i) == t && Auxiliary(i, st.b, st.c, st.d) == f
    requires Plus(w, t) == u && Plus(f, u) == v && Plus(st.a, v) == sum
    requires RotateLeft(sum, Shift(i)) == rot && Plus(st.b, rot) == b
    ensures Operations(i + 1, INITIAL, x) == Chain(st.d, b, st.b, st.c)
  {
    hide Plus, T, Auxiliary, RotateLeft, Shift, WordIndex;
  }

  /** The initial value of section 3.3, its bytes counting up and then down. */
  lemma InitialBytes()
    ensures LittleBytes(INITIAL.a) + LittleBytes(INITIAL.b) + LittleBytes(INITIAL.c) + LittleBytes(INITIAL.d)
         == [0x01, 0x23, 0x45, 0x67, 0x89, 0xab, 0xcd, 0xef, 0xfe, 0xdc, 0xba, 0x98, 0x76, 0x54, 0x32, 0x10]
  {}

  lemma Before(x: seq<bv32>)
    requires |x| == 16
    ensures Operations(0, INITIAL, x) == Chain(0x67452301, 0xefcdab89, 0x98badcfe, 0x10325476)
  {}

  // ---------------------------------------------------------------------
  // The empty message

  predicate EmptyBlock(x: seq<bv32>) { |x| == 16 && x[0] == 0x80 && forall k :: 0 < k < 16 ==> x[k] == 0 }

  lemma Empty0(x: seq<bv32>)
    requires EmptyBlock(x)
    ensures Operations(4, INITIAL, x) == Chain(0xa5202774, 0x1b163203, 0xe7f06b23, 0xf59592dd)
  {
    hide Operations, Operation, Hash, WordsOf, G, H, I, T2, T3, T4, LittleWord, LittleBytes;
    Before(x);
    Next(0, Chain(0x67452301, 0xefcdab89, 0x98badcfe, 0x10325476), x,
         0x00000080, 0xd76aa478, 0x98badcfe, 0xd76aa4f8, 0x702581f6, 0xd76aa4f7, 0xb5527beb, 0xa5202774);
    Next(1, Chain(0x10325476, 0xa5202774, 0xefcdab89, 0x98badcfe), x,
         0x00000000, 0xe8c7b756, 0xbd9afb8a, 0xe8c7b756, 0xa662b2e0, 0xb6950756, 0x50756b69, 0xf59592dd);
    Next(2, Chain(0x98badcfe, 0xf59592dd, 0xa5202774, 0xefcdab89), x,
         0x00000000, 0x242070db, 0xaf482b54, 0x242070db, 0xd3689c2f, 0x6c23792d, 0xf25ad846, 0xe7f06b23);
    Next(3, Chain(0xefcdab89, 0xe7f06b23, 0xf59592dd, 0xa5202774), x,
         0x00000000, 0xc1bdceee, 0xe5900655, 0xc1bdceee, 0xa74dd543, 0x971b80cc, 0x3325c6e0, 0x1b163203);
  }

  lemma Empty4(x: seq<bv32>)
    requires EmptyBlock(x)
    ensures Operations(8, INITIAL, x) == Chain(0x32033344, 0x9bc13ce9, 0xf5b158db, 0x2f35d494)
  {
    hide Operations, Operation, Hash, WordsOf, G, H, I, T2, T3, T4, LittleWord, LittleBytes;
    Empty0(x);
    Next(4, Chain(0xa5202774, 0x1b163203, 0xe7f06b23, 0xf59592dd), x,
         0x00000000, 0xf57c0faf, 0xe791a2df, 0xf57c0faf, 0xdd0db28e, 0x822dda02, 0x16ed0141, 0x32033344);
    Next(5, Chain(0xf59592dd, 0x32033344, 0x1b163203, 0xe7f06b23), x,
         0x00000000, 0x4787c62a, 0xd7f27a23, 0x4787c62a, 0x1f7a404d, 0x150fd32a, 0xfd32a150, 0x2f35d494);
    Next(6, Chain(0xe7f06b23, 0x2f35d494, 0x32033344, 0x1b163203), x,
         0x00000000, 0xa8304613, 0x32033207, 0xa8304613, 0xda33781a, 0xc223e33d, 0xc67b8447, 0xf5b158db);
    Next(7, Chain(0x1b163203, 0xf5b158db, 0x2f35d494, 0x32033344), x,
         0x00000000, 0xfd469501, 0x27337394, 0xfd469501, 0x247a0895, 0x3f903a98, 0xa60fe40e, 0x9bc13ce9);
  }

  lemma Empty8(x: seq<bv32>)
    requires EmptyBlock(x)
    ensures Operations(12, INITIAL, x) == Chain(0x3893b991, 0x70768a29, 0xe1ef0576, 0xfce4a312)
  {
    hide Operations, Operation, Hash, WordsOf, G, H, I, T2, T3, T4, LittleWord, LittleBytes;
    Empty4(x);
    Next(8, Chain(0x32033344, 0x9bc13ce9, 0xf5b158db, 0x2f35d494), x,
         0x00000000, 0x698098d8, 0xb5b5d8dd, 0x698098d8, 0x1f3671b5, 0x5139a4f9, 0x9cd27ca8, 0x3893b991);
    Next(9, Chain(0x2f35d494, 0x3893b991, 0x9bc13ce9, 0xf5b158db), x,
         0x00000000, 0x8b44f7af, 0xdda178cb, 0x8b44f7af, 0x68e6707a, 0x981c450e, 0xc450e981, 0xfce4a312);
    Next(10, Chain(0xf5b158db, 0xfce4a312, 0x3893b991, 0x9bc13ce9), x,
         0x00000000, 0xffff5bb1, 0x3b81bdf9, 0xffff5bb1, 0x3b8119aa, 0x31327285, 0xe50a6264, 0xe1ef0576);
    Next(11, Chain(0x9bc13ce9, 0xe1ef0576, 0xfce4a312, 0x3893b991), x,
         0x00000000, 0x895cd7be, 0xf8f4b993, 0x895cd7be, 0x82519151, 0x1e12ce3a, 0x8e8784b3, 0x70768a29);
  }

  lemma Empty12(x: seq<bv32>)
    requires EmptyBlock(x)
    ensures Operations(16, INITIAL, x) == Chain(0xf56c7cf1, 0xd6819c6a, 0x5aa53f75, 0x374943a7)
  {
    hide Operations, Operation, Hash, WordsOf, G, H, I, T2, T3, T4, LittleWord, LittleBytes;
    Empty8(x);
    Next(12, Chain(0x3893b991, 0x70768a29, 0xe1ef0576, 0xfce4a312), x,
         0x00000000, 0x6b901122, 0xece62132, 0x6b901122, 0x58763254, 0x9109ebe5, 0x84f5f2c8, 0xf56c7cf1);
    Next(13, Chain(0xfce4a312, 0xf56c7cf1, 0x70768a29, 0xe1ef0576), x,
         0x00000000, 0xfd987193, 0x70e70927, 0xfd987193, 0x6e7f7aba, 0x6b641dcc, 0x41dcc6b6, 0x374943a7);
    Next(14, Chain(0xe1ef0576, 0x374943a7, 0xf56c7cf1, 0x70768a29), x,
         0x00000000, 0xa679438e, 0x757ec8a9, 0xa679438e, 0x1bf80c37, 0xfde711ad, 0x235bfbce, 0x5aa53f75);
    Next(15, Chain(0x70768a29, 0x5aa53f75, 0x374943a7, 0xf56c7cf1), x,
         0x00000000, 0x49b40821, 0xb74943a5, 0x49b40821, 0x00fd4bc6, 0x7173d5ef, 0x7bdc5cf5, 0xd6819c6a);
  }

  lemma Empty16(x: seq<bv32>)
    requires EmptyBlock(x)
    ensures Operations(20, INITIAL, x) == Chain(0x1c7d7513, 0xbd782e17, 0xc095f13a, 0x7bd57a3a)
  {
    hide Operations, Operation, Hash, WordsOf, F, H, I, T1, T3, T4, LittleWord, LittleBytes;
    Empty12(x);
    Next(16, Chain(0xf56c7cf1, 0xd6819c6a, 0x5aa53f75, 0x374943a7), x,
         0x00000000, 0xf61e2562, 0x5ea53c72, 0xf61e2562, 0x54c361d4, 0x4a2fdec5, 0x45fbd8a9, 0x1c7d7513);
    Next(17, Chain(0x374943a7, 0x1c7d7513, 0xd6819c6a, 0x5aa53f75), x,
         0x00000000, 0xc040b340, 0x9c25b51b, 0xc040b340, 0x5c66685b, 0x93afac02, 0x5f580527, 0x7bd57a3a);
    Next(18, Chain(0x5aa53f75, 0x7bd57a3a, 0x1c7d7513, 0xd6819c6a), x,
         0x00000000, 0x265e5a51, 0x5afd793b, 0x265e5a51, 0x815bd38c, 0xdc011301, 0x44c07700, 0xc095f13a);
    Next(19, Chain(0xd6819c6a, 0xc095f13a, 0x7bd57a3a, 0x1c7d7513), x,
         0x00000080, 0xe9b6c7aa, 0x63957b3a, 0xe9b6c82a, 0x4d4c4364, 0x23cddfce, 0xfce23cdd, 0xbd782e17);
  }

  lemma Empty20(x: seq<bv32>)
    requires EmptyBlock(x)
    ensures Operations(24, INITIAL, x) == Chain(0x3d1e3e6c, 0xe422531a, 0xeb41643e, 0x68b7b3e3)
  {
    hide Operations, Operation, Hash, WordsOf, F, H, I, T1, T3, T4, LittleWord, LittleBytes;
    Empty16(x);
    Next(20, Chain(0x1c7d7513, 0xbd782e17, 0xc095f13a, 0x7bd57a3a), x,
         0x00000000, 0xd62f105d, 0xb950ab12, 0xd62f105d, 0x8f7fbb6f, 0xabfd3082, 0x7fa61055, 0x3d1e3e6c);
    Next(21, Chain(0x7bd57a3a, 0x3d1e3e6c, 0xbd782e17, 0xc095f13a), x,
         0x00000000, 0x02441453, 0x3d7c3e2d, 0x02441453, 0x3fc05280, 0xbb95ccba, 0x2b997577, 0x68b7b3e3);
    Next(22, Chain(0xc095f13a, 0x68b7b3e3, 0x3d1e3e6c, 0xbd782e17), x,
         0x00000000, 0xd8a1e681, 0x2836326b, 0xd8a1e681, 0x00d818ec, 0xc16e0a26, 0x8289b05b, 0xeb41643e);
    Next(23, Chain(0xbd782e17, 0xeb41643e, 0x68b7b3e3, 0x3d1e3e6c), x,
         0x00000000, 0xe7d3fbc8, 0x69a1a5af, 0xe7d3fbc8, 0x5175a177, 0x0eedcf8e, 0xf8e0eedc, 0xe422531a);
  }

  lemma Empty24(x: seq<bv32>)
    requires EmptyBlock(x)
    ensures Operations(28, INITIAL, x) == Chain(0x306ec122, 0xa0572807, 0xa3c663da, 0xd28c77c2)
  {
    hide Operations, Operation, Hash, WordsOf, F, H, I, T1, T3, T4, LittleWord, LittleBytes;
    Empty20(x);
    Next(24, Chain(0x3d1e3e6c, 0xe422531a, 0xeb41643e, 0x68b7b3e3), x,
         0x00000000, 0x21e1cde6, 0xe362571e, 0x21e1cde6, 0x05442504, 0x42626370, 0x4c4c6e08, 0x306ec122);
    Next(25, Chain(0x68b7b3e3, 0x306ec122, 0xe422531a, 0xeb41643e), x,
         0x00000000, 0xc33707d6, 0x24625322, 0xc33707d6, 0xe7995af8, 0x50510edb, 0xa21db6a0, 0xd28c77c2);
    Next(26, Chain(0xeb41643e, 0xd28c77c2, 0x306ec122, 0xe422531a), x,
         0x00000000, 0xf4d50d87, 0xd04cd322, 0xf4d50d87, 0xc521e0a9, 0xb06344e7, 0xd139ec18, 0xa3c663da);
    Next(27, Chain(0xe422531a, 0xa3c663da, 0xd28c77c2, 0x306ec122), x,
         0x00000000, 0x455a14ed, 0xe2c677c2, 0x455a14ed, 0x28208caf, 0x0c42dfc9, 0xfc90c42d, 0xa0572807);
  }

  lemma Empty28(x: seq<bv32>)
    requires EmptyBlock(x)
    ensures Operations(32, INITIAL, x) == Chain(0x13707036, 0xa2205f1f, 0x1c31c384, 0xae7813db)
  {
    hide Operations, Operation, Hash, WordsOf, F, H, I, T1, T3, T4, LittleWord, LittleBytes;
    Empty24(x);
    Next(28, Chain(0x306ec122, 0xa0572807, 0xa3c663da, 0xd28c77c2), x,
         0x00000000, 0xa9e3e905, 0xa146201a, 0xa9e3e905, 0x4b2a091f, 0x7b98ca41, 0x7319482f, 0x13707036);
    Next(29, Chain(0xd28c77c2, 0x13707036, 0xa0572807, 0xa3c663da), x,
         0x00000000, 0xfcefa3f8, 0x03516817, 0xfcefa3f8, 0x00410c0f, 0xd2cd83d1, 0x9b07a3a5, 0xae7813db);
    Next(30, Chain(0xa3c663da, 0xae7813db, 0x13707036, 0xa0572807), x,
         0x00000000, 0x676f02d9, 0xb3705033, 0x676f02d9, 0x1adf530c, 0xbea5b6e6, 0x6db9afa9, 0x1c31c384);
    Next(31, Chain(0xa0572807, 0x1c31c384, 0xae7813db, 0x13707036), x,
         0x00000000, 0x8d2a4c8a, 0xbc3843cd, 0x8d2a4c8a, 0x49629057, 0xe9b9b85e, 0x85ee9b9b, 0xa2205f1f);
  }

  lemma Empty32(x: seq<bv32>)
    requires EmptyBlock(x)
    ensures Operations(36, INITIAL, x) == Chain(0xdf63eaa1, 0x004b6669, 0x12f3e755, 0xc3689f5b)
  {
    hide Operations, Operation, Hash, WordsOf, F, G, I, T1, T2, T4, LittleWord, LittleBytes;
    Empty28(x);
    Next(32, Chain(0x13707036, 0xa2205f1f, 0x1c31c384, 0xae7813db), x,
         0x00000000, 0xfffa3942, 0x10698f40, 0xfffa3942, 0x1063c882, 0x23d438b8, 0x3d438b82, 0xdf63eaa1);
    Next(33, Chain(0xae7813db, 0xdf63eaa1, 0xa2205f1f, 0x1c31c384), x,
         0x00000000, 0x8771f681, 0x6172763a, 0x8771f681, 0xe8e46cbb, 0x975c8096, 0xe404b4ba, 0xc3689f5b);
    Next(34, Chain(0x1c31c384, 0xc3689f5b, 0xdf63eaa1, 0xa2205f1f), x,
         0x00000000, 0x6d9d6122, 0xbe2b2ae5, 0x6d9d6122, 0x2bc88c07, 0x47fa4f8b, 0x4f8b47fa, 0x12f3e755);
    Next(35, Chain(0xa2205f1f, 0x12f3e755, 0xc3689f5b, 0xdf63eaa1), x,
         0x00000000, 0xfde5380c, 0x0ef892af, 0xfde5380c, 0x0cddcabb, 0xaefe29da, 0xed577f14, 0x004b6669);
  }

  lemma Empty36(x: seq<bv32>)
    requires EmptyBlock(x)
    ensures Operations(40, INITIAL, x) == Chain(0x5f7a9b2e, 0xc5dc8c15, 0x91ca4cb7, 0xabc34e16)
  {
    hide Operations, Operation, Hash, WordsOf, F, G, I, T1, T2, T4, LittleWord, LittleBytes;
    Empty32(x);
    Next(36, Chain(0xdf63eaa1, 0x004b6669, 0x12f3e755, 0xc3689f5b), x,
         0x00000000, 0xa4beea44, 0xd1d01e67, 0xa4beea44, 0x768f08ab, 0x55f2f34c, 0x5f2f34c5, 0x5f7a9b2e);
    Next(37, Chain(0xc3689f5b, 0x5f7a9b2e, 0x004b6669, 0x12f3e755), x,
         0x00000000, 0x4bdecfa9, 0x4dc21a12, 0x4bdecfa9, 0x99a0e9bb, 0x5d098916, 0x4c48b2e8, 0xabc34e16);
    Next(38, Chain(0x12f3e755, 0xabc34e16, 0x5f7a9b2e, 0x004b6669), x,
         0x00000000, 0xf6bb4b60, 0xf4f2b351, 0xf6bb4b60, 0xebadfeb1, 0xfea1e606, 0xe606fea1, 0x91ca4cb7);
    Next(39, Chain(0x004b6669, 0x91ca4cb7, 0xabc34e16, 0x5f7a9b2e), x,
         0x00000000, 0xbebfbc70, 0x6573998f, 0xbebfbc70, 0x243355ff, 0x247ebc68, 0x34123f5e, 0xc5dc8c15);
  }

  lemma Empty40(x: seq<bv32>)
    requires EmptyBlock(x)
    ensures Operations(44, INITIAL, x) == Chain(0x4497169d, 0x0fe32453, 0xfd95f243, 0x76fd93d4)
  {
    hide Operations, Operation, Hash, WordsOf, F, G, I, T1, T2, T4, LittleWord, LittleBytes;
    Empty36(x);
    Next(40, Chain(0x5f7a9b2e, 0xc5dc8c15, 0x91ca4cb7, 0xabc34e16), x,
         0x00000000, 0x289b7ec6, 0xffd58eb4, 0x289b7ec6, 0x28710d7a, 0x87eba8a8, 0x7eba8a88, 0x4497169d);
    Next(41, Chain(0xabc34e16, 0x4497169d, 0xc5dc8c15, 0x91ca4cb7), x,
         0x00000080, 0xeaa127fa, 0x1081d63f, 0xeaa1287a, 0xfb22feb9, 0xa6e64ccf, 0x32667d37, 0x76fd93d4);
    Next(42, Chain(0x91ca4cb7, 0x76fd93d4, 0x4497169d, 0xc5dc8c15), x,
         0x00000000, 0xd4ef3085, 0xf7b6095c, 0xd4ef3085, 0xcca539e1, 0x5e6f8698, 0x86985e6f, 0xfd95f243);
    Next(43, Chain(0xc5dc8c15, 0xfd95f243, 0x76fd93d4, 0x4497169d), x,
         0x00000000, 0x04881d05, 0xcfff770a, 0x04881d05, 0xd487940f, 0x9a642024, 0x124d3210, 0x0fe32453);
  }

  lemma Empty44(x: seq<bv32>)
    requires EmptyBlock(x)
    ensures Operations(48, INITIAL, x) == Chain(0x3f55edfd, 0xca7d2dbd, 0x68d84ea2, 0x22a31f54)
  {
    hide Operations, Operation, Hash, WordsOf, F, G, I, T1, T2, T4, LittleWord, LittleBytes;
    Empty40(x);
    Next(44, Chain(0x4497169d, 0x0fe32453, 0xfd95f243, 0x76fd93d4), x,
         0x00000000, 0xd9d4d039, 0x848b45c4, 0xd9d4d039, 0x5e6015fd, 0xa2f72c9a, 0x2f72c9aa, 0x3f55edfd);
    Next(45, Chain(0x76fd93d4, 0x3f55edfd, 0x0fe32453, 0xfd95f243), x,
         0x00000000, 0xe6db99e5, 0xcd233bed, 0xe6db99e5, 0xb3fed5d2, 0x2afc69a6, 0xe34d3157, 0x22a31f54);
    Next(46, Chain(0xfd95f243, 0x22a31f54, 0x3f55edfd, 0x0fe32453), x,
         0x00000000, 0x1fa27cf8, 0x1215d6fa, 0x1fa27cf8, 0x31b853f2, 0x2f4e4635, 0x46352f4e, 0x68d84ea2);
    Next(47, Chain(0x0fe32453, 0x68d84ea2, 0x22a31f54, 0x3f55edfd), x,
         0x00000000, 0xc4ac5665, 0x752ebc0b, 0xc4ac5665, 0x39db1270, 0x49be36c3, 0x61a4df1b, 0xca7d2dbd);
  }

  lemma Empty48(x: seq<bv32>)
    requires EmptyBlock(x)
    ensures Operations(52, INITIAL, x) == Chain(0x93aa2577, 0x561e0689, 0xcd85b8cb, 0x1688dc85)
  {
    hide Operations, Operation, Hash, WordsOf, F, G, H, T1, T2, T3, LittleWord, LittleBytes;
    Empty44(x);
    Next(48, Chain(0x3f55edfd, 0xca7d2dbd, 0x68d84ea2, 0x22a31f54), x,
         0x00000080, 0xf4292244, 0xb7a5a31d, 0xf42922c4, 0xabcec5e1, 0xeb24b3de, 0xc92cf7ba, 0x93aa2577);
    Next(49, Chain(0x22a31f54, 0x93aa2577, 0xca7d2dbd, 0x68d84ea2), x,
         0x00000000, 0x432aff97, 0x5dd298c2, 0x432aff97, 0xa0fd9859, 0xc3a0b7ad, 0x82deb70e, 0x1688dc85);
    Next(50, Chain(0x68d84ea2, 0x1688dc85, 0x93aa2577, 0xca7d2dbd), x,
         0x00000000, 0xab9423a7, 0xa420fbb0, 0xab9423a7, 0x4fb51f57, 0xb88d6df9, 0xb6fcdc46, 0xcd85b8cb);
    Next(51, Chain(0xca7d2dbd, 0xcd85b8cb, 0x1688dc85, 0x93aa2577), x,
         0x00000000, 0xfc93a039, 0xfb5d264e, 0xfc93a039, 0xf7f0c687, 0xc26df444, 0x88984dbe, 0x561e0689);
  }

  lemma Empty52(x: seq<bv32>)
    requires EmptyBlock(x)
    ensures Operations(56, INITIAL, x) == Chain(0x5625a114, 0x1e77fa61, 0x392ad0d0, 0x3450f42b)
  {
    hide Operations, Operation, Hash, WordsOf, F, G, H, T1, T2, T3, LittleWord, LittleBytes;
    Empty48(x);
    Next(52, Chain(0x93aa2577, 0x561e0689, 0xcd85b8cb, 0x1688dc85), x,
         0x00000000, 0x655b59c3, 0x32fa9f30, 0x655b59c3, 0x9855f8f3, 0x2c001e6a, 0x00079a8b, 0x5625a114);
    Next(53, Chain(0x1688dc85, 0x5625a114, 0x561e0689, 0xcd85b8cb), x,
         0x00000000, 0x8f0ccc92, 0x2061e1bd, 0x8f0ccc92, 0xaf6eae4f, 0xc5f78ad4, 0xde2b5317, 0x3450f42b);
    Next(54, Chain(0xcd85b8cb, 0x3450f42b, 0x5625a114, 0x561e0689), x,
         0x00000000, 0xffeff47d, 0xebd45c6b, 0xffeff47d, 0xebc450e8, 0xb94a09b3, 0x04d9dca5, 0x392ad0d0);
    Next(55, Chain(0x561e0689, 0x392ad0d0, 0x3450f42b, 0x5625a114), x,
         0x00000000, 0x85845dd1, 0x8daa2ad0, 0x85845dd1, 0x132e88a1, 0x694c8f2a, 0xe54d2991, 0x1e77fa61);
  }

  lemma Empty56(x: seq<bv32>)
    requires EmptyBlock(x)
    ensures Operations(60, INITIAL, x) == Chain(0x474a9c8c, 0x30130182, 0x36594b14, 0xdfce00bc)
  {
    hide Operations, Operation, Hash, WordsOf, F, G, H, T1, T2, T3, LittleWord, LittleBytes;
    Empty52(x);
    Next(56, Chain(0x5625a114, 0x1e77fa61, 0x392ad0d0, 0x3450f42b), x,
         0x00000000, 0x6fa87e4f, 0xe6d52b25, 0x6fa87e4f, 0x567da974, 0xaca34a88, 0x28d2a22b, 0x474a9c8c);
    Next(57, Chain(0x3450f42b, 0x474a9c8c, 0x1e77fa61, 0x392ad0d0), x,
         0x00000000, 0xfe2ce6e0, 0xd9a845ce, 0xfe2ce6e0, 0xd7d52cae, 0x0c2620d9, 0x98836430, 0xdfce00bc);
    Next(58, Chain(0x392ad0d0, 0xdfce00bc, 0x474a9c8c, 0x1e77fa61), x,
         0x00000000, 0xa3014314, 0xb8849932, 0xa3014314, 0x5b85dc46, 0x94b0ad16, 0x568b4a58, 0x36594b14);
    Next(59, Chain(0x1e77fa61, 0x36594b14, 0xdfce00bc, 0x474a9c8c), x,
         0x00000000, 0x4e0811a1, 0x61336bcb, 0x4e0811a1, 0xaf3b7d6c, 0xcdb377cd, 0xf9b9b66e, 0x30130182);
  }

  lemma Empty60(x: seq<bv32>)
    requires EmptyBlock(x)
    ensures Operations(64, INITIAL, x) == Chain(0x7246fad3, 0x14e45506, 0xff4ea3eb, 0x6e10a476)
  {
    hide Operations, Operation, Hash, WordsOf, F, G, H, T1, T2, T3, LittleWord, LittleBytes;
    Empty56(x);
    Next(60, Chain(0x474a9c8c, 0x30130182, 0x36594b14, 0xdfce00bc), x,
         0x00000000, 0xf7537e82, 0x066ab4d7, 0xf7537e82, 0xfdbe3359, 0x4508cfe5, 0x4233f951, 0x7246fad3);
    Next(61, Chain(0xdfce00bc, 0x7246fad3, 0x30130182, 0x36594b14), x,
         0x00000000, 0xbd3af235, 0xcbf5ff79, 0xbd3af235, 0x8930f1ae, 0x68fef26a, 0xfbc9a9a3, 0x6e10a476);
    Next(62, Chain(0x36594b14, 0x6e10a476, 0x7246fad3, 0x30130182), x,
         0x00000000, 0x2ad7d2bb, 0x9dba04ac, 0x2ad7d2bb, 0xc891d767, 0xfeeb227b, 0x913dff75, 0xff4ea3eb);
    Next(63, Chain(0x30130182, 0xff4ea3eb, 0x6e10a476, 0x7246fad3), x,
         0x00000000, 0xeb86d391, 0x91ef0399, 0xeb86d391, 0x7d75d72a, 0xad88d8ac, 0x1595b11b, 0x14e45506);
  }

  // ---------------------------------------------------------------------
  // The message "a"

  predicate LetterBlock(x: seq<bv32>) {
    |x| == 16 && x[0] == 0x8061 && x[14] == 8 && forall k :: 0 < k < 16 && k != 14 ==> x[k] == 0
  }

  lemma Letter0(x: seq<bv32>)
    requires LetterBlock(x)
    ensures Operations(4, INITIAL, x) == Chain(0xa56017f4, 0x607d9686, 0xe65857a7, 0xf2d58361)
  {
    hide Operations, Operation, Hash, WordsOf, G, H, I, T2, T3, T4, LittleWord, LittleBytes;
    Before(x);
    Next(0, Chain(0x67452301, 0xefcdab89, 0x98badcfe, 0x10325476), x,
         0x00008061, 0xd76aa478, 0x98badcfe, 0xd76b24d9, 0x702601d7, 0xd76b24d8, 0xb5926c6b, 0xa56017f4);
    Next(1, Chain(0x10325476, 0xa56017f4, 0xefcdab89, 0x98badcfe), x,
         0x00000000, 0xe8c7b756, 0xbddacb8a, 0xe8c7b756, 0xa6a282e0, 0xb6d4d756, 0x4d756b6d, 0xf2d58361);
    Next(2, Chain(0x98badcfe, 0xf2d58361, 0xa56017f4, 0xefcdab89), x,
         0x00000000, 0x242070db, 0xad482be8, 0x242070db, 0xd1689cc3, 0x6a2379c1, 0xf382d446, 0xe65857a7);
    Next(3, Chain(0xefcdab89, 0xe65857a7, 0xf2d58361, 0xa56017f4), x,
         0x00000000, 0xc1bdceee, 0xe3700371, 0xc1bdceee, 0xa52dd25f, 0x94fb7de8, 0x7a253edf, 0x607d9686);
  }

  lemma Letter4(x: seq<bv32>)
    requires LetterBlock(x)
    ensures Operations(8, INITIAL, x) == Chain(0x3a9d5bcc, 0xa8af6da5, 0xd31ddc83, 0xe0a07db7)
  {
    hide Operations, Operation, Hash, WordsOf, G, H, I, T2, T3, T4, LittleWord, LittleBytes;
    Letter0(x);
    Next(4, Chain(0xa56017f4, 0x607d9686, 0xe65857a7, 0xf2d58361), x,
         0x00000000, 0xf57c0faf, 0xf2d817e7, 0xf57c0faf, 0xe8542796, 0x8db43f8a, 0xda1fc546, 0x3a9d5bcc);
    Next(5, Chain(0xf2d58361, 0x3a9d5bcc, 0x607d9686, 0xe65857a7), x,
         0x00000000, 0x4787c62a, 0xe45d16a7, 0x4787c62a, 0x2be4dcd1, 0x1eba6032, 0xa60321eb, 0xe0a07db7);
    Next(6, Chain(0xe65857a7, 0xe0a07db7, 0x3a9d5bcc, 0x607d9686), x,
         0x00000000, 0xa8304613, 0x20dddb84, 0xa8304613, 0xc90e2197, 0xaf66793e, 0xf27d5ecc, 0xd31ddc83);
    Next(7, Chain(0x607d9686, 0xd31ddc83, 0xe0a07db7, 0x3a9d5bcc), x,
         0x00000000, 0xfd469501, 0xe8805fcf, 0xfd469501, 0xe5c6f4d0, 0x46448b56, 0xd5919122, 0xa8af6da5);
  }

  lemma Letter8(x: seq<bv32>)
    requires LetterBlock(x)
    ensures Operations(12, INITIAL, x) == Chain(0xbe580957, 0x68493d6a, 0xf5fdd933, 0xf386bea6)
  {
    hide Operations, Operation, Hash, WordsOf, G, H, I, T2, T3, T4, LittleWord, LittleBytes;
    Letter4(x);
    Next(8, Chain(0x3a9d5bcc, 0xa8af6da5, 0xd31ddc83, 0xe0a07db7), x,
         0x00000000, 0x698098d8, 0xc00d5c93, 0x698098d8, 0x298df56b, 0x642b5137, 0x15a89bb2, 0xbe580957);
    Next(9, Chain(0xe0a07db7, 0xbe580957, 0xa8af6da5, 0xd31ddc83), x,
         0x00000000, 0x8b44f7af, 0xe90ddd85, 0x8b44f7af, 0x7452d534, 0x54f352eb, 0x352eb54f, 0xf386bea6);
    Next(10, Chain(0xd31ddc83, 0xf386bea6, 0xbe580957, 0xa8af6da5), x,
         0x00000000, 0xffff5bb1, 0xba294907, 0xffff5bb1, 0xba28a4b8, 0x8d46813b, 0x02771a8d, 0xf5fdd933);
    Next(11, Chain(0xa8af6da5, 0xf5fdd933, 0xf386bea6, 0xbe580957), x,
         0x00000000, 0x895cd7be, 0xfb849866, 0x895cd7be, 0x84e17024, 0x2d90ddc9, 0x724b6437, 0x68493d6a);
  }

  lemma Letter12(x: seq<bv32>)
    requires LetterBlock(x)
    ensures Operations(16, INITIAL, x) == Chain(0x44244cf8, 0xf01e3ce2, 0x6360a45f, 0xd0fe9b27)
  {
    hide Operations, Operation, Hash, WordsOf, G, H, I, T2, T3, T4, LittleWord, LittleBytes;
    Letter8(x);
    Next(12, Chain(0xbe580957, 0x68493d6a, 0xf5fdd933, 0xf386bea6), x,
         0x00000000, 0x6b901122, 0xf3cf9ba6, 0x6b901122, 0x5f5facc8, 0x1db7b61f, 0xdbdb0f8e, 0x44244cf8);
    Next(13, Chain(0xf386bea6, 0x44244cf8, 0x68493d6a, 0xf5fdd933), x,
         0x00000000, 0xfd987193, 0xf1d99d6b, 0xfd987193, 0xef720efe, 0xe2f8cda4, 0x8cda4e2f, 0xd0fe9b27);
    Next(14, Chain(0xf5fdd933, 0xd0fe9b27, 0x44244cf8, 0x68493d6a), x,
         0x00000008, 0xa679438e, 0x68252c68, 0xa6794396, 0x0e9e6ffe, 0x049c4931, 0x92620938, 0x6360a45f);
    Next(15, Chain(0x68493d6a, 0x6360a45f, 0xd0fe9b27, 0x44244cf8), x,
         0x00000000, 0x49b40821, 0x4464c8a7, 0x49b40821, 0x8e18d0c8, 0xf6620e32, 0x8cbd9883, 0xf01e3ce2);
  }

  lemma Letter16(x: seq<bv32>)
    requires LetterBlock(x)
    ensures Operations(20, INITIAL, x) == Chain(0x9c341767, 0x8d25cc66, 0xe39ffd23, 0x970ab3a9)
  {
    hide Operations, Operation, Hash, WordsOf, F, H, I, T1, T3, T4, LittleWord, LittleBytes;
    Letter12(x);
    Next(16, Chain(0x44244cf8, 0xf01e3ce2, 0x6360a45f, 0xd0fe9b27), x,
         0x00000000, 0xf61e2562, 0xf31e3c7a, 0xf61e2562, 0xe93c61dc, 0x2d60aed4, 0xac15da85, 0x9c341767);
    Next(17, Chain(0xd0fe9b27, 0x9c341767, 0xf01e3ce2, 0x6360a45f), x,
         0x00000000, 0xc040b340, 0x903e1ce7, 0xc040b340, 0x507ed027, 0x217d6b4e, 0xfad69c42, 0x970ab3a9);
    Next(18, Chain(0x6360a45f, 0x970ab3a9, 0x9c341767, 0xf01e3ce2), x,
         0x00000000, 0x265e5a51, 0x9c2a33a5, 0x265e5a51, 0xc2888df6, 0x25e93255, 0x4c95497a, 0xe39ffd23);
    Next(19, Chain(0xf01e3ce2, 0xe39ffd23, 0x970ab3a9, 0x9c341767), x,
         0x00008061, 0xe9b6c7aa, 0x831eb5ab, 0xe9b7480b, 0x6cd5fdb6, 0x5cf43a98, 0xa985cf43, 0x8d25cc66);
  }

  lemma Letter20(x: seq<bv32>)
    requires LetterBlock(x)
    ensures Operations(24, INITIAL, x) == Chain(0x8c444930, 0x373beab0, 0x2dacb8a3, 0x7267097a)
  {
    hide Operations, Operation, Hash, WordsOf, F, H, I, T1, T3, T4, LittleWord, LittleBytes;
    Letter16(x);
    Next(20, Chain(0x9c341767, 0x8d25cc66, 0xe39ffd23, 0x970ab3a9), x,
         0x00000000, 0xd62f105d, 0xe595cc22, 0xd62f105d, 0xbbc4dc7f, 0x57f8f3e6, 0xff1e7cca, 0x8c444930);
    Next(21, Chain(0x970ab3a9, 0x8c444930, 0x8d25cc66, 0xe39ffd23), x,
         0x00000000, 0x02441453, 0x8c244964, 0x02441453, 0x8e685db7, 0x25731160, 0xe622c04a, 0x7267097a);
    Next(22, Chain(0xe39ffd23, 0x7267097a, 0x8c444930, 0x8d25cc66), x,
         0x00000000, 0xd8a1e681, 0x00650972, 0xd8a1e681, 0xd906eff3, 0xbca6ed16, 0xbb45af29, 0x2dacb8a3);
    Next(23, Chain(0x8d25cc66, 0x2dacb8a3, 0x7267097a, 0x8c444930), x,
         0x00000000, 0xe7d3fbc8, 0x7e27086a, 0xe7d3fbc8, 0x65fb0432, 0xf320d098, 0x098f320d, 0x373beab0);
  }

  lemma Letter24(x: seq<bv32>)
    requires LetterBlock(x)
    ensures Operations(28, INITIAL, x) == Chain(0xf175e3ad, 0xc8f891b4, 0x87b7f475, 0x9d5df67e)
  {
    hide Operations, Operation, Hash, WordsOf, F, H, I, T1, T3, T4, LittleWord, LittleBytes;
    Letter20(x);
    Next(24, Chain(0x8c444930, 0x373beab0, 0x2dacb8a3, 0x7267097a), x,
         0x00000000, 0x21e1cde6, 0x3fabb8b1, 0x21e1cde6, 0x618d8697, 0xedd1cfc7, 0xba39f8fd, 0xf175e3ad);
    Next(25, Chain(0x7267097a, 0xf175e3ad, 0x373beab0, 0x2dacb8a3), x,
         0x00000008, 0xc33707d6, 0x3337e2b1, 0xc33707de, 0xf66eea8f, 0x68d5f409, 0xabe812d1, 0x9d5df67e);
    Next(26, Chain(0x2dacb8a3, 0x9d5df67e, 0xf175e3ad, 0x373beab0), x,
         0x00000000, 0xf4d50d87, 0xd55de33d, 0xf4d50d87, 0xca32f0c4, 0xf7dfa967, 0xea59fdf7, 0x87b7f475);
    Next(27, Chain(0x373beab0, 0x87b7f475, 0x9d5df67e, 0xf175e3ad), x,
         0x00000000, 0x455a14ed, 0x8d3df477, 0x455a14ed, 0xd2980964, 0x09d3f414, 0x41409d3f, 0xc8f891b4);
  }

  lemma Letter28(x: seq<bv32>)
    requires LetterBlock(x)
    ensures Operations(32, INITIAL, x) == Chain(0x93842e98, 0x3745961f, 0x94a2ebee, 0xc7043b64)
  {
    hide Operations, Operation, Hash, WordsOf, F, H, I, T1, T3, T4, LittleWord, LittleBytes;
    Letter24(x);
    Next(28, Chain(0xf175e3ad, 0xc8f891b4, 0x87b7f475, 0x9d5df67e), x,
         0x00000000, 0xa9e3e905, 0x8afa9035, 0xa9e3e905, 0x34de793a, 0x26545ce7, 0xca8b9ce4, 0x93842e98);
    Next(29, Chain(0x9d5df67e, 0x93842e98, 0xc8f891b4, 0x87b7f475), x,
         0x00000000, 0xfcefa3f8, 0xcbcc2590, 0xfcefa3f8, 0xc8bbc988, 0x6619c006, 0x33800ccc, 0xc7043b64);
    Next(30, Chain(0x87b7f475, 0xc7043b64, 0x93842e98, 0xc8f891b4), x,
         0x00000000, 0x676f02d9, 0xd3043f2c, 0x676f02d9, 0x3a734205, 0xc22b367a, 0xcd9eb08a, 0x94a2ebee);
    Next(31, Chain(0xc8f891b4, 0x94a2ebee, 0xc7043b64, 0x93842e98), x,
         0x00000000, 0x8d2a4c8a, 0xd4803bec, 0x8d2a4c8a, 0x61aa8876, 0x2aa31a2a, 0xa2a2aa31, 0x3745961f);
  }

  lemma Letter32(x: seq<bv32>)
    requires LetterBlock(x)
    ensures Operations(36, INITIAL, x) == Chain(0xbd607d1e, 0xdaf7f308, 0xbf8b4f98, 0xa6f72085)
  {
    hide Operations, Operation, Hash, WordsOf, F, G, I, T1, T2, T4, LittleWord, LittleBytes;
    Letter28(x);
    Next(32, Chain(0x93842e98, 0x3745961f, 0x94a2ebee, 0xc7043b64), x,
         0x00000000, 0xfffa3942, 0x64e34695, 0xfffa3942, 0x64dd7fd7, 0xf861ae6f, 0x861ae6ff, 0xbd607d1e);
    Next(33, Chain(0xc7043b64, 0xbd607d1e, 0x3745961f, 0x94a2ebee), x,
         0x00000000, 0x8771f681, 0x1e8700ef, 0x8771f681, 0xa5f8f770, 0x6cfd32d4, 0xe996a367, 0xa6f72085);
    Next(34, Chain(0x94a2ebee, 0xa6f72085, 0xbd607d1e, 0x3745961f), x,
         0x00000000, 0x6d9d6122, 0x2cd2cb84, 0x6d9d6122, 0x9a702ca6, 0x2f131894, 0x18942f13, 0xbf8b4f98);
    Next(35, Chain(0x3745961f, 0xbf8b4f98, 0xa6f72085, 0xbd607d1e), x,
         0x00000008, 0xfde5380c, 0xa41c1203, 0xfde53814, 0xa2014a17, 0xd946e036, 0x1b6ca370, 0xdaf7f308);
  }

  lemma Letter36(x: seq<bv32>)
    requires LetterBlock(x)
    ensures Operations(40, INITIAL, x) == Chain(0x35a82a7a, 0xcf7e60db, 0x5abe099c, 0x89e0ec97)
  {
    hide Operations, Operation, Hash, WordsOf, F, G, I, T1, T2, T4, LittleWord, LittleBytes;
    Letter32(x);
    Next(36, Chain(0xbd607d1e, 0xdaf7f308, 0xbf8b4f98, 0xa6f72085), x,
         0x00000000, 0xa4beea44, 0xc38b9c15, 0xa4beea44, 0x684a8659, 0x25ab0377, 0x5ab03772, 0x35a82a7a);
    Next(37, Chain(0xa6f72085, 0x35a82a7a, 0xdaf7f308, 0xbf8b4f98), x,
         0x00000000, 0x4bdecfa9, 0x50d496ea, 0x4bdecfa9, 0x9cb36693, 0x43aa8718, 0x5438c21d, 0x89e0ec97);
    Next(38, Chain(0xbf8b4f98, 0x89e0ec97, 0x35a82a7a, 0xdaf7f308), x,
         0x00000000, 0xf6bb4b60, 0x66bf35e5, 0xf6bb4b60, 0x5d7a8145, 0x1d05d0dd, 0xd0dd1d05, 0x5abe099c);
    Next(39, Chain(0xdaf7f308, 0x5abe099c, 0x89e0ec97, 0x35a82a7a), x,
         0x00000000, 0xbebfbc70, 0xe6f6cf71, 0xbebfbc70, 0xa5b68be1, 0x80ae7ee9, 0x74c0573f, 0xcf7e60db);
  }

  lemma Letter40(x: seq<bv32>)
    requires LetterBlock(x)
    ensures Operations(44, INITIAL, x) == Chain(0x75c151e2, 0xcc6f5e9e, 0x0c0e6ac4, 0x942e0c86)
  {
    hide Operations, Operation, Hash, WordsOf, F, G, I, T1, T2, T4, LittleWord, LittleBytes;
    Letter36(x);
    Next(40, Chain(0x35a82a7a, 0xcf7e60db, 0x5abe099c, 0x89e0ec97), x,
         0x00000000, 0x289b7ec6, 0x1c2085d0, 0x289b7ec6, 0x44bc0496, 0x7a642f10, 0xa642f107, 0x75c151e2);
    Next(41, Chain(0x89e0ec97, 0x75c151e2, 0xcf7e60db, 0x5abe099c), x,
         0x00008061, 0xeaa127fa, 0xe00138a5, 0xeaa1a85b, 0xcaa2e100, 0x5483cd97, 0x1e6cbaa4, 0x942e0c86);
    Next(42, Chain(0x5abe099c, 0x942e0c86, 0x75c151e2, 0xcf7e60db), x,
         0x00000000, 0xd4ef3085, 0x2e913dbf, 0xd4ef3085, 0x03806e44, 0x5e3e77e0, 0x77e05e3e, 0x0c0e6ac4);
    Next(43, Chain(0xcf7e60db, 0x0c0e6ac4, 0x942e0c86, 0x75c151e2), x,
         0x00000000, 0x04881d05, 0xede137a0, 0x04881d05, 0xf26954a5, 0xc1e7b580, 0xc060f3da, 0xcc6f5e9e);
  }

  lemma Letter44(x: seq<bv32>)
    requires LetterBlock(x)
    ensures Operations(48, INITIAL, x) == Chain(0x0ac50e18, 0x918f93bb, 0x8a4a6356, 0x79ca7845)
  {
    hide Operations, Operation, Hash, WordsOf, F, G, I, T1, T2, T4, LittleWord, LittleBytes;
    Letter40(x);
    Next(44, Chain(0x75c151e2, 0xcc6f5e9e, 0x0c0e6ac4, 0x942e0c86), x,
         0x00000000, 0xd9d4d039, 0x544f38dc, 0xd9d4d039, 0x2e240915, 0xa3e55af7, 0x3e55af7a, 0x0ac50e18);
    Next(45, Chain(0x942e0c86, 0x0ac50e18, 0xcc6f5e9e, 0x0c0e6ac4), x,
         0x00000000, 0xe6db99e5, 0xcaa43a42, 0xe6db99e5, 0xb17fd427, 0x45ade0ad, 0x6f056a2d, 0x79ca7845);
    Next(46, Chain(0x0c0e6ac4, 0x79ca7845, 0x0ac50e18, 0xcc6f5e9e), x,
         0x00000000, 0x1fa27cf8, 0xbf6028c3, 0x1fa27cf8, 0xdf02a5bb, 0xeb11107f, 0x107feb11, 0x8a4a6356);
    Next(47, Chain(0xcc6f5e9e, 0x8a4a6356, 0x79ca7845, 0x0ac50e18), x,
         0x00000000, 0xc4ac5665, 0xf945150b, 0xc4ac5665, 0xbdf16b70, 0x8a60ca0e, 0x07453065, 0x918f93bb);
  }

  lemma Letter48(x: seq<bv32>)
    requires LetterBlock(x)
    ensures Operations(52, INITIAL, x) == Chain(0xcab8fe42, 0x1ee405eb, 0x36269c3f, 0x6a4daeee)
  {
    hide Operations, Operation, Hash, WordsOf, F, G, H, T1, T2, T3, LittleWord, LittleBytes;
    Letter44(x);
    Next(48, Chain(0x0ac50e18, 0x918f93bb, 0x8a4a6356, 0x79ca7845), x,
         0x00008061, 0xf4292244, 0x1df5f4ed, 0xf429a2a5, 0x121f9792, 0x1ce4a5aa, 0x39296a87, 0xcab8fe42);
    Next(49, Chain(0x79ca7845, 0xcab8fe42, 0x918f93bb, 0x8a4a6356), x,
         0x00000000, 0x432aff97, 0x6e326d50, 0x432aff97, 0xb15d6ce7, 0x2b27e52c, 0x9f94b0ac, 0x6a4daeee);
    Next(50, Chain(0x8a4a6356, 0x6a4daeee, 0xcab8fe42, 0x918f93bb), x,
         0x00000008, 0xab9423a7, 0xa4c510ac, 0xab9423af, 0x5059345b, 0xdaa397b1, 0xcbd8ed51, 0x36269c3f);
    Next(51, Chain(0x918f93bb, 0x36269c3f, 0x6a4daeee, 0xcab8fe42), x,
         0x00000000, 0xfc93a039, 0x5d2a3351, 0xfc93a039, 0x59bdd38a, 0xeb4d6745, 0xe8bd69ac, 0x1ee405eb);
  }

  lemma Letter52(x: seq<bv32>)
    requires LetterBlock(x)
    ensures Operations(56, INITIAL, x) == Chain(0x982c7861, 0x893501c0, 0x71fc7709, 0x6812a362)
  {
    hide Operations, Operation, Hash, WordsOf, F, G, H, T1, T2, T3, LittleWord, LittleBytes;
    Letter48(x);
    Next(52, Chain(0xcab8fe42, 0x1ee405eb, 0x36269c3f, 0x6a4daeee), x,
         0x00000000, 0x655b59c3, 0xa9d0c9c4, 0x655b59c3, 0x0f2c2387, 0xd9e521c9, 0x79487276, 0x982c7861);
    Next(53, Chain(0x6a4daeee, 0x982c7861, 0x1ee405eb, 0x36269c3f), x,
         0x00000000, 0x8f0ccc92, 0xc7197e0a, 0x8f0ccc92, 0x56264a9c, 0xc073f98a, 0xcfe62b01, 0x6812a362);
    Next(54, Chain(0x36269c3f, 0x6812a362, 0x982c7861, 0x1ee405eb), x,
         0x00000000, 0xffeff47d, 0x71378317, 0xffeff47d, 0x71277794, 0xa74e13d3, 0x09e9d3a7, 0x71fc7709);
    Next(55, Chain(0x1ee405eb, 0x71fc7709, 0x6812a362, 0x982c7861), x,
         0x00000000, 0x85845dd1, 0x1fed54fd, 0x85845dd1, 0xa571b2ce, 0xc455b8b9, 0x17388ab7, 0x893501c0);
  }

  lemma Letter56(x: seq<bv32>)
    requires LetterBlock(x)
    ensures Operations(60, INITIAL, x) == Chain(0xfebd62fd, 0xaa4d8ae3, 0x53e33526, 0x28936a74)
  {
    hide Operations, Operation, Hash, WordsOf, F, G, H, T1, T2, T3, LittleWord, LittleBytes;
    Letter52(x);
    Next(56, Chain(0x982c7861, 0x893501c0, 0x71fc7709, 0x6812a362), x,
         0x00000000, 0x6fa87e4f, 0xee012ad4, 0x6fa87e4f, 0x5da9a923, 0xf5d62184, 0x7588613d, 0xfebd62fd);
    Next(57, Chain(0x6812a362, 0xfebd62fd, 0x893501c0, 0x71fc7709), x,
         0x00000000, 0xfe2ce6e0, 0x778aeb3f, 0xfe2ce6e0, 0x75b7d21f, 0xddca7581, 0x29d60777, 0x28936a74);
    Next(58, Chain(0x71fc7709, 0x28936a74, 0xfebd62fd, 0x893501c0), x,
         0x00000000, 0xa3014314, 0x80669c82, 0xa3014314, 0x2367df96, 0x9564569f, 0x2b4fcab2, 0x53e33526);
    Next(59, Chain(0x893501c0, 0x53e33526, 0x28936a74, 0xfebd62fd), x,
         0x00000000, 0x4e0811a1, 0x7b70d752, 0x4e0811a1, 0xc978e8f3, 0x52adeab3, 0x566a55bd, 0xaa4d8ae3);
  }

  lemma Letter60(x: seq<bv32>)
    requires LetterBlock(x)
    ensures Operations(64, INITIAL, x) == Chain(0x52309e0b, 0xb8e94637, 0x49dee633, 0x50f422f3)
  {
    hide Operations, Operation, Hash, WordsOf, F, G, H, T1, T2, T3, LittleWord, LittleBytes;
    Letter56(x);
    Next(60, Chain(0xfebd62fd, 0xaa4d8ae3, 0x53e33526, 0x28936a74), x,
         0x00000000, 0xf7537e82, 0xac8eaacd, 0xf7537e82, 0xa3e2294f, 0xa29f8c4c, 0xa7e31328, 0x52309e0b);
    Next(61, Chain(0x28936a74, 0x52309e0b, 0xaa4d8ae3, 0x53e33526), x,
         0x00000000, 0xbd3af235, 0x54715438, 0xbd3af235, 0x11ac466d, 0x3a3fb0e1, 0xfec384e8, 0x50f422f3);
    Next(62, Chain(0x53e33526, 0x50f422f3, 0x52309e0b, 0xaa4d8ae3), x,
         0x00000000, 0x2ad7d2bb, 0x07c6e9f4, 0x2ad7d2bb, 0x329ebcaf, 0x8681f1d5, 0xf8eac340, 0x49dee633);
    Next(63, Chain(0xaa4d8ae3, 0x49dee633, 0x50f422f3, 0x52309e0b), x,
         0x00000000, 0xeb86d391, 0xbd2bc504, 0xeb86d391, 0xa8b29895, 0x53002378, 0x6f0a6004, 0xb8e94637);
  }

  // ---------------------------------------------------------------------
  // The digests

  /** The last chaining value of a message of one block. */
  lemma OneBlock(message: seq<bv8>, r: Chain)
    requires |AllWords(message)| == 16 && Operations(64, INITIAL, AllWords(message)) == r
    ensures FinalChain(message)
         == Chain(Plus(INITIAL.a, r.a), Plus(INITIAL.b, r.b), Plus(INITIAL.c, r.c), Plus(INITIAL.d, r.d))
  {
    hide Operations, Plus, AllWords;
    HashOne(INITIAL, AllWords(message));
  }

  /** Word k of a padded message of one block. */
  lemma PaddedWord(message: seq<bv8>, k: nat)
    requires |message| <= 1 && k < 14
    ensures |AllWords(message)| == 16
    ensures AllWords(message)[k] == LittleWord(Padded(message)[4 * k..4 * k + 4])
    ensures k > 0 ==> Padded(message)[4 * k..4 * k + 4] == [0, 0, 0, 0]
    ensures message == [] ==> Padded(message)[..4] == [0x80, 0, 0, 0]
    ensures |message| == 1 ==> Padded(message)[..4] == [message[0], 0x80, 0, 0]
    ensures AllWords(message)[14..] == LengthWords(|message|)
  {
    hide LittleWord, WordsOf, LengthWords;
    assert |Padded(message)| == 56;
    WordAt(Padded(message), k);
  }

  lemma ZeroWord()
    ensures LittleWord([0, 0, 0, 0]) == 0
  {}

  lemma FirstEmptyWord()
    ensures LittleWord([0x80, 0, 0, 0]) == 0x80
  {}

  lemma FirstLetterWord()
    ensures LittleWord([0x61, 0x80, 0, 0]) == 0x8061
  {}

  /** The length in bits, cut into its low-order and its high-order half. */
  lemma LengthHalves(n: nat, lo: nat, hi: nat)
    requires lo < 0x1_0000_0000 && hi < 0x1_0000_0000
    requires 8 * n % 0x1_0000_0000_0000_0000 == lo + 0x1_0000_0000 * hi
    ensures LengthWords(n) == [lo as bv32, hi as bv32]
  {
    var bits := 8 * n % 0x1_0000_0000_0000_0000;
    assert bits % 0x1_0000_0000 == lo && bits / 0x1_0000_0000 == hi;
  }

  lemma NoBits()
    ensures LengthWords(0) == [0, 0]
  {
    hide LengthWords;
    LengthHalves(0, 0, 0);
  }

  lemma EightBits()
    ensures LengthWords(1) == [8, 0]
  {
    hide LengthWords;
    LengthHalves(1, 8, 0);
  }

  lemma EmptyWords()
    ensures EmptyBlock(AllWords([]))
  {
    hide AllWords, Padded, LittleWord, LengthWords;
    ZeroWord();
    FirstEmptyWord();
    NoBits();
    forall k | 0 <= k < 14 ensures |AllWords([])| == 16 && AllWords([])[k] == if k == 0 then 0x80 else 0 {
      PaddedWord([], k);
    }
    PaddedWord([], 0);
    assert AllWords([])[14] == AllWords([])[14..][0] && AllWords([])[15] == AllWords([])[14..][1];
  }

  lemma LetterWords(message: seq<bv8>)
    requires message == [0x61]
    ensures LetterBlock(AllWords(message))
  {
    hide AllWords, Padded, LittleWord, LengthWords;
    ZeroWord();
    FirstLetterWord();
    EightBits();
    var x := AllWords(message);
    forall k | 0 <= k < 14 ensures |x| == 16 && x[k] == if k == 0 then 0x8061 else 0 {
      PaddedWord(message, k);
    }
    PaddedWord(message, 0);
    assert x[14] == x[14..][0] && x[15] == x[14..][1];
  }

  lemma EmptySums()
    ensures Chain(Plus(INITIAL.a, 0x7246fad3), Plus(INITIAL.b, 0x14e45506),
                  Plus(INITIAL.c, 0xff4ea3eb), Plus(INITIAL.d, 0x6e10a476))
         == Chain(0xd98c1dd4, 0x04b2008f, 0x980980e9, 0x7e42f8ec)
  {}

  /** MD5 ("") = d41d8cd98f00b204e9800998ecf8427e. */
  lemma EmptyDigest()
    ensures Digest([])
         == [0xd4, 0x1d, 0x8c, 0xd9, 0x8f, 0x00, 0xb2, 0x04, 0xe9, 0x80, 0x09, 0x98, 0xec, 0xf8, 0x42, 0x7e]
  {
    hide Operations, FinalChain, AllWords, Plus;
    EmptyWords();
    var x := AllWords([]);
    Empty60(x);
    EmptySums();
    OneBlock([], Operations(64, INITIAL, x));
  }

  lemma LetterSums()
    ensures Chain(Plus(INITIAL.a, 0x52309e0b), Plus(INITIAL.b, 0xb8e94637),
                  Plus(INITIAL.c, 0x49dee633), Plus(INITIAL.d, 0x50f422f3))
         == Chain(0xb975c10c, 0xa8b6f1c0, 0xe299c331, 0x61267769)
  {}

  /** MD5 ("a") = 0cc175b9c0f1b6a831c399e269772661. */
  lemma LetterDigest()
    ensures Digest([0x61])
         == [0x0c, 0xc1, 0x75, 0xb9, 0xc0, 0xf1, 0xb6, 0xa8, 0x31, 0xc3, 0x99, 0xe2, 0x69, 0x77, 0x26, 0x61]
  {
    hide Operations, FinalChain, AllWords, Plus;
    LetterWords([0x61]);
    var x := AllWords([0x61]);
    Letter60(x);
    LetterSums();
    OneBlock([0x61], Operations(64, INITIAL, x));
  }
}
