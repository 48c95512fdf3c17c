/**
 * MD5Transform of base/md5.cc: 64 unrolled steps on four local words.
 *
 * A step is the macro of the source; it changes one word and leaves the other
 * three, and the next step has the words rotated by one. Four steps bring them
 * back to their places, so that a round is sixteen steps in groups of four. Each
 * step is tied to the operation of RFC 1321 with its number, and the numbers of
 * its call (word, constant and shift) to the tables.
 */
module Md5Transform {
  import opened Md5Spec

  // The core functions; F1 is optimised.
  function F1(x: bv32, y: bv32, z: bv32): bv32 { z ^ (x & (y ^ z)) }
  function F2(x: bv32, y: bv32, z: bv32): bv32 { F1(z, x, y) }
  function F3(x: bv32, y: bv32, z: bv32): bv32 { x ^ y ^ z }
  function F4(x: bv32, y: bv32, z: bv32): bv32 { y ^ (x | !z) }

  function Core(i: nat, x: bv32, y: bv32, z: bv32): bv32 {
    if i < 16 then F1(x, y, z) else if i < 32 then F2(x, y, z) else if i < 48 then F3(x, y, z) else F4(x, y, z)
  }

  lemma Choice(x: bv32, y: bv32, z: bv32)
    ensures z ^ (x & (y ^ z)) == (x & y) | (!x & z)
  {}

  lemma Swapped(x: bv32, y: bv32, z: bv32)
    ensures (z & x) | (!z & y) == (x & z) | (y & !z)
  {}

  lemma FirstIsF(x: bv32, y: bv32, z: bv32)
    ensures F1(x, y, z) == F(x, y, z)
  {
    Choice(x, y, z);
  }

  lemma SecondIsG(x: bv32, y: bv32, z: bv32)
    ensures F2(x, y, z) == G(x, y, z)
  {
    Choice(z, x, y);
    Swapped(x, y, z);
  }

  lemma OthersAreHAndI(x: bv32, y: bv32, z: bv32)
    ensures F3(x, y, z) == H(x, y, z) && F4(x, y, z) == I(x, y, z)
  {}

  /** The optimised core functions are the auxiliary functions of RFC 1321. */
  lemma CoreIsAuxiliary(i: nat, x: bv32, y: bv32, z: bv32)
    ensures Core(i, x, y, z) == Auxiliary(i, x, y, z)
  {
    hide F1, F2, F3, F4, F, G, H, I;
    FirstIsF(x, y, z);
    SecondIsG(x, y, z);
    OthersAreHAndI(x, y, z);
  }

  /** The two shifts of the step macro. */
  function Shifted(w: bv32, s: nat): bv32
    requires 0 < s < 32
  {
    (w << s) | (w >> (32 - s))
  }

  lemma Rotations1(w: bv32)
    ensures Shifted(w, 4) == RotateLeft(w, 4)
    ensures Shifted(w, 5) == RotateLeft(w, 5)
    ensures Shifted(w, 6) == RotateLeft(w, 6)
    ensures Shifted(w, 7) == RotateLeft(w, 7)
  {}

  lemma Rotations2(w: bv32)
    ensures Shifted(w, 9) == RotateLeft(w, 9)
    ensures Shifted(w, 10) == RotateLeft(w, 10)
    ensures Shifted(w, 11) == RotateLeft(w, 11)
    ensures Shifted(w, 12) == RotateLeft(w, 12)
  {}

  lemma Rotations3(w: bv32)
    ensures Shifted(w, 14) == RotateLeft(w, 14)
    ensures Shifted(w, 15) == RotateLeft(w, 15)
    ensures Shifted(w, 16) == RotateLeft(w, 16)
    ensures Shifted(w, 17) == RotateLeft(w, 17)
  {}

  lemma Rotations4(w: bv32)
    ensures Shifted(w, 20) == RotateLeft(w, 20)
    ensures Shifted(w, 21) == RotateLeft(w, 21)
    ensures Shifted(w, 22) == RotateLeft(w, 22)
    ensures Shifted(w, 23) == RotateLeft(w, 23)
  {}

  /** They are a rotation. */
  lemma Rotation(w: bv32, s: nat)
    requires s in {4, 5, 6, 7, 9, 10, 11, 12, 14, 15, 16, 17, 20, 21, 22, 23}
    ensures Shifted(w, s) == RotateLeft(w, s)
  {
    hide Shifted, RotateLeft;
    Rotations1(w);
    Rotations2(w);
    Rotations3(w);
    Rotations4(w);
  }

  lemma ShiftsAre(i: nat)
    ensures Shift(i) in {4, 5, 6, 7, 9, 10, 11, 12, 14, 15, 16, 17, 20, 21, 22, 23}
  {}

  /** MD5STEP: what it makes of w is operation i, given what the operations before i made. */
  method Step(ghost i: nat, ghost h: Chain, ghost block: seq<bv32>,
              f: bv32, w: bv32, x: bv32, ghost y: bv32, ghost z: bv32, data: bv32, s: nat)
    returns (r: bv32)
    requires |block| == 16 && 0 < s < 32
    requires Chain(w, x, y, z) == Operations(i, h, block)
    requires f == Core(i, x, y, z) && data == Plus(block[WordIndex(i)], T(i)) && s == Shift(i)
    ensures Chain(z, r, x, y) == Operations(i + 1, h, block)
  {
    hide Core, T, Shift, WordIndex, Plus, Shifted, Operation;
    r := Plus(w, Plus(f, data));
    r := Shifted(r, s);
    r := Plus(r, x);
    StepIsOperation(i, Chain(w, x, y, z), block);
  }

  /** MD5STEP with F1. */
  method Step1(ghost i: nat, ghost h: Chain, ghost block: seq<bv32>,
               w: bv32, x: bv32, y: bv32, z: bv32, data: bv32, s: nat)
    returns (r: bv32)
    requires |block| == 16 && 0 < s < 32 && 0 <= i < 16
    requires Chain(w, x, y, z) == Operations(i, h, block)
    requires data == Plus(block[WordIndex(i)], T(i)) && s == Shift(i)
    ensures Chain(z, r, x, y) == Operations(i + 1, h, block)
  {
    hide T, Shift, WordIndex, Plus, Operations, F1, F2, F3, F4;
    r := Step(i, h, block, F1(x, y, z), w, x, y, z, data, s);
  }

  /** MD5STEP with F2. */
  method Step2(ghost i: nat, ghost h: Chain, ghost block: seq<bv32>,
               w: bv32, x: bv32, y: bv32, z: bv32, data: bv32, s: nat)
    returns (r: bv32)
    requires |block| == 16 && 0 < s < 32 && 16 <= i < 32
    requires Chain(w, x, y, z) == Operations(i, h, block)
    requires data == Plus(block[WordIndex(i)], T(i)) && s == Shift(i)
    ensures Chain(z, r, x, y) == Operations(i + 1, h, block)
  {
    hide T, Shift, WordIndex, Plus, Operations, F1, F2, F3, F4;
    r := Step(i, h, block, F2(x, y, z), w, x, y, z, data, s);
  }

  /** MD5STEP with F3. */
  method Step3(ghost i: nat, ghost h: Chain, ghost block: seq<bv32>,
               w: bv32, x: bv32, y: bv32, z: bv32, data: bv32, s: nat)
    returns (r: bv32)
    requires |block| == 16 && 0 < s < 32 && 32 <= i < 48
    requires Chain(w, x, y, z) == Operations(i, h, block)
    requires data == Plus(block[WordIndex(i)], T(i)) && s == Shift(i)
    ensures Chain(z, r, x, y) == Operations(i + 1, h, block)
  {
    hide T, Shift, WordIndex, Plus, Operations, F1, F2, F3, F4;
    r := Step(i, h, block, F3(x, y, z), w, x, y, z, data, s);
  }

  /** MD5STEP with F4. */
  method Step4(ghost i: nat, ghost h: Chain, ghost block: seq<bv32>,
               w: bv32, x: bv32, y: bv32, z: bv32, data: bv32, s: nat)
    returns (r: bv32)
    requires |block| == 16 && 0 < s < 32 && 48 <= i < 64
    requires Chain(w, x, y, z) == Operations(i, h, block)
    requires data == Plus(block[WordIndex(i)], T(i)) && s == Shift(i)
    ensures Chain(z, r, x, y) == Operations(i + 1, h, block)
  {
    hide T, Shift, WordIndex, Plus, Operations, F1, F2, F3, F4;
    r := Step(i, h, block, F4(x, y, z), w, x, y, z, data, s);
  }

  lemma Commutes(x: bv32, y: bv32)
    ensures Plus(x, y) == Plus(y, x)
  {}

  lemma StepIsOperation(i: nat, st: Chain, block: seq<bv32>)
    requires |block| == 16
    ensures Operation(i, st, block)
         == (var sum := Plus(st.a, Plus(Core(i, st.b, st.c, st.d), Plus(block[WordIndex(i)], T(i))));
             Chain(st.d, Plus(Shifted(sum, Shift(i)), st.b), st.b, st.c))
  {
    hide T, WordIndex, Shift, Auxiliary, Core, Plus, Shifted, RotateLeft;
    var f, k, t, s := Core(i, st.b, st.c, st.d), block[WordIndex(i)], T(i), Shift(i);
    CoreIsAuxiliary(i, st.b, st.c, st.d);
    var sum := Plus(st.a, Plus(f, Plus(k, t)));
    ShiftsAre(i);
    Rotation(sum, s);
    Commutes(st.b, Shifted(sum, s));
  }

  lemma Table1a()
    ensures T(0) == 0xd76aa478 && WordIndex(0) == 0 && Shift(0) == 7
    ensures T(1) == 0xe8c7b756 && WordIndex(1) == 1 && Shift(1) == 12
    ensures T(2) == 0x242070db && WordIndex(2) == 2 && Shift(2) == 17
    ensures T(3) == 0xc1bdceee && WordIndex(3) == 3 && Shift(3) == 22
    ensures T(4) == 0xf57c0faf && WordIndex(4) == 4 && Shift(4) == 7
    ensures T(5) == 0x4787c62a && WordIndex(5) == 5 && Shift(5) == 12
    ensures T(6) == 0xa8304613 && WordIndex(6) == 6 && Shift(6) == 17
    ensures T(7) == 0xfd469501 && WordIndex(7) == 7 && Shift(7) == 22
  {}

  lemma Table1b()
    ensures T(8) == 0x698098d8 && WordIndex(8) == 8 && Shift(8) == 7
    ensures T(9) == 0x8b44f7af && WordIndex(9) == 9 && Shift(9) == 12
    ensures T(10) == 0xffff5bb1 && WordIndex(10) == 10 && Shift(10) == 17
    ensures T(11) == 0x895cd7be && WordIndex(11) == 11 && Shift(11) == 22
    ensures T(12) == 0x6b901122 && WordIndex(12) == 12 && Shift(12) == 7
    ensures T(13) == 0xfd987193 && WordIndex(13) == 13 && Shift(13) == 12
    ensures T(14) == 0xa679438e && WordIndex(14) == 14 && Shift(14) == 17
    ensures T(15) == 0x49b40821 && WordIndex(15) == 15 && Shift(15) == 22
  {}

  method Round1(ghost h: Chain, x: seq<bv32>, a0: bv32, b0: bv32, c0: bv32, d0: bv32)
    returns (a: bv32, b: bv32, c: bv32, d: bv32)
    requires |x| == 16 && Chain(a0, b0, c0, d0) == Operations(0, h, x)
    ensures Chain(a, b, c, d) == Operations(16, h, x)
  {
    hide Operations, Plus, Core, F1, F2, F3, F4, T, WordIndex, Shift;
    Table1a();
    Table1b();
    a, b, c, d := a0, b0, c0, d0;
    a := Step1(0, h, x, a, b, c, d, Plus(x[0], 0xd76aa478), 7);
    d := Step1(1, h, x, d, a, b, c, Plus(x[1], 0xe8c7b756), 12);
    c := Step1(2, h, x, c, d, a, b, Plus(x[2], 0x242070db), 17);
    b := Step1(3, h, x, b, c, d, a, Plus(x[3], 0xc1bdceee), 22);
    a := Step1(4, h, x, a, b, c, d, Plus(x[4], 0xf57c0faf), 7);
    d := Step1(5, h, x, d, a, b, c, Plus(x[5], 0x4787c62a), 12);
    c := Step1(6, h, x, c, d, a, b, Plus(x[6], 0xa8304613), 17);
    b := Step1(7, h, x, b, c, d, a, Plus(x[7], 0xfd469501), 22);
    a := Step1(8, h, x, a, b, c, d, Plus(x[8], 0x698098d8), 7);
    d := Step1(9, h, x, d, a, b, c, Plus(x[9], 0x8b44f7af), 12);
    c := Step1(10, h, x, c, d, a, b, Plus(x[10], 0xffff5bb1), 17);
    b := Step1(11, h, x, b, c, d, a, Plus(x[11], 0x895cd7be), 22);
    a := Step1(12, h, x, a, b, c, d, Plus(x[12], 0x6b901122), 7);
    d := Step1(13, h, x, d, a, b, c, Plus(x[13], 0xfd987193), 12);
    c := Step1(14, h, x, c, d, a, b, Plus(x[14], 0xa679438e), 17);
    b := Step1(15, h, x, b, c, d, a, Plus(x[15], 0x49b40821), 22);
  }

  lemma Table2a()
    ensures T(16) == 0xf61e2562 && WordIndex(16) == 1 && Shift(16) == 5
    ensures T(17) == 0xc040b340 && WordIndex(17) == 6 && Shift(17) == 9
    ensures T(18) == 0x265e5a51 && WordIndex(18) == 11 && Shift(18) == 14
    ensures T(19) == 0xe9b6c7aa && WordIndex(19) == 0 && Shift(19) == 20
    ensures T(20) == 0xd62f105d && WordIndex(20) == 5 && Shift(20) == 5
    ensures T(21) == 0x02441453 && WordIndex(21) == 10 && Shift(21) == 9
    ensures T(22) == 0xd8a1e681 && WordIndex(22) == 15 && Shift(22) == 14
    ensures T(23) == 0xe7d3fbc8 && WordIndex(23) == 4 && Shift(23) == 20
  {}

  lemma Table2b()
    ensures T(24) == 0x21e1cde6 && WordIndex(24) == 9 && Shift(24) == 5
    ensures T(25) == 0xc33707d6 && WordIndex(25) == 14 && Shift(25) == 9
    ensures T(26) == 0xf4d50d87 && WordIndex(26) == 3 && Shift(26) == 14
    ensures T(27) == 0x455a14ed && WordIndex(27) == 8 && Shift(27) == 20
    ensures T(28) == 0xa9e3e905 && WordIndex(28) == 13 && Shift(28) == 5
    ensures T(29) == 0xfcefa3f8 && WordIndex(29) == 2 && Shift(29) == 9
    ensures T(30) == 0x676f02d9 && WordIndex(30) == 7 && Shift(30) == 14
    ensures T(31) == 0x8d2a4c8a && WordIndex(31) == 12 && Shift(31) == 20
  {}

  method Round2(ghost h: Chain, x: seq<bv32>, a0: bv32, b0: bv32, c0: bv32, d0: bv32)
    returns (a: bv32, b: bv32, c: bv32, d: bv32)
    requires |x| == 16 && Chain(a0, b0, c0, d0) == Operations(16, h, x)
    ensures Chain(a, b, c, d) == Operations(32, h, x)
  {
    hide Operations, Plus, Core, F1, F2, F3, F4, T, WordIndex, Shift;
    Table2a();
    Table2b();
    a, b, c, d := a0, b0, c0, d0;
    a := Step2(16, h, x, a, b, c, d, Plus(x[1], 0xf61e2562), 5);
    d := Step2(17, h, x, d, a, b, c, Plus(x[6], 0xc040b340), 9);
    c := Step2(18, h, x, c, d, a, b, Plus(x[11], 0x265e5a51), 14);
    b := Step2(19, h, x, b, c, d, a, Plus(x[0], 0xe9b6c7aa), 20);
    a := Step2(20, h, x, a, b, c, d, Plus(x[5], 0xd62f105d), 5);
    d := Step2(21, h, x, d, a, b, c, Plus(x[10], 0x02441453), 9);
    c := Step2(22, h, x, c, d, a, b, Plus(x[15], 0xd8a1e681), 14);
    b := Step2(23, h, x, b, c, d, a, Plus(x[4], 0xe7d3fbc8), 20);
    a := Step2(24, h, x, a, b, c, d, Plus(x[9], 0x21e1cde6), 5);
    d := Step2(25, h, x, d, a, b, c, Plus(x[14], 0xc33707d6), 9);
    c := Step2(26, h, x, c, d, a, b, Plus(x[3], 0xf4d50d87), 14);
    b := Step2(27, h, x, b, c, d, a, Plus(x[8], 0x455a14ed), 20);
    a := Step2(28, h, x, a, b, c, d, Plus(x[13], 0xa9e3e905), 5);
    d := Step2(29, h, x, d, a, b, c, Plus(x[2], 0xfcefa3f8), 9);
    c := Step2(30, h, x, c, d, a, b, Plus(x[7], 0x676f02d9), 14);
    b := Step2(31, h, x, b, c, d, a, Plus(x[12], 0x8d2a4c8a), 20);
  }

  lemma Table3a()
    ensures T(32) == 0xfffa3942 && WordIndex(32) == 5 && Shift(32) == 4
    ensures T(33) == 0x8771f681 && WordIndex(33) == 8 && Shift(33) == 11
    ensures T(34) == 0x6d9d6122 && WordIndex(34) == 11 && Shift(34) == 16
    ensures T(35) == 0xfde5380c && WordIndex(35) == 14 && Shift(35) == 23
    ensures T(36) == 0xa4beea44 && WordIndex(36) == 1 && Shift(36) == 4
    ensures T(37) == 0x4bdecfa9 && WordIndex(37) == 4 && Shift(37) == 11
    ensures T(38) == 0xf6bb4b60 && WordIndex(38) == 7 && Shift(38) == 16
    ensures T(39) == 0xbebfbc70 && WordIndex(39) == 10 && Shift(39) == 23
  {}

  lemma Table3b()
    ensures T(40) == 0x289b7ec6 && WordIndex(40) == 13 && Shift(40) == 4
    ensures T(41) == 0xeaa127fa && WordIndex(41) == 0 && Shift(41) == 11
    ensures T(42) == 0xd4ef3085 && WordIndex(42) == 3 && Shift(42) == 16
    ensures T(43) == 0x04881d05 && WordIndex(43) == 6 && Shift(43) == 23
    ensures T(44) == 0xd9d4d039 && WordIndex(44) == 9 && Shift(44) == 4
    ensures T(45) == 0xe6db99e5 && WordIndex(45) == 12 && Shift(45) == 11
    ensures T(46) == 0x1fa27cf8 && WordIndex(46) == 15 && Shift(46) == 16
    ensures T(47) == 0xc4ac5665 && WordIndex(47) == 2 && Shift(47) == 23
  {}

  method Round3(ghost h: Chain, x: seq<bv32>, a0: bv32, b0: bv32, c0: bv32, d0: bv32)
    returns (a: bv32, b: bv32, c: bv32, d: bv32)
    requires |x| == 16 && Chain(a0, b0, c0, d0) == Operations(32, h, x)
    ensures Chain(a, b, c, d) == Operations(48, h, x)
  {
    hide Operations, Plus, Core, F1, F2, F3, F4, T, WordIndex, Shift;
    Table3a();
    Table3b();
    a, b, c, d := a0, b0, c0, d0;
    a := Step3(32, h, x, a, b, c, d, Plus(x[5], 0xfffa3942), 4);
    d := Step3(33, h, x, d, a, b, c, Plus(x[8], 0x8771f681), 11);
    c := Step3(34, h, x, c, d, a, b, Plus(x[11], 0x6d9d6122), 16);
    b := Step3(35, h, x, b, c, d, a, Plus(x[14], 0xfde5380c), 23);
    a := Step3(36, h, x, a, b, c, d, Plus(x[1], 0xa4beea44), 4);
    d := Step3(37, h, x, d, a, b, c, Plus(x[4], 0x4bdecfa9), 11);
    c := Step3(38, h, x, c, d, a, b, Plus(x[7], 0xf6bb4b60), 16);
    b := Step3(39, h, x, b, c, d, a, Plus(x[10], 0xbebfbc70), 23);
    a := Step3(40, h, x, a, b, c, d, Plus(x[13], 0x289b7ec6), 4);
    d := Step3(41, h, x, d, a, b, c, Plus(x[0], 0xeaa127fa), 11);
    c := Step3(42, h, x, c, d, a, b, Plus(x[3], 0xd4ef3085), 16);
    b := Step3(43, h, x, b, c, d, a, Plus(x[6], 0x04881d05), 23);
    a := Step3(44, h, x, a, b, c, d, Plus(x[9], 0xd9d4d039), 4);
    d := Step3(45, h, x, d, a, b, c, Plus(x[12], 0xe6db99e5), 11);
    c := Step3(46, h, x, c, d, a, b, Plus(x[15], 0x1fa27cf8), 16);
    b := Step3(47, h, x, b, c, d, a, Plus(x[2], 0xc4ac5665), 23);
  }

  lemma Table4a()
    ensures T(48) == 0xf4292244 && WordIndex(48) == 0 && Shift(48) == 6
    ensures T(49) == 0x432aff97 && WordIndex(49) == 7 && Shift(49) == 10
    ensures T(50) == 0xab9423a7 && WordIndex(50) == 14 && Shift(50) == 15
    ensures T(51) == 0xfc93a039 && WordIndex(51) == 5 && Shift(51) == 21
    ensures T(52) == 0x655b59c3 && WordIndex(52) == 12 && Shift(52) == 6
    ensures T(53) == 0x8f0ccc92 && WordIndex(53) == 3 && Shift(53) == 10
    ensures T(54) == 0xffeff47d && WordIndex(54) == 10 && Shift(54) == 15
    ensures T(55) == 0x85845dd1 && WordIndex(55) == 1 && Shift(55) == 21
  {}

  lemma Table4b()
    ensures T(56) == 0x6fa87e4f && WordIndex(56) == 8 && Shift(56) == 6
    ensures T(57) == 0xfe2ce6e0 && WordIndex(57) == 15 && Shift(57) == 10
    ensures T(58) == 0xa3014314 && WordIndex(58) == 6 && Shift(58) == 15
    ensures T(59) == 0x4e0811a1 && WordIndex(59) == 13 && Shift(59) == 21
    ensures T(60) == 0xf7537e82 && WordIndex(60) == 4 && Shift(60) == 6
    ensures T(61) == 0xbd3af235 && WordIndex(61) == 11 && Shift(61) == 10
    ensures T(62) == 0x2ad7d2bb && WordIndex(62) == 2 && Shift(62) == 15
    ensures T(63) == 0xeb86d391 && WordIndex(63) == 9 && Shift(63) == 21
  {}

  method Round4(ghost h: Chain, x: seq<bv32>, a0: bv32, b0: bv32, c0: bv32, d0: bv32)
    returns (a: bv32, b: bv32, c: bv32, d: bv32)
    requires |x| == 16 && Chain(a0, b0, c0, d0) == Operations(48, h, x)
    ensures Chain(a, b, c, d) == Operations(64, h, x)
  {
    hide Operations, Plus, Core, F1, F2, F3, F4, T, WordIndex, Shift;
    Table4a();
    Table4b();
    a, b, c, d := a0, b0, c0, d0;
    a := Step4(48, h, x, a, b, c, d, Plus(x[0], 0xf4292244), 6);
    d := Step4(49, h, x, d, a, b, c, Plus(x[7], 0x432aff97), 10);
    c := Step4(50, h, x, c, d, a, b, Plus(x[14], 0xab9423a7), 15);
    b := Step4(51, h, x, b, c, d, a, Plus(x[5], 0xfc93a039), 21);
    a := Step4(52, h, x, a, b, c, d, Plus(x[12], 0x655b59c3), 6);
    d := Step4(53, h, x, d, a, b, c, Plus(x[3], 0x8f0ccc92), 10);
    c := Step4(54, h, x, c, d, a, b, Plus(x[10], 0xffeff47d), 15);
    b := Step4(55, h, x, b, c, d, a, Plus(x[1], 0x85845dd1), 21);
    a := Step4(56, h, x, a, b, c, d, Plus(x[8], 0x6fa87e4f), 6);
    d := Step4(57, h, x, d, a, b, c, Plus(x[15], 0xfe2ce6e0), 10);
    c := Step4(58, h, x, c, d, a, b, Plus(x[6], 0xa3014314), 15);
    b := Step4(59, h, x, b, c, d, a, Plus(x[13], 0x4e0811a1), 21);
    a := Step4(60, h, x, a, b, c, d, Plus(x[4], 0xf7537e82), 6);
    d := Step4(61, h, x, d, a, b, c, Plus(x[11], 0xbd3af235), 10);
    c := Step4(62, h, x, c, d, a, b, Plus(x[2], 0x2ad7d2bb), 15);
    b := Step4(63, h, x, b, c, d, a, Plus(x[9], 0xeb86d391), 21);
  }

  /** The chaining value after one more block. */
  method Transform(buf: array<bv32>, x: seq<bv32>)
    requires buf.Length == 4 && |x| == 16
    modifies buf
    ensures ChainOf(buf[..]) == Compress(ChainOf(old(buf[..])), x)
  {
    hide Operations, Plus;
    ghost var h := ChainOf(buf[..]);
    var a, b, c, d := buf[0], buf[1], buf[2], buf[3];
    NoOperations(h, x);
    a, b, c, d := Round1(h, x, a, b, c, d);
    a, b, c, d := Round2(h, x, a, b, c, d);
    a, b, c, d := Round3(h, x, a, b, c, d);
    a, b, c, d := Round4(h, x, a, b, c, d);
    buf[0] := Plus(buf[0], a);
    buf[1] := Plus(buf[1], b);
    buf[2] := Plus(buf[2], c);
    buf[3] := Plus(buf[3], d);
  }

  lemma NoOperations(h: Chain, x: seq<bv32>)
    requires |x| == 16
    ensures Operations(0, h, x) == h
  {}

  function ChainOf(words: seq<bv32>): Chain
    requires |words| == 4
  {
    Chain(words[0], words[1], words[2], words[3])
  }
}
