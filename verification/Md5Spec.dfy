/**
 * RFC 1321, sections 3.1 to 3.5: the digest of a whole message.
 *
 * The message is padded, and its length appended; the words of the result are
 * taken in blocks of sixteen, each of which changes the chaining value by four
 * rounds of sixteen operations from a table; and the last value is the digest.
 */
module Md5Spec {

  /** The chaining value A, B, C, D of section 3.3. */
  datatype Chain = Chain(a: bv32, b: bv32, c: bv32, d: bv32)

  const INITIAL := Chain(0x67452301, 0xefcdab89, 0x98badcfe, 0x10325476)

  /** Addition of words modulo 2^32. */
  function Plus(x: bv32, y: bv32): bv32 { x + y }

  function RotateLeft(x: bv32, s: nat): bv32
    requires s <= 32
  {
    x.RotateLeft(s)
  }

  function F(x: bv32, y: bv32, z: bv32): bv32 { (x & y) | (!x & z) }
  function G(x: bv32, y: bv32, z: bv32): bv32 { (x & z) | (y & !z) }
  function H(x: bv32, y: bv32, z: bv32): bv32 { x ^ y ^ z }
  function I(x: bv32, y: bv32, z: bv32): bv32 { y ^ (x | !z) }

  /** The auxiliary function of operation i. */
  function Auxiliary(i: nat, x: bv32, y: bv32, z: bv32): bv32 {
    if i < 16 then F(x, y, z) else if i < 32 then G(x, y, z) else if i < 48 then H(x, y, z) else I(x, y, z)
  }

  /** The word of the block that operation i adds. */
  function WordIndex(i: nat): (k: nat)
    ensures k < 16
  {
    if i < 16 then i else if i < 32 then (5 * i + 1) % 16 else if i < 48 then (3 * i + 5) % 16 else 7 * i % 16
  }

  /** By how much operation i rotates. */
  function Shift(i: nat): (s: nat)
    ensures 0 < s < 32
  {
    if i < 16 then [7, 12, 17, 22][i % 4]
    else if i < 32 then [5, 9, 14, 20][i % 4]
    else if i < 48 then [4, 11, 16, 23][i % 4]
    else [6, 10, 15, 21][i % 4]
  }

  /** The table T of section 3.4, from index 0. */
  function T(i: nat): bv32 {
    if i < 16 then T1(i) else if i < 32 then T2(i - 16) else if i < 48 then T3(i - 32) else T4(i - 48)
  }

  function T1(i: nat): bv32 {
    match i
    case 0 => 0xd76aa478 case 1 => 0xe8c7b756 case 2 => 0x242070db case 3 => 0xc1bdceee
    case 4 => 0xf57c0faf case 5 => 0x4787c62a case 6 => 0xa8304613 case 7 => 0xfd469501
    case 8 => 0x698098d8 case 9 => 0x8b44f7af case 10 => 0xffff5bb1 case 11 => 0x895cd7be
    case 12 => 0x6b901122 case 13 => 0xfd987193 case 14 => 0xa679438e case 15 => 0x49b40821
    case _ => 0
  }

  function T2(i: nat): bv32 {
    match i
    case 0 => 0xf61e2562 case 1 => 0xc040b340 case 2 => 0x265e5a51 case 3 => 0xe9b6c7aa
    case 4 => 0xd62f105d case 5 => 0x02441453 case 6 => 0xd8a1e681 case 7 => 0xe7d3fbc8
    case 8 => 0x21e1cde6 case 9 => 0xc33707d6 case 10 => 0xf4d50d87 case 11 => 0x455a14ed
    case 12 => 0xa9e3e905 case 13 => 0xfcefa3f8 case 14 => 0x676f02d9 case 15 => 0x8d2a4c8a
    case _ => 0
  }

  function T3(i: nat): bv32 {
    match i
    case 0 => 0xfffa3942 case 1 => 0x8771f681 case 2 => 0x6d9d6122 case 3 => 0xfde5380c
    case 4 => 0xa4beea44 case 5 => 0x4bdecfa9 case 6 => 0xf6bb4b60 case 7 => 0xbebfbc70
    case 8 => 0x289b7ec6 case 9 => 0xeaa127fa case 10 => 0xd4ef3085 case 11 => 0x04881d05
    case 12 => 0xd9d4d039 case 13 => 0xe6db99e5 case 14 => 0x1fa27cf8 case 15 => 0xc4ac5665
    case _ => 0
  }

  function T4(i: nat): bv32 {
    match i
    case 0 => 0xf4292244 case 1 => 0x432aff97 case 2 => 0xab9423a7 case 3 => 0xfc93a039
    case 4 => 0x655b59c3 case 5 => 0x8f0ccc92 case 6 => 0xffeff47d case 7 => 0x85845dd1
    case 8 => 0x6fa87e4f case 9 => 0xfe2ce6e0 case 10 => 0xa3014314 case 11 => 0x4e0811a1
    case 12 => 0xf7537e82 case 13 => 0xbd3af235 case 14 => 0x2ad7d2bb case 15 => 0xeb86d391
    case _ => 0
  }

  /** Operation i on the chaining value with its roles rotated: [abcd k s i] of section 3.4. */
  function Operation(i: nat, st: Chain, x: seq<bv32>): Chain
    requires |x| == 16
  {
    var sum := Plus(st.a, Plus(Auxiliary(i, st.b, st.c, st.d), Plus(x[WordIndex(i)], T(i))));
    Chain(st.d, Plus(st.b, RotateLeft(sum, Shift(i))), st.b, st.c)
  }

  /** The first n operations. */
  function Operations(n: nat, st: Chain, x: seq<bv32>): Chain
    requires |x| == 16
  {
    if n == 0 then st else Operation(n - 1, Operations(n - 1, st, x), x)
  }

  /** Processing one block of sixteen words. */
  function Compress(st: Chain, x: seq<bv32>): Chain
    requires |x| == 16
  {
    var r := Operations(64, st, x);
    Chain(Plus(st.a, r.a), Plus(st.b, r.b), Plus(st.c, r.c), Plus(st.d, r.d))
  }

  /** Processing word after word in blocks of sixteen. */
  function Hash(st: Chain, words: seq<bv32>): Chain
    requires |words| % 16 == 0
    decreases |words|
  {
    if words == [] then st else Hash(Compress(st, words[..16]), words[16..])
  }

  /** Four bytes as a word, the low-order byte first (section 2). */
  function LittleWord(bytes: seq<bv8>): bv32
    requires |bytes| == 4
  {
    (bytes[0] as bv32) | ((bytes[1] as bv32) << 8) | ((bytes[2] as bv32) << 16) | ((bytes[3] as bv32) << 24)
  }

  function LittleBytes(word: bv32): (bytes: seq<bv8>)
    ensures |bytes| == 4
  {
    [(word & 0xff) as bv8, ((word >> 8) & 0xff) as bv8, ((word >> 16) & 0xff) as bv8, (word >> 24) as bv8]
  }

  function WordsOf(bytes: seq<bv8>): (words: seq<bv32>)
    requires |bytes| % 4 == 0
    ensures |words| == |bytes| / 4
  {
    if bytes == [] then [] else [LittleWord(bytes[..4])] + WordsOf(bytes[4..])
  }

  function Zeros(n: nat): (bytes: seq<bv8>)
    ensures |bytes| == n && forall i :: 0 <= i < n ==> bytes[i] == 0
  {
    seq(n, _ => 0)
  }

  /** Step 1: a one bit, then zero bits up to 56 bytes modulo 64; always at least one bit. */
  function Padded(message: seq<bv8>): (bytes: seq<bv8>)
    ensures |bytes| % 64 == 56
  {
    message + [0x80] + Zeros((119 - |message| % 64) % 64)
  }

  /** Step 2: the length in bits, modulo 2^64, as two words, the low-order one first. */
  function LengthWords(n: nat): (words: seq<bv32>)
    ensures |words| == 2
  {
    var bits := 8 * n % 0x1_0000_0000_0000_0000;
    [(bits % 0x1_0000_0000) as bv32, (bits / 0x1_0000_0000) as bv32]
  }

  lemma FullBlocks(n: nat)
    requires n % 64 == 56
    ensures (n / 4 + 2) % 16 == 0 && n % 4 == 0
  {}

  /** The padded message with its length: a whole number of blocks. */
  function AllWords(message: seq<bv8>): (words: seq<bv32>)
    ensures |words| % 16 == 0
  {
    var padded := Padded(message);
    FullBlocks(|padded|);
    WordsOf(padded) + LengthWords(|message|)
  }

  /** Steps 3 and 4. */
  function FinalChain(message: seq<bv8>): Chain {
    Hash(INITIAL, AllWords(message))
  }

  /** Step 5: A, B, C, D, the low-order byte of A first. */
  function Digest(message: seq<bv8>): seq<bv8> {
    var st := FinalChain(message);
    LittleBytes(st.a) + LittleBytes(st.b) + LittleBytes(st.c) + LittleBytes(st.d)
  }

  lemma {:induction false} HashConcat(st: Chain, a: seq<bv32>, b: seq<bv32>)
    requires |a| % 16 == 0 && |b| % 16 == 0
    ensures Hash(st, a + b) == Hash(Hash(st, a), b)
    decreases |a|
  {
    hide Compress;
    if a == [] {
      assert a + b == b;
    } else {
      assert (a + b)[..16] == a[..16] && (a + b)[16..] == a[16..] + b;
      HashConcat(Compress(st, a[..16]), a[16..], b);
    }
  }

  lemma HashOne(st: Chain, block: seq<bv32>)
    requires |block| == 16
    ensures Hash(st, block) == Compress(st, block)
  {
    hide Compress;
    assert block[..16] == block && block[16..] == [];
  }

  lemma {:induction false} WordsConcat(a: seq<bv8>, b: seq<bv8>)
    requires |a| % 4 == 0 && |b| % 4 == 0
    ensures WordsOf(a + b) == WordsOf(a) + WordsOf(b)
  {
    hide LittleWord;
    if a == [] {
      assert a + b == b;
    } else {
      assert (a + b)[..4] == a[..4] && (a + b)[4..] == a[4..] + b;
      WordsConcat(a[4..], b);
    }
  }

  lemma SliceOfRest(bytes: seq<bv8>, j: nat)
    requires j + 8 <= |bytes|
    ensures bytes[4..][j..j + 4] == bytes[j + 4..j + 8]
  {
    var a, b := bytes[4..][j..j + 4], bytes[j + 4..j + 8];
    assert a[0] == b[0] && a[1] == b[1] && a[2] == b[2] && a[3] == b[3];
    assert a == [a[0], a[1], a[2], a[3]] && b == [b[0], b[1], b[2], b[3]];
  }

  lemma {:induction false} WordAt(bytes: seq<bv8>, i: nat)
    requires |bytes| % 4 == 0 && 4 * i + 4 <= |bytes|
    ensures WordsOf(bytes)[i] == LittleWord(bytes[4 * i..4 * i + 4])
  {
    hide LittleWord;
    if i > 0 {
      WordAt(bytes[4..], i - 1);
      var j := 4 * (i - 1);
      assert 4 * i == j + 4;
      SliceOfRest(bytes, j);
    } else {
      assert bytes[0..4] == bytes[..4];
    }
  }
}
