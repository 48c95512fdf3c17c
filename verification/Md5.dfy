/** The streaming interface of base/md5.cc. */
module Md5 {
  import opened Md5Spec
  import opened Md5Transform

  /** uint32 where it is counted with, not computed on. */
  type uint32 = x: int | 0 <= x < 0x1_0000_0000

  // ---------------------------------------------------------------------
  // Bytes and words in memory, on either kind of machine

  function NativeWord(big: bool, bytes: seq<bv8>): bv32
    requires |bytes| == 4
  {
    if big then LittleWord([bytes[3], bytes[2], bytes[1], bytes[0]]) else LittleWord(bytes)
  }

  function NativeBytes(big: bool, word: bv32): (bytes: seq<bv8>)
    ensures |bytes| == 4
  {
    var b := LittleBytes(word);
    if big then [b[3], b[2], b[1], b[0]] else b
  }

  lemma LittleRoundTrip(w: bv32)
    ensures LittleWord(LittleBytes(w)) == w
  {}

  /** A word stored and loaded by the same machine is the same word. */
  lemma NativeRoundTrip(big: bool, w: bv32)
    ensures NativeWord(big, NativeBytes(big, w)) == w
  {
    hide LittleWord, LittleBytes;
    LittleRoundTrip(w);
    var b := LittleBytes(w);
    assert b == [b[0], b[1], b[2], b[3]];
  }

  /** Reversing a stored word twice over gives its low-order byte first. */
  lemma NativeReverse(big: bool, w: bv32)
    ensures NativeBytes(big, LittleWord(NativeBytes(big, w))) == LittleBytes(w)
  {}

  /** Word i of a piece of memory. */
  function Slot(bytes: seq<bv8>, i: nat): (s: seq<bv8>)
    requires 4 * i + 4 <= |bytes|
    ensures |s| == 4
  {
    bytes[4 * i..4 * i + 4]
  }

  /** What (uint32*) makes of a piece of memory. */
  function NativeWords(big: bool, bytes: seq<bv8>): (words: seq<bv32>)
    requires |bytes| % 4 == 0
    ensures |words| == |bytes| / 4
  {
    seq(|bytes| / 4, i requires 0 <= i < |bytes| / 4 => NativeWord(big, Slot(bytes, i)))
  }

  /** memcpy. */
  method Copy(dst: array<bv8>, at: nat, src: seq<bv8>)
    requires at + |src| <= dst.Length
    modifies dst
    ensures dst[..] == old(dst[..at]) + src + old(dst[at + |src|..])
  {
    forall i | 0 <= i < |src| {
      dst[at + i] := src[i];
    }
    assert forall i :: 0 <= i < |src| ==> dst[..][at + i] == src[i];
  }

  /** One round of byteReverse. */
  method ReverseWord(big: bool, mem: array<bv8>, n: nat)
    requires 4 * n + 4 <= mem.Length
    modifies mem
    ensures Slot(mem[..], n) == NativeBytes(big, LittleWord(old(Slot(mem[..], n))))
    ensures forall k :: 0 <= k < mem.Length && !(4 * n <= k < 4 * n + 4) ==> mem[k] == old(mem[k])
  {
    hide NativeBytes, LittleWord;
    var t := LittleWord(mem[4 * n..4 * n + 4]);
    assert mem[4 * n..4 * n + 4] == Slot(mem[..], n);
    var bytes := NativeBytes(big, t);
    mem[4 * n], mem[4 * n + 1], mem[4 * n + 2], mem[4 * n + 3] := bytes[0], bytes[1], bytes[2], bytes[3];
    assert Slot(mem[..], n) == bytes;
  }

  lemma SlotFrame(a: seq<bv8>, b: seq<bv8>, i: nat)
    requires |a| == |b| && 4 * i + 4 <= |a| && forall k :: 4 * i <= k < 4 * i + 4 ==> a[k] == b[k]
    ensures Slot(a, i) == Slot(b, i)
  {}

  predicate Reversed(big: bool, before: seq<bv8>, after: seq<bv8>, i: nat)
    requires |before| == |after| && 4 * i + 4 <= |before|
  {
    Slot(after, i) == NativeBytes(big, LittleWord(Slot(before, i)))
  }

  /** Makes every one of the first longs words of memory hold its little-endian value. */
  method ByteReverse(big: bool, mem: array<bv8>, longs: nat)
    requires longs > 0 && 4 * longs <= mem.Length
    modifies mem
    ensures forall i :: 0 <= i < longs ==> Reversed(big, old(mem[..]), mem[..], i)
    ensures mem[4 * longs..] == old(mem[4 * longs..])
  {
    hide NativeBytes, LittleWord, Slot;
    ghost var start := mem[..];
    var n := 0;
    while n < longs
      invariant 0 <= n <= longs
      invariant forall i :: 0 <= i < n ==> Reversed(big, start, mem[..], i)
      invariant mem[4 * n..] == start[4 * n..]
    {
      ghost var before := mem[..];
      assert forall k :: 4 * n <= k < |start| ==> start[k] == start[4 * n..][k - 4 * n] == before[k];
      SlotFrame(start, before, n);
      ReverseWord(big, mem, n);
      forall i | 0 <= i < n
        ensures Reversed(big, start, mem[..], i)
      {
        assert Reversed(big, start, before, i);
        SlotFrame(mem[..], before, i);
      }
      assert mem[4 * (n + 1)..] == start[4 * (n + 1)..];
      n := n + 1;
    }
  }

  lemma ReversedWords(big: bool, before: seq<bv8>, after: seq<bv8>, longs: nat)
    requires |before| == |after| && |before| % 4 == 0 && longs <= |before| / 4
    requires forall i :: 0 <= i < longs ==> Reversed(big, before, after, i)
    ensures NativeWords(big, after)[..longs] == WordsOf(before[..4 * longs])
  {
    hide NativeBytes, LittleWord, WordsOf, NativeWord;
    forall i | 0 <= i < longs
      ensures NativeWords(big, after)[i] == WordsOf(before[..4 * longs])[i]
    {
      assert Reversed(big, before, after, i);
      NativeRoundTrip(big, LittleWord(Slot(before, i)));
      WordAt(before[..4 * longs], i);
      assert before[..4 * longs][4 * i..4 * i + 4] == Slot(before, i);
    }
  }

  // ---------------------------------------------------------------------
  // The bit count

  /** The count in its two words. */
  predicate Counts(lo: uint32, hi: uint32, n: nat) {
    lo + 0x1_0000_0000 * hi == 8 * n % 0x1_0000_0000_0000_0000
  }

  const WORD := 0x1_0000_0000

  lemma Remainder(x: nat, q: nat, r: nat)
    requires r < WORD && x == WORD * q + r
    ensures x % WORD == r
  {}

  lemma LongRemainder(x: nat, q: nat, r: nat)
    requires r < 0x1_0000_0000_0000_0000 && x == 0x1_0000_0000_0000_0000 * q + r
    ensures x % 0x1_0000_0000_0000_0000 == r
  {}

  lemma LowBits(len: nat)
    ensures len % WORD * 8 % WORD == 8 * (len % 0x2000_0000)
    ensures 8 * len == WORD * (len / 0x2000_0000) + 8 * (len % 0x2000_0000)
  {
    var q, r := len / 0x2000_0000, len % 0x2000_0000;
    Remainder(len, q / 8, 0x2000_0000 * (q % 8) + r);
    Remainder(len % WORD * 8, q % 8, 8 * r);
  }

  lemma AddModulo(a: nat, q: nat)
    ensures (a % WORD + q % WORD) % WORD == (a + q) % WORD
  {}

  /** The carry code adds 8 * len, modulo 2^64. */
  lemma CountUpdate(lo: uint32, hi: uint32, n: nat, len: nat, lo1: uint32, hi1: uint32)
    requires Counts(lo, hi, n)
    requires lo1 == (lo + len % WORD * 8 % WORD) % WORD
    requires hi1 == ((if lo1 < lo then (hi + 1) % WORD else hi) + len / 0x2000_0000 % WORD) % WORD
    ensures Counts(lo1, hi1, n + len)
  {
    var q, r := len / 0x2000_0000, len % 0x2000_0000;
    LowBits(len);
    var carry := if lo + 8 * r >= WORD then 1 else 0;
    CarryIs(lo, 8 * r);
    AddModulo(hi + carry, q);
    if hi + carry < WORD {
      Remainder(hi + carry, 0, hi + carry);
    }
    CountSum(lo, hi, n, len, carry, q, r);
  }

  lemma CarryIs(lo: uint32, x: uint32)
    ensures (lo + x) / WORD == (if lo + x >= WORD then 1 else 0)
    ensures (lo + x) % WORD < lo <==> lo + x >= WORD
  {}

  lemma CountSum(lo: uint32, hi: uint32, n: nat, len: nat, carry: nat, q: nat, r: nat)
    requires Counts(lo, hi, n) && 8 * len == WORD * q + 8 * r && carry == (lo + 8 * r) / WORD
    ensures Counts((lo + 8 * r) % WORD, (hi + carry + q) % WORD, n + len)
  {
    var square := 0x1_0000_0000_0000_0000;
    var k := 8 * n / square;
    var lo1, sum := (lo + 8 * r) % WORD, hi + carry + q;
    assert 8 * n == square * k + lo + WORD * hi;
    assert 8 * (n + len) == square * k + lo1 + WORD * sum;
    assert WORD * sum == square * (sum / WORD) + WORD * (sum % WORD);
    LongRemainder(8 * (n + len), k + sum / WORD, lo1 + WORD * (sum % WORD));
  }

  lemma CountTail(lo: uint32, hi: uint32, n: nat)
    requires Counts(lo, hi, n)
    ensures lo / 8 % 64 == n % 64
  {
    var k := 8 * n / 0x1_0000_0000_0000_0000;
    var j := 0x80_0000 * hi + 0x80_0000_0000_0000 * k;
    assert lo == 8 * (n - 64 * j);
    Modulo64(n, j);
  }

  lemma Modulo64(n: nat, j: nat)
    requires 64 * j <= n
    ensures (n - 64 * j) % 64 == n % 64
  {}

  /** The chaining value after complete blocks. */
  function ChainAfter(bytes: seq<bv8>): Chain
    requires |bytes| % 64 == 0
  {
    Sixteens(|bytes|);
    Hash(INITIAL, WordsOf(bytes))
  }

  lemma Sixteens(n: nat)
    requires n % 64 == 0
    ensures n / 4 % 16 == 0 && n % 4 == 0
  {
    assert n == 64 * (n / 64);
  }

  /** One more block. */
  lemma AddBlock(prefix: seq<bv8>, block: seq<bv8>)
    requires |prefix| % 64 == 0 && |block| == 64
    ensures Compress(ChainAfter(prefix), WordsOf(block)) == ChainAfter(prefix + block)
  {
    hide Compress, Hash, WordsOf;
    Sixteens(|prefix|);
    WordsConcat(prefix, block);
    HashOne(Hash(INITIAL, WordsOf(prefix)), WordsOf(block));
    HashConcat(INITIAL, WordsOf(prefix), WordsOf(block));
  }

  lemma WholeIs(n: nat, m: nat)
    requires m <= n < m + 64 && m % 64 == 0
    ensures Whole(n) == m
  {}

  /** The bytes of complete blocks. */
  function Whole(n: nat): (m: nat)
    ensures m <= n && m % 64 == 0 && n - m == n % 64
  {
    n / 64 * 64
  }

  // ---------------------------------------------------------------------
  // The context

  class Context {
    const big: bool
    const buf: array<bv32>
    const bits: array<uint32>
    const input: array<bv8>
    /** All bytes since MD5Init. */
    ghost var message: seq<bv8>

    ghost predicate Shaped()
    {
      buf.Length == 4 && bits.Length == 2 && input.Length == 64
    }

    /** buf chains the complete blocks, input starts with the other bytes, bits counts all of them. */
    ghost predicate Valid()
      reads this, buf, bits, input
    {
      var n := Whole(|message|);
      && Shaped()
      && ChainOf(buf[..]) == ChainAfter(message[..n])
      && input[..|message| - n] == message[n..]
      && Counts(bits[0], bits[1], |message|)
    }

    /** Uninitialised memory. */
    constructor (big: bool)
      ensures Shaped() && fresh(buf) && fresh(bits) && fresh(input) && this.big == big
    {
      this.big := big;
      buf, bits, input := new bv32[4], new uint32[2], new bv8[64];
      message := [];
    }

    method Init()
      requires Shaped()
      modifies this, buf, bits
      ensures Valid() && message == []
    {
      buf[0], buf[1], buf[2], buf[3] := 0x67452301, 0xefcdab89, 0x98badcfe, 0x10325476;
      bits[0], bits[1] := 0, 0;
      message := [];
    }

    /** byteReverse(in, 16) and MD5Transform(buf, in). */
    method ProcessInput()
      requires Shaped()
      modifies buf, input
      ensures ChainOf(buf[..]) == Compress(ChainOf(old(buf[..])), WordsOf(old(input[..])))
    {
      hide Compress, NativeBytes, LittleWord, WordsOf, NativeWord;
      ghost var before := input[..];
      ByteReverse(big, input, 16);
      ReversedWords(big, before, input[..], 16);
      assert NativeWords(big, input[..])[..16] == NativeWords(big, input[..]) && before[..64] == before;
      Transform(buf, NativeWords(big, input[..]));
    }

    /** Updates the bit count; the result is the number of bytes already in input. */
    method CountBits(len: nat) returns (t: nat)
      requires Shaped() && Counts(bits[0], bits[1], |message|)
      modifies bits
      ensures t == |message| % 64
      ensures Counts(bits[0], bits[1], |message| + len)
    {
      var low: int := bits[0];
      ghost var hi := bits[1];
      bits[0] := (low + len % WORD * 8 % WORD) % WORD;
      if bits[0] < low {
        bits[1] := ((bits[1] as int) + 1) % WORD;
      }
      bits[1] := (bits[1] + len / 0x2000_0000 % WORD) % WORD;
      CountUpdate(low, hi, |message|, len, bits[0], bits[1]);
      CountTail(low, hi, |message|);
      t := low / 8 % 64;
    }

    /** The block in input, after the prefix already chained. */
    method ProcessBlock(ghost prefix: seq<bv8>)
      requires Shaped() && |prefix| % 64 == 0 && ChainOf(buf[..]) == ChainAfter(prefix)
      modifies buf, input
      ensures ChainOf(buf[..]) == ChainAfter(prefix + old(input[..]))
    {
      hide ChainAfter, Compress, WordsOf, ChainOf;
      AddBlock(prefix, input[..]);
      ProcessInput();
    }

    method Update(data: seq<bv8>)
      requires Valid()
      modifies this, buf, bits, input
      ensures Valid() && message == old(message) + data
    {
      hide ChainAfter, ChainOf, Counts;
      ghost var m := |message|;
      var t := CountBits(|data|);
      WholeRest(m);
      var pos := 0;
      if t != 0 && |data| < 64 - t {
        KeepInInput(data, t);
      } else {
        if t != 0 {
          pos := CompleteBlock(data, t);
        }
        message := message + data;
        assert message[..m + pos] == old(message) + data[..pos];
        UpdateBlocks(data, pos, m);
      }
    }

    /** Too little data for a block. */
    method KeepInInput(data: seq<bv8>, t: nat)
      requires Shaped() && t == |message| - Whole(|message|) && |data| < 64 - t
      requires ChainOf(buf[..]) == ChainAfter(message[..Whole(|message|)])
      requires input[..t] == message[Whole(|message|)..]
      requires Counts(bits[0], bits[1], |message| + |data|)
      modifies this, input
      ensures Valid() && message == old(message) + data
    {
      hide ChainAfter, ChainOf, Counts, Whole;
      ghost var n := Whole(|message|);
      WholeRest(|message|);
      Copy(input, t, data);
      message := message + data;
      WholeIs(|message|, n);
      assert message[..n] == old(message)[..n];
      assert input[..|message| - n] == old(message)[n..] + data;
    }

    /** The block that was begun by earlier data. */
    method CompleteBlock(data: seq<bv8>, t: nat) returns (pos: nat)
      requires Shaped() && 0 < t == |message| - Whole(|message|) && |data| >= 64 - t
      requires ChainOf(buf[..]) == ChainAfter(message[..Whole(|message|)])
      requires input[..t] == message[Whole(|message|)..]
      modifies buf, input
      ensures pos <= |data| && (|message| + pos) % 64 == 0
      ensures ChainOf(buf[..]) == ChainAfter(message + data[..pos])
    {
      hide ChainAfter, ChainOf, Whole;
      ghost var n := Whole(|message|);
      WholeRest(|message|);
      pos := 64 - t;
      Copy(input, t, data[..pos]);
      assert message[..n] + input[..] == message + data[..pos] by {
        assert input[..] == message[n..] + data[..pos];
        assert message == message[..n] + message[n..];
      }
      ProcessBlock(message[..n]);
    }

    /** The loop over complete blocks, and the rest. */
    method UpdateBlocks(data: seq<bv8>, start: nat, ghost m: nat)
      requires Shaped() && start <= |data| && (m + start) % 64 == 0
      requires m + |data| == |message| && message[m..] == data
      requires ChainOf(buf[..]) == ChainAfter(message[..m + start])
      requires Counts(bits[0], bits[1], |message|)
      modifies buf, input
      ensures Valid()
    {
      hide ChainAfter, ChainOf, Counts, Whole;
      var pos, len := start, |data| - start;
      while len >= 64
        invariant pos + len == |data| && len >= 0 && (m + pos) % 64 == 0
        invariant ChainOf(buf[..]) == ChainAfter(message[..m + pos])
      {
        Copy(input, 0, data[pos..pos + 64]);
        assert message[..m + pos] + input[..] == message[..m + pos + 64] by {
          assert input[..] == data[pos..pos + 64];
        }
        ProcessBlock(message[..m + pos]);
        pos := pos + 64;
        len := len - 64;
      }
      Copy(input, 0, data[pos..]);
      WholeIs(|message|, m + pos);
      assert input[..len] == data[pos..] == message[m + pos..];
    }

    /** Pads, appends the length, digests, and wipes the context. */
    method Final() returns (digest: seq<bv8>)
      requires Valid()
      modifies this, buf, bits, input
      ensures digest == Digest(old(message))
      ensures forall i :: 0 <= i < 4 ==> buf[i] == 0
      ensures bits[0] == bits[1] == 0
      ensures forall i :: 0 <= i < 64 ==> input[i] == 0
    {
      hide Digest, Counts, ChainOf, Padded, ChainAfter, FinalChain, LittleBytes;
      assert Counts(bits[0], bits[1], |message|);
      ghost var prefix := Pad();
      AppendLength(prefix);
      digest := ReadDigest();
      DigestIs(message, buf[..]);
      Wipe();
    }

    /** Pads out to 56 bytes modulo 64, with one block or two. */
    method Pad() returns (ghost prefix: seq<bv8>)
      requires Valid()
      modifies buf, input
      ensures |prefix| % 64 == 0 && ChainOf(buf[..]) == ChainAfter(prefix)
      ensures prefix + input[..56] == Padded(message)
    {
      hide Counts, ChainOf, ChainAfter, Padded, Whole;
      CountTail(bits[0], bits[1], |message|);
      var count := bits[0] / 8 % 64;
      ghost var n := Whole(|message|);
      assert count == |message| - n by { WholeRest(|message|); }
      var p := count;
      ghost var tail := message[n..];
      input[p] := 0x80;
      p := p + 1;
      assert input[..p] == tail + [0x80];
      count := 64 - 1 - count;
      prefix := message[..n];
      if count < 8 {
        Copy(input, p, Zeros(count));
        assert input[..] == tail + [0x80] + Zeros(count);
        prefix := prefix + input[..];
        ProcessBlock(message[..n]);
        ghost var block := input[..];
        Copy(input, 0, Zeros(56));
        assert input[..56] == Zeros(56);
        PadTwo(message, n, count);
      } else {
        Copy(input, p, Zeros(count - 8));
        assert input[..56] == tail + [0x80] + Zeros(count - 8);
        PadOne(message, n, count);
      }
    }

    /** byteReverse(in, 14), and the two words of the count. */
    method StoreLength()
      requires Shaped() && Counts(bits[0], bits[1], |message|)
      modifies input
      ensures NativeWords(big, input[..]) == WordsOf(old(input[..56])) + LengthWords(|message|)
    {
      hide Counts, NativeBytes, NativeWord, LittleWord, WordsOf, LengthWords, NativeWords, Slot, Reversed;
      ghost var before := input[..];
      LengthIs(bits[0], bits[1], |message|);
      ByteReverse(big, input, 14);
      ghost var reversed := input[..];
      var lo, hi := bits[0] as bv32, bits[1] as bv32;
      Copy(input, 56, NativeBytes(big, lo));
      assert input[..] == reversed[..56] + NativeBytes(big, lo) + reversed[60..];
      Copy(input, 60, NativeBytes(big, hi));
      assert input[..] == reversed[..56] + NativeBytes(big, lo) + NativeBytes(big, hi);
      LastWords(big, before, reversed, lo, hi, input[..]);
      assert before[..56] == old(input[..56]);
    }

    method AppendLength(ghost prefix: seq<bv8>)
      requires Shaped() && Counts(bits[0], bits[1], |message|)
      requires |prefix| % 64 == 0 && ChainOf(buf[..]) == ChainAfter(prefix)
      requires prefix + input[..56] == Padded(message)
      modifies buf, input
      ensures ChainOf(buf[..]) == FinalChain(message)
    {
      hide Counts, ChainOf, ChainAfter, Padded, WordsOf, FinalChain, Compress, NativeWords, LengthWords;
      FinalBlock(prefix, input[..56], message);
      StoreLength();
      Transform(buf, NativeWords(big, input[..]));
    }

    /** memset(ctx, 0, sizeof(*ctx)). */
    method Wipe()
      requires Shaped()
      modifies buf, bits, input
      ensures forall i :: 0 <= i < 4 ==> buf[i] == 0
      ensures bits[0] == bits[1] == 0
      ensures forall i :: 0 <= i < 64 ==> input[i] == 0
    {
      forall i | 0 <= i < 4 { buf[i] := 0; }
      bits[0], bits[1] := 0, 0;
      forall i | 0 <= i < 64 { input[i] := 0; }
    }

    /** The memory of buf. */
    method BufBytes() returns (mem: array<bv8>)
      requires Shaped()
      ensures fresh(mem) && mem.Length == 16
      ensures forall j :: 0 <= j < 4 ==> Slot(mem[..], j) == NativeBytes(big, buf[j])
    {
      hide NativeBytes, Slot;
      mem := new bv8[16];
      for i := 0 to 4
        invariant forall j :: 0 <= j < i ==> Slot(mem[..], j) == NativeBytes(big, buf[j])
      {
        ghost var was := mem[..];
        Copy(mem, 4 * i, NativeBytes(big, buf[i]));
        SlotIs(mem[..], was[..4 * i], NativeBytes(big, buf[i]), was[4 * i + 4..], i);
        forall j | 0 <= j < i
          ensures Slot(mem[..], j) == NativeBytes(big, buf[j])
        {
          SlotFrame(mem[..], was, j);
        }
      }
    }

    /** byteReverse(buf, 4) and memcpy. */
    method ReadDigest() returns (digest: seq<bv8>)
      requires Shaped()
      ensures digest == LittleBytes(buf[0]) + LittleBytes(buf[1]) + LittleBytes(buf[2]) + LittleBytes(buf[3])
    {
      hide NativeBytes, LittleWord, LittleBytes;
      var mem := BufBytes();
      ghost var before := mem[..];
      ByteReverse(big, mem, 4);
      digest := mem[..];
      forall i | 0 <= i < 4
        ensures Slot(digest, i) == LittleBytes(buf[i])
      {
        assert Reversed(big, before, digest, i);
        NativeReverse(big, buf[i]);
      }
      FourSlots(digest);
    }
  }

  lemma SlotIs(all: seq<bv8>, a: seq<bv8>, b: seq<bv8>, c: seq<bv8>, i: nat)
    requires all == a + b + c && |a| == 4 * i && |b| == 4
    ensures Slot(all, i) == b
  {}

  lemma FourSlots(bytes: seq<bv8>)
    requires |bytes| == 16
    ensures bytes == Slot(bytes, 0) + Slot(bytes, 1) + Slot(bytes, 2) + Slot(bytes, 3)
  {}

  lemma WholeRest(n: nat)
    ensures n - Whole(n) == n % 64 && Whole(n) % 64 == 0
  {}

  lemma PadOne(message: seq<bv8>, n: nat, count: nat)
    requires n == Whole(|message|) && 8 <= count && count == 63 - (|message| - n)
    ensures message[..n] + (message[n..] + [0x80] + Zeros(count - 8)) == Padded(message)
  {}

  lemma PadTwo(message: seq<bv8>, n: nat, count: nat)
    requires n == Whole(|message|) && 0 <= count < 8 && count == 63 - (|message| - n)
    ensures message[..n] + (message[n..] + [0x80] + Zeros(count)) + Zeros(56) == Padded(message)
  {}

  lemma LastWords(big: bool, before: seq<bv8>, reversed: seq<bv8>, lo: bv32, hi: bv32, after: seq<bv8>)
    requires |before| == |reversed| == |after| == 64
    requires forall i :: 0 <= i < 14 ==> Reversed(big, before, reversed, i)
    requires after == reversed[..56] + NativeBytes(big, lo) + NativeBytes(big, hi)
    ensures NativeWords(big, after) == WordsOf(before[..56]) + [lo, hi]
  {
    hide NativeBytes, NativeWord, LittleWord, WordsOf;
    forall i | 0 <= i < 14
      ensures Reversed(big, before, after, i)
    {
      assert Reversed(big, before, reversed, i);
      SlotFrame(after, reversed, i);
    }
    ReversedWords(big, before, after, 14);
    assert Slot(after, 14) == NativeBytes(big, lo) && Slot(after, 15) == NativeBytes(big, hi);
    NativeRoundTrip(big, lo);
    NativeRoundTrip(big, hi);
    assert NativeWords(big, after) == NativeWords(big, after)[..14] + [lo, hi];
  }

  lemma LengthIs(lo: uint32, hi: uint32, n: nat)
    requires Counts(lo, hi, n)
    ensures LengthWords(n) == [lo as bv32, hi as bv32]
  {
    var bits := 8 * n % 0x1_0000_0000_0000_0000;
    assert bits % WORD == lo && bits / WORD == hi;
  }

  lemma FinalBlock(prefix: seq<bv8>, rest: seq<bv8>, message: seq<bv8>)
    requires |prefix| % 64 == 0 && |rest| == 56 && prefix + rest == Padded(message)
    ensures Compress(ChainAfter(prefix), WordsOf(rest) + LengthWords(|message|)) == FinalChain(message)
  {
    hide Compress, Hash, WordsOf, LengthWords, Padded;
    Sixteens(|prefix|);
    WordsConcat(prefix, rest);
    var last := WordsOf(rest) + LengthWords(|message|);
    assert WordsOf(prefix) + last == AllWords(message);
    HashOne(ChainAfter(prefix), last);
    HashConcat(INITIAL, WordsOf(prefix), last);
  }

  lemma DigestIs(message: seq<bv8>, words: seq<bv32>)
    requires |words| == 4 && ChainOf(words) == FinalChain(message)
    ensures Digest(message)
         == LittleBytes(words[0]) + LittleBytes(words[1]) + LittleBytes(words[2]) + LittleBytes(words[3])
  {}

  method Sum(big: bool, data: seq<bv8>) returns (digest: seq<bv8>)
    ensures digest == Digest(data)
  {
    var context := new Context(big);
    context.Init();
    context.Update(data);
    assert [] + data == data;
    digest := context.Final();
  }

  function Flatten(pieces: seq<seq<bv8>>): seq<bv8> {
    if pieces == [] then [] else pieces[0] + Flatten(pieces[1..])
  }

  lemma {:induction false} FlattenSnoc(pieces: seq<seq<bv8>>, piece: seq<bv8>)
    ensures Flatten(pieces + [piece]) == Flatten(pieces) + piece
  {
    if pieces == [] {
      assert ([] + [piece])[1..] == [];
    } else {
      assert (pieces + [piece])[1..] == pieces[1..] + [piece];
      FlattenSnoc(pieces[1..], piece);
      assert pieces[0] + (Flatten(pieces[1..]) + piece) == pieces[0] + Flatten(pieces[1..]) + piece;
    }
  }

  /** However a message is cut into updates, on either kind of machine, the digest is that of the whole message. */
  method SumOfPieces(big: bool, pieces: seq<seq<bv8>>) returns (digest: seq<bv8>)
    ensures digest == Digest(Flatten(pieces))
  {
    hide Digest, Context.Valid;
    var context := new Context(big);
    context.Init();
    for i := 0 to |pieces|
      invariant context.Valid() && context.message == Flatten(pieces[..i])
      invariant fresh(context) && fresh(context.buf) && fresh(context.bits) && fresh(context.input)
    {
      FlattenSnoc(pieces[..i], pieces[i]);
      assert pieces[..i + 1] == pieces[..i] + [pieces[i]];
      context.Update(pieces[i]);
    }
    assert pieces[..|pieces|] == pieces;
    digest := context.Final();
  }
}
