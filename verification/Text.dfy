/**
 * The string helpers of base/string_util that the command line relies on.
 *
 * Trimming takes whitespace off both ends, the front first. Lower case is that
 * of ASCII, letter by letter, and so keeps the length. Counting how many
 * characters of a set a text has is for the round trip only, where it tells
 * texts apart that have lost some.
 */
module Text {

  /** The members of kWhitespaceUTF16. */
  predicate IsWhitespace(c: char) {
    var u := c as int;
    || 0x09 <= u <= 0x0D
    || u in {0x20, 0x85, 0xA0, 0x1680, 0x180E, 0x200C, 0x2028, 0x2029, 0x202F, 0x205F, 0x3000}
    || 0x2000 <= u <= 0x200A
  }

  /** The members, one by one. */
  const WHITESPACE_UNICODE := [
    0x0009, 0x000A, 0x000B, 0x000C, 0x000D, 0x0020, 0x0085, 0x00A0, 0x1680, 0x180E,
    0x2000, 0x2001, 0x2002, 0x2003, 0x2004, 0x2005, 0x2006, 0x2007, 0x2008, 0x2009, 0x200A,
    0x200C, 0x2028, 0x2029, 0x202F, 0x205F, 0x3000]

  lemma WhitespaceIsListed(c: char)
    ensures IsWhitespace(c) <==> c as int in WHITESPACE_UNICODE
  {}

  function TrimLeft(s: string): (r: string)
    ensures |r| <= |s|
    ensures r != "" ==> !IsWhitespace(r[0])
    ensures forall i :: 0 <= i < |s| - |r| ==> IsWhitespace(s[i])
  {
    if s != "" && IsWhitespace(s[0]) then TrimLeft(s[1..]) else s
  }

  lemma TrimLeftIsSuffix(s: string)
    ensures TrimLeft(s) == s[|s| - |TrimLeft(s)|..]
  {}

  function TrimRight(s: string): (r: string)
    ensures |r| <= |s| && r == s[..|r|]
    ensures r != "" ==> !IsWhitespace(r[|r| - 1])
    ensures forall i :: |r| <= i < |s| ==> IsWhitespace(s[i])
  {
    if s != "" && IsWhitespace(s[|s| - 1]) then TrimRight(s[..|s| - 1]) else s
  }

  /** TrimWhitespace(s, TRIM_ALL, &s). */
  function Trim(s: string): string {
    TrimRight(TrimLeft(s))
  }

  predicate Trimmed(s: string) {
    s != "" ==> !IsWhitespace(s[0]) && !IsWhitespace(s[|s| - 1])
  }

  lemma TrimIsTrimmed(s: string)
    ensures Trimmed(Trim(s))
  {}

  lemma TrimFixesTrimmed(s: string)
    ensures Trim(s) == s <==> Trimmed(s)
  {}

  lemma TrimIdempotent(s: string)
    ensures Trim(Trim(s)) == Trim(s)
  {}

  /** StringToLowerASCII. */
  function Lower(s: string): (r: string)
    ensures |r| == |s|
    ensures forall i :: 0 <= i < |s| ==> r[i] == LowerChar(s[i])
  {
    seq(|s|, i requires 0 <= i < |s| => LowerChar(s[i]))
  }

  function LowerChar(c: char): char {
    if 'A' <= c <= 'Z' then (c as int + 32) as char else c
  }

  /** How many characters of s belong to cs. */
  function Count(s: string, cs: set<char>): nat {
    if s == "" then 0 else (if s[0] in cs then 1 else 0) + Count(s[1..], cs)
  }

  lemma {:induction false} CountConcat(a: string, b: string, cs: set<char>)
    ensures Count(a + b, cs) == Count(a, cs) + Count(b, cs)
  {
    if a == "" {
      assert a + b == b;
    } else {
      assert (a + b)[1..] == a[1..] + b;
      CountConcat(a[1..], b, cs);
    }
  }

  lemma {:induction false} CountZero(s: string, cs: set<char>)
    ensures Count(s, cs) == 0 <==> forall c | c in s :: c !in cs
  {
    if s == "" {
    } else {
      CountZero(s[1..], cs);
      assert s == [s[0]] + s[1..];
    }
  }
}
