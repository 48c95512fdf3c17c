/**
 * The argument rules of Microsoft's "Parsing C++ Command-Line Arguments", which
 * CommandLineToArgvW follows: the specification that the quoting in
 * base/command_line.cc has to meet.
 *
 * A scan reads one character at a time. It holds backslashes back until it sees
 * what follows them: before a quote, two of them stand for one, and an odd one
 * out makes the quote literal; otherwise they stand for themselves.
 */
module Tokenizer {

  /** Blanks end an unquoted token. */
  predicate IsBlank(c: char) { c == ' ' || c == '\t' }

  /**
   * Where a left-to-right scan stands: the finished tokens, whether a token
   * has been started, its text so far, whether the scan is inside quotes, and
   * how many backslashes have been read but not yet interpreted.
   */
  datatype Scan = Scan(done: seq<string>, open: bool, cur: string, quoted: bool, slashes: nat)

  function Between(done: seq<string>): Scan { Scan(done, false, "", false, 0) }

  function Slashes(n: nat): (s: string)
    ensures |s| == n && forall i :: 0 <= i < n ==> s[i] == '\\'
  {
    if n == 0 then "" else "\\" + Slashes(n - 1)
  }

  function Close(st: Scan): Scan {
    if st.open then Between(st.done + [st.cur + Slashes(st.slashes)]) else st
  }

  function ScanChar(st: Scan, c: char): Scan {
    if c == '\\' then
      st.(open := true, slashes := st.slashes + 1)
    else if c == '"' then
      // 2n backslashes give n and the quote delimits; 2n+1 give n and the quote is literal.
      var half := st.cur + Slashes(st.slashes / 2);
      if st.slashes % 2 == 0
      then st.(open := true, cur := half, quoted := !st.quoted, slashes := 0)
      else st.(open := true, cur := half + "\"", slashes := 0)
    else if IsBlank(c) && !st.quoted then
      Close(st)
    else
      st.(open := true, cur := st.cur + Slashes(st.slashes) + [c], slashes := 0)
  }

  function ScanAll(st: Scan, s: string): Scan
    decreases |s|
  {
    if s == "" then st else ScanAll(ScanChar(st, s[0]), s[1..])
  }

  /** The arguments that the tokeniser reads from s. */
  function Tokens(s: string): seq<string> {
    Close(ScanAll(Between([]), s)).done
  }

  lemma {:induction false} ScanConcat(st: Scan, a: string, b: string)
    ensures ScanAll(st, a + b) == ScanAll(ScanAll(st, a), b)
    decreases |a|
  {
    if a == "" {
      assert a + b == b;
    } else {
      assert (a + b)[0] == a[0] && (a + b)[1..] == a[1..] + b;
      ScanConcat(ScanChar(st, a[0]), a[1..], b);
    }
  }

  lemma ScanCons(st: Scan, c: char, t: string)
    ensures ScanAll(st, [c] + t) == ScanAll(ScanChar(st, c), t)
  {}

  /** The scan with n more backslashes pending. */
  function Held(st: Scan, n: nat): Scan {
    if n == 0 then st else st.(open := true, slashes := st.slashes + n)
  }

  lemma {:induction false} ScanSlashes(st: Scan, n: nat, t: string)
    ensures ScanAll(st, Slashes(n) + t) == ScanAll(Held(st, n), t)
    decreases n
  {
    if n == 0 {
      assert Slashes(0) + t == t;
    } else {
      assert Slashes(n) + t == ['\\'] + (Slashes(n - 1) + t);
      ScanCons(st, '\\', Slashes(n - 1) + t);
      ScanSlashes(ScanChar(st, '\\'), n - 1, t);
    }
  }

  /** Tokens already finished do not influence the scan. */
  lemma {:induction false} ScanAfter(done: seq<string>, st: Scan, s: string)
    ensures ScanAll(st.(done := done + st.done), s)
         == ScanAll(st, s).(done := done + ScanAll(st, s).done)
    decreases |s|
  {
    if s == "" {
    } else {
      var token := st.cur + Slashes(st.slashes);
      assert done + (st.done + [token]) == done + st.done + [token];
      ScanAfter(done, ScanChar(st, s[0]), s[1..]);
    }
  }

  /** Between tokens nothing is pending. */
  predicate Sane(st: Scan) { !st.open ==> st == Between(st.done) }

  lemma {:induction false} ScanSane(st: Scan, s: string)
    requires Sane(st)
    ensures Sane(ScanAll(st, s))
    decreases |s|
  {
    if s == "" {
    } else {
      ScanSane(ScanChar(st, s[0]), s[1..]);
    }
  }

  /** A piece of command line after which the scan is outside quotes. */
  predicate Balanced(s: string) { !ScanAll(Between([]), s).quoted }

  lemma ScanFrom(done: seq<string>, s: string)
    ensures Sane(ScanAll(Between(done), s))
    ensures Close(ScanAll(Between(done), s)).done == done + Tokens(s)
    ensures ScanAll(Between(done), s).quoted <==> !Balanced(s)
  {
    assert done + [] == done;
    ScanAfter(done, Between([]), s);
    ScanSane(Between(done), s);
  }

  function Join(parts: seq<string>): string {
    if |parts| == 0 then "" else if |parts| == 1 then parts[0] else parts[0] + " " + Join(parts[1..])
  }

  function TokensOfParts(parts: seq<string>): seq<string> {
    if parts == [] then [] else Tokens(parts[0]) + TokensOfParts(parts[1..])
  }

  /** Balanced pieces joined by spaces are tokenised one by one. */
  lemma {:induction false} ScanJoin(done: seq<string>, parts: seq<string>)
    requires forall i :: 0 <= i < |parts| ==> Balanced(parts[i])
    ensures Close(ScanAll(Between(done), Join(parts))).done == done + TokensOfParts(parts)
    ensures !ScanAll(Between(done), Join(parts)).quoted
    decreases |parts|
  {
    if |parts| == 0 {
    } else {
      ScanFrom(done, parts[0]);
      var more := done + Tokens(parts[0]);
      assert more + TokensOfParts(parts[1..]) == done + TokensOfParts(parts);
      if |parts| > 1 {
        ScanNext(Between(done), parts[0], Join(parts[1..]));
        ScanJoin(more, parts[1..]);
      }
    }
  }

  /** Outside quotes a blank finishes the current token. */
  lemma ScanNext(st: Scan, a: string, b: string)
    requires Sane(ScanAll(st, a)) && !ScanAll(st, a).quoted
    ensures ScanAll(st, a + " " + b) == ScanAll(Between(Close(ScanAll(st, a)).done), b)
  {
    assert a + " " + b == a + ([' '] + b);
    ScanConcat(st, a, [' '] + b);
    ScanCons(ScanAll(st, a), ' ', b);
  }
}
