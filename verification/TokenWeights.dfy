/**
 * Two quantities that printing and tokenising can only lose: the backslashes
 * and quotes of a list of strings, and its blanks.
 *
 * The weight of a scan is what it has of them in its tokens and in the
 * backslashes that it still holds back. A raw character adds at most itself, a
 * quoted argument just what it has of its own, since the escapes disappear.
 * What comes back with the same weight has therefore been printed in a way that
 * the tokeniser understands, which is the hard direction of the round trip.
 */
module TokenWeights {
  import opened Text
  import opened Tokenizer
  import opened Quoting
  import Totals

  const ESCAPES := {'\\', '"'}
  const BLANKS := {' ', '\t'}

  function CountOf(cs: set<char>): string -> int { (s: string) => Count(s, cs) }

  function Total(ss: seq<string>, cs: set<char>): nat {
    Totals.TotalNonNegative(CountOf(cs), ss);
    Totals.Total(CountOf(cs), ss)
  }

  lemma TotalConcat(a: seq<string>, b: seq<string>, cs: set<char>)
    ensures Total(a + b, cs) == Total(a, cs) + Total(b, cs)
  {
    Totals.TotalConcat(CountOf(cs), a, b);
  }

  lemma TotalSnoc(a: seq<string>, s: string, cs: set<char>)
    ensures Total(a + [s], cs) == Total(a, cs) + Count(s, cs)
  {
    Totals.TotalSnoc(CountOf(cs), a, s);
  }

  lemma CountChar(s: string, c: char, cs: set<char>)
    ensures Count(s + [c], cs) == Count(s, cs) + (if c in cs then 1 else 0)
    ensures Count([c] + s, cs) == Count(s, cs) + (if c in cs then 1 else 0)
  {
    CountConcat(s, [c], cs);
  }

  lemma {:induction false} CountSlashes(n: nat)
    ensures Count(Slashes(n), ESCAPES) == n && Count(Slashes(n), BLANKS) == 0
    decreases n
  {
    if n == 0 {
    } else {
      CountChar(Slashes(n - 1), '\\', ESCAPES);
      CountChar(Slashes(n - 1), '\\', BLANKS);
      CountSlashes(n - 1);
    }
  }

  lemma CountFlushed(s: string, n: nat)
    ensures Count(s + Slashes(n), ESCAPES) == Count(s, ESCAPES) + n
    ensures Count(s + Slashes(n), BLANKS) == Count(s, BLANKS)
  {
    CountSlashes(n);
    CountConcat(s, Slashes(n), ESCAPES);
    CountConcat(s, Slashes(n), BLANKS);
  }

  // ---------------------------------------------------------------------
  // Backslashes and quotes

  function Weight(st: Scan): nat {
    Total(st.done, ESCAPES) + Count(st.cur, ESCAPES) + st.slashes
  }

  lemma CloseWeight(st: Scan)
    requires Sane(st)
    ensures Weight(Close(st)) == Weight(st) == Total(Close(st).done, ESCAPES)
  {
    var token := st.cur + Slashes(st.slashes);
    CountFlushed(st.cur, st.slashes);
    TotalSnoc(st.done, token, ESCAPES);
  }

  lemma PlainCharWeight(st: Scan, c: char)
    requires Sane(st) && c != '\\' && c != '"'
    ensures Weight(ScanChar(st, c)) == Weight(st) && ScanChar(st, c).slashes == 0
  {
    CloseWeight(st);
    CountFlushed(st.cur, st.slashes);
    CountChar(st.cur + Slashes(st.slashes), c, ESCAPES);
  }

  /** A quote costs at least its own weight, and a quote after 2n + 1 backslashes n + 1. */
  lemma QuoteWeight(st: Scan)
    ensures ScanChar(st, '"').slashes == 0
    ensures Weight(ScanChar(st, '"')) == Weight(st) - st.slashes + (st.slashes + 1) / 2
  {
    var half := st.cur + Slashes(st.slashes / 2);
    CountFlushed(st.cur, st.slashes / 2);
    CountChar(half, '"', ESCAPES);
  }

  lemma CharWeight(st: Scan, c: char)
    requires Sane(st)
    ensures Sane(ScanChar(st, c))
    ensures Weight(ScanChar(st, c)) <= Weight(st) + (if c == '\\' then 1 else 0)
  {
    if c == '"' {
      QuoteWeight(st);
    } else if c != '\\' {
      PlainCharWeight(st, c);
    }
  }

  /** Scanning raw text loses weight with every quote in it. */
  lemma {:induction false} RawWeight(st: Scan, s: string)
    requires Sane(st)
    ensures Weight(ScanAll(st, s)) <= Weight(st) + Count(s, ESCAPES)
    ensures '"' in s ==> Weight(ScanAll(st, s)) < Weight(st) + Count(s, ESCAPES)
    decreases |s|
  {
    hide ScanChar, Weight, Sane;
    if s == "" {
    } else {
      CharWeight(st, s[0]);
      RawWeight(ScanChar(st, s[0]), s[1..]);
      assert s == [s[0]] + s[1..];
    }
  }

  lemma HeldWeight(st: Scan, n: nat)
    requires Sane(st)
    ensures Sane(Held(st, n)) && Weight(Held(st, n)) == Weight(st) + n
  {}

  /** The scan after the printed form of a run of backslashes and the character behind it. */
  function AfterUnit(st: Scan, s: string): Scan
    requires s != ""
  {
    var n := SlashRun(s);
    var held := Held(st, QuotedRun(s));
    if n == |s| then ScanChar(held, '"')
    else if s[n] == '"' then ScanChar(ScanChar(held, '\\'), '"')
    else ScanChar(held, s[n])
  }

  lemma UnitScan(st: Scan, s: string)
    requires s != ""
    ensures ScanAll(st, QuoteBody(s) + "\"")
         == if SlashRun(s) == |s| then AfterUnit(st, s)
            else ScanAll(AfterUnit(st, s), QuoteBody(s[SlashRun(s) + 1..]) + "\"")
  {
    hide ScanChar;
    var n := SlashRun(s);
    var rest := s[n..];
    var held := Held(st, QuotedRun(s));
    QuoteBodyRun(s);
    ScanSlashes(st, QuotedRun(s), QuoteBody(rest) + "\"");
    if rest == "" {
      assert QuoteBody(rest) + "\"" == ['"'] + "";
      ScanCons(held, '"', "");
    } else {
      QuoteBodyHead(rest);
      var tail := QuoteBody(rest[1..]) + "\"";
      assert rest[1..] == s[n + 1..];
      if rest[0] == '"' {
      } else {
        ScanCons(held, rest[0], tail);
      }
    }
  }

  lemma SlashWeight(st: Scan)
    ensures var r := ScanChar(st, '\\');
            Sane(r) && r.slashes == st.slashes + 1 && Weight(r) == Weight(st) + 1
  {}

  lemma UnitWeight(st: Scan, s: string)
    requires s != "" && Sane(st) && st.slashes == 0
    ensures var r := AfterUnit(st, s);
            var n := SlashRun(s);
            && Sane(r) && r.slashes == 0
            && Weight(r) == Weight(st) + n + if n < |s| && s[n] == '"' then 1 else 0
  {
    hide ScanChar, Weight, Sane;
    var n := SlashRun(s);
    var held := Held(st, QuotedRun(s));
    HeldWeight(st, QuotedRun(s));
    assert held.slashes == QuotedRun(s);
    if n == |s| {
      QuoteWeight(held);
      CharWeight(held, '"');
    } else if s[n] == '"' {
      SlashWeight(held);
      QuoteWeight(ScanChar(held, '\\'));
      CharWeight(ScanChar(held, '\\'), '"');
    } else {
      CharWeight(held, s[n]);
      PlainCharWeight(held, s[n]);
    }
  }

  lemma {:induction false} RunCount(s: string)
    ensures Count(s, ESCAPES)
         == SlashRun(s) + if SlashRun(s) == |s| then 0 else Count([s[SlashRun(s)]] + s[SlashRun(s) + 1..], ESCAPES)
  {
    var n := SlashRun(s);
    if s != "" && s[0] == '\\' {
      RunCount(s[1..]);
      assert n < |s| ==> s[1..][n - 1] == s[n] && s[1..][n..] == s[n + 1..];
    } else if s != "" {
      assert [s[0]] + s[1..] == s;
    }
  }

  lemma EmptyBodyWeight(st: Scan)
    requires Sane(st) && st.slashes == 0
    ensures var r := ScanAll(st, QuoteBody("") + "\"");
            Sane(r) && r.slashes == 0 && Weight(r) == Weight(st) + Count("", ESCAPES)
  {
    assert QuoteBody("") + "\"" == ['"'] + "";
    ScanCons(st, '"', "");
    QuoteWeight(st);
  }

  /** Scanning a quoted argument restores its weight, whether the scan was inside or outside quotes. */
  lemma {:induction false} QuoteBodyWeight(st: Scan, s: string)
    requires Sane(st) && st.slashes == 0
    ensures var r := ScanAll(st, QuoteBody(s) + "\"");
            Sane(r) && r.slashes == 0 && Weight(r) == Weight(st) + Count(s, ESCAPES)
    decreases |s|
  {
    hide ScanAll, QuoteBody, Count, Weight, Sane, AfterUnit, SlashRun;
    if s == "" {
      EmptyBodyWeight(st);
    } else {
      var n := SlashRun(s);
      UnitScan(st, s);
      UnitWeight(st, s);
      RunCount(s);
      if n < |s| {
        QuoteBodyWeight(AfterUnit(st, s), s[n + 1..]);
        CountChar(s[n + 1..], s[n], ESCAPES);
      }
    }
  }

  lemma {:induction false} QuotedWeight(st: Scan, arg: string)
    requires Sane(st) && st.slashes == 0
    ensures var r := ScanAll(st, Quoted(arg));
            Sane(r) && r.slashes == 0 && Weight(r) == Weight(st) + Count(arg, ESCAPES)
  {
    if NeedsQuoting(arg) {
      assert Quoted(arg) == ['"'] + (QuoteBody(arg) + "\"");
      ScanCons(st, '"', QuoteBody(arg) + "\"");
      QuoteWeight(st);
      QuoteBodyWeight(ScanChar(st, '"'), arg);
    } else {
      PlainWeight(st, arg);
    }
  }

  /** Text without backslashes and quotes leaves the weight alone. */
  lemma {:induction false} PlainWeight(st: Scan, s: string)
    requires Sane(st) && st.slashes == 0 && forall c | c in s :: c != '\\' && c != '"'
    ensures var r := ScanAll(st, s);
            Sane(r) && r.slashes == 0 && Weight(r) == Weight(st) + Count(s, ESCAPES) && Weight(r) == Weight(st)
    decreases |s|
  {
    hide ScanChar, Weight, Sane;
    if s == "" {
    } else {
      assert s[0] in s && forall c | c in s[1..] :: c in s;
      CharWeight(st, s[0]);
      PlainCharWeight(st, s[0]);
      PlainWeight(ScanChar(st, s[0]), s[1..]);
    }
  }
}
