/**
 * What printing and re-reading a command line can lose, entry by entry.
 *
 * First backslashes and quotes: trimming and normalising keep them, and so does
 * a printed entry unless its switch name has a quote. Then, given that there
 * are no such names, blanks: an entry loses one if its name has a blank, or if
 * its value or the whole argument is not printable. Last, if nothing is lost,
 * the tokens are the entries again, but for empty arguments, of which nothing
 * is printed. Put together, a line that survives the round trip is one in
 * which every entry can be printed.
 */
module RoundTripCounts {
  import opened Text
  import opened Tokenizer
  import opened Quoting
  import opened CommandLineModel
  import opened CommandLinePrint
  import opened NormalForm
  import opened TokenWeights

  predicate ShownAsSwitch(e: string, parse: bool) { parse && IsSwitch(e) }

  // ---------------------------------------------------------------------
  // Trimming and normalising

  lemma {:induction false} WhitespaceCount(s: string)
    requires forall c | c in s :: IsWhitespace(c)
    ensures Count(s, ESCAPES) == 0
  {
    CountZero(s, ESCAPES);
  }

  lemma TrimCount(s: string)
    ensures Count(Trim(s), ESCAPES) == Count(s, ESCAPES)
    ensures Count(Trim(s), BLANKS) <= Count(s, BLANKS)
  {
    hide Count, TrimLeft, TrimRight;
    TrimLeftIsSuffix(s);
    var l := TrimLeft(s);
    var r := TrimRight(l);
    var a, b := s[..|s| - |l|], l[|r|..];
    assert s == a + l && l == r + b;
    WhitespaceAround(a, l);
    WhitespaceAround(b, r);
  }

  lemma WhitespaceAround(a: string, s: string)
    requires forall i :: 0 <= i < |a| ==> IsWhitespace(a[i])
    ensures Count(a + s, ESCAPES) == Count(s, ESCAPES) == Count(s + a, ESCAPES)
    ensures Count(a + s, BLANKS) >= Count(s, BLANKS) && Count(s + a, BLANKS) >= Count(s, BLANKS)
  {
    hide Count;
    WhitespaceCount(a);
    CountConcat(a, s, ESCAPES);
    CountConcat(s, a, ESCAPES);
    CountConcat(a, s, BLANKS);
    CountConcat(s, a, BLANKS);
  }

  lemma {:induction false} LowerCount(s: string)
    ensures Count(Lower(s), ESCAPES) == Count(s, ESCAPES)
    ensures Count(Lower(s), BLANKS) == Count(s, BLANKS)
  {
    if s == "" {
    } else {
      LowerCount(s[1..]);
      assert Lower(s)[1..] == Lower(s[1..]);
    }
  }

  lemma CountSplit(t: string, cs: set<char>)
    requires '=' !in cs
    ensures Count(t, cs) == Count(SwitchName(t), cs) + Count(SwitchValue(t), cs)
  {
    var n := FindEquals(t);
    if n < |t| {
      assert t == t[..n] + (['='] + t[n + 1..]);
      CountConcat(t[..n], ['='] + t[n + 1..], cs);
      CountChar(t[n + 1..], '=', cs);
    } else {
      assert t == t[..n];
    }
  }

  lemma NormalisedCount(t: string)
    requires IsSwitch(t) && Trimmed(t)
    ensures Count(Normalised(t), ESCAPES) == Count(t, ESCAPES)
    ensures Count(Normalised(t), BLANKS) == Count(t, BLANKS)
  {
    hide Count, Normalised, SwitchName, SwitchValue;
    CountSplit(t, ESCAPES);
    CountSplit(t, BLANKS);
    NormalisedParts(t);
    LowerCount(SwitchName(t));
    var low := Lower(SwitchName(t));
    if SwitchValue(t) == "" {
      CountEmpty();
    } else {
      CountValue(low, SwitchValue(t), ESCAPES);
      CountValue(low, SwitchValue(t), BLANKS);
    }
  }

  lemma CountEmpty()
    ensures Count("", ESCAPES) == 0 && Count("", BLANKS) == 0
    ensures forall s: string :: s + "" == s
  {}

  lemma CountValue(a: string, v: string, cs: set<char>)
    requires '=' !in cs
    ensures Count(a + ("=" + v), cs) == Count(a, cs) + Count(v, cs)
  {
    CountConcat(a, "=" + v, cs);
    CountChar(v, '=', cs);
  }

  lemma TotalCons(s: string, ss: seq<string>)
    ensures Total([s] + ss, ESCAPES) == Count(s, ESCAPES) + Total(ss, ESCAPES)
    ensures Total([s] + ss, BLANKS) == Count(s, BLANKS) + Total(ss, BLANKS)
  {}

  /** Parsing tokens keeps their escapes and adds no blank. */
  lemma {:induction false} PartitionTotals(ts: seq<string>, parse: bool)
    ensures Total(SwitchEntries(ts, parse), ESCAPES) + Total(OtherTokens(ts, parse), ESCAPES) == Total(ts, ESCAPES)
    ensures Total(SwitchEntries(ts, parse), BLANKS) + Total(OtherTokens(ts, parse), BLANKS) <= Total(ts, BLANKS)
    ensures |SwitchEntries(ts, parse)| + |OtherTokens(ts, parse)| == |ts|
  {
    hide Count, Normalised, IsSwitch, Trim, Trimmed;
    if ts == [] {
    } else {
      var arg := Trim(ts[0]);
      var on := parse && arg != SWITCH_TERMINATOR;
      TrimIsTrimmed(ts[0]);
      TrimCount(ts[0]);
      PartitionTotals(ts[1..], on);
      if on && IsSwitch(arg) {
        NormalisedCount(arg);
        assert SwitchEntries(ts, parse) == [Normalised(arg)] + SwitchEntries(ts[1..], on);
        assert OtherTokens(ts, parse) == OtherTokens(ts[1..], on);
        TotalCons(Normalised(arg), SwitchEntries(ts[1..], on));
      } else {
        assert OtherTokens(ts, parse) == [arg] + OtherTokens(ts[1..], on);
        assert SwitchEntries(ts, parse) == SwitchEntries(ts[1..], on);
        TotalCons(arg, OtherTokens(ts[1..], on));
      }
    }
  }

  // ---------------------------------------------------------------------
  // Escapes: a quote in the name of a printed switch is lost

  predicate QuotelessName(e: string, parse: bool) { ShownAsSwitch(e, parse) ==> '"' !in SwitchName(e) }

  predicate QuotelessNames(entries: seq<string>, parse: bool) {
    entries != [] ==>
      var on := parse && entries[0] != SWITCH_TERMINATOR;
      QuotelessName(entries[0], on) && QuotelessNames(entries[1..], on)
  }

  lemma ShownWeight(st: Scan, e: string, parse: bool)
    requires Sane(st) && st.slashes == 0
    ensures var r := ScanAll(st, Shown(e, parse));
            && Sane(r) && Weight(r) <= Weight(st) + Count(e, ESCAPES)
            && (!QuotelessName(e, parse) ==> Weight(r) < Weight(st) + Count(e, ESCAPES))
  {
    hide ScanAll, Weight, Sane, Count, Quoted, ScanChar;
    if ShownAsSwitch(e, parse) {
      var name, value := SwitchName(e), SwitchValue(e);
      var st1 := ScanAll(st, name);
      ScanSane(st, name);
      RawWeight(st, name);
      CountSplit(e, ESCAPES);
      if value == "" {
        CountEmpty();
      } else {
        assert name + ("=" + Quoted(value)) == name + (['='] + Quoted(value));
        ScanConcat(st, name, ['='] + Quoted(value));
        ScanCons(st1, '=', Quoted(value));
        CharWeight(st1, '=');
        PlainCharWeight(st1, '=');
        QuotedWeight(ScanChar(st1, '='), value);
      }
    } else {
      QuotedWeight(st, e);
    }
  }

  lemma {:induction false} ParamsWeight(st: Scan, entries: seq<string>, parse: bool)
    requires Sane(st) && st.slashes == 0
    ensures var r := ScanAll(st, Join(ShownAll(entries, parse)));
            && Sane(r) && Weight(r) <= Weight(st) + Total(entries, ESCAPES)
            && (!QuotelessNames(entries, parse) ==> Weight(r) < Weight(st) + Total(entries, ESCAPES))
    decreases |entries|
  {
    hide ScanAll, Weight, Sane, Count, ScanChar, Shown, QuotelessName, Join, ShownAll;
    if entries == [] {
      ScanNoParams(st, parse);
    } else {
      var on := parse && entries[0] != SWITCH_TERMINATOR;
      var st1 := ScanAll(st, Shown(entries[0], on));
      ShownWeight(st, entries[0], on);
      ParamsStep(st, entries, parse);
      if |entries| > 1 {
        CharWeight(st1, ' ');
        PlainCharWeight(st1, ' ');
        ParamsWeight(ScanChar(st1, ' '), entries[1..], on);
      } else {
        assert entries[1..] == [] && QuotelessNames([], on);
        assert entries == [entries[0]] + [];
        TotalCons(entries[0], []);
      }
    }
  }

  lemma ScanNoParams(st: Scan, parse: bool)
    ensures ScanAll(st, Join(ShownAll([], parse))) == st
  {}

  lemma ParamsStep(st: Scan, entries: seq<string>, parse: bool)
    requires entries != []
    ensures ScanAll(st, Join(ShownAll(entries, parse)))
         == (var on := parse && entries[0] != SWITCH_TERMINATOR;
             var st1 := ScanAll(st, Shown(entries[0], on));
             if |entries| == 1 then st1
             else ScanAll(ScanChar(st1, ' '), Join(ShownAll(entries[1..], on))))
  {
    hide Shown, ScanAll, ScanChar;
    var on := parse && entries[0] != SWITCH_TERMINATOR;
    var head, rest := Shown(entries[0], on), ShownAll(entries[1..], on);
    assert ShownAll(entries, parse) == [head] + rest && ([head] + rest)[1..] == rest;
    if |entries| > 1 {
      assert Join([head] + rest) == head + ([' '] + Join(rest));
      ScanConcat(st, head, [' '] + Join(rest));
      ScanCons(ScanAll(st, head), ' ', Join(rest));
    }
  }

  // ---------------------------------------------------------------------
  // Blanks: one outside quotes is lost

  function Blanks(st: Scan): nat { Total(st.done, BLANKS) + Count(st.cur, BLANKS) }

  predicate Outside(st: Scan) { Sane(st) && !st.quoted }

  lemma CloseBlanks(st: Scan)
    requires Outside(st)
    ensures Total(Close(st).done, BLANKS) == Blanks(st) == Blanks(Close(st))
    ensures Outside(Close(st))
  {
    CountFlushed(st.cur, st.slashes);
    TotalSnoc(st.done, st.cur + Slashes(st.slashes), BLANKS);
  }

  lemma CharBlanks(st: Scan, c: char)
    requires Outside(st) && c != '"'
    ensures Outside(ScanChar(st, c)) && Blanks(ScanChar(st, c)) == Blanks(st)
  {
    if IsBlank(c) {
      CloseBlanks(st);
    } else if c != '\\' {
      CountFlushed(st.cur, st.slashes);
      CountChar(st.cur + Slashes(st.slashes), c, BLANKS);
    }
  }

  lemma {:induction false} RawBlanks(st: Scan, s: string)
    requires Outside(st) && '"' !in s
    ensures Outside(ScanAll(st, s)) && Blanks(ScanAll(st, s)) == Blanks(st)
    decreases |s|
  {
    hide ScanChar, Blanks, Outside;
    if s == "" {
    } else {
      assert s[0] in s && forall c | c in s[1..] :: c in s;
      CharBlanks(st, s[0]);
      RawBlanks(ScanChar(st, s[0]), s[1..]);
    }
  }

  lemma QuotedBlanks(st: Scan, arg: string)
    requires Outside(st) && st.slashes == 0
    ensures var r := ScanAll(st, Quoted(arg));
            Outside(r) && Blanks(r) == Blanks(st) + if NeedsQuoting(arg) then Count(arg, BLANKS) else 0
  {
    if NeedsQuoting(arg) {
      ScanQuotedPrintable(st, arg);
      CountConcat(st.cur, arg, BLANKS);
    } else {
      RawBlanks(st, arg);
    }
  }

  predicate BlankFree(s: string) { forall c | c in s :: !IsBlank(c) }

  lemma BlankFreeCount(s: string)
    ensures BlankFree(s) <==> Count(s, BLANKS) == 0
  {
    CountZero(s, BLANKS);
  }

  /** All blanks of an entry are inside quotes when it is printed. */
  predicate BlanksKept(e: string, parse: bool) {
    if ShownAsSwitch(e, parse)
    then BlankFree(SwitchName(e)) && (NeedsQuoting(SwitchValue(e)) || BlankFree(SwitchValue(e)))
    else NeedsQuoting(e) || BlankFree(e)
  }

  lemma ShownBlanks(e: string, parse: bool)
    requires QuotelessName(e, parse)
    ensures Balanced(Shown(e, parse))
    ensures Total(Tokens(Shown(e, parse)), BLANKS) <= Count(e, BLANKS)
    ensures Total(Tokens(Shown(e, parse)), BLANKS) == Count(e, BLANKS) <==> BlanksKept(e, parse)
  {
    hide ScanAll, Blanks, Outside, Count, Quoted, NeedsQuoting, BlankFree, ScanChar;
    var st := Between([]);
    var r := ScanAll(st, Shown(e, parse));
    NothingOutside();
    if ShownAsSwitch(e, parse) {
      var name, value := SwitchName(e), SwitchValue(e);
      var st1 := ScanAll(st, name);
      RawBlanks(st, name);
      CountSplit(e, BLANKS);
      BlankFreeCount(name);
      BlankFreeCount(value);
      if value == "" {
        CountEmpty();
        assert r == st1;
      } else {
        assert name + ("=" + Quoted(value)) == name + (['='] + Quoted(value));
        ScanConcat(st, name, ['='] + Quoted(value));
        ScanCons(st1, '=', Quoted(value));
        CharBlanks(st1, '=');
        EqualsFlushes(st1);
        QuotedBlanks(ScanChar(st1, '='), value);
      }
    } else {
      BlankFreeCount(e);
      QuotedBlanks(st, e);
    }
    OutsideIsBalanced(Shown(e, parse));
  }

  lemma NothingOutside()
    ensures Outside(Between([])) && Blanks(Between([])) == 0
  {}

  lemma EqualsFlushes(st: Scan)
    ensures ScanChar(st, '=').slashes == 0
  {}

  lemma OutsideIsBalanced(s: string)
    requires Outside(ScanAll(Between([]), s))
    ensures Balanced(s) && Total(Tokens(s), BLANKS) == Blanks(ScanAll(Between([]), s))
  {
    CloseBlanks(ScanAll(Between([]), s));
  }

  predicate AllBlanksKept(entries: seq<string>, parse: bool) {
    entries != [] ==>
      var on := parse && entries[0] != SWITCH_TERMINATOR;
      BlanksKept(entries[0], on) && AllBlanksKept(entries[1..], on)
  }

  lemma {:induction false} ParamsBlanks(entries: seq<string>, parse: bool)
    requires QuotelessNames(entries, parse)
    ensures var parts := ShownAll(entries, parse);
            && (forall i :: 0 <= i < |parts| ==> Balanced(parts[i]))
            && Total(TokensOfParts(parts), BLANKS) <= Total(entries, BLANKS)
            && (Total(TokensOfParts(parts), BLANKS) == Total(entries, BLANKS) <==> AllBlanksKept(entries, parse))
  {
    hide Count, Shown, Balanced, Tokens, BlanksKept, QuotelessName;
    if entries == [] {
    } else {
      var on := parse && entries[0] != SWITCH_TERMINATOR;
      var parts := ShownAll(entries, parse);
      ShownBlanks(entries[0], on);
      ParamsBlanks(entries[1..], on);
      assert parts[1..] == ShownAll(entries[1..], on);
      TotalConcat(Tokens(parts[0]), TokensOfParts(parts[1..]), BLANKS);
    }
  }

  // ---------------------------------------------------------------------
  // With quotes and blanks kept, only empty entries are lost

  /** Text without quotes and blanks is one token, or the rest of one. */
  lemma {:induction false} RawText(st: Scan, s: string)
    requires !st.quoted && '"' !in s && BlankFree(s)
    ensures var r := ScanAll(st, s);
            && r.done == st.done && !r.quoted
            && r.open == (st.open || s != "")
            && r.cur + Slashes(r.slashes) == st.cur + Slashes(st.slashes) + s
    decreases |s|
  {
    if s == "" {
      assert st.cur + Slashes(st.slashes) + s == st.cur + Slashes(st.slashes);
    } else {
      assert s[0] in s && forall c | c in s[1..] :: c in s;
      var next := ScanChar(st, s[0]);
      RawText(next, s[1..]);
      SlashesSnoc(st.cur, st.slashes);
      assert next.cur + Slashes(next.slashes) == st.cur + Slashes(st.slashes) + [s[0]];
      assert [s[0]] + s[1..] == s;
      assert st.cur + Slashes(st.slashes) + [s[0]] + s[1..] == st.cur + Slashes(st.slashes) + s;
    }
  }

  lemma SlashesSnoc(s: string, n: nat)
    ensures s + Slashes(n + 1) == s + Slashes(n) + "\\"
    ensures forall t: string :: t + Slashes(0) == t
  {}

  /** A printed switch is in stored form. */
  predicate Settled(e: string, parse: bool) { ShownAsSwitch(e, parse) ==> Normalised(e) == e }

  predicate AllSettled(entries: seq<string>, parse: bool) {
    entries != [] ==>
      var on := parse && entries[0] != SWITCH_TERMINATOR;
      Settled(entries[0], on) && AllSettled(entries[1..], on)
  }

  lemma ShownTokens(e: string, parse: bool)
    requires QuotelessName(e, parse) && BlanksKept(e, parse) && Settled(e, parse)
    ensures Tokens(Shown(e, parse)) == if e == "" then [] else [e]
  {
    hide ScanChar, Quoted, NeedsQuoting, BlankFree;
    var st := Between([]);
    if ShownAsSwitch(e, parse) {
      SwitchTokensShown(e);
    } else if e == "" {
      QuotedNothing();
    } else {
      KeptIsPrintable(e);
      QuotedTokens(e);
    }
  }

  lemma QuotedNothing()
    ensures Quoted("") == "" && Tokens("") == []
  {}

  lemma KeptIsPrintable(s: string)
    requires s != "" && (NeedsQuoting(s) || BlankFree(s))
    ensures Printable(s)
  {}

  lemma SwitchTokensShown(e: string)
    requires IsSwitch(e) && QuotelessName(e, true) && BlanksKept(e, true) && Normalised(e) == e
    ensures Tokens(Shown(e, true)) == [e]
  {
    hide ScanChar, ScanAll, Quoted, NeedsQuoting, BlankFree;
    var st := Between([]);
    var name, value := SwitchName(e), SwitchValue(e);
    var st1 := ScanAll(st, name);
    RawText(st, name);
    PrefixBeforeEquals(e);
    assert st.cur + Slashes(0) + name == name;
    if value == "" {
      NameOnly(e);
    } else {
      var st2 := ScanChar(st1, '=');
      assert name + ("=" + Quoted(value)) == name + (['='] + Quoted(value));
      ScanConcat(st, name, ['='] + Quoted(value));
      ScanCons(st1, '=', Quoted(value));
      ScanEquals(st1);
      KeptIsPrintable(value);
      ScanQuotedPrintable(st2, value);
      assert e == name + "=" + value;
      SlashesSnoc("", 0);
    }
  }

  lemma ScanEquals(st: Scan)
    ensures ScanChar(st, '=') == st.(open := true, cur := st.cur + Slashes(st.slashes) + "=", slashes := 0)
  {}

  lemma NameOnly(e: string)
    requires IsSwitch(e) && Normalised(e) == e && SwitchValue(e) == ""
    ensures SwitchName(e) == e
  {}

  function NonEmpty(ss: seq<string>): seq<string> {
    if ss == [] then [] else (if ss[0] == "" then [] else [ss[0]]) + NonEmpty(ss[1..])
  }

  lemma {:induction false} NonEmptyAll(ss: seq<string>)
    ensures |NonEmpty(ss)| <= |ss|
    ensures |NonEmpty(ss)| == |ss| <==> (forall s | s in ss :: s != "")
    ensures |NonEmpty(ss)| == |ss| ==> NonEmpty(ss) == ss
  {
    if ss == [] {
    } else {
      NonEmptyAll(ss[1..]);
      assert ss == [ss[0]] + ss[1..];
      assert ss[0] in ss && forall s | s in ss[1..] :: s in ss;
    }
  }

  lemma {:induction false} ParamsTokens(entries: seq<string>, parse: bool)
    requires QuotelessNames(entries, parse) && AllBlanksKept(entries, parse) && AllSettled(entries, parse)
    ensures TokensOfParts(ShownAll(entries, parse)) == NonEmpty(entries)
  {
    hide Shown, Tokens, BlanksKept, QuotelessName, Settled;
    if entries == [] {
    } else {
      var on := parse && entries[0] != SWITCH_TERMINATOR;
      ShownTokens(entries[0], on);
      ParamsTokens(entries[1..], on);
      assert ShownAll(entries, parse)[1..] == ShownAll(entries[1..], on);
    }
  }
}
