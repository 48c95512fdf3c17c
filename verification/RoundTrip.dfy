/**
 * GetCommandLineString followed by FromString: exactly which command lines
 * come back as they were.
 */
module RoundTrip {
  import opened Text
  import opened Tokenizer
  import opened Quoting
  import opened CommandLineModel
  import opened CommandLinePrint
  import opened NormalForm
  import opened TokenWeights
  import opened RoundTripCounts

  // ---------------------------------------------------------------------
  // The trimming of the whole line

  predicate AllWhitespace(s: string) { forall i :: 0 <= i < |s| ==> IsWhitespace(s[i]) }

  lemma {:induction false} TailWeight(st: Scan, w: string)
    requires Sane(st) && AllWhitespace(w)
    ensures Sane(ScanAll(st, w)) && Weight(ScanAll(st, w)) == Weight(st)
    decreases |w|
  {
    hide ScanChar, Weight, Sane;
    if w == "" {
    } else {
      CharWeight(st, w[0]);
      PlainCharWeight(st, w[0]);
      TailWeight(ScanChar(st, w[0]), w[1..]);
    }
  }

  lemma {:induction false} TrimLeftSnoc(s: string, c: char)
    requires IsWhitespace(c)
    ensures TrimLeft(s + [c]) == if TrimLeft(s) == "" then "" else TrimLeft(s) + [c]
  {
    if s == "" {
      assert [c][1..] == "";
    } else {
      assert (s + [c])[1..] == s[1..] + [c];
      TrimLeftSnoc(s[1..], c);
    }
  }

  lemma TrimSnoc(s: string, c: char)
    requires IsWhitespace(c)
    ensures Trim(s + [c]) == Trim(s)
  {
    hide IsWhitespace;
    TrimLeftSnoc(s, c);
    var l := TrimLeft(s);
    assert (l + [c])[..|l|] == l;
  }

  function TrimAll(ss: seq<string>): (r: seq<string>)
    ensures |r| == |ss|
  {
    if ss == [] then [] else [Trim(ss[0])] + TrimAll(ss[1..])
  }

  lemma {:induction false} TrimAllSnoc(ss: seq<string>, s: string)
    ensures TrimAll(ss + [s]) == TrimAll(ss) + [Trim(s)]
  {
    hide Trim;
    if ss == [] {
      assert ([] + [s])[1..] == [];
    } else {
      assert (ss + [s])[1..] == ss[1..] + [s];
      TrimAllSnoc(ss[1..], s);
    }
  }

  lemma TailChar(st: Scan, c: char)
    requires Outside(st) && IsWhitespace(c)
    ensures var a, b := Close(st).done, Close(ScanChar(st, c)).done;
            && Outside(ScanChar(st, c))
            && |a| <= |b| && (|a| == |b| ==> TrimAll(a) == TrimAll(b))
  {
    hide IsWhitespace, Trim;
    NotSpecial(c);
    if !IsBlank(c) && st.open {
      var token := st.cur + Slashes(st.slashes);
      assert token + [c] + Slashes(0) == token + [c];
      TrimSnoc(token, c);
      TrimAllSnoc(st.done, token);
      TrimAllSnoc(st.done, token + [c]);
    }
  }

  lemma NotSpecial(c: char)
    requires IsWhitespace(c)
    ensures c != '\\' && c != '"'
  {}

  /** Trailing whitespace adds a token or is trimmed off the last one later. */
  lemma {:induction false} TailTokens(st: Scan, w: string)
    requires Outside(st) && AllWhitespace(w)
    ensures var a, b := Close(st).done, Close(ScanAll(st, w)).done;
            |a| <= |b| && (|a| == |b| ==> TrimAll(a) == TrimAll(b))
    decreases |w|
  {
    hide ScanChar, Outside, TrimAll, Close, IsWhitespace;
    if w == "" {
    } else {
      TailChar(st, w[0]);
      TailTokens(ScanChar(st, w[0]), w[1..]);
    }
  }

  lemma {:induction false} TrimAllParses(a: seq<string>, b: seq<string>, parse: bool)
    requires TrimAll(a) == TrimAll(b)
    ensures SwitchTokens(a, parse) == SwitchTokens(b, parse)
    ensures OtherTokens(a, parse) == OtherTokens(b, parse)
  {
    hide Trim, IsSwitch;
    assert |a| == |b|;
    if a == [] {
    } else {
      assert TrimAll(a)[0] == TrimAll(b)[0] && TrimAll(a)[1..] == TrimAll(b)[1..];
      TrimAllParses(a[1..], b[1..], parse && Trim(a[0]) != SWITCH_TERMINATOR);
    }
  }

  // ---------------------------------------------------------------------
  // The program

  /** What the tokeniser's rules for the program can express. */
  predicate GoodProgram(p: string) {
    p != "" && '"' !in p && p[|p| - 1] != '\\' && ('\t' in p ==> NeedsQuoting(p))
  }

  lemma QuotelessRun(p: string)
    requires p != "" && p[0] == '\\' && '"' !in p
    ensures var n := SlashRun(p);
            && n > 0
            && QuoteBody(p) == if n == |p| then Slashes(2 * n) else Slashes(n) + QuoteBody(p[n..])
  {}

  lemma QuotelessChar(p: string)
    requires p != "" && p[0] != '\\' && '"' !in p
    ensures QuoteBody(p) == [p[0]] + QuoteBody(p[1..])
  {}

  lemma QuotelessSuffix(p: string, n: nat)
    requires '"' !in p && n <= |p|
    ensures '"' !in p[n..]
  {}

  /** Without quotes and trailing backslash, a quoted body is the text itself. */
  lemma {:induction false} QuotelessBody(p: string)
    requires '"' !in p && (p != "" ==> p[|p| - 1] != '\\')
    ensures QuoteBody(p) == p
  {
    hide QuoteBody, SlashRun, Slashes;
    if p == "" {
      QuoteBodyEmpty();
    } else if p[0] == '\\' {
      var n := SlashRun(p);
      QuotelessRun(p);
      QuotelessSuffix(p, n);
      QuotelessBody(p[n..]);
      assert p[..n] == Slashes(n);
      assert p == p[..n] + p[n..];
    } else {
      QuotelessChar(p);
      QuotelessSuffix(p, 1);
      QuotelessBody(p[1..]);
    }
  }

  /** A trailing backslash is doubled. */
  lemma {:induction false} TrailingSlashBody(p: string)
    requires '"' !in p && p != "" && p[|p| - 1] == '\\'
    ensures var b := QuoteBody(p);
            |b| > |p| && '"' !in b && b[0] == p[0] && b[|b| - 1] == '\\'
  {
    hide QuoteBody, SlashRun, Slashes;
    if p[0] == '\\' {
      var n := SlashRun(p);
      QuotelessRun(p);
      if n < |p| {
        QuotelessSuffix(p, n);
        TrailingSlashBody(p[n..]);
      }
    } else {
      QuotelessChar(p);
      QuotelessSuffix(p, 1);
      TrailingSlashBody(p[1..]);
    }
  }

  lemma FindBlankIs(s: string, n: nat)
    requires n <= |s| && (forall i :: 0 <= i < n ==> !IsBlank(s[i])) && (n < |s| ==> IsBlank(s[n]))
    ensures FindBlank(s) == n
  {}

  lemma FindQuoteIs(s: string, n: nat)
    requires n <= |s| && (forall i :: 0 <= i < n ==> s[i] != '"') && (n < |s| ==> s[n] == '"')
    ensures FindQuote(s) == n
  {}

  lemma TrimKeeps(s: string)
    ensures |Trim(s)| <= |s| && forall c | c in Trim(s) :: c in s
  {
    TrimLeftIsSuffix(s);
  }

  lemma PlainProgram(p: string, rest: string)
    requires p != "" && Trimmed(p) && (rest == "" || rest[0] == ' ') && !NeedsQuoting(p)
    ensures Program(ArgvW(p + rest)) == p <==> GoodProgram(p)
    ensures GoodProgram(p) ==> ArgvW(p + rest) == [p] + Tokens(rest)
  {
    hide Tokens, Trim, Trimmed, IsWhitespace;
    var s := p + rest;
    assert p[0] in p && p[|p| - 1] in p && s[0] == p[0];
    TrimFixesTrimmed(p);
    if '\t' in p {
      var i :| 0 <= i < |p| && p[i] == '\t';
      assert s[i] == '\t' && IsBlank(s[i]);
      assert FindBlank(s) <= i;
      TrimKeeps(s[..FindBlank(s)]);
    } else {
      assert forall j :: 0 <= j < |p| ==> p[j] in p && s[j] == p[j];
      FindBlankIs(s, |p|);
      assert s[..|p|] == p && s[|p|..] == rest;
    }
  }

  /** The program token ends at the first quote behind the opening one. */
  lemma ProgramInQuotes(p: string, rest: string)
    requires NeedsQuoting(p) && '"' !in QuoteBody(p)
    ensures ArgvW(Quoted(p) + rest) == [QuoteBody(p)] + Tokens(rest)
  {
    hide Tokens, QuoteBody, NeedsQuoting, FindBlank, FindQuote;
    var body := QuoteBody(p);
    var s := Quoted(p) + rest;
    assert s == ['"'] + (body + "\"" + rest);
    assert s[1..] == body + "\"" + rest;
    FindQuoteAfter(body, rest);
    assert s[1..|body| + 1] == body && s[|body| + 2..] == rest;
  }

  lemma ProgramWithQuote(p: string, rest: string)
    requires NeedsQuoting(p) && '"' in p
    ensures Program(ArgvW(Quoted(p) + rest)) != p
  {
    hide Tokens, QuoteBody, NeedsQuoting, FindBlank, FindQuote, Trim;
    var s := Quoted(p) + rest;
    var n := FindQuote(s[1..]);
    var token := s[1..][..n];
    assert s[0] == '"' && s[1..n + 1] == token;
    assert ArgvW(s)[0] == token;
    assert '"' !in token;
    TrimKeeps(token);
  }

  lemma QuotedProgram(p: string, rest: string)
    requires Trimmed(p) && NeedsQuoting(p)
    ensures Program(ArgvW(Quoted(p) + rest)) == p <==> GoodProgram(p)
    ensures GoodProgram(p) ==> ArgvW(Quoted(p) + rest) == [p] + Tokens(rest)
  {
    hide Tokens, Trim, QuoteBody, Quoted, NeedsQuoting, IsWhitespace, ArgvW;
    NeedsQuotingNonempty(p);
    if '"' in p {
      ProgramWithQuote(p, rest);
    } else {
      SlashIsInk();
      if p[|p| - 1] == '\\' {
        TrailingSlashBody(p);
      } else {
        QuotelessBody(p);
        assert forall j :: 0 <= j < |p| ==> p[j] in p;
      }
      ProgramInQuotes(p, rest);
      TrimFixesTrimmed(QuoteBody(p));
    }
  }

  lemma FindQuoteAfter(body: string, rest: string)
    requires '"' !in body
    ensures FindQuote(body + "\"" + rest) == |body|
  {
    assert forall j :: 0 <= j < |body| ==> body[j] in body;
    FindQuoteIs(body + "\"" + rest, |body|);
  }

  lemma NeedsQuotingNonempty(p: string)
    requires NeedsQuoting(p)
    ensures p != ""
  {}

  lemma SlashIsInk()
    ensures !IsWhitespace('\\') && !IsWhitespace('"')
  {}

  lemma ProgramPart(p: string, rest: string)
    requires p != "" && Trimmed(p) && (rest == "" || rest[0] == ' ')
    ensures Program(ArgvW(Quoted(p) + rest)) == p <==> GoodProgram(p)
    ensures GoodProgram(p) ==> ArgvW(Quoted(p) + rest) == [p] + Tokens(rest)
  {
    if NeedsQuoting(p) {
      QuotedProgram(p, rest);
    } else {
      PlainProgram(p, rest);
    }
  }

  // ---------------------------------------------------------------------
  // A line without program never reads back as one

  /** Starts with text that the program token can not lose. */
  predicate Inked(s: string) {
    s != "" && !IsWhitespace(s[0]) && (s[0] == '"' ==> |s| > 1 && s[1] != '"' && !IsWhitespace(s[1]))
  }

  lemma SwitchInk(e: string, rest: string)
    requires IsSwitch(e) && !IsWhitespace(e[0])
    ensures Shown(e, true) != "" && Inked(Shown(e, true) + rest)
  {}

  lemma QuotedInk(e: string, rest: string)
    requires e != "" && !IsWhitespace(e[0])
    ensures Quoted(e) != "" && Inked(Quoted(e) + rest)
  {
    hide IsWhitespace, QuoteBody;
    SlashIsInk();
    if NeedsQuoting(e) {
      BodyStarts(e);
      assert Quoted(e) + rest == ['"'] + (QuoteBody(e) + "\"" + rest);
    } else {
      assert e[0] in e;
    }
  }

  lemma BodyStarts(e: string)
    requires e != ""
    ensures QuoteBody(e) != "" && QuoteBody(e)[0] == if e[0] == '"' then '\\' else e[0]
  {}

  lemma ShownInk(e: string, parse: bool, rest: string)
    requires e != "" && !IsWhitespace(e[0])
    ensures Inked(Shown(e, parse) + rest)
  {
    hide IsWhitespace, Quoted, Inked;
    if ShownAsSwitch(e, parse) {
      SwitchInk(e, rest);
    } else {
      QuotedInk(e, rest);
    }
  }

  lemma ShownEmpty(e: string, parse: bool)
    ensures Shown("", parse) == ""
  {}

  lemma {:induction false} LeadingInk(entries: seq<string>, parse: bool)
    requires forall e | e in entries :: e != "" ==> !IsWhitespace(e[0])
    ensures var l := TrimLeft(Join(ShownAll(entries, parse))); l == "" || Inked(l)
  {
    hide IsWhitespace, Shown, Inked;
    if entries == [] {
    } else {
      var e, on := entries[0], parse && entries[0] != SWITCH_TERMINATOR;
      var rest := Join(ShownAll(entries[1..], on));
      assert e in entries && forall x | x in entries[1..] :: x in entries;
      assert ShownAll(entries, parse)[1..] == ShownAll(entries[1..], on);
      var tail := if |entries| == 1 then "" else [' '] + rest;
      assert Join(ShownAll(entries, parse)) == Shown(e, on) + tail;
      if e == "" {
        ShownEmpty(e, on);
        assert Shown(e, on) + tail == tail;
        LeadingInk(entries[1..], on);
        TrimLeftSpace(rest);
      } else {
        ShownInk(e, on, tail);
        InkedTrim(Shown(e, on) + tail);
      }
    }
  }

  lemma TrimLeftSpace(s: string)
    ensures TrimLeft([' '] + s) == TrimLeft(s) && TrimLeft("") == ""
  {}

  lemma InkedTrim(s: string)
    requires Inked(s)
    ensures TrimLeft(s) == s
  {}

  lemma InkProgram(l: string)
    requires Inked(l)
    ensures TrimRight(l) != "" && Program(ArgvW(TrimRight(l))) != ""
  {
    hide Tokens, Trim;
    var s := TrimRight(l);
    assert s != "" && s[0] == l[0];
    if s[0] == '"' {
      assert |s| > 1 && s[1] == l[1];
      var n := FindQuote(s[1..]);
      InkTrim(s[1..n + 1]);
    } else {
      InkTrim(s[..FindBlank(s)]);
    }
  }

  lemma InkTrim(s: string)
    requires s != "" && !IsWhitespace(s[0])
    ensures Trim(s) != ""
  {}

  // ---------------------------------------------------------------------
  // The parameters

  /** A switch token that the printed line can express. */
  predicate PlainSwitch(t: string) {
    && WellNamed(t)
    && BlankFree(SwitchName(t)) && '"' !in SwitchName(t)
    && (SwitchValue(t) == "" || Printable(SwitchValue(t)))
  }

  predicate PlainParams(params: seq<string>) {
    && (forall t | t in SwitchTokens(params, true) :: PlainSwitch(t))
    && (forall t | t in OtherTokens(params, true) :: Printable(t))
  }

  /** The same for the stored form of a switch. */
  predicate PlainEntry(e: string) {
    && Stable(e)
    && BlankFree(SwitchName(e)) && '"' !in SwitchName(e)
    && (SwitchValue(e) == "" || Printable(SwitchValue(e)))
  }

  lemma PlainNormalised(t: string)
    requires IsSwitch(t) && Trimmed(t)
    ensures PlainSwitch(t) <==> PlainEntry(Normalised(t))
  {
    hide IsWhitespace, Printable, PrefixLength, Trimmed, WellNamed;
    var e := Normalised(t);
    NormalisedParts(t);
    StableEntry(t);
    EntryParts(SwitchName(t), SwitchValue(t));
    assert SwitchName(e) == Lower(SwitchName(t)) by {
      NormalisedName(t);
    }
    LowerBlanks(SwitchName(t));
  }

  lemma NormalisedName(t: string)
    requires IsSwitch(t) && Trimmed(t)
    ensures SwitchName(Normalised(t)) == Lower(SwitchName(t)) && SwitchValue(Normalised(t)) == SwitchValue(t)
  {
    PrefixBeforeEquals(t);
    LowerPrefix(SwitchName(t));
    EntryParts(SwitchName(t), SwitchValue(t));
  }

  lemma LowerBlanks(s: string)
    ensures BlankFree(Lower(s)) <==> BlankFree(s)
    ensures '"' in Lower(s) <==> '"' in s
  {}

  predicate PlainLine(es: seq<string>, os: seq<string>) {
    (forall e | e in es :: PlainEntry(e)) && (forall o | o in os :: Printable(o))
  }

  lemma PlainParamsEntries(params: seq<string>)
    ensures PlainParams(params) <==> PlainLine(SwitchEntries(params, true), OtherTokens(params, true))
  {
    hide PlainSwitch, PlainEntry, Printable, SwitchTokens, OtherTokens, Normalised, IsSwitch, Trimmed;
    var ts, es := SwitchTokens(params, true), SwitchEntries(params, true);
    SwitchTokensAre(params, true);
    forall i | 0 <= i < |ts|
      ensures ts[i] in ts && es[i] in es && (PlainSwitch(ts[i]) <==> PlainEntry(es[i]))
    {
      PlainNormalised(ts[i]);
    }
    if forall t | t in ts :: PlainSwitch(t) {
      forall e | e in es ensures PlainEntry(e) {
        var i :| 0 <= i < |es| && es[i] == e;
        assert PlainSwitch(ts[i]);
      }
    }
    if forall e | e in es :: PlainEntry(e) {
      forall t | t in ts ensures PlainSwitch(t) {
        var i :| 0 <= i < |ts| && ts[i] == t;
        assert PlainEntry(es[i]);
      }
    }
  }

  // How the entries of a line in normal form are printed

  lemma {:induction false} OthersShown(params: seq<string>, parse: bool)
    ensures QuotelessNames(OtherTokens(params, parse), parse)
    ensures AllSettled(OtherTokens(params, parse), parse)
    ensures AllBlanksKept(OtherTokens(params, parse), parse)
       <==> forall o | o in OtherTokens(params, parse) :: NeedsQuoting(o) || BlankFree(o)
  {
    hide IsSwitch, Trim, NeedsQuoting, BlankFree;
    if params == [] {
    } else {
      var arg := Trim(params[0]);
      var on := parse && arg != SWITCH_TERMINATOR;
      var os := OtherTokens(params[1..], on);
      OthersShown(params[1..], on);
      if on && IsSwitch(arg) {
        assert OtherTokens(params, parse) == os;
      } else {
        assert OtherTokens(params, parse) == [arg] + os;
        assert ([arg] + os)[1..] == os;
        assert forall o :: o in [arg] + os <==> o == arg || o in os;
      }
    }
  }

  lemma {:induction false} OffShown(entries: seq<string>)
    ensures AllSettled(entries, false) && QuotelessNames(entries, false)
  {
    if entries == [] {
    } else {
      OffShown(entries[1..]);
    }
  }

  lemma {:induction false} LineSettled(es: seq<string>, os: seq<string>, parse: bool)
    requires forall e | e in es :: Normalised(e) == e
    requires AllSettled(os, true)
    ensures AllSettled(es + os, parse)
  {
    hide Settled;
    if es == [] {
      assert es + os == os;
      OffShown(os);
    } else {
      assert (es + os)[1..] == es[1..] + os;
      assert es[0] in es && Settled(es[0], parse && es[0] != SWITCH_TERMINATOR) by { SettledNormalised(es[0]); }
      LineSettled(es[1..], os, parse && es[0] != SWITCH_TERMINATOR);
    }
  }

  lemma SettledNormalised(e: string)
    requires Normalised(e) == e
    ensures Settled(e, true) && Settled(e, false)
  {}

  /** With stable switches in front, the line is printed switch by switch and argument by argument. */
  lemma {:induction false} StableShown(es: seq<string>, os: seq<string>)
    requires forall e | e in es :: Stable(e)
    ensures QuotelessNames(es + os, true) <==> (forall e | e in es :: '"' !in SwitchName(e)) && QuotelessNames(os, true)
    ensures AllBlanksKept(es + os, true) <==> (forall e | e in es :: BlanksKept(e, true)) && AllBlanksKept(os, true)
  {
    hide SwitchName, BlanksKept, Trimmed, Normalised, IsSwitch;
    if es == [] {
      assert es + os == os;
    } else {
      assert (es + os)[1..] == es[1..] + os && (es + os)[0] == es[0];
      assert es[0] in es && Stable(es[0]);
      TerminatorIsNoSwitch(es[0]);
      StableShown(es[1..], os);
      assert forall e :: e in es <==> e == es[0] || e in es[1..];
    }
  }

  lemma EntryKept(e: string)
    requires Stable(e)
    ensures PlainEntry(e) <==> '"' !in SwitchName(e) && BlanksKept(e, true)
  {}

  lemma PrintableKept(s: string)
    ensures s == "" || Printable(s) <==> NeedsQuoting(s) || BlankFree(s)
  {}

  /** What GetCommandLineString appends to the program. */
  function Suffix(entries: seq<string>): string {
    var params := Join(ShownAll(entries, true));
    if params == "" then "" else " " + params
  }

  lemma ScanSuffix(entries: seq<string>)
    ensures ScanAll(Between([]), Suffix(entries)) == ScanAll(Between([]), Join(ShownAll(entries, true)))
  {}

  /** The suffix with some of its trailing whitespace trimmed off. */
  predicate TrimmedSuffix(rest: string, entries: seq<string>) {
    rest <= Suffix(entries) && AllWhitespace(Suffix(entries)[|rest|..])
  }

  lemma TailScan(rest: string, entries: seq<string>)
    requires TrimmedSuffix(rest, entries)
    ensures ScanAll(Between([]), Join(ShownAll(entries, true)))
         == ScanAll(ScanAll(Between([]), rest), Suffix(entries)[|rest|..])
    ensures Sane(ScanAll(Between([]), rest))
  {
    hide ScanAll, Suffix, Join, ShownAll;
    var x := Suffix(entries);
    assert x == rest + x[|rest|..];
    ScanSuffix(entries);
    ScanConcat(Between([]), rest, x[|rest|..]);
    ScanSane(Between([]), rest);
  }

  /** Keeping all escapes means that no printed switch has a quote in its name. */
  lemma EscapesForceQuoteless(rest: string, entries: seq<string>)
    requires TrimmedSuffix(rest, entries) && Total(Tokens(rest), ESCAPES) == Total(entries, ESCAPES)
    ensures QuotelessNames(entries, true)
  {
    hide ScanAll, Suffix, Join, ShownAll, Weight, Total, QuotelessNames, AllWhitespace;
    var st := ScanAll(Between([]), rest);
    TailScan(rest, entries);
    TailWeight(st, Suffix(entries)[|rest|..]);
    CloseWeight(st);
    StartWeight();
    ParamsWeight(Between([]), entries, true);
  }

  lemma StartWeight()
    ensures Sane(Between([])) && Weight(Between([])) == 0
  {}

  lemma {:induction false} TailQuoted(st: Scan, w: string)
    requires AllWhitespace(w)
    ensures ScanAll(st, w).quoted == st.quoted
    decreases |w|
  {
    hide IsWhitespace;
    if w == "" {
    } else {
      NotSpecial(w[0]);
      TailQuoted(ScanChar(st, w[0]), w[1..]);
    }
  }

  /** With quoteless names, trimming the line can only drop tokens or trim the last one. */
  lemma QuotelessTail(rest: string, entries: seq<string>)
    requires TrimmedSuffix(rest, entries) && QuotelessNames(entries, true)
    ensures var a, b := Tokens(rest), TokensOfParts(ShownAll(entries, true));
            && Total(a, BLANKS) == Total(b, BLANKS)
            && |a| <= |b| && (|a| == |b| ==> TrimAll(a) == TrimAll(b))
  {
    hide ScanAll, Suffix, Join, ShownAll, Total, QuotelessNames, TrimAll, Blanks, Balanced, Close,
         TokensOfParts, AllWhitespace;
    var st := ScanAll(Between([]), rest);
    var w := Suffix(entries)[|rest|..];
    var parts := ShownAll(entries, true);
    ParamsBlanks(entries, true);
    ScanJoin([], parts);
    assert [] + TokensOfParts(parts) == TokensOfParts(parts);
    TailScan(rest, entries);
    TailQuoted(st, w);
    NoQuoteInTail(w);
    RawBlanks(st, w);
    CloseBlanks(st);
    CloseBlanks(ScanAll(st, w));
    TailTokens(st, w);
  }

  lemma NoQuoteInTail(w: string)
    requires AllWhitespace(w)
    ensures '"' !in w
  {}

  lemma BlanksForceKept(rest: string, entries: seq<string>)
    requires TrimmedSuffix(rest, entries) && QuotelessNames(entries, true)
    requires Total(Tokens(rest), BLANKS) >= Total(entries, BLANKS)
    ensures AllBlanksKept(entries, true)
  {
    hide Total, Tokens, TokensOfParts, ShownAll, QuotelessNames, AllBlanksKept, TrimmedSuffix, TrimAll, Balanced;
    QuotelessTail(rest, entries);
    ParamsBlanks(entries, true);
  }

  lemma CountForcesTokens(rest: string, entries: seq<string>)
    requires TrimmedSuffix(rest, entries)
    requires QuotelessNames(entries, true) && AllBlanksKept(entries, true) && AllSettled(entries, true)
    requires |Tokens(rest)| >= |entries|
    ensures TrimAll(Tokens(rest)) == TrimAll(entries)
    ensures forall e | e in entries :: e != ""
  {
    hide Total, Tokens, TokensOfParts, ShownAll, QuotelessNames, AllBlanksKept, AllSettled, TrimmedSuffix,
         TrimAll, NonEmpty;
    QuotelessTail(rest, entries);
    ParamsTokens(entries, true);
    NonEmptyAll(entries);
  }

  lemma LineFacts(params: seq<string>)
    ensures var es, os := SwitchEntries(params, true), OtherTokens(params, true);
            && (forall e | e in es :: Normalised(e) == e)
            && AllSettled(es + os, true) && SwitchTokens(os, true) == [] && OtherTokens(os, true) == os
  {
    hide SwitchEntries, OtherTokens, SwitchTokens, Normalised, AllSettled;
    EntriesAre(params, true);
    OthersShown(params, true);
    OthersStay(params, true);
    LineSettled(SwitchEntries(params, true), OtherTokens(params, true), true);
  }

  /** If the printed parameters parse back into the same switches and arguments, all of them are plain. */
  lemma ReparsedIsPlain(params: seq<string>, rest: string)
    requires TrimmedSuffix(rest, SwitchEntries(params, true) + OtherTokens(params, true))
    requires SwitchEntries(Tokens(rest), true) == SwitchEntries(params, true)
    requires OtherTokens(Tokens(rest), true) == OtherTokens(params, true)
    ensures PlainParams(params)
  {
    hide SwitchEntries, OtherTokens, SwitchTokens, Total, Tokens, TrimmedSuffix, TrimAll, QuotelessNames, AllBlanksKept,
         AllSettled, Normalised, PlainParams, Stable, PlainLine;
    var es, os := SwitchEntries(params, true), OtherTokens(params, true);
    var ts := Tokens(rest);
    LineFacts(params);
    PartitionTotals(ts, true);
    TotalConcat(es, os, ESCAPES);
    TotalConcat(es, os, BLANKS);
    EscapesForceQuoteless(rest, es + os);
    BlanksForceKept(rest, es + os);
    CountForcesTokens(rest, es + os);
    TrimAllParses(ts, es + os, true);
    SameEntries(ts, es + os);
    OnlyStableStay(es, os);
    KeptIsPlain(params);
    PlainParamsEntries(params);
  }

  lemma SameEntries(a: seq<string>, b: seq<string>)
    requires SwitchTokens(a, true) == SwitchTokens(b, true)
    ensures SwitchEntries(a, true) == SwitchEntries(b, true)
  {}

  lemma KeptIsPlain(params: seq<string>)
    requires var es, os := SwitchEntries(params, true), OtherTokens(params, true);
             && (forall e | e in es :: Stable(e)) && (forall e | e in es + os :: e != "")
             && QuotelessNames(es + os, true) && AllBlanksKept(es + os, true)
    ensures PlainLine(SwitchEntries(params, true), OtherTokens(params, true))
  {
    hide SwitchEntries, OtherTokens, QuotelessNames, AllBlanksKept, Stable, PlainEntry, SwitchName, BlanksKept,
         NeedsQuoting, BlankFree, Printable;
    var es, os := SwitchEntries(params, true), OtherTokens(params, true);
    StableShown(es, os);
    OthersShown(params, true);
    forall e | e in es ensures PlainEntry(e) {
      EntryKept(e);
    }
    forall o | o in os ensures Printable(o) {
      assert o in es + os;
      PrintableKept(o);
    }
  }

  // Plain parameters come back

  lemma PlainIsKept(params: seq<string>)
    requires PlainParams(params)
    ensures var es, os := SwitchEntries(params, true), OtherTokens(params, true);
            && (forall e | e in es :: Stable(e)) && (forall e | e in es + os :: e != "")
            && QuotelessNames(es + os, true) && AllBlanksKept(es + os, true)
  {
    hide SwitchEntries, OtherTokens, QuotelessNames, AllBlanksKept, Stable, SwitchName, BlanksKept,
         NeedsQuoting, BlankFree, Printable, PlainParams;
    var es, os := SwitchEntries(params, true), OtherTokens(params, true);
    PlainParamsEntries(params);
    forall e | e in es
      ensures Stable(e) && '"' !in SwitchName(e) && BlanksKept(e, true)
    {
      EntryKept(e);
    }
    forall o | o in os
      ensures o != "" && (NeedsQuoting(o) || BlankFree(o))
    {
      PrintableKept(o);
      PrintableNonempty(o);
    }
    forall e | e in es ensures e != "" { StableNonempty(e); }
    StableShown(es, os);
    OthersShown(params, true);
  }

  lemma PrintableNonempty(s: string)
    requires Printable(s)
    ensures s != ""
  {}

  lemma StableNonempty(e: string)
    requires Stable(e)
    ensures e != ""
  {}

  lemma PlainTokens(params: seq<string>)
    requires PlainParams(params)
    ensures var entries := SwitchEntries(params, true) + OtherTokens(params, true);
            Tokens(Suffix(entries)) == entries
  {
    hide SwitchEntries, OtherTokens, QuotelessNames, AllBlanksKept, AllSettled, PlainParams, Stable,
         Normalised, SwitchTokens,
         NonEmpty, Suffix, ShownAll, Join, TokensOfParts, Balanced, ScanAll, Total;
    var entries := SwitchEntries(params, true) + OtherTokens(params, true);
    PlainIsKept(params);
    LineFacts(params);
    ParamsTokens(entries, true);
    NonEmptyAll(entries);
    ParamsBlanks(entries, true);
    ScanJoin([], ShownAll(entries, true));
    ScanSuffix(entries);
    assert [] + entries == entries;
  }

  predicate EndsInInk(s: string) { s != "" && !IsWhitespace(s[|s| - 1]) }

  lemma QuotedEnds(s: string)
    requires EndsInInk(s)
    ensures EndsInInk(Quoted(s))
  {}

  lemma ShownEnds(e: string, parse: bool)
    requires EndsInInk(e) && Settled(e, parse)
    ensures EndsInInk(Shown(e, parse))
  {
    hide IsWhitespace, Normalised, Quoted;
    if ShownAsSwitch(e, parse) {
      if SwitchValue(e) == "" {
        NameOnly(e);
        assert e + "" == e;
      } else {
        QuotedEnds(SwitchValue(e));
      }
    } else {
      QuotedEnds(e);
    }
  }

  lemma {:induction false} ShownAllEnds(entries: seq<string>, parse: bool)
    requires entries != [] && AllSettled(entries, parse) && forall e | e in entries :: EndsInInk(e)
    ensures EndsInInk(Join(ShownAll(entries, parse)))
  {
    hide Settled, Shown, IsWhitespace;
    var on := parse && entries[0] != SWITCH_TERMINATOR;
    assert entries[0] in entries && forall e | e in entries[1..] :: e in entries;
    ShownEnds(entries[0], on);
    assert ShownAll(entries, parse)[1..] == ShownAll(entries[1..], on);
    if |entries| <= 1 {
    } else {
      ShownAllEnds(entries[1..], on);
    }
  }

  lemma {:induction false} OthersTrimmed(params: seq<string>, parse: bool)
    ensures forall o | o in OtherTokens(params, parse) :: Trimmed(o)
  {
    hide Trim, Trimmed, IsSwitch;
    if params == [] {
    } else {
      TrimIsTrimmed(params[0]);
      OthersTrimmed(params[1..], parse && Trim(params[0]) != SWITCH_TERMINATOR);
    }
  }

  lemma PlainSuffixEnds(params: seq<string>)
    requires PlainParams(params)
    ensures var x := Suffix(SwitchEntries(params, true) + OtherTokens(params, true)); x == "" || EndsInInk(x)
  {
    hide SwitchEntries, OtherTokens, SwitchTokens, AllSettled, QuotelessNames, AllBlanksKept, PlainParams,
         Normalised, ShownAll, Join, IsWhitespace, EndsInInk, Trimmed;
    var entries := SwitchEntries(params, true) + OtherTokens(params, true);
    PlainIsKept(params);
    LineFacts(params);
    OthersTrimmed(params, true);
    forall e | e in entries ensures EndsInInk(e) { TrimmedEnds(e); }
    if entries == [] {
      PrintNothing();
    } else {
      ShownAllEnds(entries, true);
      SpaceThen(Join(ShownAll(entries, true)));
    }
  }

  lemma TrimmedEnds(e: string)
    requires Trimmed(e) && e != ""
    ensures EndsInInk(e)
  {}

  lemma SpaceThen(s: string)
    requires EndsInInk(s)
    ensures EndsInInk(" " + s)
  {}

  // ---------------------------------------------------------------------
  // The whole line

  lemma LineTrim(p: string, entries: seq<string>) returns (rest: string)
    requires p != "" && Trimmed(p)
    ensures Trim(Quoted(p) + Suffix(entries)) == Quoted(p) + rest
    ensures TrimmedSuffix(rest, entries) && (rest == "" || rest[0] == ' ')
    ensures Suffix(entries) == "" || EndsInInk(Suffix(entries)) ==> rest == Suffix(entries)
  {
    hide Quoted, Suffix, IsWhitespace, TrimLeft, TrimRight;
    var q, x := Quoted(p), Suffix(entries);
    var s := q + x;
    QuotedTrimmed(p);
    SuffixStarts(entries);
    assert s[0] == q[0];
    InkTrimLeft(s);
    var t := TrimRight(s);
    assert s[|q| - 1] == q[|q| - 1];
    rest := x[..|t| - |q|];
    assert t == q + rest;
    assert forall i :: |rest| <= i < |x| ==> x[i] == s[i + |q|];
  }

  lemma SuffixStarts(entries: seq<string>)
    ensures Suffix(entries) == "" || Suffix(entries)[0] == ' '
  {}

  lemma QuotedTrimmed(p: string)
    requires p != "" && Trimmed(p)
    ensures Quoted(p) != "" && Trimmed(Quoted(p))
  {}

  lemma InkTrimLeft(s: string)
    requires s != "" && !IsWhitespace(s[0])
    ensures TrimLeft(s) == s
  {}

  /** Which command lines a string can carry. */
  predicate Expressible(argv: seq<string>) {
    if Program(argv) == "" then Params(argv) == [] else GoodProgram(Program(argv)) && PlainParams(Params(argv))
  }

  lemma PrintedLine(argv: seq<string>)
    ensures var entries := SwitchEntries(Params(argv), true) + OtherTokens(Params(argv), true);
            && Init(argv).argv == [Program(argv)] + entries
            && CommandLineString(Init(argv).argv) == Quoted(Program(argv)) + Suffix(entries)
            && |entries| == |Params(argv)|
  {
    hide SwitchEntries, OtherTokens, Init, Total, ReadBack, CommandLineString, Program, Suffix, Quoted;
    InitParts(argv);
    PartitionTotals(Params(argv), true);
    var entries := SwitchEntries(Params(argv), true) + OtherTokens(Params(argv), true);
    assert Init(argv).argv == [Program(argv)] + entries;
    PrintedParts(Program(argv), entries);
  }

  lemma PrintedParts(program: string, entries: seq<string>)
    ensures CommandLineString([program] + entries) == Quoted(program) + Suffix(entries)
  {}

  /** Two lines in normal form agree when their programs, switches and arguments do. */
  lemma SameLine(a: seq<string>, b: seq<string>)
    ensures Init(a) == Init(b)
       <==> && Program(a) == Program(b)
            && SwitchEntries(Params(a), true) == SwitchEntries(Params(b), true)
            && OtherTokens(Params(a), true) == OtherTokens(Params(b), true)
  {
    hide SwitchEntries, OtherTokens, Init, ReadBack, Program;
    InitParts(a);
    InitParts(b);
    if Init(a) == Init(b) {
      assert Init(a).argv[0] == Program(a) && Init(b).argv[0] == Program(b);
      assert Init(a).argv[Init(a).beginArgs..] == OtherTokens(Params(a), true);
      assert Init(b).argv[Init(b).beginArgs..] == OtherTokens(Params(b), true);
    }
  }

  lemma RoundTripWithProgram(argv: seq<string>)
    requires Program(argv) != ""
    ensures FromString(CommandLineString(Init(argv).argv)) == Init(argv) <==> Expressible(argv)
  {
    hide SwitchEntries, OtherTokens, SwitchTokens, Init, Quoted, Program, Suffix, Trim, Tokens, PlainParams,
         GoodProgram,
         TrimmedSuffix, ArgvW, Normalised, Stable, Trimmed, EndsInInk;
    var p, params := Program(argv), Params(argv);
    var es, os := SwitchEntries(params, true), OtherTokens(params, true);
    PrintedLine(argv);
    ProgramTrimmed(argv);
    var rest := LineTrim(p, es + os);
    QuotedTrimmed(p);
    ProgramPart(p, rest);
    var again := ArgvW(Quoted(p) + rest);
    SameLine(again, argv);
    if GoodProgram(p) {
      assert Params(again) == Tokens(rest);
      if PlainParams(params) {
        PlainSuffixEnds(params);
        PlainTokens(params);
        PlainIsKept(params);
        LineFacts(params);
        StableStay(es, os);
        SwitchlessEntries(os);
        assert es + [] == es;
      } else if SwitchEntries(Tokens(rest), true) == es && OtherTokens(Tokens(rest), true) == os {
        ReparsedIsPlain(params, rest);
      }
    }
  }

  lemma SwitchlessEntries(os: seq<string>)
    requires SwitchTokens(os, true) == []
    ensures SwitchEntries(os, true) == []
  {}

  lemma RoundTripWithoutProgram(argv: seq<string>)
    requires Program(argv) == ""
    ensures FromString(CommandLineString(Init(argv).argv)) == Init(argv) <==> Expressible(argv)
  {
    hide SwitchEntries, OtherTokens, SwitchTokens, Init, Suffix, Program, ArgvW, TrimLeft, TrimRight, Inked,
         Trimmed, Normalised, PrefixLength, IsWhitespace;
    var params := Params(argv);
    var entries := SwitchEntries(params, true) + OtherTokens(params, true);
    PrintedLine(argv);
    QuotedNothing();
    assert "" + Suffix(entries) == Suffix(entries);
    InitParts(argv);
    if params == [] {
      NoParams(argv);
    } else {
      EntriesAre(params, true);
      OthersTrimmed(params, true);
      forall e | e in entries ensures e != "" ==> !IsWhitespace(e[0]) { TrimmedStarts(e); }
      LeadingInk(entries, true);
      SuffixTrim(entries);
      var l := TrimLeft(Suffix(entries));
      if l == "" {
        TrimNothing();
      } else {
        InkProgram(l);
        SameLine(ArgvW(TrimRight(l)), argv);
      }
    }
  }

  lemma NoParams(argv: seq<string>)
    requires Program(argv) == "" && Params(argv) == []
    ensures Init(argv) == Line([""], map[], 1)
    ensures FromString("") == Line([""], map[], 1)
    ensures Suffix(SwitchEntries(Params(argv), true) + OtherTokens(Params(argv), true)) == ""
  {
    hide Init;
    InitParts(argv);
  }

  lemma TrimmedStarts(e: string)
    ensures Trimmed(e) && e != "" ==> !IsWhitespace(e[0])
  {}

  lemma TrimNothing()
    ensures TrimRight("") == ""
  {}

  lemma SuffixTrim(entries: seq<string>)
    ensures TrimLeft(Suffix(entries)) == TrimLeft(Join(ShownAll(entries, true)))
  {}

  /**
   * For every argv: the object made from it, printed and parsed again, comes
   * back with the same argv_, switches_ and begin_args_ exactly when the
   * program, every switch and every other token can be expressed in a string.
   */
  lemma CommandLineRoundTrip(argv: seq<string>)
    ensures FromString(CommandLineString(Init(argv).argv)) == Init(argv) <==> Expressible(argv)
  {
    if Program(argv) == "" {
      RoundTripWithoutProgram(argv);
    } else {
      RoundTripWithProgram(argv);
    }
  }

  /**
   * For every object, however it was made: printing and parsing gives it back
   * exactly when it is what its own argv_ initialises, and that is expressible.
   */
  lemma ObjectRoundTrip(l: Line)
    requires l.Valid()
    ensures FromString(CommandLineString(l.argv)) == l <==> Init(l.argv) == l && Expressible(l.argv)
  {
    hide FromString, CommandLineString, Init, Expressible;
    CommandLineRoundTrip(l.argv);
    if FromString(CommandLineString(l.argv)) == l {
      var argv := ParsedIsInit(CommandLineString(l.argv));
      CommandLineRoundTrip(argv);
      ExpressibleIsWellNamed(argv);
      ReinitIdempotent(argv);
    }
  }

  /** Whatever is parsed from a string is what some argv initialises. */
  lemma ParsedIsInit(s: string) returns (argv: seq<string>)
    ensures FromString(s) == Init(argv)
  {
    hide Init, ArgvW;
    var line := Trim(s);
    if line == "" {
      argv := [];
      NothingToInit();
    } else {
      argv := ArgvW(line);
    }
  }

  lemma NothingToInit()
    ensures Init([]) == Line([""], map[], 1)
  {}

  lemma ExpressibleIsWellNamed(argv: seq<string>)
    requires Expressible(argv)
    ensures forall t | t in SwitchTokens(Params(argv), true) :: WellNamed(t)
  {
    hide WellNamed, GoodProgram, Program, Trim, IsSwitch;
  }

  /** An argument with a space in front, appended to an object, comes back without it. */
  lemma AppendedSpaceIsLost()
    ensures var l := Init(["a"]).AppendArg(" x");
            Expressible(l.argv) && FromString(CommandLineString(l.argv)) != l
  {
    hide FromString, CommandLineString, Trim, SwitchTokens, OtherTokens, Init, GoodProgram, SwitchEntries, ReadBack;
    var plain, spaced := ["a"], ["a", " x"];
    SpacedTokens();
    assert Params(plain) == [] && Params(spaced) == [" x"];
    InitParts(plain);
    InitParts(spaced);
    var l := Init(plain).AppendArg(" x");
    assert l.argv == spaced;
    ObjectRoundTrip(l);
    assert Init(spaced).argv[1] == "x";
  }

  lemma SpacedTokens()
    ensures Trim("a") == "a" && Trim(" x") == "x" && GoodProgram("a")
    ensures SwitchEntries([], true) == [] && OtherTokens([], true) == []
    ensures SwitchTokens([" x"], true) == [] && SwitchEntries([" x"], true) == [] && OtherTokens([" x"], true) == ["x"]
  {
    TrimSpaced();
    hide Trim;
    assert [" x"][1..] == [];
    assert SwitchTokens([" x"], true) == [] && OtherTokens([" x"], true) == ["x"] + OtherTokens([], true);
  }

  lemma TrimSpaced()
    ensures Trim("a") == "a" && Trim(" x") == "x"
  {
    assert " x"[1..] == "x";
  }

  /** A program that ends in a backslash comes back with two of them. */
  lemma TrailingBackslashIsDoubled()
    ensures FromString(CommandLineString(Init(["C:\\"]).argv)) != Init(["C:\\"])
  {
    hide FromString, CommandLineString, Init, Trim, PlainParams;
    var p := "C:\\";
    assert Trimmed(p);
    TrimFixesTrimmed(p);
    assert Program([p]) == p;
    CommandLineRoundTrip([p]);
    assert !GoodProgram(p);
  }
}
