/** QuoteForCommandLineToArgvW, and the proof that the tokeniser undoes it. */
module Quoting {
  import opened Tokenizer

  predicate NeedsQuoting(arg: string) {
    exists c | c in arg :: c == ' ' || c == '\\' || c == '"'
  }

  /** The length of the run of backslashes that s starts with. */
  function SlashRun(s: string): (n: nat)
    ensures n <= |s|
    ensures forall i :: 0 <= i < n ==> s[i] == '\\'
    ensures n < |s| ==> s[n] != '\\'
  {
    if s != "" && s[0] == '\\' then 1 + SlashRun(s[1..]) else 0
  }

  /** A run of backslashes is doubled in front of a quote or at the end. */
  function QuotedRun(s: string): nat {
    var n := SlashRun(s);
    if n == |s| || s[n] == '"' then 2 * n else n
  }

  function QuoteBody(s: string): string {
    if s == "" then ""
    else if s[0] == '\\' then Slashes(QuotedRun(s)) + QuoteBody(s[SlashRun(s)..])
    else if s[0] == '"' then "\\\"" + QuoteBody(s[1..])
    else [s[0]] + QuoteBody(s[1..])
  }

  function Quoted(arg: string): string {
    if NeedsQuoting(arg) then "\"" + QuoteBody(arg) + "\"" else arg
  }

  method QuoteForCommandLineToArgvW(arg: string) returns (out: string)
    ensures out == Quoted(arg)
  {
    hide QuoteBody;
    if forall c | c in arg :: c != ' ' && c != '\\' && c != '"' {
      return arg;
    }
    assert NeedsQuoting(arg);
    out := "\"";
    var i := 0;
    while i < |arg|
      invariant 0 <= i <= |arg|
      invariant out + QuoteBody(arg[i..]) == "\"" + QuoteBody(arg)
    {
      ghost var before := out;
      if arg[i] == '\\' {
        // end is where the backslashes stop.
        var end := i + 1;
        while end < |arg| && arg[end] == '\\'
          invariant i < end <= |arg|
          invariant forall k :: i <= k < end ==> arg[k] == '\\'
        {
          end := end + 1;
        }
        var backslashCount := end - i;
        if end == |arg| || arg[end] == '"' {
          backslashCount := backslashCount * 2;
        }
        for j := 0 to backslashCount
          invariant out == before + Slashes(j)
        {
          AddSlash(before, j);
          out := out + "\\";
        }
        QuoteBodyRunAt(arg, i, end);
        Regroup(before, Slashes(backslashCount), QuoteBody(arg[end..]));
        i := end;
      } else if arg[i] == '"' {
        out := out + "\\\"";
        QuoteBodyCharAt(arg, i);
        Regroup(before, "\\\"", QuoteBody(arg[i + 1..]));
        i := i + 1;
      } else {
        out := out + [arg[i]];
        QuoteBodyCharAt(arg, i);
        Regroup(before, [arg[i]], QuoteBody(arg[i + 1..]));
        i := i + 1;
      }
    }
    assert arg[i..] == "";
    QuoteBodyEmpty();
    assert out + "" == out;
    out := out + "\"";
  }

  lemma QuoteBodyEmpty()
    ensures QuoteBody("") == ""
  {}

  lemma AddSlash(s: string, n: nat)
    ensures s + Slashes(n) + "\\" == s + Slashes(n + 1)
  {}

  lemma Regroup(a: string, b: string, c: string)
    ensures a + (b + c) == (a + b) + c
  {}

  lemma QuoteBodyCharAt(s: string, i: nat)
    requires i < |s| && s[i] != '\\'
    ensures QuoteBody(s[i..]) == (if s[i] == '"' then "\\\"" else [s[i]]) + QuoteBody(s[i + 1..])
  {}

  lemma QuoteBodyRunAt(s: string, i: nat, end: nat)
    requires i < end <= |s|
    requires forall k :: i <= k < end ==> s[k] == '\\'
    requires end < |s| ==> s[end] != '\\'
    ensures QuoteBody(s[i..])
         == Slashes(if end == |s| || s[end] == '"' then (end - i) * 2 else end - i) + QuoteBody(s[end..])
  {
    SlashRunIs(s[i..], end - i);
    assert s[i..][end - i..] == s[end..];
  }

  lemma {:induction false} SlashRunIs(s: string, n: nat)
    requires n <= |s| && (forall i :: 0 <= i < n ==> s[i] == '\\') && (n < |s| ==> s[n] != '\\')
    ensures SlashRun(s) == n
  {}

  /** Inside quotes, held backslashes are worth as many flushed ones unless a quote comes next. */
  lemma HeldPlain(st: Scan, n: nat, c: char)
    requires st.open && st.quoted && st.slashes == 0 && c != '\\' && c != '"'
    ensures ScanChar(st.(slashes := n), c) == ScanChar(st.(cur := st.cur + Slashes(n)), c)
  {}

  lemma HeldEnd(st: Scan, n: nat)
    requires st.open && st.quoted && st.slashes == 0
    ensures ScanChar(st.(slashes := 2 * n), '"') == ScanChar(st.(cur := st.cur + Slashes(n)), '"')
  {
    assert st.cur + Slashes(n) + Slashes(0) == st.cur + Slashes(n);
  }

  lemma HeldEscape(st: Scan, n: nat)
    requires st.open && st.slashes == 0
    ensures ScanChar(ScanChar(st.(slashes := 2 * n), '\\'), '"')
         == st.(cur := st.cur + Slashes(n) + "\"")
  {
    assert (2 * n + 1) / 2 == n;
  }

  lemma ScanTwo(st: Scan, c: char, d: char, t: string)
    ensures ScanAll(st, [c, d] + t) == ScanAll(ScanChar(ScanChar(st, c), d), t)
  {}

  lemma QuoteBodyHead(s: string)
    requires s != "" && s[0] != '\\'
    ensures QuoteBody(s) + "\""
         == (if s[0] == '"' then ['\\', '"'] else [s[0]]) + (QuoteBody(s[1..]) + "\"")
  {}

  lemma QuoteBodyRun(s: string)
    requires s != ""
    ensures QuoteBody(s) + "\"" == Slashes(QuotedRun(s)) + (QuoteBody(s[SlashRun(s)..]) + "\"")
  {}

  /** A printed run of backslashes adds just that run to the token, whatever follows it. */
  lemma ScanRun(st: Scan, s: string)
    requires st.open && st.quoted && st.slashes == 0
    requires s != "" && s[0] == '\\'
    ensures ScanAll(st, QuoteBody(s) + "\"")
         == ScanAll(st.(cur := st.cur + Slashes(SlashRun(s))), QuoteBody(s[SlashRun(s)..]) + "\"")
  {
    hide ScanAll, ScanChar, QuoteBody;
    var n := SlashRun(s);
    var rest := s[n..];
    var tail := QuoteBody(rest) + "\"";
    var run := QuotedRun(s);
    QuoteBodyRun(s);
    assert run == if rest == "" || rest[0] == '"' then 2 * n else n;
    ScanSlashes(st, run, tail);
    ScanHeld(st, n, rest);
  }

  lemma ScanHeld(st: Scan, n: nat, rest: string)
    requires st.open && st.quoted && st.slashes == 0
    requires rest != "" ==> rest[0] != '\\'
    ensures ScanAll(st.(slashes := if rest == "" || rest[0] == '"' then 2 * n else n), QuoteBody(rest) + "\"")
         == ScanAll(st.(cur := st.cur + Slashes(n)), QuoteBody(rest) + "\"")
  {
    var flushed := st.(cur := st.cur + Slashes(n));
    if rest == "" {
      HeldEnd(st, n);
      assert QuoteBody(rest) + "\"" == ['"'] + "";
      ScanCons(st.(slashes := 2 * n), '"', "");
      ScanCons(flushed, '"', "");
    } else {
      var tail := QuoteBody(rest[1..]) + "\"";
      QuoteBodyHead(rest);
      if rest[0] == '"' {
        ScanTwo(st.(slashes := 2 * n), '\\', '"', tail);
        ScanTwo(flushed, '\\', '"', tail);
        HeldEscape(st, n);
        HeldEscape(flushed, 0);
        assert flushed.cur + Slashes(0) == flushed.cur;
      } else {
        ScanCons(st.(slashes := n), rest[0], tail);
        ScanCons(flushed, rest[0], tail);
        HeldPlain(st, n, rest[0]);
      }
    }
  }

  /** Outside its opening quote, a quoted argument reads back as itself and closes its quotes. */
  lemma {:induction false} ScanQuoteBody(st: Scan, s: string)
    requires st.open && st.quoted && st.slashes == 0
    ensures ScanAll(st, QuoteBody(s) + "\"") == st.(cur := st.cur + s, quoted := false)
    decreases |s|
  {
    assert st.cur + Slashes(0) == st.cur;
    if s == "" {
      assert QuoteBody(s) + "\"" == ['"'] + "";
      ScanCons(st, '"', "");
      assert st.cur + s == st.cur;
    } else if s[0] == '\\' {
      ScanRun(st, s);
      var n := SlashRun(s);
      ScanQuoteBody(st.(cur := st.cur + Slashes(n)), s[n..]);
      assert st.cur + s == st.cur + Slashes(n) + s[n..];
    } else {
      var tail := QuoteBody(s[1..]) + "\"";
      QuoteBodyHead(s);
      if s[0] == '"' {
        ScanTwo(st, '\\', '"', tail);
        HeldEscape(st, 0);
      } else {
        ScanCons(st, s[0], tail);
      }
      ScanQuoteBody(st.(cur := st.cur + [s[0]]), s[1..]);
      assert st.cur + [s[0]] + s[1..] == st.cur + s;
    }
  }

  /** Characters that have no meaning to the tokeniser are taken as they are. */
  lemma {:induction false} ScanPlain(st: Scan, s: string)
    requires !st.quoted && st.slashes == 0 && s != ""
    requires forall c | c in s :: c != '"' && c != '\\' && !IsBlank(c)
    ensures ScanAll(st, s) == st.(open := true, cur := st.cur + s)
    decreases |s|
  {
    var next := st.(open := true, cur := st.cur + [s[0]]);
    assert s[0] in s;
    assert st.cur + Slashes(0) + [s[0]] == next.cur;
    if s[1..] != "" {
      assert forall c | c in s[1..] :: c in s;
      ScanPlain(next, s[1..]);
      assert st.cur + s == next.cur + s[1..];
    } else {
      assert st.cur + s == next.cur;
    }
  }

  /** What the quoting keeps apart: a tab alone does not make it quote, and nothing stands for "". */
  predicate Printable(arg: string) {
    arg != "" && ('\t' in arg ==> NeedsQuoting(arg))
  }

  predicate AllPrintable(args: seq<string>) {
    forall i :: 0 <= i < |args| ==> Printable(args[i])
  }

  lemma ScanQuotedPrintable(st: Scan, arg: string)
    requires !st.quoted && st.slashes == 0 && Printable(arg)
    ensures ScanAll(st, Quoted(arg)) == st.(open := true, cur := st.cur + arg)
  {
    if NeedsQuoting(arg) {
      var inside := st.(open := true, quoted := true);
      assert Quoted(arg) == ['"'] + (QuoteBody(arg) + "\"");
      ScanCons(st, '"', QuoteBody(arg) + "\"");
      assert st.cur + Slashes(0) == st.cur;
      ScanQuoteBody(inside, arg);
    } else {
      ScanPlain(st, arg);
    }
  }

  /** Outside quotes with no backslash pending and every token so far printable. */
  predicate Clean(st: Scan) {
    && !st.quoted && st.slashes == 0 && AllPrintable(st.done)
    && (if st.open then Printable(st.cur) else st.cur == "")
  }

  lemma CloseClean(st: Scan)
    requires Clean(st)
    ensures Clean(Close(st))
  {
    assert st.cur + Slashes(0) == st.cur;
  }

  lemma {:induction false} ScanTabbed(st: Scan, s: string)
    requires Clean(st) && '\t' !in st.cur
    requires forall c | c in s :: c != '"' && c != '\\' && c != ' '
    ensures Clean(ScanAll(st, s))
    decreases |s|
  {
    if s == "" {
    } else {
      CloseClean(st);
      assert st.cur + Slashes(0) == st.cur;
      assert s[0] in s && forall c | c in s[1..] :: c in s;
      ScanTabbed(ScanChar(st, s[0]), s[1..]);
    }
  }

  /** Whatever the argument, its quoted form is balanced and gives printable tokens only. */
  lemma QuotedTokens(arg: string)
    ensures Balanced(Quoted(arg)) && AllPrintable(Tokens(Quoted(arg)))
    ensures Printable(arg) ==> Tokens(Quoted(arg)) == [arg]
  {
    if Printable(arg) {
      ScanQuotedPrintable(Between([]), arg);
      assert "" + arg + Slashes(0) == arg;
    } else {
      ScanTabbed(Between([]), arg);
      CloseClean(ScanAll(Between([]), Quoted(arg)));
    }
  }

  function QuoteAll(args: seq<string>): seq<string> {
    if args == [] then [] else [Quoted(args[0])] + QuoteAll(args[1..])
  }

  lemma {:induction false} QuoteAllTokens(args: seq<string>)
    ensures forall i :: 0 <= i < |QuoteAll(args)| ==> Balanced(QuoteAll(args)[i])
    ensures AllPrintable(TokensOfParts(QuoteAll(args)))
    ensures AllPrintable(args) ==> TokensOfParts(QuoteAll(args)) == args
  {
    if args == [] {
    } else {
      QuotedTokens(args[0]);
      QuoteAllTokens(args[1..]);
    }
  }

  /** The quoting is undone by the tokeniser for exactly the lists of printable arguments. */
  lemma QuotingRoundTrip(args: seq<string>)
    ensures Tokens(Join(QuoteAll(args))) == args <==> AllPrintable(args)
  {
    QuoteAllTokens(args);
    ScanJoin([], QuoteAll(args));
  }

  /** A tab alone is not quoted, and parts the argument; an empty string leaves no trace. */
  lemma NotPrintable()
    ensures Quoted("a\tb") == "a\tb" && Tokens(Quoted("a\tb")) == ["a", "b"]
    ensures Quoted("") == "" && Tokens(Quoted("")) == []
  {
    var start := Between([]);
    ScanTab(start);
    assert "a\tb" == "a" + ("\t" + "b");
    ScanConcat(start, "a", "\t" + "b");
    ScanConcat(ScanAll(start, "a"), "\t", "b");
  }

  lemma ScanTab(start: Scan)
    requires start == Between([])
    ensures ScanAll(start, "a") == Scan([], true, "a", false, 0)
    ensures ScanAll(Scan([], true, "a", false, 0), "\t") == Between(["a"])
    ensures ScanAll(Between(["a"]), "b") == Scan(["a"], true, "b", false, 0)
    ensures Close(Scan(["a"], true, "b", false, 0)) == Between(["a", "b"])
  {
    hide ScanAll;
    ScanOne(start, 'a');
    ScanOne(Scan([], true, "a", false, 0), '\t');
    ScanOne(Between(["a"]), 'b');
    StartToken([], 'a');
    StartToken(["a"], 'b');
    CloseToken([], "a");
    CloseToken(["a"], "b");
    assert [] + ["a"] == ["a"] && ["a"] + ["b"] == ["a", "b"];
  }

  lemma StartToken(done: seq<string>, c: char)
    requires c != '\\' && c != '"' && !IsBlank(c)
    ensures ScanChar(Between(done), c) == Scan(done, true, [c], false, 0)
  {
    assert "" + Slashes(0) + [c] == [c];
  }

  lemma CloseToken(done: seq<string>, token: string)
    ensures Close(Scan(done, true, token, false, 0)) == Between(done + [token])
  {
    assert token + Slashes(0) == token;
  }

  lemma ScanOne(st: Scan, c: char)
    ensures ScanAll(st, [c]) == ScanChar(st, c)
  {
    assert [c][1..] == [];
  }
}
