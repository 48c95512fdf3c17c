/**
 * How a command line is printed, and how the system reads one: the program up
 * to the next quote or blank without any escapes, and the rest by the rules of
 * the tokeniser. Printing keeps the name of a switch as it is and quotes its
 * value; any other token is quoted as a whole, and so is all that stands behind
 * the terminator.
 */
module CommandLinePrint {
  import opened Text
  import opened Tokenizer
  import opened Quoting
  import opened CommandLineModel

  /** One entry of argv_ in a command line string: a switch keeps its name raw, all else is quoted. */
  function Shown(entry: string, parseSwitches: bool): string {
    if parseSwitches && IsSwitch(entry)
    then SwitchName(entry) + (if SwitchValue(entry) == "" then "" else "=" + Quoted(SwitchValue(entry)))
    else Quoted(entry)
  }

  function ShownAll(entries: seq<string>, parseSwitches: bool): (r: seq<string>)
    ensures |r| == |entries|
  {
    if entries == [] then [] else
      var parse := parseSwitches && entries[0] != SWITCH_TERMINATOR;
      [Shown(entries[0], parse)] + ShownAll(entries[1..], parse)
  }

  function ArgumentsString(argv: seq<string>): string { Join(ShownAll(Params(argv), true)) }

  function CommandLineString(argv: seq<string>): string
    requires argv != []
  {
    var params := ArgumentsString(argv);
    Quoted(argv[0]) + (if params == "" then "" else " " + params)
  }

  function FindQuote(s: string): (n: nat)
    ensures n <= |s| && (forall i :: 0 <= i < n ==> s[i] != '"') && (n < |s| ==> s[n] == '"')
  {
    if s == "" || s[0] == '"' then 0 else 1 + FindQuote(s[1..])
  }

  function FindBlank(s: string): (n: nat)
    ensures n <= |s| && (forall i :: 0 <= i < n ==> !IsBlank(s[i])) && (n < |s| ==> IsBlank(s[n]))
  {
    if s == "" || IsBlank(s[0]) then 0 else 1 + FindBlank(s[1..])
  }

  /** CommandLineToArgvW: the program is read without backslash escapes, the rest by the tokeniser. */
  function ArgvW(s: string): (argv: seq<string>)
    requires s != ""
    ensures argv != []
  {
    if s[0] == '"' then
      var n := FindQuote(s[1..]);
      [s[1..n + 1]] + Tokens(if n + 2 <= |s| then s[n + 2..] else "")
    else
      var n := FindBlank(s);
      [s[..n]] + Tokens(s[n..])
  }

  lemma {:induction false} JoinSnoc(parts: seq<string>, p: string)
    ensures Join(parts + [p]) == if parts == [] then p else Join(parts) + " " + p
  {
    if parts == [] {
    } else {
      assert (parts + [p])[1..] == parts[1..] + [p];
      JoinSnoc(parts[1..], p);
      if |parts| > 1 {
        assert parts[0] + " " + (Join(parts[1..]) + " " + p) == parts[0] + " " + Join(parts[1..]) + " " + p;
      }
    }
  }

  lemma {:induction false} ShownSnoc(entries: seq<string>, e: string, parse: bool)
    ensures ShownAll(entries + [e], parse)
         == ShownAll(entries, parse) + [Shown(e, parse && SWITCH_TERMINATOR !in entries && e != SWITCH_TERMINATOR)]
  {
    hide Shown;
    if entries == [] {
      assert ([] + [e])[1..] == [];
    } else {
      assert (entries + [e])[1..] == entries[1..] + [e];
      ShownSnoc(entries[1..], e, parse && entries[0] != SWITCH_TERMINATOR);
    }
  }

  lemma PrintStep(argv: seq<string>, i: nat)
    requires 1 <= i < |argv|
    ensures Join(ShownAll(argv[1..i + 1], true))
         == (if i > 1 then Join(ShownAll(argv[1..i], true)) + " " else "")
            + Shown(argv[i], SWITCH_TERMINATOR !in argv[1..i] && argv[i] != SWITCH_TERMINATOR)
    ensures SWITCH_TERMINATOR in argv[1..i + 1] <==> SWITCH_TERMINATOR in argv[1..i] || argv[i] == SWITCH_TERMINATOR
    ensures i == 1 ==> Join(ShownAll(argv[1..i], true)) == ""
  {
    hide Shown;
    assert argv[1..i + 1] == argv[1..i] + [argv[i]];
    ShownSnoc(argv[1..i], argv[i], true);
    JoinSnoc(ShownAll(argv[1..i], true),
             Shown(argv[i], SWITCH_TERMINATOR !in argv[1..i] && argv[i] != SWITCH_TERMINATOR));
  }

  lemma PrintNothing()
    ensures Join(ShownAll([], true)) == ""
  {}

  lemma ShownParts(before: string, entry: string, parse: bool)
    ensures before + Shown(entry, parse)
         == if !(parse && IsSwitch(entry)) then before + Quoted(entry)
            else if SwitchValue(entry) == "" then before + SwitchName(entry)
            else before + SwitchName(entry) + ("=" + Quoted(SwitchValue(entry)))
  {}

  /** CommandLine::FromString. */
  function FromString(s: string): Line {
    if Trim(s) == "" then Line([""], map[], 1) else Init(ArgvW(Trim(s)))
  }
}
