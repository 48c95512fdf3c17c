/** What base/command_line.cc does to its three fields, as functions on values. */
module CommandLineModel {
  import opened Text

  const SWITCH_TERMINATOR := "--"

  /** The Windows prefixes, longer ones first. */
  const SWITCH_PREFIXES := ["--", "-", "/"]

  function PrefixLength(s: string): (n: nat)
    ensures n <= |s| && n <= 2
  {
    if "--" <= s then 2 else if "-" <= s || "/" <= s then 1 else 0
  }

  function FindEquals(s: string): (n: nat)
    ensures n <= |s|
    ensures forall i :: 0 <= i < n ==> s[i] != '='
    ensures n < |s| ==> s[n] == '='
  {
    if s == "" || s[0] == '=' then 0 else 1 + FindEquals(s[1..])
  }

  /** A token with a prefix and something after it. */
  predicate IsSwitch(s: string) { PrefixLength(s) != 0 && PrefixLength(s) != |s| }

  /** The name keeps its prefix. */
  function SwitchName(s: string): string { s[..FindEquals(s)] }

  function SwitchValue(s: string): string {
    if FindEquals(s) < |s| then s[FindEquals(s) + 1..] else ""
  }

  /** The key under which a switch is indexed: lower case, without prefix. */
  function SwitchKey(name: string): string {
    Lower(name)[PrefixLength(Lower(name))..]
  }

  /** The token stored for a switch: lower-case name, prefixed, with its value unless that is empty. */
  function SwitchEntry(name: string, value: string): string {
    var key := Lower(name);
    (if PrefixLength(key) == 0 then SWITCH_PREFIXES[0] + key else key)
    + (if value == "" then "" else "=" + value)
  }

  /** argv_, switches_ and begin_args_. */
  datatype Line = Line(argv: seq<string>, switches: map<string, string>, beginArgs: nat) {
    predicate Valid() { 1 <= beginArgs <= |argv| }

    /** The part of argv_ that holds the switches. */
    function Entries(): seq<string>
      requires Valid()
    {
      argv[1..beginArgs]
    }

    function AppendSwitch(name: string, value: string): (r: Line)
      requires Valid()
      ensures r.Valid()
    {
      Line(argv[..beginArgs] + [SwitchEntry(name, value)] + argv[beginArgs..],
           switches[SwitchKey(name) := value], beginArgs + 1)
    }

    function AppendArg(arg: string): (r: Line)
      requires Valid()
      ensures r.Valid()
    {
      this.(argv := argv + [arg])
    }

    function SetProgram(program: string): (r: Line)
      requires Valid()
      ensures r.Valid()
    {
      this.(argv := argv[0 := Trim(program)])
    }

    /** AppendSwitchesAndArguments over the tokens after the program. */
    function AppendTokens(tokens: seq<string>, parseSwitches: bool): (r: Line)
      requires Valid()
      ensures r.Valid()
      decreases |tokens|
    {
      if tokens == [] then this else
        var arg := Trim(tokens[0]);
        var parse := parseSwitches && arg != SWITCH_TERMINATOR;
        (if parse && IsSwitch(arg) then AppendSwitch(SwitchName(arg), SwitchValue(arg)) else AppendArg(arg))
        .AppendTokens(tokens[1..], parse)
    }

    function HasSwitch(name: string): bool { Lower(name) in switches }

    function GetSwitchValue(name: string): string {
      if Lower(name) in switches then switches[Lower(name)] else ""
    }
  }

  /** Everything after the program. */
  function Params(argv: seq<string>): seq<string> {
    if argv == [] then [] else argv[1..]
  }

  /** InitFromArgv on an object whose index is `switches`: the index is not cleared. */
  function InitOver(switches: map<string, string>, argv: seq<string>): (r: Line)
    ensures r.Valid()
  {
    Line([""], switches, 1).SetProgram(if argv == [] then "" else argv[0]).AppendTokens(Params(argv), true)
  }

  function Init(argv: seq<string>): (r: Line)
    ensures r.Valid()
  {
    InitOver(map[], argv)
  }

  // ---------------------------------------------------------------------
  // Normal form

  /** The trimmed tokens that are taken for switches, in input order. */
  function SwitchTokens(tokens: seq<string>, parseSwitches: bool): seq<string> {
    if tokens == [] then [] else
      var arg := Trim(tokens[0]);
      var parse := parseSwitches && arg != SWITCH_TERMINATOR;
      (if parse && IsSwitch(arg) then [arg] else []) + SwitchTokens(tokens[1..], parse)
  }

  /** The other trimmed tokens, in input order. */
  function OtherTokens(tokens: seq<string>, parseSwitches: bool): seq<string> {
    if tokens == [] then [] else
      var arg := Trim(tokens[0]);
      var parse := parseSwitches && arg != SWITCH_TERMINATOR;
      (if parse && IsSwitch(arg) then [] else [arg]) + OtherTokens(tokens[1..], parse)
  }

  /** The stored form of a switch token. */
  function Normalised(token: string): string {
    SwitchEntry(SwitchName(token), SwitchValue(token))
  }

  function NormaliseAll(tokens: seq<string>): (r: seq<string>)
    ensures |r| == |tokens| && forall i :: 0 <= i < |tokens| ==> r[i] == Normalised(tokens[i])
  {
    if tokens == [] then [] else [Normalised(tokens[0])] + NormaliseAll(tokens[1..])
  }

  /** The key/value pairs read back from stored switches; a later one wins. */
  function ReadBack(entries: seq<string>): map<string, string> {
    if entries == [] then map[] else
      map[SwitchKey(SwitchName(entries[0])) := SwitchValue(entries[0])] + ReadBack(entries[1..])
  }

  lemma {:induction false} ReadBackConcat(a: seq<string>, b: seq<string>)
    ensures ReadBack(a + b) == ReadBack(a) + ReadBack(b)
  {
    hide SwitchKey, SwitchName, SwitchValue;
    if a == [] {
      assert a + b == b;
    } else {
      assert (a + b)[1..] == a[1..] + b;
      ReadBackConcat(a[1..], b);
      ReadBackCons(a);
      ReadBackCons(a + b);
      MapAssociative(ReadBack([a[0]]), ReadBack(a[1..]), ReadBack(b));
    }
  }

  lemma ReadBackCons(entries: seq<string>)
    requires entries != []
    ensures ReadBack(entries) == ReadBack([entries[0]]) + ReadBack(entries[1..])
  {}

  lemma MapAssociative(a: map<string, string>, b: map<string, string>, c: map<string, string>)
    ensures a + (b + c) == (a + b) + c
  {}

  /** ReadBack is the last-wins map of the entries. */
  lemma {:induction false} ReadBackLastWins(entries: seq<string>, k: string)
    ensures k in ReadBack(entries) <==> exists i :: 0 <= i < |entries| && SwitchKey(SwitchName(entries[i])) == k
    ensures forall i :: 0 <= i < |entries| && SwitchKey(SwitchName(entries[i])) == k
              && (forall j :: i < j < |entries| ==> SwitchKey(SwitchName(entries[j])) != k)
              ==> ReadBack(entries)[k] == SwitchValue(entries[i])
  {
    if entries == [] {
    } else {
      ReadBackLastWins(entries[1..], k);
      if k in ReadBack(entries[1..]) {
        var i :| 0 <= i < |entries[1..]| && SwitchKey(SwitchName(entries[1..][i])) == k;
        assert SwitchKey(SwitchName(entries[i + 1])) == k;
      }
      if SwitchKey(SwitchName(entries[0])) == k {
        assert k in ReadBack(entries);
      }
    }
  }

  lemma FindEqualsIs(s: string, n: nat)
    requires n <= |s| && (forall i :: 0 <= i < n ==> s[i] != '=') && (n < |s| ==> s[n] == '=')
    ensures FindEquals(s) == n
  {}

  /** A stored switch reads back as the name (lower case, prefixed) and value it was made from. */
  lemma EntryParts(name: string, value: string)
    requires '=' !in name
    ensures var e := SwitchEntry(name, value);
            && SwitchName(e) == SwitchEntry(name, "") && SwitchValue(e) == value
            && SwitchKey(SwitchName(e)) == SwitchKey(name)
            && SwitchEntry(SwitchName(e), value) == e && PrefixLength(e) != 0
  {
    var full := SwitchEntry(name, "");
    var e := SwitchEntry(name, value);
    assert e == full + if value == "" then "" else "=" + value;
    forall i | 0 <= i < |full| ensures full[i] != '=' {
      var k := |full| - |name|;
      if i >= k {
        assert full[i] == LowerChar(name[i - k]) && name[i - k] in name;
      }
    }
    FindEqualsIs(e, |full|);
    assert Lower(full) == full;
  }

  // ---------------------------------------------------------------------
  // What counts as a switch, and under which key

  /** A switch starts with a dash or a slash and is more than a prefix. */
  lemma IsSwitchExactly(s: string)
    ensures IsSwitch(s) <==> |s| > 1 && (s[0] == '-' || s[0] == '/') && s != "--"
  {}

  /** One is the other with some letters in lower case, or the other way round. */
  predicate SameButCase(a: string, b: string) {
    |a| == |b| && forall i :: 0 <= i < |a| ==> SameLetter(a[i], b[i])
  }

  predicate SameLetter(a: char, b: char) {
    a == b || ('A' <= a <= 'Z' && b as int == a as int + 32) || ('A' <= b <= 'Z' && a as int == b as int + 32)
  }

  lemma LowerIsCase(a: string, b: string)
    ensures Lower(a) == Lower(b) <==> SameButCase(a, b)
    ensures SameButCase(a, Lower(a)) && forall i :: 0 <= i < |a| ==> !('A' <= Lower(a)[i] <= 'Z')
  {}

  lemma LowerConcat(a: string, b: string)
    ensures Lower(a + b) == Lower(a) + Lower(b)
  {}

  predicate IsPrefix(prefix: string) { prefix == "" || prefix == "-" || prefix == "--" || prefix == "/" }

  lemma LowerPrefixes(prefix: string)
    requires IsPrefix(prefix)
    ensures Lower(prefix) == prefix
  {}

  lemma PrefixIsFound(prefix: string, name: string)
    requires IsPrefix(prefix) && (name != "" ==> name[0] != '-' && name[0] != '/')
    ensures PrefixLength(prefix + name) == |prefix|
  {
    var s := prefix + name;
    assert name != "" ==> s[|prefix|] == name[0];
    assert "--" <= s <==> |s| >= 2 && s[0] == '-' && s[1] == '-';
    assert "-" <= s <==> |s| >= 1 && s[0] == '-';
    assert "/" <= s <==> |s| >= 1 && s[0] == '/';
    assert forall i :: 0 <= i < |prefix| ==> s[i] == prefix[i];
  }

  /** Without its prefix, whichever it is, and but for the case of its letters, a name is its key. */
  lemma KeyOfName(prefix: string, name: string, other: string)
    requires IsPrefix(prefix) && (name != "" ==> name[0] != '-' && name[0] != '/')
    ensures SwitchKey(prefix + name) == Lower(name)
    ensures SwitchKey(prefix + name) == Lower(other) <==> SameButCase(name, other)
  {
    hide PrefixLength, SameButCase;
    LowerIsCase(name, other);
    LowerConcat(prefix, name);
    LowerPrefixes(prefix);
    assert name != "" ==> Lower(name)[0] == LowerChar(name[0]);
    PrefixIsFound(prefix, Lower(name));
    assert (prefix + Lower(name))[|prefix|..] == Lower(name);
  }

  /** A name without prefix is stored with two dashes; one with a prefix keeps it. */
  lemma StoredPrefix(name: string, value: string)
    ensures (if PrefixLength(name) == 0 then "--" + Lower(name) else Lower(name)) <= SwitchEntry(name, value)
  {
    assert name != "" ==> Lower(name)[0] == LowerChar(name[0]);
    assert |name| > 1 ==> Lower(name)[1] == LowerChar(name[1]);
  }

  /** std::find and erase. */
  function RemoveFirst(args: seq<string>, x: string): seq<string> {
    if args == [] then [] else if args[0] == x then args[1..] else [args[0]] + RemoveFirst(args[1..], x)
  }

  lemma RemoveFirstLater(args: seq<string>, x: string)
    requires args != [] && args[0] != x
    ensures RemoveFirst(args, x) == [args[0]] + RemoveFirst(args[1..], x)
  {}

  lemma RemoveFirstHead(x: string, b: seq<string>)
    ensures RemoveFirst([x] + b, x) == b
  {}

  /** Exactly the first occurrence goes. */
  lemma {:induction false} RemoveFirstRemovesOne(a: seq<string>, x: string, b: seq<string>)
    requires x !in a
    ensures RemoveFirst(a + [x] + b, x) == a + b
    ensures RemoveFirst(a, x) == a
  {
    if a == [] {
      assert [] + [x] + b == [x] + b && [] + b == b;
      RemoveFirstHead(x, b);
    } else {
      hide RemoveFirst;
      var s := a + [x] + b;
      assert a[0] in a && s[0] == a[0] && s[1..] == a[1..] + [x] + b;
      RemoveFirstRemovesOne(a[1..], x, b);
      RemoveFirstLater(s, x);
      RemoveFirstLater(a, x);
      assert [a[0]] + (a[1..] + b) == a + b && [a[0]] + a[1..] == a;
    }
  }
}
