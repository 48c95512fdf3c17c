/** switches_ as an index on argv_, over every run of the mutators. */
module SwitchIndex {
  import opened Text
  import opened CommandLineModel
  import opened NormalForm

  /** switches_ is the last-wins map of the switches stored in argv_. */
  predicate Indexed(l: Line) { l.Valid() && l.switches == ReadBack(l.Entries()) }

  /** Where CopySwitchesFrom reads: the object that it changes, or another one. */
  datatype Source = Itself | Other(line: Line) {
    function Of(l: Line): Line { if Itself? then l else line }
  }

  /** One round of the loop in CopySwitchesFrom. */
  function CopySwitch(l: Line, source: Source, name: string): (r: Line)
    requires l.Valid()
    ensures r.Valid()
  {
    if source.Of(l).HasSwitch(name) then l.AppendSwitch(name, source.Of(l).GetSwitchValue(name)) else l
  }

  /** CopySwitchesFrom. */
  function CopySwitches(l: Line, source: Source, names: seq<string>): (r: Line)
    requires l.Valid()
    ensures r.Valid()
    decreases |names|
  {
    if names == [] then l else CopySwitches(CopySwitch(l, source, names[0]), source, names[1..])
  }

  /** AppendArguments. */
  function WithArguments(l: Line, other: Line, includeProgram: bool): (r: Line)
    requires l.Valid() && other.Valid()
    ensures r.Valid()
  {
    (if includeProgram then l.SetProgram(other.argv[0]) else l).AppendTokens(Params(other.argv), true)
  }

  /** The calls that change a command line once it has been constructed. */
  datatype Call =
    | AppendSwitch(name: string, value: string)
    | AppendArg(arg: string)
    | SetProgram(program: string)
    | CopySwitchesFrom(source: Source, names: seq<string>)
    | AppendArguments(other: Line, includeProgram: bool)
  {
    predicate Valid() { AppendArguments? ==> other.Valid() }

    /** The names handed to AppendSwitchNative by the caller, when the call is made on l. */
    function Names(l: Line): seq<string>
      requires l.Valid()
    {
      match this
      case AppendSwitch(name, _) => [name]
      case CopySwitchesFrom(source, names) => Present(l, source, names)
      case _ => []
    }
  }

  function Present(l: Line, source: Source, names: seq<string>): seq<string>
    requires l.Valid()
    decreases |names|
  {
    if names == [] then [] else
      (if source.Of(l).HasSwitch(names[0]) then [names[0]] else [])
      + Present(CopySwitch(l, source, names[0]), source, names[1..])
  }

  function Do(l: Line, call: Call): (r: Line)
    requires l.Valid() && call.Valid()
    ensures r.Valid()
  {
    match call
    case AppendSwitch(name, value) => l.AppendSwitch(name, value)
    case AppendArg(arg) => l.AppendArg(arg)
    case SetProgram(program) => l.SetProgram(program)
    case CopySwitchesFrom(source, names) => CopySwitches(l, source, names)
    case AppendArguments(other, includeProgram) => WithArguments(l, other, includeProgram)
  }

  function Run(l: Line, calls: seq<Call>): (r: Line)
    requires l.Valid() && forall c | c in calls :: c.Valid()
    ensures r.Valid()
    decreases |calls|
  {
    if calls == [] then l else
      assert calls[0] in calls && forall c | c in calls[1..] :: c in calls;
      Run(Do(l, calls[0]), calls[1..])
  }

  predicate EqualsFree(names: seq<string>) { forall n | n in names :: '=' !in n }

  /** A key with an equals sign in it can not come from argv_. */
  predicate Spoilt(l: Line) { exists k | k in l.switches :: '=' in k }

  lemma SpoiltIsNotIndexed(l: Line)
    requires Spoilt(l)
    ensures !Indexed(l)
  {
    if Indexed(l) {
      var k :| k in l.switches && '=' in k;
      ReadBackLastWins(l.Entries(), k);
      var i :| 0 <= i < |l.Entries()| && SwitchKey(SwitchName(l.Entries()[i])) == k;
      KeyKeepsEquals(SwitchName(l.Entries()[i]));
    }
  }

  lemma KeyKeepsEquals(name: string)
    ensures '=' in SwitchKey(name) <==> '=' in name
  {}

  /** One appended switch keeps the index right exactly when its name has no equals sign. */
  lemma AppendSwitchIndex(l: Line, name: string, value: string)
    requires l.Valid()
    ensures Indexed(l) && '=' !in name ==> Indexed(l.AppendSwitch(name, value))
    ensures Spoilt(l) || '=' in name ==> Spoilt(l.AppendSwitch(name, value))
  {
    hide SwitchEntry, ReadBack, SwitchName, SwitchValue, SwitchKey;
    var r := l.AppendSwitch(name, value);
    var e := SwitchEntry(name, value);
    if '=' !in name {
      assert r.Entries() == l.Entries() + [e];
      ReadBackConcat(l.Entries(), [e]);
      EntryParts(name, value);
      ReadBackSingle(e);
    }
    KeyKeepsEquals(name);
    assert SwitchKey(name) in r.switches;
    if Spoilt(l) {
      var k :| k in l.switches && '=' in k;
      assert k in r.switches;
    }
  }

  lemma ReadBackSingle(e: string)
    ensures ReadBack([e]) == map[SwitchKey(SwitchName(e)) := SwitchValue(e)]
  {}

  lemma {:induction false} CopySwitchesIndex(l: Line, source: Source, names: seq<string>)
    requires l.Valid()
    ensures Indexed(l) && EqualsFree(Present(l, source, names)) ==> Indexed(CopySwitches(l, source, names))
    ensures Spoilt(l) || !EqualsFree(Present(l, source, names)) ==> Spoilt(CopySwitches(l, source, names))
    decreases |names|
  {
    hide Indexed, Spoilt, Line.AppendSwitch, Line.HasSwitch, Line.GetSwitchValue;
    if names == [] {
    } else {
      var name := names[0];
      var from, next := source.Of(l), CopySwitch(l, source, name);
      var ps := Present(next, source, names[1..]);
      CopySwitchesIndex(next, source, names[1..]);
      if from.HasSwitch(name) {
        AppendSwitchIndex(l, name, from.GetSwitchValue(name));
      } else {
        assert Present(l, source, names) == ps;
      }
    }
  }

  lemma AppendTokensIndex(l: Line, tokens: seq<string>)
    requires l.Valid()
    ensures Indexed(l) ==> Indexed(l.AppendTokens(tokens, true))
    ensures Spoilt(l) ==> Spoilt(l.AppendTokens(tokens, true))
  {
    hide ReadBack, SwitchEntries, OtherTokens, Line.AppendTokens;
    Layout(l, tokens, true);
    ExtendedEntries(l, SwitchEntries(tokens, true), OtherTokens(tokens, true));
    ReadBackConcat(l.Entries(), SwitchEntries(tokens, true));
    if Spoilt(l) {
      var k :| k in l.switches && '=' in k;
      assert k in l.AppendTokens(tokens, true).switches;
    }
  }

  lemma ExtendedEntries(l: Line, es: seq<string>, os: seq<string>)
    requires l.Valid()
    ensures Extended(l, es, os).Valid() && Extended(l, es, os).Entries() == l.Entries() + es
  {
    hide ReadBack;
  }

  lemma DoIndex(l: Line, call: Call)
    requires l.Valid() && call.Valid()
    ensures Indexed(l) && EqualsFree(call.Names(l)) ==> Indexed(Do(l, call))
    ensures Spoilt(l) || !EqualsFree(call.Names(l)) ==> Spoilt(Do(l, call))
  {
    hide ReadBack, Line.AppendSwitch, Line.AppendTokens, CopySwitches, Present;
    match call
    case AppendSwitch(name, value) => AppendSwitchIndex(l, name, value);
    case AppendArg(arg) => assert Do(l, call).Entries() == l.Entries();
    case SetProgram(program) => assert Do(l, call).Entries() == l.Entries();
    case CopySwitchesFrom(source, names) => CopySwitchesIndex(l, source, names);
    case AppendArguments(other, includeProgram) =>
      var l1 := if includeProgram then l.SetProgram(other.argv[0]) else l;
      assert l1.Entries() == l.Entries();
      AppendTokensIndex(l1, Params(other.argv));
  }

  function AllNames(l: Line, calls: seq<Call>): seq<string>
    requires l.Valid() && forall c | c in calls :: c.Valid()
    decreases |calls|
  {
    if calls == [] then [] else
      assert calls[0] in calls && forall c | c in calls[1..] :: c in calls;
      calls[0].Names(l) + AllNames(Do(l, calls[0]), calls[1..])
  }

  /**
   * Over every run of mutators from a correctly indexed line, the index is
   * right at the end exactly when no appended name had an equals sign in it.
   */
  lemma {:induction false} RunIndex(l: Line, calls: seq<Call>)
    requires l.Valid() && forall c | c in calls :: c.Valid()
    requires Indexed(l) || Spoilt(l)
    ensures Indexed(Run(l, calls)) <==> Indexed(l) && EqualsFree(AllNames(l, calls))
    ensures Indexed(Run(l, calls)) || Spoilt(Run(l, calls))
    decreases |calls|
  {
    hide Indexed, Spoilt, Do;
    if calls == [] {
      if Spoilt(l) {
        SpoiltIsNotIndexed(l);
      }
    } else {
      assert calls[0] in calls && forall c | c in calls[1..] :: c in calls;
      var first, rest := calls[0].Names(l), AllNames(Do(l, calls[0]), calls[1..]);
      DoIndex(l, calls[0]);
      if Spoilt(l) {
        SpoiltIsNotIndexed(l);
      }
      if Spoilt(Do(l, calls[0])) {
        SpoiltIsNotIndexed(Do(l, calls[0]));
      }
      RunIndex(Do(l, calls[0]), calls[1..]);
      assert EqualsFree(first + rest) <==> EqualsFree(first) && EqualsFree(rest) by {
        assert forall n | n in first || n in rest :: n in first + rest;
      }
    }
  }

  /** Every constructor gives a correctly indexed line. */
  lemma ConstructorsIndex(program: string, argv: seq<string>)
    ensures Indexed(Line([""], map[], 1))
    ensures Indexed(Line([""], map[], 1).SetProgram(program))
    ensures Indexed(Init(argv))
  {
    hide Init;
    InitIndexed(argv);
  }

  lemma InitIndexed(argv: seq<string>)
    ensures Indexed(Init(argv))
  {
    hide Init, SwitchEntries, OtherTokens, ReadBack;
    InitParts(argv);
  }

  // ---------------------------------------------------------------------
  // Reading a switch

  /** What has been appended is read back, under its key whatever the case; all other switches read as before. */
  lemma AppendedIsRead(l: Line, name: string, value: string, query: string)
    requires l.Valid()
    ensures var r := l.AppendSwitch(name, value);
            && r.GetSwitchValue(query) == (if Lower(query) == SwitchKey(name) then value else l.GetSwitchValue(query))
            && (r.HasSwitch(query) <==> Lower(query) == SwitchKey(name) || l.HasSwitch(query))
  {}

  predicate Names(entry: string, query: string) { SwitchKey(SwitchName(entry)) == Lower(query) }

  predicate IsLastEntry(entries: seq<string>, i: int, query: string) {
    && 0 <= i < |entries| && Names(entries[i], query)
    && forall j :: i < j < |entries| ==> !Names(entries[j], query)
  }

  /** On a correctly indexed line a switch reads as it is stored last in argv_, and is there just if it is stored. */
  lemma IndexedIsRead(l: Line, query: string)
    requires Indexed(l)
    ensures l.HasSwitch(query) <==> exists i :: 0 <= i < |l.Entries()| && Names(l.Entries()[i], query)
    ensures !l.HasSwitch(query) ==> l.GetSwitchValue(query) == ""
    ensures forall i :: IsLastEntry(l.Entries(), i, query) ==> l.GetSwitchValue(query) == SwitchValue(l.Entries()[i])
  {
    hide SwitchKey, SwitchName, SwitchValue;
    ReadBackLastWins(l.Entries(), Lower(query));
  }

  /** The source has the named switch, and the query is for it. */
  predicate Copied(source: Line, name: string, query: string) {
    source.HasSwitch(name) && SwitchKey(name) == Lower(query)
  }

  /** CopySwitchesFrom another line touches no switch that is not named, or that the source has not. */
  lemma {:induction false} NotCopiedIsKept(l: Line, source: Line, names: seq<string>, query: string)
    requires l.Valid() && forall i :: 0 <= i < |names| ==> !Copied(source, names[i], query)
    ensures var r := CopySwitches(l, Other(source), names);
            r.GetSwitchValue(query) == l.GetSwitchValue(query) && (r.HasSwitch(query) <==> l.HasSwitch(query))
    decreases |names|
  {
    hide SwitchKey, Line.HasSwitch, Line.GetSwitchValue, Line.AppendSwitch;
    if names == [] {
    } else {
      AppendedIsRead(l, names[0], source.GetSwitchValue(names[0]), query);
      NotCopiedIsKept(CopySwitch(l, Other(source), names[0]), source, names[1..], query);
    }
  }

  /** And it carries the value of the others over; a later name wins. */
  lemma {:induction false} CopiedIsRead(l: Line, source: Line, names: seq<string>, query: string, i: nat)
    requires l.Valid() && i < |names| && Copied(source, names[i], query)
    requires forall j :: i < j < |names| ==> !Copied(source, names[j], query)
    ensures var r := CopySwitches(l, Other(source), names);
            r.HasSwitch(query) && r.GetSwitchValue(query) == source.GetSwitchValue(names[i])
    decreases |names|
  {
    hide SwitchKey, Line.HasSwitch, Line.GetSwitchValue, Line.AppendSwitch;
    var next := CopySwitch(l, Other(source), names[0]);
    if i == 0 {
      AppendedIsRead(l, names[0], source.GetSwitchValue(names[0]), query);
      NotCopiedIsKept(next, source, names[1..], query);
    } else {
      CopiedIsRead(next, source, names[1..], query, i - 1);
    }
  }

  /** AppendArguments takes the other program only when told to, and all the other tokens behind its own. */
  lemma AppendedArguments(l: Line, other: Line, includeProgram: bool)
    requires l.Valid() && other.Valid()
    ensures var r := WithArguments(l, other, includeProgram);
            var tokens := Params(other.argv);
            && r.argv[0] == (if includeProgram then Trim(other.argv[0]) else l.argv[0])
            && r.Entries() == l.Entries() + SwitchEntries(tokens, true)
            && r.argv[r.beginArgs..] == l.argv[l.beginArgs..] + OtherTokens(tokens, true)
            && r.switches == l.switches + ReadBack(SwitchEntries(tokens, true))
  {
    hide SwitchEntries, OtherTokens, ReadBack, Line.AppendTokens, Trim;
    var l1 := if includeProgram then l.SetProgram(other.argv[0]) else l;
    Layout(l1, Params(other.argv), true);
  }

  /** A second InitFromArgv keeps every key of the first. */
  lemma SecondInitKeepsKeys(first: seq<string>, second: seq<string>)
    ensures InitOver(Init(first).switches, second).switches == Init(first).switches + Init(second).switches
  {
    hide SwitchEntries, OtherTokens, ReadBack;
    InitParts(second);
    InitNormalForm(Init(first).switches, second);
  }

  /** Whatever the index was, it is right after InitFromArgv exactly when the new switches cover its keys. */
  lemma ReusedIndex(switches: map<string, string>, argv: seq<string>)
    ensures Indexed(InitOver(switches, argv)) <==> switches.Keys <= Init(argv).switches.Keys
  {
    hide SwitchEntries, OtherTokens, ReadBack, Init, InitOver, Trim;
    InitParts(argv);
    InitNormalForm(switches, argv);
    Covered(switches, Init(argv).switches);
    assert InitOver(switches, argv).Entries() == Init(argv).Entries();
  }

  lemma Covered(a: map<string, string>, b: map<string, string>)
    ensures a + b == b <==> a.Keys <= b.Keys
  {
    assert (a + b).Keys == a.Keys + b.Keys;
  }

  /** A switch of the first line is found in an object that has been given a second line without it. */
  lemma StaleSwitch()
    ensures var l := InitOver(Init(["a", "-x"]).switches, ["b"]);
            !Indexed(l) && l.HasSwitch("x") && l.Entries() == []
  {
    hide Init, SwitchEntries, OtherTokens, ReadBack, Trim, InitOver;
    assert Params(["a", "-x"]) == ["-x"] && Params(["b"]) == [];
    OneSwitch("-x");
    InitParts(["a", "-x"]);
    InitParts(["b"]);
    InitNormalForm(Init(["a", "-x"]).switches, ["b"]);
    NoSwitches();
    assert "x" in Init(["a", "-x"]).switches && "x" !in Init(["b"]).switches;
    ReusedIndex(Init(["a", "-x"]).switches, ["b"]);
  }

  lemma NoSwitches()
    ensures SwitchEntries([], true) == [] && ReadBack([]) == map[] && Lower("x") == "x"
  {}

  lemma OneSwitch(t: string)
    requires t == "-x"
    ensures "x" in ReadBack(SwitchEntries([t], true))
  {
    hide Trim, Normalised, ReadBack;
    assert Trimmed(t);
    TrimFixesTrimmed(t);
    assert [t][1..] == [];
    assert SwitchTokens([t], true) == [t] + SwitchTokens([], true) == [t];
    assert NormaliseAll([t]) == [Normalised(t)];
    StoredSwitch(t);
    ReadBackSingle(t);
  }

  lemma StoredSwitch(t: string)
    requires t == "-x"
    ensures Normalised(t) == t && SwitchKey(SwitchName(t)) == "x"
  {
    FindEqualsIs(t, 2);
    assert Lower(t[1..]) == "x";
    assert Lower(t) == t && t[..2] == t && t[1..] == "x";
  }
}
