/** The class of base/command_line.{h,cc}, as it is built on Windows. */
module CommandLines {
  import opened Text
  import opened Tokenizer
  import opened Quoting
  import opened CommandLineModel
  import opened CommandLinePrint
  import SwitchIndex

  method GetSwitchPrefixLength(s: string) returns (n: nat)
    ensures n == PrefixLength(s)
  {
    assert SWITCH_PREFIXES[0] == "--" && SWITCH_PREFIXES[1] == "-" && SWITCH_PREFIXES[2] == "/";
    for i := 0 to |SWITCH_PREFIXES|
      invariant forall j :: 0 <= j < i ==> !(SWITCH_PREFIXES[j] <= s)
    {
      if SWITCH_PREFIXES[i] <= s {
        assert i == 0 || i == 1 || i == 2;
        return |SWITCH_PREFIXES[i]|;
      }
    }
    return 0;
  }

  method ParseSwitch(s: string) returns (isSwitch: bool, name: string, value: string)
    ensures isSwitch == IsSwitch(s)
    ensures isSwitch ==> name == SwitchName(s) && value == SwitchValue(s)
    ensures !isSwitch ==> name == "" && value == ""
  {
    var prefixLength := GetSwitchPrefixLength(s);
    if prefixLength == 0 || prefixLength == |s| {
      return false, "", "";
    }
    var equals := FindEquals(s);
    return true, s[..equals], if equals < |s| then s[equals + 1..] else "";
  }

  method AppendSwitchesAndArguments(commandLine: CommandLine, argv: seq<string>)
    requires commandLine.Valid()
    modifies commandLine
    ensures commandLine.Value() == old(commandLine.Value()).AppendTokens(Params(argv), true)
  {
    hide Line.AppendTokens, Line.AppendSwitch, Line.AppendArg, IsSwitch, SwitchName, SwitchValue, Trim;
    var parseSwitches := true;
    var i := 1;
    assert |argv| == 1 ==> argv[1..] == [];
    while i < |argv|
      invariant 1 <= i && commandLine.Valid()
      invariant commandLine.Value().AppendTokens(if i < |argv| then argv[i..] else [], parseSwitches)
             == old(commandLine.Value()).AppendTokens(Params(argv), true)
    {
      var arg := Trim(argv[i]);
      AppendTokensStep(commandLine.Value(), argv, i, parseSwitches);
      parseSwitches := parseSwitches && arg != SWITCH_TERMINATOR;
      var isSwitch, name, value := ParseSwitch(arg);
      if parseSwitches && isSwitch {
        commandLine.AppendSwitchNative(name, value);
      } else {
        commandLine.AppendArgNative(arg);
      }
      i := i + 1;
    }
    AppendNoTokens(commandLine.Value(), parseSwitches);
  }

  lemma AppendNoTokens(l: Line, parseSwitches: bool)
    requires l.Valid()
    ensures l.AppendTokens([], parseSwitches) == l
  {}

  lemma AppendTokensStep(l: Line, argv: seq<string>, i: nat, parseSwitches: bool)
    requires l.Valid() && i < |argv|
    ensures var arg := Trim(argv[i]);
            var parse := parseSwitches && arg != SWITCH_TERMINATOR;
            l.AppendTokens(argv[i..], parseSwitches)
            == (if parse && IsSwitch(arg) then l.AppendSwitch(SwitchName(arg), SwitchValue(arg)) else l.AppendArg(arg))
               .AppendTokens(if i + 1 < |argv| then argv[i + 1..] else [], parse)
  {}

  class CommandLine {
    var argv: seq<string>
    var switches: map<string, string>
    var beginArgs: nat

    /** The three fields as a value. */
    function Value(): Line
      reads this
    {
      Line(argv, switches, beginArgs)
    }

    predicate Valid()
      reads this
    {
      Value().Valid()
    }

    constructor NoProgram()
      ensures Value() == Line([""], map[], 1)
    {
      argv, switches, beginArgs := [""], map[], 1;
    }

    constructor FromProgram(program: string)
      ensures Value() == Line([Trim(program)], map[], 1)
    {
      argv, switches, beginArgs := [""], map[], 1;
      new;
      SetProgram(program);
    }

    constructor FromArgv(newArgv: seq<string>)
      ensures Value() == Init(newArgv)
    {
      argv, switches, beginArgs := [""], map[], 1;
      new;
      InitFromArgv(newArgv);
    }

    constructor FromString(commandLine: string)
      ensures Value() == CommandLinePrint.FromString(commandLine)
    {
      argv, switches, beginArgs := [""], map[], 1;
      new;
      ParseFromString(commandLine);
    }

    /** Does not clear the index. */
    method InitFromArgv(newArgv: seq<string>)
      modifies this
      ensures Value() == InitOver(old(switches), newArgv)
    {
      argv, beginArgs := [""], 1;
      SetProgram(if newArgv == [] then "" else newArgv[0]);
      AppendSwitchesAndArguments(this, newArgv);
    }

    method ParseFromString(commandLine: string)
      modifies this
      ensures Value() == if Trim(commandLine) == "" then old(Value())
                         else InitOver(old(switches), ArgvW(Trim(commandLine)))
    {
      var trimmed := Trim(commandLine);
      if trimmed == "" {
        return;
      }
      InitFromArgv(ArgvW(trimmed));
    }

    method SetProgram(program: string)
      requires Valid()
      modifies this
      ensures Value() == old(Value()).SetProgram(program)
    {
      argv := argv[0 := Trim(program)];
    }

    method AppendSwitchNative(name: string, value: string)
      requires Valid()
      modifies this
      ensures Value() == old(Value()).AppendSwitch(name, value)
      ensures old(SwitchIndex.Indexed(Value())) && '=' !in name ==> SwitchIndex.Indexed(Value())
    {
      var key := Lower(name);
      var combined := key;
      var prefixLength := GetSwitchPrefixLength(combined);
      switches := switches[key[prefixLength..] := value];
      if prefixLength == 0 {
        combined := SWITCH_PREFIXES[0] + combined;
      }
      if value != "" {
        combined := combined + ("=" + value);
      }
      assert combined == SwitchEntry(name, value);
      argv := argv[..beginArgs] + [combined] + argv[beginArgs..];
      beginArgs := beginArgs + 1;
      SwitchIndex.AppendSwitchIndex(old(Value()), name, value);
    }

    method AppendArgNative(arg: string)
      requires Valid()
      modifies this
      ensures Value() == old(Value()).AppendArg(arg)
    {
      argv := argv + [arg];
    }

    /** The source may be the object itself, and then what is appended can be found later on. */
    method CopySwitchesFrom(source: CommandLine, names: seq<string>)
      requires Valid()
      modifies this
      ensures Value() == SwitchIndex.CopySwitches(old(Value()), old(From(source)), names)
      ensures source != this ==> source.Value() == old(source.Value())
    {
      for i := 0 to |names|
        invariant Valid() && From(source) == (if source == this then SwitchIndex.Itself else old(From(source)))
        invariant SwitchIndex.CopySwitches(Value(), From(source), names[i..])
               == SwitchIndex.CopySwitches(old(Value()), old(From(source)), names)
      {
        assert names[i..][1..] == names[i + 1..];
        var present := source.HasSwitch(names[i]);
        if present {
          var value := source.GetSwitchValueNative(names[i]);
          AppendSwitchNative(names[i], value);
        }
      }
    }

    function From(source: CommandLine): SwitchIndex.Source
      reads source
    {
      if source == this then SwitchIndex.Itself else SwitchIndex.Other(source.Value())
    }

    /** On the object itself the loop in here never ends if there are parameters: each step adds one. */
    method AppendArguments(other: CommandLine, includeProgram: bool)
      requires Valid() && other.Valid()
      requires other != this || |argv| == 1
      modifies this
      ensures Value() == SwitchIndex.WithArguments(old(Value()), old(other.Value()), includeProgram)
      ensures other != this ==> other.Value() == old(other.Value())
    {
      if includeProgram {
        SetProgram(other.argv[0]);
      }
      AppendSwitchesAndArguments(this, other.argv);
    }

    method HasSwitch(name: string) returns (present: bool)
      ensures present == Value().HasSwitch(name)
    {
      present := Lower(name) in switches;
    }

    method GetSwitchValueNative(name: string) returns (value: string)
      ensures value == Value().GetSwitchValue(name)
    {
      value := if Lower(name) in switches then switches[Lower(name)] else "";
    }

    /** All tokens behind the switches, less the first "--". */
    method GetArgs() returns (args: seq<string>)
      requires Valid()
      ensures args == RemoveFirst(argv[beginArgs..], SWITCH_TERMINATOR)
    {
      args := argv[beginArgs..];
      var i := 0;
      while i < |args| && args[i] != SWITCH_TERMINATOR
        invariant 0 <= i <= |args|
        invariant RemoveFirst(args, SWITCH_TERMINATOR) == args[..i] + RemoveFirst(args[i..], SWITCH_TERMINATOR)
      {
        RemoveFirstLater(args[i..], SWITCH_TERMINATOR);
        assert args[i..][1..] == args[i + 1..];
        assert args[..i] + ([args[i]] + RemoveFirst(args[i + 1..], SWITCH_TERMINATOR))
            == args[..i + 1] + RemoveFirst(args[i + 1..], SWITCH_TERMINATOR);
        i := i + 1;
      }
      if i < |args| {
        assert RemoveFirst(args[i..], SWITCH_TERMINATOR) == args[i + 1..];
        args := args[..i] + args[i + 1..];
      }
    }

    method GetArgumentsString() returns (params: string)
      requires Valid()
      ensures params == ArgumentsString(argv)
    {
      hide Shown, ShownAll, Join, IsSwitch, SwitchName, SwitchValue, Quoted;
      params := "";
      PrintNothing();
      var parseSwitches := true;
      var i := 1;
      while i < |argv|
        invariant 1 <= i <= |argv|
        invariant parseSwitches <==> SWITCH_TERMINATOR !in argv[1..i]
        invariant params == Join(ShownAll(argv[1..i], true))
      {
        var arg := argv[i];
        ghost var before := params;
        PrintStep(argv, i);
        parseSwitches := parseSwitches && arg != SWITCH_TERMINATOR;
        if i > 1 {
          params := params + " ";
        }
        var isSwitch, name, value := ParseSwitch(arg);
        if parseSwitches && isSwitch {
          params := params + name;
          if value != "" {
            value := QuoteForCommandLineToArgvW(value);
            params := params + ("=" + value);
          }
        } else {
          arg := QuoteForCommandLineToArgvW(arg);
          params := params + arg;
        }
        assert params == (if i > 1 then before + " " else before) + Shown(argv[i], parseSwitches) by {
          ShownParts(if i > 1 then before + " " else before, argv[i], parseSwitches);
        }
        i := i + 1;
      }
      assert argv[1..i] == argv[1..];
    }

    method GetCommandLineString() returns (s: string)
      requires Valid()
      ensures s == CommandLineString(argv)
    {
      s := QuoteForCommandLineToArgvW(argv[0]);
      var params := GetArgumentsString();
      if params != "" {
        s := s + " ";
        s := s + params;
      }
    }
  }
}
