/** The layout of argv_, the index switches_ keeps on it, and what re-initialising does. */
module NormalForm {
  import opened Text
  import opened CommandLineModel

  // ---------------------------------------------------------------------
  // Layout

  function SwitchEntries(tokens: seq<string>, parse: bool): seq<string> {
    NormaliseAll(SwitchTokens(tokens, parse))
  }

  lemma {:induction false} SwitchTokensAre(tokens: seq<string>, parse: bool)
    ensures forall t | t in SwitchTokens(tokens, parse) :: IsSwitch(t) && Trimmed(t)
  {
    if tokens == [] {
    } else {
      TrimIsTrimmed(tokens[0]);
      SwitchTokensAre(tokens[1..], parse && Trim(tokens[0]) != SWITCH_TERMINATOR);
    }
  }

  /** The line with entries es added behind its switches and tokens os at its end. */
  function Extended(l: Line, es: seq<string>, os: seq<string>): Line
    requires l.Valid()
  {
    Line(l.argv[..l.beginArgs] + es + l.argv[l.beginArgs..] + os,
         l.switches + ReadBack(es), l.beginArgs + |es|)
  }

  /** Switches go, in order, behind the switches there; everything else goes, in order, to the end. */
  lemma {:induction false} Layout(l: Line, tokens: seq<string>, parse: bool)
    requires l.Valid()
    ensures l.AppendTokens(tokens, parse) == Extended(l, SwitchEntries(tokens, parse), OtherTokens(tokens, parse))
    decreases |tokens|
  {
    hide Extended, SwitchEntries, OtherTokens, Line.AppendTokens, Line.AppendSwitch, Line.AppendArg,
         Normalised, IsSwitch, Trim;
    Step(l, tokens, parse);
    if tokens == [] {
      ExtendedByNothing(l);
    } else {
      var arg := Trim(tokens[0]);
      var on := parse && arg != SWITCH_TERMINATOR;
      var es := SwitchEntries(tokens[1..], on);
      var os := OtherTokens(tokens[1..], on);
      if on && IsSwitch(arg) {
        Layout(l.AppendSwitch(SwitchName(arg), SwitchValue(arg)), tokens[1..], on);
        ExtendedSwitch(l, arg, es, os);
      } else {
        Layout(l.AppendArg(arg), tokens[1..], on);
        ExtendedArg(l, arg, es, os);
      }
    }
  }

  /** One round of the parsing loop. */
  lemma Step(l: Line, tokens: seq<string>, parse: bool)
    requires l.Valid()
    ensures tokens == [] ==>
              && l.AppendTokens(tokens, parse) == l
              && SwitchEntries(tokens, parse) == [] && OtherTokens(tokens, parse) == []
    ensures tokens != [] ==>
              var arg := Trim(tokens[0]);
              var on := parse && arg != SWITCH_TERMINATOR;
              var es := SwitchEntries(tokens[1..], on);
              var os := OtherTokens(tokens[1..], on);
              && l.AppendTokens(tokens, parse)
              == (if on && IsSwitch(arg) then l.AppendSwitch(SwitchName(arg), SwitchValue(arg)) else l.AppendArg(arg))
                 .AppendTokens(tokens[1..], on)
              && SwitchEntries(tokens, parse) == (if on && IsSwitch(arg) then [Normalised(arg)] + es else es)
              && OtherTokens(tokens, parse) == (if on && IsSwitch(arg) then os else [arg] + os)
  {}

  lemma ExtendedByNothing(l: Line)
    requires l.Valid()
    ensures Extended(l, [], []) == l
  {}

  lemma ExtendedSwitch(l: Line, arg: string, es: seq<string>, os: seq<string>)
    requires l.Valid()
    ensures Extended(l.AppendSwitch(SwitchName(arg), SwitchValue(arg)), es, os)
         == Extended(l, [Normalised(arg)] + es, os)
  {
    hide SwitchEntry, SwitchName, SwitchValue, ReadBack;
    var e := Normalised(arg);
    var l1 := l.AppendSwitch(SwitchName(arg), SwitchValue(arg));
    Splice(l.argv, l.beginArgs, e);
    Regroup(l.argv[..l.beginArgs], e, es);
    ReadBackOne(arg);
    ReadBackConcat([e], es);
    MapAssociative(l.switches, ReadBack([e]), ReadBack(es));
  }

  lemma Splice(s: seq<string>, i: nat, e: string)
    requires i <= |s|
    ensures (s[..i] + [e] + s[i..])[..i + 1] == s[..i] + [e]
    ensures (s[..i] + [e] + s[i..])[i + 1..] == s[i..]
  {}

  lemma Regroup(a: seq<string>, e: string, b: seq<string>)
    ensures a + [e] + b == a + ([e] + b)
  {}

  lemma ExtendedArg(l: Line, arg: string, es: seq<string>, os: seq<string>)
    requires l.Valid()
    ensures Extended(l.AppendArg(arg), es, os) == Extended(l, es, [arg] + os)
  {}

  lemma ReadBackOne(arg: string)
    ensures ReadBack([Normalised(arg)]) == map[SwitchKey(SwitchName(arg)) := SwitchValue(arg)]
  {
    EntryParts(SwitchName(arg), SwitchValue(arg));
    assert [Normalised(arg)][1..] == [];
  }

  lemma TrimEmpty()
    ensures Trim("") == ""
  {}

  function Program(argv: seq<string>): string { if argv == [] then "" else Trim(argv[0]) }

  /**
   * The normal form: the trimmed program, then the normalised switches and then
   * all other tokens, each in input order; the index is that of the switches.
   */
  lemma InitNormalForm(switches: map<string, string>, argv: seq<string>)
    ensures InitOver(switches, argv)
         == (var es := SwitchEntries(Params(argv), true);
             Line([Program(argv)] + es + OtherTokens(Params(argv), true), switches + ReadBack(es), 1 + |es|))
  {
    hide ReadBack, SwitchEntries, OtherTokens, Line.AppendTokens, Trim;
    var l := Line([""], switches, 1).SetProgram(if argv == [] then "" else argv[0]);
    TrimEmpty();
    assert l.argv == [Program(argv)];
    Layout(l, Params(argv), true);
    assert l.argv[..1] == l.argv && l.argv[1..] == [];
  }

  /** Behind two dashes there are no switches, whatever came before. */
  lemma {:induction false} TerminatorEndsSwitches(a: seq<string>, b: seq<string>, parse: bool)
    ensures SwitchTokens(a + ["--"] + b, parse) == SwitchTokens(a, parse)
    ensures OtherTokens(a + ["--"] + b, parse) == OtherTokens(a, parse) + ["--"] + OtherTokens(b, false)
    decreases |a|
  {
    hide Trim, IsSwitch;
    var all := a + ["--"] + b;
    if a == [] {
      assert all[0] == "--" && all[1..] == b;
      TwoDashes();
      NoneWhenOff(b);
    } else {
      assert all[0] == a[0] && all[1..] == a[1..] + ["--"] + b;
      TerminatorEndsSwitches(a[1..], b, parse && Trim(a[0]) != SWITCH_TERMINATOR);
    }
  }

  lemma TwoDashes()
    ensures Trim("--") == "--" && SWITCH_TERMINATOR == "--"
  {
    assert Trimmed("--");
    TrimFixesTrimmed("--");
  }

  /** And without them every trimmed token that looks like a switch is one. */
  lemma {:induction false} SwitchesWithoutTerminator(tokens: seq<string>, t: string)
    requires forall s <- tokens :: Trim(s) != "--"
    ensures t in SwitchTokens(tokens, true) <==> exists s :: s in tokens && Trim(s) == t && IsSwitch(t)
    ensures t in OtherTokens(tokens, true) <==> exists s :: s in tokens && Trim(s) == t && !IsSwitch(t)
  {
    hide Trim, IsSwitch;
    if tokens == [] {
    } else {
      assert forall s :: s in tokens <==> s == tokens[0] || s in tokens[1..];
      SwitchesWithoutTerminator(tokens[1..], t);
    }
  }

  // ---------------------------------------------------------------------
  // Re-initialising

  /** A switch without value has a name that is more than its prefix and does not end in whitespace. */
  predicate WellNamed(t: string) {
    SwitchValue(t) == "" ==>
      var name := SwitchName(t);
      PrefixLength(t) < |name| && !IsWhitespace(name[|name| - 1])
  }

  predicate Stable(e: string) { IsSwitch(e) && Trimmed(e) && Normalised(e) == e }

  lemma LowerPrefix(s: string)
    ensures PrefixLength(Lower(s)) == PrefixLength(s)
  {}

  lemma LowerWhitespace(c: char)
    ensures IsWhitespace(LowerChar(c)) <==> IsWhitespace(c)
  {}

  /** The stored form of a switch token, spelled out. */
  lemma NormalisedParts(t: string)
    requires IsSwitch(t) && Trimmed(t)
    ensures var e := Normalised(t);
            && e == Lower(SwitchName(t)) + (if SwitchValue(t) == "" then "" else "=" + SwitchValue(t))
            && |e| <= |t| && Normalised(e) == e && PrefixLength(e) != 0
            && PrefixLength(e) == PrefixLength(t)
            && e != "" && !IsWhitespace(e[0])
  {
    var name := SwitchName(t);
    PrefixBeforeEquals(t);
    LowerPrefix(name);
    LowerWhitespace(name[0]);
    EntryParts(name, SwitchValue(t));
  }

  lemma PrefixBeforeEquals(t: string)
    ensures PrefixLength(t) <= |SwitchName(t)| && PrefixLength(SwitchName(t)) == PrefixLength(t)
    ensures forall u: string :: PrefixLength(SwitchName(t) + u) >= PrefixLength(t)
  {}

  lemma EntriesAre(tokens: seq<string>, parse: bool)
    ensures forall e | e in SwitchEntries(tokens, parse) ::
              Normalised(e) == e && PrefixLength(e) != 0 && !IsWhitespace(e[0])
  {
    hide Normalised, SwitchTokens, PrefixLength, IsWhitespace, IsSwitch, Trimmed;
    SwitchTokensAre(tokens, parse);
    var ts := SwitchTokens(tokens, parse);
    forall i | 0 <= i < |ts|
      ensures var e := Normalised(ts[i]); Normalised(e) == e && PrefixLength(e) != 0 && !IsWhitespace(e[0])
    {
      assert ts[i] in ts;
      NormalisedParts(ts[i]);
    }
  }

  /** A stored switch survives trimming and re-parsing exactly when its token was well named. */
  lemma StableEntry(t: string)
    requires IsSwitch(t) && Trimmed(t)
    ensures IsSwitch(Normalised(t)) && Trimmed(Normalised(t)) <==> WellNamed(t)
  {}

  /** Tokens that were stored as arguments are stored as arguments again. */
  lemma {:induction false} OthersStay(tokens: seq<string>, parse: bool)
    ensures SwitchTokens(OtherTokens(tokens, parse), parse) == []
    ensures OtherTokens(OtherTokens(tokens, parse), parse) == OtherTokens(tokens, parse)
  {
    hide IsSwitch, Trim;
    if tokens == [] {
    } else {
      var arg := Trim(tokens[0]);
      TrimIdempotent(tokens[0]);
      var on := parse && arg != SWITCH_TERMINATOR;
      OthersStay(tokens[1..], on);
      if on && IsSwitch(arg) {
        assert OtherTokens(tokens, parse) == OtherTokens(tokens[1..], on);
      } else {
        var os := OtherTokens(tokens[1..], on);
        assert OtherTokens(tokens, parse) == [arg] + os;
        assert ([arg] + os)[1..] == os;
      }
    }
  }

  lemma TerminatorIsNoSwitch(s: string)
    requires IsSwitch(s)
    ensures s != SWITCH_TERMINATOR
  {}

  lemma StableHead(e: string, rest: seq<string>)
    requires Stable(e)
    ensures SwitchEntries([e] + rest, true) == [e] + SwitchEntries(rest, true)
    ensures OtherTokens([e] + rest, true) == OtherTokens(rest, true)
  {
    hide Trim, Normalised, IsSwitch, Trimmed;
    assert ([e] + rest)[1..] == rest;
    TrimFixesTrimmed(e);
    TerminatorIsNoSwitch(e);
    assert SwitchTokens([e] + rest, true) == [e] + SwitchTokens(rest, true);
  }

  lemma {:induction false} StableStay(es: seq<string>, os: seq<string>)
    requires forall e | e in es :: Stable(e)
    ensures SwitchEntries(es + os, true) == es + SwitchEntries(os, true)
    ensures OtherTokens(es + os, true) == OtherTokens(os, true)
  {
    hide SwitchEntries, OtherTokens, Stable;
    if es == [] {
      assert es + os == os;
    } else {
      assert es + os == [es[0]] + (es[1..] + os);
      assert es[0] in es && forall e | e in es[1..] :: e in es;
      StableHead(es[0], es[1..] + os);
      StableStay(es[1..], os);
    }
  }

  /** Re-parsing stored switches gives no more of them than there were ... */
  lemma {:induction false} FewerEntries(es: seq<string>, os: seq<string>, parse: bool)
    requires SwitchTokens(os, true) == []
    ensures |SwitchEntries(es + os, parse)| <= |es|
  {
    hide Trim, IsSwitch, Normalised;
    if !parse {
      NoneWhenOff(es + os);
    } else if es == [] {
      assert es + os == os;
    } else {
      assert (es + os)[1..] == es[1..] + os;
      FewerEntries(es[1..], os, parse && Trim(es[0]) != SWITCH_TERMINATOR);
    }
  }

  lemma {:induction false} NoneWhenOff(tokens: seq<string>)
    ensures SwitchTokens(tokens, false) == []
  {
    if tokens == [] {
    } else {
      NoneWhenOff(tokens[1..]);
    }
  }

  lemma TrimShortens(s: string)
    ensures |Trim(s)| <= |s| && (|Trim(s)| == |s| ==> Trim(s) == s)
  {}

  /** ... and gives the same ones only if each of them is stable. */
  lemma {:induction false} OnlyStableStay(es: seq<string>, os: seq<string>)
    requires SwitchTokens(os, true) == []
    requires forall e | e in es :: Normalised(e) == e
    requires SwitchEntries(es + os, true) == es
    ensures forall e | e in es :: Stable(e)
  {
    hide Normalised, IsSwitch, Trim, Trimmed, PrefixLength;
    if es == [] {
    } else {
      var arg := Trim(es[0]);
      assert es[0] in es;
      assert (es + os)[1..] == es[1..] + os;
      FewerEntries(es[1..], os, arg != SWITCH_TERMINATOR);
      TrimIsTrimmed(es[0]);
      if arg == SWITCH_TERMINATOR || !IsSwitch(arg) {
        assert false;
      }
      assert SwitchTokens(es + os, true) == [arg] + SwitchTokens(es[1..] + os, true);
      assert SwitchEntries(es + os, true) == [Normalised(arg)] + SwitchEntries(es[1..] + os, true);
      NormalisedParts(arg);
      TrimShortens(es[0]);
      OnlyStableStay(es[1..], os);
    }
  }

  /** For every input, re-initialising from argv_ changes nothing iff every switch is well named. */
  lemma ReinitIdempotent(argv: seq<string>)
    ensures Init(Init(argv).argv) == Init(argv)
       <==> forall t | t in SwitchTokens(Params(argv), true) :: WellNamed(t)
  {
    hide Init, SwitchTokens, OtherTokens, WellNamed, Trim, Normalised, IsSwitch, Trimmed, ReadBack, Stable;
    var ts := SwitchTokens(Params(argv), true);
    var es := SwitchEntries(Params(argv), true);
    var os := OtherTokens(Params(argv), true);
    InitParts(argv);
    ReinitParts(argv);
    OthersStay(Params(argv), true);
    assert (forall t | t in ts :: WellNamed(t)) <==> (forall e | e in es :: Stable(e)) by {
      EntriesStable(Params(argv));
    }
    EntriesAre(Params(argv), true);
    if forall e | e in es :: Stable(e) {
      StableStay(es, os);
      assert SwitchEntries(os, true) == [];
      assert es + [] == es;
    } else if SwitchEntries(es + os, true) == es {
      OnlyStableStay(es, os);
      assert false;
    }
  }

  lemma InitParts(argv: seq<string>)
    ensures var es := SwitchEntries(Params(argv), true);
            && Init(argv).argv == [Program(argv)] + es + OtherTokens(Params(argv), true)
            && Init(argv).Entries() == es && Init(argv).beginArgs == 1 + |es|
            && Init(argv).switches == ReadBack(es)
  {
    hide SwitchEntries, OtherTokens, ReadBack;
    InitNormalForm(map[], argv);
    assert map[] + ReadBack(SwitchEntries(Params(argv), true)) == ReadBack(SwitchEntries(Params(argv), true));
  }

  lemma ReinitParts(argv: seq<string>)
    ensures var es := SwitchEntries(Params(argv), true);
            var os := OtherTokens(Params(argv), true);
            && Init(Init(argv).argv).argv == [Program(argv)] + SwitchEntries(es + os, true) + OtherTokens(es + os, true)
            && Init(Init(argv).argv).Entries() == SwitchEntries(es + os, true)
            && Init(Init(argv).argv).beginArgs == 1 + |SwitchEntries(es + os, true)|
            && Init(Init(argv).argv).switches == ReadBack(SwitchEntries(es + os, true))
  {
    hide SwitchEntries, OtherTokens, ReadBack, Init, Trim;
    InitParts(argv);
    InitParts(Init(argv).argv);
    var again := Init(argv).argv;
    assert Params(again) == SwitchEntries(Params(argv), true) + OtherTokens(Params(argv), true);
    ProgramTrimmed(argv);
    assert Program(again) == Trim(Program(argv));
  }

  lemma ProgramTrimmed(argv: seq<string>)
    ensures Trimmed(Program(argv)) && Trim(Program(argv)) == Program(argv)
  {}

  lemma EntriesStable(tokens: seq<string>)
    ensures (forall t | t in SwitchTokens(tokens, true) :: WellNamed(t))
       <==> (forall e | e in SwitchEntries(tokens, true) :: Stable(e))
  {
    hide SwitchTokens, WellNamed, Normalised, IsSwitch, Trimmed;
    var ts := SwitchTokens(tokens, true);
    var es := SwitchEntries(tokens, true);
    SwitchTokensAre(tokens, true);
    EntriesAre(tokens, true);
    forall i | 0 <= i < |ts|
      ensures ts[i] in ts && es[i] in es && (WellNamed(ts[i]) <==> Stable(es[i]))
    {
      assert ts[i] in ts && es[i] in es;
      StableEntry(ts[i]);
    }
    if forall t | t in ts :: WellNamed(t) {
      forall e | e in es ensures Stable(e) {
        var i :| 0 <= i < |es| && es[i] == e;
        assert WellNamed(ts[i]);
      }
    }
  }

  /** "--=" is stored as the bare terminator, which is no switch when it is read again. */
  lemma BareTerminatorIsLost()
    ensures Init(Init(["a", "--="]).argv) != Init(["a", "--="])
  {
    hide Init;
    var t := "--=";
    assert Params(["a", t]) == [t];
    BareTerminator(t);
    ReinitIdempotent(["a", t]);
  }

  lemma BareTerminator(t: string)
    requires t == "--="
    ensures t in SwitchTokens([t], true) && !WellNamed(t)
  {
    hide Trim;
    assert Trimmed(t);
    TrimFixesTrimmed(t);
    FindEqualsIs(t, 2);
    assert SwitchName(t) == "--" && SwitchValue(t) == "";
  }

  /** What GetArgs starts from, right after construction: all tokens that are no switches. */
  lemma InitArgs(argv: seq<string>)
    ensures Init(argv).argv[Init(argv).beginArgs..] == OtherTokens(Params(argv), true)
  {
    hide SwitchEntries, OtherTokens, Init, ReadBack, Program;
    InitParts(argv);
  }
}
