/**
 * Reference counts on an atomic cell, used in the conventional way: a thread
 * changes the count only while it holds references, gives up no more than it
 * holds, and may hand references over to other threads.
 */
module RefCounts {
  import opened Totals
  import opened Atomics

  /** held[t] is how many references thread t holds; born says whether the first reference has been taken. */
  datatype World = World(s: State, held: seq<nat>, born: bool)

  datatype Act = Atomic(a: Action) | HandOver(from: nat, to: nat, n: nat)

  /** AtomicRefCountIncN, AtomicRefCountDecN and AtomicRefCountIsOne. */
  predicate Taking(op: Op) { op.Increment? && op.amount > 0 }
  predicate Releases(op: Op) { op.Increment? && op.amount < 0 }

  function HeldBy(n: nat): int { n }

  /** What a pending release has given up but not yet taken off the count. */
  function Releasing(pc: Pc): int { if !pc.Idle? && Releases(pc.op) then -pc.op.amount else 0 }

  /** And what a pending call has yet to put on it. */
  function Acquiring(pc: Pc): int { if !pc.Idle? && Taking(pc.op) then pc.op.amount else 0 }

  /** The references that exist: held, or being released. */
  function References(w: World): int { Total(HeldBy, w.held) + Total(Releasing, w.s.threads) }

  /** The same with those that are about to exist. */
  function InUse(w: World): int { References(w) + Total(Acquiring, w.s.threads) }

  predicate Enabled(w: World, act: Act) {
    match act
    case Atomic(Step(t)) => Atomics.Enabled(w.s, act.a)
    case Atomic(Call(t, op)) =>
      && Atomics.Enabled(w.s, act.a) && t < |w.held|
      && if Taking(op) then w.held[t] > 0 || !w.born
         else if Releases(op) then -op.amount <= w.held[t]
         else op.Load? && w.held[t] > 0
    case HandOver(from, to, n) =>
      && from < |w.held| && to < |w.held| && from != to && from < |w.s.threads|
      && w.s.threads[from].Idle? && 0 < n <= w.held[from]
  }

  /** The count is 32 bits wide: no call goes beyond what it can tell apart. */
  predicate Roomy(w: World, act: Act) {
    act.Atomic? && act.a.Call? && Taking(act.a.op) ==> InUse(w) + act.a.op.amount < WORDS
  }

  function Change(held: seq<nat>, t: nat, n: int): (r: seq<nat>)
    requires t < |held| && held[t] + n >= 0
    ensures |r| == |held|
  {
    held[t := held[t] + n]
  }

  /** A release gives up its references when it is called; an increment has them when it returns. */
  function Do(w: World, act: Act): (r: World)
    requires Enabled(w, act) && |w.held| == |w.s.threads|
    ensures |r.held| == |r.s.threads| == |w.held|
  {
    match act
    case Atomic(Call(t, op)) =>
      World(Atomics.Do(w.s, act.a), if Releases(op) then Change(w.held, t, op.amount) else w.held, true)
    case Atomic(Step(t)) =>
      var op, r := w.s.threads[t].op, DoStep(w.s, t);
      World(r, if r.threads[t].Idle? && Taking(op) then Change(w.held, t, op.amount) else w.held, w.born)
    case HandOver(from, to, n) =>
      w.(held := w.held[from := w.held[from] - n][to := w.held[to] + n])
  }

  // ---------------------------------------------------------------------
  // The count is the number of references

  /** Whoever increments or looks at the count holds a reference, or takes the first one. */
  predicate Conducted(w: World, t: nat)
    requires t < |w.s.threads| == |w.held|
  {
    var pc := w.s.threads[t];
    !pc.Idle? ==> Releases(pc.op) || ((Taking(pc.op) || pc.op.Load?) && (w.held[t] > 0 || w.s.log == []))
  }

  /** Until something has taken effect there is nothing to hold, and only one call, the first increment. */
  predicate Opening(w: World) {
    && Total(HeldBy, w.held) == 0
    && (forall t :: 0 <= t < |w.s.threads| && !w.s.threads[t].Idle? ==> w.born && Taking(w.s.threads[t].op))
    && (forall t, u ::
          0 <= t < |w.s.threads| && 0 <= u < |w.s.threads| && !w.s.threads[t].Idle? && !w.s.threads[u].Idle? ==> t == u)
  }

  predicate Valid(w: World) {
    && Atomics.Valid(0, w.s) && |w.held| == |w.s.threads|
    && w.s.cell == Wrap(References(w))
    && (forall t :: 0 <= t < |w.held| ==> Conducted(w, t))
    && (w.s.log == [] ==> Opening(w))
    && (!w.born ==> w.s.log == [])
  }

  /** An action that lets an operation take effect. */
  predicate Effective(w: World, act: Act)
    requires Enabled(w, act)
  {
    act.Atomic? && act.a.Step? && DoStep(w.s, act.a.t).threads[act.a.t].Idle?
  }

  function Effect(w: World, act: Act): int
    requires Enabled(w, act)
  {
    if Effective(w, act) then Delta(w.s.threads[act.a.t].op) else 0
  }

  lemma NotHeld(w: World, t: nat)
    requires Total(HeldBy, w.held) == 0 && t < |w.held|
    ensures w.held[t] == 0
  {
    TotalAtLeast(HeldBy, w.held, t);
  }

  /** What an action does to the number of references, to that of references in use, and to the count. */
  lemma Counts(w: World, act: Act)
    requires Atomics.Valid(0, w.s) && |w.held| == |w.s.threads| && Enabled(w, act)
    requires Effective(w, act) ==> w.s.threads[act.a.t].op.Increment? || w.s.threads[act.a.t].op.Load?
    ensures var r := Do(w, act);
            && References(r) == References(w) + Effect(w, act)
            && InUse(r) == InUse(w)
               + (if act.Atomic? && act.a.Call? && Taking(act.a.op) then act.a.op.amount else 0)
               + (if Effect(w, act) < 0 then Effect(w, act) else 0)
            && (w.s.cell == Wrap(References(w)) ==> r.s.cell == Wrap(References(r)))
  {
    hide Total, Atomics.Valid, DoStep, Result, Wrap, PcValid;
    var r := Do(w, act);
    match act
    case HandOver(from, to, n) =>
      var left: nat, more: nat := w.held[from] - n, w.held[to] + n;
      TotalUpdate(HeldBy, w.held, from, left);
      TotalUpdate(HeldBy, w.held[from := left], to, more);
    case Atomic(a) =>
      TotalUpdate(Releasing, w.s.threads, a.t, r.s.threads[a.t]);
      TotalUpdate(Acquiring, w.s.threads, a.t, r.s.threads[a.t]);
      TotalUpdate(HeldBy, w.held, a.t, r.held[a.t]);
      if a.Step? {
        StepOutcome(0, w.s, a.t);
        WrapAdd(References(w), Effect(w, act));
      }
  }

  lemma StepConducted(w: World, act: Act)
    requires Valid(w) && Enabled(w, act)
    ensures var r := Do(w, act); forall t :: 0 <= t < |r.held| ==> |r.s.threads| == |r.held| && Conducted(r, t)
  {
    hide Atomics.Valid, References, Total, Wrap, DoStep, PcValid, Result, NewCell;
    var r := Do(w, act);
    if act.Atomic? && act.a.Step? {
      assert Conducted(w, act.a.t);
      StepOutcome(0, w.s, act.a.t);
    }
    if act.Atomic? && act.a.Call? && w.s.log == [] {
      NotHeld(w, act.a.t);
    }
    forall t | 0 <= t < |r.held| ensures Conducted(r, t) {
      assert Conducted(w, t);
    }
  }

  lemma StepOpening(w: World, act: Act)
    requires Valid(w) && Enabled(w, act) && Do(w, act).s.log == []
    ensures Opening(Do(w, act))
  {
    hide Atomics.Valid, References, Total, Wrap, DoStep, PcValid, Result, NewCell;
    match act
    case HandOver(from, _, _) => NotHeld(w, from);
    case Atomic(a) =>
      if a.Step? {
        StepOutcome(0, w.s, a.t);
      } else {
        NotHeld(w, a.t);
      }
  }

  /** Every action keeps the count equal to the references, and nobody without one touches it. */
  lemma StepValid(w: World, act: Act)
    requires Valid(w) && Enabled(w, act)
    ensures Valid(Do(w, act))
  {
    hide Atomics.Valid, References, Total, Wrap, DoStep, PcValid, Result, NewCell;
    var r := Do(w, act);
    if act.Atomic? {
      assert Conducted(w, act.a.t);
      Atomics.StepValid(0, w.s, act.a);
      if act.a.Step? {
        StepOutcome(0, w.s, act.a.t);
      }
    }
    Counts(w, act);
    StepConducted(w, act);
    if r.s.log == [] {
      StepOpening(w, act);
    }
  }

  ghost predicate RunEnabled(w: World, acts: seq<Act>)
    requires |w.held| == |w.s.threads|
    decreases |acts|
  {
    acts != [] ==> Enabled(w, acts[0]) && RunEnabled(Do(w, acts[0]), acts[1..])
  }

  ghost function Run(w: World, acts: seq<Act>): World
    requires |w.held| == |w.s.threads| && RunEnabled(w, acts)
    decreases |acts|
  {
    if acts == [] then w else Run(Do(w, acts[0]), acts[1..])
  }

  /** No call of the run goes beyond what the count can tell apart. */
  ghost predicate RunRoomy(w: World, acts: seq<Act>)
    requires |w.held| == |w.s.threads| && RunEnabled(w, acts)
    decreases |acts|
  {
    acts != [] ==> Roomy(w, acts[0]) && RunRoomy(Do(w, acts[0]), acts[1..])
  }

  lemma {:induction false} RunValid(w: World, acts: seq<Act>)
    requires Valid(w) && RunEnabled(w, acts)
    ensures Valid(Run(w, acts))
    decreases |acts|
  {
    hide Atomics.Valid, Conducted, Opening, References, Do, Enabled;
    if acts == [] {
    } else {
      StepValid(w, acts[0]);
      RunValid(Do(w, acts[0]), acts[1..]);
    }
  }

  function Start(threads: nat): World { World(Atomics.Start(0, threads), seq(threads, _ => 0), false) }

  lemma StartValid(threads: nat)
    ensures Valid(Start(threads)) && Settled(Start(threads))
  {
    hide Total;
    var w := Start(threads);
    TotalZero(HeldBy, w.held);
    TotalZero(Releasing, w.s.threads);
    TotalZero(Acquiring, w.s.threads);
  }

  /**
   * Over every interleaving the count is, modulo 2^32, the number of references
   * that threads hold or are giving up, hand-overs included.
   */
  lemma CountIsReferences(threads: nat, acts: seq<Act>)
    requires RunEnabled(Start(threads), acts)
    ensures var w := Run(Start(threads), acts); w.s.cell == Wrap(References(w))
  {
    hide RunEnabled, Run, References, Atomics.Valid;
    StartValid(threads);
    RunValid(Start(threads), acts);
  }

  /** Whether there is room or not: a change returns 0 exactly when it leaves a multiple of 2^32 references. */
  lemma ZeroResult(w: World, t: nat)
    requires Valid(w) && Enabled(w, Atomic(Step(t))) && Effective(w, Atomic(Step(t))) && w.s.threads[t].op.Increment?
    ensures var r := Do(w, Atomic(Step(t)));
            && |r.s.log| == |w.s.log| + 1
            && (r.s.log[|w.s.log|].result == 0 <==> References(r) % WORDS == 0)
  {
    hide Atomics.Valid, References, Wrap, DoStep, PcValid, Conducted, Opening;
    StepOutcome(0, w.s, t);
    Counts(w, Atomic(Step(t)));
  }

  // ---------------------------------------------------------------------
  // The last release

  /** Only the last thing to take effect can have found the count 0: a release that left no reference. */
  predicate Settled(w: World) {
    && InUse(w) < WORDS
    && forall k :: 0 <= k < |w.s.log| ==>
         (w.s.log[k].result == 0 <==> k == |w.s.log| - 1 && References(w) == 0)
         && (w.s.log[k].result == 0 ==> Releases(w.s.log[k].op))
  }

  lemma Bounds(w: World)
    ensures 0 <= References(w) <= InUse(w)
  {
    hide Total;
    TotalNonNegative(HeldBy, w.held);
    TotalNonNegative(Releasing, w.s.threads);
    TotalNonNegative(Acquiring, w.s.threads);
  }

  /** A thread inside a call vouches for a reference, the very first call aside. */
  lemma CallerHolds(w: World, t: nat)
    requires Valid(w) && t < |w.held| && !w.s.threads[t].Idle? && w.s.log != []
    ensures References(w) > 0
  {
    hide Atomics.Valid, Total, Wrap;
    assert Conducted(w, t);
    TotalAtLeast(HeldBy, w.held, t);
    TotalAtLeast(Releasing, w.s.threads, t);
    TotalNonNegative(HeldBy, w.held);
    TotalNonNegative(Releasing, w.s.threads);
  }

  lemma StepSettled(w: World, act: Act)
    requires Valid(w) && Settled(w) && Enabled(w, act) && Roomy(w, act)
    ensures Settled(Do(w, act))
  {
    hide Atomics.Valid, References, InUse, Total, Wrap, DoStep, PcValid;
    var r := Do(w, act);
    if act.Atomic? && act.a.Step? {
      assert Conducted(w, act.a.t);
      StepOutcome(0, w.s, act.a.t);
    }
    Counts(w, act);
    Bounds(w);
    Bounds(r);
    if Effective(w, act) {
      if w.s.log != [] {
        CallerHolds(w, act.a.t);
      }
    }
  }

  lemma {:induction false} RunSettled(w: World, acts: seq<Act>)
    requires Valid(w) && Settled(w) && RunEnabled(w, acts) && RunRoomy(w, acts)
    ensures Settled(Run(w, acts))
    decreases |acts|
  {
    hide Atomics.Valid, Conducted, Opening, References, Settled, Do, Enabled, Roomy;
    if acts == [] {
    } else {
      StepValid(w, acts[0]);
      StepSettled(w, acts[0]);
      RunSettled(Do(w, acts[0]), acts[1..]);
    }
  }

  /** AtomicRefCountDecN: whether the count is still non-zero. */
  function DecResult(e: Event): bool { e.result != 0 }

  /**
   * Over every run in which the count has room: as long as there are
   * references, no decrement has returned false; once there are none, just one
   * has, the last operation to take effect; and nobody can touch the count
   * any more.
   */
  lemma LastReleaseSeesZero(threads: nat, acts: seq<Act>)
    requires RunEnabled(Start(threads), acts) && RunRoomy(Start(threads), acts)
    ensures var w := Run(Start(threads), acts);
            && (forall k :: 0 <= k < |w.s.log| && References(w) > 0 ==> DecResult(w.s.log[k]))
            && (w.s.log != [] && References(w) == 0 ==>
                  && (forall k :: 0 <= k < |w.s.log| ==> (DecResult(w.s.log[k]) <==> k != |w.s.log| - 1))
                  && Releases(w.s.log[|w.s.log| - 1].op)
                  && forall act :: !Enabled(w, act))
  {
    hide Valid, Settled, RunEnabled, RunRoomy, Run, References, Enabled;
    StartValid(threads);
    RunValid(Start(threads), acts);
    RunSettled(Start(threads), acts);
    var w := Run(Start(threads), acts);
    LogOf(w);
    if w.s.log != [] && References(w) == 0 {
      forall act ensures !Enabled(w, act) {
        NobodyLeft(w, act);
      }
    }
  }

  lemma LogOf(w: World)
    requires Settled(w)
    ensures forall k :: 0 <= k < |w.s.log| ==>
              (DecResult(w.s.log[k]) <==> !(k == |w.s.log| - 1 && References(w) == 0))
              && (!DecResult(w.s.log[k]) ==> Releases(w.s.log[k].op))
  {}

  lemma NobodyLeft(w: World, act: Act)
    requires Valid(w) && w.s.log != [] && References(w) == 0
    ensures !Enabled(w, act)
  {
    hide Atomics.Valid, Total;
    TotalNonNegative(HeldBy, w.held);
    TotalNonNegative(Releasing, w.s.threads);
    match act
    case HandOver(from, _, _) =>
      if from < |w.held| {
        NotHeld(w, from);
      }
    case Atomic(a) =>
      if a.t < |w.held| {
        NotHeld(w, a.t);
        if !w.s.threads[a.t].Idle? {
          CallerHolds(w, a.t);
        }
      }
  }

  /** AtomicRefCountIsOne: whoever sees a count of 1 holds the only reference. */
  lemma OneMeansSole(w: World, t: nat)
    requires Valid(w) && Settled(w) && Enabled(w, Atomic(Step(t))) && w.s.threads[t].op == Load
    ensures var log := DoStep(w.s, t).log;
            && |log| == |w.s.log| + 1
            && (log[|w.s.log|].result == 1 <==> References(w) == 1)
            && (log[|w.s.log|].result == 1 ==>
                  w.held[t] == 1 && forall u :: 0 <= u < |w.held| && u != t ==>
                    w.held[u] == 0 && Releasing(w.s.threads[u]) == 0)
  {
    hide Total, Wrap;
    assert Conducted(w, t);
    Bounds(w);
    TotalNonNegative(Releasing, w.s.threads);
    forall u | 0 <= u < |w.held| && u != t
      ensures References(w) >= w.held[t] + w.held[u] + Releasing(w.s.threads[u])
    {
      TotalUpdate(HeldBy, w.held, t, 0);
      TotalAtLeast(HeldBy, w.held[t := 0], u);
      TotalAtLeast(Releasing, w.s.threads, u);
    }
    TotalAtLeast(HeldBy, w.held, t);
  }

  // ---------------------------------------------------------------------
  // Without room

  lemma {:induction false} RunThen(w: World, a: seq<Act>, b: seq<Act>)
    requires |w.held| == |w.s.threads| && RunEnabled(w, a)
    requires var m := Run(w, a); |m.held| == |m.s.threads| && RunEnabled(m, b)
    ensures RunEnabled(w, a + b) && Run(w, a + b) == Run(Run(w, a), b)
    decreases |a|
  {
    hide Do, Enabled;
    if a == [] {
      assert a + b == b;
    } else {
      assert (a + b)[1..] == a[1..] + b;
      RunThen(Do(w, a[0]), a[1..], b);
    }
  }

  /** A single thread that holds all references, between two calls. */
  function Lone(held: nat, log: seq<Event>, born: bool): World {
    World(State(Wrap(held), [Idle], log), [held], born)
  }

  /** One change of the count by that thread, from the call to the return. */
  function Alone(n: int): seq<Act> {
    [Atomic(Call(0, Increment(n))), Atomic(Step(0)), Atomic(Step(0))]
  }

  lemma AloneRuns(held: nat, log: seq<Event>, born: bool, n: int)
    requires n != 0 && held + n >= 0 && (n > 0 ==> held > 0 || !born)
    ensures var w := Lone(held, log, born);
            RunEnabled(w, Alone(n))
            && Run(w, Alone(n)) == Lone(held + n, log + [Event(0, Increment(n), Wrap(held + n))], true)
  {
    hide Wrap;
    var op, acts := Increment(n), Alone(n);
    var left := if n < 0 then held + n else held;
    var w := Lone(held, log, born);
    var w1 := World(State(Wrap(held), [Loading(op)], log), [left], true);
    var w2 := World(State(Wrap(held), [Swapping(op, Wrap(held), |log|)], log), [left], true);
    var w3 := Lone(held + n, log + [Event(0, op, Wrap(held + n))], true);
    WrapAdd(held, n);
    assert Enabled(w, acts[0]) && Do(w, acts[0]) == w1;
    assert Enabled(w1, acts[1]) && Do(w1, acts[1]) == w2;
    assert Enabled(w2, acts[2]) && Do(w2, acts[2]) == w3;
    hide Enabled, Do;
    assert acts[1..][0] == acts[1] && acts[1..][1..][0] == acts[2] && acts[1..][1..][1..] == [];
    assert RunEnabled(w2, acts[1..][1..]) && Run(w2, acts[1..][1..]) == w3;
    assert RunEnabled(w1, acts[1..]) && Run(w1, acts[1..]) == w3;
  }

  /**
   * A thread that takes 2^32 + 1 references and gives one of them up is told
   * that none is left.
   */
  lemma OverflowLooksReleased()
    ensures var acts := Alone(0x7fff_ffff) + Alone(0x7fff_ffff) + Alone(3) + Alone(-1);
            RunEnabled(Start(1), acts)
            && var w := Run(Start(1), acts);
            |w.s.log| == 4 && !DecResult(w.s.log[3]) && Releases(w.s.log[3].op) && w.held == [0x1_0000_0000]
  {
    hide Wrap, RunEnabled, Run, Alone;
    StartAlone();
    var a, b, c, d := Alone(0x7fff_ffff), Alone(0x7fff_ffff), Alone(3), Alone(-1);
    AloneRuns(0, [], false, 0x7fff_ffff);
    var l1 := [] + [Event(0, Increment(0x7fff_ffff), Wrap(0x7fff_ffff))];
    AloneRuns(0x7fff_ffff, l1, true, 0x7fff_ffff);
    RunThen(Start(1), a, b);
    var l2 := l1 + [Event(0, Increment(0x7fff_ffff), Wrap(0xffff_fffe))];
    AloneRuns(0xffff_fffe, l2, true, 3);
    RunThen(Start(1), a + b, c);
    var l3 := l2 + [Event(0, Increment(3), Wrap(0x1_0000_0001))];
    AloneRuns(0x1_0000_0001, l3, true, -1);
    RunThen(Start(1), a + b + c, d);
    assert Wrap(0x1_0000_0000) == 0 by { WrapFull(); }
  }

  lemma StartAlone()
    ensures Start(1) == Lone(0, [], false)
  {}

  lemma WrapFull()
    ensures Wrap(0x1_0000_0000) == 0
  {}
}
