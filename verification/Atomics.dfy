/**
 * The atomic operations of base/atomicops_internals_gcc.h on one cell, their
 * compare-and-swap retry loops interleaved action by action over any number of
 * threads, and the sequence numbers built on them.
 */
module Atomics {
  import opened Totals

  const WORDS := 0x1_0000_0000

  /** Two's complement. */
  predicate IsInt32(x: int) { -0x8000_0000 <= x < 0x8000_0000 }

  function Wrap(x: int): (r: int)
    ensures IsInt32(r) && (r - x) % WORDS == 0
  {
    (x + 0x8000_0000) % WORDS - 0x8000_0000
  }

  datatype Op =
    | CompareAndSwap(oldValue: int, newValue: int)
    | Exchange(newValue: int)
    | Increment(amount: int)
    | Load
    | Store(newValue: int)

  /**
   * Where a thread is in an operation; `at` is how many operations had taken
   * effect when it last looked at the cell.
   */
  datatype Pc =
    | Idle
    | Accessing(op: Op)                      // Load, Store: the one access
    | Trying(op: Op)                         // CompareAndSwap: the builtin compare-and-swap
    | Reloading(op: Op, at: nat)             // CompareAndSwap: prev_value = *ptr, after it failed
    | Loading(op: Op)                        // Exchange, Increment: old_value = *ptr
    | Swapping(op: Op, seen: int, at: nat)   // Exchange, Increment: the builtin compare-and-swap

  /** An operation that has taken effect, with what it returned (for a Store, what it overwrote). */
  datatype Event = Event(thread: nat, op: Op, result: int)

  datatype State = State(cell: int, threads: seq<Pc>, log: seq<Event>)

  datatype Action = Call(t: nat, op: Op) | Step(t: nat)

  predicate Enabled(s: State, a: Action) {
    match a
    case Call(t, _) => t < |s.threads| && s.threads[t].Idle?
    case Step(t) => t < |s.threads| && !s.threads[t].Idle?
  }

  function Goto(s: State, t: nat, pc: Pc): State
    requires t < |s.threads|
  {
    s.(threads := s.threads[t := pc])
  }

  function Return(s: State, t: nat, op: Op, cell: int, result: int): State
    requires t < |s.threads|
  {
    State(cell, s.threads[t := Idle], s.log + [Event(t, op, result)])
  }

  function First(op: Op): Pc {
    match op
    case CompareAndSwap(_, _) => Trying(op)
    case Exchange(_) => Loading(op)
    case Increment(_) => Loading(op)
    case _ => Accessing(op)
  }

  function DoStep(s: State, t: nat): (r: State)
    requires Enabled(s, Step(t))
    ensures |r.threads| == |s.threads|
  {
    match s.threads[t]
    case Accessing(op) => Return(s, t, op, if op.Store? then op.newValue else s.cell, s.cell)
    case Trying(op) =>
      if op.CompareAndSwap? && s.cell == op.oldValue
      then Return(s, t, op, op.newValue, op.oldValue)
      else Goto(s, t, Reloading(op, |s.log|))
    case Reloading(op, _) =>
      if op.CompareAndSwap? && s.cell == op.oldValue
      then Goto(s, t, Trying(op))
      else Return(s, t, op, s.cell, s.cell)
    case Loading(op) => Goto(s, t, Swapping(op, s.cell, |s.log|))
    case Swapping(op, seen, _) =>
      if s.cell != seen then Goto(s, t, Loading(op))
      else match op
        case Increment(amount) => Return(s, t, op, Wrap(seen + amount), Wrap(seen + amount))
        case Exchange(newValue) => Return(s, t, op, newValue, seen)
        case _ => s
  }

  function Do(s: State, a: Action): State
    requires Enabled(s, a)
  {
    match a
    case Call(t, op) => Goto(s, t, First(op))
    case Step(t) => DoStep(s, t)
  }

  // ---------------------------------------------------------------------
  // What the operations are meant to do, one at a time

  function NewCell(op: Op, cell: int): int {
    match op
    case CompareAndSwap(o, n) => if cell == o then n else cell
    case Exchange(n) => n
    case Increment(amount) => Wrap(cell + amount)
    case Load => cell
    case Store(n) => n
  }

  function Result(op: Op, cell: int): int {
    match op
    case Increment(amount) => Wrap(cell + amount)
    case _ => cell
  }

  /** The cell after the first n events, one after the other. */
  function CellAfter(start: int, log: seq<Event>, n: nat): int
    requires n <= |log|
  {
    if n == 0 then start else NewCell(log[n - 1].op, CellAfter(start, log, n - 1))
  }

  /** Every event returned what its operation returns on the cell that the events before it left. */
  predicate Sequential(start: int, log: seq<Event>) {
    forall k :: 0 <= k < |log| ==> log[k].result == Result(log[k].op, CellAfter(start, log, k))
  }

  lemma {:induction false} CellAfterPrefix(start: int, log: seq<Event>, e: Event, n: nat)
    requires n <= |log|
    ensures CellAfter(start, log + [e], n) == CellAfter(start, log, n)
  {
    if n == 0 {
    } else {
      CellAfterPrefix(start, log, e, n - 1);
    }
  }

  // ---------------------------------------------------------------------
  // The invariant

  predicate PcValid(pc: Pc, start: int, log: seq<Event>) {
    match pc
    case Idle => true
    case Accessing(op) => op.Load? || op.Store?
    case Trying(op) => op.CompareAndSwap?
    case Reloading(op, at) => op.CompareAndSwap? && at <= |log| && CellAfter(start, log, at) != op.oldValue
    case Loading(op) => op.Exchange? || op.Increment?
    case Swapping(op, seen, at) =>
      (op.Exchange? || op.Increment?) && at <= |log| && CellAfter(start, log, at) == seen
  }

  predicate Valid(start: int, s: State) {
    && s.cell == CellAfter(start, s.log, |s.log|)
    && Sequential(start, s.log)
    && (forall k :: 0 <= k < |s.log| ==> s.log[k].thread < |s.threads|)
    && (forall t :: 0 <= t < |s.threads| ==> PcValid(s.threads[t], start, s.log))
  }

  /** A step either goes on with the operation or lets it take effect on the cell as it is. */
  lemma StepOutcome(start: int, s: State, t: nat)
    requires Valid(start, s) && Enabled(s, Step(t))
    ensures var op, r := s.threads[t].op, DoStep(s, t);
            if r.threads[t].Idle? then r == Return(s, t, op, NewCell(op, s.cell), Result(op, s.cell))
            else r == Goto(s, t, r.threads[t]) && r.threads[t].op == op && PcValid(r.threads[t], start, s.log)
  {
    hide Wrap, Sequential;
    assert PcValid(s.threads[t], start, s.log);
  }

  lemma PcKept(pc: Pc, start: int, log: seq<Event>, e: Event)
    requires PcValid(pc, start, log)
    ensures PcValid(pc, start, log + [e])
  {
    match pc
    case Reloading(_, at) => CellAfterPrefix(start, log, e, at);
    case Swapping(_, _, at) => CellAfterPrefix(start, log, e, at);
    case _ =>
  }

  lemma LogExtended(start: int, log: seq<Event>, e: Event)
    requires Sequential(start, log) && e.result == Result(e.op, CellAfter(start, log, |log|))
    ensures Sequential(start, log + [e])
    ensures CellAfter(start, log + [e], |log| + 1) == NewCell(e.op, CellAfter(start, log, |log|))
  {
    hide Wrap, NewCell, Result;
    forall k | 0 <= k <= |log|
      ensures CellAfter(start, log + [e], k) == CellAfter(start, log, k)
    {
      CellAfterPrefix(start, log, e, k);
    }
  }

  lemma ReturnValid(start: int, s: State, t: nat, op: Op)
    requires Valid(start, s) && t < |s.threads|
    ensures Valid(start, Return(s, t, op, NewCell(op, s.cell), Result(op, s.cell)))
  {
    hide Wrap, NewCell, Result, PcValid, Sequential;
    var e := Event(t, op, Result(op, s.cell));
    LogExtended(start, s.log, e);
    var r := Return(s, t, op, NewCell(op, s.cell), Result(op, s.cell));
    forall u | 0 <= u < |s.threads|
      ensures PcValid(r.threads[u], start, r.log)
    {
      PcKept(s.threads[u], start, s.log, e);
      IdleValid(start, r.log);
    }
  }

  lemma IdleValid(start: int, log: seq<Event>)
    ensures PcValid(Idle, start, log)
  {}

  /** Every call and every single access keeps the log and the cell in step. */
  lemma StepValid(start: int, s: State, a: Action)
    requires Valid(start, s) && Enabled(s, a)
    ensures Valid(start, Do(s, a))
  {
    hide Sequential, Wrap, DoStep;
    if a.Step? {
      hide Valid, PcValid, NewCell, Result;
      StepOutcome(start, s, a.t);
      if DoStep(s, a.t).threads[a.t].Idle? {
        ReturnValid(start, s, a.t, s.threads[a.t].op);
      } else {
      }
    } else {
    }
  }

  ghost predicate RunEnabled(s: State, actions: seq<Action>)
    decreases |actions|
  {
    actions != [] ==> Enabled(s, actions[0]) && RunEnabled(Do(s, actions[0]), actions[1..])
  }

  ghost function Run(s: State, actions: seq<Action>): State
    requires RunEnabled(s, actions)
    decreases |actions|
  {
    if actions == [] then s else Run(Do(s, actions[0]), actions[1..])
  }

  lemma {:induction false} RunValid(start: int, s: State, actions: seq<Action>)
    requires Valid(start, s) && RunEnabled(s, actions)
    ensures Valid(start, Run(s, actions))
    decreases |actions|
  {
    hide Valid, Do, Enabled;
    if actions == [] {
    } else {
      StepValid(start, s, actions[0]);
      RunValid(start, Do(s, actions[0]), actions[1..]);
    }
  }

  lemma {:induction false} RunConcat(s: State, a: seq<Action>, b: seq<Action>)
    requires RunEnabled(s, a + b)
    ensures RunEnabled(s, a) && RunEnabled(Run(s, a), b) && Run(s, a + b) == Run(Run(s, a), b)
    decreases |a|
  {
    hide Do, Enabled;
    if a == [] {
      assert a + b == b;
    } else {
      assert (a + b)[1..] == a[1..] + b;
      RunConcat(Do(s, a[0]), a[1..], b);
    }
  }

  function Start(start: int, threads: nat): State { State(start, seq(threads, _ => Idle), []) }

  // ---------------------------------------------------------------------
  // Linearizability

  /** The operations that thread t calls, in order. */
  function CallsOf(t: nat, actions: seq<Action>): seq<Op> {
    if actions == [] then []
    else
      (if actions[0].Call? && actions[0].t == t then [actions[0].op] else []) + CallsOf(t, actions[1..])
  }

  function EventsOf(t: nat, log: seq<Event>): seq<Op> {
    if log == [] then [] else (if log[0].thread == t then [log[0].op] else []) + EventsOf(t, log[1..])
  }

  function Pending(pc: Pc): seq<Op> { if pc.Idle? then [] else [pc.op] }

  /**
   * From s to r, the log has only grown; and what has taken effect for each
   * thread since is, in order, the call that was pending in s and the calls
   * made since, but for one that is still pending in r.
   */
  predicate Follows(s: State, r: State, actions: seq<Action>) {
    && |r.threads| == |s.threads| && s.log <= r.log
    && forall t :: 0 <= t < |s.threads| ==>
         EventsOf(t, r.log[|s.log|..]) + Pending(r.threads[t]) == Pending(s.threads[t]) + CallsOf(t, actions)
  }

  lemma {:induction false} EventsConcat(t: nat, a: seq<Event>, b: seq<Event>)
    ensures EventsOf(t, a + b) == EventsOf(t, a) + EventsOf(t, b)
  {
    if a == [] {
      assert a + b == b;
    } else {
      assert (a + b)[1..] == a[1..] + b;
      EventsConcat(t, a[1..], b);
      var own := if a[0].thread == t then [a[0].op] else [];
      var first, second := EventsOf(t, a[1..]), EventsOf(t, b);
      assert EventsOf(t, a) == own + first && EventsOf(t, a + b) == own + (first + second);
      hide EventsOf;
      assert (own + first) + second == own + (first + second);
    }
  }

  lemma StepFollows(start: int, s: State, a: Action)
    requires Valid(start, s) && Enabled(s, a)
    ensures Follows(s, Do(s, a), [a])
  {
    hide Valid, DoStep, NewCell, Result, PcValid, EventsOf, CallsOf;
    var r := Do(s, a);
    if a.Step? {
      StepOutcome(start, s, a.t);
    }
    var more := r.log[|s.log|..];
    assert more == if a.Step? && r.threads[a.t].Idle?
                   then [Event(a.t, s.threads[a.t].op, r.log[|s.log|].result)] else [];
    forall t | 0 <= t < |s.threads|
      ensures EventsOf(t, more) + Pending(r.threads[t]) == Pending(s.threads[t]) + CallsOf(t, [a])
    {
      OneOrNone(t, more, a);
    }
  }

  lemma OneOrNone(t: nat, log: seq<Event>, a: Action)
    requires |log| <= 1
    ensures EventsOf(t, log) == if log != [] && log[0].thread == t then [log[0].op] else []
    ensures CallsOf(t, [a]) == if a.Call? && a.t == t then [a.op] else []
  {
    assert [a][1..] == [];
  }

  lemma FollowsTransitive(s: State, m: State, r: State, a: seq<Action>, b: seq<Action>)
    requires Follows(s, m, a) && Follows(m, r, b)
    requires forall t :: CallsOf(t, a + b) == CallsOf(t, a) + CallsOf(t, b)
    ensures Follows(s, r, a + b)
  {
    hide EventsOf, CallsOf, Pending;
    forall t | 0 <= t < |s.threads|
      ensures EventsOf(t, r.log[|s.log|..]) + Pending(r.threads[t]) == Pending(s.threads[t]) + CallsOf(t, a + b)
    {
      var e1, e2 := EventsOf(t, m.log[|s.log|..]), EventsOf(t, r.log[|m.log|..]);
      assert m.log[|s.log|..] + r.log[|m.log|..] == r.log[|s.log|..];
      EventsConcat(t, m.log[|s.log|..], r.log[|m.log|..]);
      assert e1 + e2 + Pending(r.threads[t]) == e1 + (e2 + Pending(r.threads[t]));
      assert e1 + (Pending(m.threads[t]) + CallsOf(t, b)) == (e1 + Pending(m.threads[t])) + CallsOf(t, b);
    }
  }

  lemma {:induction false} RunFollows(start: int, s: State, actions: seq<Action>)
    requires Valid(start, s) && RunEnabled(s, actions)
    ensures Follows(s, Run(s, actions), actions)
    decreases |actions|
  {
    hide Valid, Do, Enabled, Follows;
    if actions == [] {
      FollowsNothing(s);
    } else {
      var m := Do(s, actions[0]);
      StepValid(start, s, actions[0]);
      StepFollows(start, s, actions[0]);
      RunFollows(start, m, actions[1..]);
      assert [actions[0]] + actions[1..] == actions;
      CallsHead(actions);
      FollowsTransitive(s, m, Run(m, actions[1..]), [actions[0]], actions[1..]);
    }
  }

  lemma FollowsNothing(s: State)
    ensures Follows(s, s, [])
  {
    assert s.log[|s.log|..] == [];
  }

  lemma CallsHead(actions: seq<Action>)
    requires actions != []
    ensures forall t :: CallsOf(t, actions) == CallsOf(t, [actions[0]]) + CallsOf(t, actions[1..])
  {
    assert [actions[0]][1..] == [];
  }

  lemma StartValid(start: int, threads: nat)
    ensures Valid(start, Start(start, threads))
  {}

  /**
   * Every interleaving is equivalent to its log, in which each operation takes
   * effect at one moment between its call and its return: the cell and all
   * results are those of the operations one after the other; and at whatever
   * point the run is cut in two, the log of the first part stays as it is, and
   * what is added later is, for each thread in order, the operation it was
   * executing there and then those it calls in the second part.
   */
  lemma Linearizable(start: int, threads: nat, a: seq<Action>, b: seq<Action>)
    requires RunEnabled(Start(start, threads), a + b)
    ensures RunEnabled(Start(start, threads), a)
    ensures var s, r := Run(Start(start, threads), a), Run(Start(start, threads), a + b);
            && r.cell == CellAfter(start, r.log, |r.log|)
            && Sequential(start, r.log)
            && |s.threads| == |r.threads| == threads && s.log <= r.log
            && (forall k :: 0 <= k < |r.log| ==> r.log[k].thread < threads)
            && (forall t :: 0 <= t < threads ==>
                  EventsOf(t, r.log[|s.log|..]) + Pending(r.threads[t]) == Pending(s.threads[t]) + CallsOf(t, b))
            && (forall t :: 0 <= t < threads ==> EventsOf(t, r.log) + Pending(r.threads[t]) == CallsOf(t, a + b))
  {
    hide RunEnabled, Run, EventsOf, CallsOf, Sequential;
    var init := Start(start, threads);
    StartValid(start, threads);
    RunConcat(init, a, b);
    RunValid(start, init, a);
    RunFollows(start, init, a);
    RunFollows(start, init, a + b);
    RunFollows(start, Run(init, a), b);
    RunValid(start, init, a + b);
    var r := Run(init, a + b);
    assert r.log[0..] == r.log;
    forall t | 0 <= t < threads ensures Pending(init.threads[t]) + CallsOf(t, a + b) == CallsOf(t, a + b) {}
  }

  /** A CompareAndSwap returns the old value exactly when it found it, and so replaced it. */
  lemma CasReturnsOldIffSwapped(start: int, log: seq<Event>, k: nat)
    requires Sequential(start, log) && k < |log| && log[k].op.CompareAndSwap?
    ensures log[k].result == log[k].op.oldValue <==> CellAfter(start, log, k) == log[k].op.oldValue
    ensures CellAfter(start, log, k + 1)
         == if log[k].result == log[k].op.oldValue then log[k].op.newValue else CellAfter(start, log, k)
  {}

  /** An Exchange returns what it found and replaces it; a Load returns and leaves it; a Store replaces it. */
  lemma OthersReturnWhatTheyFind(start: int, log: seq<Event>, k: nat)
    requires Sequential(start, log) && k < |log|
    ensures var before, after := CellAfter(start, log, k), CellAfter(start, log, k + 1);
            && (log[k].op.Exchange? ==> log[k].result == before && after == log[k].op.newValue)
            && (log[k].op.Load? ==> log[k].result == before == after)
            && (log[k].op.Store? ==> after == log[k].op.newValue)
  {}

  /** Thread t goes on alone, for at most n actions. */
  function Solo(s: State, t: nat, n: nat): State
    requires t < |s.threads|
    decreases n
  {
    if n == 0 || s.threads[t].Idle? then s else Solo(DoStep(s, t), t, n - 1)
  }

  /**
   * From wherever a thread is in an operation, three actions of its own complete
   * it if nobody interferes, and it takes effect on the cell as it is.
   */
  lemma SoloCompletes(start: int, s: State, t: nat)
    requires Valid(start, s) && t < |s.threads| && !s.threads[t].Idle?
    ensures var op := s.threads[t].op;
            Solo(s, t, 3) == Return(s, t, op, NewCell(op, s.cell), Result(op, s.cell))
  {
    hide Wrap, Sequential, CellAfter, NewCell, Result, DoStep;
    var s1 := DoStep(s, t);
    SoloStep(start, s, t);
    if !s1.threads[t].Idle? {
      var s2 := DoStep(s1, t);
      SoloStep(start, s1, t);
      if !s2.threads[t].Idle? {
        SoloStep(start, s2, t);
        assert Solo(s2, t, 1) == Solo(DoStep(s2, t), t, 0);
      }
      assert Solo(s1, t, 2) == Solo(s2, t, 1);
    }
    assert Solo(s, t, 3) == Solo(s1, t, 2);
  }

  /** How many actions a thread that is alone has still to take. */
  function StepsLeft(s: State, t: nat): nat
    requires t < |s.threads|
  {
    match s.threads[t]
    case Idle => 0
    case Accessing(_) => 1
    case Trying(op) => if op.CompareAndSwap? && s.cell != op.oldValue then 2 else 1
    case Reloading(op, _) => if op.CompareAndSwap? && s.cell == op.oldValue then 2 else 1
    case Loading(_) => 2
    case Swapping(_, seen, _) => if s.cell == seen then 1 else 3
  }

  lemma SoloStep(start: int, s: State, t: nat)
    requires Valid(start, s) && t < |s.threads| && !s.threads[t].Idle?
    ensures var op, r := s.threads[t].op, DoStep(s, t);
            && 0 < StepsLeft(s, t) <= 3 && StepsLeft(r, t) == StepsLeft(s, t) - 1
            && if r.threads[t].Idle? then r == Return(s, t, op, NewCell(op, s.cell), Result(op, s.cell))
               else Valid(start, r) && r.cell == s.cell && r.log == s.log && r.threads[t].op == op
                    && r.threads == s.threads[t := r.threads[t]]
  {
    hide Wrap, Sequential, CellAfter;
    assert PcValid(s.threads[t], start, s.log);
    StepOutcome(start, s, t);
    if !DoStep(s, t).threads[t].Idle? {
      GotoKeeps(start, s, t, DoStep(s, t).threads[t]);
    }
  }

  lemma GotoKeeps(start: int, s: State, t: nat, pc: Pc)
    requires Valid(start, s) && t < |s.threads| && PcValid(pc, start, s.log)
    ensures Valid(start, Goto(s, t, pc))
  {}

  /** A loop only goes round again when some other operation has taken effect meanwhile. */
  lemma RetryMeansProgress(start: int, s: State, t: nat)
    requires Valid(start, s) && Enabled(s, Step(t))
    ensures s.threads[t].Swapping? && DoStep(s, t).threads[t].Loading? ==> s.threads[t].at < |s.log|
    ensures s.threads[t].Reloading? && DoStep(s, t).threads[t].Trying? ==> s.threads[t].at < |s.log|
  {}

  // ---------------------------------------------------------------------
  // Counting

  /** What an operation adds to the cell. */
  function Delta(op: Op): int { if op.Increment? then op.amount else 0 }

  function EventDelta(e: Event): int { Delta(e.op) }

  function PcDelta(pc: Pc): int { if pc.Idle? then 0 else Delta(pc.op) }

  function ActionDelta(a: Action): int { if a.Call? then Delta(a.op) else 0 }

  /** The calls of a run in which threads only increment and load. */
  predicate OnlyCounts(actions: seq<Action>) {
    forall a <- actions :: a.Call? ==> a.op.Increment? || a.op.Load?
  }

  lemma WrapAdd(a: int, b: int)
    ensures Wrap(Wrap(a) + b) == Wrap(a + b)
  {}

  lemma WrapSmall(x: int)
    requires IsInt32(x)
    ensures Wrap(x) == x
  {}

  /** Every operation in the log was called. */
  lemma {:induction false} EventIn(log: seq<Event>, k: nat)
    requires k < |log|
    ensures log[k].op in EventsOf(log[k].thread, log)
  {
    if k == 0 {
    } else {
      EventIn(log[1..], k - 1);
    }
  }

  lemma {:induction false} CallIn(t: nat, actions: seq<Action>, op: Op)
    requires op in CallsOf(t, actions)
    ensures Call(t, op) in actions
  {
    if actions[0].Call? && actions[0].t == t && actions[0].op == op {
    } else {
      CallIn(t, actions[1..], op);
    }
  }

  lemma LogIsCalled(start: int, threads: nat, actions: seq<Action>, k: nat)
    requires RunEnabled(Start(start, threads), actions) && k < |Run(Start(start, threads), actions).log|
    ensures var e := Run(Start(start, threads), actions).log[k]; Call(e.thread, e.op) in actions
  {
    hide RunEnabled, Run, Sequential, EventsOf, CallsOf;
    assert actions + [] == actions;
    Linearizable(start, threads, actions, []);
    var r := Run(Start(start, threads), actions);
    EventIn(r.log, k);
    var t := r.log[k].thread;
    assert r.log[k].op in EventsOf(t, r.log) + Pending(r.threads[t]);
    CallIn(t, actions, r.log[k].op);
  }

  lemma {:induction false} CountedCell(start: int, log: seq<Event>, n: nat)
    requires n <= |log| && IsInt32(start) && forall k :: 0 <= k < |log| ==> log[k].op.Increment? || log[k].op.Load?
    ensures CellAfter(start, log, n) == Wrap(start + Total(EventDelta, log[..n]))
  {
    hide Wrap;
    if n == 0 {
      WrapSmall(start);
    } else {
      CountedCell(start, log, n - 1);
      assert log[..n] == log[..n - 1] + [log[n - 1]];
      TotalSnoc(EventDelta, log[..n - 1], log[n - 1]);
      WrapAdd(start + Total(EventDelta, log[..n - 1]), Delta(log[n - 1].op));
    }
  }

  /** What has been added, and what is pending, is what has been called for. */
  lemma StepTotals(start: int, s: State, a: Action)
    requires Valid(start, s) && Enabled(s, a)
    ensures var r := Do(s, a);
            Total(EventDelta, r.log) + Total(PcDelta, r.threads)
            == Total(EventDelta, s.log) + Total(PcDelta, s.threads) + ActionDelta(a)
  {
    hide Valid, DoStep, NewCell, Result, PcValid, Total;
    var r := Do(s, a);
    if a.Step? {
      StepOutcome(start, s, a.t);
    }
    TotalUpdate(PcDelta, s.threads, a.t, r.threads[a.t]);
    if a.Step? && r.threads[a.t].Idle? {
      TotalSnoc(EventDelta, s.log, r.log[|s.log|]);
    }
  }

  lemma {:induction false} RunTotals(start: int, s: State, actions: seq<Action>)
    requires Valid(start, s) && RunEnabled(s, actions)
    ensures var r := Run(s, actions);
            Total(EventDelta, r.log) + Total(PcDelta, r.threads)
            == Total(EventDelta, s.log) + Total(PcDelta, s.threads) + Total(ActionDelta, actions)
    decreases |actions|
  {
    hide Valid, Do, Enabled;
    if actions == [] {
    } else {
      StepValid(start, s, actions[0]);
      StepTotals(start, s, actions[0]);
      RunTotals(start, Do(s, actions[0]), actions[1..]);
    }
  }

  /**
   * Over every run in which threads only increment and load: each increment
   * returns the start plus what has been added so far; and the cell is the
   * start plus all that was called for, but for what is still pending, modulo
   * 2^32.
   */
  lemma IncrementsAdd(start: int, threads: nat, actions: seq<Action>)
    requires IsInt32(start) && OnlyCounts(actions) && RunEnabled(Start(start, threads), actions)
    ensures var s := Run(Start(start, threads), actions);
            && s.cell == Wrap(start + Total(ActionDelta, actions) - Total(PcDelta, s.threads))
            && (forall k :: 0 <= k < |s.log| ==>
                  s.log[k].result == Wrap(start + Total(EventDelta, s.log[..k + 1])))
  {
    hide RunEnabled, Run, Wrap, Total, Sequential;
    var init := Start(start, threads);
    var s := Run(init, actions);
    StartValid(start, threads);
    RunValid(start, init, actions);
    RunTotals(start, init, actions);
    NothingPending(start, threads);
    forall k | 0 <= k < |s.log| ensures s.log[k].op.Increment? || s.log[k].op.Load? {
      LogIsCalled(start, threads, actions, k);
    }
    CountedCell(start, s.log, |s.log|);
    assert s.log[..|s.log|] == s.log;
    forall k | 0 <= k < |s.log| ensures s.log[k].result == Wrap(start + Total(EventDelta, s.log[..k + 1])) {
      CountedCell(start, s.log, k + 1);
      ResultAt(start, s.log, k);
    }
  }

  lemma NothingPending(start: int, threads: nat)
    ensures Total(PcDelta, Start(start, threads).threads) == 0 && Total(EventDelta, Start(start, threads).log) == 0
  {
    TotalZero(PcDelta, Start(start, threads).threads);
  }

  lemma ResultAt(start: int, log: seq<Event>, k: nat)
    requires Sequential(start, log) && k < |log| && (log[k].op.Increment? || log[k].op.Load?)
    ensures log[k].result == CellAfter(start, log, k + 1)
  {}

  /** GetNext: NoBarrier_AtomicIncrement(&seq_, 1) - 1. */
  function GetNextResult(e: Event): int { Wrap(e.result - 1) }

  lemma {:induction false} TotalOfOnes(log: seq<Event>)
    requires forall k :: 0 <= k < |log| ==> log[k].op == Increment(1)
    ensures Total(EventDelta, log) == |log|
  {
    if log == [] {
    } else {
      TotalOfOnes(log[1..]);
    }
  }

  /**
   * Sequence numbers: over every run of GetNext calls the k-th to take effect
   * gets number k, modulo 2^32; and no two calls get the same number exactly as
   * long as there are at most 2^32 of them.
   */
  lemma SequenceNumbers(threads: nat, actions: seq<Action>)
    requires RunEnabled(Start(0, threads), actions) && forall a <- actions :: a.Call? ==> a.op == Increment(1)
    ensures var log := Run(Start(0, threads), actions).log;
            && (forall k :: 0 <= k < |log| ==> GetNextResult(log[k]) == Wrap(k))
            && ((forall j, k :: 0 <= j < k < |log| ==> GetNextResult(log[j]) != GetNextResult(log[k]))
                <==> |log| <= WORDS)
  {
    hide Wrap, RunEnabled, Run, GetNextResult;
    var log := Run(Start(0, threads), actions).log;
    forall k | 0 <= k < |log| ensures GetNextResult(log[k]) == Wrap(k) {
      NumberIs(threads, actions, k);
    }
    if |log| <= WORDS {
      forall j, k | 0 <= j < k < |log|
        ensures GetNextResult(log[j]) != GetNextResult(log[k])
      {
      }
    } else {
      assert GetNextResult(log[0]) == GetNextResult(log[WORDS]);
    }
  }

  lemma NumberIs(threads: nat, actions: seq<Action>, k: nat)
    requires RunEnabled(Start(0, threads), actions) && forall a <- actions :: a.Call? ==> a.op == Increment(1)
    requires k < |Run(Start(0, threads), actions).log|
    ensures GetNextResult(Run(Start(0, threads), actions).log[k]) == Wrap(k)
  {
    hide Wrap, RunEnabled, Run;
    var log := Run(Start(0, threads), actions).log;
    IncrementsAdd(0, threads, actions);
    forall j | 0 <= j < |log| ensures log[j].op == Increment(1) {
      LogIsCalled(0, threads, actions, j);
    }
    TotalOfOnes(log[..k + 1]);
    WrapAdd(k + 1, -1);
  }
}
