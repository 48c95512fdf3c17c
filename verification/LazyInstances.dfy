/**
 * LazyInstance: the once-protocol of Pointer(), NeedsLazyInstance and
 * CompleteLazyInstance, interleaved step by step over any number of threads
 * and instances, and OnExit.
 */
module LazyInstances {
  import AtExit

  /** kLazyInstanceStateCreating; 0 is the state before. */
  const CREATING := 1

  /** Any bit outside the creating bit is set. */
  predicate Created(word: int) { word != 0 && word != CREATING }

  /** As the source tests it: some bit but the lowest is set, in two's complement. */
  lemma CreatedIsMasked(word: int)
    ensures Created(word) <==> word / 2 != 0
  {}

  /** The next atomic action of a thread in Pointer() of instance l. */
  datatype Pc =
    | Idle
    | Loading(l: nat)             // the fast-path load
    | Swapping(l: nat)            // compare-and-swap of 0 with CREATING
    | Spinning(l: nat)            // load until it is no longer CREATING
    | Constructing(l: nat)        // Traits::New
    | Storing(l: nat, value: int) // the release store
    | Registering(l: nat)         // AtExitManager::RegisterCallback
    | Reading(l: nat)             // instance()

  /**
   * One LazyInstance: the word, and since it was last 0 the calls of New, their
   * object, and the results of Pointer().
   */
  datatype Instance = Instance(registers: bool, word: int, news: nat, obj: int, returned: set<int>)

  /** deleted lists the objects given to Traits::Delete; stack is that of the AtExitManager. */
  datatype State = State(instances: seq<Instance>, threads: seq<Pc>, stack: seq<nat>, deleted: seq<(nat, int)>)

  datatype Action =
    | Call(t: nat, l: nat)
    | Step(t: nat, made: int)
    | Exit

  predicate Enabled(s: State, a: Action) {
    match a
    case Call(t, l) => t < |s.threads| && s.threads[t].Idle? && l < |s.instances|
    case Step(t, made) => t < |s.threads| && !s.threads[t].Idle? && Created(made)
    case Exit => forall t :: 0 <= t < |s.threads| ==> s.threads[t].Idle?
  }

  /** Threads and the stack only name instances that exist. */
  predicate Shaped(s: State) {
    && (forall t :: 0 <= t < |s.threads| && !s.threads[t].Idle? ==> s.threads[t].l < |s.instances|)
    && (forall k :: 0 <= k < |s.stack| ==> s.stack[k] < |s.instances|)
  }

  function Put(s: State, t: nat, pc: Pc, l: nat, i: Instance): State
    requires t < |s.threads| && l < |s.instances|
  {
    s.(threads := s.threads[t := pc], instances := s.instances[l := i])
  }

  /** One atomic action of thread t; made is what Traits::New returns if it is called. */
  function DoStep(s: State, t: nat, made: int): State
    requires Shaped(s) && Enabled(s, Step(t, made))
  {
    var l := s.threads[t].l;
    var i := s.instances[l];
    match s.threads[t]
    case Loading(_) => Put(s, t, if Created(i.word) then Reading(l) else Swapping(l), l, i)
    case Swapping(_) =>
      if i.word == 0 then Put(s, t, Constructing(l), l, i.(word := CREATING)) else Put(s, t, Spinning(l), l, i)
    case Spinning(_) => Put(s, t, if i.word == CREATING then Spinning(l) else Reading(l), l, i)
    case Constructing(_) => Put(s, t, Storing(l, made), l, i.(news := i.news + 1, obj := made))
    case Storing(_, value) => Put(s, t, if i.registers then Registering(l) else Reading(l), l, i.(word := value))
    case Registering(_) => Put(s, t, Reading(l), l, i).(stack := s.stack + [l])
    case Reading(_) => Put(s, t, Idle, l, i.(returned := i.returned + {i.word}))
  }

  /** OnExit: Traits::Delete, and the word goes back to 0. */
  function OnExit(s: State, l: nat): State
    requires l < |s.instances|
  {
    s.(instances := s.instances[l := Instance(s.instances[l].registers, 0, 0, 0, {})],
       deleted := s.deleted + [(l, s.instances[l].word)])
  }

  /** ProcessCallbacksNow: the top callback runs and is popped until none is left. */
  function DoExit(s: State): State
    requires forall k :: 0 <= k < |s.stack| ==> s.stack[k] < |s.instances|
    decreases |s.stack|
  {
    if s.stack == [] then s else
      var n := |s.stack| - 1;
      DoExit(OnExit(s, s.stack[n]).(stack := s.stack[..n]))
  }

  function Do(s: State, a: Action): State
    requires Shaped(s) && Enabled(s, a)
  {
    match a
    case Call(t, l) => s.(threads := s.threads[t := Loading(l)])
    case Step(t, made) => DoStep(s, t, made)
    case Exit => DoExit(s)
  }

  // ---------------------------------------------------------------------
  // The invariant

  predicate Creator(pc: Pc, l: nat) { (pc.Constructing? || pc.Storing?) && pc.l == l }

  /** What a thread's position in Pointer() of instance i says about it. */
  predicate ThreadValid(pc: Pc, i: Instance) {
    match pc
    case Constructing(_) => i.word == CREATING && i.news == 0
    case Storing(_, value) => i.word == CREATING && i.news == 1 && i.obj == value && Created(value)
    case Spinning(_) => i.word != 0
    case Registering(_) => Created(i.word) && i.registers
    case Reading(_) => Created(i.word)
    case _ => true
  }

  /** What the word says about its instance. */
  predicate WordValid(i: Instance) {
    && (i.word == 0 ==> i.news == 0)
    && (Created(i.word) ==> i.news == 1 && i.obj == i.word)
    && (if Created(i.word) then i.returned <= {i.word} else i.returned == {})
  }

  ghost predicate Valid(s: State) {
    && Shaped(s)
    && (forall t :: 0 <= t < |s.threads| && !s.threads[t].Idle? ==>
          ThreadValid(s.threads[t], s.instances[s.threads[t].l]))
    && (forall l :: 0 <= l < |s.instances| ==> WordValid(s.instances[l]))
    && OneCreator(s) && OnStack(s)
  }

  /** The word is CREATING exactly while one thread is creating. */
  ghost predicate OneCreator(s: State) {
    && (forall l :: 0 <= l < |s.instances| && s.instances[l].word == CREATING ==>
          exists t :: 0 <= t < |s.threads| && Creator(s.threads[t], l))
    && (forall t, u, l ::
          0 <= t < |s.threads| && 0 <= u < |s.threads|
          ==> Creator(s.threads[t], l) && Creator(s.threads[u], l) ==> t == u)
  }

  predicate Registers(s: State, t: nat, l: nat)
    requires t < |s.threads|
  {
    s.threads[t] == Registering(l)
  }

  /** A created instance that registers itself is on the stack, once, or about to be put there, once. */
  ghost predicate OnStack(s: State)
    requires Shaped(s)
  {
    && (forall k :: 0 <= k < |s.stack| ==> Created(s.instances[s.stack[k]].word) && s.instances[s.stack[k]].registers)
    && (forall j, k :: 0 <= j < k < |s.stack| ==> s.stack[j] != s.stack[k])
    && (forall t, l :: 0 <= t < |s.threads| && Registers(s, t, l) ==> l !in s.stack)
    && (forall t, u, l ::
          0 <= t < |s.threads| && 0 <= u < |s.threads| && Registers(s, t, l) && Registers(s, u, l) ==> t == u)
    && (forall l :: 0 <= l < |s.instances| && Created(s.instances[l].word) && s.instances[l].registers ==>
          l in s.stack || exists t :: 0 <= t < |s.threads| && Registers(s, t, l))
  }

  lemma CallValid(s: State, t: nat, l: nat)
    requires Valid(s) && Enabled(s, Call(t, l))
    ensures Valid(Do(s, Call(t, l)))
  {
    var r := Do(s, Call(t, l));
    QuietCreators(s, r, t);
    QuietStack(s, r, t);
  }

  /** A thread that is no creator before or after, and leaves the words alone, changes no creator. */
  lemma QuietCreators(s: State, r: State, t: nat)
    requires OneCreator(s) && t < |s.threads| && |r.instances| == |s.instances| && |r.threads| == |s.threads|
    requires forall u :: 0 <= u < |s.threads| && u != t ==> r.threads[u] == s.threads[u]
    requires forall l :: 0 <= l < |s.instances| ==> r.instances[l].word == s.instances[l].word
    requires !s.threads[t].Constructing? && !s.threads[t].Storing?
    requires !r.threads[t].Constructing? && !r.threads[t].Storing?
    ensures OneCreator(r)
  {}

  lemma QuietStack(s: State, r: State, t: nat)
    requires Shaped(s) && Shaped(r) && OnStack(s)
    requires t < |s.threads| && |r.instances| == |s.instances| && |r.threads| == |s.threads| && r.stack == s.stack
    requires forall u :: 0 <= u < |s.threads| && u != t ==> r.threads[u] == s.threads[u]
    requires forall l :: 0 <= l < |s.instances| ==> r.instances[l].registers == s.instances[l].registers
    requires forall l :: 0 <= l < |s.instances| ==> (Created(r.instances[l].word) <==> Created(s.instances[l].word))
    requires !s.threads[t].Registering? && !r.threads[t].Registering?
    ensures OnStack(r)
  {
    forall l | 0 <= l < |r.instances| && Created(r.instances[l].word) && r.instances[l].registers && l !in r.stack
      ensures exists u :: 0 <= u < |r.threads| && Registers(r, u, l)
    {
      var u :| 0 <= u < |s.threads| && Registers(s, u, l);
      assert Registers(r, u, l);
    }
    assert forall u, l :: 0 <= u < |r.threads| && Registers(r, u, l) ==> Registers(s, u, l);
  }

  // One lemma for each atomic action

  lemma ThreadsStep(s: State, t: nat, made: int)
    requires Valid(s) && Enabled(s, Step(t, made))
    ensures var r := DoStep(s, t, made);
            && |r.threads| == |s.threads| && |r.instances| == |s.instances|
            && (forall u :: 0 <= u < |r.threads| && !r.threads[u].Idle? ==> r.threads[u].l < |r.instances|)
            && (forall u :: 0 <= u < |r.threads| && !r.threads[u].Idle? ==>
                  ThreadValid(r.threads[u], r.instances[r.threads[u].l]))
            && (forall l :: 0 <= l < |r.instances| ==> WordValid(r.instances[l]))
  {}

  lemma SwapCreators(s: State, t: nat, made: int)
    requires Valid(s) && Enabled(s, Step(t, made)) && s.threads[t].Swapping?
    ensures OneCreator(DoStep(s, t, made))
  {
    var l := s.threads[t].l;
    var r := DoStep(s, t, made);
    if s.instances[l].word == 0 {
      assert Creator(r.threads[t], l);
      OtherCreators(s, r, t, l);
      forall u | 0 <= u < |r.threads| && Creator(r.threads[u], l)
        ensures u == t
      {
        assert u != t ==> ThreadValid(s.threads[u], s.instances[l]);
      }
    } else {
      QuietCreators(s, r, t);
    }
  }

  /** The creators of other instances are as before. */
  lemma OtherCreators(s: State, r: State, t: nat, l: nat)
    requires OneCreator(s) && t < |s.threads| && |r.instances| == |s.instances| && |r.threads| == |s.threads|
    requires !s.threads[t].Idle? && s.threads[t].l == l && (!r.threads[t].Idle? ==> r.threads[t].l == l)
    requires forall u :: 0 <= u < |s.threads| && u != t ==> r.threads[u] == s.threads[u]
    requires forall m :: 0 <= m < |s.instances| && m != l ==> r.instances[m] == s.instances[m]
    ensures forall m :: 0 <= m < |r.instances| && m != l && r.instances[m].word == CREATING ==>
              exists u :: 0 <= u < |r.threads| && Creator(r.threads[u], m)
    ensures forall u, v, m | 0 <= u < |r.threads| && 0 <= v < |r.threads| && m != l ::
              Creator(r.threads[u], m) && Creator(r.threads[v], m) ==> u == v
  {}

  lemma CreateCreators(s: State, t: nat, made: int)
    requires Valid(s) && Enabled(s, Step(t, made)) && s.threads[t].Constructing?
    ensures OneCreator(DoStep(s, t, made))
  {
    var l := s.threads[t].l;
    var r := DoStep(s, t, made);
    assert Creator(s.threads[t], l) && Creator(r.threads[t], l);
    OtherCreators(s, r, t, l);
    assert forall u :: 0 <= u < |s.threads| && Creator(s.threads[u], l) ==> u == t;
  }

  lemma StoreCreators(s: State, t: nat, made: int)
    requires Valid(s) && Enabled(s, Step(t, made)) && s.threads[t].Storing?
    ensures OneCreator(DoStep(s, t, made))
  {
    var l := s.threads[t].l;
    var r := DoStep(s, t, made);
    assert Creator(s.threads[t], l);
    assert ThreadValid(s.threads[t], s.instances[l]);
    OtherCreators(s, r, t, l);
    assert forall u :: 0 <= u < |s.threads| && Creator(s.threads[u], l) ==> u == t;
  }

  lemma StoreStack(s: State, t: nat, made: int)
    requires Valid(s) && Enabled(s, Step(t, made)) && s.threads[t].Storing?
    requires Shaped(DoStep(s, t, made))
    ensures OnStack(DoStep(s, t, made))
  {
    var l := s.threads[t].l;
    var r := DoStep(s, t, made);
    assert ThreadValid(s.threads[t], s.instances[l]);
    assert l !in s.stack;
    forall u: nat, m: nat | u < |r.threads| && Registers(r, u, m)
      ensures m !in r.stack && (m == l ==> u == t) && (u != t ==> Registers(s, u, m))
    {
      if u != t {
        assert Registers(s, u, m) && ThreadValid(s.threads[u], s.instances[m]);
      }
    }
    forall m | 0 <= m < |r.instances| && Created(r.instances[m].word) && r.instances[m].registers && m !in r.stack
      ensures exists u :: 0 <= u < |r.threads| && Registers(r, u, m)
    {
      if m == l {
        assert Registers(r, t, l);
      } else {
        var u :| 0 <= u < |s.threads| && Registers(s, u, m);
        assert Registers(r, u, m);
      }
    }
  }

  lemma RegisterStack(s: State, t: nat, made: int)
    requires Valid(s) && Enabled(s, Step(t, made)) && s.threads[t].Registering?
    requires Shaped(DoStep(s, t, made))
    ensures OnStack(DoStep(s, t, made))
  {
    var l := s.threads[t].l;
    var r := DoStep(s, t, made);
    assert Registers(s, t, l) && ThreadValid(s.threads[t], s.instances[l]);
    forall u: nat, m: nat | u < |r.threads| && Registers(r, u, m)
      ensures u != t && Registers(s, u, m) && m != l && m !in r.stack
    {
      assert u != t && Registers(s, u, m);
    }
    forall m | 0 <= m < |r.instances| && Created(r.instances[m].word) && r.instances[m].registers && m !in r.stack
      ensures exists u :: 0 <= u < |r.threads| && Registers(r, u, m)
    {
      var u :| 0 <= u < |s.threads| && Registers(s, u, m);
      assert m != l;
      assert Registers(r, u, m);
    }
  }

  lemma StepValid(s: State, t: nat, made: int)
    requires Valid(s) && Enabled(s, Step(t, made))
    ensures Valid(DoStep(s, t, made))
  {
    hide OneCreator, OnStack, ThreadValid, WordValid;
    var r := DoStep(s, t, made);
    ThreadsStep(s, t, made);
    assert Shaped(r);
    match s.threads[t]
    case Swapping(_) =>
      SwapCreators(s, t, made);
      QuietStack(s, r, t);
    case Constructing(_) =>
      CreateCreators(s, t, made);
      QuietStack(s, r, t);
    case Storing(_, _) =>
      StoreCreators(s, t, made);
      StoreStack(s, t, made);
    case Registering(_) =>
      QuietCreators(s, r, t);
      RegisterStack(s, t, made);
    case _ =>
      QuietCreators(s, r, t);
      QuietStack(s, r, t);
  }

  // ---------------------------------------------------------------------
  // Teardown

  predicate AllIdle(s: State) { forall t :: 0 <= t < |s.threads| ==> s.threads[t].Idle? }

  /** The instances of a stack with their objects, from the top down. */
  function Deletions(instances: seq<Instance>, stack: seq<nat>): seq<(nat, int)>
    requires forall k :: 0 <= k < |stack| ==> stack[k] < |instances|
    decreases |stack|
  {
    if stack == [] then [] else
      var n := |stack| - 1;
      [(stack[n], instances[stack[n]].obj)] + Deletions(instances, stack[..n])
  }

  lemma IdleStack(s: State)
    requires Valid(s) && AllIdle(s)
    ensures forall l :: 0 <= l < |s.instances| && s.instances[l].registers ==>
              (l in s.stack <==> Created(s.instances[l].word)) && (l !in s.stack ==> s.instances[l].word == 0)
  {}

  function ExitOne(s: State): State
    requires s.stack != [] && s.stack[|s.stack| - 1] < |s.instances|
  {
    OnExit(s, s.stack[|s.stack| - 1]).(stack := s.stack[..|s.stack| - 1])
  }

  lemma ExitOneValid(s: State)
    requires Valid(s) && AllIdle(s) && s.stack != []
    ensures Valid(ExitOne(s)) && AllIdle(ExitOne(s))
  {
    var r := ExitOne(s);
    var n := |s.stack| - 1;
    IdleStack(s);
    assert forall t, l :: 0 <= t < |s.threads| ==> !Creator(s.threads[t], l) && !Registers(r, t, l);
    forall l | 0 <= l < |r.instances| && Created(r.instances[l].word) && r.instances[l].registers
      ensures l in r.stack
    {
      assert l in s.stack && l != s.stack[n];
      var k :| 0 <= k < |s.stack| && s.stack[k] == l;
      assert r.stack[k] == l;
    }
  }

  lemma {:induction false} DeletionsFrame(a: seq<Instance>, b: seq<Instance>, stack: seq<nat>)
    requires |a| == |b| && forall k :: 0 <= k < |stack| ==> stack[k] < |a|
    requires forall k :: 0 <= k < |stack| ==> a[stack[k]] == b[stack[k]]
    ensures Deletions(a, stack) == Deletions(b, stack)
    decreases |stack|
  {
    if stack == [] {
    } else {
      DeletionsFrame(a, b, stack[..|stack| - 1]);
    }
  }

  lemma {:induction false} ExitValid(s: State)
    requires Valid(s) && AllIdle(s)
    ensures Valid(DoExit(s)) && AllIdle(DoExit(s)) && DoExit(s).stack == []
    decreases |s.stack|
  {
    hide OneCreator, OnStack, AllIdle, ThreadValid, WordValid;
    if s.stack == [] {
    } else {
      ExitOneValid(s);
      ExitValid(ExitOne(s));
    }
  }

  lemma {:induction false} ExitResets(s: State)
    requires forall k :: 0 <= k < |s.stack| ==> s.stack[k] < |s.instances|
    ensures |DoExit(s).instances| == |s.instances|
    ensures forall l :: 0 <= l < |s.instances| ==>
              DoExit(s).instances[l] ==
              if l in s.stack then Instance(s.instances[l].registers, 0, 0, 0, {}) else s.instances[l]
    decreases |s.stack|
  {
    if s.stack == [] {
    } else {
      ExitResets(ExitOne(s));
      assert s.stack == s.stack[..|s.stack| - 1] + [s.stack[|s.stack| - 1]];
    }
  }

  /** OnExit of one instance after the other. */
  function OnExits(s: State, tasks: seq<AtExit.Task>): State
    requires forall k :: 0 <= k < |tasks| ==> tasks[k] < |s.instances|
    decreases |tasks|
  {
    if tasks == [] then s else OnExits(OnExit(s, tasks[0]), tasks[1..])
  }

  /** Teardown runs OnExit as the tasks that the AtExitManager processes, in its order. */
  lemma {:induction false} ExitIsProcess(s: State)
    requires forall k :: 0 <= k < |s.stack| ==> s.stack[k] < |s.instances|
    ensures var tasks := AtExit.Exits([s.stack], []).Process().ran;
            && (forall k :: 0 <= k < |tasks| ==> tasks[k] < |s.instances|)
            && DoExit(s) == OnExits(s, tasks).(stack := [])
    decreases |s.stack|
  {
    var tasks := AtExit.Reverse(s.stack);
    assert AtExit.Exits([s.stack], []).Process().ran == tasks;
    if s.stack == [] {
    } else {
      var n := |s.stack| - 1;
      ExitIsProcess(ExitOne(s));
      var rest := AtExit.Reverse(s.stack[..n]);
      assert AtExit.Exits([s.stack[..n]], []).Process().ran == rest;
      assert tasks[1..] == rest && tasks[0] == s.stack[n];
      StackAside(OnExit(s, s.stack[n]), rest, s.stack[..n]);
    }
  }

  lemma {:induction false} StackAside(s: State, tasks: seq<AtExit.Task>, stack: seq<nat>)
    requires forall k :: 0 <= k < |tasks| ==> tasks[k] < |s.instances|
    ensures OnExits(s.(stack := stack), tasks) == OnExits(s, tasks).(stack := stack)
    decreases |tasks|
  {
    if tasks == [] {
    } else {
      StackAside(OnExit(s, tasks[0]), tasks[1..], stack);
    }
  }

  lemma {:induction false} ExitDeletes(s: State)
    requires Valid(s) && AllIdle(s)
    ensures DoExit(s).deleted == s.deleted + Deletions(s.instances, s.stack)
    decreases |s.stack|
  {
    hide Valid, Deletions, AllIdle;
    if s.stack == [] {
      NoDeletions(s);
    } else {
      var n := |s.stack| - 1;
      ShapedStack(s);
      ExitOneValid(s);
      ExitDeletes(ExitOne(s));
      TopDeletion(s);
      assert s.deleted + ([(s.stack[n], s.instances[s.stack[n]].obj)] + Deletions(s.instances, s.stack[..n]))
          == s.deleted + [(s.stack[n], s.instances[s.stack[n]].obj)] + Deletions(s.instances, s.stack[..n]);
    }
  }

  lemma ShapedStack(s: State)
    requires Valid(s)
    ensures forall k :: 0 <= k < |s.stack| ==> s.stack[k] < |s.instances|
  {}

  lemma NoDeletions(s: State)
    ensures s.deleted + Deletions(s.instances, []) == s.deleted
  {}

  /**
   * Teardown with no thread inside Pointer(): the object of every created
   * instance that registers itself is deleted, once, the last one registered
   * first; the words go back to 0; leaky instances stay as they are.
   */
  lemma ExitDeletesAll(s: State)
    requires Valid(s) && AllIdle(s)
    ensures var r := DoExit(s);
            && Valid(r) && AllIdle(r) && r.stack == [] && |r.instances| == |s.instances|
            && r.deleted == s.deleted + Deletions(s.instances, s.stack)
            && (forall l :: 0 <= l < |s.instances| && s.instances[l].registers ==>
                  r.instances[l].word == 0 && r.instances[l].news == 0
                  && (Created(s.instances[l].word) <==> l in s.stack))
            && (forall l :: 0 <= l < |s.instances| && !s.instances[l].registers ==> r.instances[l] == s.instances[l])
            && (forall j, k :: 0 <= j < k < |s.stack| ==> s.stack[j] != s.stack[k])
  {
    hide DoExit, Deletions, OneCreator;
    IdleStack(s);
    ExitValid(s);
    ExitResets(s);
    ExitDeletes(s);
    assert forall k :: 0 <= k < |s.stack| ==> s.instances[s.stack[k]].registers;
    var r := DoExit(s);
    forall l | 0 <= l < |s.instances| && s.instances[l].registers
      ensures r.instances[l].word == 0 && r.instances[l].news == 0
    {
      if l !in s.stack {
        assert WordValid(s.instances[l]);
      }
    }
  }

  lemma TopDeletion(s: State)
    requires Valid(s) && s.stack != []
    ensures var n := |s.stack| - 1;
            && Deletions(s.instances, s.stack)
               == [(s.stack[n], s.instances[s.stack[n]].obj)] + Deletions(s.instances, s.stack[..n])
            && Deletions(ExitOne(s).instances, s.stack[..n]) == Deletions(s.instances, s.stack[..n])
            && Created(s.instances[s.stack[n]].word) && s.instances[s.stack[n]].registers
            && s.instances[s.stack[n]].obj == s.instances[s.stack[n]].word
  {
    var n := |s.stack| - 1;
    DeletionsFrame(ExitOne(s).instances, s.instances, s.stack[..n]);
  }

  // ---------------------------------------------------------------------
  // Every run

  lemma ActionValid(s: State, a: Action)
    requires Valid(s) && Enabled(s, a)
    ensures Valid(Do(s, a))
  {
    hide Valid, DoStep, DoExit;
    match a
    case Call(t, l) => CallValid(s, t, l);
    case Step(t, made) => StepValid(s, t, made);
    case Exit => ExitDeletesAll(s);
  }

  ghost predicate RunEnabled(s: State, actions: seq<Action>)
    decreases |actions|
  {
    actions != [] ==> Shaped(s) && Enabled(s, actions[0]) && RunEnabled(Do(s, actions[0]), actions[1..])
  }

  ghost function Run(s: State, actions: seq<Action>): State
    requires RunEnabled(s, actions)
    decreases |actions|
  {
    if actions == [] then s else Run(Do(s, actions[0]), actions[1..])
  }

  lemma {:induction false} RunValid(s: State, actions: seq<Action>)
    requires Valid(s) && RunEnabled(s, actions)
    ensures Valid(Run(s, actions))
    decreases |actions|
  {
    hide Valid, Do, Enabled;
    if actions == [] {
    } else {
      ActionValid(s, actions[0]);
      RunValid(Do(s, actions[0]), actions[1..]);
    }
  }

  function Start(registers: seq<bool>, threads: nat): State {
    State(seq(|registers|, l requires 0 <= l < |registers| => Instance(registers[l], 0, 0, 0, {})),
          seq(threads, _ => Idle), [], [])
  }

  /**
   * In every reachable state, for every instance: since its word was last 0,
   * Traits::New was called at most once; the word is CREATING exactly while
   * one thread is creating, and only one is; and every call of Pointer() that
   * has returned gave the one object that New returned.
   */
  lemma OnceProtocol(registers: seq<bool>, threads: nat, actions: seq<Action>, l: nat)
    requires RunEnabled(Start(registers, threads), actions) && l < |Run(Start(registers, threads), actions).instances|
    ensures var s := Run(Start(registers, threads), actions);
            var i := s.instances[l];
            && i.news <= 1
            && (i.word == CREATING <==> exists t :: 0 <= t < |s.threads| && Creator(s.threads[t], l))
            && (forall t, u | 0 <= t < |s.threads| && 0 <= u < |s.threads| ::
                  Creator(s.threads[t], l) && Creator(s.threads[u], l) ==> t == u)
            && (forall p | p in i.returned :: Created(p) && p == i.obj == i.word && i.news == 1)
  {
    hide Run, RunEnabled, Start, OnStack;
    StartValid(registers, threads);
    RunValid(Start(registers, threads), actions);
    var s := Run(Start(registers, threads), actions);
    forall t | 0 <= t < |s.threads| && Creator(s.threads[t], l)
      ensures s.instances[l].word == CREATING && s.instances[l].news <= 1
    {
      assert ThreadValid(s.threads[t], s.instances[l]);
    }
  }

  lemma StartValid(registers: seq<bool>, threads: nat)
    ensures Valid(Start(registers, threads))
  {}

  /**
   * No deadlock: whenever a thread finds the word CREATING, some creator can
   * go on, and after at most two actions of that creator the spinning ends.
   */
  lemma SpinningEnds(s: State, t: nat, made: int)
    requires Valid(s) && t < |s.threads| && s.threads[t].Spinning? && Created(made)
    requires s.instances[s.threads[t].l].word == CREATING
    ensures exists u: nat ::
              && u < |s.threads| && Creator(s.threads[u], s.threads[t].l)
              && var s1 := if s.threads[u].Constructing? then DoStep(s, u, made) else s;
              && Shaped(s1) && Enabled(s1, Step(u, made))
              && var s2 := DoStep(s1, u, made);
              && Shaped(s2) && Enabled(s2, Step(t, made))
              && DoStep(s2, t, made).threads[t] == Reading(s.threads[t].l)
  {}

  /** Thread t goes on alone, for at most n actions. */
  ghost function Solo(s: State, t: nat, made: int, n: nat): State
    requires Valid(s) && t < |s.threads| && Created(made)
    decreases n
  {
    if n == 0 || s.threads[t].Idle? then s
    else
      StepValid(s, t, made);
      StepKeepsShape(s, t, made);
      Solo(DoStep(s, t, made), t, made, n - 1)
  }

  lemma StepKeepsShape(s: State, t: nat, made: int)
    requires Shaped(s) && Enabled(s, Step(t, made))
    ensures var r := DoStep(s, t, made); |r.threads| == |s.threads| && |r.instances| == |s.instances|
  {}

  /** What instance l is once a call of Pointer() has returned that nobody else interfered with. */
  function Returned(i: Instance, made: int): Instance {
    if i.word == 0 then Instance(i.registers, made, i.news + 1, made, i.returned + {made})
    else i.(returned := i.returned + {i.word})
  }

  /** How many actions thread t still takes if it is alone. */
  function StepsLeft(pc: Pc, i: Instance): nat {
    var store := if i.registers then 3 else 2;
    match pc
    case Idle => 0
    case Loading(_) => if Created(i.word) then 2 else if i.word == 0 then 3 + store else 4
    case Swapping(_) => if i.word == 0 then 2 + store else 3
    case Spinning(_) => 2
    case Constructing(_) => 1 + store
    case Storing(_, _) => store
    case Registering(_) => 2
    case Reading(_) => 1
  }

  /** What the call will have made of the instance when it returns. */
  function Promised(pc: Pc, i: Instance, made: int): Instance {
    match pc
    case Constructing(_) => Instance(i.registers, made, i.news + 1, made, i.returned + {made})
    case Storing(_, value) => i.(word := value, returned := i.returned + {value})
    case _ => Returned(i, made)
  }

  lemma SoloStep(s: State, t: nat, made: int)
    requires Valid(s) && Enabled(s, Step(t, made))
    requires s.threads[t].Loading? || s.threads[t].Swapping? || s.threads[t].Spinning? ==>
               s.instances[s.threads[t].l].word != CREATING
    ensures var l, r := s.threads[t].l, DoStep(s, t, made);
            var pc, i := r.threads[t], r.instances[l];
            && |r.threads| == |s.threads|
            && StepsLeft(pc, i) == StepsLeft(s.threads[t], s.instances[l]) - 1
            && (if pc.Idle? then i == Promised(s.threads[t], s.instances[l], made)
                else pc.l == l && Promised(pc, i, made) == Promised(s.threads[t], s.instances[l], made)
                     && !pc.Loading? && (pc.Swapping? || pc.Spinning? ==> i.word != CREATING))
  {
    hide OneCreator, OnStack;
  }

  lemma {:induction false} SoloRun(s: State, t: nat, made: int, n: nat)
    requires Valid(s) && t < |s.threads| && !s.threads[t].Idle? && Created(made)
    requires s.threads[t].Loading? || s.threads[t].Swapping? || s.threads[t].Spinning? ==>
               s.instances[s.threads[t].l].word != CREATING
    requires StepsLeft(s.threads[t], s.instances[s.threads[t].l]) <= n
    ensures var l, r := s.threads[t].l, Solo(s, t, made, n);
            && |r.threads| == |s.threads| && |r.instances| == |s.instances|
            && r.threads[t].Idle? && r.instances[l] == Promised(s.threads[t], s.instances[l], made)
    decreases n
  {
    hide StepsLeft, Promised, OneCreator, OnStack, DoStep;
    StepsRemain(s.threads[t], s.instances[s.threads[t].l]);
    var r := DoStep(s, t, made);
    StepValid(s, t, made);
    StepKeepsShape(s, t, made);
    SoloStep(s, t, made);
    if !r.threads[t].Idle? {
      SoloRun(r, t, made, n - 1);
    }
  }

  lemma StepsRemain(pc: Pc, i: Instance)
    ensures StepsLeft(pc, i) <= 6 && (!pc.Idle? ==> StepsLeft(pc, i) > 0)
  {}

  /**
   * A call of Pointer() on an instance that nobody is creating, if its thread
   * goes on alone, returns after at most six actions; it has constructed the
   * object if there was none, and only then, and returns the one there is.
   */
  lemma PointerReturns(s: State, t: nat, made: int)
    requires Valid(s) && t < |s.threads| && s.threads[t].Loading? && Created(made)
    requires s.instances[s.threads[t].l].word != CREATING
    ensures var l, r := s.threads[t].l, Solo(s, t, made, 6);
            && |r.threads| == |s.threads| && |r.instances| == |s.instances| && r.threads[t].Idle?
            && var before, after := s.instances[l], r.instances[l];
            && (if before.word == 0 then after.word == made && after.news == before.news + 1
                else after.word == before.word && after.news == before.news)
            && after.word in after.returned
  {
    hide OneCreator, OnStack, StepsLeft;
    StepsRemain(s.threads[t], s.instances[s.threads[t].l]);
    SoloRun(s, t, made, 6);
  }
}
