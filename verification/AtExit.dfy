/** AtExitManager of base/at_exit.cc: managers that shadow each other, callbacks in LIFO order. */
module AtExit {

  /** A closure, by its name. */
  type Task = nat

  function Reverse(s: seq<Task>): (r: seq<Task>)
    ensures |r| == |s| && forall i :: 0 <= i < |s| ==> r[i] == s[|s| - 1 - i]
  {
    if s == [] then [] else [s[|s| - 1]] + Reverse(s[..|s| - 1])
  }

  /** The callback stacks from the top manager down, and the callbacks that have run. */
  datatype Exits = Exits(stacks: seq<seq<Task>>, ran: seq<Task>) {

    function Register(task: Task): Exits {
      if stacks == [] then this else this.(stacks := stacks[0 := stacks[0] + [task]])
    }

    function Process(): Exits {
      if stacks == [] then this else Exits(stacks[0 := []], ran + Reverse(stacks[0]))
    }

    function Push(): Exits { this.(stacks := [[]] + stacks) }

    function Pop(): Exits {
      if stacks == [] then this else Process().(stacks := stacks[1..])
    }
  }

  // ---------------------------------------------------------------------
  // The class and its static state

  class AtExitManager {
    var stack: seq<Task>
    const next: AtExitManager?

    constructor (next: AtExitManager?)
      ensures this.next == next && stack == []
    {
      this.next := next;
      stack := [];
    }
  }

  /** The managers that next_manager_ leads through, from the top down. */
  ghost predicate Linked(top: AtExitManager?, chain: seq<AtExitManager>) {
    if chain == [] then top == null
    else top == chain[0] && chain[0] !in chain[1..] && Linked(chain[0].next, chain[1..])
  }

  ghost function StacksOf(chain: seq<AtExitManager>): seq<seq<Task>>
    reads chain
  {
    if chain == [] then [] else [chain[0].stack] + StacksOf(chain[1..])
  }

  class Process {
    /** g_top_manager. */
    var top: AtExitManager?
    /** The managers from the top down. */
    ghost var chain: seq<AtExitManager>
    ghost var ran: seq<Task>

    ghost predicate Valid()
      reads this
    {
      Linked(top, chain)
    }

    ghost function Value(): Exits
      reads this, chain
    {
      Exits(StacksOf(chain), ran)
    }

    constructor ()
      ensures Valid() && Value() == Exits([], [])
    {
      top := null;
      chain, ran := [], [];
    }

    /** AtExitManager(shadow): only a shadow may cover another manager. */
    method Enter(shadow: bool) returns (manager: AtExitManager)
      requires Valid() && (shadow || top == null)
      modifies this
      ensures Valid() && top == manager && fresh(manager) && chain == [manager] + old(chain)
      ensures Value() == old(Value()).Push()
    {
      manager := new AtExitManager(top);
      top := manager;
      chain := [manager] + chain;
      assert chain[1..] == old(chain);
    }

    method RegisterTask(task: Task)
      requires Valid()
      modifies top
      ensures Valid() && Value() == old(Value()).Register(task)
    {
      if top == null {
        return;
      }
      top.stack := top.stack + [task];
    }

    /** The callbacks must not register any: the lock is held. */
    method ProcessCallbacksNow()
      requires Valid()
      modifies this`ran, top
      ensures Valid() && Value() == old(Value()).Process()
    {
      if top == null {
        return;
      }
      while top.stack != []
        invariant ran + Reverse(top.stack) == old(ran) + Reverse(old(top.stack))
        invariant StacksOf(chain[1..]) == old(StacksOf(chain[1..]))
        decreases |top.stack|
      {
        var task := top.stack[|top.stack| - 1];
        var rest := top.stack[..|top.stack| - 1];
        assert ran + ([task] + Reverse(rest)) == ran + [task] + Reverse(rest);
        ran := ran + [task];
        top.stack := rest;
      }
      assert Reverse([]) == [];
    }

    /** ~AtExitManager, which has to be that of the top manager. */
    method Leave(manager: AtExitManager)
      requires Valid() && (top == null || top == manager)
      modifies this, manager
      ensures Valid() && Value() == old(Value()).Pop()
      ensures old(top) != null ==> chain == old(chain)[1..]
    {
      if top == null {
        return;
      }
      ProcessCallbacksNow();
      top := manager.next;
      chain := chain[1..];
    }
  }

  // ---------------------------------------------------------------------
  // Properly nested managers

  /** What goes on while a manager is on top. */
  datatype Item = Registered(task: Task) | Processed | Scope(body: seq<Item>)

  function Play(e: Exits, items: seq<Item>): Exits
    decreases items
  {
    if items == [] then e else
      var next := match items[0]
        case Registered(task) => e.Register(task)
        case Processed => e.Process()
        case Scope(body) => Play(e.Push(), body).Pop();
      Play(next, items[1..])
  }

  /** All tasks registered, with those of inner scopes. */
  function Tasks(items: seq<Item>): seq<Task>
    decreases items
  {
    if items == [] then [] else
      (match items[0]
       case Registered(task) => [task]
       case Processed => []
       case Scope(body) => Tasks(body))
      + Tasks(items[1..])
  }

  /** The tasks registered here and not in an inner scope, since the last ProcessCallbacksNow here. */
  function Pending(items: seq<Item>, before: seq<Task>): seq<Task> {
    if items == [] then before else
      Pending(items[1..],
        match items[0]
        case Registered(task) => before + [task]
        case Processed => []
        case Scope(_) => before)
  }

  lemma ReverseSame(s: seq<Task>)
    ensures multiset(Reverse(s)) == multiset(s)
  {
    if s == [] {
    } else {
      ReverseSame(s[..|s| - 1]);
      assert s == s[..|s| - 1] + [s[|s| - 1]];
    }
  }

  /** What one item does, as PlayKeeps says it of several. */
  lemma OneItem(e: Exits, item: Item, r: Exits, tasks: seq<Task>)
    requires e.stacks != []
    requires item.Registered? ==> r == e.Register(item.task) && tasks == [item.task]
    requires item.Processed? ==> r == e.Process() && tasks == []
    requires item.Scope? ==>
      r.stacks == e.stacks && e.ran <= r.ran && multiset(r.ran) == multiset(e.ran) + multiset(tasks)
    ensures var left :=
              match item {
                case Registered(task) => e.stacks[0] + [task]
                case Processed => []
                case Scope(_) => e.stacks[0]
              };
            && r.stacks == [left] + e.stacks[1..] && e.ran <= r.ran
            && multiset(r.ran) + multiset(left) == multiset(e.ran) + multiset(e.stacks[0]) + multiset(tasks)
  {
    hide Reverse;
    var top := e.stacks[0];
    match item
    case Registered(task) =>
      assert e.stacks[0 := top + [task]] == [top + [task]] + e.stacks[1..];
    case Processed =>
      ReverseSame(top);
      assert e.stacks[0 := []] == [[]] + e.stacks[1..];
      assert multiset(e.ran + Reverse(top)) == multiset(e.ran) + multiset(Reverse(top));
    case Scope(_) =>
      assert e.stacks == [top] + e.stacks[1..];
  }

  /** The first item, and then the others. */
  lemma PlayStep(e: Exits, items: seq<Item>) returns (next: Exits, first: seq<Task>, before: seq<Task>)
    requires e.stacks != [] && items != []
    ensures match items[0] {
              case Registered(task) => next == e.Register(task) && first == [task] && before == e.stacks[0] + [task]
              case Processed => next == e.Process() && first == [] && before == []
              case Scope(body) => next == Play(e.Push(), body).Pop() && first == Tasks(body) && before == e.stacks[0]
            }
    ensures Play(e, items) == Play(next, items[1..])
    ensures Pending(items, e.stacks[0]) == Pending(items[1..], before)
    ensures Tasks(items) == first + Tasks(items[1..])
  {
    match items[0] {
      case Registered(task) => next, first, before := e.Register(task), [task], e.stacks[0] + [task];
      case Processed => next, first, before := e.Process(), [], [];
      case Scope(body) => next, first, before := Play(e.Push(), body).Pop(), Tasks(body), e.stacks[0];
    }
  }

  lemma AddUp(all: multiset<Task>, next: multiset<Task>, start: multiset<Task>, first: seq<Task>, rest: seq<Task>)
    requires all == next + multiset(rest) && next == start + multiset(first)
    ensures all == start + multiset(first + rest)
  {}

  /** Inner managers leave the outer ones alone, and nothing is lost or run twice. */
  lemma {:induction false} PlayKeeps(e: Exits, items: seq<Item>)
    requires e.stacks != []
    ensures Play(e, items).stacks == [Pending(items, e.stacks[0])] + e.stacks[1..]
    ensures e.ran <= Play(e, items).ran
    ensures multiset(Play(e, items).ran) + multiset(Pending(items, e.stacks[0]))
         == multiset(e.ran) + multiset(e.stacks[0]) + multiset(Tasks(items))
    decreases items, 0
  {
    if items == [] {
      assert e.stacks == [e.stacks[0]] + e.stacks[1..];
    } else {
      hide Reverse, Play, Pending, Tasks, Exits.Register, Exits.Process, Exits.Pop, Exits.Push;
      var next, first, before := PlayStep(e, items);
      if items[0].Scope? {
        ScopeRunsAll(e, items[0].body);
      }
      OneItem(e, items[0], next, first);
      assert next.stacks[0] == before && next.stacks[1..] == e.stacks[1..];
      PlayKeeps(next, items[1..]);
      AddUp(multiset(Play(e, items).ran) + multiset(Pending(items, e.stacks[0])), multiset(next.ran) + multiset(before),
            multiset(e.ran) + multiset(e.stacks[0]), first, Tasks(items[1..]));
    }
  }

  /**
   * A manager that comes and goes leaves the managers below as they were; each
   * task registered meanwhile, there or in an inner scope, has run just once;
   * and the last to run are those still on its stack, in reverse order.
   */
  lemma {:induction false} ScopeRunsAll(e: Exits, body: seq<Item>)
    ensures var r := Play(e.Push(), body).Pop();
            && r.stacks == e.stacks && e.ran <= r.ran
            && multiset(r.ran) == multiset(e.ran) + multiset(Tasks(body))
            && r.ran == Play(e.Push(), body).ran + Reverse(Pending(body, []))
    decreases body, 1
  {
    PlayKeeps(e.Push(), body);
    ReverseSame(Pending(body, []));
    assert e.Push().stacks[1..] == e.stacks;
  }

  function Registrations(tasks: seq<Task>): seq<Item> {
    if tasks == [] then [] else [Registered(tasks[0])] + Registrations(tasks[1..])
  }

  /** With registrations only, the callbacks run in exactly the reverse order. */
  lemma LifoOrder(e: Exits, tasks: seq<Task>)
    ensures Play(e.Push(), Registrations(tasks)).Pop() == e.(ran := e.ran + Reverse(tasks))
  {
    ScopeRunsAll(e, Registrations(tasks));
    PendingRegistrations(tasks, []);
    PlayRegistrations(e.Push(), tasks);
    assert [] + tasks == tasks;
  }

  lemma {:induction false} PendingRegistrations(tasks: seq<Task>, before: seq<Task>)
    ensures Pending(Registrations(tasks), before) == before + tasks
  {
    if tasks != [] {
      PendingRegistrations(tasks[1..], before + [tasks[0]]);
      assert before + [tasks[0]] + tasks[1..] == before + tasks;
      assert Registrations(tasks)[1..] == Registrations(tasks[1..]);
    } else {
      assert before + tasks == before;
    }
  }

  lemma {:induction false} PlayRegistrations(e: Exits, tasks: seq<Task>)
    ensures Play(e, Registrations(tasks)).ran == e.ran
    decreases |tasks|
  {
    if tasks == [] {
    } else {
      PlayRegistrations(e.Register(tasks[0]), tasks[1..]);
      assert Registrations(tasks)[1..] == Registrations(tasks[1..]);
    }
  }
}
