/** Every interleaving of removals, Clear and nested iterators on one map. */
module IdMapRuns {
  import opened IdMapModel

  /**
   * An iterator: the position it started from, where it is, and the positions
   * it has stopped at so far, which include where it is now.
   */
  datatype Cursor = Cursor(start: nat, pos: nat, visited: seq<nat>)

  datatype World = World(s: State, cursors: map<nat, Cursor>, added: seq<nat>)

  /** Calls on the map and on its iterators, which are named by numbers. */
  datatype Op =
    | Add(entry: Entry, at: nat)
    | Remove(id: int)
    | Clear
    | New(i: nat)
    | Copy(i: nat, from: nat)
    | Advance(i: nat)
    | Destroy(i: nat)

  /** What the callers have to see to. */
  predicate Enabled(w: World, op: Op) {
    match op
    case Add(entry, at) => w.s.depth == 0 && entry.id !in Ids(w.s.data) && at <= |w.s.data|
    case Remove(_) => true
    case Clear => true
    case New(i) => i !in w.cursors
    case Copy(i, from) => i !in w.cursors && from in w.cursors && w.cursors[from].pos <= |w.s.data|
    case Advance(i) => i in w.cursors && w.cursors[i].pos < |w.s.data|
    case Destroy(i) => i in w.cursors && w.s.depth > 0
  }

  /** SkipRemovedEntries from a position. */
  function Stop(s: State, c: Cursor, from: nat): Cursor
    requires from <= |s.data|
  {
    var p := s.Skip(from);
    c.(pos := p, visited := c.visited + if p < |s.data| then [p] else [])
  }

  ghost function Do(w: World, op: Op): World
    requires Enabled(w, op)
  {
    match op
    case Add(entry, at) => w.(s := w.s.Add(entry, at), added := w.added + [entry.ptr])
    case Remove(id) => w.(s := w.s.Remove(id))
    case Clear => w.(s := w.s.Clear())
    case New(i) =>
      var s := w.s.Enter();
      w.(s := s, cursors := w.cursors[i := Stop(s, Cursor(0, 0, []), 0)])
    case Copy(i, from) =>
      var s := w.s.Enter();
      var p := w.cursors[from].pos;
      w.(s := s, cursors := w.cursors[i := Stop(s, Cursor(p, p, []), p)])
    case Advance(i) =>
      var c := w.cursors[i];
      w.(cursors := w.cursors[i := Stop(w.s, c, c.pos + 1)])
    case Destroy(i) =>
      w.(s := w.s.Leave(), cursors := w.cursors - {i})
  }

  ghost predicate RunEnabled(w: World, ops: seq<Op>)
    decreases |ops|
  {
    ops != [] ==> Enabled(w, ops[0]) && RunEnabled(Do(w, ops[0]), ops[1..])
  }

  ghost function Run(w: World, ops: seq<Op>): World
    requires RunEnabled(w, ops)
    decreases |ops|
  {
    if ops == [] then w else Run(Do(w, ops[0]), ops[1..])
  }

  predicate Increasing(xs: seq<nat>) { forall i, j :: 0 <= i < j < |xs| ==> xs[i] < xs[j] }

  /** A cursor has stopped, in order, at every entry from its start that was not removed when it got there. */
  predicate CursorValid(s: State, c: Cursor) {
    && c.start <= c.pos <= |s.data| && Increasing(c.visited)
    && (forall v | v in c.visited :: c.start <= v <= c.pos && v < |s.data|)
    && (c.pos < |s.data| ==> c.pos in c.visited)
    && (forall k :: c.start <= k < c.pos ==> k in c.visited || s.data[k].id in s.removed)
  }

  predicate Valid(w: World) {
    && w.s.Valid() && w.s.depth == |w.cursors|
    && forall i | i in w.cursors :: CursorValid(w.s, w.cursors[i])
  }

  lemma StopValid(s: State, c: Cursor, from: nat)
    requires from <= |s.data| && c.start <= from && Increasing(c.visited)
    requires forall v | v in c.visited :: c.start <= v < from
    requires forall k :: c.start <= k < from ==> k in c.visited || s.data[k].id in s.removed
    ensures CursorValid(s, Stop(s, c, from))
  {
    var p := s.Skip(from);
    var visited := c.visited + if p < |s.data| then [p] else [];
    if p < |s.data| {
      assert forall k :: k in visited <==> k in c.visited || k == p;
      assert Increasing(visited) by {
        assert forall i :: 0 <= i < |c.visited| ==> c.visited[i] in c.visited;
      }
    } else {
      assert visited == c.visited;
    }
  }

  lemma AdvanceValid(s: State, c: Cursor)
    requires CursorValid(s, c) && c.pos < |s.data|
    ensures CursorValid(s, Stop(s, c, c.pos + 1))
  {
    StopValid(s, c, c.pos + 1);
  }

  lemma AddValid(s: State, entry: Entry, at: nat)
    requires s.Valid() && entry.id !in Ids(s.data) && at <= |s.data|
    ensures s.Add(entry, at).Valid()
  {
    var all := s.Add(entry, at).data;
    forall i | 0 <= i < |s.data| ensures s.data[i].id in Ids(all) {
      assert all[if i < at then i else i + 1] == s.data[i];
    }
  }

  lemma RemoveValid(s: State, id: int)
    requires s.Valid()
    ensures s.Remove(id).Valid() && s.Remove(id).depth == s.depth
    ensures s.depth > 0 ==> s.Remove(id).data == s.data && s.removed <= s.Remove(id).removed
  {}

  lemma ClearValid(s: State)
    requires s.Valid()
    ensures s.Clear().Valid() && s.Clear().depth == s.depth
    ensures s.depth > 0 ==> s.Clear().data == s.data && s.removed <= s.Clear().removed
  {}

  lemma LeaveValid(s: State)
    requires s.Valid() && s.depth > 0
    ensures s.Leave().Valid() && s.Leave().depth == s.depth - 1
    ensures s.depth > 1 ==> s.Leave().data == s.data && s.Leave().removed == s.removed
  {
    if s.depth == 1 {
      LastLeaveCommits(s);
    }
  }

  lemma KeyCounts<T>(m: map<nat, T>, i: nat, c: T)
    ensures i !in m ==> |m[i := c]| == |m| + 1
    ensures i in m ==> |m[i := c]| == |m| && |m - {i}| == |m| - 1
  {}

  /** Every step keeps the map and all iterators consistent. */
  lemma StepValid(w: World, op: Op)
    requires Valid(w) && Enabled(w, op)
    ensures Valid(Do(w, op))
  {
    hide State.Valid, CursorValid, State.Remove, State.Clear, State.Leave, State.Skip, Ids, Stop;
    match op
    case Add(entry, at) =>
      AddValid(w.s, entry, at);
      NoCursors(w.cursors);
    case Remove(id) =>
      RemoveValid(w.s, id);
      FrameAll(w, w.s.Remove(id));
    case Clear =>
      ClearValid(w.s);
      FrameAll(w, w.s.Clear());
    case New(i) => NewValid(w, i, 0);
    case Copy(i, from) => NewValid(w, i, w.cursors[from].pos);
    case Advance(i) =>
      AdvanceValid(w.s, w.cursors[i]);
      KeyCounts(w.cursors, i, Stop(w.s, w.cursors[i], w.cursors[i].pos + 1));
    case Destroy(i) => DestroyValid(w, i);
  }

  lemma NewValid(w: World, i: nat, p: nat)
    requires Valid(w) && i !in w.cursors && p <= |w.s.data|
    ensures Valid(w.(s := w.s.Enter(), cursors := w.cursors[i := Stop(w.s.Enter(), Cursor(p, p, []), p)]))
  {
    hide State.Valid, CursorValid, Stop;
    EnterValid(w.s);
    FrameAll(w, w.s.Enter());
    NewStop(w.s.Enter(), p);
    KeyCounts(w.cursors, i, Stop(w.s.Enter(), Cursor(p, p, []), p));
  }

  lemma DestroyValid(w: World, i: nat)
    requires Valid(w) && i in w.cursors
    ensures w.s.depth > 0 && Valid(w.(s := w.s.Leave(), cursors := w.cursors - {i}))
  {
    hide State.Valid, CursorValid, State.Leave;
    KeyCounts(w.cursors, i, w.cursors[i]);
    if w.s.depth == 0 {
      NoCursors(w.cursors);
    }
    LeaveValid(w.s);
    if w.s.depth == 1 {
      NoCursors(w.cursors - {i});
    } else {
      FrameAll(w, w.s.Leave());
    }
  }

  lemma NoCursors(m: map<nat, Cursor>)
    requires |m| == 0
    ensures forall i :: i !in m
  {}

  lemma EnterValid(s: State)
    requires s.Valid()
    ensures s.Enter().Valid()
  {}

  lemma NewStop(s: State, p: nat)
    requires p <= |s.data|
    ensures CursorValid(s, Stop(s, Cursor(p, p, []), p))
  {}

  lemma FrameAll(w: World, t: State)
    requires Valid(w)
    requires (w.s.data == t.data && w.s.removed <= t.removed) || |w.cursors| == 0
    ensures forall i | i in w.cursors :: CursorValid(t, w.cursors[i])
  {}

  lemma {:induction false} RunValid(w: World, ops: seq<Op>)
    requires Valid(w) && RunEnabled(w, ops)
    ensures Valid(Run(w, ops))
    decreases |ops|
  {
    hide Valid, Do, Enabled;
    if ops == [] {
    } else {
      StepValid(w, ops[0]);
      RunValid(Do(w, ops[0]), ops[1..]);
    }
  }

  // ---------------------------------------------------------------------
  // One iteration, from construction to the end

  /** Where an iterator stops, the entry is not removed. */
  lemma StopsAtLive(w: World, op: Op, i: nat)
    requires Valid(w) && Enabled(w, op)
    requires op == New(i) || op == Advance(i) || (op.Copy? && op.i == i)
    ensures var r := Do(w, op);
            var c := r.cursors[i];
            c.pos < |r.s.data| ==> r.s.data[c.pos].id !in r.s.removed
  {}

  /** While a cursor is alive, steps do not take entries out, and it only moves forward over live ones. */
  predicate Progress(w: World, r: World, i: nat) {
    && i in w.cursors && i in r.cursors
    && r.s.data == w.s.data && w.s.removed <= r.s.removed
    && r.s.released == w.s.released
    && r.cursors[i].start == w.cursors[i].start
    && w.cursors[i].pos <= r.cursors[i].pos
    && w.cursors[i].visited <= r.cursors[i].visited
    && forall v | v in r.cursors[i].visited && v !in w.cursors[i].visited ::
         v < |w.s.data| && w.s.data[v].id !in w.s.removed
  }

  function Advances(ops: seq<Op>, i: nat): nat {
    if ops == [] then 0 else (if ops[0] == Advance(i) then 1 else 0) + Advances(ops[1..], i)
  }

  lemma StepProgress(w: World, op: Op, i: nat)
    requires Valid(w) && Enabled(w, op) && i in w.cursors && op != Destroy(i)
    ensures Progress(w, Do(w, op), i)
    ensures op == Advance(i) ==> Do(w, op).cursors[i].pos > w.cursors[i].pos
  {
    hide CursorValid, State.Valid, State.Remove, State.Clear, State.Leave, Progress, Stop;
    if w.s.depth == 0 {
      NoCursors(w.cursors);
    }
    match op
    case Add(entry, at) =>
    case Remove(id) =>
      RemoveDefers(w.s, id);
      StaysPut(w, Do(w, op), i);
    case Clear =>
      ClearDefers(w.s);
      StaysPut(w, Do(w, op), i);
    case New(j) => StaysPut(w, Do(w, op), i);
    case Copy(j, from) => StaysPut(w, Do(w, op), i);
    case Advance(j) =>
      if j == i {
        MovesOn(w, i);
      } else {
        StaysPut(w, Do(w, op), i);
      }
    case Destroy(j) =>
      KeyCounts(w.cursors, j, w.cursors[j]);
      if w.s.depth == 1 {
        NoCursors(w.cursors - {j});
      }
      LeaveDefers(w.s);
      StaysPut(w, Do(w, op), i);
  }

  lemma StaysPut(w: World, r: World, i: nat)
    requires i in w.cursors && i in r.cursors && r.cursors[i] == w.cursors[i]
    requires r.s.data == w.s.data && w.s.removed <= r.s.removed && r.s.released == w.s.released
    ensures Progress(w, r, i)
  {}

  lemma MovesOn(w: World, i: nat)
    requires Enabled(w, Advance(i))
    ensures Progress(w, Do(w, Advance(i)), i)
    ensures Do(w, Advance(i)).cursors[i].pos > w.cursors[i].pos
  {}

  lemma RemoveDefers(s: State, id: int)
    requires s.depth > 0
    ensures var r := s.Remove(id); r.data == s.data && s.removed <= r.removed && r.released == s.released
  {}

  lemma ClearDefers(s: State)
    requires s.depth > 0
    ensures var r := s.Clear(); r.data == s.data && s.removed <= r.removed && r.released == s.released
  {}

  lemma LeaveDefers(s: State)
    requires s.depth > 1
    ensures s.Leave() == s.(depth := s.depth - 1)
  {}

  lemma ProgressTransitive(a: World, b: World, c: World, i: nat)
    requires Progress(a, b, i) && Progress(b, c, i)
    ensures Progress(a, c, i)
  {}

  lemma {:induction false} RunProgress(w: World, ops: seq<Op>, i: nat)
    requires Valid(w) && RunEnabled(w, ops) && i in w.cursors && Destroy(i) !in ops
    ensures Progress(w, Run(w, ops), i)
    ensures w.cursors[i].pos + Advances(ops, i) <= Run(w, ops).cursors[i].pos
    decreases |ops|
  {
    hide Valid, Do, Enabled, Progress;
    if ops == [] {
      ProgressNone(w, i);
    } else {
      assert ops[0] in ops && forall op | op in ops[1..] :: op in ops;
      var next := Do(w, ops[0]);
      StepValid(w, ops[0]);
      StepProgress(w, ops[0], i);
      ProgressHas(w, next, i);
      RunProgress(next, ops[1..], i);
      ProgressTransitive(w, next, Run(next, ops[1..]), i);
    }
  }

  lemma ProgressNone(w: World, i: nat)
    requires i in w.cursors
    ensures Progress(w, w, i)
  {}

  lemma ProgressHas(w: World, r: World, i: nat)
    requires Progress(w, r, i)
    ensures i in r.cursors && w.cursors[i].pos <= r.cursors[i].pos
  {}

  lemma {:induction false} IncreasingOnce(xs: seq<nat>, x: nat)
    requires Increasing(xs)
    ensures multiset(xs)[x] == if x in xs then 1 else 0
  {
    if xs == [] {
    } else {
      var n := |xs| - 1;
      var rest := xs[..n];
      assert xs == rest + [xs[n]];
      IncreasingOnce(rest, x);
      assert forall j :: 0 <= j < n ==> rest[j] == xs[j] < xs[n];
    }
  }

  lemma {:induction false} RunConcat(w: World, a: seq<Op>, b: seq<Op>)
    requires RunEnabled(w, a + b)
    ensures RunEnabled(w, a) && RunEnabled(Run(w, a), b) && Run(w, a + b) == Run(Run(w, a), b)
    decreases |a|
  {
    hide Do, Enabled;
    if a == [] {
      assert a + b == b;
    } else {
      assert (a + b)[1..] == a[1..] + b;
      RunConcat(Do(w, a[0]), a[1..], b);
    }
  }

  /** Where a new iterator starts: at the beginning, or where the one stands that it is copied from. */
  function StartOf(w: World, op: Op): nat
    requires Enabled(w, op) && (op.New? || op.Copy?)
  {
    if op.Copy? then w.cursors[op.from].pos else 0
  }

  /**
   * An iterator made or copied at any time and run to its end, whatever other
   * iterators and removals do meanwhile: no entry leaves the table, the entries
   * from its start on that are still live at the end were all yielded, just
   * once, none was yielded twice, and the end was reached in at most as many
   * steps as there are entries. At whatever point the run is cut in two, no
   * entry that has been removed by then is yielded later.
   */
  lemma WholeIteration(w: World, op: Op, a: seq<Op>, b: seq<Op>)
    requires Valid(w) && Enabled(w, op) && (op.New? || op.Copy?)
    requires RunEnabled(Do(w, op), a + b) && Destroy(op.i) !in a + b
    ensures RunEnabled(Do(w, op), a)
    ensures var m, r := Run(Do(w, op), a), Run(Do(w, op), a + b);
            && op.i in m.cursors && op.i in r.cursors && r.s.data == m.s.data == w.s.data
            && var c := r.cursors[op.i];
            && (forall k :: multiset(c.visited)[k] <= 1)
            && (forall k | k in c.visited :: StartOf(w, op) <= k < |w.s.data| && w.s.data[k].id !in w.s.removed)
            && (forall k | k in c.visited && k !in m.cursors[op.i].visited :: w.s.data[k].id !in m.s.removed)
            && StartOf(w, op) + Advances(a + b, op.i) <= |w.s.data|
            && (c.pos == |r.s.data| ==>
                  forall k: nat :: StartOf(w, op) <= k < |r.s.data| && r.s.data[k].id !in r.s.removed ==>
                    multiset(c.visited)[k] == 1)
  {
    hide Valid, Run, RunEnabled, Enabled, Do, StartOf;
    StepValid(w, op);
    NewProgress(w, op);
    IterationFrom(Do(w, op), op.i, a, b);
  }

  /** The same for an iterator that is there already, counted from where it is. */
  lemma IterationFrom(w: World, i: nat, a: seq<Op>, b: seq<Op>)
    requires Valid(w) && i in w.cursors && RunEnabled(w, a + b) && Destroy(i) !in a + b
    ensures RunEnabled(w, a)
    ensures var m, r := Run(w, a), Run(w, a + b);
            && i in m.cursors && i in r.cursors && r.s.data == m.s.data == w.s.data
            && var c := r.cursors[i];
            && (forall k :: multiset(c.visited)[k] <= 1)
            && (forall k | k in c.visited :: w.cursors[i].start <= k)
            && (forall k | k in c.visited && k !in w.cursors[i].visited ::
                  k < |w.s.data| && w.s.data[k].id !in w.s.removed)
            && (forall k | k in c.visited && k !in m.cursors[i].visited :: w.s.data[k].id !in m.s.removed)
            && w.cursors[i].pos + Advances(a + b, i) <= |w.s.data|
            && (c.pos == |r.s.data| ==>
                  forall k: nat :: w.cursors[i].start <= k < |r.s.data| && r.s.data[k].id !in r.s.removed ==>
                    multiset(c.visited)[k] == 1)
  {
    hide Valid, CursorValid, Increasing, Run, RunEnabled;
    RunConcat(w, a, b);
    assert forall op :: op in a || op in b ==> op in a + b;
    RunProgress(w, a, i);
    RunValid(w, a);
    RunProgress(w, a + b, i);
    RunProgress(Run(w, a), b, i);
    RunValid(w, a + b);
    var r := Run(w, a + b);
    ValidCursor(r, i);
    forall k: nat
      ensures multiset(r.cursors[i].visited)[k] == if k in r.cursors[i].visited then 1 else 0
    {
      IncreasingOnce(r.cursors[i].visited, k);
    }
  }

  lemma NewProgress(w: World, op: Op)
    requires Enabled(w, op) && (op.New? || op.Copy?)
    ensures var r := Do(w, op);
            && r.s.data == w.s.data && r.s.removed == w.s.removed && op.i in r.cursors
            && r.cursors[op.i].start == StartOf(w, op) <= r.cursors[op.i].pos
            && forall k | k in r.cursors[op.i].visited ::
                 StartOf(w, op) <= k < |w.s.data| && w.s.data[k].id !in w.s.removed
  {}

  lemma ValidCursor(w: World, i: nat)
    requires Valid(w) && i in w.cursors
    ensures var c := w.cursors[i];
            && Increasing(c.visited) && c.start <= c.pos <= |w.s.data|
            && (forall k | k in c.visited :: c.start <= k)
            && (forall k :: c.start <= k < c.pos ==> k in c.visited || w.s.data[k].id in w.s.removed)
  {}

  // ---------------------------------------------------------------------
  // What stays live

  /** An operation on other ids leaves an entry live or not, as it was, at whatever depth. */
  lemma StepKeepsLive(w: World, op: Op, e: Entry)
    requires Valid(w) && Enabled(w, op) && op != Clear && !(op.Add? && op.entry.id == e.id)
    ensures e in Do(w, op).s.Live() <==> e in w.s.Live() && op != Remove(e.id)
  {
    hide State.Valid, CursorValid, Kept, Ids, DistinctIds, Stop, State.Leave;
    match op
    case Add(entry, at) =>
      KeptIn(w.s.data, w.s.removed, e);
      KeptIn(w.s.Add(entry, at).data, w.s.removed, e);
      InsertedIn(w.s.data, entry, at, e);
    case Remove(id) => RemoveTakesOne(w.s, id);
    case Destroy(_) => LeaveKeepsLive(w.s, e);
    case _ =>
  }

  lemma InsertedIn(data: seq<Entry>, entry: Entry, at: nat, e: Entry)
    requires at <= |data|
    ensures e in data[..at] + [entry] + data[at..] <==> e in data || e == entry
  {
    assert data == data[..at] + data[at..];
  }

  lemma LeaveKeepsLive(s: State, e: Entry)
    requires s.Valid() && s.depth > 0
    ensures e in s.Leave().Live() <==> e in s.Live()
  {
    if s.depth == 1 {
      LastLeaveCommits(s);
      KeepAll(s.Leave().data);
    }
  }

  /**
   * Over every run without Clear in which the id of an entry is not added again:
   * the entry is live at the end exactly if it was live at the start and no
   * Remove named its id.
   */
  lemma {:induction false} RunKeepsLive(w: World, ops: seq<Op>, e: Entry)
    requires Valid(w) && RunEnabled(w, ops)
    requires forall op <- ops :: op != Clear && !(op.Add? && op.entry.id == e.id)
    ensures e in Run(w, ops).s.Live() <==> e in w.s.Live() && Remove(e.id) !in ops
    decreases |ops|
  {
    hide Valid, Do, Enabled, State.Live;
    if ops == [] {
    } else {
      assert ops[0] in ops && forall op :: op in ops <==> op == ops[0] || op in ops[1..];
      StepValid(w, ops[0]);
      StepKeepsLive(w, ops[0], e);
      RunKeepsLive(Do(w, ops[0]), ops[1..], e);
    }
  }

  // ---------------------------------------------------------------------
  // Ownership

  /** Every pointer ever added is still in the table or has been deleted, as often as it was added. */
  predicate Conserved(own: bool, added: seq<nat>, data: seq<Entry>, released: seq<nat>) {
    if own then multiset(added) == multiset(released) + multiset(Pointers(data)) else released == []
  }

  predicate Owned(w: World) { Conserved(w.s.own, w.added, w.s.data, w.s.released) }

  lemma {:induction false} PointersConcat(a: seq<Entry>, b: seq<Entry>)
    ensures Pointers(a + b) == Pointers(a) + Pointers(b)
  {
    if a == [] {
      assert a + b == b;
    } else {
      assert (a + b)[1..] == a[1..] + b;
      PointersConcat(a[1..], b);
    }
  }

  /** Putting an entry in, or taking it out, changes the pointers by just one. */
  lemma PointersSplice(a: seq<Entry>, e: Entry, b: seq<Entry>)
    ensures multiset(Pointers(a + [e] + b)) == multiset(Pointers(a + b)) + multiset{e.ptr}
  {
    PointersConcat(a, b);
    PointersConcat(a + [e], b);
    PointersConcat(a, [e]);
    assert [e][1..] == [];
    assert Pointers([e]) == [e.ptr];
  }

  lemma RemoveConserves(s: State, id: int, added: seq<nat>)
    requires Conserved(s.own, added, s.data, s.released)
    ensures var r := s.Remove(id); Conserved(s.own, added, r.data, r.released) && r.own == s.own
  {
    hide Pointers;
    var i := Find(s.data, id);
    if i < |s.data| && s.depth == 0 && s.own {
      var e, a, b := s.data[i], s.data[..i], s.data[i + 1..];
      assert s.data == a + [e] + b;
      PointersSplice(a, e, b);
      assert multiset(s.released + [e.ptr]) == multiset(s.released) + multiset{e.ptr};
    }
  }

  lemma {:induction false} RemoveAllConserves(s: State, ids: seq<int>, added: seq<nat>)
    requires Conserved(s.own, added, s.data, s.released)
    ensures var r := s.RemoveAll(ids); Conserved(s.own, added, r.data, r.released) && r.own == s.own
    decreases |ids|
  {
    hide Conserved, State.Remove;
    if ids == [] {
    } else {
      RemoveConserves(s, ids[0], added);
      RemoveAllConserves(s.Remove(ids[0]), ids[1..], added);
    }
  }

  lemma ReleaseAllConserves(s: State, added: seq<nat>)
    requires s.own && Conserved(true, added, s.data, s.released)
    ensures Conserved(true, added, [], s.released + Pointers(s.data))
    ensures multiset(s.released + Pointers(s.data)) == multiset(added)
  {}

  lemma StepOwned(w: World, op: Op)
    requires Owned(w) && Enabled(w, op)
    ensures Owned(Do(w, op))
  {
    hide State.RemoveAll, State.Remove;
    match op
    case Add(entry, at) =>
      PointersSplice(w.s.data[..at], entry, w.s.data[at..]);
      assert w.s.data[..at] + w.s.data[at..] == w.s.data;
    case Remove(id) => RemoveConserves(w.s, id, w.added);
    case Clear =>
      if w.s.own {
        ReleaseAllConserves(w.s, w.added);
      }
    case Destroy(i) =>
      if w.s.depth == 1 {
        RemoveAllConserves(w.s.(depth := 0), Ascending(w.s.removed), w.added);
      }
    case _ =>
  }

  lemma {:induction false} RunOwned(w: World, ops: seq<Op>)
    requires Owned(w) && RunEnabled(w, ops)
    ensures Owned(Run(w, ops)) && Run(w, ops).s.own == w.s.own
    decreases |ops|
  {
    hide Owned, Enabled;
    if ops == [] {
    } else {
      StepOwned(w, ops[0]);
      StepKeepsOwn(w, ops[0]);
      RunOwned(Do(w, ops[0]), ops[1..]);
    }
  }

  lemma StepKeepsOwn(w: World, op: Op)
    requires Enabled(w, op)
    ensures Do(w, op).s.own == w.s.own
  {
    if op.Destroy? && w.s.depth == 1 {
      RemoveAllKeepsOwn(w.s.(depth := 0), Ascending(w.s.removed));
    }
  }

  lemma {:induction false} RemoveAllKeepsOwn(s: State, ids: seq<int>)
    ensures s.RemoveAll(ids).own == s.own
    decreases |ids|
  {
    if ids == [] {
    } else {
      RemoveAllKeepsOwn(s.Remove(ids[0]), ids[1..]);
    }
  }

  function Fresh(own: bool): World { World(State(own, [], {}, 0, []), map[], []) }

  /**
   * Over every run of a map that owns its pointers, up to and including its
   * destruction, each pointer is deleted just as often as it was added; a map
   * that does not own them deletes none. A run in which pointers are distinct
   * deletes each of them once.
   */
  lemma PointersReleasedOnce(own: bool, ops: seq<Op>)
    requires RunEnabled(Fresh(own), ops)
    ensures var r := Run(Fresh(own), ops);
            var released := r.s.Destroyed().released;
            && (own ==> multiset(released) == multiset(r.added))
            && (own && (forall i, j :: 0 <= i < j < |r.added| ==> r.added[i] != r.added[j]) ==>
                  forall p | p in r.added :: multiset(released)[p] == 1)
            && (!own ==> released == [])
  {
    hide RunEnabled, Run;
    RunOwned(Fresh(own), ops);
    var r := Run(Fresh(own), ops);
    if own {
      ReleaseAllConserves(r.s, r.added);
      if forall i, j :: 0 <= i < j < |r.added| ==> r.added[i] != r.added[j] {
        forall p | p in r.added
          ensures multiset(r.added)[p] == 1
        {
          DistinctOnce(r.added, p);
        }
      }
    }
  }

  lemma {:induction false} DistinctOnce(xs: seq<nat>, x: nat)
    requires forall i, j :: 0 <= i < j < |xs| ==> xs[i] != xs[j]
    ensures multiset(xs)[x] == if x in xs then 1 else 0
  {
    if xs == [] {
    } else {
      var n := |xs| - 1;
      var rest := xs[..n];
      assert xs == rest + [xs[n]];
      DistinctOnce(rest, x);
      assert forall j :: 0 <= j < n ==> rest[j] == xs[j] != xs[n];
    }
  }

  // ---------------------------------------------------------------------
  // Where the map is not what it looks like

  /** Clear leaves the map empty unless it holds external pointers and nobody is iterating. */
  lemma ClearEmpties(s: State)
    requires s.Valid()
    ensures s.Clear().Live() == [] <==> s.own || s.depth > 0 || s.data == []
  {
    if s.depth > 0 {
      var gone := s.removed + Ids(s.data);
      assert gone == Ids(s.data);
      KeptCount(s.data, gone);
      IdCount(s.data);
    } else {
      KeepAll(s.data);
    }
  }

  lemma {:induction false} IdCount(data: seq<Entry>)
    requires DistinctIds(data)
    ensures |Ids(data)| == |data|
  {
    hide Ids, DistinctIds;
    if data == [] {
      NoIds();
    } else {
      IdsCons(data);
      IdCount(data[1..]);
    }
  }

  /** The map of external pointers with one entry is not emptied by Clear. */
  lemma ClearKeepsExternal()
    ensures var s := State(false, [Entry(1, 7)], {}, 0, []);
            s.Valid() && s.Clear() == s && |s.Clear().Live()| == 1
  {}

  /** Lookup: 0 stands for NULL. */
  function LookupIn(data: seq<Entry>, id: int): nat {
    var i := Find(data, id);
    if i == |data| then 0 else data[i].ptr
  }

  /** What is added under an id is found under it, and nothing else is found differently. */
  lemma AddedIsFound(s: State, entry: Entry, at: nat, id: int)
    requires s.Valid() && entry.id !in Ids(s.data) && at <= |s.data|
    ensures LookupIn(s.Add(entry, at).data, id) == if id == entry.id then entry.ptr else LookupIn(s.data, id)
  {
    hide Ids;
    var all := s.Add(entry, at).data;
    AddValid(s, entry, at);
    if id == entry.id {
      LookupEntry(all, at);
    } else if id in Ids(s.data) {
      FindsIds(s.data, id);
      var k := Find(s.data, id);
      assert all[if k < at then k else k + 1] == s.data[k];
      LookupEntry(all, if k < at then k else k + 1);
    } else {
      FindsIds(s.data, id);
      assert forall i :: 0 <= i < |all| && i != at ==> all[i] == s.data[if i < at then i else i - 1];
    }
  }

  lemma LookupEntry(data: seq<Entry>, k: nat)
    requires DistinctIds(data) && k < |data|
    ensures LookupIn(data, data[k].id) == data[k].ptr
  {}

  /**
   * Lookup agrees with the live entries exactly for ids that are not waiting to
   * be removed, and for those whose pointer is NULL anyway.
   */
  lemma LookupIsLive(s: State, id: int)
    requires s.Valid()
    ensures LookupIn(s.data, id) == LookupIn(s.Live(), id) <==> id !in s.removed || Entry(id, 0) in s.data
  {
    KeptLookup(s.data, s.removed, id);
    FindsIds(s.data, id);
  }

  /** An id removed during an iteration is still found. */
  lemma LookupFindsRemoved()
    ensures var s := State(false, [Entry(1, 7)], {}, 1, []).Remove(1);
            s.Valid() && LookupIn(s.data, 1) == 7 && s.Live() == []
  {
    assert [Entry(1, 7)][1..] == [];
  }

  lemma {:induction false} KeptLookup(data: seq<Entry>, gone: set<int>, id: int)
    ensures LookupIn(Kept(data, gone), id) == if id in gone then 0 else LookupIn(data, id)
  {
    if data == [] {
    } else {
      hide Kept, LookupIn;
      KeptLookup(data[1..], gone, id);
      assert [data[0]] + data[1..] == data;
      KeptCons(data[0], data[1..], gone);
      LookupCons(data[0], Kept(data[1..], gone), id);
      LookupCons(data[0], data[1..], id);
    }
  }

  lemma LookupCons(e: Entry, rest: seq<Entry>, id: int)
    ensures LookupIn([e] + rest, id) == if e.id == id then e.ptr else LookupIn(rest, id)
  {}
}
