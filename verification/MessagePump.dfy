/**
 * MessagePumpDefault: the run loop with its auto-reset event, action by
 * action, with nested Runs entered from delegate callbacks and with any number
 * of producers that queue work and then call ScheduleWork.
 */
module MessagePump {

  datatype Time = Null | At(t: int)

  /** Where one activation of Run is. */
  datatype Where =
    | CallDoWork
    | InDoWork
    | CallDelayed(did: bool)
    | InDelayed(did: bool)
    | CallIdle
    | InIdle
    | CallWait
    | Blocked(timed: bool)

  /** One activation of Run; nested and quit say what the callback it is in has done so far. */
  datatype Frame = Frame(at: Where, nested: bool, quit: bool) {
    predicate InCallback() { at.InDoWork? || at.InDelayed? || at.InIdle? }

    /** DoWork has returned false, and nothing since then will make the loop go round before it waits. */
    predicate Quiet() {
      && !nested
      && (at == CallDelayed(false) || at == InDelayed(false) || at.CallIdle? || at.InIdle?
          || at.CallWait? || at.Blocked?)
    }
  }

  /**
   * frames are the active Runs, the innermost last. queued is the work that
   * DoWork has not taken yet; unannounced[p] says that producer p has queued
   * work but not yet called ScheduleWork. calls counts delegate calls.
   */
  datatype State = State(
    frames: seq<Frame>, keepRunning: bool, signaled: bool, delayed: Time, now: int,
    queued: nat, unannounced: seq<bool>, calls: nat)
  {
    function Top(): Frame
      requires frames != []
    {
      frames[|frames| - 1]
    }

    function WithTop(f: Frame): State
      requires frames != []
    {
      this.(frames := frames[|frames| - 1 := f])
    }

    function Goto(at: Where): State
      requires frames != []
    {
      WithTop(Frame(at, false, false))
    }
  }

  datatype Action =
    | Run                            // enter Run, from outside or from a callback
    | Quit                           // from a callback
    | ScheduleDelayedWork(t: int)    // on the pump's thread: before Run, or from a callback
    | TakeTask                       // DoWork takes one piece of work
    | Enter                          // the loop calls the delegate
    | Return(did: bool, next: Time)  // the delegate returns; next is DoDelayedWork's out-parameter
    | Wait                           // the loop looks at delayed_work_time_
    | Wake                           // the event is signalled
    | Timeout                        // TimedWait returns without it
    | Post(p: nat)
    | ScheduleWork(p: nat)
    | Tick(t: int)

  /**
   * What delegate and callers have to keep to: no Run after a Quit in the same
   * callback, and DoWork returns false only when it has run out of work.
   */
  predicate Enabled(s: State, a: Action) {
    match a
    case Run => s.frames == [] || (s.Top().InCallback() && !s.Top().quit)
    case Quit => s.frames != [] && s.Top().InCallback()
    case ScheduleDelayedWork(_) => s.frames == [] || s.Top().InCallback()
    case TakeTask => s.frames != [] && s.Top().at.InDoWork? && s.queued > 0
    case Enter => s.frames != [] && (s.Top().at.CallDoWork? || s.Top().at.CallDelayed? || s.Top().at.CallIdle?)
    case Return(did, _) =>
      && s.frames != [] && s.Top().InCallback()
      && (!did && s.Top().at.InDoWork? ==> s.queued == 0)
    case Wait => s.frames != [] && s.Top().at.CallWait?
    case Wake => s.frames != [] && s.Top().at.Blocked? && s.signaled
    case Timeout => s.frames != [] && s.Top().at == Blocked(true)
    case Post(p) => p < |s.unannounced| && !s.unannounced[p]
    case ScheduleWork(p) => p < |s.unannounced| && s.unannounced[p]
    case Tick(t) => t >= s.now
  }

  function EnterRun(s: State): State {
    var below := if s.frames == [] then s else s.WithTop(s.Top().(nested := true));
    below.(frames := below.frames + [Frame(CallDoWork, false, false)])
  }

  function Called(at: Where): Where {
    match at
    case CallDelayed(did) => InDelayed(did)
    case CallIdle => InIdle
    case _ => InDoWork
  }

  /** Where the loop goes when a callback has returned and it still has to run. */
  function After(at: Where, did: bool): Where {
    match at
    case InDoWork => CallDelayed(did)
    case InDelayed(earlier) => if earlier || did then CallDoWork else CallIdle
    case _ => if did then CallDoWork else CallWait
  }

  function DoReturn(s: State, did: bool, next: Time): State
    requires s.frames != []
  {
    var s1 := if s.Top().at.InDelayed? then s.(delayed := next) else s;
    if s.keepRunning then s1.Goto(After(s.Top().at, did))
    else s1.(frames := s.frames[..|s.frames| - 1], keepRunning := true)
  }

  function DoWait(s: State): State
    requires s.frames != []
  {
    match s.delayed
    case Null => s.Goto(Blocked(false))
    case At(t) => if t - s.now > 0 then s.Goto(Blocked(true)) else s.Goto(CallDoWork).(delayed := Null)
  }

  function Do(s: State, a: Action): State
    requires Enabled(s, a)
  {
    match a
    case Run => EnterRun(s)
    case Quit => s.WithTop(s.Top().(quit := true)).(keepRunning := false)
    case ScheduleDelayedWork(t) => s.(delayed := At(t))
    case TakeTask => s.(queued := s.queued - 1)
    case Enter => s.Goto(Called(s.Top().at)).(calls := s.calls + 1)
    case Return(did, next) => DoReturn(s, did, next)
    case Wait => DoWait(s)
    case Wake => s.Goto(CallDoWork).(signaled := false)
    case Timeout => s.Goto(CallDoWork)
    case Post(p) => s.(queued := s.queued + 1, unannounced := s.unannounced[p := true])
    case ScheduleWork(p) => s.(signaled := true, unannounced := s.unannounced[p := false])
    case Tick(t) => s.(now := t)
  }

  // ---------------------------------------------------------------------
  // The invariant

  /** Work that nobody will announce any more has been announced. */
  predicate Announced(s: State) {
    s.queued > 0 ==> s.signaled || exists p :: 0 <= p < |s.unannounced| && s.unannounced[p]
  }

  predicate FramesValid(frames: seq<Frame>, keepRunning: bool) {
    && (forall i :: 0 <= i < |frames| - 1 ==> frames[i].InCallback() && frames[i].nested && !frames[i].quit)
    && (if frames == [] then keepRunning
        else var top := frames[|frames| - 1];
             && (top.quit <==> !keepRunning)
             && (!top.InCallback() ==> !top.nested && !top.quit))
  }

  /** The time for delayed work has come. */
  predicate Overdue(s: State) { s.delayed.At? && s.delayed.t <= s.now }

  predicate Valid(s: State) {
    && FramesValid(s.frames, s.keepRunning)
    && (s.frames != [] && s.Top().Quiet() ==> Announced(s) || (s.Top().at.CallWait? && Overdue(s)))
    && (s.frames != [] && s.Top().at.Blocked? ==> (s.Top().at.timed <==> s.delayed.At?))
  }

  /**
   * A callback that ran a nested loop says it did nothing, and makes the loop
   * around it go to wait, while there is work that nobody will announce any
   * more: the nested loop has used up the signal.
   */
  predicate Careless(s: State, a: Action)
    requires Enabled(s, a)
  {
    && a.Return? && !a.did && s.keepRunning && s.Top().nested && !Announced(s)
    && (s.Top().at == InDelayed(false) || (s.Top().at.InIdle? && !Overdue(s)))
  }

  /**
   * Every active Run but the innermost is inside a callback that has not quit;
   * keep_running_ is false just when that of the innermost has.
   */
  lemma StepFrames(s: State, a: Action)
    requires FramesValid(s.frames, s.keepRunning) && Enabled(s, a)
    ensures FramesValid(Do(s, a).frames, Do(s, a).keepRunning)
  {}

  lemma StepAnnounced(s: State, a: Action)
    requires Valid(s) && Enabled(s, a) && !Careless(s, a)
    ensures var r := Do(s, a);
            r.frames != [] && r.Top().Quiet() ==> Announced(r) || (r.Top().at.CallWait? && Overdue(r))
  {
    var r := Do(s, a);
    match a
    case Post(p) => assert r.unannounced[p];
    case Return(_, _) =>
      if !s.keepRunning && |s.frames| > 1 {
        assert s.frames[|s.frames| - 2].nested;
      }
    case _ =>
  }

  lemma StepValid(s: State, a: Action)
    requires Valid(s) && Enabled(s, a) && !Careless(s, a)
    ensures Valid(Do(s, a))
  {
    StepFrames(s, a);
    StepAnnounced(s, a);
  }

  ghost predicate RunEnabled(s: State, actions: seq<Action>)
    decreases |actions|
  {
    actions != [] ==> Enabled(s, actions[0]) && RunEnabled(Do(s, actions[0]), actions[1..])
  }

  ghost function RunAll(s: State, actions: seq<Action>): State
    requires RunEnabled(s, actions)
    decreases |actions|
  {
    if actions == [] then s else RunAll(Do(s, actions[0]), actions[1..])
  }

  /** No callback of the run is careless. */
  ghost predicate RunCareful(s: State, actions: seq<Action>)
    requires RunEnabled(s, actions)
    decreases |actions|
  {
    actions != [] ==> !Careless(s, actions[0]) && RunCareful(Do(s, actions[0]), actions[1..])
  }

  lemma {:induction false} RunValid(s: State, actions: seq<Action>)
    requires Valid(s) && RunEnabled(s, actions) && RunCareful(s, actions)
    ensures Valid(RunAll(s, actions))
    decreases |actions|
  {
    hide Valid, Do, Enabled, Careless;
    if actions == [] {
    } else {
      StepValid(s, actions[0]);
      RunValid(Do(s, actions[0]), actions[1..]);
    }
  }

  lemma {:induction false} RunFrames(s: State, actions: seq<Action>)
    requires FramesValid(s.frames, s.keepRunning) && RunEnabled(s, actions)
    ensures var r := RunAll(s, actions); FramesValid(r.frames, r.keepRunning)
    decreases |actions|
  {
    hide FramesValid, Do, Enabled;
    if actions == [] {
    } else {
      StepFrames(s, actions[0]);
      RunFrames(Do(s, actions[0]), actions[1..]);
    }
  }

  function Start(producers: nat): State {
    State([], true, false, Null, 0, 0, seq(producers, _ => false), 0)
  }

  /** Blocked with work queued that no signal will announce. */
  predicate Lost(s: State) {
    && s.frames != [] && s.Top().at.Blocked? && !s.signaled && s.queued > 0
    && forall p :: 0 <= p < |s.unannounced| ==> !s.unannounced[p]
  }

  /** As long as no callback is careless no wakeup is lost, however Runs are nested and producers interleave. */
  lemma NoLostWakeup(producers: nat, actions: seq<Action>)
    requires RunEnabled(Start(producers), actions) && RunCareful(Start(producers), actions)
    ensures !Lost(RunAll(Start(producers), actions))
    ensures var s := RunAll(Start(producers), actions);
            s.frames != [] && s.Top().at == Blocked(false) ==> s.delayed == Null
  {
    hide RunEnabled, RunAll, RunCareful;
    RunValid(Start(producers), actions);
  }

  /** The pump is blocked on a lost wakeup; if endless, without a timeout either. */
  predicate Sleeping(s: State, endless: bool) {
    Lost(s) && (endless ==> s.Top().at == Blocked(false))
  }

  /** It may come to that later on without anybody being careless from here. */
  ghost predicate CanLose(s: State, endless: bool) {
    exists more :: RunEnabled(s, more) && RunCareful(s, more) && Sleeping(RunAll(s, more), endless)
  }

  /**
   * One careless return is what it takes: after it, and after nothing else, a
   * wakeup can be lost; and the pump can go to sleep for ever on it exactly if
   * no delayed work is scheduled then.
   */
  lemma CarelessnessLoses(s: State, a: Action)
    requires Valid(s) && Enabled(s, a)
    ensures CanLose(Do(s, a), false) <==> Careless(s, a)
    ensures CanLose(Do(s, a), true) <==> Careless(s, a) && Do(s, a).delayed == Null
  {
    hide Valid, Do, Enabled, Careless, RunEnabled, RunAll, RunCareful, Sleeping, CanLose, TimedOnly;
    var r := Do(s, a);
    if Careless(s, a) {
      CarelessThenLost(s, a);
      if r.delayed.At? && CanLose(r, true) {
        CarelessTimedOnly(s, a);
        TimedOnlyWakes(r);
      }
    } else {
      StepValid(s, a);
      ValidLosesNothing(r);
    }
  }

  lemma ValidLosesNothing(s: State)
    requires Valid(s)
    ensures !CanLose(s, false) && !CanLose(s, true)
  {
    hide Valid, RunEnabled, RunAll, RunCareful;
    forall more | RunEnabled(s, more) && RunCareful(s, more) ensures !Lost(RunAll(s, more)) {
      RunValid(s, more);
      ValidIsNotLost(RunAll(s, more));
    }
  }

  lemma ValidIsNotLost(s: State)
    requires Valid(s)
    ensures !Lost(s)
  {}

  lemma CarelessThenLost(s: State, a: Action)
    requires Valid(s) && Enabled(s, a) && Careless(s, a)
    ensures CanLose(Do(s, a), false) && (Do(s, a).delayed == Null ==> CanLose(Do(s, a), true))
  {
    hide Valid, RunEnabled, RunAll, RunCareful, Lost, CanLose;
    var r := Do(s, a);
    if s.Top().at.InIdle? {
      WaitThenLost(r);
    } else {
      IdleThenLost(r);
    }
  }

  lemma WaitThenLost(s: State)
    requires s.frames != [] && s.Top() == Frame(CallWait, false, false) && !Announced(s) && !Overdue(s)
    ensures CanLose(s, false) && (s.delayed == Null ==> CanLose(s, true))
  {
    var more := [Wait];
    assert more[1..] == [];
    assert RunAll(s, more) == RunAll(Do(s, Wait), []) == DoWait(s);
    assert Sleeping(DoWait(s), s.delayed == Null);
  }

  /** The idle callback leaves things as they are, or puts off what is overdue, and the loop goes to wait. */
  lemma IdleThenLost(s: State)
    requires s.frames != [] && s.Top() == Frame(CallIdle, false, false) && !Announced(s) && s.keepRunning
    ensures CanLose(s, false) && (s.delayed == Null ==> CanLose(s, true))
  {
    hide RunEnabled, RunAll, RunCareful, Lost, Announced;
    var s1 := Do(s, Enter);
    if s.delayed == Null {
      var s2 := Do(s1, Return(false, Null));
      SameAnnounced(s, s2);
      WaitThenLost(s2);
      Earlier(s1, Return(false, Null));
    } else {
      var s2 := Do(s1, ScheduleDelayedWork(s1.now + 1));
      var s3 := Do(s2, Return(false, Null));
      SameAnnounced(s, s3);
      WaitThenLost(s3);
      Earlier(s2, Return(false, Null));
      Earlier(s1, ScheduleDelayedWork(s1.now + 1));
    }
    Earlier(s, Enter);
  }

  lemma SameAnnounced(s: State, r: State)
    requires s.queued == r.queued && s.signaled == r.signaled && s.unannounced == r.unannounced
    ensures Announced(s) == Announced(r)
  {}

  lemma Earlier(s: State, a: Action)
    requires Enabled(s, a) && !Careless(s, a)
    ensures CanLose(Do(s, a), false) ==> CanLose(s, false)
    ensures CanLose(Do(s, a), true) ==> CanLose(s, true)
  {
    hide Do, Enabled, Careless, Sleeping;
    forall more, endless | RunEnabled(Do(s, a), more) && RunCareful(Do(s, a), more)
      && Sleeping(RunAll(Do(s, a), more), endless)
      ensures CanLose(s, endless)
    {
      assert ([a] + more)[1..] == more;
      assert RunEnabled(s, [a] + more) && RunCareful(s, [a] + more);
      assert RunAll(s, [a] + more) == RunAll(Do(s, a), more);
    }
  }

  /** The loop is on its way to a timed wait, or in it. */
  predicate BehindTimer(s: State)
    requires s.frames != []
  {
    var at := s.Top().at;
    s.delayed.At? && (at.CallIdle? || at.InIdle? || at.CallWait? || at.Blocked?)
  }

  /** Like Valid, but unannounced work may also be left behind while delayed work is scheduled. */
  predicate TimedOnly(s: State) {
    && FramesValid(s.frames, s.keepRunning)
    && (s.frames != [] && s.Top().Quiet() ==> Announced(s) || BehindTimer(s))
    && (s.frames != [] && s.Top().at.Blocked? ==> (s.Top().at.timed <==> s.delayed.At?))
  }

  lemma CarelessTimedOnly(s: State, a: Action)
    requires Valid(s) && Enabled(s, a) && Careless(s, a) && Do(s, a).delayed.At?
    ensures TimedOnly(Do(s, a))
  {}

  lemma StepBehindTimer(s: State, a: Action)
    requires TimedOnly(s) && Enabled(s, a) && !Careless(s, a)
    ensures var r := Do(s, a); r.frames != [] && r.Top().Quiet() ==> Announced(r) || BehindTimer(r)
  {
    var r := Do(s, a);
    match a
    case Post(p) => assert r.unannounced[p];
    case Return(_, _) =>
      if !s.keepRunning && |s.frames| > 1 {
        assert s.frames[|s.frames| - 2].nested;
      }
    case _ =>
  }

  lemma StepTimedOnly(s: State, a: Action)
    requires TimedOnly(s) && Enabled(s, a) && !Careless(s, a)
    ensures TimedOnly(Do(s, a))
  {
    hide FramesValid, Announced, BehindTimer, Do, Enabled, Careless;
    StepBehindTimer(s, a);
    StepLinked(s, a);
  }

  lemma {:induction false} TimedOnlyRun(s: State, more: seq<Action>)
    requires TimedOnly(s) && RunEnabled(s, more) && RunCareful(s, more)
    ensures !Sleeping(RunAll(s, more), true)
    decreases |more|
  {
    if more == [] {
    } else {
      hide TimedOnly, Do, Enabled, Careless, Sleeping;
      StepTimedOnly(s, more[0]);
      TimedOnlyRun(Do(s, more[0]), more[1..]);
    }
  }

  lemma TimedOnlyWakes(s: State)
    requires TimedOnly(s)
    ensures !CanLose(s, true)
  {
    hide TimedOnly, RunEnabled, RunAll, RunCareful, Sleeping;
    forall more | RunEnabled(s, more) && RunCareful(s, more) ensures !Sleeping(RunAll(s, more), true) {
      TimedOnlyRun(s, more);
    }
  }

  /** What a callback can see to: after a nested loop it says that it did nothing only when the queue is empty. */
  predicate Considerate(s: State, a: Action)
    requires Enabled(s, a)
  {
    a.Return? && !a.did && s.Top().nested ==> s.queued == 0
  }

  ghost predicate RunConsiderate(s: State, actions: seq<Action>)
    requires RunEnabled(s, actions)
    decreases |actions|
  {
    actions != [] ==> Considerate(s, actions[0]) && RunConsiderate(Do(s, actions[0]), actions[1..])
  }

  lemma {:induction false} ConsiderateIsCareful(s: State, actions: seq<Action>)
    requires RunEnabled(s, actions) && RunConsiderate(s, actions)
    ensures RunCareful(s, actions)
    decreases |actions|
  {
    hide Do, Enabled;
    if actions == [] {
    } else {
      ConsiderateIsCareful(Do(s, actions[0]), actions[1..]);
    }
  }

  /** With considerate callbacks no wakeup is lost. */
  lemma ConsiderateKeepsWakeups(producers: nat, actions: seq<Action>)
    requires RunEnabled(Start(producers), actions) && RunConsiderate(Start(producers), actions)
    ensures !Lost(RunAll(Start(producers), actions))
  {
    ConsiderateIsCareful(Start(producers), actions);
    NoLostWakeup(producers, actions);
  }

  // ---------------------------------------------------------------------
  // Delayed work

  /**
   * The time for delayed work that the pump was told last: by a
   * ScheduleDelayedWork, or by DoDelayedWork when it returned, whatever loop it
   * was called from; Null if a wait has found it past since.
   */
  ghost function Told(s: State, actions: seq<Action>, told: Time): Time
    requires RunEnabled(s, actions)
    decreases |actions|
  {
    if actions == [] then told
    else
      Told(Do(s, actions[0]), actions[1..],
        match actions[0]
        case ScheduleDelayedWork(t) => At(t)
        case Return(_, next) => if s.Top().at.InDelayed? then next else told
        case Wait => if told.At? && told.t <= s.now then Null else told
        case _ => told)
  }

  lemma {:induction false} DelayedIsTold(s: State, actions: seq<Action>)
    requires RunEnabled(s, actions)
    ensures RunAll(s, actions).delayed == Told(s, actions, s.delayed)
    decreases |actions|
  {
    if actions == [] {
    } else {
      DelayedIsTold(Do(s, actions[0]), actions[1..]);
    }
  }

  /** A wait has a timeout just if delayed work is scheduled. */
  predicate Linked(s: State) {
    && FramesValid(s.frames, s.keepRunning)
    && (s.frames != [] && s.Top().at.Blocked? ==> (s.Top().at.timed <==> s.delayed.At?))
  }

  lemma StepLinked(s: State, a: Action)
    requires Linked(s) && Enabled(s, a)
    ensures Linked(Do(s, a))
  {
    StepFrames(s, a);
  }

  lemma {:induction false} RunLinked(s: State, actions: seq<Action>)
    requires Linked(s) && RunEnabled(s, actions)
    ensures Linked(RunAll(s, actions))
    decreases |actions|
  {
    if actions == [] {
    } else {
      hide Linked, Do, Enabled;
      StepLinked(s, actions[0]);
      RunLinked(Do(s, actions[0]), actions[1..]);
    }
  }

  /** Over every run the pump waits without timeout exactly if the time told last is Null or has been found past. */
  lemma WaitsUntilTold(producers: nat, actions: seq<Action>)
    requires RunEnabled(Start(producers), actions)
    ensures var s := RunAll(Start(producers), actions);
            s.frames != [] && s.Top().at.Blocked? ==>
              (s.Top().at.timed <==> Told(Start(producers), actions, Null).At?)
  {
    hide RunEnabled, RunAll, Told;
    RunLinked(Start(producers), actions);
    DelayedIsTold(Start(producers), actions);
  }

  // ---------------------------------------------------------------------
  // The order of calls

  /** A callback is called and returns. */
  function Callback(did: bool, next: Time): seq<Action> { [Enter, Return(did, next)] }

  /** Nothing has quit, and the innermost Run is at a certain place. */
  predicate Ready(s: State, at: Where) {
    s.frames != [] && s.keepRunning && s.Top() == Frame(at, false, false)
  }

  /** The same but for that place, the calls made, and what is known of delayed work. */
  predicate GoesOn(s: State, r: State, at: Where, calls: nat, delayed: Time) {
    && s.frames != [] && Ready(r, at)
    && r == s.Goto(at).(calls := s.calls + calls, delayed := delayed)
  }

  lemma CallbackRuns(s: State, at: Where, did: bool, next: Time)
    requires Ready(s, at) && (at.CallDoWork? || at.CallDelayed? || at.CallIdle?)
    requires at.CallDoWork? && !did ==> s.queued == 0
    ensures RunEnabled(s, Callback(did, next))
    ensures GoesOn(s, RunAll(s, Callback(did, next)), After(Called(at), did), 1,
                   if at.CallDelayed? then next else s.delayed)
  {
    hide Do, Enabled, GoesOn, RunEnabled, RunAll;
    CallbackGoesOn(s, at, did, next);
    TwoActions(s, Enter, Return(did, next));
  }

  lemma CallbackGoesOn(s: State, at: Where, did: bool, next: Time)
    requires Ready(s, at) && (at.CallDoWork? || at.CallDelayed? || at.CallIdle?)
    requires at.CallDoWork? && !did ==> s.queued == 0
    ensures Enabled(s, Enter) && Enabled(Do(s, Enter), Return(did, next))
    ensures GoesOn(s, Do(Do(s, Enter), Return(did, next)), After(Called(at), did), 1,
                   if at.CallDelayed? then next else s.delayed)
  {}

  lemma TwoActions(s: State, a: Action, b: Action)
    requires Enabled(s, a) && Enabled(Do(s, a), b)
    ensures RunEnabled(s, [a, b]) && RunAll(s, [a, b]) == Do(Do(s, a), b)
  {
    hide Do, Enabled;
    var actions := [a, b];
    assert actions[1..] == [b] && actions[1..][1..] == [];
    assert RunEnabled(Do(s, a), actions[1..]);
    assert RunAll(Do(s, a), actions[1..]) == RunAll(Do(Do(s, a), b), []);
  }

  lemma {:induction false} RunThen(s: State, a: seq<Action>, b: seq<Action>)
    requires RunEnabled(s, a) && RunEnabled(RunAll(s, a), b)
    ensures RunEnabled(s, a + b) && RunAll(s, a + b) == RunAll(RunAll(s, a), b)
    decreases |a|
  {
    hide Do, Enabled;
    if a == [] {
      assert a + b == b;
    } else {
      assert (a + b)[1..] == a[1..] + b;
      RunThen(Do(s, a[0]), a[1..], b);
    }
  }

  /**
   * One round of the loop whose callbacks do not quit: DoWork, and then
   * DoDelayedWork whatever DoWork said; if neither did anything, DoIdleWork; and
   * a wait only if that did nothing either.
   */
  lemma RoundOfTheLoop(s: State, work: bool, delayed: bool, next: Time, idle: bool)
    requires Ready(s, CallDoWork) && (!work ==> s.queued == 0)
    ensures var two := Callback(work, Null) + Callback(delayed, next);
            RunEnabled(s, two)
            && (work || delayed ==> GoesOn(s, RunAll(s, two), CallDoWork, 2, next))
            && (!work && !delayed ==>
                  var three := two + Callback(idle, Null);
                  RunEnabled(s, three)
                  && GoesOn(s, RunAll(s, three), if idle then CallDoWork else CallWait, 3, next))
  {
    hide RunEnabled, RunAll, Callback, After, Called, GoesOn;
    var a, b, c := Callback(work, Null), Callback(delayed, next), Callback(idle, Null);
    Places(work, delayed, idle);
    CallbackRuns(s, CallDoWork, work, Null);
    var s1 := RunAll(s, a);
    IsReady(s, s1, CallDelayed(work), 1, s.delayed);
    CallbackRuns(s1, CallDelayed(work), delayed, next);
    RunThen(s, a, b);
    var s2 := RunAll(s1, b);
    var at := if work || delayed then CallDoWork else CallIdle;
    GoesOnOn(s, s1, s2, CallDelayed(work), 1, s.delayed, at, 1, next);
    if !work && !delayed {
      IsReady(s, s2, CallIdle, 2, next);
      CallbackRuns(s2, CallIdle, idle, Null);
      RunThen(s, a + b, c);
      GoesOnOn(s, s2, RunAll(s2, c), CallIdle, 2, next, if idle then CallDoWork else CallWait, 1, next);
    }
  }

  lemma IsReady(s: State, r: State, at: Where, calls: nat, delayed: Time)
    requires GoesOn(s, r, at, calls, delayed)
    ensures Ready(r, at) && r.delayed == delayed
  {}

  lemma GoesOnOn(s: State, m: State, r: State, at1: Where, calls1: nat, delayed1: Time,
                 at2: Where, calls2: nat, delayed2: Time)
    requires GoesOn(s, m, at1, calls1, delayed1) && GoesOn(m, r, at2, calls2, delayed2)
    ensures GoesOn(s, r, at2, calls1 + calls2, delayed2)
  {}

  lemma Places(work: bool, delayed: bool, idle: bool)
    ensures After(Called(CallDoWork), work) == CallDelayed(work)
    ensures After(Called(CallDelayed(work)), delayed) == if work || delayed then CallDoWork else CallIdle
    ensures After(Called(CallIdle), idle) == if idle then CallDoWork else CallWait
  {}

  /** However a wait ends, or if there is none because delayed work is overdue, DoWork is called next. */
  lemma WaitEndsInDoWork(s: State)
    requires Ready(s, CallWait)
    ensures var r := Do(s, Wait);
            && (Overdue(s) <==> Ready(r, CallDoWork) && r.delayed == Null)
            && (!Overdue(s) ==>
                  && Ready(r, Blocked(s.delayed.At?)) && r.delayed == s.delayed
                  && (s.delayed.At? ==> Enabled(r, Timeout) && Ready(Do(r, Timeout), CallDoWork))
                  && (s.delayed == Null ==> !Enabled(r, Timeout))
                  && (s.signaled <==> Enabled(r, Wake))
                  && (s.signaled ==> Ready(Do(r, Wake), CallDoWork) && !Do(r, Wake).signaled))
  {}

  // ---------------------------------------------------------------------
  // Nested Run and Quit

  /** Wherever Run may be entered, and wherever a Run has just returned, keep_running_ is true. */
  lemma KeepRunningAtEntryAndExit(producers: nat, actions: seq<Action>, a: Action)
    requires RunEnabled(Start(producers), actions)
    requires Enabled(RunAll(Start(producers), actions), a)
    ensures var s := RunAll(Start(producers), actions);
            var r := Do(s, a);
            && (a == Run ==> s.keepRunning && |r.frames| == |s.frames| + 1)
            && (|r.frames| < |s.frames| ==> r.keepRunning && a.Return? && r.frames == s.frames[..|s.frames| - 1])
  {
    hide RunEnabled, RunAll;
    RunFrames(Start(producers), actions);
  }

  /** After Quit, the innermost Run stays where it is until its callback returns, and then it is the one that ends. */
  lemma QuitStep(s: State, a: Action)
    requires FramesValid(s.frames, s.keepRunning) && !s.keepRunning && Enabled(s, a)
    ensures s.frames != []
    ensures var r := Do(s, a);
            && r.calls == s.calls
            && if a.Return?
               then r.keepRunning && r.frames == s.frames[..|s.frames| - 1]
               else !r.keepRunning && r.frames == s.frames
  {}

  /**
   * From a Quit on, whatever happens: as long as the callback has not
   * returned, no delegate call is made and no Run begins or ends; when it
   * does, just the innermost Run ends, and the ones around it are untouched.
   */
  lemma {:induction false} QuitEndsInnermost(s: State, actions: seq<Action>)
    requires FramesValid(s.frames, s.keepRunning) && Enabled(s, Quit) && RunEnabled(Do(s, Quit), actions)
    requires forall i :: 0 <= i < |actions| - 1 ==> !actions[i].Return?
    ensures var q := Do(s, Quit);
            var r := RunAll(q, actions);
            && r.calls == s.calls
            && if actions != [] && actions[|actions| - 1].Return?
               then r.keepRunning && r.frames == s.frames[..|s.frames| - 1]
               else !r.keepRunning && r.frames == q.frames
  {
    StepFrames(s, Quit);
    QuitRun(Do(s, Quit), actions);
  }

  lemma {:induction false} QuitRun(s: State, actions: seq<Action>)
    requires FramesValid(s.frames, s.keepRunning) && !s.keepRunning && RunEnabled(s, actions)
    requires forall i :: 0 <= i < |actions| - 1 ==> !actions[i].Return?
    ensures s.frames != []
    ensures var r := RunAll(s, actions);
            && r.calls == s.calls
            && if actions != [] && actions[|actions| - 1].Return?
               then r.keepRunning && r.frames == s.frames[..|s.frames| - 1]
               else !r.keepRunning && r.frames == s.frames
    decreases |actions|
  {
    hide FramesValid, Do, Enabled;
    QuitHasFrame(s);
    if actions == [] {
    } else {
      var next := Do(s, actions[0]);
      StepFrames(s, actions[0]);
      QuitStep(s, actions[0]);
      if |actions| == 1 {
        assert RunAll(next, []) == next;
        assert actions[1..] == [];
      } else {
        QuitRun(next, actions[1..]);
      }
    }
  }

  lemma QuitHasFrame(s: State)
    requires FramesValid(s.frames, s.keepRunning) && !s.keepRunning
    ensures s.frames != []
  {}

  // ---------------------------------------------------------------------
  // A run with a careless callback

  ghost predicate Reachable(s: State, r: State) {
    exists actions :: RunEnabled(s, actions) && RunAll(s, actions) == r
  }

  lemma {:induction false} RunSnoc(s: State, actions: seq<Action>, a: Action)
    requires RunEnabled(s, actions) && Enabled(RunAll(s, actions), a)
    ensures RunEnabled(s, actions + [a])
    ensures RunAll(s, actions + [a]) == Do(RunAll(s, actions), a)
    decreases |actions|
  {
    hide Do, Enabled;
    if actions == [] {
      assert ([] + [a])[1..] == [];
      assert RunAll(s, [a]) == RunAll(Do(s, a), []);
    } else {
      assert (actions + [a])[1..] == actions[1..] + [a];
      RunSnoc(Do(s, actions[0]), actions[1..], a);
    }
  }

  lemma ReachStep(s: State, a: Action, r: State) returns (next: State)
    requires Reachable(Start(1), s) && Enabled(s, a) && Do(s, a) == r
    ensures Reachable(Start(1), r) && next == r
  {
    hide Do, Enabled, RunEnabled, RunAll;
    var actions :| RunEnabled(Start(1), actions) && RunAll(Start(1), actions) == s;
    RunSnoc(Start(1), actions, a);
    next := r;
  }

  lemma LosingOuterLoop()
    ensures Reachable(Start(1), State([Frame(InDelayed(false), false, false)], true, false, Null, 0, 0, [false], 2))
  {
    hide Reachable;
    StartReachable();
    assert Start(1) == State([], true, false, Null, 0, 0, [false], 0);
    var s := State([], true, false, Null, 0, 0, [false], 0);
    s := ReachStep(s, Run, State([Frame(CallDoWork, false, false)], true, false, Null, 0, 0, [false], 0));
    s := ReachStep(s, Enter, State([Frame(InDoWork, false, false)], true, false, Null, 0, 0, [false], 1));
    s := ReachStep(s, Return(false, Null),
                   State([Frame(CallDelayed(false), false, false)], true, false, Null, 0, 0, [false], 1));
    s := ReachStep(s, Enter, State([Frame(InDelayed(false), false, false)], true, false, Null, 0, 0, [false], 2));
  }

  lemma LosingIdle()
    requires Reachable(Start(1), State([Frame(InDelayed(false), false, false)], true, false, Null, 0, 0, [false], 2))
    ensures Reachable(Start(1), State([Frame(InIdle, true, false), Frame(InDoWork, false, false)],
                                         true, false, Null, 0, 0, [false], 4))
  {
    hide Reachable;
    var s := State([Frame(InDelayed(false), false, false)], true, false, Null, 0, 0, [false], 2);
    s := ReachStep(s, Return(false, Null), State([Frame(CallIdle, false, false)], true, false, Null, 0, 0, [false], 2));
    s := ReachStep(s, Enter, State([Frame(InIdle, false, false)], true, false, Null, 0, 0, [false], 3));
    s := ReachStep(s, Run,
                   State([Frame(InIdle, true, false), Frame(CallDoWork, false, false)],
                         true, false, Null, 0, 0, [false], 3));
    s := ReachStep(s, Enter,
                   State([Frame(InIdle, true, false), Frame(InDoWork, false, false)],
                         true, false, Null, 0, 0, [false], 4));
  }

  lemma LosingNestedLoop()
    requires Reachable(Start(1), State([Frame(InIdle, true, false), Frame(InDoWork, false, false)],
                                          true, false, Null, 0, 0, [false], 4))
    ensures Reachable(Start(1), State([Frame(InIdle, true, false), Frame(InIdle, false, false)],
                                         true, false, Null, 0, 0, [false], 6))
  {
    hide Reachable;
    var s := State([Frame(InIdle, true, false), Frame(InDoWork, false, false)], true, false, Null, 0, 0, [false], 4);
    s := ReachStep(s, Return(false, Null),
                   State([Frame(InIdle, true, false), Frame(CallDelayed(false), false, false)],
                         true, false, Null, 0, 0, [false], 4));
    s := ReachStep(s, Enter,
                   State([Frame(InIdle, true, false), Frame(InDelayed(false), false, false)],
                         true, false, Null, 0, 0, [false], 5));
    s := ReachStep(s, Return(false, Null),
                   State([Frame(InIdle, true, false), Frame(CallIdle, false, false)],
                         true, false, Null, 0, 0, [false], 5));
    s := ReachStep(s, Enter,
                   State([Frame(InIdle, true, false), Frame(InIdle, false, false)],
                         true, false, Null, 0, 0, [false], 6));
  }

  lemma LosingNestedWait()
    requires Reachable(Start(1), State([Frame(InIdle, true, false), Frame(InIdle, false, false)],
                                          true, false, Null, 0, 0, [false], 6))
    ensures Reachable(Start(1), State([Frame(InIdle, true, false), Frame(Blocked(false), false, false)],
                                         true, true, Null, 0, 1, [false], 6))
  {
    hide Reachable;
    var s := State([Frame(InIdle, true, false), Frame(InIdle, false, false)], true, false, Null, 0, 0, [false], 6);
    s := ReachStep(s, Return(false, Null),
                   State([Frame(InIdle, true, false), Frame(CallWait, false, false)],
                         true, false, Null, 0, 0, [false], 6));
    s := ReachStep(s, Wait,
                   State([Frame(InIdle, true, false), Frame(Blocked(false), false, false)],
                         true, false, Null, 0, 0, [false], 6));
    s := ReachStep(s, Post(0),
                   State([Frame(InIdle, true, false), Frame(Blocked(false), false, false)],
                         true, false, Null, 0, 1, [true], 6));
    s := ReachStep(s, ScheduleWork(0),
                   State([Frame(InIdle, true, false), Frame(Blocked(false), false, false)],
                         true, true, Null, 0, 1, [false], 6));
  }

  lemma LosingSecondTask()
    requires Reachable(Start(1), State([Frame(InIdle, true, false), Frame(Blocked(false), false, false)],
                                          true, true, Null, 0, 1, [false], 6))
    ensures Reachable(Start(1), State([Frame(InIdle, true, false), Frame(InDoWork, false, false)],
                                         true, false, Null, 0, 2, [false], 7))
  {
    hide Reachable;
    var s := State([Frame(InIdle, true, false), Frame(Blocked(false), false, false)],
                   true, true, Null, 0, 1, [false], 6);
    s := ReachStep(s, Post(0),
                   State([Frame(InIdle, true, false), Frame(Blocked(false), false, false)],
                         true, true, Null, 0, 2, [true], 6));
    s := ReachStep(s, ScheduleWork(0),
                   State([Frame(InIdle, true, false), Frame(Blocked(false), false, false)],
                         true, true, Null, 0, 2, [false], 6));
    s := ReachStep(s, Wake,
                   State([Frame(InIdle, true, false), Frame(CallDoWork, false, false)],
                         true, false, Null, 0, 2, [false], 6));
    s := ReachStep(s, Enter,
                   State([Frame(InIdle, true, false), Frame(InDoWork, false, false)],
                         true, false, Null, 0, 2, [false], 7));
  }

  lemma LosingNestedQuit()
    requires Reachable(Start(1), State([Frame(InIdle, true, false), Frame(InDoWork, false, false)],
                                          true, false, Null, 0, 2, [false], 7))
    ensures Reachable(Start(1), State([Frame(CallWait, false, false)], true, false, Null, 0, 1, [false], 7))
  {
    hide Reachable;
    var s := State([Frame(InIdle, true, false), Frame(InDoWork, false, false)], true, false, Null, 0, 2, [false], 7);
    s := ReachStep(s, TakeTask,
                   State([Frame(InIdle, true, false), Frame(InDoWork, false, false)],
                         true, false, Null, 0, 1, [false], 7));
    s := ReachStep(s, Quit,
                   State([Frame(InIdle, true, false), Frame(InDoWork, false, true)],
                         false, false, Null, 0, 1, [false], 7));
    s := ReachStep(s, Return(true, Null), State([Frame(InIdle, true, false)], true, false, Null, 0, 1, [false], 7));
    s := ReachStep(s, Return(false, Null), State([Frame(CallWait, false, false)], true, false, Null, 0, 1, [false], 7));
  }

  lemma LosingSleep()
    requires Reachable(Start(1), State([Frame(CallWait, false, false)], true, false, Null, 0, 1, [false], 7))
    ensures Reachable(Start(1), State([Frame(Blocked(false), false, false)], true, false, Null, 0, 1, [false], 7))
  {
    hide Reachable;
    var s := State([Frame(CallWait, false, false)], true, false, Null, 0, 1, [false], 7);
    s := ReachStep(s, Wait, State([Frame(Blocked(false), false, false)], true, false, Null, 0, 1, [false], 7));
  }

  /**
   * An idle callback that runs a nested loop and then returns false loses a
   * wakeup: the nested loop takes the signal, is quit with work left, and the
   * outer loop goes to sleep on it.
   */
  lemma CarelessIdleLosesWakeup()
    ensures exists r :: Reachable(Start(1), r) && Lost(r)
  {
    hide Reachable;
    LosingOuterLoop();
    LosingIdle();
    LosingNestedLoop();
    LosingNestedWait();
    LosingSecondTask();
    LosingNestedQuit();
    LosingSleep();
    assert Lost(State([Frame(Blocked(false), false, false)], true, false, Null, 0, 1, [false], 7));
  }

  lemma StartReachable()
    ensures Reachable(Start(1), Start(1))
  {
    assert RunEnabled(Start(1), []);
  }
}
