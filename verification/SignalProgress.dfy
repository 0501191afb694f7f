/** Signals are dispatched and closes finish: without new signals and calls from outside, however
handlers and loops are scheduled, there are only so many steps to take.

The measure has two parts, the first counting more: what is left to write and to dispatch, and
where the loops stand.
*/
module SignalProgress {
  import opened Sums
  import opened Signal
  import opened SignalSafety
  import opened SignalDelivery

  // The steps that need nobody outside: no new watcher, call or signal.
  predicate Internal(step: Step) {
    !ByCall(step) && !step.Catch?
  }

  // Nothing can move any more without a signal or a call.
  ghost predicate AtRest(s: State) {
    forall step :: Internal(step) ==> !Enabled(s, step)
  }

  function HandlerWork(handler: Handler): nat {
    match handler
    case Idle => 0
    case Visiting(_, todo) => 1 + 6 * |todo|
    case Wrote(_, todo) => if todo == [] then 0 else 6 * |todo| - 4
  }

  function OpWork(op: Op): nat {
    match op
    case Ready => 0
    case Unlinking(_, _) => 3
    case Clearing(_, _) => 2
    case Linking(_, _) => 1
    case Comparing(_) => 1
  }

  // What is left of the message being dispatched.
  function BufWork(lp: Loop): nat {
    if lp.buf == [] then 0
    else if lp.pc.InCallback? then 3 * |lp.buf| - 1
    else if lp.pc.Counting? then 3 * |lp.buf| - 2
    else 3 * |lp.buf|
  }

  function LoopWork(lp: Loop): nat {
    OpWork(lp.op) + 4 * |lp.pipe| + BufWork(lp)
  }

  function LoopTurn(lp: Loop): nat {
    match lp.pc
    case Outside => if lp.pipe == [] then 0 else 2
    case Reading => 1
    case Dispatching(_) => 3
    case InCallback(_) => 3
    case Counting(_) => 3
  }

  ghost function WorkAt(loops: map<LoopId, Loop>): LoopId -> nat {
    l => if l in loops then LoopWork(loops[l]) else 0
  }

  ghost function TurnAt(loops: map<LoopId, Loop>): LoopId -> nat {
    l => if l in loops then LoopTurn(loops[l]) else 0
  }

  ghost function Work(s: State): nat {
    HandlerWork(s.handler) + Sum(s.loops.Keys, WorkAt(s.loops))
  }

  ghost function Turns(s: State): nat {
    Sum(s.loops.Keys, TurnAt(s.loops))
  }

  ghost predicate Less(t: State, s: State) {
    Work(t) < Work(s) || (Work(t) == Work(s) && Turns(t) < Turns(s))
  }

  lemma {:induction false} LoopMoves(loops: map<LoopId, Loop>, l: LoopId, lp: Loop)
    requires l in loops
    ensures var after := loops[l := lp];
      && Sum(after.Keys, WorkAt(after)) == Sum(loops.Keys, WorkAt(loops)) - LoopWork(loops[l]) + LoopWork(lp)
      && Sum(after.Keys, TurnAt(after)) == Sum(loops.Keys, TurnAt(loops)) - LoopTurn(loops[l]) + LoopTurn(lp)
  {
    var after := loops[l := lp];
    assert after.Keys == loops.Keys;
    hide Sum, LoopWork, LoopTurn;
    SumChange(loops.Keys, WorkAt(loops), WorkAt(after), l);
    SumChange(loops.Keys, TurnAt(loops), TurnAt(after), l);
  }

  // The handler and one loop move.
  lemma {:induction false} BothLess(s: State, t: State, l: LoopId)
    requires l in s.loops && l in t.loops && t.loops == s.loops[l := t.loops[l]]
    requires var a, b := HandlerWork(t.handler) + LoopWork(t.loops[l]), HandlerWork(s.handler) + LoopWork(s.loops[l]);
      a < b || (a == b && LoopTurn(t.loops[l]) < LoopTurn(s.loops[l]))
    ensures Less(t, s)
  {
    LoopMoves(s.loops, l, t.loops[l]);
    hide Sum, LoopWork, LoopTurn, HandlerWork;
  }

  lemma {:induction false} HandlerLess(s: State, step: Step)
    requires Enabled(s, step) && Internal(step) && ByHandler(step) && HandlerOk(s)
    ensures Less(Do(s, step), s)
  {
    hide Sum, Watching;
    if step == Write(true) {
      BothLess(s, Do(s, step), s.handles[s.handler.todo[0]].loop);
    }
  }

  lemma {:induction false} EventLess(s: State, step: Step)
    requires Enabled(s, step) && ByEvent(step) && PcOk(s.loops[step.l])
    ensures Less(Do(s, step), s)
  {
    hide Less, Watching, HandlerWork;
    BothLess(s, Do(s, step), step.l);
  }

  lemma {:induction false} OpLess(s: State, step: Step)
    requires Enabled(s, step) && !ByCall(step) && !ByEvent(step) && !ByHandler(step)
    ensures Less(Do(s, step), s)
  {
    hide Less, Watching, Watched, HandlerWork, Settle;
    BothLess(s, Do(s, step), step.l);
  }

  // Every step that needs nobody outside leaves less to do.
  lemma {:induction false} StepLess(s: State, step: Step)
    requires Inv(s) && Internal(step) && Enabled(s, step)
    ensures Less(Do(s, step), s)
  {
    if ByHandler(step) {
      HandlerLess(s, step);
    } else if ByEvent(step) {
      assert LoopOk(s, step.l, s.loops[step.l]);
      EventLess(s, step);
    } else {
      OpLess(s, step);
    }
  }

  // -- At rest -----------------------------------------------------------------------------------

  // What the handler does next.
  ghost function HandlerStep(handler: Handler): Step
    requires !handler.Idle?
  {
    if handler.Wrote? then CountCaught else if handler.todo == [] then Unlock else Write(true)
  }

  lemma {:induction false} HandlerMoves(s: State)
    requires Inv(s) && !s.handler.Idle?
    ensures Internal(HandlerStep(s.handler)) && Enabled(s, HandlerStep(s.handler))
  {
    assert s.handler.todo != [] ==> s.handler.todo[0] in s.handler.todo;
    assert s.handler.todo != [] ==> WatcherOk(s, s.handler.todo[0], s.handles[s.handler.todo[0]]);
  }

  // What the thread of a loop does next inside a call.
  ghost function OpStep(l: LoopId, op: Op): Step
    requires !op.Ready?
  {
    if op.Unlinking? then Unlink(l) else if op.Clearing? then Clear(l) else if op.Linking? then Link(l, true)
    else Compare(l)
  }

  lemma {:induction false} OpMoves(s: State, l: LoopId)
    requires l in s.loops && OpOk(s, l, s.loops[l].op) && s.handler.Idle? && !s.loops[l].op.Ready?
    ensures Internal(OpStep(l, s.loops[l].op)) && Enabled(s, OpStep(l, s.loops[l].op))
  {}

  // What uv__signal_event does next.
  ghost function EventStep(l: LoopId, lp: Loop): Step {
    match lp.pc
    case Outside => Enter(l)
    case Reading => Read(l)
    case Dispatching(_) => if lp.buf == [] then EndBatch(l) else Dispatch(l)
    case InCallback(_) => CallbackReturns(l)
    case Counting(_) => CountDispatched(l)
  }

  lemma {:induction false} EventMoves(s: State, l: LoopId)
    requires l in s.loops && LoopOk(s, l, s.loops[l]) && s.loops[l].op.Ready?
    requires !s.loops[l].pc.Outside? || s.loops[l].pipe != []
    ensures Internal(EventStep(l, s.loops[l])) && Enabled(s, EventStep(l, s.loops[l]))
  {
    var lp := s.loops[l];
    assert lp.buf != [] ==> lp.buf[0] in lp.buf;
  }

  lemma {:induction false} RestHandler(s: State)
    requires Inv(s) && AtRest(s)
    ensures s.handler.Idle?
  {
    hide Inv, Enabled, Internal;
    if !s.handler.Idle? {
      HandlerMoves(s);
    }
  }

  // A loop at rest has nothing to read and nothing to dispatch.
  lemma {:induction false} RestLoop(s: State, l: LoopId)
    requires Inv(s) && AtRest(s) && l in s.loops
    ensures s.loops[l] == Loop([], [], Outside, Ready)
  {
    RestHandler(s);
    assert LoopOk(s, l, s.loops[l]) && OpOk(s, l, s.loops[l].op) && PcOk(s.loops[l]);
    hide Inv, Enabled, Internal, LoopOk, OpOk;
    if !s.loops[l].op.Ready? {
      OpMoves(s, l);
    } else if !s.loops[l].pc.Outside? || s.loops[l].pipe != [] {
      EventMoves(s, l);
    }
  }

  // Every signal caught for h has been dispatched, and its close is pending if it is closing.
  ghost predicate Settled(s: State, h: Handle) {
    && h in s.handles && s.handles[h].caught == s.handles[h].dispatched
    && s.handles[h].pendings == if s.handles[h].closing then 1 else 0
  }

  lemma {:induction false} RestSettled(s: State, h: Handle)
    requires Inv(s) && AtRest(s) && h in s.handles
    ensures Settled(s, h)
  {
    assert WatcherOk(s, h, s.handles[h]);
    RestHandler(s);
    RestLoop(s, s.handles[h].loop);
  }

  // -- Every scheduling ----------------------------------------------------------------------------

  // An endless run in which nobody outside does anything; the scheduler picks the steps.
  ghost predicate Moves(run: nat -> State, pick: nat -> Step, n: nat) {
    if AtRest(run(n)) then run(n + 1) == run(n)
    else Internal(pick(n)) && Enabled(run(n), pick(n)) && run(n + 1) == Do(run(n), pick(n))
  }

  ghost predicate Undisturbed(run: nat -> State, pick: nat -> Step) {
    forall n: nat :: Moves(run, pick, n)
  }

  lemma {:induction false} HandlesStay(s: State, step: Step, h: Handle)
    requires Internal(step) && Enabled(s, step)
    ensures h in s.handles <==> h in Do(s, step).handles
    ensures h in s.handles ==> Do(s, step).handles[h].closing == s.handles[h].closing
  {}

  ghost predicate Persists(s: State, t: State, h: Handle) {
    && (h in s.handles <==> h in t.handles) && (h in s.handles ==> t.handles[h].closing == s.handles[h].closing)
  }

  lemma {:induction false} OneStep(s: State, step: Step, h: Handle, g: Signum)
    requires Inv(s) && Internal(step) && Enabled(s, step)
    ensures Inv(Do(s, step)) && Persists(s, Do(s, step), h) && (Steady(s, h, g) ==> Steady(Do(s, step), h, g))
    ensures Work(Do(s, step)) < Work(s) || (Work(Do(s, step)) == Work(s) && Turns(Do(s, step)) < Turns(s))
  {
    assert Leaves(step, h, g);
    hide Inv, Internal, Enabled, Do, Steady, Work, Turns;
    StepLess(s, step);
    StepKeeps(s, step);
    HandlesStay(s, step, h);
    if Steady(s, h, g) {
      StepSteady(s, step, h, g);
    }
  }

  lemma {:induction false} RestsFrom(run: nat -> State, pick: nat -> Step, n: nat, h: Handle, g: Signum)
    returns (m: nat)
    requires Undisturbed(run, pick) && Inv(run(n))
    ensures AtRest(run(m)) && Inv(run(m)) && Persists(run(n), run(m), h)
    ensures Steady(run(n), h, g) ==> Steady(run(m), h, g)
    decreases Work(run(n)), Turns(run(n))
  {
    hide Inv, Internal, Enabled, Do, Steady, Work, Turns, AtRest;
    m := n;
    if !AtRest(run(n)) {
      assert Moves(run, pick, n);
      OneStep(run(n), pick(n), h, g);
      m := RestsFrom(run, pick, n + 1, h, g);
    }
  }

  // Closes finish: once nobody outside interferes, finitely many steps bring the system to rest,
  // whatever the scheduling; then all signals caught have been dispatched, and the close of every
  // closing watcher is pending.
  lemma {:induction false} AllSettled(s: State, steps: seq<Step>, run: nat -> State, pick: nat -> Step, h: Handle)
    requires Start(s) && CanRun(s, steps) && Undisturbed(run, pick) && run(0) == Run(s, steps) && h in run(0).handles
    ensures exists m: nat :: AtRest(run(m)) && Settled(run(m), h) && Persists(run(0), run(m), h)
  {
    RunInv(s, steps);
    hide Inv, AtRest, Settled, Persists;
    var m := RestsFrom(run, pick, 0, h, 0);
    RestSettled(run(m), h);
  }

  lemma {:induction false} RestCalled(s: State, h: Handle, g: Signum)
    requires Inv(s) && AtRest(s) && Steady(s, h, g) && h in s.handles
    ensures Count(s.called, h) == s.handles[h].caught
  {
    RestSettled(s, h);
    assert WatcherOk(s, h, s.handles[h]);
    RestLoop(s, s.handles[h].loop);
    hide Count;
  }

  // Callbacks come: a watcher only ever started for signal g, and neither stopped nor closed, has in
  // the end been called back just as often as a handler caught the signal for it.
  lemma {:induction false} AllCalledBack(s: State, steps: seq<Step>, run: nat -> State, pick: nat -> Step, h: Handle,
                                         g: Signum)
    requires Start(s) && CanRun(s, steps) && Undisturbed(run, pick) && run(0) == Run(s, steps)
    requires AllLeave(steps, h, g) && h in run(0).handles
    ensures exists m: nat ::
      AtRest(run(m)) && h in run(m).handles && Count(run(m).called, h) == run(m).handles[h].caught
  {
    assert Inv(s) && Steady(s, h, g);
    hide Inv, AtRest, Steady;
    RunSteady(s, steps, h, g);
    var m := RestsFrom(run, pick, 0, h, g);
    RestCalled(run(m), h, g);
  }
}
