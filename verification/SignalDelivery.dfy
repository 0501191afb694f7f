/** Which signal callbacks are made: every message a handler writes is dispatched once, in
order, and calls back just if its watcher still watches the signal; and what uv_signal_start,
uv_signal_stop and uv_close have done when they return.
*/
module SignalDelivery {
  import opened Seqs
  import opened Signal
  import opened SignalSafety

  // -- Messages ------------------------------------------------------------------------------

  // What a step writes to the pipe of loop l.
  ghost function Written(s: State, step: Step, l: LoopId): seq<Msg>
    requires Enabled(s, step)
  {
    if step == Write(true) && s.handles[s.handler.todo[0]].loop == l then [Msg(s.handler.todo[0], s.handler.signum)]
    else []
  }

  // The message a step of loop l takes up.
  ghost function Taken(s: State, step: Step, l: LoopId): seq<Msg>
    requires Enabled(s, step)
  {
    if step == Dispatch(l) then [s.loops[l].buf[0]] else []
  }

  // The callback a step owes: the message it takes up is for a signal its handle watches.
  ghost function Due(s: State, step: Step): seq<Msg>
    requires Enabled(s, step)
  {
    if step.Dispatch? then
      var m := s.loops[step.l].buf[0];
      if s.handles[m.handle].signum == m.signum then [m] else []
    else []
  }

  // The same over a run.
  ghost function AllWritten(s: State, steps: seq<Step>, l: LoopId): seq<Msg>
    requires CanRun(s, steps)
    decreases |steps|
  {
    if steps == [] then [] else Written(s, steps[0], l) + AllWritten(Do(s, steps[0]), steps[1..], l)
  }

  ghost function AllTaken(s: State, steps: seq<Step>, l: LoopId): seq<Msg>
    requires CanRun(s, steps)
    decreases |steps|
  {
    if steps == [] then [] else Taken(s, steps[0], l) + AllTaken(Do(s, steps[0]), steps[1..], l)
  }

  ghost function AllDue(s: State, steps: seq<Step>): seq<Msg>
    requires CanRun(s, steps)
    decreases |steps|
  {
    if steps == [] then [] else Due(s, steps[0]) + AllDue(Do(s, steps[0]), steps[1..])
  }

  // The messages of a loop not yet taken up.
  ghost function ToCome(lp: Loop): seq<Msg> {
    (if (lp.pc.InCallback? || lp.pc.Counting?) && lp.buf != [] then lp.buf[1..] else lp.buf) + lp.pipe
  }

  lemma {:induction false} HandlerToCome(s: State, step: Step, l: LoopId)
    requires Enabled(s, step) && ByHandler(step) && l in s.loops
    ensures l in Do(s, step).loops
    ensures ToCome(s.loops[l]) + Written(s, step, l) == ToCome(Do(s, step).loops[l]) && Taken(s, step, l) == []
  {
    var lp := s.loops[l];
    var front := if (lp.pc.InCallback? || lp.pc.Counting?) && lp.buf != [] then lp.buf[1..] else lp.buf;
    if step == Write(true) {
      var m := Msg(s.handler.todo[0], s.handler.signum);
      assert front + lp.pipe + [m] == front + (lp.pipe + [m]);
    }
  }

  // uv__signal_event reads all that the buffer holds, and ends only after a read that did not fill it.
  lemma {:induction false} ReadsAll(s: State, l: LoopId)
    ensures Enabled(s, Read(l)) ==>
      var lp, lp' := s.loops[l], Do(s, Read(l)).loops[l];
      if lp.pipe == [] then lp'.pc.Outside? && lp'.pipe == []
      else
        && lp'.buf != [] && lp'.pc.Dispatching? && (lp'.pc.full <==> |lp'.buf| == BATCH)
        && (lp'.pc.full || lp'.pipe == [])
    ensures Enabled(s, EndBatch(l)) ==>
      Do(s, EndBatch(l)).loops[l].pc == if s.loops[l].pc.full then Reading else Outside
  {}

  // A watcher exists from its init until its memory is the user's again.
  lemma {:induction false} StepWatches(s: State, step: Step, h: Handle)
    requires Enabled(s, step)
    ensures h in Do(s, step).handles <==>
      (step.Init? && step.h == h) || (h in s.handles && !(step.Forget? && step.h == h))
  {}

  lemma {:induction false} DispatchToCome(s: State, l: LoopId)
    requires Enabled(s, Dispatch(l)) && l in s.loops
    ensures l in Do(s, Dispatch(l)).loops
    ensures ToCome(s.loops[l]) == [s.loops[l].buf[0]] + ToCome(Do(s, Dispatch(l)).loops[l])
  {
    var lp := s.loops[l];
    assert lp.buf + lp.pipe == [lp.buf[0]] + (lp.buf[1..] + lp.pipe);
  }

  lemma {:induction false} ReadToCome(s: State, l: LoopId)
    requires Enabled(s, Read(l)) && l in s.loops && s.loops[l].buf == []
    ensures l in Do(s, Read(l)).loops && ToCome(s.loops[l]) == ToCome(Do(s, Read(l)).loops[l])
  {
    var lp := s.loops[l];
    var n := if |lp.pipe| < BATCH then |lp.pipe| else BATCH;
    assert lp.pipe[..n] + lp.pipe[n..] == lp.pipe && [] + lp.pipe == lp.pipe;
  }

  lemma {:induction false} EventToCome(s: State, step: Step, l: LoopId)
    requires Enabled(s, step) && ByEvent(step) && l in s.loops && PcOk(s.loops[l])
    ensures l in Do(s, step).loops
    ensures ToCome(s.loops[l]) == Taken(s, step, l) + ToCome(Do(s, step).loops[l]) && Written(s, step, l) == []
  {
    if step == Dispatch(l) {
      DispatchToCome(s, l);
    } else if step == Read(l) {
      ReadToCome(s, l);
    } else {
      assert [] + ToCome(s.loops[l]) == ToCome(s.loops[l]);
    }
  }

  lemma {:induction false} OtherToCome(s: State, step: Step, l: LoopId)
    requires Enabled(s, step) && !ByHandler(step) && !ByEvent(step) && l in s.loops
    ensures l in Do(s, step).loops && ToCome(Do(s, step).loops[l]) == ToCome(s.loops[l])
    ensures Written(s, step, l) == [] && Taken(s, step, l) == []
  {}

  lemma {:induction false} StepToCome(s: State, step: Step, l: LoopId)
    requires Inv(s) && Enabled(s, step) && l in s.loops
    ensures l in Do(s, step).loops
    ensures ToCome(s.loops[l]) + Written(s, step, l) == Taken(s, step, l) + ToCome(Do(s, step).loops[l])
  {
    assert LoopOk(s, l, s.loops[l]) && PcOk(s.loops[l]);
    hide *;
    if ByHandler(step) {
      HandlerToCome(s, step, l);
    } else if ByEvent(step) {
      EventToCome(s, step, l);
    } else {
      OtherToCome(s, step, l);
    }
  }

  lemma {:induction false} RunToCome(s: State, steps: seq<Step>, l: LoopId)
    requires Inv(s) && CanRun(s, steps) && l in s.loops
    ensures l in Run(s, steps).loops
    ensures ToCome(s.loops[l]) + AllWritten(s, steps, l) == AllTaken(s, steps, l) + ToCome(Run(s, steps).loops[l])
    decreases |steps|
  {
    hide Inv, Enabled, Do, ToCome, Written, Taken;
    if steps != [] {
      var t := Do(s, steps[0]);
      StepToCome(s, steps[0], l);
      StepKeeps(s, steps[0]);
      RunToCome(t, steps[1..], l);
      Chain(ToCome(s.loops[l]), Written(s, steps[0], l), AllWritten(t, steps[1..], l), Taken(s, steps[0], l),
            ToCome(t.loops[l]), AllTaken(t, steps[1..], l), ToCome(Run(s, steps).loops[l]));
    }
  }

  lemma {:induction false} Chain(a: seq<Msg>, w: seq<Msg>, ws: seq<Msg>, t: seq<Msg>, b: seq<Msg>, ts: seq<Msg>,
                                 c: seq<Msg>)
    requires a + w == t + b && b + ws == ts + c
    ensures a + (w + ws) == t + ts + c
  {
    assert a + (w + ws) == (a + w) + ws;
    assert (t + b) + ws == t + (b + ws);
    assert t + (ts + c) == t + ts + c;
  }

  // Nothing is lost, repeated or overtaken: in every interleaving what handlers wrote to a loop
  // is what that loop has taken up, followed by what it has yet to take up.
  lemma {:induction false} TakenInOrder(s: State, steps: seq<Step>, l: LoopId)
    requires Start(s) && CanRun(s, steps) && l in s.loops
    ensures l in Run(s, steps).loops
    ensures AllWritten(s, steps, l) == AllTaken(s, steps, l) + ToCome(Run(s, steps).loops[l])
  {
    assert Inv(s) && ToCome(s.loops[l]) == [];
    hide *;
    RunToCome(s, steps, l);
    assert [] + AllWritten(s, steps, l) == AllWritten(s, steps, l);
  }

  lemma {:induction false} StepCalls(s: State, step: Step)
    requires Enabled(s, step)
    ensures Do(s, step).called == s.called + Due(s, step)
  {}

  lemma {:induction false} RunCalls(s: State, steps: seq<Step>)
    requires CanRun(s, steps)
    ensures Run(s, steps).called == s.called + AllDue(s, steps)
    decreases |steps|
  {
    hide Enabled, Do, Due;
    if steps != [] {
      StepCalls(s, steps[0]);
      RunCalls(Do(s, steps[0]), steps[1..]);
      assert s.called + Due(s, steps[0]) + AllDue(Do(s, steps[0]), steps[1..]) == s.called + AllDue(s, steps);
    }
  }

  // The callbacks made are just those owed for the messages taken up, each made once, when the
  // message is taken up; and the loop is then in user code.
  lemma {:induction false} CallsAreDue(s: State, steps: seq<Step>, l: LoopId)
    requires Start(s) && CanRun(s, steps)
    ensures Run(s, steps).called == AllDue(s, steps)
    ensures Enabled(Run(s, steps), Dispatch(l)) ==>
      var t := Run(s, steps);
      var u := Do(t, Dispatch(l));
      && (Due(t, Dispatch(l)) != [] ==> u.loops[l].pc.InCallback? && !t.handles[t.loops[l].buf[0].handle].closing)
      && (Due(t, Dispatch(l)) == [] ==> u.loops[l].pc.Counting?)
  {
    RunCalls(s, steps);
    if Enabled(Run(s, steps), Dispatch(l)) {
      MessagesLive(s, steps, l, Run(s, steps).loops[l].buf[0]);
    }
  }

  // -- Who is visited -------------------------------------------------------------------------

  function Messages(signum: Signum, todo: seq<Handle>): (r: seq<Msg>)
    ensures |r| == |todo| && forall i :: 0 <= i < |r| ==> r[i] == Msg(todo[i], signum)
  {
    seq(|todo|, i requires 0 <= i < |todo| => Msg(todo[i], signum))
  }

  // The writes a caught signal asks for, and the write a step attempts, on whatever loop.
  ghost function Asked(step: Step): seq<Msg> {
    if step.Catch? then Messages(step.signum, step.todo) else []
  }

  ghost function Tried(s: State, step: Step): seq<Msg>
    requires Enabled(s, step)
  {
    if step.Write? then [Msg(s.handler.todo[0], s.handler.signum)] else []
  }

  ghost function AllAsked(steps: seq<Step>): seq<Msg> {
    if steps == [] then [] else Asked(steps[0]) + AllAsked(steps[1..])
  }

  ghost function AllTried(s: State, steps: seq<Step>): seq<Msg>
    requires CanRun(s, steps)
    decreases |steps|
  {
    if steps == [] then [] else Tried(s, steps[0]) + AllTried(Do(s, steps[0]), steps[1..])
  }

  ghost function ToTry(handler: Handler): seq<Msg> {
    match handler
    case Idle => []
    case Visiting(signum, todo) => Messages(signum, todo)
    case Wrote(signum, todo) => if todo == [] then [] else Messages(signum, todo[1..])
  }

  lemma {:induction false} MessagesHead(signum: Signum, todo: seq<Handle>)
    requires todo != []
    ensures Messages(signum, todo) == [Msg(todo[0], signum)] + Messages(signum, todo[1..])
  {}

  lemma {:induction false} StepToTry(s: State, step: Step)
    requires Enabled(s, step)
    ensures ToTry(s.handler) + Asked(step) == Tried(s, step) + ToTry(Do(s, step).handler)
  {
    if step.Write? {
      MessagesHead(s.handler.signum, s.handler.todo);
    }
    hide Messages, Watching;
  }

  lemma {:induction false} RunToTry(s: State, steps: seq<Step>)
    requires CanRun(s, steps)
    ensures ToTry(s.handler) + AllAsked(steps) == AllTried(s, steps) + ToTry(Run(s, steps).handler)
    decreases |steps|
  {
    hide Enabled, Do, ToTry, Asked, Tried;
    if steps != [] {
      var t := Do(s, steps[0]);
      StepToTry(s, steps[0]);
      RunToTry(t, steps[1..]);
      Chain(ToTry(s.handler), Asked(steps[0]), AllAsked(steps[1..]), Tried(s, steps[0]), ToTry(t.handler),
            AllTried(t, steps[1..]), ToTry(Run(s, steps).handler));
    }
  }

  // No watcher is skipped or visited twice: the writes attempted, and those still to attempt, are
  // in order those that the signals caught asked for.
  lemma {:induction false} AllVisited(s: State, steps: seq<Step>)
    requires Start(s) && CanRun(s, steps)
    ensures AllAsked(steps) == AllTried(s, steps) + ToTry(Run(s, steps).handler)
  {
    RunToTry(s, steps);
    assert [] + AllAsked(steps) == AllAsked(steps);
  }

  // -- A watcher that is only ever started for one signal ----------------------------------------

  // Nobody stops or closes h, or starts it for another signal.
  predicate Leaves(step: Step, h: Handle, g: Signum) {
    && (step.CallStart? && step.h == h ==> step.signum == g)
    && (step.CallStop? || step.CallClose? ==> step.h != h)
  }

  predicate AllLeave(steps: seq<Step>, h: Handle, g: Signum) {
    forall i :: 0 <= i < |steps| ==> Leaves(steps[i], h, g)
  }

  // 1 while the message first in the buffer is for h and has been taken up.
  ghost function Current(lp: Loop, h: Handle): nat {
    if (lp.pc.InCallback? || lp.pc.Counting?) && lp.buf != [] && lp.buf[0].handle == h then 1 else 0
  }

  ghost predicate SteadyOp(op: Op, h: Handle, g: Signum) {
    op.Ready? || op.h != h || (op.Linking? && op.signum == g)
  }

  ghost predicate SameSignal(msgs: seq<Msg>, h: Handle, g: Signum) {
    forall m :: m in msgs && m.handle == h ==> m.signum == g
  }

  // Every message of h taken up so far has called back.
  ghost predicate Steady(s: State, h: Handle, g: Signum) {
    && SameSignal(s.called, h, g)
    && if h !in s.handles then Count(s.called, h) == 0
       else
         var w := s.handles[h];
         && !w.closing && (w.signum == 0 || w.signum == g) && w.loop in s.loops
         && var lp := s.loops[w.loop];
         && SteadyOp(lp.op, h, g) && SameSignal(lp.pipe, h, w.signum) && SameSignal(lp.buf, h, w.signum)
         && Count(s.called, h) == w.dispatched + Current(lp, h)
  }

  lemma {:induction false} DispatchSteady(s: State, l: LoopId, h: Handle, g: Signum)
    requires Steady(s, h, g) && Enabled(s, Dispatch(l)) && LoopOk(s, l, s.loops[l])
    ensures Steady(Do(s, Dispatch(l)), h, g)
  {
    var m := s.loops[l].buf[0];
    CountJoin(s.called, [m], h);
    assert m in s.loops[l].buf && Count([m], h) == if m.handle == h then 1 else 0;
  }

  lemma {:induction false} EventSteady(s: State, step: Step, h: Handle, g: Signum)
    requires Steady(s, h, g) && Enabled(s, step) && ByEvent(step) && LoopOk(s, step.l, s.loops[step.l])
    ensures Steady(Do(s, step), h, g)
  {
    if step.Dispatch? {
      DispatchSteady(s, step.l, h, g);
    } else {
      assert step.CountDispatched? ==> s.loops[step.l].buf[0] in s.loops[step.l].buf;
      hide Count;
    }
  }

  lemma {:induction false} HandlerSteady(s: State, step: Step, h: Handle, g: Signum)
    requires Steady(s, h, g) && Enabled(s, step) && ByHandler(step) && HandlerOk(s)
    ensures Steady(Do(s, step), h, g)
  {
    assert step.Write? || step.CountCaught? ==> s.handler.todo[0] in s.handler.todo;
    hide Count;
  }

  lemma {:induction false} CallSteady(s: State, step: Step, h: Handle, g: Signum)
    requires Steady(s, h, g) && Enabled(s, step) && ByCall(step) && Leaves(step, h, g)
    requires LoopOk(s, step.l, s.loops[step.l]) && (h in s.handles ==> WatcherOk(s, h, s.handles[h]))
    ensures Steady(Do(s, step), h, g)
  {
    hide Count, InFlight;
  }

  lemma {:induction false} OpSteady(s: State, step: Step, h: Handle, g: Signum)
    requires Steady(s, h, g) && Enabled(s, step) && !ByCall(step) && !ByEvent(step) && !ByHandler(step)
    requires LoopOk(s, step.l, s.loops[step.l]) && (h in s.handles ==> WatcherOk(s, h, s.handles[h]))
    requires h in s.handles && s.handles[h].loop in s.loops ==>
      LoopOk(s, s.handles[h].loop, s.loops[s.handles[h].loop])
    ensures Steady(Do(s, step), h, g)
  {
    hide Count, InFlight;
  }

  lemma {:induction false} StepSteady(s: State, step: Step, h: Handle, g: Signum)
    requires Inv(s) && Steady(s, h, g) && Enabled(s, step) && Leaves(step, h, g)
    ensures Steady(Do(s, step), h, g)
  {
    assert h in s.handles ==> WatcherOk(s, h, s.handles[h]);
    assert h in s.handles ==> LoopOk(s, s.handles[h].loop, s.loops[s.handles[h].loop]);
    if ByHandler(step) {
      HandlerSteady(s, step, h, g);
    } else {
      assert LoopOk(s, step.l, s.loops[step.l]);
      if ByEvent(step) {
        EventSteady(s, step, h, g);
      } else if ByCall(step) {
        CallSteady(s, step, h, g);
      } else {
        OpSteady(s, step, h, g);
      }
    }
  }

  lemma {:induction false} RunSteady(s: State, steps: seq<Step>, h: Handle, g: Signum)
    requires Inv(s) && Steady(s, h, g) && CanRun(s, steps) && AllLeave(steps, h, g)
    ensures Inv(Run(s, steps)) && Steady(Run(s, steps), h, g)
    decreases |steps|
  {
    hide Inv, Enabled, Do, Steady, Leaves;
    if steps != [] {
      assert Leaves(steps[0], h, g);
      StepSteady(s, steps[0], h, g);
      StepKeeps(s, steps[0]);
      RunSteady(Do(s, steps[0]), steps[1..], h, g);
    }
  }

  // The calls of signal_cb for a watcher that is never stopped or closed, and only started for
  // one signal, are all for that signal, and they and the messages on their way to become one
  // are, in number, the signals caught for it, but for the write not yet counted.
  lemma {:induction false} CaughtIsCalled(s: State, steps: seq<Step>, h: Handle, g: Signum)
    requires Start(s) && CanRun(s, steps) && AllLeave(steps, h, g) && h in Run(s, steps).handles
    ensures var t := Run(s, steps);
      var w := t.handles[h];
      && w.loop in t.loops && (forall m :: m in t.called && m.handle == h ==> m.signum == g)
      && Count(t.called, h) + Count(ToCome(t.loops[w.loop]), h) == w.caught + Uncounted(t.handler, h)
  {
    assert Inv(s) && Steady(s, h, g);
    RunSteady(s, steps, h, g);
    var t := Run(s, steps);
    var w := t.handles[h];
    assert WatcherOk(t, h, w);
    ToComeCount(t.loops[w.loop], h);
  }

  lemma {:induction false} ToComeCount(lp: Loop, h: Handle)
    ensures Count(ToCome(lp), h) + Current(lp, h) == InFlight(lp, h)
  {
    var front := if (lp.pc.InCallback? || lp.pc.Counting?) && lp.buf != [] then lp.buf[1..] else lp.buf;
    CountJoin(front, lp.pipe, h);
  }

  // -- What calls have done when they return -----------------------------------------------------

  // What a call is to bring about.
  ghost function Aim(call: Step): Next
    requires call.CallStart? || call.CallStop? || call.CallClose?
  {
    if call.CallStart? then StartAt(call.signum) else if call.CallStop? then Nothing else FinishClose
  }

  // The thread of a loop is inside such a call for h.
  ghost predicate Inside(op: Op, h: Handle, aim: Next) {
    || ((op.Unlinking? || op.Clearing?) && op.h == h && op.next == aim)
    || (op.Linking? && op.h == h && aim == StartAt(op.signum))
    || (op.Comparing? && op.h == h && aim.FinishClose?)
  }

  ghost predicate Achieved(s: State, h: Handle, aim: Next) {
    && h in s.handles
    && match aim
       case Nothing => h !in s.tree && s.handles[h].signum == 0
       case StartAt(n) => h in s.tree && s.handles[h].signum == n && n in s.installed
       case FinishClose => h !in s.tree && s.handles[h].signum == 0 && s.handles[h].closing
  }

  // The call has returned, and has done its work or, if the system refused the signal, left the
  // watcher stopped.
  ghost predicate Returned(s: State, l: LoopId, h: Handle, aim: Next, ok: bool) {
    l in s.loops && s.loops[l].op.Ready? && Achieved(s, h, if ok then aim else Nothing)
  }

  lemma {:induction false} StartBegins(s: State, l: LoopId, h: Handle, n: Signum)
    requires Enabled(s, CallStart(l, h, n)) && WatcherOk(s, h, s.handles[h]) && TreeOk(s) && n != 0
    ensures var t := Do(s, CallStart(l, h, n));
      l in t.loops && (Inside(t.loops[l].op, h, StartAt(n)) || Returned(t, l, h, StartAt(n), true))
  {
    assert h in s.tree ==> Watched(s, s.handles[h].signum);
    hide InFlight, ClosingOk, Count;
  }

  lemma {:induction false} StopBegins(s: State, call: Step)
    requires Enabled(s, call) && (call.CallStop? || call.CallClose?) && WatcherOk(s, call.h, s.handles[call.h])
    ensures var t := Do(s, call);
      call.l in t.loops
      && (Inside(t.loops[call.l].op, call.h, Aim(call)) || Returned(t, call.l, call.h, Aim(call), true))
  {
    hide InFlight, ClosingOk, Count;
  }

  lemma {:induction false} CallBegins(s: State, call: Step)
    requires Inv(s) && Enabled(s, call) && (call.CallStop? || call.CallClose? || (call.CallStart? && call.signum != 0))
    ensures var t := Do(s, call);
      call.l in t.loops
      && (Inside(t.loops[call.l].op, call.h, Aim(call)) || Returned(t, call.l, call.h, Aim(call), true))
  {
    assert TreeOk(s) && WatcherOk(s, call.h, s.handles[call.h]);
    hide Inv, Enabled, Do, Inside, Returned, TreeOk, WatcherOk;
    if call.CallStart? {
      StartBegins(s, call.l, call.h, call.signum);
    } else {
      StopBegins(s, call);
    }
  }

  // The system refuses the signal that the thread of loop l is about to install the handler for.
  ghost predicate Refuses(s: State, step: Step, l: LoopId) {
    step == Link(l, false) && l in s.loops && s.loops[l].op.Linking? && !Watched(s, s.loops[l].op.signum)
  }

  lemma {:induction false} TreeEnds(s: State, step: Step, l: LoopId, h: Handle, aim: Next)
    requires l in s.loops && LoopOk(s, l, s.loops[l]) && h in s.handles && WatcherOk(s, h, s.handles[h])
    requires Inside(s.loops[l].op, h, aim) && Enabled(s, step) && (step == Unlink(l) || (step.Link? && step.l == l))
    ensures var t := Do(s, step);
      l in t.loops && (Inside(t.loops[l].op, h, aim) || Returned(t, l, h, aim, !Refuses(s, step, l)))
  {
    hide InFlight, Watched, MsgsOk;
  }

  lemma {:induction false} StateEnds(s: State, step: Step, l: LoopId, h: Handle, aim: Next)
    requires l in s.loops && LoopOk(s, l, s.loops[l]) && h in s.handles && WatcherOk(s, h, s.handles[h])
    requires Inside(s.loops[l].op, h, aim) && Enabled(s, step) && (step == Clear(l) || step == Compare(l))
    ensures var t := Do(s, step);
      l in t.loops && (Inside(t.loops[l].op, h, aim) || Returned(t, l, h, aim, true))
  {
    hide InFlight, Watched, MsgsOk;
  }

  lemma {:induction false} OpWaits(s: State, step: Step, l: LoopId, h: Handle, aim: Next)
    requires l in s.loops && LoopOk(s, l, s.loops[l]) && Inside(s.loops[l].op, h, aim) && Enabled(s, step)
    requires step != Unlink(l) && step != Clear(l) && step != Compare(l) && !(step.Link? && step.l == l)
    ensures l in Do(s, step).loops && Inside(Do(s, step).loops[l].op, h, aim)
  {
    hide Watched, MsgsOk;
  }

  lemma {:induction false} OpMoves(s: State, step: Step, l: LoopId, h: Handle, aim: Next)
    requires Inv(s) && l in s.loops && Inside(s.loops[l].op, h, aim) && Enabled(s, step)
    ensures var t := Do(s, step);
      l in t.loops && (Inside(t.loops[l].op, h, aim) || Returned(t, l, h, aim, !Refuses(s, step, l)))
  {
    assert LoopOk(s, l, s.loops[l]) && OpOk(s, l, s.loops[l].op);
    assert h in s.handles && WatcherOk(s, h, s.handles[h]);
    assert step == Clear(l) || step == Compare(l) ==> !Refuses(s, step, l);
    hide Enabled, Do, Inside, Returned, Refuses;
    if step == Unlink(l) || (step.Link? && step.l == l) {
      TreeEnds(s, step, l, h, aim);
    } else if step == Clear(l) || step == Compare(l) {
      StateEnds(s, step, l, h, aim);
    } else {
      OpWaits(s, step, l, h, aim);
    }
  }

  // Along a run, the call goes on until it returns, with its work done.
  ghost predicate Completes(s: State, steps: seq<Step>, l: LoopId, h: Handle, aim: Next)
    requires CanRun(s, steps)
    decreases |steps|
  {
    && l in s.loops && Inside(s.loops[l].op, h, aim)
    && (steps != [] ==>
          || Returned(Do(s, steps[0]), l, h, aim, !Refuses(s, steps[0], l))
          || Completes(Do(s, steps[0]), steps[1..], l, h, aim))
  }

  lemma {:induction false} InsideCompletes(s: State, steps: seq<Step>, l: LoopId, h: Handle, aim: Next)
    requires Inv(s) && CanRun(s, steps) && l in s.loops && Inside(s.loops[l].op, h, aim)
    ensures Completes(s, steps, l, h, aim)
    decreases |steps|
  {
    hide Inv, Enabled, Do, Inside, Returned, Refuses;
    if steps != [] {
      OpMoves(s, steps[0], l, h, aim);
      StepKeeps(s, steps[0]);
      if Inside(Do(s, steps[0]).loops[l].op, h, aim) {
        InsideCompletes(Do(s, steps[0]), steps[1..], l, h, aim);
      }
    }
  }

  // In every interleaving: when uv_signal_start returns the watcher is in the tree for its
  // signal and the handler is installed, unless the system refused the signal; when
  // uv_signal_stop or uv_close returns it is out of the tree and has no signal.
  lemma {:induction false} CallsComplete(s: State, steps: seq<Step>, call: Step, more: seq<Step>)
    requires Start(s) && CanRun(s, steps) && Enabled(Run(s, steps), call)
    requires call.CallStop? || call.CallClose? || (call.CallStart? && call.signum != 0)
    requires CanRun(Do(Run(s, steps), call), more)
    ensures var t := Do(Run(s, steps), call);
      Returned(t, call.l, call.h, Aim(call), true) || Completes(t, more, call.l, call.h, Aim(call))
  {
    RunInv(s, steps);
    var t := Do(Run(s, steps), call);
    hide Inv, Enabled, Do, Inside, Returned;
    CallBegins(Run(s, steps), call);
    StepKeeps(Run(s, steps), call);
    if Inside(t.loops[call.l].op, call.h, Aim(call)) {
      InsideCompletes(t, more, call.l, call.h, Aim(call));
    }
  }
}
