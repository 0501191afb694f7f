/** What every interleaving of signals, handlers and loops keeps. */
module SignalSafety {
  import opened Seqs
  import opened Signal

  // Messages in msgs that name h.
  ghost function Count(msgs: seq<Msg>, h: Handle): nat {
    if msgs == [] then 0 else (if msgs[0].handle == h then 1 else 0) + Count(msgs[1..], h)
  }

  lemma {:induction false} CountJoin(a: seq<Msg>, b: seq<Msg>, h: Handle)
    ensures Count(a + b, h) == Count(a, h) + Count(b, h)
  {
    if a == [] {
      assert a + b == b;
    } else {
      CountJoin(a[1..], b, h);
      assert (a + b)[1..] == a[1..] + b;
    }
  }

  lemma {:induction false} CountSplit(msgs: seq<Msg>, n: nat, h: Handle)
    requires n <= |msgs|
    ensures Count(msgs, h) == Count(msgs[..n], h) + Count(msgs[n..], h)
  {
    CountJoin(msgs[..n], msgs[n..], h);
    assert msgs[..n] + msgs[n..] == msgs;
  }

  lemma {:induction false} CountZero(msgs: seq<Msg>, h: Handle)
    ensures Count(msgs, h) == 0 <==> forall m :: m in msgs ==> m.handle != h
  {
    if msgs != [] {
      CountZero(msgs[1..], h);
      assert forall m :: m in msgs <==> m == msgs[0] || m in msgs[1..];
    }
  }

  // Messages of h written and not yet dispatched.
  ghost function InFlight(lp: Loop, h: Handle): nat {
    Count(lp.pipe, h) + Count(lp.buf, h)
  }

  // 1 while the handler is between its write for h and the increment of the counter.
  ghost function Uncounted(handler: Handler, h: Handle): nat {
    if handler.Wrote? && handler.todo != [] && handler.todo[0] == h then 1 else 0
  }

  // uv_close of h has begun and not yet compared the counters.
  ghost predicate CloseBegun(lp: Loop, h: Handle) {
    || ((lp.op.Unlinking? || lp.op.Clearing?) && lp.op.h == h && lp.op.next.FinishClose?)
    || (lp.op.Comparing? && lp.op.h == h)
  }

  ghost predicate ClosingOk(w: Watcher, lp: Loop, h: Handle) {
    if !w.closing then w.pendings == 0 && !CloseBegun(lp, h)
    else if CloseBegun(lp, h) then w.pendings == 0 && (lp.op.Comparing? ==> w.signum == 0)
    else w.signum == 0 && w.pendings == if w.caught == w.dispatched then 1 else 0
  }

  ghost predicate WatcherOk(s: State, h: Handle, w: Watcher) {
    && w.loop in s.loops
    && var lp := s.loops[w.loop];
    && w.caught + Uncounted(s.handler, h) == w.dispatched + InFlight(lp, h)
    && (h in s.tree ==> w.signum != 0)
    && (w.signum != 0 ==> h in s.tree || (lp.op.Clearing? && lp.op.h == h))
    && ClosingOk(w, lp, h)
  }

  ghost predicate MsgsOk(s: State, l: LoopId, msgs: seq<Msg>) {
    forall m :: m in msgs ==> Owns(s, l, m.handle) && m.signum != 0
  }

  ghost predicate PcOk(lp: Loop) {
    && (lp.pc.Outside? || lp.pc.Reading? ==> lp.buf == [])
    && (lp.pc.InCallback? || lp.pc.Counting? ==> lp.buf != [])
    && (lp.op.Ready? || lp.pc.Outside? || lp.pc.InCallback?)
  }

  ghost predicate OpOk(s: State, l: LoopId, op: Op) {
    match op
    case Ready => true
    case Unlinking(h, next) =>
      Owns(s, l, h) && h in s.tree && (s.handles[h].closing <==> next.FinishClose?) && NextOk(next)
    case Clearing(h, next) =>
      Owns(s, l, h) && h !in s.tree && (s.handles[h].closing <==> next.FinishClose?) && NextOk(next)
    case Linking(h, signum) => Owns(s, l, h) && h !in s.tree && !s.handles[h].closing && signum != 0
    case Comparing(h) => Owns(s, l, h) && s.handles[h].closing
  }

  ghost predicate NextOk(next: Next) {
    next.StartAt? ==> next.signum != 0
  }

  ghost predicate LoopOk(s: State, l: LoopId, lp: Loop) {
    MsgsOk(s, l, lp.pipe) && MsgsOk(s, l, lp.buf) && PcOk(lp) && OpOk(s, l, lp.op)
  }

  // The handler visits watchers that are in the tree, and they stay there.
  ghost predicate HandlerOk(s: State) {
    !s.handler.Idle? ==>
      && NoRepeats(s.handler.todo) && s.handler.signum != 0
      && (s.handler.Wrote? ==> s.handler.todo != [])
      && forall h :: h in s.handler.todo ==> h in s.tree && h in s.handles && s.handles[h].signum == s.handler.signum
  }

  // The handler of the operating system is installed just for the watched signals.
  ghost predicate TreeOk(s: State) {
    (forall h :: h in s.tree ==> h in s.handles) && forall n :: n in s.installed <==> Watched(s, n)
  }

  ghost predicate Inv(s: State) {
    && (forall h :: h in s.handles ==> WatcherOk(s, h, s.handles[h]))
    && (forall l :: l in s.loops ==> LoopOk(s, l, s.loops[l]))
    && HandlerOk(s) && TreeOk(s)
  }

  // -- One step ------------------------------------------------------------------------------

  predicate ByHandler(step: Step) {
    step.Catch? || step.Write? || step.CountCaught? || step.Unlock?
  }

  predicate ByEvent(step: Step) {
    step.Enter? || step.Read? || step.Dispatch? || step.CallbackReturns? || step.CountDispatched? || step.EndBatch?
  }

  predicate ByCall(step: Step) {
    step.Init? || step.CallStart? || step.CallStop? || step.CallClose? || step.Forget?
  }

  lemma {:induction false} HandlerWatcher(s: State, step: Step, h: Handle)
    requires Enabled(s, step) && ByHandler(step) && HandlerOk(s)
    requires h in s.handles && WatcherOk(s, h, s.handles[h])
    ensures h in Do(s, step).handles && WatcherOk(Do(s, step), h, Do(s, step).handles[h])
  {
    if step.Write? {
      var lp := s.loops[s.handles[s.handler.todo[0]].loop];
      CountJoin(lp.pipe, [Msg(s.handler.todo[0], s.handler.signum)], h);
      HeadOut(s.handler.todo);
    } else if step.CountCaught? {
      HeadOut(s.handler.todo);
    }
  }

  lemma {:induction false} CountWatcher(s: State, l: LoopId, h: Handle)
    requires l in s.loops && LoopEnabled(s, l, CountDispatched(l)) && LoopOk(s, l, s.loops[l]) && HandlerOk(s)
    requires h in s.handles && WatcherOk(s, h, s.handles[h])
    ensures WatcherOk(DoCountDispatched(s, l), h, DoCountDispatched(s, l).handles[h])
  {
    var lp := s.loops[l];
    assert lp.buf[0] in lp.buf;
    assert s.handler.Wrote? ==> s.handler.todo[0] in s.handler.todo;
  }

  lemma {:induction false} EventWatcher(s: State, step: Step, h: Handle)
    requires Enabled(s, step) && ByEvent(step) && LoopOk(s, step.l, s.loops[step.l]) && HandlerOk(s)
    requires h in s.handles && WatcherOk(s, h, s.handles[h])
    ensures h in Do(s, step).handles && WatcherOk(Do(s, step), h, Do(s, step).handles[h])
  {
    if step.Read? {
      var pipe := s.loops[step.l].pipe;
      CountSplit(pipe, if |pipe| < BATCH then |pipe| else BATCH, h);
    } else if step.CountDispatched? {
      CountWatcher(s, step.l, h);
    }
  }

  lemma {:induction false} CallWatcher(s: State, step: Step, h: Handle)
    requires Enabled(s, step) && ByCall(step) && LoopOk(s, step.l, s.loops[step.l]) && HandlerOk(s) && TreeOk(s)
    requires h in Do(s, step).handles && (h in s.handles ==> WatcherOk(s, h, s.handles[h]))
    ensures WatcherOk(Do(s, step), h, Do(s, step).handles[h])
  {
    if h !in s.handles {
      CountZero(s.loops[step.l].pipe, h);
      CountZero(s.loops[step.l].buf, h);
      assert s.handler.Wrote? ==> s.handler.todo[0] in s.handler.todo;
    }
  }

  lemma {:induction false} OpWatcher(s: State, step: Step, h: Handle)
    requires Enabled(s, step) && !ByCall(step) && !ByEvent(step) && !ByHandler(step)
    requires h in s.handles && WatcherOk(s, h, s.handles[h]) && LoopOk(s, step.l, s.loops[step.l])
    ensures h in Do(s, step).handles && WatcherOk(Do(s, step), h, Do(s, step).handles[h])
  {}

  lemma {:induction false} HandlerLoop(s: State, step: Step, m: LoopId)
    requires Enabled(s, step) && ByHandler(step) && HandlerOk(s)
    requires m in s.loops && LoopOk(s, m, s.loops[m])
    ensures m in Do(s, step).loops && LoopOk(Do(s, step), m, Do(s, step).loops[m])
  {}

  lemma {:induction false} EventLoop(s: State, step: Step, m: LoopId)
    requires Enabled(s, step) && ByEvent(step)
    requires m in s.loops && LoopOk(s, m, s.loops[m])
    ensures m in Do(s, step).loops && LoopOk(Do(s, step), m, Do(s, step).loops[m])
  {}

  // A watcher whose close is pending has no message left anywhere.
  lemma {:induction false} PendingUnnamed(s: State, h: Handle)
    requires HandlerOk(s) && h in s.handles && WatcherOk(s, h, s.handles[h]) && s.handles[h].pendings > 0
    ensures h !in s.tree && var lp := s.loops[s.handles[h].loop];
      forall m :: m in lp.pipe || m in lp.buf ==> m.handle != h
  {
    var lp := s.loops[s.handles[h].loop];
    CountZero(lp.pipe, h);
    CountZero(lp.buf, h);
    assert s.handler.Wrote? ==> s.handler.todo[0] in s.handler.todo;
  }

  lemma {:induction false} CallLoop(s: State, step: Step, m: LoopId)
    requires Enabled(s, step) && ByCall(step) && HandlerOk(s) && TreeOk(s)
    requires step.h in s.handles ==> WatcherOk(s, step.h, s.handles[step.h])
    requires m in s.loops && LoopOk(s, m, s.loops[m])
    ensures m in Do(s, step).loops && LoopOk(Do(s, step), m, Do(s, step).loops[m])
  {
    if step.Forget? {
      PendingUnnamed(s, step.h);
    }
  }

  lemma {:induction false} OpLoop(s: State, step: Step, m: LoopId)
    requires Enabled(s, step) && !ByCall(step) && !ByEvent(step) && !ByHandler(step)
    requires LoopOk(s, step.l, s.loops[step.l])
    requires m in s.loops && LoopOk(s, m, s.loops[m])
    ensures m in Do(s, step).loops && LoopOk(Do(s, step), m, Do(s, step).loops[m])
  {}

  lemma {:induction false} StepHandler(s: State, step: Step)
    requires Enabled(s, step) && HandlerOk(s) && (step.Unlink? || step.Link? ==> s.handler.Idle?)
    requires !ByHandler(step) && !ByEvent(step) ==> LoopOk(s, step.l, s.loops[step.l])
    requires step.Forget? ==> WatcherOk(s, step.h, s.handles[step.h])
    ensures HandlerOk(Do(s, step))
  {
    if step.Write? || step.CountCaught? {
      HeadOut(s.handler.todo);
    } else if step.Forget? {
      PendingUnnamed(s, step.h);
    }
  }

  lemma {:induction false} UnlinkTree(s: State, l: LoopId)
    requires l in s.loops && OpEnabled(s, l, Unlink(l)) && LoopOk(s, l, s.loops[l]) && TreeOk(s)
    ensures TreeOk(DoUnlink(s, l))
  {
    var t := DoUnlink(s, l);
    var h := s.loops[l].op.h;
    var signum := s.handles[h].signum;
    forall n ensures n in t.installed <==> Watched(t, n) {
      if Watched(s, n) && n != signum {
        var k :| k in s.tree && k in s.handles && s.handles[k].signum == n;
        assert k in t.tree;
      }
      if n == signum {
        assert Watched(t, n) == Watched(s.(tree := s.tree - {h}), n);
        assert h in s.tree && Watched(s, n);
      }
    }
  }

  lemma {:induction false} LinkTree(s: State, l: LoopId, ok: bool)
    requires l in s.loops && OpEnabled(s, l, Link(l, ok)) && LoopOk(s, l, s.loops[l]) && TreeOk(s)
    ensures TreeOk(DoLink(s, l, ok))
  {
    var t := DoLink(s, l, ok);
    var op := s.loops[l].op;
    forall n ensures n in t.installed <==> Watched(t, n) {
      assert n in s.installed <==> Watched(s, n);
      if op.h in t.tree {
        assert Watched(t, op.signum);
      }
      if Watched(s, n) {
        var k :| k in s.tree && k in s.handles && s.handles[k].signum == n;
        assert k in t.tree && t.handles[k].signum == n;
      }
    }
  }

  // Every other step leaves the tree alone and the signal numbers of what is in it.
  lemma {:induction false} SameTree(s: State, t: State)
    requires TreeOk(s) && t.tree == s.tree && t.installed == s.installed
    requires forall h :: h in s.tree ==> h in t.handles && t.handles[h].signum == s.handles[h].signum
    ensures TreeOk(t)
  {
    forall n ensures Watched(t, n) <==> Watched(s, n) {
      if Watched(s, n) {
        var k :| k in s.tree && k in s.handles && s.handles[k].signum == n;
        assert t.handles[k].signum == n;
      }
    }
  }

  lemma {:induction false} StepTree(s: State, step: Step)
    requires Enabled(s, step) && TreeOk(s) && HandlerOk(s)
    requires !ByHandler(step) ==> LoopOk(s, step.l, s.loops[step.l])
    requires step.Forget? ==> WatcherOk(s, step.h, s.handles[step.h])
    ensures TreeOk(Do(s, step))
  {
    if step.Unlink? {
      UnlinkTree(s, step.l);
    } else if step.Link? {
      LinkTree(s, step.l, step.ok);
    } else {
      if step.Forget? {
        PendingUnnamed(s, step.h);
      }
      SameTree(s, Do(s, step));
    }
  }

  lemma {:induction false} HandlesStay(s: State, step: Step, h: Handle)
    requires Enabled(s, step) && !ByCall(step)
    ensures h in Do(s, step).handles ==> h in s.handles
  {}

  lemma {:induction false} StepWatcher(s: State, step: Step, h: Handle)
    requires Inv(s) && Enabled(s, step) && h in Do(s, step).handles
    ensures WatcherOk(Do(s, step), h, Do(s, step).handles[h])
  {
    if !ByCall(step) {
      HandlesStay(s, step, h);
    }
    assert h in s.handles ==> WatcherOk(s, h, s.handles[h]);
    assert HandlerOk(s) && TreeOk(s);
    assert !ByHandler(step) ==> step.l in s.loops && LoopOk(s, step.l, s.loops[step.l]);
    hide *;
    if ByHandler(step) {
      HandlerWatcher(s, step, h);
    } else {
      if ByEvent(step) {
        EventWatcher(s, step, h);
      } else if ByCall(step) {
        CallWatcher(s, step, h);
      } else {
        OpWatcher(s, step, h);
      }
    }
  }

  lemma {:induction false} LoopsStay(s: State, step: Step, m: LoopId)
    requires Enabled(s, step)
    ensures m in Do(s, step).loops ==> m in s.loops
  {}

  lemma {:induction false} StepLoop(s: State, step: Step, m: LoopId)
    requires Inv(s) && Enabled(s, step) && m in Do(s, step).loops
    ensures LoopOk(Do(s, step), m, Do(s, step).loops[m])
  {
    LoopsStay(s, step, m);
    assert m in s.loops && LoopOk(s, m, s.loops[m]);
    assert HandlerOk(s) && TreeOk(s);
    assert ByCall(step) ==> step.h in s.handles ==> WatcherOk(s, step.h, s.handles[step.h]);
    assert !ByHandler(step) ==> step.l in s.loops && LoopOk(s, step.l, s.loops[step.l]);
    hide *;
    if ByHandler(step) {
      HandlerLoop(s, step, m);
    } else if ByEvent(step) {
      EventLoop(s, step, m);
    } else if ByCall(step) {
      CallLoop(s, step, m);
    } else {
      OpLoop(s, step, m);
    }
  }

  lemma {:induction false} StepKeeps(s: State, step: Step)
    requires Inv(s) && Enabled(s, step)
    ensures Inv(Do(s, step))
  {
    forall h | h in Do(s, step).handles ensures WatcherOk(Do(s, step), h, Do(s, step).handles[h]) {
      StepWatcher(s, step, h);
    }
    forall m | m in Do(s, step).loops ensures LoopOk(Do(s, step), m, Do(s, step).loops[m]) {
      StepLoop(s, step, m);
    }
    if !ByHandler(step) {
      assert LoopOk(s, step.l, s.loops[step.l]);
    }
    if step.Forget? {
      assert WatcherOk(s, step.h, s.handles[step.h]);
    }
    StepHandler(s, step);
    StepTree(s, step);
  }

  lemma {:induction false} RunKeeps(s: State, steps: seq<Step>)
    requires Inv(s) && CanRun(s, steps)
    ensures Inv(Run(s, steps))
    decreases |steps|
  {
    if steps != [] {
      StepKeeps(s, steps[0]);
      RunKeeps(Do(s, steps[0]), steps[1..]);
    }
  }

  // -- Every run -----------------------------------------------------------------------------

  lemma {:induction false} RunInv(s: State, steps: seq<Step>)
    requires Start(s) && CanRun(s, steps)
    ensures Inv(Run(s, steps))
  {
    RunKeeps(s, steps);
  }

  // caught_signals minus dispatched_signals is the number of messages in flight, except
  // while the handler is between its write and the increment.
  lemma {:induction false} InFlightCounted(s: State, steps: seq<Step>, h: Handle)
    requires Start(s) && CanRun(s, steps) && h in Run(s, steps).handles
    ensures var t := Run(s, steps);
      var w := t.handles[h];
      w.loop in t.loops && w.caught + Uncounted(t.handler, h) - w.dispatched == InFlight(t.loops[w.loop], h)
  {
    RunInv(s, steps);
    assert WatcherOk(Run(s, steps), h, Run(s, steps).handles[h]);
  }

  // A close becomes pending at most once, never while a message is in flight, and at the
  // latest when the last one has been dispatched.
  lemma {:induction false} ClosePendingOnce(s: State, steps: seq<Step>, h: Handle)
    requires Start(s) && CanRun(s, steps) && h in Run(s, steps).handles
    ensures var t := Run(s, steps);
      var w := t.handles[h];
      && w.loop in t.loops && w.pendings <= 1
      && (w.pendings == 1 <==> w.closing && !CloseBegun(t.loops[w.loop], h) && InFlight(t.loops[w.loop], h) == 0)
  {
    RunInv(s, steps);
    var t := Run(s, steps);
    assert WatcherOk(t, h, t.handles[h]);
    assert t.handler.Wrote? ==> t.handler.todo[0] in t.handler.todo;
  }

  // Every message names a live watcher of its own loop whose close is not pending; the
  // handler only touches live watchers too. A message that calls back finds its watcher
  // not closing (the assertion at line 386).
  lemma {:induction false} MessagesLive(s: State, steps: seq<Step>, l: LoopId, m: Msg)
    requires Start(s) && CanRun(s, steps) && l in Run(s, steps).loops
    requires var lp := Run(s, steps).loops[l]; m in lp.pipe || m in lp.buf
    ensures var t := Run(s, steps);
      && Owns(t, l, m.handle) && t.handles[m.handle].pendings == 0
      && (t.loops[l].pc.Dispatching? && t.handles[m.handle].signum == m.signum ==> !t.handles[m.handle].closing)
  {
    RunInv(s, steps);
    var t := Run(s, steps);
    assert LoopOk(t, l, t.loops[l]);
    assert WatcherOk(t, m.handle, t.handles[m.handle]);
    if t.handles[m.handle].pendings > 0 {
      PendingUnnamed(t, m.handle);
    }
  }

  lemma {:induction false} HandlerTouchesLive(s: State, steps: seq<Step>, h: Handle)
    requires Start(s) && CanRun(s, steps) && !Run(s, steps).handler.Idle? && h in Run(s, steps).handler.todo
    ensures var t := Run(s, steps);
      && h in t.tree && h in t.handles && t.handles[h].signum == t.handler.signum
      && t.handles[h].loop in t.loops && t.handles[h].pendings == 0
  {
    RunInv(s, steps);
    var t := Run(s, steps);
    assert WatcherOk(t, h, t.handles[h]);
  }

  // The operating system's handler is installed just for the signals that some watcher in
  // the tree asks for; a watcher about to leave the tree is found there (line 453).
  lemma {:induction false} InstalledIffWatched(s: State, steps: seq<Step>, n: Signum, l: LoopId)
    requires Start(s) && CanRun(s, steps)
    ensures var t := Run(s, steps);
      && (n in t.installed <==> exists h :: h in t.tree && h in t.handles && t.handles[h].signum == n)
      && (l in t.loops && t.loops[l].op.Unlinking? ==> t.loops[l].op.h in t.tree)
  {
    RunInv(s, steps);
    var t := Run(s, steps);
    assert l in t.loops ==> LoopOk(t, l, t.loops[l]);
    assert n in t.installed <==> Watched(t, n);
  }
}
