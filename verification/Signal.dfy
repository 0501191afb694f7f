/** Signal watchers (src/unix/signal.cpp): the self-pipe of every loop, the caught and
dispatched counters, and closes that wait for messages in flight.

Signals may arrive on any thread at any moment; loops run in parallel. Accesses under
the signal lock are one step, but the handler holds the lock across several steps, one
per message written and one per counter.
*/
module Signal {
  import opened Seqs

  type LoopId = nat
  type Handle = nat
  type Signum = nat

  const BATCH: nat := 32

  datatype Msg = Msg(handle: Handle, signum: Signum)

  // What follows uv__signal_stop.
  datatype Next = Nothing | StartAt(signum: Signum) | FinishClose

  // Where a call of uv_signal_start, uv_signal_stop or uv_close stands on the loop thread.
  datatype Op =
    | Ready
    | Unlinking(h: Handle, next: Next)   // about to take the lock and leave the tree
    | Clearing(h: Handle, next: Next)    // out of the tree, signum not yet cleared
    | Linking(h: Handle, signum: Signum) // about to take the lock and enter the tree
    | Comparing(h: Handle)               // stopped, about to compare the counters

  // Where uv__signal_event stands. The message being dispatched is the first of buf.
  datatype Pc = Outside | Reading | Dispatching(full: bool) | InCallback(full: bool) | Counting(full: bool)

  datatype Watcher = Watcher(
    loop: LoopId,
    signum: Signum,
    caught: nat,
    dispatched: nat,
    closing: bool,
    pendings: nat)        // calls of uv__make_close_pending

  datatype Loop = Loop(pipe: seq<Msg>, buf: seq<Msg>, pc: Pc, op: Op)

  // uv__signal_handler. It holds the lock unless Idle; todo are the watchers still to
  // visit, and after Wrote the first of them has its message in the pipe.
  datatype Handler = Idle | Visiting(signum: Signum, todo: seq<Handle>) | Wrote(signum: Signum, todo: seq<Handle>)

  datatype State = State(
    tree: set<Handle>,          // uv__signal_tree
    installed: set<Signum>,     // signals with uv__signal_handler as their action
    handler: Handler,
    handles: map<Handle, Watcher>,
    loops: map<LoopId, Loop>,
    called: seq<Msg>)           // calls of signal_cb, on all loops

  datatype Step =
    | Init(l: LoopId, h: Handle)
    | CallStart(l: LoopId, h: Handle, signum: Signum)
    | CallStop(l: LoopId, h: Handle)
    | CallClose(l: LoopId, h: Handle)
    | Unlink(l: LoopId)
    | Clear(l: LoopId)
    | Link(l: LoopId, ok: bool)
    | Compare(l: LoopId)
    | Forget(l: LoopId, h: Handle)
    | Catch(signum: Signum, todo: seq<Handle>)
    | Write(ok: bool)
    | CountCaught
    | Unlock
    | Enter(l: LoopId)
    | Read(l: LoopId)
    | Dispatch(l: LoopId)
    | CallbackReturns(l: LoopId)
    | CountDispatched(l: LoopId)
    | EndBatch(l: LoopId)

  ghost predicate Owns(s: State, l: LoopId, h: Handle) {
    h in s.handles && s.handles[h].loop == l
  }

  ghost predicate UserCode(lp: Loop) {
    lp.op.Ready? && (lp.pc.Outside? || lp.pc.InCallback?)
  }

  // The watchers a signal is delivered to, each once. SignalTree.VisitsWatching shows that this
  // is what the search of the tree visits.
  ghost predicate Watching(s: State, signum: Signum, todo: seq<Handle>) {
    NoRepeats(todo) && forall h :: h in todo <==> h in s.tree && h in s.handles && s.handles[h].signum == signum
  }

  ghost predicate OpEnabled(s: State, l: LoopId, step: Step)
    requires l in s.loops
  {
    var lp := s.loops[l];
    if step.Unlink? then lp.op.Unlinking? && s.handler.Idle? && lp.op.h in s.handles
    else if step.Clear? then lp.op.Clearing? && lp.op.h in s.handles
    else if step.Link? then lp.op.Linking? && s.handler.Idle? && lp.op.h in s.handles
    else if step.Compare? then lp.op.Comparing? && lp.op.h in s.handles
    else false
  }

  ghost predicate LoopEnabled(s: State, l: LoopId, step: Step)
    requires l in s.loops
  {
    var lp := s.loops[l];
    if step.Init? then UserCode(lp) && step.h !in s.handles
    else if step.CallStart? then UserCode(lp) && Owns(s, l, step.h) && !s.handles[step.h].closing
    else if step.CallStop? then UserCode(lp) && Owns(s, l, step.h) && !s.handles[step.h].closing
    else if step.CallClose? then UserCode(lp) && Owns(s, l, step.h) && !s.handles[step.h].closing
    else if step.Forget? then lp.op.Ready? && lp.pc.Outside? && Owns(s, l, step.h) && s.handles[step.h].pendings > 0
    else if step.Enter? then lp.op.Ready? && lp.pc.Outside? && lp.pipe != []
    else if step.Read? then lp.pc.Reading?
    else if step.Dispatch? then lp.pc.Dispatching? && lp.buf != [] && lp.buf[0].handle in s.handles
    else if step.CallbackReturns? then lp.op.Ready? && lp.pc.InCallback?
    else if step.CountDispatched? then lp.pc.Counting? && lp.buf != [] && lp.buf[0].handle in s.handles
    else if step.EndBatch? then lp.pc.Dispatching? && lp.buf == []
    else OpEnabled(s, l, step)
  }

  ghost predicate Enabled(s: State, step: Step) {
    if step.Catch? then step.signum != 0 && s.handler.Idle? && Watching(s, step.signum, step.todo)
    else if step.Write? then
      s.handler.Visiting? && s.handler.todo != [] && s.handler.todo[0] in s.handles
      && s.handles[s.handler.todo[0]].loop in s.loops
    else if step.CountCaught? then s.handler.Wrote? && s.handler.todo != [] && s.handler.todo[0] in s.handles
    else if step.Unlock? then s.handler.Visiting? && s.handler.todo == []
    else step.l in s.loops && LoopEnabled(s, step.l, step)
  }

  ghost function After(h: Handle, next: Next): Op {
    match next
    case Nothing => Ready
    case StartAt(signum) => Linking(h, signum)
    case FinishClose => Comparing(h)
  }

  // uv__signal_stop returns at once for a watcher that was not started.
  ghost function BeginStop(w: Watcher, h: Handle, next: Next): Op {
    if w.signum == 0 then After(h, next) else Unlinking(h, next)
  }

  ghost function SetOp(s: State, l: LoopId, op: Op): State
    requires l in s.loops
  {
    s.(loops := s.loops[l := s.loops[l].(op := op)])
  }

  ghost function DoInit(s: State, l: LoopId, h: Handle): State {
    s.(handles := s.handles[h := Watcher(l, 0, 0, 0, false, 0)])
  }

  // Lines 292-314.
  ghost function DoCallStart(s: State, l: LoopId, h: Handle, signum: Signum): State
    requires l in s.loops && h in s.handles
  {
    if signum == 0 || signum == s.handles[h].signum then s
    else SetOp(s, l, BeginStop(s.handles[h], h, StartAt(signum)))
  }

  ghost function DoCallClose(s: State, l: LoopId, h: Handle): State
    requires l in s.loops && h in s.handles
  {
    SetOp(s.(handles := s.handles[h := s.handles[h].(closing := true)]), l, BeginStop(s.handles[h], h, FinishClose))
  }

  ghost predicate Watched(s: State, signum: Signum) {
    exists h :: h in s.tree && h in s.handles && s.handles[h].signum == signum
  }

  // Lines 450-462.
  ghost function DoUnlink(s: State, l: LoopId): State
    requires l in s.loops && OpEnabled(s, l, Unlink(l))
  {
    var op := s.loops[l].op;
    var out := s.(tree := s.tree - {op.h});
    var signum := s.handles[op.h].signum;
    SetOp(out.(installed := if Watched(out, signum) then s.installed else s.installed - {signum}),
          l, Clearing(op.h, op.next))
  }

  ghost function DoClear(s: State, l: LoopId): State
    requires l in s.loops && OpEnabled(s, l, Clear(l))
  {
    var op := s.loops[l].op;
    SetOp(s.(handles := s.handles[op.h := s.handles[op.h].(signum := 0)]), l, After(op.h, op.next))
  }

  // Lines 316-333; ok tells whether sigaction accepts the signal number.
  ghost function DoLink(s: State, l: LoopId, ok: bool): State
    requires l in s.loops && OpEnabled(s, l, Link(l, ok))
  {
    var op := s.loops[l].op;
    if !Watched(s, op.signum) && !ok then SetOp(s, l, Ready)
    else SetOp(s.(tree := s.tree + {op.h}, installed := s.installed + {op.signum},
                  handles := s.handles[op.h := s.handles[op.h].(signum := op.signum)]), l, Ready)
  }

  // uv__make_close_pending if every caught signal was dispatched (lines 282-284, 396-399).
  ghost function Settle(w: Watcher): Watcher {
    if w.closing && w.caught == w.dispatched then w.(pendings := w.pendings + 1) else w
  }

  ghost function DoCompare(s: State, l: LoopId): State
    requires l in s.loops && OpEnabled(s, l, Compare(l))
  {
    var h := s.loops[l].op.h;
    SetOp(s.(handles := s.handles[h := Settle(s.handles[h])]), l, Ready)
  }

  // The close callback ran: the memory of the handle is the user's again.
  ghost function DoForget(s: State, h: Handle): State {
    s.(handles := s.handles - {h})
  }

  // Lines 153-162; a full pipe drops the message.
  ghost function DoWrite(s: State, ok: bool): State
    requires Enabled(s, Write(ok))
  {
    var h := s.handler.todo[0];
    var l := s.handles[h].loop;
    if !ok then s.(handler := Visiting(s.handler.signum, s.handler.todo[1..]))
    else s.(handler := Wrote(s.handler.signum, s.handler.todo),
            loops := s.loops[l := s.loops[l].(pipe := s.loops[l].pipe + [Msg(h, s.handler.signum)])])
  }

  // Line 168.
  ghost function DoCountCaught(s: State): State
    requires Enabled(s, CountCaught)
  {
    var h := s.handler.todo[0];
    s.(handler := Visiting(s.handler.signum, s.handler.todo[1..]),
       handles := s.handles[h := s.handles[h].(caught := s.handles[h].caught + 1)])
  }

  // Line 355: whole messages, at most what the buffer holds.
  ghost function DoRead(s: State, l: LoopId): State
    requires l in s.loops
  {
    var lp := s.loops[l];
    var n := if |lp.pipe| < BATCH then |lp.pipe| else BATCH;
    s.(loops := s.loops[l := if n == 0 then lp.(pc := Outside)
         else lp.(pipe := lp.pipe[n..], buf := lp.pipe[..n], pc := Dispatching(n == BATCH))])
  }

  // Lines 382-388.
  ghost function DoDispatch(s: State, l: LoopId): State
    requires l in s.loops && LoopEnabled(s, l, Dispatch(l))
  {
    var lp := s.loops[l];
    var m := lp.buf[0];
    if m.signum == s.handles[m.handle].signum then
      s.(loops := s.loops[l := lp.(pc := InCallback(lp.pc.full))], called := s.called + [m])
    else s.(loops := s.loops[l := lp.(pc := Counting(lp.pc.full))])
  }

  // Lines 390-399.
  ghost function DoCountDispatched(s: State, l: LoopId): State
    requires l in s.loops && LoopEnabled(s, l, CountDispatched(l))
  {
    var lp := s.loops[l];
    var h := lp.buf[0].handle;
    s.(handles := s.handles[h := Settle(s.handles[h].(dispatched := s.handles[h].dispatched + 1))],
       loops := s.loops[l := lp.(buf := lp.buf[1..], pc := Dispatching(lp.pc.full))])
  }

  ghost function SetPc(s: State, l: LoopId, pc: Pc): State
    requires l in s.loops
  {
    s.(loops := s.loops[l := s.loops[l].(pc := pc)])
  }

  ghost function Do(s: State, step: Step): State
    requires Enabled(s, step)
  {
    match step
    case Init(l, h) => DoInit(s, l, h)
    case CallStart(l, h, signum) => DoCallStart(s, l, h, signum)
    case CallStop(l, h) => SetOp(s, l, BeginStop(s.handles[h], h, Nothing))
    case CallClose(l, h) => DoCallClose(s, l, h)
    case Unlink(l) => DoUnlink(s, l)
    case Clear(l) => DoClear(s, l)
    case Link(l, ok) => DoLink(s, l, ok)
    case Compare(l) => DoCompare(s, l)
    case Forget(l, h) => DoForget(s, h)
    case Catch(signum, todo) => s.(handler := Visiting(signum, todo))
    case Write(ok) => DoWrite(s, ok)
    case CountCaught => DoCountCaught(s)
    case Unlock => s.(handler := Idle)
    case Enter(l) => SetPc(s, l, Reading)
    case Read(l) => DoRead(s, l)
    case Dispatch(l) => DoDispatch(s, l)
    case CallbackReturns(l) => SetPc(s, l, Counting(s.loops[l].pc.full))
    case CountDispatched(l) => DoCountDispatched(s, l)
    case EndBatch(l) => SetPc(s, l, if s.loops[l].pc.full then Reading else Outside)
  }

  ghost predicate Start(s: State) {
    && s.tree == {} && s.installed == {} && s.handler.Idle? && s.handles == map[] && s.called == []
    && forall l :: l in s.loops ==> s.loops[l] == Loop([], [], Outside, Ready)
  }

  ghost predicate CanRun(s: State, steps: seq<Step>)
    decreases |steps|
  {
    steps != [] ==> Enabled(s, steps[0]) && CanRun(Do(s, steps[0]), steps[1..])
  }

  ghost function Run(s: State, steps: seq<Step>): State
    requires CanRun(s, steps)
    decreases |steps|
  {
    if steps == [] then s else Run(Do(s, steps[0]), steps[1..])
  }
}
