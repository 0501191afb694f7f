/** The worker pool (src/threadpool.cpp): submit, run, cancel, complete.

Any number of workers, loops and submitting threads interleave. A step is one critical
section, or one access outside of all locks. Each loop side embeds the wake-up machine
of module Async, because completed requests reach the loop through uv_async_send.
*/
module ThreadPool {
  import opened Seqs
  import Async

  type Req = nat
  type LoopId = nat

  const WQ: Async.Handle := 0   // loop->wq_async
  const CALL: Async.Thread := 0 // the call of uv_async_send made while holding wq_mutex

  datatype Item = Work(r: Req) | ExitMessage

  // Where a worker stands. Waiting is inside uv_cond_wait; Signalled has been woken
  // and still has to take the mutex back.
  datatype Worker =
    | Starting
    | Waiting
    | Signalled
    | Taken(r: Req)
    | Ran(r: Req)
    | Sending(l: LoopId)
    | Exited

  // The field w->work: the function to run, NULL, or uv__cancelled.
  datatype Field = Function | Null | Aborts

  datatype Status = Success | Canceled

  // Who holds wq_mutex across a call of uv_async_send.
  datatype Holder = Free | ByWorker(i: nat) | ByCanceller

  // Where uv__work_done stands on the loop thread.
  datatype Drain = Outside | Entered | Draining | InDone(r: Req)

  // Where uv__work_cancel stands on the loop thread.
  datatype Cancel = NoCancel | Unlinked(r: Req) | Marked(r: Req) | CancelSending(r: Req)

  datatype Side = Side(
    async: Async.State,
    finished: seq<Req>,   // loop->wq
    batch: seq<Req>,      // the local list of uv__work_done
    drain: Drain,
    holder: Holder,
    cancel: Cancel)

  // Which list or thread has a request. The source keeps no such field.
  datatype Place = InPool | AtWorker(i: nat) | AtCanceller | OnLoop | Over

  datatype Record = Record(
    owner: LoopId,
    work: Field,
    linked: bool,         // the queue member is not linked to itself
    place: Place,
    ran: nat,             // times the work function was called
    zeros: nat,           // calls of uv_cancel that returned 0
    done: seq<Status>)    // calls of the done function

  datatype State = State(
    pool: seq<Item>,      // the global wq
    workers: seq<Worker>,
    idle: int,            // idle_threads
    sides: map<LoopId, Side>,
    reqs: map<Req, Record>)

  datatype Step =
    | Submit(r: Req, l: LoopId, j: nat)
    | PostExit(j: nat)
    | Lock(i: nat, j: nat)
    | Wake(i: nat)
    | RunWork(i: nat)
    | Complete(i: nat)
    | Release(i: nat)
    | CancelTest(l: LoopId, r: Req)
    | CancelMark(l: LoopId)
    | CancelInsert(l: LoopId)
    | CancelReturn(l: LoopId)
    | DoneMove(l: LoopId)
    | DoneTake(l: LoopId)
    | DoneReturn(l: LoopId)
    | DoneEnd(l: LoopId)
    | Notify(l: LoopId, step: Async.Step)

  // uv_cond_signal wakes a waiting worker when there is one; j is the one it picks.
  ghost predicate SignalPicks(ws: seq<Worker>, j: nat) {
    (exists i :: 0 <= i < |ws| && ws[i].Waiting?) ==> j < |ws| && ws[j].Waiting?
  }

  ghost function Woken(ws: seq<Worker>, j: nat): (r: seq<Worker>)
    ensures |r| == |ws|
  {
    if j < |ws| && ws[j].Waiting? then ws[j := Signalled] else ws
  }

  // User code on the thread of the loop: between passes, in the callback of another
  // async handle, or in a done function.
  ghost predicate UserCode(side: Side) {
    side.async.loop.Polling? || (side.async.loop.Calling? && side.async.loop.h != WQ) || side.drain.InDone?
  }

  // Under wq_mutex: append r to loop->wq and begin uv_async_send.
  ghost function Insert(side: Side, r: Req, holder: Holder): Side
    requires Async.Enabled(side.async, Async.SendCall(CALL, WQ))
  {
    side.(finished := side.finished + [r], holder := holder,
          async := Async.Do(side.async, Async.SendCall(CALL, WQ)))
  }

  ghost predicate CanInsert(side: Side) {
    side.holder.Free? && Async.Enabled(side.async, Async.SendCall(CALL, WQ))
  }

  ghost predicate SendReturned(side: Side) {
    CALL in side.async.senders && side.async.senders[CALL].Returned?
  }

  ghost predicate Cancellable(rec: Record) {
    rec.linked && !rec.work.Null?
  }

  ghost predicate WorkerEnabled(s: State, step: Step)
    requires step.Lock? || step.Wake? || step.RunWork? || step.Complete? || step.Release?
  {
    && step.i < |s.workers|
    && var w := s.workers[step.i];
    match step
    case Lock(i, j) =>
      && (w.Starting? || w.Signalled?)
      && SignalPicks(s.workers, j)
      && (s.pool != [] && s.pool[0].Work? ==> s.pool[0].r in s.reqs)
    case Wake(i) => w.Waiting?
    case RunWork(i) => w.Taken? && w.r in s.reqs
    case Complete(i) =>
      w.Ran? && w.r in s.reqs && s.reqs[w.r].owner in s.sides && CanInsert(s.sides[s.reqs[w.r].owner])
    case Release(i) => w.Sending? && w.l in s.sides && SendReturned(s.sides[w.l])
  }

  ghost predicate LoopEnabled(s: State, l: LoopId, step: Step)
    requires l in s.sides
    requires !(step.Submit? || step.PostExit? || step.Lock? || step.Wake? || step.RunWork? || step.Complete?
      || step.Release?)
  {
    var side := s.sides[l];
    match step
    case CancelTest(_, r) =>
      UserCode(side) && side.cancel.NoCancel? && side.holder.Free?
      && r in s.reqs && s.reqs[r].owner == l && s.reqs[r].done == []
    case CancelMark(_) => side.cancel.Unlinked? && side.cancel.r in s.reqs
    case CancelInsert(_) => side.cancel.Marked? && side.cancel.r in s.reqs && CanInsert(side)
    case CancelReturn(_) => side.cancel.CancelSending? && side.cancel.r in s.reqs && SendReturned(side)
    case DoneMove(_) => side.drain.Entered? && side.holder.Free?
    case DoneTake(_) => side.drain.Draining? && side.batch != [] && side.batch[0] in s.reqs
    case DoneReturn(_) => side.drain.InDone? && side.cancel.NoCancel?
    case DoneEnd(_) =>
      side.drain.Draining? && side.batch == [] && Async.Enabled(side.async, Async.CallbackReturns)
    case Notify(_, a) =>
      && Async.Enabled(side.async, a)
      && (a.Init? ==> UserCode(side))
      && (a.Close? ==> UserCode(side) && a.h != WQ)
      && (a.SendCall? ==> a.t != CALL)
      && (a.CallbackReturns? ==> side.async.loop.Calling? && side.async.loop.h != WQ)
      && (Async.BySender(a) || side.cancel.NoCancel?)
  }

  ghost predicate Enabled(s: State, step: Step) {
    match step
    case Submit(r, l, j) => r !in s.reqs && l in s.sides && SignalPicks(s.workers, j)
    case PostExit(j) => ExitMessage !in s.pool && SignalPicks(s.workers, j)
    case Lock(i, j) => WorkerEnabled(s, step)
    case Wake(i) => WorkerEnabled(s, step)
    case RunWork(i) => WorkerEnabled(s, step)
    case Complete(i) => WorkerEnabled(s, step)
    case Release(i) => WorkerEnabled(s, step)
    case _ => step.l in s.sides && LoopEnabled(s, step.l, step)
  }

  // post (lines 92-98)
  ghost function Post(s: State, item: Item, j: nat): State {
    s.(pool := s.pool + [item], workers := if s.idle > 0 then Woken(s.workers, j) else s.workers)
  }

  ghost function DoSubmit(s: State, r: Req, l: LoopId, j: nat): State {
    Post(s.(reqs := s.reqs[r := Record(l, Function, true, InPool, 0, 0, [])]), Work(r), j)
  }

  // A worker takes the mutex and looks at the queue (lines 56-77).
  ghost function DoLock(s: State, i: nat, j: nat): State
    requires WorkerEnabled(s, Lock(i, j))
  {
    var left := if s.workers[i].Signalled? then s.idle - 1 else s.idle;
    if s.pool == [] then s.(workers := s.workers[i := Waiting], idle := left + 1)
    else if s.pool[0].ExitMessage? then s.(workers := Woken(s.workers[i := Exited], j), idle := left)
    else
      var r := s.pool[0].r;
      s.(pool := s.pool[1..], workers := s.workers[i := Taken(r)], idle := left,
         reqs := s.reqs[r := s.reqs[r].(linked := false, place := AtWorker(i))])
  }

  ghost function DoRunWork(s: State, i: nat): State
    requires WorkerEnabled(s, RunWork(i))
  {
    var r := s.workers[i].r;
    s.(workers := s.workers[i := Ran(r)], reqs := s.reqs[r := s.reqs[r].(ran := s.reqs[r].ran + 1)])
  }

  // Lines 82-86.
  ghost function DoComplete(s: State, i: nat): State
    requires WorkerEnabled(s, Complete(i))
  {
    var r := s.workers[i].r;
    var l := s.reqs[r].owner;
    s.(workers := s.workers[i := Sending(l)],
       sides := s.sides[l := Insert(s.sides[l], r, ByWorker(i))],
       reqs := s.reqs[r := s.reqs[r].(work := Null, linked := true, place := OnLoop)])
  }

  ghost function DoRelease(s: State, i: nat): State
    requires WorkerEnabled(s, Release(i))
  {
    var l := s.workers[i].l;
    s.(workers := s.workers[i := Starting], sides := s.sides[l := s.sides[l].(holder := Free)])
  }

  // Lines 182-193: refuse, or unlink the request from whatever list has it.
  ghost function DoCancelTest(s: State, l: LoopId, r: Req): State
    requires l in s.sides && r in s.reqs
  {
    var side := s.sides[l];
    if !Cancellable(s.reqs[r]) then s
    else
      s.(pool := Without(s.pool, Work(r)),
         sides := s.sides[l := side.(finished := Without(side.finished, r), batch := Without(side.batch, r),
                                     cancel := Unlinked(r))],
         reqs := s.reqs[r := s.reqs[r].(place := AtCanceller)])
  }

  ghost function DoCancelMark(s: State, l: LoopId): State
    requires l in s.sides && LoopEnabled(s, l, CancelMark(l))
  {
    var r := s.sides[l].cancel.r;
    s.(sides := s.sides[l := s.sides[l].(cancel := Marked(r))],
       reqs := s.reqs[r := s.reqs[r].(work := Aborts)])
  }

  ghost function DoCancelInsert(s: State, l: LoopId): State
    requires l in s.sides && LoopEnabled(s, l, CancelInsert(l))
  {
    var r := s.sides[l].cancel.r;
    s.(sides := s.sides[l := Insert(s.sides[l], r, ByCanceller).(cancel := CancelSending(r))],
       reqs := s.reqs[r := s.reqs[r].(linked := true, place := OnLoop)])
  }

  ghost function DoCancelReturn(s: State, l: LoopId): State
    requires l in s.sides && LoopEnabled(s, l, CancelReturn(l))
  {
    var r := s.sides[l].cancel.r;
    s.(sides := s.sides[l := s.sides[l].(holder := Free, cancel := NoCancel)],
       reqs := s.reqs[r := s.reqs[r].(zeros := s.reqs[r].zeros + 1)])
  }

  ghost function DoDoneMove(s: State, l: LoopId): State
    requires l in s.sides
  {
    s.(sides := s.sides[l := s.sides[l].(finished := [], batch := s.sides[l].finished, drain := Draining)])
  }

  // Lines 219-224.
  ghost function DoDoneTake(s: State, l: LoopId): State
    requires l in s.sides && LoopEnabled(s, l, DoneTake(l))
  {
    var side := s.sides[l];
    var r := side.batch[0];
    var err := if s.reqs[r].work.Aborts? then Canceled else Success;
    s.(sides := s.sides[l := side.(batch := side.batch[1..], drain := InDone(r))],
       reqs := s.reqs[r := s.reqs[r].(place := Over, done := s.reqs[r].done + [err])])
  }

  ghost function DoDoneEnd(s: State, l: LoopId): State
    requires l in s.sides && LoopEnabled(s, l, DoneEnd(l))
  {
    var side := s.sides[l];
    s.(sides := s.sides[l := side.(drain := Outside, async := Async.Do(side.async, Async.CallbackReturns))])
  }

  // Any other step of the wake-up machine; the callback of wq_async is uv__work_done.
  ghost function DoNotify(s: State, l: LoopId, a: Async.Step): State
    requires l in s.sides && LoopEnabled(s, l, Notify(l, a))
  {
    var side := s.sides[l];
    var after := Async.Do(side.async, a);
    s.(sides := s.sides[l := side.(async := after,
         drain := if a.TestHandle? && after.loop == Async.Calling(WQ) then Entered else side.drain)])
  }

  ghost function Do(s: State, step: Step): State
    requires Enabled(s, step)
  {
    match step
    case Submit(r, l, j) => DoSubmit(s, r, l, j)
    case PostExit(j) => Post(s, ExitMessage, j)
    case Lock(i, j) => DoLock(s, i, j)
    case Wake(i) => s.(workers := s.workers[i := Signalled])
    case RunWork(i) => DoRunWork(s, i)
    case Complete(i) => DoComplete(s, i)
    case Release(i) => DoRelease(s, i)
    case CancelTest(l, r) => DoCancelTest(s, l, r)
    case CancelMark(l) => DoCancelMark(s, l)
    case CancelInsert(l) => DoCancelInsert(s, l)
    case CancelReturn(l) => DoCancelReturn(s, l)
    case DoneMove(l) => DoDoneMove(s, l)
    case DoneTake(l) => DoDoneTake(s, l)
    case DoneReturn(l) => s.(sides := s.sides[l := s.sides[l].(drain := Draining)])
    case DoneEnd(l) => DoDoneEnd(s, l)
    case Notify(l, a) => DoNotify(s, l, a)
  }

  // After uv_loop_init and init_once: every loop has its wq_async open, no worker has yet
  // taken the mutex.
  ghost predicate Start(s: State) {
    && s.pool == [] && s.idle == 0 && s.reqs == map[] && s.workers != []
    && (forall i :: 0 <= i < |s.workers| ==> s.workers[i].Starting?)
    && (forall l :: l in s.sides ==> FreshSide(s.sides[l]))
  }

  ghost predicate FreshSide(side: Side) {
    && side.finished == [] && side.batch == [] && side.drain.Outside? && side.holder.Free? && side.cancel.NoCancel?
    && exists a :: Async.Start(a) && side.async == Async.Do(a, Async.Init(WQ))
  }

  ghost predicate CanRun(s: State, steps: seq<Step>)
    decreases |steps|
  {
    steps != [] ==> Enabled(s, steps[0]) && CanRun(Do(s, steps[0]), steps[1..])
  }

  ghost function Run(s: State, steps: seq<Step>): State
    requires CanRun(s, steps)
    decreases |steps|
  {
    if steps == [] then s else Run(Do(s, steps[0]), steps[1..])
  }

  // The steps that need nobody outside: no new request, cancel, handle or send, and no
  // spurious wake-up.
  predicate Internal(step: Step) {
    && !step.Submit? && !step.PostExit? && !step.Wake? && !step.CancelTest?
    && (step.Notify? ==> !step.step.Init? && !step.step.Close? && !step.step.SendCall?)
  }

  // Nothing can move any more without a new request from outside.
  ghost predicate AtRest(s: State) {
    forall step :: Internal(step) ==> !Enabled(s, step)
  }
}
