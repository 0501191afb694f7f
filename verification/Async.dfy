/** Wake-ups of an event loop from other threads (src/unix/async.cpp).

Any number of threads call uv_async_send on any number of handles while the loop
drains its wake descriptor and passes over its handles. Every shared access of the
source is one step here: the cheap read, the compare-and-swap, the write, a read of
the descriptor, the moves of the handle queue. A run is any interleaving of steps.
*/
module Async {
  import opened Seqs

  type Handle = nat
  type Thread = nat

  const CHUNK: nat := 1024

  // Where a call of uv_async_send stands. `seen` is the number of callbacks of the
  // handle begun before the call; the source keeps no such number.
  datatype Sender =
    | AtRead(h: Handle, seen: nat)
    | AtCas(h: Handle, seen: nat)
    | AtWrite(h: Handle, seen: nat)
    | Returned(h: Handle, seen: nat)

  // Where the loop stands: in poll or other user code, reading the descriptor
  // (uv__async_io), or passing over the handles (uv__async_event).
  datatype Loop = Polling | Reading | Drained | Passing | Testing(h: Handle) | Calling(h: Handle)

  datatype State = State(
    eventfd: bool,              // the descriptor is an eventfd, not a pipe
    fd: nat,                    // what reads of the descriptor would return in all
    handles: seq<Handle>,       // loop->async_handles
    queue: seq<Handle>,         // the local queue of the pass
    pending: map<Handle, bool>,
    senders: map<Thread, Sender>,
    loop: Loop,
    begun: map<Handle, nat>,    // callbacks begun, per handle
    raised: map<Handle, nat>)   // times pending went from 0 to 1, per handle

  datatype Step =
    | Init(h: Handle)
    | Close(h: Handle)
    | SendCall(t: Thread, h: Handle)
    | SendRead(t: Thread)
    | SendCas(t: Thread)
    | SendWrite(t: Thread, full: bool)
    | ReadFd
    | MoveHandles
    | TakeHandle
    | TestHandle
    | CallbackReturns
    | EndPass

  ghost predicate Start(s: State) {
    && s.fd == 0 && s.handles == [] && s.queue == [] && s.pending == map[] && s.senders == map[]
    && s.loop == Polling && s.begun == map[] && s.raised == map[]
  }

  // User code on the loop thread runs between passes and inside callbacks.
  ghost predicate InUserCode(s: State) {
    s.loop.Polling? || s.loop.Calling?
  }

  // Thread t is inside uv_async_send.
  ghost predicate Sending(s: State, t: Thread) {
    t in s.senders && !s.senders[t].Returned?
  }

  ghost predicate Enabled(s: State, step: Step) {
    match step
    case Init(h) => InUserCode(s) && h !in s.pending && h !in s.begun && h !in s.raised
    case Close(h) => InUserCode(s) && h in s.pending && forall t :: Sending(s, t) ==> s.senders[t].h != h
    case SendCall(t, h) => h in s.pending && h in s.begun && !Sending(s, t)
    case SendRead(t) => t in s.senders && s.senders[t].AtRead? && s.senders[t].h in s.pending
    case SendCas(t) =>
      t in s.senders && s.senders[t].AtCas? && s.senders[t].h in s.pending && s.senders[t].h in s.raised
    case SendWrite(t, full) => t in s.senders && s.senders[t].AtWrite? && (full ==> s.fd > 0)
    case ReadFd => (s.loop.Polling? && s.fd > 0) || s.loop.Reading?
    case MoveHandles => s.loop.Drained?
    case TakeHandle => s.loop.Passing? && s.queue != []
    case TestHandle => s.loop.Testing? && s.loop.h in s.pending && s.loop.h in s.begun
    case CallbackReturns => s.loop.Calling?
    case EndPass => s.loop.Passing? && s.queue == []
  }

  predicate ByUser(step: Step) {
    step.Init? || step.Close?
  }

  predicate BySender(step: Step) {
    step.SendCall? || step.SendRead? || step.SendCas? || step.SendWrite?
  }

  // User code on the loop thread opens or closes a handle (lines 42-57, 72-75).
  ghost function DoUser(s: State, step: Step): State
    requires Enabled(s, step) && ByUser(step)
  {
    match step
    case Init(h) =>
      s.(handles := s.handles + [h], pending := s.pending[h := false],
         begun := s.begun[h := 0], raised := s.raised[h := 0])
    case Close(h) =>
      if h in s.queue then s.(queue := Without(s.queue, h), pending := s.pending - {h})
      else s.(handles := Without(s.handles, h), pending := s.pending - {h})
  }

  // A thread moves on inside uv_async_send (lines 60-69, 145-174).
  ghost function DoSend(s: State, step: Step): State
    requires Enabled(s, step) && BySender(step)
  {
    match step
    case SendCall(t, h) => s.(senders := s.senders[t := AtRead(h, s.begun[h])])
    case SendRead(t) =>
      var c := s.senders[t];
      s.(senders := s.senders[t := if s.pending[c.h] then Returned(c.h, c.seen) else AtCas(c.h, c.seen)])
    case SendCas(t) =>
      var c := s.senders[t];
      if s.pending[c.h] then s.(senders := s.senders[t := Returned(c.h, c.seen)])
      else s.(pending := s.pending[c.h := true], raised := s.raised[c.h := s.raised[c.h] + 1],
              senders := s.senders[t := AtWrite(c.h, c.seen)])
    case SendWrite(t, full) =>
      var c := s.senders[t];
      s.(fd := if full then s.fd else s.fd + 1, senders := s.senders[t := Returned(c.h, c.seen)])
  }

  // The loop thread moves on inside uv__async_io and uv__async_event (lines 78-142).
  ghost function DoLoop(s: State, step: Step): State
    requires Enabled(s, step) && !ByUser(step) && !BySender(step)
  {
    match step
    case ReadFd =>
      if !s.eventfd && s.fd >= CHUNK then s.(fd := s.fd - CHUNK, loop := Reading)
      else s.(fd := 0, loop := Drained)
    case MoveHandles => s.(handles := [], queue := s.handles, loop := Passing)
    case TakeHandle =>
      var h := s.queue[0];
      s.(queue := s.queue[1..], handles := s.handles + [h], loop := Testing(h))
    case TestHandle =>
      var h := s.loop.h;
      if s.pending[h] then
        s.(pending := s.pending[h := false], loop := Calling(h), begun := s.begun[h := s.begun[h] + 1])
      else s.(loop := Passing)
    case CallbackReturns => s.(loop := Passing)
    case EndPass => s.(loop := Polling)
  }

  ghost function Do(s: State, step: Step): State
    requires Enabled(s, step)
  {
    if ByUser(step) then DoUser(s, step)
    else if BySender(step) then DoSend(s, step)
    else DoLoop(s, step)
  }

  // The two queues together hold every open handle once.
  ghost predicate Queued(s: State) {
    && NoRepeats(s.handles) && NoRepeats(s.queue) && (forall h :: h in s.handles ==> h !in s.queue)
    && (forall h :: h in s.pending <==> h in s.handles || h in s.queue)
    && (s.loop.Polling? || s.loop.Reading? || s.loop.Drained? ==> s.queue == [])
    && (s.loop.Testing? ==> s.loop.h in s.pending)
  }

  // Some sender has raised a flag and not yet written to the descriptor.
  ghost predicate WriteDue(s: State) {
    exists t :: t in s.senders && s.senders[t].AtWrite?
  }

  // A raised flag of h cannot be missed: the descriptor is or will be readable, or
  // the loop is on its way to h.
  ghost predicate WakeUpOutstanding(s: State, h: Handle) {
    || s.fd > 0 || WriteDue(s)
    || s.loop.Reading? || s.loop.Drained? || h in s.queue || s.loop == Testing(h)
  }

  ghost predicate NoneLost(s: State) {
    forall h :: h in s.pending && s.pending[h] ==> WakeUpOutstanding(s, h)
  }

  // Coalescing: each callback answers exactly one raising of the flag.
  ghost predicate Coalesced(s: State) {
    && s.begun.Keys == s.raised.Keys && s.pending.Keys <= s.begun.Keys
    && (forall h :: h in s.pending ==> s.raised[h] == s.begun[h] + if s.pending[h] then 1 else 0)
    && (forall h :: h in s.begun ==> s.begun[h] <= s.raised[h])
  }

  // A call that got past the compare-and-swap has a callback coming: the flag is
  // raised, or a callback has begun since the call.
  ghost predicate CallAnswered(s: State, c: Sender) {
    && c.h in s.begun && c.seen <= s.begun[c.h]
    && (!c.Returned? ==> c.h in s.pending)
    && (c.AtWrite? || (c.Returned? && c.h in s.pending) ==>
          c.h in s.pending && (s.pending[c.h] || c.seen < s.begun[c.h]))
  }

  ghost predicate Answered(s: State) {
    forall t :: t in s.senders ==> CallAnswered(s, s.senders[t])
  }

  ghost predicate Inv(s: State) {
    Queued(s) && NoneLost(s) && Coalesced(s) && Answered(s)
  }

  lemma {:induction false} InitQueued(s: State, h: Handle)
    requires Queued(s) && Enabled(s, Init(h))
    ensures Queued(Do(s, Init(h)))
  {
    TailIn(s.handles, h);
  }

  lemma {:induction false} CloseQueued(s: State, h: Handle)
    requires Queued(s) && Enabled(s, Close(h))
    ensures Queued(Do(s, Close(h)))
  {
    WithoutKeeps(if h in s.queue then s.queue else s.handles, h);
  }

  lemma {:induction false} TakeQueued(s: State)
    requires Queued(s) && Enabled(s, TakeHandle)
    ensures Queued(Do(s, TakeHandle))
  {
    HeadOut(s.queue);
    TailIn(s.handles, s.queue[0]);
  }

  lemma {:induction false} MoveQueued(s: State)
    requires Queued(s) && Enabled(s, MoveHandles)
    ensures Queued(Do(s, MoveHandles))
  {}

  lemma {:induction false} LoopQueued(s: State, step: Step)
    requires Queued(s) && Enabled(s, step) && !ByUser(step) && !BySender(step)
    ensures Queued(DoLoop(s, step))
  {
    if step.TakeHandle? {
      TakeQueued(s);
    } else if step.MoveHandles? {
      MoveQueued(s);
    } else {
      assert DoLoop(s, step).handles == s.handles && DoLoop(s, step).queue == s.queue;
      assert DoLoop(s, step).pending.Keys == s.pending.Keys;
    }
  }

  lemma {:induction false} SendQueued(s: State, step: Step)
    requires Queued(s) && Enabled(s, step) && BySender(step)
    ensures Queued(DoSend(s, step))
  {}

  lemma {:induction false} StepQueued(s: State, step: Step)
    requires Queued(s) && Enabled(s, step)
    ensures Queued(Do(s, step))
  {
    if step.Init? {
      InitQueued(s, step.h);
    } else if step.Close? {
      CloseQueued(s, step.h);
    } else if BySender(step) {
      SendQueued(s, step);
    } else {
      LoopQueued(s, step);
    }
  }

  lemma {:induction false} StepNoneLost(s: State, step: Step)
    requires Queued(s) && NoneLost(s) && Enabled(s, step)
    ensures NoneLost(Do(s, step))
  {
    var s' := Do(s, step);
    forall h | h in s'.pending && s'.pending[h] ensures WakeUpOutstanding(s', h) {
      if h in s.pending && s.pending[h] {
        assert WakeUpOutstanding(s, h);
        if WriteDue(s) {
          var t :| t in s.senders && s.senders[t].AtWrite?;
          assert s'.fd > 0 || (t in s'.senders && s'.senders[t].AtWrite?) || s'.loop.Reading? || s'.loop.Drained?;
        }
        if step.Close? {
          WithoutKeeps(s.queue, step.h);
        }
      } else {
        assert step.SendCas? && s'.senders[step.t].AtWrite?;
      }
    }
  }

  lemma {:induction false} UserCoalesced(s: State, step: Step)
    requires Coalesced(s) && Enabled(s, step) && ByUser(step)
    ensures Coalesced(DoUser(s, step))
  {}

  lemma {:induction false} SendCoalesced(s: State, step: Step)
    requires Coalesced(s) && Enabled(s, step) && BySender(step)
    ensures Coalesced(DoSend(s, step))
  {}

  lemma {:induction false} LoopCoalesced(s: State, step: Step)
    requires Coalesced(s) && Enabled(s, step) && !ByUser(step) && !BySender(step)
    ensures Coalesced(DoLoop(s, step))
  {}

  lemma {:induction false} StepCoalesced(s: State, step: Step)
    requires Coalesced(s) && Enabled(s, step)
    ensures Coalesced(Do(s, step))
  {
    if ByUser(step) {
      UserCoalesced(s, step);
    } else if BySender(step) {
      SendCoalesced(s, step);
    } else {
      LoopCoalesced(s, step);
    }
  }

  lemma {:induction false} UserAnswered(s: State, step: Step)
    requires Coalesced(s) && Answered(s) && Enabled(s, step) && ByUser(step)
    ensures Answered(DoUser(s, step))
  {}

  lemma {:induction false} SendAnswered(s: State, step: Step)
    requires Coalesced(s) && Answered(s) && Enabled(s, step) && BySender(step)
    ensures Answered(DoSend(s, step))
  {}

  lemma {:induction false} LoopAnswered(s: State, step: Step)
    requires Coalesced(s) && Answered(s) && Enabled(s, step) && !ByUser(step) && !BySender(step)
    ensures Answered(DoLoop(s, step))
  {}

  lemma {:induction false} StepAnswered(s: State, step: Step)
    requires Coalesced(s) && Answered(s) && Enabled(s, step)
    ensures Answered(Do(s, step))
  {
    if ByUser(step) {
      UserAnswered(s, step);
    } else if BySender(step) {
      SendAnswered(s, step);
    } else {
      LoopAnswered(s, step);
    }
  }

  lemma {:induction false} StepKeeps(s: State, step: Step)
    requires Inv(s) && Enabled(s, step)
    ensures Inv(Do(s, step))
  {
    StepQueued(s, step);
    StepNoneLost(s, step);
    StepCoalesced(s, step);
    StepAnswered(s, step);
  }

  // A run: any sequence of enabled steps.
  ghost predicate CanRun(s: State, steps: seq<Step>)
    decreases |steps|
  {
    steps != [] ==> Enabled(s, steps[0]) && CanRun(Do(s, steps[0]), steps[1..])
  }

  ghost function Run(s: State, steps: seq<Step>): State
    requires CanRun(s, steps)
    decreases |steps|
  {
    if steps == [] then s else Run(Do(s, steps[0]), steps[1..])
  }

  lemma {:induction false} StartInv(s: State)
    requires Start(s)
    ensures Inv(s)
  {}

  lemma {:induction false} RunKeeps(s: State, steps: seq<Step>)
    requires Inv(s) && CanRun(s, steps)
    ensures Inv(Run(s, steps))
    decreases |steps|
  {
    if steps != [] {
      StepKeeps(s, steps[0]);
      RunKeeps(Do(s, steps[0]), steps[1..]);
    }
  }

  // In every interleaving: no raised flag is ever lost, and a call that returned while
  // its handle is open is answered by a callback that begins after the call began.
  lemma {:induction false} NoWakeUpLost(s: State, steps: seq<Step>)
    requires Start(s) && CanRun(s, steps)
    ensures var r := Run(s, steps);
      && (forall h :: h in r.pending && r.pending[h] ==> WakeUpOutstanding(r, h))
      && (forall t :: t in r.senders && r.senders[t].Returned? && r.senders[t].h in r.pending ==>
            (r.senders[t].h in r.begun && r.senders[t].seen < r.begun[r.senders[t].h])
            || (r.pending[r.senders[t].h] && WakeUpOutstanding(r, r.senders[t].h)))
  {
    StartInv(s);
    RunKeeps(s, steps);
  }
}
