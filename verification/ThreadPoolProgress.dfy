/** The worker pool comes to rest: without new requests from outside, however the threads are
scheduled, there are only so many steps to take.

The measure has three parts, the first counting most: what workers, cancels and calls of
uv_async_send still have to do; what is left to read from the wake descriptors; and what is
left of the loops' passes.
*/
module ThreadPoolProgress {
  import opened Sums
  import opened ThreadPool
  import opened ThreadPoolSafety
  import opened AsyncMeasure
  import Async

  // -- Workers --------------------------------------------------------------------------------

  function WorkerWeight(w: Worker): nat {
    match w
    case Exited => 0
    case Waiting => 2
    case Starting => 3
    case Signalled => 3
    case Sending(_) => 4
    case Ran(_) => 8
    case Taken(_) => 9
  }

  function Workers(ws: seq<Worker>): nat {
    if ws == [] then 0 else Workers(ws[..|ws| - 1]) + WorkerWeight(ws[|ws| - 1])
  }

  lemma {:induction false} WorkerMoves(ws: seq<Worker>, i: nat, w: Worker)
    requires i < |ws|
    ensures Workers(ws[i := w]) == Workers(ws) - WorkerWeight(ws[i]) + WorkerWeight(w)
  {
    var last := |ws| - 1;
    if i < last {
      assert ws[i := w][..last] == ws[..last][i := w];
      WorkerMoves(ws[..last], i, w);
    } else {
      assert ws[i := w][..last] == ws[..last];
    }
  }

  // A signal makes at most one step more.
  lemma {:induction false} WokenWeight(ws: seq<Worker>, j: nat)
    ensures Workers(Woken(ws, j)) <= Workers(ws) + 1
  {
    if j < |ws| && ws[j].Waiting? {
      WorkerMoves(ws, j, Signalled);
    }
  }

  // -- Loops ------------------------------------------------------------------------------------

  function CancelWeight(c: Cancel): nat {
    match c
    case NoCancel => 0
    case Unlinked(_) => 6
    case Marked(_) => 5
    case CancelSending(_) => 1
  }

  // What a loop's cancel and the calls of uv_async_send to it still have to do.
  ghost function Outgoing(side: Side): nat {
    CancelWeight(side.cancel) + Senders(side.async.senders)
  }

  // What is left of a loop's pass.
  function PassWeight(side: Side): nat {
    LoopWeight(side.async) + 2 * |side.finished| + 2 * |side.batch|
    + if side.drain.Entered? || side.drain.InDone? then 1 else 0
  }

  ghost function OutgoingAt(sides: map<LoopId, Side>): LoopId -> nat {
    l => if l in sides then Outgoing(sides[l]) else 0
  }

  ghost function UnreadAt(sides: map<LoopId, Side>): LoopId -> nat {
    l => if l in sides then sides[l].async.fd else 0
  }

  ghost function PassAt(sides: map<LoopId, Side>): LoopId -> nat {
    l => if l in sides then PassWeight(sides[l]) else 0
  }

  ghost function Left(s: State): Measure {
    Measure(7 * |s.pool| + Workers(s.workers) + Sum(s.sides.Keys, OutgoingAt(s.sides)),
            Sum(s.sides.Keys, UnreadAt(s.sides)), Sum(s.sides.Keys, PassAt(s.sides)))
  }

  // The measure when one loop changes.
  lemma {:induction false} SideMoves(sides: map<LoopId, Side>, l: LoopId, side: Side)
    requires l in sides
    ensures var after := sides[l := side];
      && Sum(after.Keys, OutgoingAt(after)) == Sum(sides.Keys, OutgoingAt(sides)) - Outgoing(sides[l]) + Outgoing(side)
      && Sum(after.Keys, UnreadAt(after)) == Sum(sides.Keys, UnreadAt(sides)) - sides[l].async.fd + side.async.fd
      && Sum(after.Keys, PassAt(after)) == Sum(sides.Keys, PassAt(sides)) - PassWeight(sides[l]) + PassWeight(side)
  {
    var after := sides[l := side];
    assert after.Keys == sides.Keys;
    hide Sum, Outgoing, PassWeight;
    SumChange(sides.Keys, OutgoingAt(sides), OutgoingAt(after), l);
    SumChange(sides.Keys, UnreadAt(sides), UnreadAt(after), l);
    SumChange(sides.Keys, PassAt(sides), PassAt(after), l);
  }

  // -- Steps of workers ---------------------------------------------------------------------------

  lemma {:induction false} LockLess(s: State, i: nat, j: nat)
    requires WorkerEnabled(s, Lock(i, j))
    ensures Less(Left(DoLock(s, i, j)), Left(s))
  {
    var t := DoLock(s, i, j);
    if s.pool == [] {
      WorkerMoves(s.workers, i, Waiting);
    } else if s.pool[0].ExitMessage? {
      WorkerMoves(s.workers, i, Exited);
      WokenWeight(s.workers[i := Exited], j);
    } else {
      WorkerMoves(s.workers, i, Taken(s.pool[0].r));
    }
    hide Sum, Workers;
  }

  lemma {:induction false} RunWorkLess(s: State, i: nat)
    requires WorkerEnabled(s, RunWork(i))
    ensures Less(Left(DoRunWork(s, i)), Left(s))
  {
    WorkerMoves(s.workers, i, Ran(s.workers[i].r));
    hide Sum, Workers;
  }

  // An insertion starts one call of uv_async_send.
  lemma {:induction false} InsertOutgoing(side: Side, r: Req, holder: Holder)
    requires CanInsert(side)
    ensures Outgoing(Insert(side, r, holder)) <= Outgoing(side) + 3
  {
    SenderMoves(side.async.senders, CALL, Async.AtRead(WQ, side.async.begun[WQ]));
    hide Senders;
  }

  // A worker and a loop move together.
  lemma {:induction false} BothLess(s: State, t: State, i: nat, w: Worker, l: LoopId, side: Side)
    requires i < |s.workers| && l in s.sides && t.pool == s.pool
    requires t.workers == s.workers[i := w] && t.sides == s.sides[l := side]
    requires WorkerWeight(w) + Outgoing(side) < WorkerWeight(s.workers[i]) + Outgoing(s.sides[l])
    ensures Less(Left(t), Left(s))
  {
    WorkerMoves(s.workers, i, w);
    SideMoves(s.sides, l, side);
    hide Sum, Workers, Outgoing, PassWeight, WorkerWeight;
  }

  lemma {:induction false} CompleteShape(s: State, i: nat)
    requires WorkerEnabled(s, Complete(i))
    ensures i < |s.workers| && s.workers[i].Ran? && WorkerWeight(s.workers[i]) == 8
    ensures var r := s.workers[i].r;
      && r in s.reqs && s.reqs[r].owner in s.sides && CanInsert(s.sides[s.reqs[r].owner])
      && Async.Enabled(s.sides[s.reqs[r].owner].async, Async.SendCall(CALL, WQ))
      && var l, t := s.reqs[r].owner, DoComplete(s, i);
      && t.pool == s.pool && t.workers == s.workers[i := Sending(l)] && WorkerWeight(Sending(l)) == 4
      && t.sides == s.sides[l := Insert(s.sides[l], r, ByWorker(i))]
  {
    hide Insert, Async.Enabled;
  }

  lemma {:induction false} CompleteLess(s: State, i: nat)
    requires WorkerEnabled(s, Complete(i))
    ensures Less(Left(DoComplete(s, i)), Left(s))
  {
    hide *;
    CompleteShape(s, i);
    var r := s.workers[i].r;
    var l := s.reqs[r].owner;
    InsertOutgoing(s.sides[l], r, ByWorker(i));
    BothLess(s, DoComplete(s, i), i, Sending(l), l, Insert(s.sides[l], r, ByWorker(i)));
  }

  lemma {:induction false} ReleaseLess(s: State, i: nat)
    requires WorkerEnabled(s, Release(i))
    ensures Less(Left(DoRelease(s, i)), Left(s))
  {
    var l := s.workers[i].l;
    assert Outgoing(s.sides[l].(holder := Free)) == Outgoing(s.sides[l]);
    hide Left, Outgoing, Less;
    BothLess(s, DoRelease(s, i), i, Starting, l, s.sides[l].(holder := Free));
  }

  // -- Steps of a loop -----------------------------------------------------------------------------

  // The measure of one loop.
  ghost predicate SideLess(a: Side, b: Side) {
    Less(Measure(Outgoing(a), a.async.fd, PassWeight(a)), Measure(Outgoing(b), b.async.fd, PassWeight(b)))
  }

  // One loop moves, the others and the workers stay.
  lemma {:induction false} LoopLess(s: State, t: State, l: LoopId)
    requires l in s.sides && l in t.sides && t.sides == s.sides[l := t.sides[l]]
    requires t.pool == s.pool && t.workers == s.workers && SideLess(t.sides[l], s.sides[l])
    ensures Less(Left(t), Left(s))
  {
    SideMoves(s.sides, l, t.sides[l]);
    hide Sum, Workers, Outgoing, PassWeight;
  }

  lemma {:induction false} InsertLess(s: State, l: LoopId)
    requires l in s.sides && LoopEnabled(s, l, CancelInsert(l))
    ensures SideLess(DoCancelInsert(s, l).sides[l], s.sides[l])
  {
    InsertOutgoing(s.sides[l], s.sides[l].cancel.r, ByCanceller);
    hide Senders, PassWeight;
  }

  lemma {:induction false} CancelLess(s: State, l: LoopId, step: Step)
    requires Enabled(s, step) && l in s.sides
    requires step == CancelMark(l) || step == CancelInsert(l) || step == CancelReturn(l)
    ensures Less(Left(Do(s, step)), Left(s))
  {
    if step.CancelInsert? {
      InsertLess(s, l);
    } else {
      assert SideLess(Do(s, step).sides[l], s.sides[l]) by {
        hide Senders, PassWeight;
      }
    }
    hide Left, SideLess, Insert, Less;
    LoopLess(s, Do(s, step), l);
  }

  lemma {:induction false} DoneLess(s: State, l: LoopId, step: Step)
    requires Enabled(s, step) && l in s.sides && DrainOk(s.sides[l])
    requires step == DoneMove(l) || step == DoneTake(l) || step == DoneReturn(l) || step == DoneEnd(l)
    ensures Less(Left(Do(s, step)), Left(s))
  {
    hide Senders;
    LoopLess(s, Do(s, step), l);
  }

  lemma {:induction false} SendLess(side: Side, a: Async.Step)
    requires Async.Enabled(side.async, a) && Async.BySender(a) && !a.SendCall?
    ensures Outgoing(side.(async := Async.Do(side.async, a))) < Outgoing(side)
  {
    var after := Async.Do(side.async, a);
    SenderMoves(side.async.senders, a.t, after.senders[a.t]);
    assert after.senders == side.async.senders[a.t := after.senders[a.t]];
    hide Senders;
  }

  lemma {:induction false} PassLess(s: State, l: LoopId, a: Async.Step)
    requires l in s.sides && LoopEnabled(s, l, Notify(l, a)) && Internal(Notify(l, a)) && !Async.BySender(a)
    requires DrainOk(s.sides[l])
    ensures SideLess(DoNotify(s, l, a).sides[l], s.sides[l])
  {
    hide Senders;
  }

  lemma {:induction false} SendSideLess(s: State, l: LoopId, a: Async.Step)
    requires l in s.sides && LoopEnabled(s, l, Notify(l, a)) && Internal(Notify(l, a)) && Async.BySender(a)
    ensures SideLess(DoNotify(s, l, a).sides[l], s.sides[l])
  {
    var side := s.sides[l];
    SendLess(side, a);
    assert Outgoing(DoNotify(s, l, a).sides[l]) == Outgoing(side.(async := Async.Do(side.async, a)));
    hide Outgoing, PassWeight;
  }

  lemma {:induction false} NotifyShape(s: State, l: LoopId, a: Async.Step)
    requires Enabled(s, Notify(l, a))
    ensures l in s.sides && LoopEnabled(s, l, Notify(l, a)) && Do(s, Notify(l, a)) == DoNotify(s, l, a)
    ensures var t := DoNotify(s, l, a);
      l in t.sides && t.sides == s.sides[l := t.sides[l]] && t.pool == s.pool && t.workers == s.workers
  {
    hide Async.Do, Async.Enabled;
  }

  lemma {:induction false} NotifyLess(s: State, l: LoopId, a: Async.Step)
    requires Enabled(s, Notify(l, a)) && Internal(Notify(l, a)) && l in s.sides && DrainOk(s.sides[l])
    ensures Less(Left(Do(s, Notify(l, a))), Left(s))
  {
    hide *;
    NotifyShape(s, l, a);
    if Async.BySender(a) {
      SendSideLess(s, l, a);
    } else {
      PassLess(s, l, a);
    }
    LoopLess(s, DoNotify(s, l, a), l);
  }

  // Every step that needs nobody outside leaves less to do.
  lemma {:induction false} StepLess(s: State, step: Step)
    requires Inv(s) && Internal(step) && Enabled(s, step)
    ensures Less(Left(Do(s, step)), Left(s))
  {
    if step.Lock? {
      LockLess(s, step.i, step.j);
    } else if step.RunWork? {
      RunWorkLess(s, step.i);
    } else if step.Complete? {
      CompleteLess(s, step.i);
    } else if step.Release? {
      ReleaseLess(s, step.i);
    } else {
      var l := step.l;
      assert LoopOk(s.sides[l]);
      if step.CancelMark? || step.CancelInsert? || step.CancelReturn? {
        CancelLess(s, l, step);
      } else if step.Notify? {
        NotifyLess(s, l, step.step);
      } else {
        DoneLess(s, l, step);
      }
    }
  }

  lemma {:induction false} InternalFrame(s: State, step: Step, r: Req)
    requires Internal(step) && Enabled(s, step)
    ensures var t := Do(s, step);
      && (r in s.reqs ==> r in t.reqs) && |t.workers| == |s.workers|
      && (ExitMessage in t.pool <==> ExitMessage in s.pool)
  {}

  // An endless run in which nobody outside does anything; the scheduler picks the steps.
  ghost predicate Moves(run: nat -> State, pick: nat -> Step, n: nat) {
    if AtRest(run(n)) then run(n + 1) == run(n)
    else Internal(pick(n)) && Enabled(run(n), pick(n)) && run(n + 1) == Do(run(n), pick(n))
  }

  ghost predicate Undisturbed(run: nat -> State, pick: nat -> Step) {
    forall n: nat :: Moves(run, pick, n)
  }

  lemma {:induction false} OneStep(s: State, step: Step, r: Req)
    requires Inv(s) && Internal(step) && Enabled(s, step)
    ensures var t, m, m' := Do(s, step), Left(s), Left(Do(s, step));
      && Inv(t) && (r in s.reqs ==> r in t.reqs) && |t.workers| == |s.workers|
      && (ExitMessage in t.pool <==> ExitMessage in s.pool)
      && (m'.work < m.work || (m'.work == m.work && (m'.unread < m.unread
          || (m'.unread == m.unread && m'.passes < m.passes))))
  {
    hide Inv, Internal, Enabled, Do, Left;
    StepLess(s, step);
    StepKeeps(s, step);
    InternalFrame(s, step, r);
  }

  lemma {:induction false} RestsFrom(run: nat -> State, pick: nat -> Step, n: nat, r: Req) returns (m: nat)
    requires Undisturbed(run, pick) && Inv(run(n))
    ensures AtRest(run(m)) && Inv(run(m)) && (r in run(n).reqs ==> r in run(m).reqs)
    ensures |run(m).workers| == |run(n).workers| && (ExitMessage in run(m).pool <==> ExitMessage in run(n).pool)
    decreases Left(run(n)).work, Left(run(n)).unread, Left(run(n)).passes
  {
    hide Inv, Internal, Enabled, Do, Left, AtRest;
    m := n;
    if !AtRest(run(n)) {
      assert Moves(run, pick, n);
      OneStep(run(n), pick(n), r);
      m := RestsFrom(run, pick, n + 1, r);
    }
  }

  // Delivery: from any state a run can reach, once nobody outside interferes, the system comes
  // to rest after finitely many steps, whatever the scheduling, and then every request has
  // been done, unless the pool was told to exit.
  lemma {:induction false} AllDelivered(s: State, steps: seq<Step>, run: nat -> State, pick: nat -> Step, r: Req)
    requires Start(s) && CanRun(s, steps) && Undisturbed(run, pick) && run(0) == Run(s, steps)
    requires r in run(0).reqs && ExitMessage !in run(0).pool
    ensures exists m: nat :: AtRest(run(m)) && r in run(m).reqs && |run(m).reqs[r].done| == 1
  {
    StartInv(s);
    RunKeeps(s, steps);
    var m := RestsFrom(run, pick, 0, r);
    assert s.workers != [];
    hide *;
    RestDone(run(m), r);
  }

  // Termination: once the exit message is posted and nobody outside interferes, every worker
  // is gone after finitely many steps, whatever the scheduling.
  lemma {:induction false} AllExit(s: State, steps: seq<Step>, run: nat -> State, pick: nat -> Step)
    requires Start(s) && CanRun(s, steps) && Undisturbed(run, pick) && run(0) == Run(s, steps)
    requires ExitMessage in run(0).pool
    ensures exists m: nat :: AtRest(run(m)) && |run(m).workers| == |run(0).workers| && AllGone(run(m).workers)
  {
    StartInv(s);
    RunKeeps(s, steps);
    hide *;
    var m := RestsFrom(run, pick, 0, 0);
    RestGone(run(m));
  }

  predicate AllGone(ws: seq<Worker>) {
    forall i :: 0 <= i < |ws| ==> ws[i].Exited?
  }

  lemma {:induction false} RestGone(s: State)
    requires Inv(s) && AtRest(s) && ExitMessage in s.pool
    ensures AllGone(s.workers)
  {
    RestIsIdle(s);
  }
}
