/** Every call of uv_async_send is answered: without new calls, however the threads are
scheduled, the loop and the calls under way have only so many steps to take.
*/
module AsyncProgress {
  import opened Async
  import opened AsyncMeasure

  // The steps that need nobody outside: no new handle and no new call.
  predicate Internal(step: Step) {
    !step.Init? && !step.Close? && !step.SendCall?
  }

  // Nothing can move any more without a new call.
  ghost predicate AtRest(s: State) {
    forall step :: Internal(step) ==> !Enabled(s, step)
  }

  // What calls still have to do, what is left to read from the wake descriptor, and what is
  // left of the loop's pass.
  ghost function Left(s: State): Measure {
    Measure(Senders(s.senders), s.fd, LoopWeight(s))
  }

  lemma {:induction false} SendLess(s: State, step: Step)
    requires Enabled(s, step) && Internal(step) && BySender(step)
    ensures Less(Left(DoSend(s, step)), Left(s))
  {
    var after := DoSend(s, step);
    SenderMoves(s.senders, step.t, after.senders[step.t]);
    assert after.senders == s.senders[step.t := after.senders[step.t]];
    hide Senders;
  }

  lemma {:induction false} LoopLess(s: State, step: Step)
    requires Enabled(s, step) && Internal(step) && !BySender(step)
    ensures Less(Left(DoLoop(s, step)), Left(s))
  {
    hide Senders;
  }

  // A handle is open from its init to its close, and a call of uv_async_send is under way from its
  // beginning, when it notes how many callbacks had begun.
  lemma {:induction false} StepOpens(s: State, step: Step, h: Handle, t: Thread)
    requires Enabled(s, step)
    ensures h in Do(s, step).pending <==> step == Init(h) || (h in s.pending && step != Close(h))
    ensures t in Do(s, step).senders <==> t in s.senders || (step.SendCall? && step.t == t)
    ensures step == SendCall(t, h) ==> h in s.begun && Do(s, step).senders[t] == AtRead(h, s.begun[h])
  {}

  // Every step that needs nobody outside leaves less to do.
  lemma {:induction false} StepLess(s: State, step: Step)
    requires Enabled(s, step) && Internal(step)
    ensures Less(Left(Do(s, step)), Left(s))
  {
    if BySender(step) {
      SendLess(s, step);
    } else {
      LoopLess(s, step);
    }
  }

  // Calls and handles stay, and callbacks are only added.
  ghost predicate Continues(s: State, t: State) {
    && s.pending.Keys == t.pending.Keys
    && forall x :: x in s.senders ==> x in t.senders && t.senders[x].h == s.senders[x].h
                                      && t.senders[x].seen == s.senders[x].seen
  }

  lemma {:induction false} StepContinues(s: State, step: Step)
    requires Enabled(s, step) && Internal(step)
    ensures Continues(s, Do(s, step))
  {}

  // An endless run in which nobody outside does anything; the scheduler picks the steps.
  ghost predicate Moves(run: nat -> State, pick: nat -> Step, n: nat) {
    if AtRest(run(n)) then run(n + 1) == run(n)
    else Internal(pick(n)) && Enabled(run(n), pick(n)) && run(n + 1) == Do(run(n), pick(n))
  }

  ghost predicate Undisturbed(run: nat -> State, pick: nat -> Step) {
    forall n: nat :: Moves(run, pick, n)
  }

  lemma {:induction false} OneStep(s: State, step: Step)
    requires Inv(s) && Internal(step) && Enabled(s, step)
    ensures Inv(Do(s, step)) && Continues(s, Do(s, step))
    ensures var m, m' := Left(s), Left(Do(s, step));
      m'.work < m.work || (m'.work == m.work && (m'.unread < m.unread
                                                 || (m'.unread == m.unread && m'.passes < m.passes)))
  {
    hide Inv, Internal, Enabled, Do, Left, Continues;
    StepLess(s, step);
    StepKeeps(s, step);
    StepContinues(s, step);
  }

  lemma {:induction false} RestsFrom(run: nat -> State, pick: nat -> Step, n: nat) returns (m: nat)
    requires Undisturbed(run, pick) && Inv(run(n))
    ensures AtRest(run(m)) && Inv(run(m)) && Continues(run(n), run(m))
    decreases Left(run(n)).work, Left(run(n)).unread, Left(run(n)).passes
  {
    hide Inv, Internal, Enabled, Do, Left, AtRest;
    m := n;
    if !AtRest(run(n)) {
      assert Moves(run, pick, n);
      OneStep(run(n), pick(n));
      m := RestsFrom(run, pick, n + 1);
    }
  }

  // At rest the loop polls and nothing is left to read.
  lemma {:induction false} RestPolls(s: State)
    requires Inv(s) && AtRest(s)
    ensures s.loop.Polling? && s.fd == 0 && s.queue == []
  {
    assert !Enabled(s, ReadFd) && !Enabled(s, MoveHandles) && !Enabled(s, TakeHandle) && !Enabled(s, TestHandle)
      && !Enabled(s, CallbackReturns) && !Enabled(s, EndPass);
  }

  // No call is under way.
  lemma {:induction false} RestReturned(s: State, t: Thread)
    requires Inv(s) && AtRest(s) && t in s.senders
    ensures s.senders[t].Returned?
  {
    assert CallAnswered(s, s.senders[t]);
    assert !Enabled(s, SendRead(t)) && !Enabled(s, SendCas(t)) && !Enabled(s, SendWrite(t, false));
  }

  lemma {:induction false} RestAnswered(s: State, t: Thread)
    requires Inv(s) && AtRest(s) && t in s.senders && s.senders[t].h in s.pending
    ensures s.senders[t].Returned? && s.senders[t].h in s.begun && s.senders[t].seen < s.begun[s.senders[t].h]
  {
    RestPolls(s);
    RestReturned(s, t);
    var h := s.senders[t].h;
    assert CallAnswered(s, s.senders[t]);
    if s.pending[h] {
      assert WakeUpOutstanding(s, h);
      var x :| x in s.senders && s.senders[x].AtWrite?;
      RestReturned(s, x);
    }
  }

  // Every call of uv_async_send made in any run on a handle that is open at its end has returned
  // and is answered by a callback begun after the call began, finitely many steps after nobody
  // outside interferes any more, whatever the scheduling.
  lemma {:induction false} AllAnswered(s: State, steps: seq<Step>, run: nat -> State, pick: nat -> Step, t: Thread)
    requires Start(s) && CanRun(s, steps) && Undisturbed(run, pick) && run(0) == Run(s, steps)
    requires t in run(0).senders && run(0).senders[t].h in run(0).pending
    ensures exists m: nat :: AtRest(run(m)) && AnsweredIn(run(m), t, run(0).senders[t])
  {
    StartInv(s);
    RunKeeps(s, steps);
    var m := RestsFrom(run, pick, 0);
    RestAnswered(run(m), t);
  }

  // The call c of thread t has returned, and a callback of its handle has begun since it began.
  ghost predicate AnsweredIn(s: State, t: Thread, c: Sender) {
    && t in s.senders && s.senders[t].Returned? && s.senders[t].h == c.h && s.senders[t].seen == c.seen
    && c.h in s.begun && c.seen < s.begun[c.h]
  }
}
