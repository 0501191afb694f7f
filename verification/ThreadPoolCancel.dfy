/** What uv_cancel achieves: which requests it takes, and that one it took is never run and is
done with UV_ECANCELED, whatever happens meanwhile.
*/
module ThreadPoolCancel {
  import opened Seqs
  import opened ThreadPool
  import opened ThreadPoolSafety
  import opened ThreadPoolProgress
  import opened AsyncMeasure
  import Async

  // -- What is submitted ----------------------------------------------------------------------

  lemma {:induction false} StepRecords(s: State, step: Step, r: Req)
    requires Enabled(s, step)
    ensures r in Do(s, step).reqs <==> r in s.reqs || (step.Submit? && step.r == r)
    ensures ExitMessage in Do(s, step).pool <==> ExitMessage in s.pool || step.PostExit?
  {
    if step.CancelTest? {
      WithoutKeeps(s.pool, Work(step.r));
    }
  }

  ghost predicate Submits(steps: seq<Step>, r: Req) {
    exists i :: 0 <= i < |steps| && steps[i].Submit? && steps[i].r == r
  }

  ghost predicate Exits(steps: seq<Step>) {
    exists i :: 0 <= i < |steps| && steps[i].PostExit?
  }

  lemma {:induction false} FirstOf(steps: seq<Step>, r: Req)
    requires steps != []
    ensures Submits(steps, r) <==> (steps[0].Submit? && steps[0].r == r) || Submits(steps[1..], r)
    ensures Exits(steps) <==> steps[0].PostExit? || Exits(steps[1..])
  {
    forall i | 0 < i < |steps| ensures steps[i] == steps[1..][i - 1] {}
    if Submits(steps[1..], r) {
      var i :| 0 <= i < |steps[1..]| && steps[1..][i].Submit? && steps[1..][i].r == r;
      assert steps[i + 1].Submit?;
    }
    if Exits(steps[1..]) {
      var i :| 0 <= i < |steps[1..]| && steps[1..][i].PostExit?;
      assert steps[i + 1].PostExit?;
    }
  }

  lemma {:induction false} RunRecords(s: State, steps: seq<Step>, r: Req)
    requires CanRun(s, steps)
    ensures r in Run(s, steps).reqs <==> r in s.reqs || Submits(steps, r)
    ensures ExitMessage in Run(s, steps).pool <==> ExitMessage in s.pool || Exits(steps)
    decreases |steps|
  {
    hide Enabled, Do, Submits, Exits;
    if steps == [] {
      NoneOf(r);
    } else {
      StepRecords(s, steps[0], r);
      FirstOf(steps, r);
      RunRecords(Do(s, steps[0]), steps[1..], r);
    }
  }

  lemma {:induction false} NoneOf(r: Req)
    ensures !Submits([], r) && !Exits([])
  {}

  // Every request that was submitted is done once in the end, whatever the scheduling, unless the
  // pool was told to exit; and if it was, every worker is gone.
  lemma {:induction false} SubmittedIsDone(s: State, steps: seq<Step>, run: nat -> State, pick: nat -> Step, r: Req)
    requires Start(s) && CanRun(s, steps) && Undisturbed(run, pick) && run(0) == Run(s, steps)
    ensures Submits(steps, r) && !Exits(steps) ==>
      exists m: nat :: AtRest(run(m)) && r in run(m).reqs && |run(m).reqs[r].done| == 1
    ensures Exits(steps) ==> exists m: nat ::
      AtRest(run(m)) && |run(m).workers| == |run(0).workers| && AllGone(run(m).workers)
  {
    RunRecords(s, steps, r);
    assert s.reqs == map[] && s.pool == [];
    hide CanRun, Run, Undisturbed, Submits, Exits, AtRest, AllGone;
    if Submits(steps, r) && !Exits(steps) {
      AllDelivered(s, steps, run, pick, r);
    }
    if Exits(steps) {
      AllExit(s, steps, run, pick);
    }
  }

  // -- What a cancel takes ----------------------------------------------------------------------

  // A cancel can find r: it is in the queue of the pool, or on its loop's way to done without
  // its work having run.
  ghost predicate Findable(s: State, l: LoopId, r: Req) {
    || Work(r) in s.pool
    || (l in s.sides && r in s.reqs && !s.reqs[r].work.Null? && (r in s.sides[l].finished || r in s.sides[l].batch))
  }

  // r is out of every list, in the hands of a cancel on its loop.
  ghost predicate Held(s: State, l: LoopId, r: Req) {
    && Work(r) !in s.pool && l in s.sides && s.sides[l].cancel == Unlinked(r)
    && r !in s.sides[l].finished && r !in s.sides[l].batch
  }

  // Everything but r and the lists of its loop is as it was, and these keep their order.
  ghost predicate OthersStay(s: State, t: State, l: LoopId, r: Req) {
    && l in s.sides && r in s.reqs && l in t.sides && r in t.reqs
    && t.pool == Without(s.pool, Work(r)) && t.workers == s.workers && t.idle == s.idle
    && t.sides == s.sides[l := t.sides[l]] && t.reqs == s.reqs[r := t.reqs[r]]
    && t.sides[l] == s.sides[l].(finished := Without(s.sides[l].finished, r), batch := Without(s.sides[l].batch, r),
                                 cancel := Unlinked(r))
    && t.reqs[r] == s.reqs[r].(place := AtCanceller)
  }

  lemma {:induction false} TestTakes(s: State, l: LoopId, r: Req)
    requires Tracked(s) && NoRepeats(s.pool) && Enabled(s, CancelTest(l, r))
    ensures var t := Do(s, CancelTest(l, r));
      if Findable(s, l, r) then Held(t, l, r) && OthersStay(s, t, l, r) else t == s
  {
    assert RecordOk(s, r, s.reqs[r]) && SideOk(s, l, s.sides[l]);
    assert Work(r) in s.pool ==> ItemOk(s, r);
    assert r in s.sides[l].finished || r in s.sides[l].batch ==> OnLoopOf(s, l, r);
    WithoutKeeps(s.pool, Work(r));
    WithoutKeeps(s.sides[l].finished, r);
    WithoutKeeps(s.sides[l].batch, r);
  }

  // A cancel takes just the requests it can find, and changes nothing otherwise.
  lemma {:induction false} CancelTakes(s: State, steps: seq<Step>, l: LoopId, r: Req)
    requires Start(s) && CanRun(s, steps) && Enabled(Run(s, steps), CancelTest(l, r))
    ensures var t := Run(s, steps);
      var u := Do(t, CancelTest(l, r));
      if Findable(t, l, r) then Held(u, l, r) && OthersStay(t, u, l, r) else u == t
  {
    StartInv(s);
    RunKeeps(s, steps);
    hide Enabled, Do, Findable, Held, OthersStay, RecordsOk, ListsOk, SidesOk, LoopsOk;
    TestTakes(Run(s, steps), l, r);
  }

  // A request some cancel took.
  ghost predicate Taken(s: State, r: Req) {
    && r in s.reqs && s.reqs[r].ran == 0
    && match s.reqs[r].place
       case InPool => false
       case AtWorker(_) => false
       case AtCanceller => true
       case OnLoop => s.reqs[r].work.Aborts?
       case Over => s.reqs[r].work.Aborts?
  }

  lemma {:induction false} WorkerTaken(s: State, step: Step, r: Req)
    requires Tracked(s) && Enabled(s, step) && Taken(s, r)
    requires step.Lock? || step.RunWork? || step.Complete? || step.Release?
    ensures Taken(Do(s, step), r)
  {
    assert WorkerOk(s, step.i, s.workers[step.i]);
    assert step.Lock? && s.pool != [] && s.pool[0].Work? ==> s.pool[0] in s.pool && ItemOk(s, s.pool[0].r);
  }

  lemma {:induction false} LoopTaken(s: State, step: Step, r: Req)
    requires Tracked(s) && Enabled(s, step) && Taken(s, r)
    requires step.CancelTest? || step.CancelMark? || step.CancelInsert? || step.CancelReturn? || step.DoneTake?
    ensures Taken(Do(s, step), r)
  {
    assert RecordOk(s, r, s.reqs[r]) && SideOk(s, step.l, s.sides[step.l]);
    if step.DoneTake? {
      assert s.sides[step.l].batch[0] in s.sides[step.l].batch;
    }
  }

  lemma {:induction false} OtherTaken(s: State, step: Step, r: Req)
    requires Enabled(s, step) && Taken(s, r)
    requires step.Submit? || step.PostExit? || step.Wake? || step.DoneMove? || step.DoneReturn? || step.DoneEnd?
      || step.Notify?
    ensures Taken(Do(s, step), r)
  {
    hide Async.Do, Async.Enabled, WorkerEnabled;
    assert r in Do(s, step).reqs && Do(s, step).reqs[r] == s.reqs[r];
  }

  // No step undoes a cancel.
  lemma {:induction false} StepTaken(s: State, step: Step, r: Req)
    requires Inv(s) && Enabled(s, step) && Taken(s, r)
    ensures Taken(Do(s, step), r)
  {
    hide Enabled, Do, Taken, Tracked;
    assert Tracked(s);
    if step.Lock? || step.RunWork? || step.Complete? || step.Release? {
      WorkerTaken(s, step, r);
    } else if step.CancelTest? || step.CancelMark? || step.CancelInsert? || step.CancelReturn? || step.DoneTake? {
      LoopTaken(s, step, r);
    } else {
      OtherTaken(s, step, r);
    }
  }

  lemma {:induction false} RunTaken(s: State, steps: seq<Step>, r: Req)
    requires Inv(s) && CanRun(s, steps) && Taken(s, r)
    ensures Inv(Run(s, steps)) && Taken(Run(s, steps), r)
    decreases |steps|
  {
    hide Inv, Enabled, Do, Taken;
    if steps != [] {
      StepTaken(s, steps[0], r);
      StepKeeps(s, steps[0]);
      RunTaken(Do(s, steps[0]), steps[1..], r);
    }
  }

  lemma {:induction false} JustTaken(s: State, l: LoopId, r: Req)
    requires Inv(s) && Enabled(s, CancelTest(l, r)) && Findable(s, l, r)
    ensures Inv(Do(s, CancelTest(l, r))) && Taken(Do(s, CancelTest(l, r)), r)
  {
    StepKeeps(s, CancelTest(l, r));
    TestTakes(s, l, r);
    assert RecordOk(Do(s, CancelTest(l, r)), r, Do(s, CancelTest(l, r)).reqs[r]);
  }

  // Safety: whatever anybody does after a cancel took a request, its work never runs, and done
  // is never told anything but UV_ECANCELED.
  lemma {:induction false} TakenNeverRuns(s: State, steps: seq<Step>, l: LoopId, r: Req, more: seq<Step>)
    requires Start(s) && CanRun(s, steps) && Enabled(Run(s, steps), CancelTest(l, r)) && Findable(Run(s, steps), l, r)
    requires CanRun(Do(Run(s, steps), CancelTest(l, r)), more)
    ensures var u := Run(Do(Run(s, steps), CancelTest(l, r)), more);
      r in u.reqs && u.reqs[r].ran == 0 && (u.reqs[r].done == [] || u.reqs[r].done == [Canceled])
  {
    StartInv(s);
    RunKeeps(s, steps);
    var t := Do(Run(s, steps), CancelTest(l, r));
    assert RecordsAgree(Run(t, more), r) by {
      hide *;
      JustTaken(Run(s, steps), l, r);
      RunTaken(t, more, r);
      TakenRecord(Run(t, more), r);
    }
  }

  ghost predicate RecordsAgree(u: State, r: Req) {
    r in u.reqs && u.reqs[r].ran == 0 && (u.reqs[r].done == [] || u.reqs[r].done == [Canceled])
  }

  lemma {:induction false} TakenRecord(s: State, r: Req)
    requires Inv(s) && Taken(s, r)
    ensures RecordsAgree(s, r)
  {
    assert RecordOk(s, r, s.reqs[r]);
  }

  lemma {:induction false} TakenRests(run: nat -> State, pick: nat -> Step, n: nat, r: Req) returns (m: nat)
    requires Undisturbed(run, pick) && Inv(run(n)) && Taken(run(n), r)
    ensures AtRest(run(m)) && Inv(run(m)) && Taken(run(m), r)
    decreases Left(run(n)).work, Left(run(n)).unread, Left(run(n)).passes
  {
    hide Inv, Internal, Enabled, Do, Left, AtRest, Taken;
    m := n;
    if !AtRest(run(n)) {
      assert Moves(run, pick, n);
      OneStep(run(n), pick(n), r);
      StepTaken(run(n), pick(n), r);
      m := TakenRests(run, pick, n + 1, r);
    }
  }

  // The verdict on a request a cancel took.
  ghost predicate Cancelled(s: State, r: Req) {
    r in s.reqs && s.reqs[r].zeros > 0 && s.reqs[r].ran == 0 && s.reqs[r].done == [Canceled]
  }

  lemma {:induction false} VerdictIs(s: State, r: Req)
    requires Taken(s, r) && RecordOk(s, r, s.reqs[r])
    requires forall l :: l in s.sides ==> var side := s.sides[l];
      side.cancel.NoCancel? && side.batch == [] && side.finished == []
    ensures Cancelled(s, r)
  {}

  lemma {:induction false} RestCancelled(s: State, r: Req)
    requires Inv(s) && AtRest(s) && Taken(s, r)
    ensures Cancelled(s, r)
  {
    assert r in s.reqs && RecordOk(s, r, s.reqs[r]);
    hide *;
    RestIsIdle(s);
    VerdictIs(s, r);
  }

  // Success: once a cancel has taken a request and nobody outside interferes, the cancel returns
  // 0 and the request is done with UV_ECANCELED after finitely many steps, whatever the
  // scheduling, even if the pool was told to exit.
  lemma {:induction false} AllCancelled(s: State, steps: seq<Step>, l: LoopId, r: Req, run: nat -> State,
                                        pick: nat -> Step)
    requires Start(s) && CanRun(s, steps) && Enabled(Run(s, steps), CancelTest(l, r)) && Findable(Run(s, steps), l, r)
    requires Undisturbed(run, pick) && run(0) == Do(Run(s, steps), CancelTest(l, r))
    ensures exists m: nat :: AtRest(run(m)) && Cancelled(run(m), r)
  {
    StartInv(s);
    RunKeeps(s, steps);
    hide *;
    JustTaken(Run(s, steps), l, r);
    var m := TakenRests(run, pick, 0, r);
    RestCancelled(run(m), r);
  }
}
