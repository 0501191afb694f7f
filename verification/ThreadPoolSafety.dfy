/** What every interleaving of the worker pool keeps, and what follows from it. */
module ThreadPoolSafety {
  import opened Seqs
  import opened ThreadPool
  import Async

  // idle_threads counts the workers inside uv_cond_wait, and while one of them is still
  // blocked every queued item has its own awakened worker.
  ghost predicate PoolOk(pool: seq<Item>, ws: seq<Worker>, idle: int) {
    && idle == multiset(ws)[Waiting] + multiset(ws)[Signalled]
    && (Waiting in ws ==> |pool| <= multiset(ws)[Signalled])
    && NoRepeats(pool)
    && (Exited in ws ==> pool != [] && pool[0].ExitMessage?)
  }

  // The verdict on a request that reached loop->wq.
  ghost predicate Settled(rec: Record, returning: bool) {
    || (rec.work.Null? && rec.ran == 1 && rec.zeros == 0)
    || (rec.work.Aborts? && rec.ran == 0 && (rec.zeros > 0 || returning))
  }

  ghost predicate RecordOk(s: State, r: Req, rec: Record) {
    && rec.owner in s.sides
    && var side := s.sides[rec.owner];
    match rec.place
    case InPool =>
      Work(r) in s.pool && rec.linked && rec.work.Function? && rec.ran == 0 && rec.zeros == 0 && rec.done == []
    case AtWorker(i) =>
      && i < |s.workers| && !rec.linked && rec.work.Function? && rec.zeros == 0 && rec.done == []
      && ((s.workers[i] == Taken(r) && rec.ran == 0) || (s.workers[i] == Ran(r) && rec.ran == 1))
    case AtCanceller =>
      && rec.ran == 0 && rec.done == [] && !rec.work.Null? && (rec.zeros > 0 ==> rec.work.Aborts?)
      && (side.cancel == Unlinked(r) || (side.cancel == Marked(r) && rec.work.Aborts?))
    case OnLoop =>
      && (r in side.finished || r in side.batch) && rec.linked && rec.done == []
      && Settled(rec, side.cancel == CancelSending(r))
    case Over => rec.done == [if rec.zeros > 0 then Canceled else Success] && Settled(rec, false)
  }

  ghost predicate RecordsOk(s: State) {
    forall r :: r in s.reqs ==> RecordOk(s, r, s.reqs[r])
  }

  ghost predicate WorkerOk(s: State, i: nat, w: Worker) {
    match w
    case Taken(r) => r in s.reqs && s.reqs[r].place == AtWorker(i)
    case Ran(r) => r in s.reqs && s.reqs[r].place == AtWorker(i)
    case Sending(l) => l in s.sides && s.sides[l].holder == ByWorker(i)
    case _ => true
  }

  ghost predicate ItemOk(s: State, r: Req) {
    r in s.reqs && s.reqs[r].place.InPool?
  }

  ghost predicate ListsOk(s: State) {
    && (forall r :: Work(r) in s.pool ==> ItemOk(s, r))
    && (forall i :: 0 <= i < |s.workers| ==> WorkerOk(s, i, s.workers[i]))
  }

  ghost predicate OnLoopOf(s: State, l: LoopId, r: Req) {
    r in s.reqs && s.reqs[r].owner == l && s.reqs[r].place.OnLoop?
  }

  ghost predicate ListOk(s: State, l: LoopId, xs: seq<Req>) {
    NoRepeats(xs) && forall r :: r in xs ==> OnLoopOf(s, l, r)
  }

  ghost predicate Apart(xs: seq<Req>, ys: seq<Req>) {
    forall r :: r in xs ==> r !in ys
  }

  ghost predicate SideOk(s: State, l: LoopId, side: Side) {
    && ListOk(s, l, side.finished) && ListOk(s, l, side.batch) && Apart(side.finished, side.batch)
    && (side.cancel.Unlinked? || side.cancel.Marked? ==>
          side.cancel.r in s.reqs && s.reqs[side.cancel.r].owner == l && s.reqs[side.cancel.r].place.AtCanceller?)
    && (side.cancel.CancelSending? ==> OnLoopOf(s, l, side.cancel.r) && s.reqs[side.cancel.r].work.Aborts?)
    && (side.holder.ByWorker? ==> side.holder.i < |s.workers| && s.workers[side.holder.i] == Sending(l))
    && (side.holder.ByCanceller? <==> side.cancel.CancelSending?)
  }

  ghost predicate SidesOk(s: State) {
    forall l :: l in s.sides ==> SideOk(s, l, s.sides[l])
  }

  // The call of uv_async_send that follows an insertion has not yet passed its
  // compare-and-swap.
  ghost predicate StillSending(side: Side) {
    !side.holder.Free? && CALL in side.async.senders
    && (side.async.senders[CALL].AtRead? || side.async.senders[CALL].AtCas?)
  }

  // No completed request is stranded: its wake-up is raised, about to be raised, or
  // uv__work_done has been entered and not yet moved the list.
  ghost predicate Delivered(side: Side) {
    side.finished != [] ==>
      WQ in side.async.pending && (side.async.pending[WQ] || StillSending(side) || side.drain.Entered?)
  }

  ghost predicate CallOk(side: Side) {
    && (side.holder.Free? ==> !Async.Sending(side.async, CALL))
    && (!side.holder.Free? ==> CALL in side.async.senders && side.async.senders[CALL].h == WQ)
  }

  ghost predicate DrainOk(side: Side) {
    && (side.drain.Outside? <==> side.async.loop != Async.Calling(WQ))
    && (side.batch != [] ==> side.drain.Draining? || side.drain.InDone?)
    && (!side.cancel.NoCancel? ==> UserCode(side))
  }

  ghost predicate LoopOk(side: Side) {
    && Async.Inv(side.async) && WQ in side.async.pending
    && CallOk(side) && DrainOk(side) && Delivered(side)
  }

  ghost predicate LoopsOk(s: State) {
    forall l :: l in s.sides ==> LoopOk(s.sides[l])
  }

  // Every request is in exactly the one place its record names.
  ghost predicate Tracked(s: State) {
    RecordsOk(s) && ListsOk(s) && SidesOk(s)
  }

  ghost predicate Inv(s: State) {
    && PoolOk(s.pool, s.workers, s.idle) && Tracked(s) && LoopsOk(s)
  }

  // -- The pool ---------------------------------------------------------------------------

  lemma {:induction false} PostPool(s: State, item: Item, j: nat)
    requires PoolOk(s.pool, s.workers, s.idle) && SignalPicks(s.workers, j) && item !in s.pool
    ensures var t := Post(s, item, j); PoolOk(t.pool, t.workers, t.idle)
  {
    TailIn(s.pool, item);
    assert Waiting in s.workers <==> Waiting in multiset(s.workers);
    assert Waiting in Post(s, item, j).workers <==> Waiting in multiset(Post(s, item, j).workers);
  }

  lemma {:induction false} LockPool(s: State, i: nat, j: nat)
    requires PoolOk(s.pool, s.workers, s.idle) && WorkerEnabled(s, Lock(i, j))
    ensures var t := DoLock(s, i, j); PoolOk(t.pool, t.workers, t.idle)
  {
    var t := DoLock(s, i, j);
    assert Waiting in s.workers <==> Waiting in multiset(s.workers);
    assert Waiting in t.workers <==> Waiting in multiset(t.workers);
    if s.pool != [] {
      HeadOut(s.pool);
    }
  }

  lemma {:induction false} MovePool(s: State, i: nat, w: Worker)
    requires PoolOk(s.pool, s.workers, s.idle) && i < |s.workers| && !w.Exited?
    requires (s.workers[i].Waiting? && w.Signalled?)
          || (!s.workers[i].Waiting? && !s.workers[i].Signalled? && !w.Waiting? && !w.Signalled?)
    ensures PoolOk(s.pool, s.workers[i := w], s.idle)
  {
    assert Waiting in s.workers <==> Waiting in multiset(s.workers);
    assert Waiting in s.workers[i := w] <==> Waiting in multiset(s.workers[i := w]);
  }


  lemma {:induction false} CancelPool(s: State, l: LoopId, r: Req)
    requires PoolOk(s.pool, s.workers, s.idle) && Enabled(s, CancelTest(l, r))
    ensures var t := DoCancelTest(s, l, r); PoolOk(t.pool, t.workers, t.idle)
  {
    WithoutIs(s.pool, Work(r));
    WithoutKeeps(s.pool, Work(r));
  }

  // -- Where the requests are -------------------------------------------------------------

  ghost predicate Unowning(w: Worker) {
    w.Starting? || w.Waiting? || w.Signalled? || w.Exited?
  }

  ghost predicate SameLists(a: Side, b: Side) {
    a.finished == b.finished && a.batch == b.batch && a.cancel == b.cancel && a.holder == b.holder
  }

  // t differs from s only in what no request depends on.
  ghost predicate Alike(s: State, t: State) {
    && s.reqs == t.reqs && s.sides.Keys == t.sides.Keys && |s.workers| == |t.workers|
    && (forall r :: Work(r) in s.pool <==> Work(r) in t.pool)
    && (forall i :: 0 <= i < |s.workers| ==>
          s.workers[i] == t.workers[i] || (Unowning(s.workers[i]) && Unowning(t.workers[i])))
    && (forall l :: l in s.sides ==> SameLists(s.sides[l], t.sides[l]))
  }

  lemma {:induction false} AlikeSide(s: State, t: State, m: LoopId)
    requires Alike(s, t) && m in s.sides && SideOk(s, m, s.sides[m])
    ensures SideOk(t, m, t.sides[m])
  {
    assert SameLists(s.sides[m], t.sides[m]);
  }

  lemma {:induction false} AlikeRecord(s: State, t: State, q: Req)
    requires Alike(s, t) && q in s.reqs && RecordOk(s, q, s.reqs[q])
    ensures RecordOk(t, q, t.reqs[q])
  {
    assert SameLists(s.sides[s.reqs[q].owner], t.sides[s.reqs[q].owner]);
  }

  lemma {:induction false} AlikeTracked(s: State, t: State)
    requires Tracked(s) && Alike(s, t)
    ensures Tracked(t)
  {
    forall q | q in t.reqs ensures RecordOk(t, q, t.reqs[q]) {
      AlikeRecord(s, t, q);
    }
    forall k | 0 <= k < |t.workers| ensures WorkerOk(t, k, t.workers[k]) {
      assert WorkerOk(s, k, s.workers[k]);
    }
    forall m | m in t.sides ensures SideOk(t, m, t.sides[m]) {
      AlikeSide(s, t, m);
    }
    forall q | Work(q) in t.pool ensures ItemOk(t, q) {
      assert ItemOk(s, q);
    }
  }

  lemma {:induction false} Appended(xs: seq<Req>, x: Req)
    ensures NoRepeats(xs) && x !in xs ==> NoRepeats(xs + [x])
  {
    if NoRepeats(xs) && x !in xs {
      TailIn(xs, x);
    }
  }

  lemma {:induction false} SubmitRecord(s: State, r: Req, l: LoopId, j: nat, q: Req)
    requires Enabled(s, Submit(r, l, j))
    requires q in DoSubmit(s, r, l, j).reqs && (q in s.reqs ==> RecordOk(s, q, s.reqs[q]))
    ensures RecordOk(DoSubmit(s, r, l, j), q, DoSubmit(s, r, l, j).reqs[q])
  {}

  lemma {:induction false} SubmitWorker(s: State, r: Req, l: LoopId, j: nat, k: nat)
    requires Enabled(s, Submit(r, l, j))
    requires k < |s.workers| && WorkerOk(s, k, s.workers[k])
    ensures WorkerOk(DoSubmit(s, r, l, j), k, DoSubmit(s, r, l, j).workers[k])
  {}

  lemma {:induction false} SubmitSide(s: State, r: Req, l: LoopId, j: nat, m: LoopId)
    requires Enabled(s, Submit(r, l, j))
    requires m in s.sides && SideOk(s, m, s.sides[m])
    ensures SideOk(DoSubmit(s, r, l, j), m, DoSubmit(s, r, l, j).sides[m])
  {}

  lemma {:induction false} SubmitTracked(s: State, r: Req, l: LoopId, j: nat)
    requires Enabled(s, Submit(r, l, j)) && Tracked(s)
    ensures Tracked(DoSubmit(s, r, l, j))
  {
    var t := DoSubmit(s, r, l, j);
    forall q | q in t.reqs ensures RecordOk(t, q, t.reqs[q]) {
      SubmitRecord(s, r, l, j, q);
    }
    forall k | 0 <= k < |t.workers| ensures WorkerOk(t, k, t.workers[k]) {
      SubmitWorker(s, r, l, j, k);
    }
    forall m | m in t.sides ensures SideOk(t, m, t.sides[m]) {
      SubmitSide(s, r, l, j, m);
    }
    forall q | Work(q) in t.pool ensures ItemOk(t, q) {
      assert q != r ==> Work(q) in s.pool && ItemOk(s, q);
    }
  }

  lemma {:induction false} TakeRecord(s: State, i: nat, j: nat, q: Req)
    requires WorkerEnabled(s, Lock(i, j)) && s.pool != [] && s.pool[0].Work?
    requires NoRepeats(s.pool) && ItemOk(s, s.pool[0].r)
    requires q in DoLock(s, i, j).reqs && (q in s.reqs ==> RecordOk(s, q, s.reqs[q]))
    ensures RecordOk(DoLock(s, i, j), q, DoLock(s, i, j).reqs[q])
  {
    HeadOut(s.pool);
  }

  lemma {:induction false} TakeWorker(s: State, i: nat, j: nat, k: nat)
    requires WorkerEnabled(s, Lock(i, j)) && s.pool != [] && s.pool[0].Work?
    requires ItemOk(s, s.pool[0].r)
    requires k < |s.workers| && WorkerOk(s, k, s.workers[k])
    ensures WorkerOk(DoLock(s, i, j), k, DoLock(s, i, j).workers[k])
  {}

  lemma {:induction false} TakeSide(s: State, i: nat, j: nat, m: LoopId)
    requires WorkerEnabled(s, Lock(i, j)) && s.pool != [] && s.pool[0].Work?
    requires ItemOk(s, s.pool[0].r)
    requires m in s.sides && SideOk(s, m, s.sides[m])
    ensures SideOk(DoLock(s, i, j), m, DoLock(s, i, j).sides[m])
  {}

  lemma {:induction false} TakeTracked(s: State, i: nat, j: nat)
    requires WorkerEnabled(s, Lock(i, j)) && s.pool != [] && s.pool[0].Work? && Tracked(s)
    requires NoRepeats(s.pool)
    ensures Tracked(DoLock(s, i, j))
  {
    var t := DoLock(s, i, j);
    HeadOut(s.pool);
    assert ItemOk(s, s.pool[0].r);
    forall q | q in t.reqs ensures RecordOk(t, q, t.reqs[q]) {
      TakeRecord(s, i, j, q);
    }
    forall k | 0 <= k < |t.workers| ensures WorkerOk(t, k, t.workers[k]) {
      TakeWorker(s, i, j, k);
    }
    forall m | m in t.sides ensures SideOk(t, m, t.sides[m]) {
      TakeSide(s, i, j, m);
    }
    forall q | Work(q) in t.pool ensures ItemOk(t, q) {
      assert Work(q) in s.pool[1..] && ItemOk(s, q);
    }
  }

  lemma {:induction false} RunRecord(s: State, i: nat, q: Req)
    requires WorkerEnabled(s, RunWork(i))
    requires WorkerOk(s, i, s.workers[i])
    requires q in DoRunWork(s, i).reqs && (q in s.reqs ==> RecordOk(s, q, s.reqs[q]))
    ensures RecordOk(DoRunWork(s, i), q, DoRunWork(s, i).reqs[q])
  {}

  lemma {:induction false} RunWorker(s: State, i: nat, k: nat)
    requires WorkerEnabled(s, RunWork(i))
    requires WorkerOk(s, i, s.workers[i])
    requires k < |s.workers| && WorkerOk(s, k, s.workers[k])
    ensures WorkerOk(DoRunWork(s, i), k, DoRunWork(s, i).workers[k])
  {}

  lemma {:induction false} RunSide(s: State, i: nat, m: LoopId)
    requires WorkerEnabled(s, RunWork(i))
    requires WorkerOk(s, i, s.workers[i])
    requires m in s.sides && SideOk(s, m, s.sides[m])
    ensures SideOk(DoRunWork(s, i), m, DoRunWork(s, i).sides[m])
  {}

  lemma {:induction false} RunTracked(s: State, i: nat)
    requires WorkerEnabled(s, RunWork(i)) && Tracked(s)
    ensures Tracked(DoRunWork(s, i))
  {
    var t := DoRunWork(s, i);
    assert WorkerOk(s, i, s.workers[i]);
    forall q | q in t.reqs ensures RecordOk(t, q, t.reqs[q]) {
      RunRecord(s, i, q);
    }
    forall k | 0 <= k < |t.workers| ensures WorkerOk(t, k, t.workers[k]) {
      RunWorker(s, i, k);
    }
    forall m | m in t.sides ensures SideOk(t, m, t.sides[m]) {
      RunSide(s, i, m);
    }
    forall q | Work(q) in t.pool ensures ItemOk(t, q) {
      assert ItemOk(s, q);
    }
  }

  lemma {:induction false} CompleteRecord(s: State, i: nat, q: Req)
    requires WorkerEnabled(s, Complete(i))
    requires WorkerOk(s, i, s.workers[i])
    requires q in DoComplete(s, i).reqs && (q in s.reqs ==> RecordOk(s, q, s.reqs[q]))
    ensures RecordOk(DoComplete(s, i), q, DoComplete(s, i).reqs[q])
  {}

  lemma {:induction false} CompleteWorker(s: State, i: nat, k: nat)
    requires WorkerEnabled(s, Complete(i))
    requires WorkerOk(s, i, s.workers[i])
    requires k < |s.workers| && WorkerOk(s, k, s.workers[k])
    ensures WorkerOk(DoComplete(s, i), k, DoComplete(s, i).workers[k])
  {}

  lemma {:induction false} CompleteSide(s: State, i: nat, m: LoopId)
    requires WorkerEnabled(s, Complete(i))
    requires WorkerOk(s, i, s.workers[i])
    requires m in s.sides && SideOk(s, m, s.sides[m])
    ensures SideOk(DoComplete(s, i), m, DoComplete(s, i).sides[m])
  {
    var t := DoComplete(s, i);
    var r := s.workers[i].r;
    var side := s.sides[m];
    assert side.holder != ByWorker(i);
    assert !OnLoopOf(s, m, r);
    assert forall q :: OnLoopOf(s, m, q) ==> OnLoopOf(t, m, q);
    if m == s.reqs[r].owner {
      Appended(side.finished, r);
      assert ListOk(t, m, side.finished + [r]);
    }
  }

  lemma {:induction false} CompleteTracked(s: State, i: nat)
    requires WorkerEnabled(s, Complete(i)) && Tracked(s)
    ensures Tracked(DoComplete(s, i))
  {
    var t := DoComplete(s, i);
    assert WorkerOk(s, i, s.workers[i]);
    forall q | q in t.reqs ensures RecordOk(t, q, t.reqs[q]) {
      CompleteRecord(s, i, q);
    }
    forall k | 0 <= k < |t.workers| ensures WorkerOk(t, k, t.workers[k]) {
      CompleteWorker(s, i, k);
    }
    forall m | m in t.sides ensures SideOk(t, m, t.sides[m]) {
      CompleteSide(s, i, m);
    }
    forall q | Work(q) in t.pool ensures ItemOk(t, q) {
      assert ItemOk(s, q);
    }
  }

  lemma {:induction false} ReleaseRecord(s: State, i: nat, q: Req)
    requires WorkerEnabled(s, Release(i))
    requires WorkerOk(s, i, s.workers[i])
    requires q in DoRelease(s, i).reqs && (q in s.reqs ==> RecordOk(s, q, s.reqs[q]))
    ensures RecordOk(DoRelease(s, i), q, DoRelease(s, i).reqs[q])
  {}

  lemma {:induction false} ReleaseWorker(s: State, i: nat, k: nat)
    requires WorkerEnabled(s, Release(i))
    requires WorkerOk(s, i, s.workers[i])
    requires k < |s.workers| && WorkerOk(s, k, s.workers[k])
    ensures WorkerOk(DoRelease(s, i), k, DoRelease(s, i).workers[k])
  {}

  lemma {:induction false} ReleaseSide(s: State, i: nat, m: LoopId)
    requires WorkerEnabled(s, Release(i))
    requires WorkerOk(s, i, s.workers[i])
    requires m in s.sides && SideOk(s, m, s.sides[m])
    ensures SideOk(DoRelease(s, i), m, DoRelease(s, i).sides[m])
  {}

  lemma {:induction false} ReleaseTracked(s: State, i: nat)
    requires WorkerEnabled(s, Release(i)) && Tracked(s)
    ensures Tracked(DoRelease(s, i))
  {
    var t := DoRelease(s, i);
    assert WorkerOk(s, i, s.workers[i]);
    forall q | q in t.reqs ensures RecordOk(t, q, t.reqs[q]) {
      ReleaseRecord(s, i, q);
    }
    forall k | 0 <= k < |t.workers| ensures WorkerOk(t, k, t.workers[k]) {
      ReleaseWorker(s, i, k);
    }
    forall m | m in t.sides ensures SideOk(t, m, t.sides[m]) {
      ReleaseSide(s, i, m);
    }
    forall q | Work(q) in t.pool ensures ItemOk(t, q) {
      assert ItemOk(s, q);
    }
  }

  lemma {:induction false} CancelTestRecord(s: State, l: LoopId, r: Req, q: Req)
    requires Enabled(s, CancelTest(l, r))
    requires RecordOk(s, r, s.reqs[r])
    requires q in DoCancelTest(s, l, r).reqs && (q in s.reqs ==> RecordOk(s, q, s.reqs[q]))
    ensures RecordOk(DoCancelTest(s, l, r), q, DoCancelTest(s, l, r).reqs[q])
  {
    WithoutKeeps(s.pool, Work(r));
    WithoutKeeps(s.sides[l].finished, r);
    WithoutKeeps(s.sides[l].batch, r);
  }

  lemma {:induction false} CancelTestWorker(s: State, l: LoopId, r: Req, k: nat)
    requires Enabled(s, CancelTest(l, r))
    requires RecordOk(s, r, s.reqs[r])
    requires k < |s.workers| && WorkerOk(s, k, s.workers[k])
    ensures WorkerOk(DoCancelTest(s, l, r), k, DoCancelTest(s, l, r).workers[k])
  {}

  lemma {:induction false} CancelTestSide(s: State, l: LoopId, r: Req, m: LoopId)
    requires Enabled(s, CancelTest(l, r))
    requires RecordOk(s, r, s.reqs[r])
    requires m in s.sides && SideOk(s, m, s.sides[m])
    ensures SideOk(DoCancelTest(s, l, r), m, DoCancelTest(s, l, r).sides[m])
  {
    WithoutKeeps(s.pool, Work(r));
    WithoutKeeps(s.sides[l].finished, r);
    WithoutKeeps(s.sides[l].batch, r);
  }

  lemma {:induction false} CancelTestTracked(s: State, l: LoopId, r: Req)
    requires Enabled(s, CancelTest(l, r)) && Tracked(s)
    ensures Tracked(DoCancelTest(s, l, r))
  {
    var t := DoCancelTest(s, l, r);
    assert RecordOk(s, r, s.reqs[r]);
    WithoutKeeps(s.pool, Work(r));
    forall q | q in t.reqs ensures RecordOk(t, q, t.reqs[q]) {
      CancelTestRecord(s, l, r, q);
    }
    forall k | 0 <= k < |t.workers| ensures WorkerOk(t, k, t.workers[k]) {
      CancelTestWorker(s, l, r, k);
    }
    forall m | m in t.sides ensures SideOk(t, m, t.sides[m]) {
      CancelTestSide(s, l, r, m);
    }
    forall q | Work(q) in t.pool ensures ItemOk(t, q) {
      assert ItemOk(s, q);
    }
  }

  lemma {:induction false} CancelMarkRecord(s: State, l: LoopId, q: Req)
    requires l in s.sides && LoopEnabled(s, l, CancelMark(l))
    requires s.sides[l].cancel.r in s.reqs && SideOk(s, l, s.sides[l])
      && RecordOk(s, s.sides[l].cancel.r, s.reqs[s.sides[l].cancel.r])
    requires q in DoCancelMark(s, l).reqs && (q in s.reqs ==> RecordOk(s, q, s.reqs[q]))
    ensures RecordOk(DoCancelMark(s, l), q, DoCancelMark(s, l).reqs[q])
  {}

  lemma {:induction false} CancelMarkWorker(s: State, l: LoopId, k: nat)
    requires l in s.sides && LoopEnabled(s, l, CancelMark(l))
    requires s.sides[l].cancel.r in s.reqs && SideOk(s, l, s.sides[l])
      && RecordOk(s, s.sides[l].cancel.r, s.reqs[s.sides[l].cancel.r])
    requires k < |s.workers| && WorkerOk(s, k, s.workers[k])
    ensures WorkerOk(DoCancelMark(s, l), k, DoCancelMark(s, l).workers[k])
  {}

  lemma {:induction false} CancelMarkSide(s: State, l: LoopId, m: LoopId)
    requires l in s.sides && LoopEnabled(s, l, CancelMark(l))
    requires s.sides[l].cancel.r in s.reqs && SideOk(s, l, s.sides[l])
      && RecordOk(s, s.sides[l].cancel.r, s.reqs[s.sides[l].cancel.r])
    requires m in s.sides && SideOk(s, m, s.sides[m])
    ensures SideOk(DoCancelMark(s, l), m, DoCancelMark(s, l).sides[m])
  {}

  lemma {:induction false} CancelMarkTracked(s: State, l: LoopId)
    requires l in s.sides && LoopEnabled(s, l, CancelMark(l)) && Tracked(s)
    ensures Tracked(DoCancelMark(s, l))
  {
    var t := DoCancelMark(s, l);
    assert SideOk(s, l, s.sides[l]);
    assert RecordOk(s, s.sides[l].cancel.r, s.reqs[s.sides[l].cancel.r]);
    forall q | q in t.reqs ensures RecordOk(t, q, t.reqs[q]) {
      CancelMarkRecord(s, l, q);
    }
    forall k | 0 <= k < |t.workers| ensures WorkerOk(t, k, t.workers[k]) {
      CancelMarkWorker(s, l, k);
    }
    forall m | m in t.sides ensures SideOk(t, m, t.sides[m]) {
      CancelMarkSide(s, l, m);
    }
    forall q | Work(q) in t.pool ensures ItemOk(t, q) {
      assert ItemOk(s, q);
    }
  }

  lemma {:induction false} CancelInsertRecord(s: State, l: LoopId, q: Req)
    requires l in s.sides && LoopEnabled(s, l, CancelInsert(l))
    requires s.sides[l].cancel.r in s.reqs && SideOk(s, l, s.sides[l])
      && RecordOk(s, s.sides[l].cancel.r, s.reqs[s.sides[l].cancel.r])
    requires q in DoCancelInsert(s, l).reqs && (q in s.reqs ==> RecordOk(s, q, s.reqs[q]))
    ensures RecordOk(DoCancelInsert(s, l), q, DoCancelInsert(s, l).reqs[q])
  {}

  lemma {:induction false} CancelInsertWorker(s: State, l: LoopId, k: nat)
    requires l in s.sides && LoopEnabled(s, l, CancelInsert(l))
    requires s.sides[l].cancel.r in s.reqs && SideOk(s, l, s.sides[l])
      && RecordOk(s, s.sides[l].cancel.r, s.reqs[s.sides[l].cancel.r])
    requires k < |s.workers| && WorkerOk(s, k, s.workers[k])
    ensures WorkerOk(DoCancelInsert(s, l), k, DoCancelInsert(s, l).workers[k])
  {}

  lemma {:induction false} CancelInsertSide(s: State, l: LoopId, m: LoopId)
    requires l in s.sides && LoopEnabled(s, l, CancelInsert(l))
    requires s.sides[l].cancel.r in s.reqs && SideOk(s, l, s.sides[l])
      && RecordOk(s, s.sides[l].cancel.r, s.reqs[s.sides[l].cancel.r])
    requires m in s.sides && SideOk(s, m, s.sides[m])
    ensures SideOk(DoCancelInsert(s, l), m, DoCancelInsert(s, l).sides[m])
  {
    var t, r, side := DoCancelInsert(s, l), s.sides[l].cancel.r, s.sides[m];
    assert forall q :: OnLoopOf(s, m, q) ==> OnLoopOf(t, m, q);
    assert !OnLoopOf(s, m, r);
    hide NoRepeats;
    if m == l {
      Appended(side.finished, r);
      assert ListOk(t, m, side.finished + [r]);
    }
  }

  lemma {:induction false} CancelInsertTracked(s: State, l: LoopId)
    requires l in s.sides && LoopEnabled(s, l, CancelInsert(l)) && Tracked(s)
    ensures Tracked(DoCancelInsert(s, l))
  {
    var t := DoCancelInsert(s, l);
    assert SideOk(s, l, s.sides[l]);
    assert RecordOk(s, s.sides[l].cancel.r, s.reqs[s.sides[l].cancel.r]);
    forall q | q in t.reqs ensures RecordOk(t, q, t.reqs[q]) {
      CancelInsertRecord(s, l, q);
    }
    forall k | 0 <= k < |t.workers| ensures WorkerOk(t, k, t.workers[k]) {
      CancelInsertWorker(s, l, k);
    }
    forall m | m in t.sides ensures SideOk(t, m, t.sides[m]) {
      CancelInsertSide(s, l, m);
    }
    forall q | Work(q) in t.pool ensures ItemOk(t, q) {
      assert ItemOk(s, q);
    }
  }

  lemma {:induction false} CancelReturnRecord(s: State, l: LoopId, q: Req)
    requires l in s.sides && LoopEnabled(s, l, CancelReturn(l))
    requires s.sides[l].cancel.r in s.reqs && SideOk(s, l, s.sides[l])
      && RecordOk(s, s.sides[l].cancel.r, s.reqs[s.sides[l].cancel.r])
    requires q in DoCancelReturn(s, l).reqs && (q in s.reqs ==> RecordOk(s, q, s.reqs[q]))
    ensures RecordOk(DoCancelReturn(s, l), q, DoCancelReturn(s, l).reqs[q])
  {}

  lemma {:induction false} CancelReturnWorker(s: State, l: LoopId, k: nat)
    requires l in s.sides && LoopEnabled(s, l, CancelReturn(l))
    requires s.sides[l].cancel.r in s.reqs && SideOk(s, l, s.sides[l])
      && RecordOk(s, s.sides[l].cancel.r, s.reqs[s.sides[l].cancel.r])
    requires k < |s.workers| && WorkerOk(s, k, s.workers[k])
    ensures WorkerOk(DoCancelReturn(s, l), k, DoCancelReturn(s, l).workers[k])
  {}

  lemma {:induction false} CancelReturnSide(s: State, l: LoopId, m: LoopId)
    requires l in s.sides && LoopEnabled(s, l, CancelReturn(l))
    requires s.sides[l].cancel.r in s.reqs && SideOk(s, l, s.sides[l])
      && RecordOk(s, s.sides[l].cancel.r, s.reqs[s.sides[l].cancel.r])
    requires m in s.sides && SideOk(s, m, s.sides[m])
    ensures SideOk(DoCancelReturn(s, l), m, DoCancelReturn(s, l).sides[m])
  {}

  lemma {:induction false} CancelReturnTracked(s: State, l: LoopId)
    requires l in s.sides && LoopEnabled(s, l, CancelReturn(l)) && Tracked(s)
    ensures Tracked(DoCancelReturn(s, l))
  {
    var t := DoCancelReturn(s, l);
    assert SideOk(s, l, s.sides[l]);
    assert RecordOk(s, s.sides[l].cancel.r, s.reqs[s.sides[l].cancel.r]);
    forall q | q in t.reqs ensures RecordOk(t, q, t.reqs[q]) {
      CancelReturnRecord(s, l, q);
    }
    forall k | 0 <= k < |t.workers| ensures WorkerOk(t, k, t.workers[k]) {
      CancelReturnWorker(s, l, k);
    }
    forall m | m in t.sides ensures SideOk(t, m, t.sides[m]) {
      CancelReturnSide(s, l, m);
    }
    forall q | Work(q) in t.pool ensures ItemOk(t, q) {
      assert ItemOk(s, q);
    }
  }

  lemma {:induction false} MoveRecord(s: State, l: LoopId, q: Req)
    requires l in s.sides && LoopEnabled(s, l, DoneMove(l)) && s.sides[l].batch == []
    requires q in DoDoneMove(s, l).reqs && (q in s.reqs ==> RecordOk(s, q, s.reqs[q]))
    ensures RecordOk(DoDoneMove(s, l), q, DoDoneMove(s, l).reqs[q])
  {}

  lemma {:induction false} MoveWorker(s: State, l: LoopId, k: nat)
    requires l in s.sides && LoopEnabled(s, l, DoneMove(l)) && s.sides[l].batch == []
    requires k < |s.workers| && WorkerOk(s, k, s.workers[k])
    ensures WorkerOk(DoDoneMove(s, l), k, DoDoneMove(s, l).workers[k])
  {}

  lemma {:induction false} MoveSide(s: State, l: LoopId, m: LoopId)
    requires l in s.sides && LoopEnabled(s, l, DoneMove(l)) && s.sides[l].batch == []
    requires m in s.sides && SideOk(s, m, s.sides[m])
    ensures SideOk(DoDoneMove(s, l), m, DoDoneMove(s, l).sides[m])
  {}

  lemma {:induction false} MoveTracked(s: State, l: LoopId)
    requires l in s.sides && LoopEnabled(s, l, DoneMove(l)) && s.sides[l].batch == [] && Tracked(s)
    ensures Tracked(DoDoneMove(s, l))
  {
    var t := DoDoneMove(s, l);
    forall q | q in t.reqs ensures RecordOk(t, q, t.reqs[q]) {
      MoveRecord(s, l, q);
    }
    forall k | 0 <= k < |t.workers| ensures WorkerOk(t, k, t.workers[k]) {
      MoveWorker(s, l, k);
    }
    forall m | m in t.sides ensures SideOk(t, m, t.sides[m]) {
      MoveSide(s, l, m);
    }
    forall q | Work(q) in t.pool ensures ItemOk(t, q) {
      assert ItemOk(s, q);
    }
  }

  lemma {:induction false} DoneTakeRecord(s: State, l: LoopId, q: Req)
    requires l in s.sides && LoopEnabled(s, l, DoneTake(l)) && s.sides[l].cancel.NoCancel?
    requires SideOk(s, l, s.sides[l]) && RecordOk(s, s.sides[l].batch[0], s.reqs[s.sides[l].batch[0]])
    requires q in DoDoneTake(s, l).reqs && (q in s.reqs ==> RecordOk(s, q, s.reqs[q]))
    ensures RecordOk(DoDoneTake(s, l), q, DoDoneTake(s, l).reqs[q])
  {
    HeadOut(s.sides[l].batch);
  }

  lemma {:induction false} DoneTakeWorker(s: State, l: LoopId, k: nat)
    requires l in s.sides && LoopEnabled(s, l, DoneTake(l)) && s.sides[l].cancel.NoCancel?
    requires SideOk(s, l, s.sides[l]) && RecordOk(s, s.sides[l].batch[0], s.reqs[s.sides[l].batch[0]])
    requires k < |s.workers| && WorkerOk(s, k, s.workers[k])
    ensures WorkerOk(DoDoneTake(s, l), k, DoDoneTake(s, l).workers[k])
  {
    assert s.sides[l].batch[0] in s.sides[l].batch;
  }

  lemma {:induction false} DoneTakeSide(s: State, l: LoopId, m: LoopId)
    requires l in s.sides && LoopEnabled(s, l, DoneTake(l)) && s.sides[l].cancel.NoCancel?
    requires SideOk(s, l, s.sides[l]) && RecordOk(s, s.sides[l].batch[0], s.reqs[s.sides[l].batch[0]])
    requires m in s.sides && SideOk(s, m, s.sides[m])
    ensures SideOk(DoDoneTake(s, l), m, DoDoneTake(s, l).sides[m])
  {
    HeadOut(s.sides[l].batch);
  }

  lemma {:induction false} DoneTakeTracked(s: State, l: LoopId)
    requires l in s.sides && LoopEnabled(s, l, DoneTake(l)) && s.sides[l].cancel.NoCancel? && Tracked(s)
    ensures Tracked(DoDoneTake(s, l))
  {
    var t := DoDoneTake(s, l);
    assert SideOk(s, l, s.sides[l]);
    assert RecordOk(s, s.sides[l].batch[0], s.reqs[s.sides[l].batch[0]]);
    forall q | q in t.reqs ensures RecordOk(t, q, t.reqs[q]) {
      DoneTakeRecord(s, l, q);
    }
    forall k | 0 <= k < |t.workers| ensures WorkerOk(t, k, t.workers[k]) {
      DoneTakeWorker(s, l, k);
    }
    forall m | m in t.sides ensures SideOk(t, m, t.sides[m]) {
      DoneTakeSide(s, l, m);
    }
    forall q | Work(q) in t.pool ensures ItemOk(t, q) {
      assert ItemOk(s, q);
    }
  }

  // -- The wake-ups ------------------------------------------------------------------------

  lemma {:induction false} InsertLoop(side: Side, r: Req, holder: Holder)
    requires LoopOk(side) && CanInsert(side) && !holder.Free?
    ensures LoopOk(Insert(side, r, holder))
  {
    Async.StepKeeps(side.async, Async.SendCall(CALL, WQ));
  }

  lemma {:induction false} NotifySend(s: State, l: LoopId, a: Async.Step)
    requires l in s.sides && LoopEnabled(s, l, Notify(l, a)) && LoopOk(s.sides[l]) && Async.BySender(a)
    ensures var t := DoNotify(s, l, a).sides[l]; CallOk(t) && DrainOk(t)
  {}

  lemma {:induction false} NotifySendDelivers(s: State, l: LoopId, a: Async.Step)
    requires l in s.sides && LoopEnabled(s, l, Notify(l, a)) && LoopOk(s.sides[l]) && Async.BySender(a)
    ensures Delivered(DoNotify(s, l, a).sides[l])
  {}

  lemma {:induction false} NotifyCalls(s: State, l: LoopId, a: Async.Step)
    requires l in s.sides && LoopEnabled(s, l, Notify(l, a)) && LoopOk(s.sides[l]) && !Async.BySender(a)
    ensures var t := DoNotify(s, l, a).sides[l]; CallOk(t) && DrainOk(t)
  {}

  lemma {:induction false} NotifyUserDelivers(s: State, l: LoopId, a: Async.Step)
    requires l in s.sides && LoopEnabled(s, l, Notify(l, a)) && LoopOk(s.sides[l]) && Async.ByUser(a)
    ensures Delivered(DoNotify(s, l, a).sides[l])
  {}

  lemma {:induction false} NotifyDelivers(s: State, l: LoopId, a: Async.Step)
    requires l in s.sides && LoopEnabled(s, l, Notify(l, a)) && LoopOk(s.sides[l]) && !Async.BySender(a)
      && !Async.ByUser(a)
    ensures Delivered(DoNotify(s, l, a).sides[l])
  {}

  lemma {:induction false} NotifyKeepsOpen(s: State, l: LoopId, a: Async.Step)
    requires l in s.sides && LoopEnabled(s, l, Notify(l, a)) && WQ in s.sides[l].async.pending
    ensures Async.Enabled(s.sides[l].async, a) && DoNotify(s, l, a).sides[l].async == Async.Do(s.sides[l].async, a)
    ensures WQ in Async.Do(s.sides[l].async, a).pending
  {
    assert a.Close? ==> a.h != WQ;
  }

  lemma {:induction false} NotifyLoop(s: State, l: LoopId, a: Async.Step)
    requires l in s.sides && LoopEnabled(s, l, Notify(l, a)) && LoopOk(s.sides[l])
    ensures LoopOk(DoNotify(s, l, a).sides[l])
  {
    NotifyKeepsOpen(s, l, a);
    hide Async.Inv, Async.Do, Async.Enabled, CallOk, DrainOk, Delivered, LoopEnabled, DoNotify;
    Async.StepKeeps(s.sides[l].async, a);
    if Async.BySender(a) {
      NotifySend(s, l, a);
      NotifySendDelivers(s, l, a);
    } else {
      NotifyCalls(s, l, a);
      if Async.ByUser(a) {
        NotifyUserDelivers(s, l, a);
      } else {
        NotifyDelivers(s, l, a);
      }
    }
  }

  lemma {:induction false} DoneEndLoop(s: State, l: LoopId)
    requires l in s.sides && LoopEnabled(s, l, DoneEnd(l)) && LoopOk(s.sides[l])
    ensures LoopOk(DoDoneEnd(s, l).sides[l])
  {
    Async.StepKeeps(s.sides[l].async, Async.CallbackReturns);
  }

  // The steps that leave the wake-up machine of every loop alone.
  predicate Silent(step: Step) {
    !step.Complete? && !step.CancelInsert? && !step.Notify? && !step.DoneEnd?
  }

  lemma {:induction false} WorkerLoop(s: State, step: Step, m: LoopId)
    requires Enabled(s, step) && Silent(step)
    requires step.Submit? || step.PostExit? || step.Lock? || step.Wake? || step.RunWork? || step.Release?
    requires m in s.sides && LoopOk(s.sides[m])
    ensures m in Do(s, step).sides && LoopOk(Do(s, step).sides[m])
  {}

  lemma {:induction false} CancelLoop(s: State, step: Step, m: LoopId)
    requires Enabled(s, step) && (step.CancelTest? || step.CancelMark? || step.CancelReturn?)
    requires m in s.sides && LoopOk(s.sides[m])
    ensures m in Do(s, step).sides && LoopOk(Do(s, step).sides[m])
  {}

  lemma {:induction false} DoneLoop(s: State, step: Step, m: LoopId)
    requires Enabled(s, step) && (step.DoneMove? || step.DoneTake? || step.DoneReturn?)
    requires m in s.sides && LoopOk(s.sides[m])
    ensures m in Do(s, step).sides && LoopOk(Do(s, step).sides[m])
  {}

  // -- Every run ---------------------------------------------------------------------------

  lemma {:induction false} StepPool(s: State, step: Step)
    requires PoolOk(s.pool, s.workers, s.idle) && ListsOk(s) && Enabled(s, step)
    ensures PoolOk(Do(s, step).pool, Do(s, step).workers, Do(s, step).idle)
  {
    match step
    case Submit(r, l, j) =>
      assert Work(r) in s.pool ==> ItemOk(s, r);
      PostPool(s, Work(r), j);
    case PostExit(j) => PostPool(s, ExitMessage, j);
    case Lock(i, j) => LockPool(s, i, j);
    case Wake(i) => MovePool(s, i, Signalled);
    case RunWork(i) => MovePool(s, i, Ran(s.workers[i].r));
    case Complete(i) => MovePool(s, i, Sending(s.reqs[s.workers[i].r].owner));
    case Release(i) => MovePool(s, i, Starting);
    case CancelTest(l, r) => CancelPool(s, l, r);
    case _ =>
  }

  lemma {:induction false} WorkerTracked(s: State, step: Step)
    requires Tracked(s) && NoRepeats(s.pool) && Enabled(s, step)
    requires step.Lock? || step.RunWork? || step.Complete? || step.Release?
    ensures Tracked(Do(s, step))
  {
    match step
    case Lock(i, j) =>
      if s.pool != [] && s.pool[0].Work? {
        TakeTracked(s, i, j);
      } else {
        AlikeTracked(s, DoLock(s, i, j));
      }
    case RunWork(i) => RunTracked(s, i);
    case Complete(i) => CompleteTracked(s, i);
    case Release(i) => ReleaseTracked(s, i);
  }

  lemma {:induction false} CancelTracked(s: State, step: Step)
    requires Tracked(s) && Enabled(s, step)
    requires step.CancelTest? || step.CancelMark? || step.CancelInsert? || step.CancelReturn?
    ensures Tracked(Do(s, step))
  {
    match step
    case CancelTest(l, r) => CancelTestTracked(s, l, r);
    case CancelMark(l) => CancelMarkTracked(s, l);
    case CancelInsert(l) => CancelInsertTracked(s, l);
    case CancelReturn(l) => CancelReturnTracked(s, l);
  }

  lemma {:induction false} DoneTracked(s: State, step: Step)
    requires Tracked(s) && Enabled(s, step) && (step.DoneMove? || step.DoneTake?) && LoopOk(s.sides[step.l])
    ensures Tracked(Do(s, step))
  {
    match step
    case DoneMove(l) => MoveTracked(s, l);
    case DoneTake(l) => DoneTakeTracked(s, l);
  }

  // The steps that no request depends on.
  predicate Passive(step: Step) {
    step.PostExit? || step.Wake? || step.DoneReturn? || step.DoneEnd? || step.Notify?
  }

  lemma {:induction false} PassiveAlike(s: State, step: Step)
    requires Enabled(s, step) && Passive(step)
    ensures Alike(s, Do(s, step))
  {}

  lemma {:induction false} StepTracked(s: State, step: Step)
    requires Inv(s) && Enabled(s, step)
    ensures Tracked(Do(s, step))
  {
    if Passive(step) {
      PassiveAlike(s, step);
      AlikeTracked(s, Do(s, step));
    } else if step.Submit? {
      SubmitTracked(s, step.r, step.l, step.j);
    } else if step.Lock? || step.RunWork? || step.Complete? || step.Release? {
      WorkerTracked(s, step);
    } else if step.DoneMove? || step.DoneTake? {
      assert LoopOk(s.sides[step.l]);
      DoneTracked(s, step);
    } else {
      CancelTracked(s, step);
    }
  }

  lemma {:induction false} StepLoop(s: State, step: Step, m: LoopId)
    requires Enabled(s, step) && m in s.sides && LoopOk(s.sides[m])
    ensures m in Do(s, step).sides && LoopOk(Do(s, step).sides[m])
  {
    if step.Complete? {
      if m == s.reqs[s.workers[step.i].r].owner {
        InsertLoop(s.sides[m], s.workers[step.i].r, ByWorker(step.i));
      }
    } else if step.CancelInsert? {
      if m == step.l {
        InsertLoop(s.sides[m], s.sides[m].cancel.r, ByCanceller);
      }
    } else if step.Notify? {
      if m == step.l {
        NotifyLoop(s, m, step.step);
      }
    } else if step.DoneEnd? {
      if m == step.l {
        DoneEndLoop(s, m);
      }
    } else if step.CancelTest? || step.CancelMark? || step.CancelReturn? {
      CancelLoop(s, step, m);
    } else if step.DoneMove? || step.DoneTake? || step.DoneReturn? {
      DoneLoop(s, step, m);
    } else {
      WorkerLoop(s, step, m);
    }
  }

  lemma {:induction false} StepFrame(s: State, step: Step)
    requires Enabled(s, step)
    ensures Do(s, step).sides.Keys == s.sides.Keys && |Do(s, step).workers| == |s.workers|
  {}

  lemma {:induction false} StepKeeps(s: State, step: Step)
    requires Inv(s) && Enabled(s, step)
    ensures Inv(Do(s, step))
  {
    StepPool(s, step);
    StepTracked(s, step);
    StepFrame(s, step);
    forall m | m in Do(s, step).sides ensures LoopOk(Do(s, step).sides[m]) {
      StepLoop(s, step, m);
    }
  }

  lemma {:induction false} RunKeeps(s: State, steps: seq<Step>)
    requires Inv(s) && CanRun(s, steps)
    ensures Inv(Run(s, steps)) && |Run(s, steps).workers| == |s.workers|
    decreases |steps|
  {
    if steps != [] {
      StepKeeps(s, steps[0]);
      StepFrame(s, steps[0]);
      RunKeeps(Do(s, steps[0]), steps[1..]);
    }
  }

  lemma {:induction false} StartInv(s: State)
    requires Start(s)
    ensures Inv(s)
  {
    assert Exited !in multiset(s.workers) && Waiting !in multiset(s.workers) && Signalled !in multiset(s.workers);
    forall l | l in s.sides ensures LoopOk(s.sides[l]) {
      assert FreshSide(s.sides[l]);
      var a :| Async.Start(a) && s.sides[l].async == Async.Do(a, Async.Init(WQ));
      Async.StartInv(a);
      Async.StepKeeps(a, Async.Init(WQ));
    }
  }

  // In every interleaving a request is done at most once; done receives UV_ECANCELED just
  // when a cancel returned 0, and then its work function never ran; otherwise it ran once.
  lemma {:induction false} DoneOnce(s: State, steps: seq<Step>, r: Req)
    requires Start(s) && CanRun(s, steps) && r in Run(s, steps).reqs
    ensures var rec := Run(s, steps).reqs[r];
      && |rec.done| <= 1 && rec.ran <= 1
      && (rec.done == [Canceled] <==> rec.done != [] && rec.zeros > 0)
      && (rec.zeros > 0 ==> rec.ran == 0)
      && (rec.done == [Success] ==> rec.ran == 1)
  {
    StartInv(s);
    RunKeeps(s, steps);
    assert RecordOk(Run(s, steps), r, Run(s, steps).reqs[r]);
  }

  // The trap uv__cancelled is never called: a worker calls w->work only while it is the
  // function that was submitted, and never for a second time.
  lemma {:induction false} NeverRunsCancelled(s: State, steps: seq<Step>, i: nat)
    requires Start(s) && CanRun(s, steps) && Enabled(Run(s, steps), RunWork(i))
    ensures var t := Run(s, steps);
      var rec := t.reqs[t.workers[i].r];
      rec.work.Function? && rec.ran == 0 && rec.zeros == 0
  {
    StartInv(s);
    RunKeeps(s, steps);
    var t := Run(s, steps);
    assert WorkerOk(t, i, t.workers[i]);
    assert RecordOk(t, t.workers[i].r, t.reqs[t.workers[i].r]);
  }

  // Whenever loop->wq is not empty a wake-up of wq_async is outstanding.
  lemma {:induction false} NothingStranded(s: State, steps: seq<Step>, l: LoopId)
    requires Start(s) && CanRun(s, steps) && l in Run(s, steps).sides && Run(s, steps).sides[l].finished != []
    ensures var side := Run(s, steps).sides[l];
      || (WQ in side.async.pending && side.async.pending[WQ] && Async.WakeUpOutstanding(side.async, WQ))
      || StillSending(side)
      || (side.async.loop == Async.Calling(WQ) && side.drain.Entered?)
  {
    StartInv(s);
    RunKeeps(s, steps);
    assert LoopOk(Run(s, steps).sides[l]);
  }

  // idle_threads is exact, and a blocked worker is never needed: while one is blocked,
  // every queued item has an awakened worker on its way to it.
  lemma {:induction false} NoPoolWakeUpLost(s: State, steps: seq<Step>)
    requires Start(s) && CanRun(s, steps)
    ensures var t := Run(s, steps);
      && t.idle == multiset(t.workers)[Waiting] + multiset(t.workers)[Signalled]
      && (Waiting in t.workers ==> |t.pool| <= multiset(t.workers)[Signalled])
  {
    StartInv(s);
    RunKeeps(s, steps);
  }

  // -- Nothing is left undone --------------------------------------------------------------

  // What the holder of wq_mutex does next.
  ghost function HolderStep(l: LoopId, side: Side): Step
    requires !side.holder.Free? && CallOk(side)
  {
    match side.async.senders[CALL]
    case AtRead(_, _) => Notify(l, Async.SendRead(CALL))
    case AtCas(_, _) => Notify(l, Async.SendCas(CALL))
    case AtWrite(_, _) => Notify(l, Async.SendWrite(CALL, false))
    case Returned(_, _) => if side.holder.ByWorker? then Release(side.holder.i) else CancelReturn(l)
  }

  lemma {:induction false} HolderMoves(s: State, l: LoopId)
    requires l in s.sides && LoopOk(s.sides[l]) && SideOk(s, l, s.sides[l]) && !s.sides[l].holder.Free?
    ensures Internal(HolderStep(l, s.sides[l])) && Enabled(s, HolderStep(l, s.sides[l]))
  {}

  lemma {:induction false} FreeCanInsert(side: Side)
    requires LoopOk(side) && side.holder.Free?
    ensures CanInsert(side)
  {}

  // What the thread of a loop does next outside of poll.
  ghost function CancelStep(l: LoopId, side: Side): Step {
    if side.cancel.Unlinked? then CancelMark(l) else if side.cancel.Marked? then CancelInsert(l) else CancelReturn(l)
  }

  ghost function PassStep(l: LoopId, side: Side): Step {
    match side.drain
    case Entered => DoneMove(l)
    case Draining => if side.batch == [] then DoneEnd(l) else DoneTake(l)
    case InDone(_) => DoneReturn(l)
    case Outside =>
      match side.async.loop
      case Polling => Notify(l, Async.ReadFd)
      case Reading => Notify(l, Async.ReadFd)
      case Drained => Notify(l, Async.MoveHandles)
      case Passing => Notify(l, if side.async.queue == [] then Async.EndPass else Async.TakeHandle)
      case Testing(_) => Notify(l, Async.TestHandle)
      case Calling(_) => Notify(l, Async.CallbackReturns)
  }

  lemma {:induction false} CancelMoves(s: State, l: LoopId)
    requires l in s.sides && LoopOk(s.sides[l]) && SideOk(s, l, s.sides[l]) && s.sides[l].holder.Free?
    requires !s.sides[l].cancel.NoCancel?
    ensures Internal(CancelStep(l, s.sides[l])) && Enabled(s, CancelStep(l, s.sides[l]))
  {
    FreeCanInsert(s.sides[l]);
  }

  lemma {:induction false} PassMoves(s: State, l: LoopId)
    requires l in s.sides && LoopOk(s.sides[l]) && SideOk(s, l, s.sides[l]) && s.sides[l].holder.Free?
    requires s.sides[l].cancel.NoCancel? && (s.sides[l].async.loop.Polling? ==> s.sides[l].async.fd > 0)
    ensures Internal(PassStep(l, s.sides[l])) && Enabled(s, PassStep(l, s.sides[l]))
  {
    var side := s.sides[l];
    assert side.batch != [] ==> side.batch[0] in side.batch && OnLoopOf(s, l, side.batch[0]);
  }

  // A loop at rest waits in poll, with nothing to read and nothing to deliver.
  lemma {:induction false} RestLoop(s: State, l: LoopId)
    requires AtRest(s) && l in s.sides && LoopOk(s.sides[l]) && SideOk(s, l, s.sides[l])
    ensures var side := s.sides[l];
      && side.holder.Free? && side.cancel.NoCancel? && side.async.loop.Polling? && side.async.fd == 0
      && side.batch == [] && side.finished == []
  {
    var side := s.sides[l];
    if !side.holder.Free? {
      HolderMoves(s, l);
    } else if !side.cancel.NoCancel? {
      CancelMoves(s, l);
    } else if !side.async.loop.Polling? || side.async.fd > 0 {
      PassMoves(s, l);
    } else if side.finished != [] {
      assert Async.WakeUpOutstanding(side.async, WQ);
      var t :| t in side.async.senders && side.async.senders[t].AtWrite?;
      assert Enabled(s, Notify(l, Async.SendWrite(t, false)));
    }
  }

  ghost function WorkerStep(s: State, i: nat, j: nat): Step
    requires i < |s.workers|
  {
    if s.workers[i].Taken? then RunWork(i) else if s.workers[i].Ran? then Complete(i) else Lock(i, j)
  }

  lemma {:induction false} WorkerMoves(s: State, i: nat) returns (j: nat)
    requires Tracked(s) && LoopsOk(s) && i < |s.workers|
    requires forall l :: l in s.sides ==> s.sides[l].holder.Free?
    requires !s.workers[i].Waiting? && !s.workers[i].Exited?
    ensures Internal(WorkerStep(s, i, j)) && Enabled(s, WorkerStep(s, i, j))
  {
    var w := s.workers[i];
    assert WorkerOk(s, i, w);
    j := 0;
    if exists k :: 0 <= k < |s.workers| && s.workers[k].Waiting? {
      j :| 0 <= j < |s.workers| && s.workers[j].Waiting?;
    }
    if w.Ran? {
      assert RecordOk(s, w.r, s.reqs[w.r]);
      FreeCanInsert(s.sides[s.reqs[w.r].owner]);
    } else if w.Starting? || w.Signalled? {
      assert s.pool != [] && s.pool[0].Work? ==> s.pool[0] in s.pool && ItemOk(s, s.pool[0].r);
    }
  }

  // When nothing can move, every loop is idle and every worker is blocked or gone, and
  // blocked only if the queue is empty.
  lemma {:induction false} RestIsIdle(s: State)
    requires Inv(s) && AtRest(s)
    ensures forall l :: l in s.sides ==> var side := s.sides[l];
      side.holder.Free? && side.cancel.NoCancel? && side.batch == [] && side.finished == []
    ensures forall i :: 0 <= i < |s.workers| ==> s.workers[i].Exited? || (s.workers[i].Waiting? && s.pool == [])
  {
    forall l | l in s.sides
      ensures s.sides[l].holder.Free? && s.sides[l].cancel.NoCancel? && s.sides[l].batch == []
        && s.sides[l].finished == []
    {
      assert LoopOk(s.sides[l]) && SideOk(s, l, s.sides[l]);
      RestLoop(s, l);
    }
    forall i | 0 <= i < |s.workers| ensures s.workers[i].Exited? || s.workers[i].Waiting? {
      if !s.workers[i].Exited? && !s.workers[i].Waiting? {
        var j := WorkerMoves(s, i);
      }
    }
    assert Signalled in s.workers <==> Signalled in multiset(s.workers);
  }

  lemma {:induction false} RestRecord(s: State, r: Req)
    requires r in s.reqs && RecordOk(s, r, s.reqs[r]) && s.pool == []
    requires forall i :: 0 <= i < |s.workers| ==> s.workers[i].Exited? || s.workers[i].Waiting?
    requires forall l :: l in s.sides ==> var side := s.sides[l];
      side.cancel.NoCancel? && side.batch == [] && side.finished == []
    ensures |s.reqs[r].done| == 1
  {}

  lemma {:induction false} RestDone(s: State, r: Req)
    requires Inv(s) && AtRest(s) && s.workers != [] && ExitMessage !in s.pool && r in s.reqs
    ensures |s.reqs[r].done| == 1
  {
    RestIsIdle(s);
    assert s.workers[0] in s.workers;
    assert RecordOk(s, r, s.reqs[r]);
    RestRecord(s, r);
  }

  // A run can only come to rest with every submitted request done, unless the pool was
  // told to exit.
  lemma {:induction false} AllDoneAtRest(s: State, steps: seq<Step>, r: Req)
    requires Start(s) && CanRun(s, steps) && AtRest(Run(s, steps))
    requires ExitMessage !in Run(s, steps).pool && r in Run(s, steps).reqs
    ensures |Run(s, steps).reqs[r].done| == 1
  {
    StartInv(s);
    RunKeeps(s, steps);
    hide *;
    RestDone(Run(s, steps), r);
  }

  // Once the exit message is posted, a run can only come to rest with every worker gone.
  lemma {:induction false} AllExitAtRest(s: State, steps: seq<Step>, i: nat)
    requires Start(s) && CanRun(s, steps) && AtRest(Run(s, steps))
    requires ExitMessage in Run(s, steps).pool && i < |Run(s, steps).workers|
    ensures Run(s, steps).workers[i].Exited?
  {
    StartInv(s);
    RunKeeps(s, steps);
    RestIsIdle(Run(s, steps));
  }
}
