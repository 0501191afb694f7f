/** The write side of a stream (src/unix/stream.cpp:112-152, 370-604, 924-1139,
1201-1232).

Requests are numbered in the order of their submission. Answers of the kernel come from
outside: the number of bytes it took, EAGAIN, or another error.
*/
module Stream {
  import opened StreamModel

  const EBADF: int := -9
  const ECANCELED: int := -125

  class Stream {
    var fd: int
    var connecting: bool     // connect_req is set
    var blocking: bool       // UV_STREAM_BLOCKING
    var pollout: bool        // the watcher waits for POLLOUT
    var fed: bool            // uv__io_feed: the watcher's callback is due
    var w: WriteSide         // the queues, the requests and write_queue_size
    var answered: seq<int>   // the statuses connect callbacks were given

    // The watcher of a closed stream is stopped.
    ghost predicate Valid()
      reads this
    {
      Ok(w) && (fd < 0 ==> !pollout && !fed)
    }

    // Requests in the queue are waiting for the socket, or the watcher's callback is due, or the
    // stream is closed and they wait for it to be destroyed.
    ghost predicate Waits()
      reads this
    {
      fd >= 0 ==> (w.queue != [] ==> pollout || fed) && (connecting ==> pollout)
    }

    // uv__stream_init, on an open descriptor.
    constructor (isBlocking: bool, isConnecting: bool)
      ensures Valid() && Waits() && fd == 0 && blocking == isBlocking && connecting == isConnecting
      ensures w.queue == [] && w.completed == [] && w.called == [] && w.size == 0 && answered == []
    {
      fd, connecting, blocking, pollout, fed, answered := 0, isConnecting, isBlocking, isConnecting, false, [];
      w := Empty();
      new;
      EmptyIs();
      hide Empty, Ok;
      EmptyOk(w);
    }

    // Took n bytes of the first request in the queue (lines 519-563).
    method Take(n: nat) returns (done: bool)
      requires Valid() && w.queue != [] && n <= |HeadRest(w)|
      modifies this`w
      ensures done <==> n == |HeadRest(old(w))|
      ensures old(w).queue[0] in w.reqs && n <= old(w).size && old(w).queue[0] in old(w).reqs
      ensures w == Sent(old(w), n, w.reqs[old(w).queue[0]])
      ensures var req := w.reqs[old(w).queue[0]];
        && Rest(req) == HeadRest(old(w))[n..] && !req.freed && req.error == 0 && req.index <= |req.bufs|
        && (done <==> req.index == |req.bufs|)
    {
      HeadQueued(w);
      var r := w.queue[0];
      var req, size;
      req, size, done := Advance(w.reqs[r], w.size, n);
      w := w.(reqs := w.reqs[r := req], size := size, wire := w.wire + Tagged(r, Rest(w.reqs[r])[..n]));
    }

    // uv__write_req_finish of the first request in the queue.
    method Finish(error: int)
      requires w.queue != [] && w.queue[0] in w.reqs
      modifies this`w, this`fed
      ensures w == Ended(old(w), error) && fed
    {
      var r := w.queue[0];
      w := w.(queue := w.queue[1..]);
      w := w.(reqs := w.reqs[r := w.reqs[r].(error := error, freed := error == 0)]);
      w := w.(completed := w.completed + [r]);
      fed := true;
    }

    // Lines 518-564.
    method Took(n: nat) returns (again: bool)
      requires Valid() && fd >= 0 && w.queue != [] && n <= |HeadRest(w)|
      modifies this`w, this`fed, this`pollout
      ensures Valid() && (again ==> blocking && w.queue == old(w).queue) && (w.queue == [] || pollout || fed || again)
      ensures TookHead(old(w), w, n) && (old(fed) ==> fed) && (|w.queue| < |old(w).queue| <==> n == |HeadRest(old(w))|)
      ensures Verdict(old(w), w, n, 0)
    {
      ghost var v := w;
      var done := Take(n);
      ghost var r := v.queue[0];
      TookSome(v, n, w.reqs[r]);
      if done {
        Finish(0);
        return false;
      } else if blocking {
        return true;
      }
      pollout := true;
      return false;
    }

    // One pass of uv__write from its label; `answer` is what the kernel says, at most what it
    // was offered. The result tells whether uv__write goes back to the label.
    method Write1(answer: int, iovmax: nat) returns (again: bool)
      requires Valid() && fd >= 0 && !connecting && iovmax > 0
      modifies this`w, this`fed, this`pollout
      ensures Valid() && (again ==> blocking && w.queue == old(w).queue) && (w.queue == [] || pollout || fed || again)
      ensures Pass(old(w), w, answer, iovmax) && (old(fed) ==> fed) && (answer < 0 && answer != EAGAIN ==> !again)
    {
      hide Ok, Rest, Offered, TookHead, Ended, Verdict, Pass;
      if w.queue == [] {
        IdlePass(w, answer, iovmax);
        return false;
      }
      HeadQueued(w);
      if answer < 0 {
        if answer != EAGAIN {
          FailedPass(w, answer, iovmax);
          Finish(answer);
          pollout := false;
          return false;
        }
        IdlePass(w, answer, iovmax);
        if blocking {
          return true;
        }
        pollout := true;
        return false;
      }
      again := Write2(answer, iovmax);
    }

    // The kernel took bytes.
    method Write2(answer: nat, iovmax: nat) returns (again: bool)
      requires Valid() && fd >= 0 && w.queue != []
      modifies this`w, this`fed, this`pollout
      ensures Valid() && (again ==> blocking && w.queue == old(w).queue) && (w.queue == [] || pollout || fed || again)
      ensures Pass(old(w), w, answer, iovmax) && (old(fed) ==> fed)
    {
      hide Ok, Rest, Offered, TookHead, Verdict;
      HeadQueued(w);
      OfferedRest(w.reqs[w.queue[0]], iovmax);
      var offered := |Offered(w.reqs[w.queue[0]], iovmax)|;
      again := Took(if answer > offered then offered else answer);
    }

    // uv__write. The answers are what the kernel says in turn; a blocking stream keeps trying
    // for as long as they last, and has not returned when they run out. `trace` has the states
    // between the passes.
    method Write(answers: seq<int>, iovmax: nat)
      returns (returned: bool, ghost n: nat, ghost error: int, ghost trace: seq<WriteSide>)
      requires Valid() && fd >= 0 && !connecting && iovmax > 0 && answers != []
      modifies this`w, this`fed, this`pollout
      ensures Valid() && (returned || blocking) && (returned && w.queue != [] ==> pollout || fed)
      ensures TookHead(old(w), w, n) && Verdict(old(w), w, n, error) && (old(fed) ==> fed)
      ensures Passes(trace, answers, iovmax) && trace[0] == old(w) && trace[|trace| - 1] == w && |trace| > 1
      ensures (!blocking ==> |trace| == 2) && (!returned ==> |trace| == |answers| + 1)
      ensures error == if answers[|trace| - 2] < 0 then answers[|trace| - 2] else 0
      ensures answers[0] < 0 && answers[0] != EAGAIN ==> |trace| == 2 && returned && n == 0
    {
      hide *;
      var i, again := 0, true;
      n, error, trace := 0, 0, [w];
      TookNothing(w);
      VerdictNothing(w, 0);
      PassesNone(w, answers, iovmax);
      while again && i < |answers|
        invariant Valid() && 0 <= i <= |answers| && (again ==> w.queue == old(w).queue)
        invariant (again ==> i == 0 || blocking) && (!again && w.queue != [] ==> pollout || fed)
        invariant TookHead(old(w), w, n) && Verdict(old(w), w, n, error) && (old(fed) ==> fed)
        invariant Passes(trace, answers, iovmax) && |trace| == i + 1 && trace[0] == old(w) && trace[i] == w
        invariant i > 0 ==> error == if answers[i - 1] < 0 then answers[i - 1] else 0
        invariant i > 1 ==> blocking && !(answers[0] < 0 && answers[0] != EAGAIN)
        invariant (i == 0 ==> again) && (i > 0 && answers[0] < 0 && answers[0] != EAGAIN ==> !again && n == 0)
      {
        ghost var v := w;
        again := Write1(answers[i], iovmax);
        ghost var m, e := Accepted(v, answers[i], iovmax), if answers[i] < 0 then answers[i] else 0;
        PassTook(v, w, answers[i], iovmax);
        NoneAccepted(v, answers[i], iovmax);
        TookMore(old(w), v, w, n, m);
        VerdictMore(old(w), v, w, n, m, error, e);
        PassesMore(trace, w, answers, iovmax);
        n, error, trace := n + m, e, trace + [w];
        i := i + 1;
      }
      returned := !again;
    }

    // Lines 1028-1049.
    method Enqueue(bufs: seq<seq<Byte>>)
      requires Valid() && bufs != []
      modifies this`w
      ensures Valid() && w == Added(old(w), bufs) && Row(w) == Row(old(w)) + [old(w).next]
    {
      AddedOk(w, bufs);
      AddedIs(w, bufs);
      hide *;
      var r := w.next;
      w := w.(reqs := w.reqs[r := WriteReq(bufs, 0, 0, false)], data := w.data[r := Flat(bufs)], next := r + 1,
              size := w.size + |Flat(bufs)|, queue := w.queue + [r]);
    }

    // uv_write2 without a handle to send. `trace` has the states between the passes of uv__write,
    // which is called just if nothing was owed and the stream is connected.
    method Submit(bufs: seq<seq<Byte>>, answers: seq<int>, iovmax: nat)
      returns (end: Outcome, ghost n: nat, ghost error: int, ghost trace: seq<WriteSide>)
      requires Valid() && bufs != [] && iovmax > 0 && answers != []
      modifies this`w, this`fed, this`pollout
      ensures Valid() && (end.Returned? ==> end.err == if fd < 0 then EBADF else 0)
      ensures end.Returned? && old(Waits()) ==> Waits()
      ensures fd < 0 ==> end.Returned? && w == old(w)
      ensures fd >= 0 ==> TookHead(Added(old(w), bufs), w, n) && Row(w) == Row(old(w)) + [old(w).next]
      ensures fd >= 0 ==> Verdict(Added(old(w), bufs), w, n, error)
      ensures fd >= 0 ==> Attempt(Added(old(w), bufs), w, trace, answers, iovmax, !connecting && old(w).size == 0)
      ensures fd >= 0 && !connecting && old(w).size == 0 ==>
        && (!blocking ==> |trace| == 2) && (end.Stuck? ==> |trace| == |answers| + 1)
        && error == if answers[|trace| - 2] < 0 then answers[|trace| - 2] else 0
      ensures end.Aborted? <==> fd >= 0 && blocking && !connecting && old(w).size != 0
      ensures (end.Stuck? ==> blocking) && (old(fed) ==> fed)
      ensures answers[0] < 0 && answers[0] != EAGAIN ==> !end.Stuck? && n == 0
    {
      hide Ok, Row, Rest, Of, TookHead, Flat, Added, Verdict, Passes;
      n, error, trace := 0, 0, [w];
      if fd < 0 {
        return Returned(EBADF), n, error, trace;
      }
      var emptyQueue := w.size == 0;
      Enqueue(bufs);
      TookNothing(w);
      VerdictNothing(w, 0);
      PassesNone(w, answers, iovmax);
      trace := [w];
      if connecting {
        return Returned(0), n, error, trace;
      } else if emptyQueue {
        ghost var v := w;
        var returned;
        returned, n, error, trace := Write(answers, iovmax);
        TookRow(v, w, n);
        return if returned then Returned(0) else Stuck, n, error, trace;
      } else if blocking {
        return Aborted, n, error, trace;
      }
      pollout := true;
      return Returned(0), n, error, trace;
    }

    // uv_try_write. What the kernel takes at once is a first part of the data, reported by its
    // length; nothing stays queued or owed, and no callback is left due.
    method TryWrite(bufs: seq<seq<Byte>>, answers: seq<int>, iovmax: nat)
      returns (end: Outcome, ghost trace: seq<WriteSide>)
      requires Valid() && bufs != [] && iovmax > 0 && answers != []
      modifies this`w, this`fed, this`pollout
      ensures Valid() && !end.Aborted? && (end.Stuck? ==> blocking)
      ensures Grows(old(w), w) && w.called == old(w).called && (end.Returned? && old(Waits()) ==> Waits())
      ensures end.Returned? ==> Row(w) == Row(old(w)) && w.size == old(w).size
      ensures connecting || old(w).size != 0 ==> end == Returned(EAGAIN) && w == old(w)
      ensures !connecting && old(w).size == 0 && fd < 0 ==> end == Returned(EBADF) && w == old(w)
      ensures !connecting && old(w).size == 0 && fd >= 0 && end.Returned? ==>
        && Tried(w, old(w).next, Flat(bufs), end.err) && trace != []
        && var v := trace[|trace| - 1];
        && (v.queue != [] || v.completed != []) && w == Withdrawn(v)
        && Attempt(Added(old(w), bufs), v, trace, answers, iovmax, true) && (!blocking ==> |trace| == 2)
    {
      hide Ok, Row, Rest, Of, Withdrawn, TookHead, Tried, Flat, Added, Grows, Verdict, Passes;
      GrowsNothing(w);
      trace := [];
      if connecting || w.size != 0 {
        return Returned(EAGAIN), trace;
      }
      var hasPollout, r := pollout, w.next;
      ghost var v0, n, error := w, 0, 0;
      OkFifo(w);
      end, n, error, trace := Submit(bufs, answers, iovmax);
      if fd < 0 {
        return;
      }
      SubmitGrows(v0, bufs, w, n, error);
      if end != Returned(0) {
        return;
      }
      ghost var v := w;
      TriedOk(v0, v, bufs, n);
      TriedEnds(v0, v, r, Flat(bufs));
      var written := |Flat(bufs)|;
      var reqSize := Withdraw(r);
      TookTold(v0, bufs, v, n);
      WithdrawnGrows(v0, v, w);
      written := written - reqSize;
      if !hasPollout {
        pollout := false;
      }
      return Returned(if written == 0 && reqSize != 0 then EAGAIN else written), trace;
    }

    // Lines 1113-1127: takes the request last submitted out of whatever queue has it.
    method Withdraw(r: nat) returns (reqSize: nat)
      requires Valid() && r in w.reqs && (w.reqs[r].freed || |Rest(w.reqs[r])| <= w.size)
      requires if w.queue != [] then w.queue[|w.queue| - 1] == r
        else w.completed != [] && w.completed[|w.completed| - 1] == r
      modifies this`w
      ensures Valid() && w == Withdrawn(old(w)) && |Row(old(w))| > 0 && Row(w) == Row(old(w))[..|Row(old(w))| - 1]
      ensures reqSize == if old(w).reqs[r].freed then 0 else |Rest(old(w).reqs[r])|
    {
      hide Ok, Row;
      WithdrawnOk(w);
      reqSize := if w.reqs[r].freed then 0 else |Rest(w.reqs[r])|;
      w := w.(size := w.size - reqSize);
      if w.queue != [] {
        w := w.(queue := w.queue[..|w.queue| - 1]);
      } else {
        w := w.(completed := w.completed[..|w.completed| - 1]);
      }
    }

    // One turn of uv__write_callbacks: the request and the status its callback gets. It was
    // written in full if the status is 0, and otherwise some first part of it was.
    method Pop() returns (r: nat, status: int)
      requires Valid() && w.completed != []
      modifies this`w
      ensures Valid() && old(w).completed[0] in old(w).reqs && w == Popped(old(w)) && Row(w) == Row(old(w))
      ensures r == old(w).completed[0] && status == old(w).reqs[r].error
      ensures r in w.data && if status == 0 then Of(w.wire, r) == w.data[r] else Of(w.wire, r) <= w.data[r]
    {
      PoppedOk(w);
      PoppedStatus(w);
      hide Ok, Row, Rest, Of, Finished;
      r := w.completed[0];
      status := w.reqs[r].error;
      w := w.(completed := w.completed[1..], called := w.called + [r], told := w.told + [status]);
      if !w.reqs[r].freed {
        w := w.(size := w.size - |Rest(w.reqs[r])|);
      }
      w := w.(reqs := w.reqs[r := w.reqs[r].(freed := true)]);
    }

    // uv__stream_close
    method Close()
      requires Valid()
      modifies this`fd, this`fed, this`pollout
      ensures Valid() && Waits() && fd < 0
    {
      pollout, fed := false, false;
      if fd != -1 {
        fd := -1;
      }
    }

    // A call made by a callback.
    method Do(c: UserCall, iovmax: nat) returns (end: Outcome)
      requires Valid() && iovmax > 0 && Legal(c)
      modifies this`fd, this`w, this`fed, this`pollout
      ensures Valid() && Grows(old(w), w) && w.called == old(w).called && (!end.Returned? ==> blocking)
      ensures (end.Returned? && old(Waits()) ==> Waits()) && (old(fd) < 0 ==> fd < 0 && w == old(w) && end.Returned?)
      ensures end.Returned? && old(fd) >= 0 ==>
        Payload(w) == Payload(old(w)) + Submitted([c]) && (fd < 0 <==> c.Closing?)
    {
      OkFifo(w);
      SubmittedOne(c);
      hide Ok, Grows, Row, TookHead, Added, Tried, Flat, Verdict, Passes, Attempt, Withdrawn, Fifo, Payload, Submitted;
      GrowsNothing(w);
      assert Payload(w) + [] == Payload(w);
      match c
      case Writing(bufs, answers) =>
        ghost var n, error, trace;
        end, n, error, trace := Submit(bufs, answers, iovmax);
        if fd >= 0 {
          SubmitGrows(old(w), bufs, w, n, error);
          PayloadMore(old(w), bufs, w, n);
        }
      case Trying(bufs, answers) =>
        ghost var trace;
        end, trace := TryWrite(bufs, answers, iovmax);
        if end.Returned? {
          PayloadSame(old(w), w);
        }
      case Closing =>
        Close();
        end := Returned(0);
    }

    // User code in a callback writes, tries to write and closes the stream, until one of the
    // calls does not return. What it writes before it closes the stream joins the row.
    method Callback(plan: seq<UserCall>, iovmax: nat) returns (end: Outcome)
      requires Valid() && iovmax > 0 && forall i :: 0 <= i < |plan| ==> Legal(plan[i])
      modifies this`fd, this`w, this`fed, this`pollout
      ensures Valid() && Grows(old(w), w) && w.called == old(w).called && (!end.Returned? ==> blocking)
      ensures (end.Returned? && old(Waits()) ==> Waits()) && (old(fd) < 0 ==> fd < 0 && w == old(w) && end.Returned?)
      ensures end.Returned? && old(fd) >= 0 ==>
        Payload(w) == Payload(old(w)) + Submitted(plan) && (fd < 0 <==> Closing in plan)
    {
      hide *;
      end := Returned(0);
      GrowsNothing(w);
      assert plan[0..] == plan && plan[..0] == [];
      for i := 0 to |plan|
        invariant Valid() && Grows(old(w), w) && w.called == old(w).called && end.Returned?
        invariant (old(Waits()) ==> Waits()) && (old(fd) < 0 ==> fd < 0 && w == old(w))
        invariant old(fd) >= 0 ==> (fd < 0 <==> Closing in plan[..i])
        invariant old(fd) >= 0 ==>
          Payload(w) + (if fd >= 0 then Submitted(plan[i..]) else []) == Payload(old(w)) + Submitted(plan)
      {
        ghost var v, was := w, fd;
        end := Do(plan[i], iovmax);
        GrowsOn(old(w), v, w);
        if !end.Returned? {
          return;
        }
        SubmittedNext(plan, i);
        assert plan[..i + 1] == plan[..i] + [plan[i]];
        if was >= 0 && old(fd) >= 0 {
          Joins(Payload(v), Submitted([plan[i]]), if fd >= 0 then Submitted(plan[i + 1..]) else []);
        }
      }
      assert plan[..|plan|] == plan;
      SubmittedNone(plan[|plan|..]);
      assert Payload(w) + [] == Payload(w);
    }

    // uv__write_callbacks. What a callback submits may be written at once and then has its own
    // callback in the same loop, and what it tries to write is taken back out of the queue being
    // drained. Callbacks come in the order of submission, each with the status recorded for its
    // request, and in the end none is due for a completed request. What callbacks write joins the
    // row in order; the plans of callbacks not made are left over. A callback that breaks an
    // assertion or never returns, which needs a blocking stream, ends the run. On a closed stream
    // callbacks add nothing.
    method WriteCallbacks(plans: seq<seq<UserCall>>, iovmax: nat) returns (end: Outcome)
      requires Valid() && iovmax > 0
      requires forall i, j :: 0 <= i < |plans| && 0 <= j < |plans[i]| ==> Legal(plans[i][j])
      modifies this`fd, this`w, this`fed, this`pollout
      ensures Valid() && Grows(old(w), w) && (if end.Returned? then w.completed == [] else blocking)
      ensures end.Returned? ==> old(w).called + old(w).completed <= w.called && Told(old(w)) <= w.told
      ensures end.Returned? && old(Waits()) ==> Waits()
      ensures old(fd) < 0 ==> fd < 0 && end.Returned? && Drained(old(w), w)
      ensures end.Returned? ==>
        var calls := |w.called| - |old(w).called|;
        Payload(w) + Left(if calls < |plans| then plans[calls..] else []) == Payload(old(w)) + old(Left(plans))
    {
      hide Ok, Grows, Row, Drained, Popped, Legal, Told, Fifo, Payload, Submitted, Chained;
      var i := 0;
      end := Returned(0);
      GrowsNothing(w);
      DrainedNothing(w);
      assert plans[0..] == plans;
      ghost var calls := 0;
      while w.completed != []
        invariant Valid() && 0 <= i <= |plans| && Grows(old(w), w) && end.Returned?
        invariant (old(Waits()) ==> Waits()) && (old(fd) < 0 ==> fd < 0 && Drained(old(w), w))
        invariant |w.called| == |old(w).called| + calls && i == if calls < |plans| then calls else |plans|
        invariant Payload(w) + Left(plans[i..]) == Payload(old(w)) + old(Left(plans))
        decreases |plans| - i, |w.completed|
      {
        ghost var v := w;
        OkFifo(v);
        var r, status := Pop();
        PoppedGrows(v);
        PoppedShape(v);
        PayloadSame(v, w);
        GrowsOn(old(w), v, w);
        calls := calls + 1;
        if old(fd) < 0 {
          DrainedPop(old(w), v);
        }
        if i < |plans| {
          v := w;
          ghost var was := fd;
          end := Callback(plans[i], iovmax);
          GrowsOn(old(w), v, w);
          if !end.Returned? {
            return;
          }
          NextPlan(v, was, plans, i);
          i := i + 1;
        }
      }
      GrowsAll(old(w), w);
      assert plans[|plans|..] == [];
    }

    // What the callbacks planned would write to the stream as it is.
    ghost function Left(plans: seq<seq<UserCall>>): seq<seq<Byte>>
      reads this`fd
    {
      if fd >= 0 then Submitted(Chained(plans)) else []
    }

    lemma {:induction false} NextPlan(v: WriteSide, was: int, plans: seq<seq<UserCall>>, i: nat)
      requires i < |plans| && (was < 0 ==> fd < 0 && w == v)
      requires was >= 0 ==> Payload(w) == Payload(v) + Submitted(plans[i]) && (fd < 0 <==> Closing in plans[i])
      ensures Payload(w) + Left(plans[i + 1..])
           == Payload(v) + (if was >= 0 then Submitted(Chained(plans[i..])) else [])
    {
      assert plans[i..][0] == plans[i] && plans[i..][1..] == plans[i + 1..];
      hide Payload, Submitted;
      SubmittedJoin(plans[i], Chained(plans[i + 1..]));
      Joins(Payload(v), Submitted(plans[i]), Left(plans[i + 1..]));
    }

    // One turn of uv__stream_flush_write_queue.
    method FlushOne(error: int)
      requires error != 0 && w.queue != [] && w.queue[0] in w.reqs && !w.reqs[w.queue[0]].freed
      modifies this`w
      ensures w == Ended(old(w), error)
    {
      var r := w.queue[0];
      w := w.(queue := w.queue[1..]);
      w := w.(reqs := w.reqs[r := w.reqs[r].(error := error)]);
      w := w.(completed := w.completed + [r]);
    }

    // uv__stream_flush_write_queue
    method Flush(error: int)
      requires Valid() && error != 0
      modifies this`w
      ensures Valid() && Flushed(old(w), w, |old(w).queue|, error) && w.queue == []
      ensures Grows(old(w), w) && Row(w) == Row(old(w)) && Told(w) == Told(old(w)) + Repeated(error, |old(w).queue|)
    {
      hide Ok, Rest, Flushed, Ended, Grows, Row, Told;
      ghost var k := 0;
      FlushedNothing(w, error);
      while w.queue != []
        invariant Valid() && Flushed(old(w), w, k, error)
        decreases |old(w).queue| - k
      {
        FailedOk(w, error);
        HeadQueued(w);
        FlushedMore(old(w), w, k, error);
        FlushOne(error);
        k := k + 1;
      }
      FlushedAll(old(w), w, k, error);
      FlushedGrows(old(w), w, error);
    }

    // uv__stream_io for a writable socket (lines 924-926).
    method Io(answers: seq<int>, plans: seq<seq<UserCall>>, iovmax: nat)
      returns (end: Outcome, ghost trace: seq<WriteSide>)
      requires Valid() && fd >= 0 && !connecting && iovmax > 0 && answers != []
      requires forall i, j :: 0 <= i < |plans| && 0 <= j < |plans[i]| ==> Legal(plans[i][j])
      modifies this`fd, this`w, this`fed, this`pollout
      ensures Valid() && Grows(old(w), w) && (if end.Returned? then Waits() && w.completed == [] else blocking)
      ensures Passes(trace, answers, iovmax) && |trace| > 1 && trace[0] == old(w) && (!blocking ==> |trace| == 2)
      ensures Grows(trace[|trace| - 1], w)
      ensures end.Returned? ==>
        var v := trace[|trace| - 1];
        && v.called + v.completed <= w.called && Told(v) <= w.told
        && var calls := |w.called| - |old(w).called|;
        Payload(w) + Left(if calls < |plans| then plans[calls..] else []) == Payload(old(w)) + old(Left(plans))
    {
      hide Ok, Grows, TookHead, Legal, Verdict, Passes, Told, Payload, Submitted, Chained;
      fed := false;
      ghost var v, n, error := w, 0, 0;
      var returned;
      returned, n, error, trace := Write(answers, iovmax);
      TookKeeps(v, w, n, error);
      GrowsNothing(w);
      if !returned {
        return Stuck, trace;
      }
      v := w;
      end := WriteCallbacks(plans, iovmax);
      GrowsOn(old(w), v, w);
    }

    // uv__stream_connect once the outcome is known: a failed connection fails everything that
    // was queued meanwhile. `mid` is the state after the connect callback.
    method Connected(error: int, plan: seq<UserCall>, plans: seq<seq<UserCall>>, iovmax: nat)
      returns (end: Outcome, ghost mid: WriteSide)
      requires Valid() && Waits() && connecting && iovmax > 0 && error <= 0
      requires forall i :: 0 <= i < |plan| ==> Legal(plan[i])
      requires forall i, j :: 0 <= i < |plans| && 0 <= j < |plans[i]| ==> Legal(plans[i][j])
      modifies this
      ensures Valid() && Grows(old(w), mid) && Grows(mid, w) && blocking == old(blocking) && !connecting
      ensures answered == old(answered) + [error]
      ensures end.Returned? && old(fd) >= 0 ==> Payload(mid) == Payload(old(w)) + Submitted(plan)
      ensures if end.Returned? then Waits() else blocking
      ensures end.Returned? && error < 0 && fd != -1 ==>
        w.completed == [] && Row(mid) <= w.called && Told(mid) + Repeated(ECANCELED, |mid.queue|) <= w.told
    {
      hide Ok, Grows, Row, Flushed, Legal, Told, Payload, Submitted;
      connecting := false;
      if error < 0 || w.queue == [] {
        pollout := false;
      }
      answered := answered + [error];
      end := Callback(plan, iovmax);
      mid := w;
      GrowsNothing(w);
      if !end.Returned? || fd == -1 || error == 0 {
        return;
      }
      Flush(ECANCELED);
      ghost var v := w;
      end := WriteCallbacks(plans, iovmax);
      if end.Returned? {
        FailedAll(mid, v, w);
      }
      GrowsOn(mid, v, w);
    }

    // uv__stream_destroy, some time after uv_close: what callbacks do to the closed stream changes
    // nothing. Every request still due has its callback, in order, with the error recorded for it or
    // else UV_ECANCELED, and the assertions at lines 128 and 151 hold.
    method Destroy(plan: seq<UserCall>, plans: seq<seq<UserCall>>, iovmax: nat)
      requires Valid() && fd < 0 && iovmax > 0 && forall i :: 0 <= i < |plan| ==> Legal(plan[i])
      requires forall i, j :: 0 <= i < |plans| && 0 <= j < |plans[i]| ==> Legal(plans[i][j])
      modifies this
      ensures Valid() && fd < 0 && !connecting && w.queue == [] && w.completed == []
      ensures w.called == Row(old(w)) && w.size == 0 && w.wire == old(w).wire && w.data == old(w).data
      ensures w.told == Told(old(w)) + Repeated(ECANCELED, |old(w).queue|)
      ensures answered == if old(connecting) then old(answered) + [ECANCELED] else old(answered)
    {
      hide Ok, Grows, Row, Flushed, Drained, Legal, Told;
      assert !pollout;
      if connecting {
        answered := answered + [ECANCELED];
        var _ := Callback(plan, iovmax);
        connecting := false;
      }
      Flush(ECANCELED);
      ghost var v := w;
      var _ := WriteCallbacks(plans, iovmax);
      DrainedAll(v, w);
      FlushedData(old(w), v, ECANCELED);
      assert w.size == 0;
    }
  }

  // How a call ends: with a result, by a failing assertion, or not at all.
  datatype Outcome = Returned(err: int) | Aborted | Stuck

  // A call made by a callback: uv_write, uv_try_write, with what the kernel answers to it, and
  // uv_close.
  datatype UserCall =
    | Writing(bufs: seq<seq<Byte>>, answers: seq<int>)
    | Trying(bufs: seq<seq<Byte>>, answers: seq<int>)
    | Closing

  // What a plan writes before it closes the stream.
  function Submitted(plan: seq<UserCall>): seq<seq<Byte>> {
    if plan == [] || plan[0].Closing? then []
    else (if plan[0].Writing? then [Flat(plan[0].bufs)] else []) + Submitted(plan[1..])
  }

  function Chained(plans: seq<seq<UserCall>>): seq<UserCall> {
    if plans == [] then [] else plans[0] + Chained(plans[1..])
  }

  lemma {:induction false} SubmittedNone(plan: seq<UserCall>)
    requires plan == []
    ensures Submitted(plan) == []
  {}

  lemma {:induction false} SubmittedOne(c: UserCall)
    ensures Submitted([c]) == if c.Writing? then [Flat(c.bufs)] else []
  {}

  lemma {:induction false} SubmittedNext(plan: seq<UserCall>, i: nat)
    requires i < |plan|
    ensures Submitted(plan[i..]) == Submitted([plan[i]]) + if plan[i].Closing? then [] else Submitted(plan[i + 1..])
  {
    assert plan[i..][0] == plan[i] && plan[i..][1..] == plan[i + 1..];
    SubmittedOne(plan[i]);
  }

  lemma {:induction false} SubmittedJoin(a: seq<UserCall>, b: seq<UserCall>)
    ensures Submitted(a + b) == Submitted(a) + if Closing in a then [] else Submitted(b)
  {
    if a == [] {
      assert a + b == b;
    } else {
      assert (a + b)[1..] == a[1..] + b && (Closing in a <==> a[0] == Closing || Closing in a[1..]);
      SubmittedJoin(a[1..], b);
    }
  }

  lemma {:induction false} Joins<T>(a: seq<T>, b: seq<T>, c: seq<T>)
    ensures a + b + c == a + (b + c)
  {}

  predicate Legal(c: UserCall) {
    c.Closing? || (c.bufs != [] && c.answers != [])
  }

  // The loop of lines 521-563: passes over n0 bytes of a request's buffers, and takes them
  // off write_queue_size.
  method Advance(req0: WriteReq, size0: nat, n0: nat) returns (req: WriteReq, size: nat, done: bool)
    requires req0.index < |req0.bufs| && n0 <= |Rest(req0)| && n0 <= size0
    ensures Rest(req) == Rest(req0)[n0..] && size == size0 - n0 && req.freed == req0.freed && req.error == req0.error
    ensures req.index <= |req.bufs| && (done <==> req.index == |req.bufs|) && (done <==> n0 == |Rest(req0)|)
  {
    var n: nat := n0;
    req, size := req0, size0;
    ghost var s, a: nat := Rest(req0), 0;
    assert s == s[0..];
    while true
      invariant req.index < |req.bufs| && req.freed == req0.freed && req.error == req0.error
      invariant a <= n0 <= |s| && n == n0 - a && size == size0 - a && Rest(req) == s[a..]
      decreases |req.bufs| - req.index
    {
      var buf := req.bufs[req.index];
      RestAdvance(req, s, a);
      if n < |buf| {
        RestCut(req, s, a, n);
        req := req.(bufs := req.bufs[req.index := buf[n..]]);
        size := size - n;
        return req, size, false;
      }
      req := req.(index := req.index + 1);
      n := n - |buf|;
      size := size - |buf|;
      a := a + |buf|;
      if req.index == |req.bufs| {
        return req, size, true;
      }
    }
  }

  // A write that fails leaves its bytes counted.
  method FailedWrite(s: Stream, bufs: seq<seq<Byte>>, error: int) returns (end: Outcome)
    requires s.Valid() && s.fd >= 0 && !s.connecting && s.w.size == 0
    requires bufs != [] && error < 0 && error != EAGAIN
    modifies s`w, s`fed, s`pollout
    ensures s.Valid() && end == Returned(0) && s.w.size == |Flat(bufs)|
  {
    hide *;
    ghost var v, n, e, trace := s.w, 0, 0, [];
    end, n, e, trace := s.Submit(bufs, [error], 1);
    Owes(v, s.w, bufs);
  }

  // The assertion at line 1067 can fail: on any idle blocking stream, a write that fails, which
  // returns, and another one before the callback of the first.
  method BlockingAborts(s: Stream, bufs: seq<seq<Byte>>, error: int) returns (first: Outcome, second: Outcome)
    requires s.Valid() && s.fd >= 0 && s.blocking && !s.connecting && s.w.size == 0
    requires bufs != [] && Flat(bufs) != [] && error < 0 && error != EAGAIN
    modifies s`w, s`fed, s`pollout
    ensures first == Returned(0) && second.Aborted?
  {
    hide *;
    first := FailedWrite(s, bufs, error);
    ghost var n, e, trace;
    second, n, e, trace := s.Submit(bufs, [error], 1);
  }

  lemma {:induction false} Owes(v0: WriteSide, v: WriteSide, bufs: seq<seq<Byte>>)
    requires TookHead(Added(v0, bufs), v, 0)
    ensures v.size == v0.size + |Flat(bufs)|
  {}
}
