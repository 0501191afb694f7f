/** What the write side of a stream accounts for (src/unix/stream.cpp), on values. */
module StreamModel {
  type Byte = x: int | 0 <= x < 0x100

  const EAGAIN: int := -11

  // A write request. Moving a buffer's base forward over bytes the kernel took drops them
  // from its content; `freed` says that req->bufs is NULL.
  datatype WriteReq = WriteReq(bufs: seq<seq<Byte>>, index: nat, error: int, freed: bool)

  function Flat(bufs: seq<seq<Byte>>): seq<Byte> {
    if bufs == [] then [] else bufs[0] + Flat(bufs[1..])
  }

  // The bytes of a request not yet taken by the kernel.
  function Rest(req: WriteReq): seq<Byte> {
    if req.index <= |req.bufs| then Flat(req.bufs[req.index..]) else []
  }

  lemma {:induction false} FlatJoin(a: seq<seq<Byte>>, b: seq<seq<Byte>>)
    ensures Flat(a + b) == Flat(a) + Flat(b)
  {
    if a == [] {
      assert a + b == b;
    } else {
      FlatJoin(a[1..], b);
      assert (a + b)[1..] == a[1..] + b;
      Associates(a[0], Flat(a[1..]), Flat(b));
    }
  }

  lemma {:induction false} Associates(x: seq<Byte>, y: seq<Byte>, z: seq<Byte>)
    ensures x + (y + z) == x + y + z
  {}

  lemma {:induction false} RestParts(req: WriteReq)
    requires req.index < |req.bufs|
    ensures Rest(req) == req.bufs[req.index] + Rest(req.(index := req.index + 1))
  {
    assert req.bufs[req.index..][1..] == req.bufs[req.index + 1..];
  }

  // Past the first buffer of what is left.
  lemma {:induction false} RestAdvance(req: WriteReq, s: seq<Byte>, a: nat)
    requires req.index < |req.bufs| && a <= |s| && Rest(req) == s[a..]
    ensures a + |req.bufs[req.index]| <= |s| && Rest(req.(index := req.index + 1)) == s[a + |req.bufs[req.index]|..]
    ensures req.index + 1 == |req.bufs| ==> a + |req.bufs[req.index]| == |s|
  {
    RestParts(req);
    var x, y := req.bufs[req.index], Rest(req.(index := req.index + 1));
    assert y == (x + y)[|x|..] == s[a..][|x|..] == s[a + |x|..];
    assert req.index + 1 == |req.bufs| ==> req.bufs[req.index + 1..] == [];
  }

  // Into the first buffer of what is left.
  lemma {:induction false} RestCut(req: WriteReq, s: seq<Byte>, a: nat, n: nat)
    requires req.index < |req.bufs| && n <= |req.bufs[req.index]| && a <= |s| && Rest(req) == s[a..]
    ensures a + n <= |s| && Rest(req.(bufs := req.bufs[req.index := req.bufs[req.index][n..]])) == s[a + n..]
  {
    RestParts(req);
    var x, y := req.bufs[req.index], Rest(req.(index := req.index + 1));
    RestParts(req.(bufs := req.bufs[req.index := x[n..]]));
    assert req.bufs[req.index := x[n..]][req.index + 1..] == req.bufs[req.index + 1..];
    assert x[n..] + y == (x + y)[n..] == s[a..][n..] == s[a + n..];
  }

  // What a row of requests owes to write_queue_size.
  function Owed(reqs: map<nat, WriteReq>, ids: seq<nat>): nat {
    if ids == [] then 0
    else
      var r := ids[|ids| - 1];
      Owed(reqs, ids[..|ids| - 1]) + if r in reqs && !reqs[r].freed then |Rest(reqs[r])| else 0
  }

  lemma {:induction false} OwedJoin(reqs: map<nat, WriteReq>, a: seq<nat>, b: seq<nat>)
    ensures Owed(reqs, a + b) == Owed(reqs, a) + Owed(reqs, b)
  {
    if b == [] {
      assert a + b == a;
    } else {
      hide Rest;
      OwedJoin(reqs, a, b[..|b| - 1]);
      assert (a + b)[..|a + b| - 1] == a + b[..|b| - 1] && (a + b)[|a + b| - 1] == b[|b| - 1];
    }
  }

  lemma {:induction false} OwedHead(reqs: map<nat, WriteReq>, ids: seq<nat>)
    requires ids != [] && ids[0] in reqs
    ensures Owed(reqs, ids) == (if reqs[ids[0]].freed then 0 else |Rest(reqs[ids[0]])|) + Owed(reqs, ids[1..])
  {
    assert ids == [ids[0]] + ids[1..] && [ids[0]][..0] == [];
    OwedJoin(reqs, [ids[0]], ids[1..]);
  }

  // The bytes of one request among those the kernel has taken, in order.
  function Of(wire: seq<(nat, Byte)>, r: nat): seq<Byte> {
    if wire == [] then []
    else
      var (q, b) := wire[|wire| - 1];
      Of(wire[..|wire| - 1], r) + if q == r then [b] else []
  }

  function Tagged(r: nat, data: seq<Byte>): (t: seq<(nat, Byte)>)
    ensures |t| == |data| && forall i :: 0 <= i < |t| ==> t[i] == (r, data[i])
  {
    seq(|data|, i requires 0 <= i < |data| => (r, data[i]))
  }

  lemma {:induction false} OfMore(wire: seq<(nat, Byte)>, r: nat, b: Byte, q: nat)
    ensures Of(wire + [(r, b)], q) == Of(wire, q) + if q == r then [b] else []
  {
    assert (wire + [(r, b)])[..|wire|] == wire;
  }

  lemma {:induction false} OfJoin(wire: seq<(nat, Byte)>, r: nat, data: seq<Byte>, q: nat)
    ensures Of(wire + Tagged(r, data), q) == Of(wire, q) + if q == r then data else []
  {
    if data == [] {
      assert wire + Tagged(r, data) == wire;
    } else {
      var front, b := data[..|data| - 1], data[|data| - 1];
      assert wire + Tagged(r, data) == wire + Tagged(r, front) + [(r, b)] && data == front + [b];
      hide *;
      OfJoin(wire, r, front, q);
      OfMore(wire + Tagged(r, front), r, b, q);
      Associates(Of(wire, q), front, [b]);
    }
  }

  ghost predicate Ascending(xs: seq<nat>) {
    forall i, j :: 0 <= i < j < |xs| ==> xs[i] < xs[j]
  }

  // Bytes of an earlier request never follow bytes of a later one.
  ghost predicate InTurn(wire: seq<(nat, Byte)>) {
    forall i, j :: 0 <= i < j < |wire| ==> wire[i].0 <= wire[j].0
  }

  // -- The state of a stream ----------------------------------------------------------------

  datatype WriteSide = WriteSide(
    called: seq<nat>,              // callbacks made
    told: seq<int>,                // the status each was given
    completed: seq<nat>,           // write_completed_queue
    queue: seq<nat>,               // write_queue
    reqs: map<nat, WriteReq>,
    data: map<nat, seq<Byte>>,     // what each request was submitted with
    wire: seq<(nat, Byte)>,        // bytes taken by the kernel
    size: nat,                     // write_queue_size
    next: nat)

  // A request the kernel has not taken all of: what it took and what is left are its data.
  ghost predicate Split(v: WriteSide, r: nat) {
    r in v.reqs && r in v.data && v.data[r] == Of(v.wire, r) + Rest(v.reqs[r])
  }

  ghost predicate Queued(v: WriteSide, r: nat) {
    Split(v, r) && !v.reqs[r].freed && v.reqs[r].error == 0 && v.reqs[r].index < |v.reqs[r].bufs|
  }

  // Written in full, or failed.
  ghost predicate Finished(v: WriteSide, r: nat) {
    && r in v.reqs && r in v.data
    && if v.reqs[r].error == 0 then v.reqs[r].freed && Of(v.wire, r) == v.data[r] else Split(v, r) && !v.reqs[r].freed
  }

  ghost predicate Contents(v: WriteSide) {
    && (forall i :: 0 <= i < |v.queue| ==> Queued(v, v.queue[i]))
    && (forall i :: 0 <= i < |v.completed| ==> Finished(v, v.completed[i]))
  }

  function Row(v: WriteSide): seq<nat> {
    v.called + v.completed + v.queue
  }

  // Requests leave in the order they came, each with a status.
  ghost predicate Fifo(v: WriteSide) {
    Ascending(Row(v)) && (forall i :: 0 <= i < |Row(v)| ==> Row(v)[i] < v.next) && |v.told| == |v.called|
  }

  // The errors recorded in a row of requests.
  function Errors(reqs: map<nat, WriteReq>, ids: seq<nat>): (r: seq<int>)
    ensures |r| == |ids| && forall i :: 0 <= i < |r| ==> r[i] == if ids[i] in reqs then reqs[ids[i]].error else 0
  {
    seq(|ids|, i requires 0 <= i < |ids| => if ids[i] in reqs then reqs[ids[i]].error else 0)
  }

  // The statuses given to callbacks, and those the completed requests have coming.
  function Told(v: WriteSide): seq<int> {
    v.told + Errors(v.reqs, v.completed)
  }

  // Nothing was taken of a request before those ahead of it were done with.
  ghost predicate Wired(v: WriteSide) {
    && InTurn(v.wire) && (forall i :: 0 <= i < |v.wire| ==> v.wire[i].0 < v.next)
    && (forall i, j :: 0 <= i < |v.wire| && 0 <= j < |v.queue| ==> v.wire[i].0 <= v.queue[j])
  }

  // write_queue_size counts the bytes left of queued and of failed requests.
  ghost predicate Counted(v: WriteSide) {
    v.size == Owed(v.reqs, v.completed) + Owed(v.reqs, v.queue)
  }

  ghost predicate Ok(v: WriteSide) {
    Counted(v) && Fifo(v) && Contents(v) && Wired(v)
  }

  // The first request of the queue is none of the others.
  lemma {:induction false} HeadApart(v: WriteSide)
    requires Fifo(v) && v.queue != []
    ensures v.queue[0] < v.next
    ensures forall i :: 0 <= i < |v.completed| ==> v.completed[i] < v.queue[0]
    ensures forall i :: 0 < i < |v.queue| ==> v.queue[0] < v.queue[i]
  {
    var n := |v.called| + |v.completed|;
    assert Row(v)[n] == v.queue[0];
    forall i | 0 <= i < |v.completed| ensures v.completed[i] < v.queue[0] {
      assert Row(v)[|v.called| + i] == v.completed[i];
    }
    forall i | 0 < i < |v.queue| ensures v.queue[0] < v.queue[i] {
      assert Row(v)[n + i] == v.queue[i];
    }
  }

  // The kernel takes the next n bytes of the first request in the queue.
  function Sent(v: WriteSide, n: nat, req: WriteReq): WriteSide
    requires v.queue != [] && v.queue[0] in v.reqs && n <= |Rest(v.reqs[v.queue[0]])| && n <= v.size
  {
    v.(reqs := v.reqs[v.queue[0] := req], size := v.size - n,
       wire := v.wire + Tagged(v.queue[0], Rest(v.reqs[v.queue[0]])[..n]))
  }

  lemma {:induction false} SentKeeps(v: WriteSide, n: nat, req: WriteReq, q: nat)
    requires v.queue != [] && v.queue[0] in v.reqs && n <= |Rest(v.reqs[v.queue[0]])| && n <= v.size && q != v.queue[0]
    ensures Queued(v, q) ==> Queued(Sent(v, n, req), q)
    ensures Finished(v, q) ==> Finished(Sent(v, n, req), q)
  {
    OfJoin(v.wire, v.queue[0], Rest(v.reqs[v.queue[0]])[..n], q);
    assert Of(v.wire, q) + [] == Of(v.wire, q);
    hide Of, Rest, Tagged;
  }

  lemma {:induction false} SentSplit(v: WriteSide, n: nat, req: WriteReq)
    requires v.queue != [] && Queued(v, v.queue[0]) && n <= |Rest(v.reqs[v.queue[0]])| && n <= v.size
    requires Rest(req) == Rest(v.reqs[v.queue[0]])[n..]
    ensures Split(Sent(v, n, req), v.queue[0])
  {
    var r := v.queue[0];
    var rest := Rest(v.reqs[r]);
    OfJoin(v.wire, r, rest[..n], r);
    Regroup(Of(v.wire, r), rest, n);
  }

  lemma {:induction false} Regroup(a: seq<Byte>, b: seq<Byte>, n: nat)
    requires n <= |b|
    ensures a + b[..n] + b[n..] == a + b
  {}

  lemma {:induction false} OwedOthers(reqs: map<nat, WriteReq>, ids: seq<nat>, r: nat, req: WriteReq)
    requires forall i :: 0 <= i < |ids| ==> ids[i] != r
    ensures Owed(reqs[r := req], ids) == Owed(reqs, ids)
  {
    if ids != [] {
      OwedOthers(reqs, ids[..|ids| - 1], r, req);
    }
  }

  lemma {:induction false} SentCounted(v: WriteSide, n: nat, req: WriteReq)
    requires Counted(v) && Fifo(v) && v.queue != [] && v.queue[0] in v.reqs && !v.reqs[v.queue[0]].freed && !req.freed
    requires n <= |Rest(v.reqs[v.queue[0]])| && n <= v.size && Rest(req) == Rest(v.reqs[v.queue[0]])[n..]
    ensures Counted(Sent(v, n, req))
  {
    HeadApart(v);
    OwedHead(v.reqs, v.queue);
    OwedHead(v.reqs[v.queue[0] := req], v.queue);
    OwedOthers(v.reqs, v.completed, v.queue[0], req);
    OwedOthers(v.reqs, v.queue[1..], v.queue[0], req);
  }

  // A part of the first request was taken.
  lemma {:induction false} SentOk(v: WriteSide, n: nat, req: WriteReq)
    requires Ok(v) && v.queue != [] && n <= |Rest(v.reqs[v.queue[0]])| && n <= v.size
    requires Rest(req) == Rest(v.reqs[v.queue[0]])[n..] && !req.freed && req.error == 0 && req.index <= |req.bufs|
    ensures var v' := Sent(v, n, req);
      Counted(v') && Fifo(v') && Wired(v') && Split(v', v'.queue[0]) && (req.index < |req.bufs| ==> Ok(v'))
    ensures forall i :: 0 < i < |v.queue| ==> Queued(Sent(v, n, req), v.queue[i])
    ensures forall i :: 0 <= i < |v.completed| ==> Finished(Sent(v, n, req), v.completed[i])
  {
    HeadApart(v);
    SentSplit(v, n, req);
    SentCounted(v, n, req);
    forall i | 0 < i < |v.queue| ensures Queued(Sent(v, n, req), v.queue[i]) {
      SentKeeps(v, n, req, v.queue[i]);
    }
    forall i | 0 <= i < |v.completed| ensures Finished(Sent(v, n, req), v.completed[i]) {
      SentKeeps(v, n, req, v.completed[i]);
    }
    SentWired(v, n, req);
  }

  lemma {:induction false} SentWired(v: WriteSide, n: nat, req: WriteReq)
    requires Fifo(v) && Wired(v) && v.queue != [] && v.queue[0] in v.reqs
    requires n <= |Rest(v.reqs[v.queue[0]])| && n <= v.size
    ensures Wired(Sent(v, n, req))
  {
    HeadApart(v);
  }

  // uv__write_req_finish of the first request, with an error or, if nothing of it is left,
  // without.
  function Ended(v: WriteSide, error: int): WriteSide
    requires v.queue != [] && v.queue[0] in v.reqs
  {
    var r := v.queue[0];
    v.(queue := v.queue[1..], completed := v.completed + [r],
       reqs := v.reqs[r := v.reqs[r].(error := error, freed := error == 0)])
  }

  lemma {:induction false} EndedOk(v: WriteSide, error: int)
    requires Counted(v) && Fifo(v) && Wired(v) && v.queue != [] && Split(v, v.queue[0]) && !v.reqs[v.queue[0]].freed
    requires forall i :: 0 < i < |v.queue| ==> Queued(v, v.queue[i])
    requires forall i :: 0 <= i < |v.completed| ==> Finished(v, v.completed[i])
    requires error == 0 ==> Rest(v.reqs[v.queue[0]]) == []
    ensures Ok(Ended(v, error))
  {
    EndedRow(v, error);
    EndedCounted(v, error);
    EndedContents(v, error);
  }

  lemma {:induction false} EndedRow(v: WriteSide, error: int)
    requires v.queue != [] && v.queue[0] in v.reqs
    ensures Row(Ended(v, error)) == Row(v)
  {
    assert v.called + (v.completed + [v.queue[0]]) + v.queue[1..] == v.called + v.completed + v.queue;
  }

  lemma {:induction false} EndedContents(v: WriteSide, error: int)
    requires Fifo(v) && v.queue != [] && Split(v, v.queue[0]) && !v.reqs[v.queue[0]].freed
    requires forall i :: 0 < i < |v.queue| ==> Queued(v, v.queue[i])
    requires forall i :: 0 <= i < |v.completed| ==> Finished(v, v.completed[i])
    requires error == 0 ==> Rest(v.reqs[v.queue[0]]) == []
    ensures Contents(Ended(v, error))
  {
    var v', r := Ended(v, error), v.queue[0];
    HeadApart(v);
    forall i | 0 <= i < |v'.completed| ensures Finished(v', v'.completed[i]) {
      if i < |v.completed| {
        assert v'.completed[i] == v.completed[i] && Finished(v, v.completed[i]);
      } else {
        assert Of(v.wire, r) + [] == Of(v.wire, r);
      }
    }
  }

  lemma {:induction false} EndedCounted(v: WriteSide, error: int)
    requires Counted(v) && Fifo(v) && v.queue != [] && v.queue[0] in v.reqs && !v.reqs[v.queue[0]].freed
    requires error == 0 ==> Rest(v.reqs[v.queue[0]]) == []
    ensures Counted(Ended(v, error))
  {
    var v', r := Ended(v, error), v.queue[0];
    HeadApart(v);
    assert Rest(v'.reqs[r]) == Rest(v.reqs[r]);
    OwedHead(v.reqs, v.queue);
    OwedOthers(v.reqs, v.completed, r, v'.reqs[r]);
    OwedOthers(v.reqs, v.queue[1..], r, v'.reqs[r]);
    hide Rest, Owed, Row, Fifo;
    OwedTail(v'.reqs, v.completed, r);
  }

  // uv__write_callbacks pops the first completed request and touches up the count.
  function Popped(v: WriteSide): WriteSide
    requires v.completed != [] && v.completed[0] in v.reqs
  {
    var r := v.completed[0];
    var owed := if v.reqs[r].freed then 0 else |Rest(v.reqs[r])|;
    v.(completed := v.completed[1..], called := v.called + [r], told := v.told + [v.reqs[r].error],
       size := if owed <= v.size then v.size - owed else 0,
       reqs := v.reqs[r := v.reqs[r].(freed := true)])
  }

  lemma {:induction false} PoppedOk(v: WriteSide)
    requires Ok(v) && v.completed != []
    ensures Finished(v, v.completed[0]) && Ok(Popped(v)) && Row(Popped(v)) == Row(v)
    ensures v.reqs[v.completed[0]].freed || |Rest(v.reqs[v.completed[0]])| <= v.size
  {
    var v', r := Popped(v), v.completed[0];
    assert Finished(v, r);
    assert Row(v') == Row(v);
    FirstApart(v);
    PoppedCounted(v);
    hide Of, Flat, Owed, Rest, Finished, Queued, Ascending;
    forall i | 0 <= i < |v'.completed| ensures Finished(v', v'.completed[i]) {
      assert v'.completed[i] == v.completed[i + 1] && Finished(v, v.completed[i + 1]);
      PoppedOther(v, v.completed[i + 1]);
    }
    forall i | 0 <= i < |v'.queue| ensures Queued(v', v'.queue[i]) {
      assert Queued(v, v.queue[i]);
      PoppedOther(v, v.queue[i]);
    }
  }

  lemma {:induction false} PoppedOther(v: WriteSide, q: nat)
    requires v.completed != [] && v.completed[0] in v.reqs && q != v.completed[0]
    ensures Finished(v, q) ==> Finished(Popped(v), q)
    ensures Queued(v, q) ==> Queued(Popped(v), q)
  {
    hide Of, Rest;
  }

  lemma {:induction false} PoppedCounted(v: WriteSide)
    requires Counted(v) && Fifo(v) && v.completed != [] && v.completed[0] in v.reqs
    ensures Counted(Popped(v)) && (v.reqs[v.completed[0]].freed || |Rest(v.reqs[v.completed[0]])| <= v.size)
  {
    var v', r := Popped(v), v.completed[0];
    FirstApart(v);
    OwedHead(v.reqs, v.completed);
    OwedOthers(v.reqs, v.completed[1..], r, v'.reqs[r]);
    OwedOthers(v.reqs, v.queue, r, v'.reqs[r]);
    hide Owed, Rest, Row, Fifo;
  }

  lemma {:induction false} FirstApart(v: WriteSide)
    requires Fifo(v) && v.completed != []
    ensures forall i :: 0 < i < |v.completed| ==> v.completed[0] < v.completed[i]
    ensures forall i :: 0 <= i < |v.queue| ==> v.completed[0] < v.queue[i]
  {
    assert Row(v)[|v.called|] == v.completed[0];
    forall i | 0 < i < |v.completed| ensures v.completed[0] < v.completed[i] {
      assert Row(v)[|v.called| + i] == v.completed[i];
    }
    forall i | 0 <= i < |v.queue| ensures v.completed[0] < v.queue[i] {
      assert Row(v)[|v.called| + |v.completed| + i] == v.queue[i];
    }
  }

  // uv_write2 appends a request.
  function Added(v: WriteSide, bufs: seq<seq<Byte>>): WriteSide {
    v.(queue := v.queue + [v.next], next := v.next + 1, size := v.size + |Flat(bufs)|,
       reqs := v.reqs[v.next := WriteReq(bufs, 0, 0, false)], data := v.data[v.next := Flat(bufs)])
  }

  lemma {:induction false} AddedIs(v: WriteSide, bufs: seq<seq<Byte>>)
    ensures Added(v, bufs)
         == v.(reqs := v.reqs[v.next := WriteReq(bufs, 0, 0, false)], data := v.data[v.next := Flat(bufs)],
               next := v.next + 1, size := v.size + |Flat(bufs)|, queue := v.queue + [v.next])
  {}

  lemma {:induction false} NotYet(wire: seq<(nat, Byte)>, r: nat)
    requires forall i :: 0 <= i < |wire| ==> wire[i].0 < r
    ensures Of(wire, r) == []
  {
    if wire != [] {
      NotYet(wire[..|wire| - 1], r);
    }
  }

  lemma {:induction false} AddedFifo(v: WriteSide, bufs: seq<seq<Byte>>)
    requires Fifo(v) && Wired(v)
    ensures Row(Added(v, bufs)) == Row(v) + [v.next] && Fifo(Added(v, bufs)) && Wired(Added(v, bufs))
  {
    assert v.called + v.completed + (v.queue + [v.next]) == v.called + v.completed + v.queue + [v.next];
  }

  lemma {:induction false} AddedContents(v: WriteSide, bufs: seq<seq<Byte>>)
    requires Contents(v) && Fifo(v) && Wired(v) && bufs != []
    ensures Contents(Added(v, bufs))
  {
    var v', r := Added(v, bufs), v.next;
    assert bufs[0..] == bufs && [] + Flat(bufs) == Flat(bufs);
    NotYet(v.wire, r);
    RowParts(v);
    forall i | 0 <= i < |v'.completed| ensures Finished(v', v'.completed[i]) {
      assert Finished(v, v.completed[i]);
    }
    forall i | 0 <= i < |v'.queue| ensures Queued(v', v'.queue[i]) {
      assert i < |v.queue| ==> v'.queue[i] == v.queue[i] && Queued(v, v.queue[i]);
    }
  }

  lemma {:induction false} AddedOk(v: WriteSide, bufs: seq<seq<Byte>>)
    requires Ok(v) && bufs != []
    ensures Ok(Added(v, bufs)) && Row(Added(v, bufs)) == Row(v) + [v.next]
  {
    AddedFifo(v, bufs);
    AddedContents(v, bufs);
    AddedCounted(v, bufs);
  }

  // What is left of the first request in the queue.
  function HeadRest(v: WriteSide): seq<Byte> {
    if v.queue != [] && v.queue[0] in v.reqs then Rest(v.reqs[v.queue[0]]) else []
  }

  // Since v0 the kernel took the next n bytes of what was the first request in the queue,
  // and at most that request left the queue.
  ghost predicate TookHead(v0: WriteSide, v: WriteSide, n: nat) {
    && n <= |HeadRest(v0)| && v.size + n == v0.size
    && v.wire == v0.wire + (if v0.queue == [] then [] else Tagged(v0.queue[0], HeadRest(v0)[..n]))
    && v.completed + v.queue == v0.completed + v0.queue && |v.queue| <= |v0.queue| <= |v.queue| + 1
    && v.called == v0.called && v.told == v0.told && v.data == v0.data && v.next == v0.next
    && (v.queue == v0.queue && v.queue != [] ==> HeadRest(v) == HeadRest(v0)[n..])
  }

  lemma {:induction false} TookNothing(v: WriteSide)
    ensures TookHead(v, v, 0)
  {
    assert v.queue != [] ==> Tagged(v.queue[0], HeadRest(v)[..0]) == [];
  }

  lemma {:induction false} TookMore(v0: WriteSide, v1: WriteSide, v2: WriteSide, n: nat, m: nat)
    requires TookHead(v0, v1, n) && v1.queue == v0.queue && TookHead(v1, v2, m)
    ensures TookHead(v0, v2, n + m)
  {
    if v0.queue != [] {
      Slices(HeadRest(v0), n, m);
      TaggedJoin(v0.wire, v0.queue[0], HeadRest(v0)[..n], HeadRest(v0)[n..][..m]);
    }
  }

  lemma {:induction false} Slices(s: seq<Byte>, n: nat, m: nat)
    requires n + m <= |s|
    ensures s[..n] + s[n..][..m] == s[..n + m] && s[n..][m..] == s[n + m..]
  {}

  lemma {:induction false} TaggedJoin(wire: seq<(nat, Byte)>, r: nat, a: seq<Byte>, b: seq<Byte>)
    ensures wire + Tagged(r, a) + Tagged(r, b) == wire + Tagged(r, a + b)
  {
    assert Tagged(r, a) + Tagged(r, b) == Tagged(r, a + b);
  }

  lemma {:induction false} HeadQueued(v: WriteSide)
    requires Ok(v) && v.queue != []
    ensures var r := v.queue[0];
      && r in v.reqs && r in v.data && !v.reqs[r].freed && v.reqs[r].error == 0 && v.reqs[r].index < |v.reqs[r].bufs|
      && |Rest(v.reqs[r])| <= v.size
  {
    assert Queued(v, v.queue[0]);
    OwedHead(v.reqs, v.queue);
  }

  lemma {:induction false} FailedOk(v: WriteSide, error: int)
    requires Ok(v) && v.queue != [] && error != 0
    ensures v.queue[0] in v.reqs && Ok(Ended(v, error))
  {
    assert Queued(v, v.queue[0]);
    EndedOk(v, error);
  }

  lemma {:induction false} FailedTook(v: WriteSide, error: int)
    requires v.queue != [] && v.queue[0] in v.reqs
    ensures TookHead(v, Ended(v, error), 0)
  {
    assert Tagged(v.queue[0], HeadRest(v)[..0]) == [];
    assert v.completed + [v.queue[0]] + v.queue[1..] == v.completed + v.queue;
  }

  // A stream on which nothing was ever written.
  function Empty(): WriteSide {
    WriteSide([], [], [], [], map[], map[], [], 0, 0)
  }

  lemma {:induction false} EmptyIs()
    ensures var v := Empty();
      && v.called == [] && v.told == [] && v.completed == [] && v.queue == [] && v.wire == [] && v.size == 0
  {}

  lemma {:induction false} EmptyOk(v: WriteSide)
    requires v.called == [] && v.told == [] && v.completed == [] && v.queue == [] && v.wire == [] && v.size == 0
    ensures Ok(v)
  {}

  lemma {:induction false} AddedCounted(v: WriteSide, bufs: seq<seq<Byte>>)
    requires Counted(v) && Fifo(v)
    ensures Counted(Added(v, bufs))
  {
    var v', r := Added(v, bufs), v.next;
    RowParts(v);
    FreshRest(bufs);
    OwedOthers(v.reqs, v.completed, r, v'.reqs[r]);
    OwedOthers(v.reqs, v.queue, r, v'.reqs[r]);
    hide Flat, Rest, Row, Fifo, Owed;
    OwedTail(v'.reqs, v.queue, r);
  }

  lemma {:induction false} FreshRest(bufs: seq<seq<Byte>>)
    ensures Rest(WriteReq(bufs, 0, 0, false)) == Flat(bufs)
  {
    assert bufs[0..] == bufs;
  }

  lemma {:induction false} OwedTail(reqs: map<nat, WriteReq>, ids: seq<nat>, r: nat)
    ensures Owed(reqs, ids + [r]) == Owed(reqs, ids) + if r in reqs && !reqs[r].freed then |Rest(reqs[r])| else 0
  {
    assert (ids + [r])[..|ids|] == ids;
    hide Rest;
  }

  // uv_try_write takes its request, the last one submitted, out of whatever queue has it.
  function Withdrawn(v: WriteSide): WriteSide
    requires v.queue != [] || v.completed != []
  {
    var r := if v.queue != [] then v.queue[|v.queue| - 1] else v.completed[|v.completed| - 1];
    var owed := if r in v.reqs && !v.reqs[r].freed then |Rest(v.reqs[r])| else 0;
    var w := v.(size := if owed <= v.size then v.size - owed else 0);
    if v.queue != [] then w.(queue := v.queue[..|v.queue| - 1]) else w.(completed := v.completed[..|v.completed| - 1])
  }

  lemma {:induction false} WithdrawnOk(v: WriteSide)
    requires Ok(v) && (v.queue != [] || v.completed != [])
    ensures Ok(Withdrawn(v)) && |Row(v)| > 0 && Row(Withdrawn(v)) == Row(v)[..|Row(v)| - 1]
    ensures var r := Row(v)[|Row(v)| - 1];
      r in v.reqs && (v.reqs[r].freed || |Rest(v.reqs[r])| <= v.size)
  {
    WithdrawnRow(v);
    if v.queue != [] {
      assert Queued(v, v.queue[|v.queue| - 1]);
    } else {
      assert Finished(v, v.completed[|v.completed| - 1]);
    }
    WithdrawnCounted(v);
    WithdrawnFifo(v);
    WithdrawnContents(v);
    hide Counted, Fifo, Contents, Wired, Row, Rest, Queued, Finished;
  }

  lemma {:induction false} WithdrawnRow(v: WriteSide)
    requires v.queue != [] || v.completed != []
    ensures |Row(v)| > 0 && Row(Withdrawn(v)) == Row(v)[..|Row(v)| - 1]
    ensures Row(v)[|Row(v)| - 1] == if v.queue != [] then v.queue[|v.queue| - 1] else v.completed[|v.completed| - 1]
  {
    hide Rest;
    assert Row(Withdrawn(v)) == Row(v)[..|Row(v)| - 1];
  }

  lemma {:induction false} WithdrawnCounted(v: WriteSide)
    requires Counted(v) && (v.queue != [] || v.completed != [])
    ensures Counted(Withdrawn(v))
    ensures var r := if v.queue != [] then v.queue[|v.queue| - 1] else v.completed[|v.completed| - 1];
      r in v.reqs ==> v.reqs[r].freed || |Rest(v.reqs[r])| <= v.size
  {
    hide Rest;
  }

  lemma {:induction false} WithdrawnFifo(v: WriteSide)
    requires Fifo(v) && Wired(v) && (v.queue != [] || v.completed != [])
    ensures Fifo(Withdrawn(v)) && Wired(Withdrawn(v))
  {
    WithdrawnRow(v);
    hide Rest, Row;
  }

  lemma {:induction false} WithdrawnContents(v: WriteSide)
    requires Contents(v) && (v.queue != [] || v.completed != [])
    ensures Contents(Withdrawn(v))
  {
    var v' := Withdrawn(v);
    hide Rest, Of;
    forall i | 0 <= i < |v'.completed| ensures Finished(v', v'.completed[i]) {
      assert Finished(v, v.completed[i]);
    }
    forall i | 0 <= i < |v'.queue| ensures Queued(v', v'.queue[i]) {
      assert Queued(v, v.queue[i]);
    }
  }

  lemma {:induction false} RowParts(v: WriteSide)
    requires Fifo(v)
    ensures forall i :: 0 <= i < |v.completed| ==> v.completed[i] < v.next
    ensures forall i :: 0 <= i < |v.queue| ==> v.queue[i] < v.next
  {
    forall i | 0 <= i < |v.completed| ensures v.completed[i] < v.next {
      assert Row(v)[|v.called| + i] == v.completed[i];
    }
    forall i | 0 <= i < |v.queue| ensures v.queue[i] < v.next {
      assert Row(v)[|v.called| + |v.completed| + i] == v.queue[i];
    }
  }

  // What uv__write makes of n bytes taken: more of the request is left, or it is finished.
  lemma {:induction false} TookSome(v: WriteSide, n: nat, req: WriteReq)
    requires Ok(v) && v.queue != [] && n <= |HeadRest(v)| && n <= v.size
    requires Rest(req) == HeadRest(v)[n..] && !req.freed && req.error == 0 && req.index <= |req.bufs|
    requires req.index < |req.bufs| <==> n < |HeadRest(v)|
    ensures v.queue[0] in v.reqs && TookHead(v, Sent(v, n, req), n) && TookHead(v, Ended(Sent(v, n, req), 0), n)
    ensures if n < |HeadRest(v)| then Ok(Sent(v, n, req)) else Ok(Ended(Sent(v, n, req), 0))
    ensures Verdict(v, if n < |HeadRest(v)| then Sent(v, n, req) else Ended(Sent(v, n, req), 0), n, 0)
  {
    HeadQueued(v);
    VerdictSent(v, n, req);
    SentOk(v, n, req);
    if n == |HeadRest(v)| {
      VerdictDone(v, n, req);
      EndedOk(Sent(v, n, req), 0);
    }
    SentTook(v, n, req);
    FailedTook(Sent(v, n, req), 0);
    hide *;
    TookLeft(v, Sent(v, n, req), Ended(Sent(v, n, req), 0), n);
  }

  lemma {:induction false} SentTook(v: WriteSide, n: nat, req: WriteReq)
    requires v.queue != [] && v.queue[0] in v.reqs && n <= |HeadRest(v)| && n <= v.size && Rest(req) == HeadRest(v)[n..]
    ensures TookHead(v, Sent(v, n, req), n) && Sent(v, n, req).queue == v.queue
  {}

  lemma {:induction false} TookLeft(v0: WriteSide, v1: WriteSide, v2: WriteSide, n: nat)
    requires TookHead(v0, v1, n) && v1.queue == v0.queue && TookHead(v1, v2, 0)
    ensures TookHead(v0, v2, n)
  {
    TookMore(v0, v1, v2, n, 0);
  }

  lemma {:induction false} TookRow(v0: WriteSide, v: WriteSide, n: nat)
    requires TookHead(v0, v, n)
    ensures Row(v) == Row(v0)
  {
    assert v.called + v.completed + v.queue == v.called + (v.completed + v.queue);
    assert v0.called + v0.completed + v0.queue == v0.called + (v0.completed + v0.queue);
  }

  // If the first request left the queue, it is completed with `error`, and with 0 only if all that
  // was left of it was taken. Requests completed before keep their errors.
  ghost predicate Verdict(v0: WriteSide, v: WriteSide, n: nat, error: int) {
    if |v.queue| == |v0.queue| then Told(v) == Told(v0)
    else Told(v) == Told(v0) + [error] && (error == 0 ==> n == |HeadRest(v0)|)
  }

  lemma {:induction false} VerdictNothing(v: WriteSide, error: int)
    ensures Verdict(v, v, 0, error)
  {}

  lemma {:induction false} VerdictSent(v: WriteSide, n: nat, req: WriteReq)
    requires Fifo(v) && v.queue != [] && v.queue[0] in v.reqs && n <= |HeadRest(v)| && n <= v.size
    ensures Verdict(v, Sent(v, n, req), n, 0)
  {
    HeadApart(v);
    assert Errors(Sent(v, n, req).reqs, v.completed) == Errors(v.reqs, v.completed);
  }

  lemma {:induction false} VerdictDone(v: WriteSide, n: nat, req: WriteReq)
    requires Fifo(v) && v.queue != [] && v.queue[0] in v.reqs && n == |HeadRest(v)| && n <= v.size
    ensures Verdict(v, Ended(Sent(v, n, req), 0), n, 0)
  {
    HeadApart(v);
    assert Errors(Sent(v, n, req).reqs, v.completed) == Errors(v.reqs, v.completed);
    VerdictEnded(Sent(v, n, req), 0);
  }

  lemma {:induction false} VerdictEnded(v: WriteSide, error: int)
    requires Fifo(v) && v.queue != [] && v.queue[0] in v.reqs
    ensures Told(Ended(v, error)) == Told(v) + [error] && (error != 0 ==> Verdict(v, Ended(v, error), 0, error))
  {
    HeadApart(v);
    var v' := Ended(v, error);
    assert Errors(v'.reqs, v'.completed) == Errors(v.reqs, v.completed) + [error];
  }

  lemma {:induction false} VerdictMore(v0: WriteSide, v1: WriteSide, v2: WriteSide, n: nat, m: nat, e: int, error: int)
    requires TookHead(v0, v1, n) && Verdict(v0, v1, n, e) && v1.queue == v0.queue && Verdict(v1, v2, m, error)
    requires |v2.queue| <= |v1.queue|
    ensures Verdict(v0, v2, n + m, error)
  {
    hide Told;
  }

  // How many bytes the kernel takes of what it is offered.
  ghost function Accepted(v: WriteSide, answer: int, iovmax: nat): nat {
    if answer < 0 || v.queue == [] || v.queue[0] !in v.reqs then 0
    else
      var req := v.reqs[v.queue[0]];
      var offered := if req.index <= |req.bufs| then |Offered(req, iovmax)| else 0;
      if answer > offered then offered else answer
  }

  // What the kernel answers is what it takes, up to what the first request offers it.
  lemma {:induction false} AcceptedIs(v: WriteSide, answer: nat, iovmax: nat)
    requires Ok(v) && v.queue != []
    ensures v.queue[0] in v.reqs && v.reqs[v.queue[0]].index <= |v.reqs[v.queue[0]].bufs|
    ensures var offered := Offered(v.reqs[v.queue[0]], iovmax);
      && offered <= HeadRest(v)
      && (answer <= |offered| ==> Accepted(v, answer, iovmax) == answer)
      && (answer > |offered| ==> Accepted(v, answer, iovmax) == |offered|)
  {
    HeadQueued(v);
    OfferedRest(v.reqs[v.queue[0]], iovmax);
  }

  // One pass of uv__write over the first request: the kernel takes what it answers of what it is
  // offered; an error other than EAGAIN ends the request with that error, and taking all that was
  // left ends it without one; otherwise it stays first.
  ghost predicate Pass(v0: WriteSide, v: WriteSide, answer: int, iovmax: nat) {
    var n := Accepted(v0, answer, iovmax);
    && TookHead(v0, v, n) && Verdict(v0, v, n, if answer < 0 then answer else 0)
    && (v0.queue != [] ==>
          (|v.queue| < |v0.queue| <==> if answer < 0 then answer != EAGAIN else n == |HeadRest(v0)|))
  }

  // The passes of one call of uv__write: each but the last leaves the first request in place.
  ghost predicate Passes(trace: seq<WriteSide>, answers: seq<int>, iovmax: nat) {
    && 0 < |trace| <= |answers| + 1
    && (forall i :: 0 <= i < |trace| - 1 ==> Pass(trace[i], trace[i + 1], answers[i], iovmax))
    && (forall i :: 0 <= i < |trace| - 1 ==> trace[i].queue == trace[0].queue)
  }

  lemma {:induction false} PassesNone(v: WriteSide, answers: seq<int>, iovmax: nat)
    ensures Passes([v], answers, iovmax)
  {}

  lemma {:induction false} NoneAccepted(v: WriteSide, answer: int, iovmax: nat)
    ensures answer < 0 ==> Accepted(v, answer, iovmax) == 0
  {}

  // What came of a request just added: passes over the first request if it was to be written at
  // once, and nothing otherwise.
  ghost predicate Attempt(v0: WriteSide, v: WriteSide, trace: seq<WriteSide>, answers: seq<int>, iovmax: nat,
                          now: bool)
  {
    && Passes(trace, answers, iovmax) && trace[0] == v0 && trace[|trace| - 1] == v && (now <==> |trace| > 1)
  }

  lemma {:induction false} PassesMore(trace: seq<WriteSide>, v: WriteSide, answers: seq<int>, iovmax: nat)
    requires Passes(trace, answers, iovmax) && |trace| <= |answers|
    requires trace[|trace| - 1].queue == trace[0].queue && Pass(trace[|trace| - 1], v, answers[|trace| - 1], iovmax)
    ensures Passes(trace + [v], answers, iovmax)
  {
    hide Pass;
  }

  lemma {:induction false} PassTook(v0: WriteSide, v: WriteSide, answer: int, iovmax: nat)
    requires Pass(v0, v, answer, iovmax)
    ensures TookHead(v0, v, Accepted(v0, answer, iovmax))
    ensures Verdict(v0, v, Accepted(v0, answer, iovmax), if answer < 0 then answer else 0)
  {}

  // The pass of a request that failed, of one left in place, and of one the kernel took bytes of.
  lemma {:induction false} FailedPass(v: WriteSide, answer: int, iovmax: nat)
    requires Ok(v) && v.queue != [] && answer < 0 && answer != EAGAIN
    ensures v.queue[0] in v.reqs && Ok(Ended(v, answer)) && Pass(v, Ended(v, answer), answer, iovmax)
  {
    FailedOk(v, answer);
    FailedTook(v, answer);
    VerdictEnded(v, answer);
    hide Ok, TookHead, Verdict;
  }

  lemma {:induction false} IdlePass(v: WriteSide, answer: int, iovmax: nat)
    requires v.queue == [] || answer == EAGAIN
    ensures Pass(v, v, answer, iovmax)
  {
    TookNothing(v);
    hide TookHead, Told;
  }

  // What one call of writev is offered.
  function Offered(req: WriteReq, iovmax: nat): seq<Byte>
    requires req.index <= |req.bufs|
  {
    var iovcnt := |req.bufs| - req.index;
    Flat(req.bufs[req.index..][..if iovcnt > iovmax then iovmax else iovcnt])
  }

  // It is the first part of what is left, all of it if there are not more buffers than allowed,
  // and otherwise as many as allowed.
  lemma {:induction false} OfferedRest(req: WriteReq, iovmax: nat)
    requires req.index <= |req.bufs|
    ensures Offered(req, iovmax) <= Rest(req)
    ensures |req.bufs| <= req.index + iovmax ==> Offered(req, iovmax) == Rest(req)
    ensures req.index + iovmax <= |req.bufs| ==>
      Rest(req) == Offered(req, iovmax) + Rest(req.(index := req.index + iovmax))
  {
    var bufs := req.bufs[req.index..];
    var n := if |bufs| > iovmax then iovmax else |bufs|;
    assert bufs == bufs[..n] + bufs[n..];
    FlatJoin(bufs[..n], bufs[n..]);
    assert req.index + iovmax <= |req.bufs| ==> bufs[n..] == req.bufs[req.index + iovmax..];
  }

  // What every call keeps, whatever else it does: no callback made, no byte taken and no data of
  // a request is taken back, the requests stay in the order of their submission, and the completed
  // ones keep their errors.
  ghost predicate Grows(v0: WriteSide, v: WriteSide) {
    && v0.called <= v.called && v0.called + v0.completed <= v.called + v.completed && Row(v0) <= Row(v)
    && v0.told <= v.told && Told(v0) <= Told(v) && v0.wire <= v.wire && v0.next <= v.next
    && forall r: nat :: r < v0.next ==> (r in v.data <==> r in v0.data) && (r in v.data ==> v.data[r] == v0.data[r])
  }

  // What the requests of the row were submitted with.
  function Payload(v: WriteSide): (p: seq<seq<Byte>>)
    ensures |p| == |Row(v)|
    ensures forall i :: 0 <= i < |p| ==> p[i] == if Row(v)[i] in v.data then v.data[Row(v)[i]] else []
  {
    seq(|Row(v)|, i requires 0 <= i < |Row(v)| => if Row(v)[i] in v.data then v.data[Row(v)[i]] else [])
  }

  lemma {:induction false} PayloadSame(v0: WriteSide, v: WriteSide)
    requires Grows(v0, v) && Row(v) == Row(v0) && Fifo(v0)
    ensures Payload(v) == Payload(v0)
  {
    hide Row, Told;
  }

  lemma {:induction false} TookKeeps(v0: WriteSide, v: WriteSide, n: nat, error: int)
    requires Ok(v0) && TookHead(v0, v, n) && Verdict(v0, v, n, error)
    ensures Grows(v0, v) && v.called == v0.called && Payload(v) == Payload(v0)
  {
    OkFifo(v0);
    hide *;
    TookGrows(v0, v, n, error);
    TookRow(v0, v, n);
    PayloadSame(v0, v);
  }

  lemma {:induction false} PayloadMore(v0: WriteSide, bufs: seq<seq<Byte>>, v: WriteSide, n: nat)
    requires TookHead(Added(v0, bufs), v, n) && Row(v) == Row(v0) + [v0.next] && Fifo(v0)
    ensures Payload(v) == Payload(v0) + [Flat(bufs)]
  {
    assert v.data == v0.data[v0.next := Flat(bufs)];
    hide Row, TookHead;
  }

  lemma {:induction false} GrowsNothing(v: WriteSide)
    ensures Grows(v, v)
  {}

  lemma {:induction false} OkFifo(v: WriteSide)
    requires Ok(v)
    ensures Fifo(v)
  {}

  lemma {:induction false} GrowsOn(v0: WriteSide, v1: WriteSide, v2: WriteSide)
    requires Grows(v0, v1) && Grows(v1, v2)
    ensures Grows(v0, v2)
  {
    hide Row, Told;
  }

  lemma {:induction false} TookGrows(v0: WriteSide, v: WriteSide, n: nat, error: int)
    requires TookHead(v0, v, n) && Verdict(v0, v, n, error)
    ensures Grows(v0, v) && v.called == v0.called
  {
    TookRow(v0, v, n);
    assert (v.completed + v.queue)[..|v0.completed|] == v0.completed;
    assert v.completed[..|v0.completed|] == v0.completed;
    hide HeadRest, Row, Told;
  }

  lemma {:induction false} AddedGrows(v: WriteSide, bufs: seq<seq<Byte>>)
    requires Fifo(v)
    ensures Grows(v, Added(v, bufs))
  {
    RowParts(v);
    assert Errors(Added(v, bufs).reqs, v.completed) == Errors(v.reqs, v.completed);
    assert v.called + v.completed + (v.queue + [v.next]) == Row(v) + [v.next];
    hide Flat;
  }

  lemma {:induction false} SubmitGrows(v0: WriteSide, bufs: seq<seq<Byte>>, v: WriteSide, n: nat, error: int)
    requires Fifo(v0) && TookHead(Added(v0, bufs), v, n) && Verdict(Added(v0, bufs), v, n, error)
    ensures Grows(v0, v) && v.called == v0.called
  {
    AddedGrows(v0, bufs);
    TookGrows(Added(v0, bufs), v, n, error);
    assert Added(v0, bufs).called == v0.called;
    hide *;
    GrowsOn(v0, Added(v0, bufs), v);
  }

  lemma {:induction false} PrefixTail(t: seq<int>, a: seq<int>, b: seq<int>)
    requires t + a <= t + b
    ensures a <= b
  {
    forall i | 0 <= i < |a| ensures a[i] == b[i] {
      assert (t + a)[|t| + i] == (t + b)[|t| + i];
    }
  }

  // uv_try_write takes back its own request and no other.
  lemma {:induction false} WithdrawnGrows(v0: WriteSide, v: WriteSide, v': WriteSide)
    requires Grows(v0, v) && Row(v') == Row(v0) && v'.called == v0.called && |v'.queue| <= |v0.queue|
    requires v'.wire == v.wire && v'.next == v.next && v'.data == v.data
    requires v'.told == v.told && v'.reqs == v.reqs && v'.completed <= v.completed && v.told == v0.told
    ensures Grows(v0, v')
  {
    assert |v0.completed| <= |v'.completed|;
    PrefixTail(v.told, Errors(v0.reqs, v0.completed), Errors(v.reqs, v.completed));
    assert Errors(v'.reqs, v'.completed)[..|v0.completed|] == Errors(v0.reqs, v0.completed);
    assert Row(v0)[..|v0.called| + |v0.completed|] == v0.called + v0.completed;
    assert Row(v')[..|v'.called| + |v'.completed|] == v'.called + v'.completed;
  }

  lemma {:induction false} ErrorsOn(reqs: map<nat, WriteReq>, ids: seq<nat>, r: nat, freed: bool)
    requires ids != [] && r in reqs
    ensures Errors(reqs[r := reqs[r].(freed := freed)], ids[1..]) == Errors(reqs, ids)[1..]
  {}

  lemma {:induction false} Shift(t: seq<int>, es: seq<int>)
    requires es != []
    ensures t + [es[0]] + es[1..] == t + es
  {}

  lemma {:induction false} PoppedTold(v: WriteSide)
    requires v.completed != [] && v.completed[0] in v.reqs
    ensures Told(Popped(v)) == Told(v)
  {
    var r, v' := v.completed[0], Popped(v);
    ErrorsOn(v.reqs, v.completed, r, true);
    Shift(v.told, Errors(v.reqs, v.completed));
    assert v'.told == v.told + [v.reqs[r].error] && v'.completed == v.completed[1..]
      && v'.reqs == v.reqs[r := v.reqs[r].(freed := true)];
    hide Rest, Errors, Popped;
  }

  lemma {:induction false} PoppedGrows(v: WriteSide)
    requires v.completed != [] && v.completed[0] in v.reqs
    ensures Grows(v, Popped(v)) && Popped(v).called + Popped(v).completed == v.called + v.completed
    ensures Told(Popped(v)) == Told(v)
  {
    PoppedTold(v);
    assert v.called + [v.completed[0]] + v.completed[1..] == v.called + v.completed;
    hide Rest, Told;
  }

  lemma {:induction false} PoppedStatus(v: WriteSide)
    requires v.completed != [] && Finished(v, v.completed[0])
    ensures var r := v.completed[0];
      && r in v.reqs && r in v.data
      && if v.reqs[r].error == 0 then Of(v.wire, r) == v.data[r] else Of(v.wire, r) <= v.data[r]
  {
    hide Of, Rest;
  }

  // Once no request is completed, all those completed before have been called back.
  lemma {:induction false} GrowsAll(v0: WriteSide, v: WriteSide)
    requires Grows(v0, v) && v.completed == []
    ensures v0.called + v0.completed <= v.called && Told(v0) <= v.told
  {
    assert v.called + [] == v.called;
    assert Told(v) == v.told;
  }

  lemma {:induction false} FailedAll(v0: WriteSide, v: WriteSide, v': WriteSide)
    requires Grows(v0, v) && v.queue == [] && v.called + v.completed <= v'.called
    ensures Row(v0) <= v'.called
  {
    assert Row(v) == v.called + v.completed;
  }

  lemma {:induction false} PoppedShape(v: WriteSide)
    requires v.completed != [] && v.completed[0] in v.reqs
    ensures |Popped(v).completed| < |v.completed| && Popped(v).queue == v.queue
    ensures |Popped(v).called| == |v.called| + 1
  {
    hide Rest;
  }

  // Callbacks were made and nothing was added.
  ghost predicate Drained(v0: WriteSide, v: WriteSide) {
    && v.called + v.completed == v0.called + v0.completed && v.queue == v0.queue && v.wire == v0.wire
    && Told(v) == Told(v0) && v.data == v0.data && v.next == v0.next
  }

  lemma {:induction false} DrainedNothing(v: WriteSide)
    ensures Drained(v, v)
  {}

  lemma {:induction false} DrainedPop(v0: WriteSide, v: WriteSide)
    requires Drained(v0, v) && v.completed != [] && v.completed[0] in v.reqs
    ensures Drained(v0, Popped(v))
  {
    PoppedGrows(v);
    hide Rest, Grows, Told;
  }

  lemma {:induction false} DrainedAll(v0: WriteSide, v: WriteSide)
    requires Ok(v) && Drained(v0, v) && v.completed == [] && v0.queue == []
    ensures v.called == Row(v0) && v.size == 0 && v.queue == [] && v.wire == v0.wire && v.data == v0.data
    ensures v.told == Told(v0)
  {
    assert Told(v) == v.told;
    assert v.called + [] == v.called && v0.called + v0.completed + [] == v0.called + v0.completed;
    assert Counted(v);
    hide Rest;
  }

  // The first k requests of the queue have failed, in order: they are completed with the error,
  // and what is left of them is still counted.
  ghost predicate Flushed(v0: WriteSide, v: WriteSide, k: nat, error: int) {
    && k <= |v0.queue| && v.completed == v0.completed + v0.queue[..k] && v.queue == v0.queue[k..]
    && v.called == v0.called && v.told == v0.told && v.wire == v0.wire && v.data == v0.data && v.next == v0.next
    && v.size == v0.size && v.reqs.Keys == v0.reqs.Keys
    && forall r :: r in v0.reqs ==>
         v.reqs[r] == if r in v0.queue[..k] then v0.reqs[r].(error := error) else v0.reqs[r]
  }

  lemma {:induction false} FlushedNothing(v: WriteSide, error: int)
    ensures Flushed(v, v, 0, error)
  {}

  lemma {:induction false} FlushedAll(v0: WriteSide, v: WriteSide, k: nat, error: int)
    requires Flushed(v0, v, k, error) && v.queue == []
    ensures k == |v0.queue|
  {}

  lemma {:induction false} FlushedData(v0: WriteSide, v: WriteSide, error: int)
    requires Flushed(v0, v, |v0.queue|, error)
    ensures v.wire == v0.wire && v.data == v0.data
  {}

  lemma {:induction false} FlushedMore(v0: WriteSide, v: WriteSide, k: nat, error: int)
    requires Flushed(v0, v, k, error) && v.queue != [] && error != 0
    requires v.queue[0] in v.reqs && !v.reqs[v.queue[0]].freed
    ensures k < |v0.queue| && Flushed(v0, Ended(v, error), k + 1, error)
  {
    assert v0.queue[..k + 1] == v0.queue[..k] + [v.queue[0]];
  }

  function Repeated(x: int, n: nat): (r: seq<int>)
    ensures |r| == n && forall i :: 0 <= i < n ==> r[i] == x
  {
    seq(n, _ => x)
  }

  lemma {:induction false} FlushedTold(v0: WriteSide, v: WriteSide, error: int)
    requires Flushed(v0, v, |v0.queue|, error) && Ok(v0)
    ensures Told(v) == Told(v0) + Repeated(error, |v0.queue|)
  {
    assert v0.queue[..|v0.queue|] == v0.queue;
    forall i | 0 <= i < |v0.completed|
      ensures v0.completed[i] in v0.reqs && v0.completed[i] !in v0.queue && v0.completed[i] in v.reqs
    {
      assert Finished(v0, v0.completed[i]);
      assert Row(v0)[|v0.called| + i] == v0.completed[i];
      forall j | 0 <= j < |v0.queue| ensures v0.queue[j] != v0.completed[i] {
        assert Row(v0)[|v0.called| + |v0.completed| + j] == v0.queue[j];
      }
    }
    forall j | 0 <= j < |v0.queue| ensures v0.queue[j] in v0.reqs && v.reqs[v0.queue[j]].error == error {
      assert Queued(v0, v0.queue[j]);
    }
    hide Ok, Row;
    assert Errors(v.reqs, v.completed) == Errors(v0.reqs, v0.completed) + Repeated(error, |v0.queue|);
  }

  lemma {:induction false} FlushedRow(v0: WriteSide, v: WriteSide, error: int)
    requires Flushed(v0, v, |v0.queue|, error)
    ensures Row(v) == Row(v0)
  {
    assert v0.queue[..|v0.queue|] == v0.queue;
    assert v.called + (v0.completed + v0.queue) + [] == Row(v0);
  }

  lemma {:induction false} FlushedAlike(v0: WriteSide, v: WriteSide, error: int)
    requires Flushed(v0, v, |v0.queue|, error) && Row(v) == Row(v0) && Told(v0) <= Told(v)
    ensures Grows(v0, v)
  {
    assert v0.queue[..|v0.queue|] == v0.queue;
    assert v.called + (v0.completed + v0.queue) == v0.called + v0.completed + v0.queue;
    hide Row, Told;
  }

  lemma {:induction false} FlushedGrows(v0: WriteSide, v: WriteSide, error: int)
    requires Flushed(v0, v, |v0.queue|, error) && Ok(v0)
    ensures Grows(v0, v) && Row(v) == Row(v0) && Told(v) == Told(v0) + Repeated(error, |v0.queue|)
  {
    FlushedTold(v0, v, error);
    FlushedRow(v0, v, error);
    hide *;
    FlushedAlike(v0, v, error);
  }

  // With a count of zero nothing is left of any request.
  lemma {:induction false} OwedZero(reqs: map<nat, WriteReq>, ids: seq<nat>, i: nat)
    requires Owed(reqs, ids) == 0 && i < |ids| && ids[i] in reqs && !reqs[ids[i]].freed
    ensures Rest(reqs[ids[i]]) == []
  {
    if i < |ids| - 1 {
      OwedZero(reqs, ids[..|ids| - 1], i);
    }
  }

  // The result of uv_try_write for request r.
  ghost predicate Tried(v: WriteSide, r: nat, data: seq<Byte>, res: int) {
    && r in v.data && v.data[r] == data && Of(v.wire, r) <= data
    && res == if Of(v.wire, r) == [] && data != [] then EAGAIN else |Of(v.wire, r)|
  }

  // uv_write2 on a stream that owes nothing wrote n bytes of its own request.
  lemma {:induction false} TriedWire(v0: WriteSide, v: WriteSide, bufs: seq<seq<Byte>>, n: nat)
    requires Ok(v0) && v0.size == 0 && bufs != [] && TookHead(Added(v0, bufs), v, n)
    ensures |Of(v.wire, v0.next)| == n && v.size + n == |Flat(bufs)|
  {
    var a, r := Added(v0, bufs), v0.next;
    NotYet(v0.wire, r);
    OfJoin(v0.wire, a.queue[0], HeadRest(a)[..n], r);
    assert bufs[0..] == bufs;
    if v0.queue != [] {
      RowParts(v0);
      assert Queued(v0, v0.queue[0]);
      OwedZero(v0.reqs, v0.queue, 0);
    }
  }

  lemma {:induction false} TriedRow(v0: WriteSide, v: WriteSide, r: nat)
    requires Row(v) == Row(v0) + [r] && v.called == v0.called
    ensures if v.queue != [] then v.queue[|v.queue| - 1] == r
      else v.completed != [] && v.completed[|v.completed| - 1] == r
  {
    assert Row(v)[|Row(v0)|] == r;
    assert |Row(v)| == |v.called| + |v.completed| + |v.queue|;
  }

  // The request last submitted is written in full, or what is left of it is still owed.
  lemma {:induction false} LastContent(v: WriteSide, r: nat)
    requires Ok(v)
    requires if v.queue != [] then v.queue[|v.queue| - 1] == r
      else v.completed != [] && v.completed[|v.completed| - 1] == r
    ensures r in v.reqs && r in v.data
    ensures if v.reqs[r].freed then Of(v.wire, r) == v.data[r] else v.data[r] == Of(v.wire, r) + Rest(v.reqs[r])
  {
    if v.queue != [] {
      assert Queued(v, v.queue[|v.queue| - 1]);
    } else {
      assert Finished(v, v.completed[|v.completed| - 1]);
    }
  }

  // The state of a request that uv_write2 submitted to a stream that owes nothing.
  lemma {:induction false} TriedOk(v0: WriteSide, v: WriteSide, bufs: seq<seq<Byte>>, n: nat)
    requires Ok(v0) && v0.size == 0 && bufs != [] && Ok(v) && TookHead(Added(v0, bufs), v, n)
    ensures Row(v) == Row(v0) + [v0.next] && v.called == v0.called && |v.queue| <= |v0.queue| + 1
    ensures var r := v0.next;
      && (if v.queue != [] then v.queue[|v.queue| - 1] == r
          else v.completed != [] && v.completed[|v.completed| - 1] == r)
      && r in v.reqs && r in v.data && v.data[r] == Flat(bufs) && Of(v.wire, r) <= Flat(bufs)
      && v.size == (if v.reqs[r].freed then 0 else |Rest(v.reqs[r])|)
      && |Of(v.wire, r)| + v.size == |Flat(bufs)|
  {
    AddedOk(v0, bufs);
    TookRow(Added(v0, bufs), v, n);
    TriedWire(v0, v, bufs, n);
    assert v.called == v0.called && v.data[v0.next] == Flat(bufs) && |v.queue| <= |v0.queue| + 1;
    hide *;
    TriedRow(v0, v, v0.next);
    LastContent(v, v0.next);
  }

  lemma {:induction false} TookTold(v0: WriteSide, bufs: seq<seq<Byte>>, v: WriteSide, n: nat)
    requires TookHead(Added(v0, bufs), v, n)
    ensures v.told == v0.told
  {}

  lemma {:induction false} TriedEnds(v0: WriteSide, v: WriteSide, r: nat, data: seq<Byte>)
    requires v.queue != [] || v.completed != []
    requires if v.queue != [] then v.queue[|v.queue| - 1] == r else v.completed[|v.completed| - 1] == r
    requires r in v.reqs && r in v.data && v.data[r] == data && Of(v.wire, r) <= data
    requires v.size == (if v.reqs[r].freed then 0 else |Rest(v.reqs[r])|) && |Of(v.wire, r)| + v.size == |data|
    ensures Tried(Withdrawn(v), r, data, if |data| - v.size == 0 && v.size != 0 then EAGAIN else |data| - v.size)
    ensures Withdrawn(v).size == 0 && Withdrawn(v).called == v.called
    ensures Withdrawn(v).wire == v.wire && Withdrawn(v).data == v.data && Withdrawn(v).next == v.next
    ensures Withdrawn(v).told == v.told && Withdrawn(v).reqs == v.reqs && Withdrawn(v).completed <= v.completed
    ensures |Withdrawn(v).queue| == if v.queue == [] then 0 else |v.queue| - 1
  {
    hide Of, Rest;
  }
}
