/** Which handles keep a loop alive, and how they are closed (src/uv-common.h:122-180,
src/unix/core.cpp:62-132, 162-167, 189-249).

A handle is an id of its own; 0 is the null pointer. On Unix UV__HANDLE_CLOSING is zero, so
the tests of that flag in the macros of src/uv-common.h never apply.
*/
module Handles {
  import opened Seqs

  // A signal handle is not made close-pending by uv_close, but when its last message is in. For
  // a stream uv__finish_close runs the callbacks of its unfinished requests.
  datatype Kind = Signal | Stream | Other

  datatype Handle = Handle(kind: Kind, active: bool, ref: bool, closing: bool, closed: bool, hasCb: bool, next: nat)

  datatype Call =
    | Start(h: nat)
    | Stop(h: nat)
    | Ref(h: nat)
    | Unref(h: nat)
    | Close(h: nat, cb: bool, drained: bool)

  // What user code calls while one handle is finished: in the write callbacks of a stream and in
  // the close callback.
  datatype Plan = Plan(writes: seq<Call>, calls: seq<Call>)

  function Weight(x: Handle): int {
    if x.active && x.ref then 1 else 0
  }

  // The handles that are both active and referenced.
  function Counted(hs: seq<Handle>): int {
    if hs == [] then 0 else Counted(hs[..|hs| - 1]) + Weight(hs[|hs| - 1])
  }

  lemma {:induction false} CountedUpdate(hs: seq<Handle>, h: nat, x: Handle)
    requires h < |hs|
    ensures Counted(hs[h := x]) == Counted(hs) - Weight(hs[h]) + Weight(x)
  {
    var last := |hs| - 1;
    if h < last {
      assert hs[h := x][..last] == hs[..last][h := x];
      CountedUpdate(hs[..last], h, x);
    } else {
      assert hs[h := x][..last] == hs[..last];
    }
  }

  lemma {:induction false} CountedBounds(hs: seq<Handle>)
    ensures 0 <= Counted(hs) && (Counted(hs) > 0 <==> exists h :: 0 <= h < |hs| && hs[h].active && hs[h].ref)
  {
    if hs != [] {
      CountedBounds(hs[..|hs| - 1]);
    }
  }

  // The list linked from `head` by next_closing.
  ghost predicate Chain(hs: seq<Handle>, head: nat, xs: seq<nat>)
    decreases |xs|
  {
    if xs == [] then head == 0 else head == xs[0] && 0 < head < |hs| && Chain(hs, hs[head].next, xs[1..])
  }

  lemma {:induction false} ChainFrame(hs: seq<Handle>, hs': seq<Handle>, head: nat, xs: seq<nat>)
    requires Chain(hs, head, xs) && |hs| == |hs'| && forall x :: x in xs && x < |hs| ==> hs'[x].next == hs[x].next
    ensures Chain(hs', head, xs)
    decreases |xs|
  {
    if xs != [] {
      ChainFrame(hs, hs', hs[head].next, xs[1..]);
    }
  }

  function First(xs: seq<nat>): nat {
    if xs == [] then 0 else xs[0]
  }

  // A handle waits, in the loop's list or in that of the closing pass, from the time it is made
  // close-pending to its close callback, which is recorded in the log.
  ghost predicate SoundHandle(x: Handle, waits: bool, called: bool) {
    && (waits ==> x.closing)
    && (!x.kind.Signal? && x.closing && !x.closed ==> waits)
    && (x.closed ==> x.closing && (x.ref ==> waits))
    && (called <==> x.closed && !waits && x.hasCb)
  }

  // Of the handles that wait only the one being finished can be closed.
  ghost predicate Open(hs: seq<Handle>, list: seq<nat>, turn: seq<nat>) {
    && (forall i :: 0 <= i < |list| ==> list[i] < |hs| ==> !hs[list[i]].closed)
    && (forall i :: 0 < i < |turn| ==> turn[i] < |hs| ==> !hs[turn[i]].closed)
  }

  ghost predicate Lists(hs: seq<Handle>, head: nat, list: seq<nat>, turn: seq<nat>, log: seq<nat>) {
    && Chain(hs, head, list) && Chain(hs, First(turn), turn)
    && NoRepeats(list) && NoRepeats(turn) && NoRepeats(log) && (forall x :: x in list ==> x !in turn)
    && (forall x :: x in list || x in turn || x in log ==> 0 < x < |hs|)
  }

  ghost predicate Sound(hs: seq<Handle>, head: nat, list: seq<nat>, turn: seq<nat>, log: seq<nat>) {
    && Lists(hs, head, list, turn, log) && Open(hs, list, turn)
    && forall x: nat :: 0 < x < |hs| ==> SoundHandle(hs[x], x in list || x in turn, x in log)
  }

  // Changes that leave closing alone.
  lemma {:induction false} Touched(hs: seq<Handle>, head: nat, list: seq<nat>, turn: seq<nat>, log: seq<nat>, h: nat,
                                   x: Handle)
    requires Sound(hs, head, list, turn, log) && 0 < h < |hs|
    requires x.(active := hs[h].active, ref := hs[h].ref) == hs[h] && (x.ref ==> hs[h].ref || !x.closed)
    ensures Sound(hs[h := x], head, list, turn, log)
  {
    ChainFrame(hs, hs[h := x], head, list);
    ChainFrame(hs, hs[h := x], First(turn), turn);
    assert SoundHandle(hs[h], h in list || h in turn, h in log);
    hide Chain, NoRepeats;
  }

  // uv_close: a signal handle may have to wait.
  lemma {:induction false} ClosedOk(hs: seq<Handle>, head: nat, list: seq<nat>, turn: seq<nat>, log: seq<nat>, h: nat,
                                    x: Handle)
    requires Sound(hs, head, list, turn, log) && 0 < h < |hs| && !hs[h].closing
    requires x.closing && !x.closed && x.kind == hs[h].kind
    ensures h !in list && h !in turn && h !in log
    ensures x.next == head ==> Sound(hs[h := x], h, [h] + list, turn, log)
    ensures x.kind.Signal? ==> Sound(hs[h := x], head, list, turn, log)
  {
    assert SoundHandle(hs[h], h in list || h in turn, h in log);
    var hs' := hs[h := x];
    ChainFrame(hs, hs', head, list);
    ChainFrame(hs, hs', First(turn), turn);
    assert ([h] + list)[1..] == list;
    Joined([h], list);
    assert x.next == head ==> Chain(hs', h, [h] + list);
    hide Chain, NoRepeats;
    if x.next == head {
      assert Lists(hs', h, [h] + list, turn, log);
    }
  }

  lemma {:induction false} PendingOk(hs: seq<Handle>, head: nat, list: seq<nat>, turn: seq<nat>, log: seq<nat>, h: nat)
    requires Sound(hs, head, list, turn, log) && 0 < h < |hs| && hs[h].closing && !hs[h].closed
    requires h !in list && h !in turn
    ensures Sound(hs[h := hs[h].(next := head)], h, [h] + list, turn, log)
  {
    var hs' := hs[h := hs[h].(next := head)];
    ChainFrame(hs, hs', head, list);
    ChainFrame(hs, hs', First(turn), turn);
    assert ([h] + list)[1..] == list;
    Joined([h], list);
    assert Chain(hs', h, [h] + list);
    assert SoundHandle(hs[h], h in list || h in turn, h in log);
    hide Chain, NoRepeats;
  }

  // The first handle of the pass is flagged closed.
  lemma {:induction false} FlagOk(hs: seq<Handle>, head: nat, list: seq<nat>, turn: seq<nat>, log: seq<nat>)
    requires Sound(hs, head, list, turn, log) && turn != [] && turn[0] < |hs| && !hs[turn[0]].closed
    ensures var h := turn[0];
      0 < h && hs[h].closing && Sound(hs[h := hs[h].(closed := true)], head, list, turn, log)
  {
    var h := turn[0];
    HeadOut(turn);
    assert h in turn && SoundHandle(hs[h], h in list || h in turn, h in log);
    var hs' := hs[h := hs[h].(closed := true)];
    ChainFrame(hs, hs', head, list);
    ChainFrame(hs, hs', First(turn), turn);
    forall i | 0 < i < |turn| ensures turn[i] != h {
      assert turn[1..][i - 1] == turn[i];
    }
    hide Chain, NoRepeats;
    assert Lists(hs', head, list, turn, log);
    forall i | 0 <= i < |list| ensures list[i] != h {
      assert list[i] in list;
    }
    assert Open(hs', list, turn);
  }

  // It leaves the pass, no longer referenced, and is called back.
  lemma {:induction false} FinishOk(hs: seq<Handle>, head: nat, list: seq<nat>, turn: seq<nat>, log: seq<nat>)
    requires Sound(hs, head, list, turn, log) && turn != [] && turn[0] < |hs| && hs[turn[0]].closed && !hs[turn[0]].ref
    ensures turn[0] !in log && hs[turn[0]].next == First(turn[1..])
    ensures Sound(hs, head, list, turn[1..], if hs[turn[0]].hasCb then log + [turn[0]] else log)
  {
    var h := turn[0];
    HeadOut(turn);
    assert h in turn && SoundHandle(hs[h], h in list || h in turn, h in log);
    var log' := if hs[h].hasCb then log + [h] else log;
    assert Chain(hs, hs[h].next, turn[1..]);
    assert hs[h].next == First(turn[1..]);
    TailIn(log, h);
    hide Chain, NoRepeats;
    assert Lists(hs, head, list, turn[1..], log');
    assert Open(hs, list, turn[1..]) by {
      forall i | 0 < i < |turn[1..]| ensures turn[1..][i] == turn[i + 1] {}
    }
    forall x: nat | 0 < x < |hs| ensures SoundHandle(hs[x], x in list || x in turn[1..], x in log') {
      assert SoundHandle(hs[x], x in list || x in turn, x in log);
    }
  }

  // What the calls of one callback may do: handles already closing stay so, and the ones they
  // close come before the others in the loop's list.
  ghost predicate Advanced(hs: seq<Handle>, list: seq<nat>, hs': seq<Handle>, list': seq<nat>) {
    && |hs'| == |hs| && |list| <= |list'| && list'[|list'| - |list|..] == list
    && (forall x: nat :: x < |hs| ==> hs'[x].closed == hs[x].closed)
    && (forall x: nat :: x < |hs| && hs[x].closing ==> hs'[x].closing && hs'[x].hasCb == hs[x].hasCb)
    && (forall i :: 0 <= i < |list'| - |list| ==> 0 < list'[i] < |hs| && !hs[list'[i]].closing)
  }

  lemma {:induction false} AdvancedOne(hs: seq<Handle>, list: seq<nat>, h: nat, x: Handle, list': seq<nat>)
    requires 0 < h < |hs| && x.closed == hs[h].closed && (hs[h].closing ==> x.closing && x.hasCb == hs[h].hasCb)
    requires list' == list || (list' == [h] + list && !hs[h].closing)
    ensures Advanced(hs, list, hs[h := x], list')
  {}

  lemma {:induction false} AdvancedSame(hs: seq<Handle>, list: seq<nat>)
    ensures Advanced(hs, list, hs, list)
  {}

  lemma {:induction false} AdvancedSize(hs: seq<Handle>, list: seq<nat>, hs': seq<Handle>, list': seq<nat>)
    requires Advanced(hs, list, hs', list')
    ensures |hs'| == |hs|
  {}

  lemma {:induction false} AdvancedAt(hs: seq<Handle>, list: seq<nat>, hs': seq<Handle>, list': seq<nat>, x: nat)
    requires Advanced(hs, list, hs', list') && x < |hs|
    ensures |hs'| == |hs| && hs'[x].closed == hs[x].closed
    ensures hs[x].closing ==> hs'[x].closing && hs'[x].hasCb == hs[x].hasCb
  {}

  lemma {:induction false} AdvancedOn(hs: seq<Handle>, a: seq<nat>, hs': seq<Handle>, b: seq<nat>, hs'': seq<Handle>,
                                      c: seq<nat>)
    requires Advanced(hs, a, hs', b) && Advanced(hs', b, hs'', c)
    ensures Advanced(hs, a, hs'', c)
  {
    assert c[|c| - |a|..] == b[|b| - |a|..];
    forall i | 0 <= i < |c| - |a| ensures 0 < c[i] < |hs| && !hs[c[i]].closing {
      if i >= |c| - |b| {
        assert c[i] == b[i - (|c| - |b|)];
      }
    }
  }

  // What one call does; closed handles are gone, and only open ones can be closed.
  ghost predicate Did(hs: seq<Handle>, list: seq<nat>, hs': seq<Handle>, list': seq<nat>, c: Call)
    requires c.h < |hs|
  {
    var x := hs[c.h];
    if x.closed || (c.Close? && x.closing) then hs' == hs && list' == list
    else
      |hs'| == |hs| && match c
      case Start(h) => hs' == hs[h := x.(active := true)] && list' == list
      case Stop(h) => hs' == hs[h := x.(active := false)] && list' == list
      case Ref(h) => hs' == hs[h := x.(ref := true)] && list' == list
      case Unref(h) => hs' == hs[h := x.(ref := false)] && list' == list
      case Close(h, cb, drained) =>
        && hs' == hs[h := x.(closing := true, active := false, hasCb := cb, next := hs'[h].next)]
        && list' == if !x.kind.Signal? || drained then [h] + list else list
  }

  ghost predicate Closes(calls: seq<Call>, x: nat) {
    exists c :: c in calls && c.Close? && c.h == x
  }

  // Just the handles that the calls close become closing, and those that are not for signals wait
  // in the loop's list.
  ghost predicate Closings(hs: seq<Handle>, list: seq<nat>, hs': seq<Handle>, list': seq<nat>, calls: seq<Call>) {
    && |hs'| == |hs|
    && forall x: nat :: x < |hs| ==>
      && hs'[x].kind == hs[x].kind
      && (hs'[x].closing <==> hs[x].closing || Closes(calls, x))
      && (!hs[x].kind.Signal? ==> (x in list' <==> x in list || (!hs[x].closing && Closes(calls, x))))
  }

  lemma {:induction false} NoClosings(hs: seq<Handle>, list: seq<nat>, hs': seq<Handle>)
    requires |hs'| == |hs|
    requires forall x: nat :: x < |hs| ==> hs'[x].kind == hs[x].kind && hs'[x].closing == hs[x].closing
    ensures Closings(hs, list, hs', list, [])
  {}

  lemma {:induction false} TouchedClosings(hs: seq<Handle>, list: seq<nat>, h: nat, x: Handle)
    requires h < |hs| && x.kind == hs[h].kind && x.closing == hs[h].closing
    ensures Closings(hs, list, hs[h := x], list, [])
  {}

  // A handle is changed before and after some calls.
  lemma {:induction false} ClosingsAround(hs: seq<Handle>, list: seq<nat>, hs0: seq<Handle>, hs1: seq<Handle>,
                                          list1: seq<nat>, hs2: seq<Handle>, calls: seq<Call>)
    requires Closings(hs, list, hs0, list, []) && Closings(hs0, list, hs1, list1, calls)
    requires Closings(hs1, list1, hs2, list1, [])
    ensures Closings(hs, list, hs2, list1, calls)
  {
    hide *;
    ClosingsOn(hs, list, hs0, list, hs1, list1, [], calls);
    ClosingsOn(hs, list, hs1, list1, hs2, list1, [] + calls, []);
    assert [] + calls + [] == calls;
  }

  lemma {:induction false} DidClosings(hs: seq<Handle>, list: seq<nat>, hs': seq<Handle>, list': seq<nat>, c: Call)
    requires c.h < |hs| && Did(hs, list, hs', list', c) && (hs[c.h].closed ==> hs[c.h].closing)
    ensures Closings(hs, list, hs', list', [c])
  {
    assert c in [c];
  }

  lemma {:induction false} ClosesJoin(a: seq<Call>, b: seq<Call>, x: nat)
    ensures Closes(a + b, x) <==> Closes(a, x) || Closes(b, x)
  {}

  lemma {:induction false} ClosingsOn(hs: seq<Handle>, list: seq<nat>, hs': seq<Handle>, list': seq<nat>,
                                      hs'': seq<Handle>, list'': seq<nat>, a: seq<Call>, b: seq<Call>)
    requires Closings(hs, list, hs', list', a) && Closings(hs', list', hs'', list'', b)
    ensures Closings(hs, list, hs'', list'', a + b)
  {
    forall x: nat | x < |hs| ensures Closes(a + b, x) <==> Closes(a, x) || Closes(b, x) {
      ClosesJoin(a, b, x);
    }
    hide Closes;
  }

  // The calls user code makes while a pass finishes the handles of `turn`.
  function MadeBy(hs: seq<Handle>, turn: seq<nat>, plans: seq<Plan>, i: nat): seq<Call>
    decreases |turn|
  {
    if turn == [] then []
    else
      (if turn[0] < |hs| then MadeFor(hs[turn[0]], PlanAt(plans, i)) else []) + MadeBy(hs, turn[1..], plans, i + 1)
  }

  function PlanAt(plans: seq<Plan>, i: nat): Plan {
    if i < |plans| then plans[i] else Plan([], [])
  }

  function MadeFor(x: Handle, plan: Plan): seq<Call> {
    (if x.kind.Stream? then plan.writes else []) + if x.hasCb then plan.calls else []
  }

  lemma {:induction false} MadeBySame(hs: seq<Handle>, hs': seq<Handle>, turn: seq<nat>, plans: seq<Plan>, i: nat)
    requires |hs| == |hs'|
    requires forall x :: x in turn && x < |hs| ==> hs'[x].hasCb == hs[x].hasCb && hs'[x].kind == hs[x].kind
    ensures MadeBy(hs', turn, plans, i) == MadeBy(hs, turn, plans, i)
    decreases |turn|
  {
    if turn != [] {
      MadeBySame(hs, hs', turn[1..], plans, i + 1);
    }
  }

  lemma {:induction false} MadeNone(hs: seq<Handle>, plans: seq<Plan>, i: nat)
    ensures MadeBy(hs, [], plans, i) == []
  {}

  lemma {:induction false} ClosingsIs(hs: seq<Handle>, list: seq<nat>, hs': seq<Handle>, list': seq<nat>,
                                      calls: seq<Call>)
    requires Closings(hs, list, hs', list', calls) && list == []
    ensures |hs'| == |hs|
    ensures forall x: nat :: x < |hs| ==> (hs'[x].closing <==> hs[x].closing || Closes(calls, x))
    ensures forall x: nat :: x < |hs| && !hs[x].kind.Signal? ==>
      (x in list' <==> !hs[x].closing && Closes(calls, x))
  {
    hide Closes;
  }

  // After one turn of a pass.
  lemma {:induction false} MadeOn(hs0: seq<Handle>, list0: seq<nat>, turn0: seq<nat>, hs: seq<Handle>, list: seq<nat>,
                                  plans: seq<Plan>, i: nat, made: seq<Call>, all: seq<Call>)
    requires turn0 != [] && turn0[0] < |hs0| && made + MadeBy(hs0, turn0, plans, i) == all
    requires Advanced(hs0[turn0[0] := hs0[turn0[0]].(closed := true)], list0, hs, list)
    requires Closings(hs0, list0, hs, list, MadeFor(hs0[turn0[0]], PlanAt(plans, i)))
    requires forall x :: x in turn0 ==> x < |hs0| && hs0[x].closing
    ensures made + MadeFor(hs0[turn0[0]], PlanAt(plans, i)) + MadeBy(hs, turn0[1..], plans, i + 1) == all
  {
    assert MadeBy(hs0, turn0, plans, i)
        == MadeFor(hs0[turn0[0]], PlanAt(plans, i)) + MadeBy(hs0, turn0[1..], plans, i + 1);
    forall x | x in turn0[1..] && x < |hs0| ensures hs[x].hasCb == hs0[x].hasCb && hs[x].kind == hs0[x].kind {
      assert x in turn0;
    }
    MadeBySame(hs0, hs, turn0[1..], plans, i + 1);
    hide *;
    Grouped(made, MadeFor(hs0[turn0[0]], PlanAt(plans, i)), MadeBy(hs0, turn0[1..], plans, i + 1));
  }

  lemma {:induction false} Grouped(a: seq<Call>, b: seq<Call>, c: seq<Call>)
    ensures a + (b + c) == a + b + c
  {}

  // The callbacks a pass makes: those of its handles that have one.
  function WithCb(hs: seq<Handle>, xs: seq<nat>): seq<nat> {
    if xs == [] then [] else (if xs[0] < |hs| && hs[xs[0]].hasCb then [xs[0]] else []) + WithCb(hs, xs[1..])
  }

  lemma {:induction false} WithCbSame(hs: seq<Handle>, hs': seq<Handle>, xs: seq<nat>)
    requires |hs| == |hs'| && forall x :: x in xs && x < |hs| ==> hs'[x].hasCb == hs[x].hasCb
    ensures WithCb(hs', xs) == WithCb(hs, xs)
  {
    if xs != [] {
      WithCbSame(hs, hs', xs[1..]);
    }
  }

  // A pass under way that began with the handles of `list0` waiting.
  ghost predicate Passing(hs0: seq<Handle>, list0: seq<nat>, log0: seq<nat>,
                          hs: seq<Handle>, list: seq<nat>, turn: seq<nat>, log: seq<nat>)
  {
    && |hs| == |hs0| && log + WithCb(hs, turn) == log0 + WithCb(hs0, list0)
    && (forall x :: x in turn ==> x in list0)
    && (forall x: nat :: x < |hs| ==> (hs[x].closed <==> hs0[x].closed || (x in list0 && x !in turn)))
    && (forall x: nat :: x < |hs| && hs0[x].closing ==> hs[x].closing)
    && (forall x :: x in list ==> 0 < x < |hs| && !hs0[x].closing)
  }

  lemma {:induction false} PassingStart(hs: seq<Handle>, turn: seq<nat>, log: seq<nat>)
    requires forall x :: x in turn ==> x < |hs| ==> hs[x].closing
    ensures Passing(hs, turn, log, hs, [], turn, log)
  {}

  lemma {:induction false} PassingOn(hs0: seq<Handle>, list0: seq<nat>, log0: seq<nat>,
                                     hs: seq<Handle>, list: seq<nat>, turn: seq<nat>, log: seq<nat>,
                                     hs': seq<Handle>, list': seq<nat>, log': seq<nat>)
    requires Passing(hs0, list0, log0, hs, list, turn, log) && turn != [] && turn[0] < |hs| && NoRepeats(turn)
    requires forall x :: x in turn ==> x < |hs| && hs[x].closing
    requires log' == if hs[turn[0]].hasCb then log + [turn[0]] else log
    requires Advanced(hs[turn[0] := hs[turn[0]].(closed := true)], list, hs', list')
    ensures Passing(hs0, list0, log0, hs', list', turn[1..], log')
  {
    var h := turn[0];
    var mid := hs[h := hs[h].(closed := true)];
    HeadOut(turn);
    PassingLog(hs, mid, hs', list, list', turn, log, log');
    assert log' + WithCb(hs', turn[1..]) == log0 + WithCb(hs0, list0);
    hide WithCb, NoRepeats;
    forall x | x in list' ensures 0 < x < |hs| && !hs0[x].closing {
      Newcomer(mid, list, hs', list', x);
    }
    hide Advanced;
    assert h in turn;
  }

  lemma {:induction false} PassingLog(hs: seq<Handle>, mid: seq<Handle>, hs': seq<Handle>, list: seq<nat>,
                                      list': seq<nat>, turn: seq<nat>, log: seq<nat>, log': seq<nat>)
    requires turn != [] && turn[0] < |hs| && mid == hs[turn[0] := hs[turn[0]].(closed := true)]
    requires Advanced(mid, list, hs', list') && forall x :: x in turn ==> x < |hs| && hs[x].closing
    requires log' == if hs[turn[0]].hasCb then log + [turn[0]] else log
    ensures log + WithCb(hs, turn) == log' + WithCb(hs', turn[1..])
  {
    WithCbSame(hs, mid, turn[1..]);
    forall x | x in turn[1..] && x < |hs| ensures hs'[x].hasCb == mid[x].hasCb {
      assert x in turn;
    }
    WithCbSame(mid, hs', turn[1..]);
    var tail := WithCb(hs, turn[1..]);
    assert log + ([turn[0]] + tail) == (log + [turn[0]]) + tail;
    assert log + ([] + tail) == log + tail;
  }

  lemma {:induction false} Newcomer(hs: seq<Handle>, list: seq<nat>, hs': seq<Handle>, list': seq<nat>, x: nat)
    requires Advanced(hs, list, hs', list') && x in list'
    ensures x in list || (0 < x < |hs| && !hs[x].closing)
  {
    var i :| 0 <= i < |list'| && list'[i] == x;
    if i >= |list'| - |list| {
      assert list'[|list'| - |list|..][i - (|list'| - |list|)] == x;
    }
  }

  lemma {:induction false} Passed(hs0: seq<Handle>, list0: seq<nat>, log0: seq<nat>, hs: seq<Handle>, list: seq<nat>,
                                  log: seq<nat>)
    requires Passing(hs0, list0, log0, hs, list, [], log)
    ensures log == log0 + WithCb(hs0, list0) && |hs| == |hs0|
    ensures forall x: nat :: x < |hs| ==> (hs[x].closed <==> hs0[x].closed || x in list0)
    ensures forall x :: x in list ==> 0 < x < |hs| && !hs0[x].closing
  {
    assert WithCb(hs, []) == [] && log + [] == log;
  }

  class Loop {
    var hs: seq<Handle>
    var closingHandles: nat
    var activeHandles: int
    var log: seq<nat>         // close callbacks made
    ghost var list: seq<nat>  // what loop->closing_handles links
    ghost var turn: seq<nat>  // what is left of a closing pass

    ghost predicate Valid()
      reads this
    {
      Sound(hs, closingHandles, list, turn, log) && activeHandles == Counted(hs)
    }

    // uv__handle_init for each handle
    constructor (kinds: seq<Kind>)
      ensures Valid() && |hs| == |kinds| && list == [] && turn == [] && log == []
    {
      hs := seq(|kinds|, i requires 0 <= i < |kinds| => Handle(kinds[i], false, true, false, false, false, 0));
      closingHandles, activeHandles, log, list, turn := 0, 0, [], [], [];
      new;
      CountedBounds(hs);
    }

    // uv__loop_alive without the requests
    method Alive() returns (r: bool)
      requires Valid()
      ensures r <==> (exists h :: 0 <= h < |hs| && hs[h].active && hs[h].ref) || list != []
    {
      CountedBounds(hs);
      r := activeHandles > 0 || closingHandles != 0;
    }

    // uv__handle_start
    method HandleStart(h: nat)
      requires Valid() && 0 < h < |hs|
      modifies this`hs, this`activeHandles
      ensures Valid() && hs == old(hs)[h := old(hs[h]).(active := true)]
    {
      if hs[h].active {
        assert hs == hs[h := hs[h].(active := true)];
        return;
      }
      Touched(hs, closingHandles, list, turn, log, h, hs[h].(active := true));
      CountedUpdate(hs, h, hs[h].(active := true));
      hide Sound, Counted;
      hs := hs[h := hs[h].(active := true)];
      if hs[h].ref {
        activeHandles := activeHandles + 1;
      }
    }

    // uv__handle_stop
    method HandleStop(h: nat)
      requires Valid() && 0 < h < |hs|
      modifies this`hs, this`activeHandles
      ensures Valid() && hs == old(hs)[h := old(hs[h]).(active := false)]
    {
      if !hs[h].active {
        assert hs == hs[h := hs[h].(active := false)];
        return;
      }
      Touched(hs, closingHandles, list, turn, log, h, hs[h].(active := false));
      CountedUpdate(hs, h, hs[h].(active := false));
      hide Sound, Counted;
      hs := hs[h := hs[h].(active := false)];
      if hs[h].ref {
        activeHandles := activeHandles - 1;
      }
    }

    // uv__handle_ref
    method HandleRef(h: nat)
      requires Valid() && 0 < h < |hs| && !hs[h].closed
      modifies this`hs, this`activeHandles
      ensures Valid() && hs == old(hs)[h := old(hs[h]).(ref := true)]
    {
      if hs[h].ref {
        assert hs == hs[h := hs[h].(ref := true)];
        return;
      }
      Touched(hs, closingHandles, list, turn, log, h, hs[h].(ref := true));
      CountedUpdate(hs, h, hs[h].(ref := true));
      hide Sound, Counted;
      hs := hs[h := hs[h].(ref := true)];
      if hs[h].active {
        activeHandles := activeHandles + 1;
      }
    }

    // uv__handle_unref
    method HandleUnref(h: nat)
      requires Valid() && 0 < h < |hs|
      modifies this`hs, this`activeHandles
      ensures Valid() && hs == old(hs)[h := old(hs[h]).(ref := false)]
    {
      if !hs[h].ref {
        assert hs == hs[h := hs[h].(ref := false)];
        return;
      }
      Touched(hs, closingHandles, list, turn, log, h, hs[h].(ref := false));
      CountedUpdate(hs, h, hs[h].(ref := false));
      hide Sound, Counted;
      hs := hs[h := hs[h].(ref := false)];
      if hs[h].active {
        activeHandles := activeHandles - 1;
      }
    }

    // uv__make_close_pending; Close and the signal pipe call it.
    method MakeClosePending(h: nat)
      requires Valid() && 0 < h < |hs| && hs[h].closing && !hs[h].closed && h !in list && h !in turn
      modifies this`hs, this`closingHandles, this`list
      ensures Valid() && list == [h] + old(list) && hs == old(hs)[h := old(hs[h]).(next := old(closingHandles))]
    {
      PendingOk(hs, closingHandles, list, turn, log, h);
      CountedUpdate(hs, h, hs[h].(next := closingHandles));
      hide Sound, Counted;
      hs := hs[h := hs[h].(next := closingHandles)];
      closingHandles := h;
      list := [h] + list;
    }

    // uv_close. The handle stops; one that is not for signals, or whose signals have all been
    // dispatched, is close-pending at once.
    method Close(h: nat, cb: bool, drained: bool)
      requires Valid() && 0 < h < |hs| && !hs[h].closing && !hs[h].closed
      modifies this`hs, this`activeHandles, this`closingHandles, this`list
      ensures Valid() && |hs| == |old(hs)|
      ensures list == if !hs[h].kind.Signal? || drained then [h] + old(list) else old(list)
      ensures hs == old(hs)[h := old(hs[h]).(closing := true, active := false, hasCb := cb, next := hs[h].next)]
    {
      HandleStop(h);
      hide *;
      if !hs[h].kind.Signal? || drained {
        CloseNow(h, cb);
      } else {
        CloseLater(h, cb);
      }
    }

    method CloseNow(h: nat, cb: bool)
      requires Valid() && 0 < h < |hs| && !hs[h].closing && !hs[h].closed
      modifies this`hs, this`closingHandles, this`list
      ensures Valid() && list == [h] + old(list)
      ensures hs == old(hs)[h := old(hs[h]).(closing := true, hasCb := cb, next := old(closingHandles))]
    {
      var x := hs[h].(closing := true, hasCb := cb, next := closingHandles);
      ClosedOk(hs, closingHandles, list, turn, log, h, x);
      CountedUpdate(hs, h, x);
      hide Sound, Counted;
      hs := hs[h := x];
      closingHandles := h;
      list := [h] + list;
    }

    method CloseLater(h: nat, cb: bool)
      requires Valid() && 0 < h < |hs| && !hs[h].closing && !hs[h].closed && hs[h].kind.Signal?
      modifies this`hs
      ensures Valid() && hs == old(hs)[h := old(hs[h]).(closing := true, hasCb := cb)]
    {
      var x := hs[h].(closing := true, hasCb := cb);
      ClosedOk(hs, closingHandles, list, turn, log, h, x);
      CountedUpdate(hs, h, x);
      hide Sound, Counted;
      hs := hs[h := x];
    }

    // A call of the interface.
    method Do(c: Call)
      requires Valid() && 0 < c.h < |hs|
      modifies this`hs, this`activeHandles, this`closingHandles, this`list
      ensures Valid() && Did(old(hs), old(list), hs, list, c)
      ensures Advanced(old(hs), old(list), hs, list) && Closings(old(hs), old(list), hs, list, [c])
    {
      assert hs == hs[c.h := hs[c.h]];
      assert SoundHandle(hs[c.h], c.h in list || c.h in turn, c.h in log);
      ghost var x := hs[c.h];
      assert x.closed ==> x.closing;
      hide Sound, SoundHandle, Counted, Advanced, Closings;
      if hs[c.h].closed || (c.Close? && hs[c.h].closing) {
        AdvancedOne(hs, list, c.h, hs[c.h], list);
        DidClosings(old(hs), old(list), hs, list, c);
        return;
      }
      match c {
        case Start(h) =>
          HandleStart(h);
          AdvancedOne(old(hs), list, h, x.(active := true), list);
        case Stop(h) =>
          HandleStop(h);
          AdvancedOne(old(hs), list, h, x.(active := false), list);
        case Ref(h) =>
          HandleRef(h);
          AdvancedOne(old(hs), list, h, x.(ref := true), list);
        case Unref(h) =>
          HandleUnref(h);
          AdvancedOne(old(hs), list, h, x.(ref := false), list);
        case Close(h, cb, drained) =>
          Close(h, cb, drained);
          AdvancedOne(old(hs), old(list), h, x.(closing := true, active := false, hasCb := cb, next := hs[h].next),
                      list);
      }
      DidClosings(old(hs), old(list), hs, list, c);
    }

    method Callback(calls: seq<Call>)
      requires Valid() && forall c :: c in calls ==> 0 < c.h < |hs|
      modifies this`hs, this`activeHandles, this`closingHandles, this`list
      ensures Valid() && Advanced(old(hs), old(list), hs, list) && Closings(old(hs), old(list), hs, list, calls)
    {
      assert calls[..0] == [];
      AdvancedSame(hs, list);
      NoClosings(hs, list, hs);
      hide Sound, Counted, Advanced, Closings, Did;
      for i := 0 to |calls|
        invariant Valid() && |hs| == |old(hs)|
        invariant Advanced(old(hs), old(list), hs, list) && Closings(old(hs), old(list), hs, list, calls[..i])
      {
        ghost var was, xs := hs, list;
        assert calls[i] in calls && calls[..i + 1] == calls[..i] + [calls[i]];
        Do(calls[i]);
        AdvancedSize(was, xs, hs, list);
        AdvancedOn(old(hs), old(list), was, xs, hs, list);
        ClosingsOn(old(hs), old(list), was, xs, hs, list, calls[..i], [calls[i]]);
      }
      assert calls[..|calls|] == calls;
    }

    // uv__finish_close of the pass's next handle up to its close callback. A stream's write
    // callbacks are made while the handle is still in the list.
    method Flagged(p: nat, writes: seq<Call>)
      requires Valid() && turn != [] && p == turn[0] && p < |hs| && !hs[p].closed
      requires forall c :: c in writes ==> 0 < c.h < |hs|
      modifies this
      ensures Valid() && turn == old(turn) && log == old(log) && 0 < p < |hs| && hs[p].closed && !hs[p].ref
      ensures Advanced(old(hs)[p := old(hs)[p].(closed := true)], old(list), hs, list)
      ensures |hs| == |old(hs)| && hs[p].hasCb == old(hs)[p].hasCb
      ensures Closings(old(hs), old(list), hs, list, if old(hs)[p].kind.Stream? then writes else [])
    {
      hide Sound, SoundHandle, Counted, Advanced, Closings;
      FlagOk(hs, closingHandles, list, turn, log);
      CountedUpdate(hs, p, hs[p].(closed := true));
      assert Weight(hs[p].(closed := true)) == Weight(hs[p]);
      hs := hs[p := hs[p].(closed := true)];
      ghost var hs0, list0, made := hs, list, if hs[p].kind.Stream? then writes else [];
      TouchedClosings(old(hs), list, p, hs[p]);
      NoClosings(hs, list, hs);
      AdvancedSame(hs, list);
      if hs[p].kind.Stream? {
        Callback(writes);
      }
      AdvancedAt(hs0, list0, hs, list, p);
      ghost var hs1, list1 := hs, list;
      HandleUnref(p);
      AdvancedOne(hs1, list1, p, hs1[p].(ref := false), list1);
      AdvancedOn(hs0, list0, hs1, list1, hs, list);
      TouchedClosings(hs1, list1, p, hs1[p].(ref := false));
      ClosingsAround(old(hs), list0, hs0, hs1, list1, hs, made);
    }

    // uv__finish_close of the pass's next handle; the rest of the pass is as it was.
    method FinishClose(p: nat, writes: seq<Call>, calls: seq<Call>)
      requires Valid() && turn != [] && p == turn[0] && p < |hs| && !hs[p].closed
      requires forall c :: c in writes || c in calls ==> 0 < c.h < |hs|
      modifies this
      ensures Valid() && turn == old(turn)[1..] && 0 < p < |old(hs)|
      ensures turn != [] ==> turn[0] < |hs| && !hs[turn[0]].closed
      ensures log == if old(hs)[p].hasCb then old(log) + [p] else old(log)
      ensures Advanced(old(hs)[p := old(hs)[p].(closed := true)], old(list), hs, list)
      ensures Closings(old(hs), old(list), hs, list, MadeFor(old(hs)[p], Plan(writes, calls)))
    {
      hide Sound, Counted, Advanced, Closings;
      Flagged(p, writes);
      ghost var made := if old(hs)[p].kind.Stream? then writes else [];
      assert made + [] == made;
      FinishOk(hs, closingHandles, list, turn, log);
      NextOpen(hs, closingHandles, list, turn, log);
      turn := turn[1..];
      if hs[p].hasCb {
        log := log + [p];
        ghost var hs2, list2 := hs, list;
        Callback(calls);
        ClosingsOn(old(hs), old(list), hs2, list2, hs, list, made, calls);
        AdvancedOn(old(hs)[p := old(hs)[p].(closed := true)], old(list), hs2, list2, hs, list);
        if turn != [] {
          AdvancedAt(hs2, list2, hs, list, turn[0]);
        }
      }
    }

    // The loop's list becomes that of the pass.
    method Begin() returns (p: nat)
      requires Valid() && turn == []
      modifies this`closingHandles, this`list, this`turn
      ensures Valid() && turn == old(list) && list == [] && p == First(turn)
      ensures turn != [] ==> turn[0] < |hs| && !hs[turn[0]].closed
    {
      assert Chain(hs, 0, []) && closingHandles == First(list);
      p := closingHandles;
      closingHandles := 0;
      turn, list := list, [];
      assert turn != [] ==> turn[0] in turn;
    }

    // uv__run_closing_handles: the pass calls back the handles that waited when it began, in
    // the order of the list; those closed meanwhile wait for the next pass.
    method RunClosing(plans: seq<Plan>)
      requires Valid() && turn == []
      requires forall i, c :: 0 <= i < |plans| && (c in plans[i].writes || c in plans[i].calls) ==> 0 < c.h < |hs|
      modifies this
      ensures Valid() && turn == [] && |hs| == |old(hs)|
      ensures log == old(log) + WithCb(old(hs), old(list))
      ensures forall x: nat :: x < |hs| ==> (hs[x].closed <==> old(hs)[x].closed || x in old(list))
      ensures forall x: nat :: 0 < x < |hs| && !old(hs)[x].kind.Signal? && old(hs)[x].closing ==> hs[x].closed
      ensures forall x :: x in list ==> 0 < x < |hs| && hs[x].closing && !old(hs)[x].closing
      ensures forall x: nat :: x < |hs| ==>
        (hs[x].closing <==> old(hs)[x].closing || Closes(MadeBy(old(hs), old(list), plans, 0), x))
      ensures forall x: nat :: x < |hs| && !old(hs)[x].kind.Signal? ==>
        (x in list <==> !old(hs)[x].closing && Closes(MadeBy(old(hs), old(list), plans, 0), x))
    {
      hide Sound, Counted, WithCb, Advanced, Closings, Closes, MadeBy, MadeFor;
      InLists();
      ghost var all := MadeBy(hs, list, plans, 0);
      ghost var made: seq<Call> := [];
      NoClosings(hs, [], hs);
      assert [] + all == all;
      var p := Begin();
      var i := 0;
      PassingStart(hs, turn, log);
      InLists();
      while p != 0
        invariant Valid() && p == First(turn) && (p == 0 <==> turn == [])
        invariant turn != [] ==> turn[0] < |hs| && !hs[turn[0]].closed
        invariant Passing(old(hs), old(list), old(log), hs, list, turn, log)
        invariant Closings(old(hs), [], hs, list, made) && made + MadeBy(hs, turn, plans, i) == all
        decreases |turn|
      {
        Heads(hs, closingHandles, list, turn, log);
        var q := hs[p].next;
        ghost var hs0, list0, turn0, log0 := hs, list, turn, log;
        FinishClose(p, PlanAt(plans, i).writes, PlanAt(plans, i).calls);
        ClosingsOn(old(hs), [], hs0, list0, hs, list, made, MadeFor(hs0[p], PlanAt(plans, i)));
        MadeOn(hs0, list0, turn0, hs, list, plans, i, made, all);
        made := made + MadeFor(hs0[p], PlanAt(plans, i));
        PassingOn(old(hs), old(list), old(log), hs0, list0, turn0, log0, hs, list, log);
        p := q;
        i := i + 1;
        InLists();
      }
      Passed(old(hs), old(list), old(log), hs, list, log);
      InLists();
      MadeNone(hs, plans, i);
      assert made + [] == made;
      ClosingsIs(old(hs), [], hs, list, made);
    }

    lemma {:induction false} InLists()
      requires Valid()
      ensures forall x :: x in list || x in turn ==> 0 < x < |hs| && hs[x].closing
      ensures First(turn) == 0 <==> turn == []
      ensures forall x: nat :: 0 < x < |hs| && !hs[x].kind.Signal? && hs[x].closing && !hs[x].closed ==>
        x in list || x in turn
    {
      forall x: nat | 0 < x < |hs| && !hs[x].kind.Signal? && hs[x].closing && !hs[x].closed
        ensures x in list || x in turn {
        assert SoundHandle(hs[x], x in list || x in turn, x in log);
      }
      assert turn != [] ==> turn[0] in turn;
      forall x | x in list || x in turn ensures 0 < x < |hs| && hs[x].closing {
        assert SoundHandle(hs[x], x in list || x in turn, x in log);
      }
    }
  }

  lemma {:induction false} Heads(hs: seq<Handle>, head: nat, list: seq<nat>, turn: seq<nat>, log: seq<nat>)
    requires Sound(hs, head, list, turn, log) && turn != []
    ensures 0 < turn[0] < |hs| && hs[turn[0]].next == First(turn[1..])
    ensures NoRepeats(turn) && forall x :: x in turn ==> 0 < x < |hs| && hs[x].closing
  {
    var h := turn[0];
    assert h in turn && Chain(hs, hs[h].next, turn[1..]);
    forall x | x in turn ensures 0 < x < |hs| && hs[x].closing {
      assert SoundHandle(hs[x], x in list || x in turn, x in log);
    }
  }

  // The handle after the first one of the pass is not closed yet.
  lemma {:induction false} NextOpen(hs: seq<Handle>, head: nat, list: seq<nat>, turn: seq<nat>, log: seq<nat>)
    requires Sound(hs, head, list, turn, log) && turn != []
    ensures turn[1..] != [] ==> turn[1..][0] < |hs| && !hs[turn[1..][0]].closed
  {
    if |turn| > 1 {
      assert turn[1..][0] == turn[1] && turn[1] in turn;
    }
  }
}
