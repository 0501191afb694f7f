/** Watchers called once per loop iteration (src/unix/loop-watcher_prepare.cpp; idle and
check watchers are copies of it). Callbacks may start and stop any watchers.
*/
module Watchers {
  import opened Seqs
  import opened Queue

  const HEAD: nat := 0   // loop->prepare_handles
  const LOCAL: nat := 1  // the queue on the stack of uv__run_prepare

  datatype Call = Start(h: nat) | Stop(h: nat)

  // xs without the watchers that the calls stop.
  function Spared(xs: seq<nat>, calls: seq<Call>): (r: seq<nat>)
    ensures |r| <= |xs|
  {
    if xs == [] then []
    else if Stop(xs[0]) in calls then Spared(xs[1..], calls)
    else [xs[0]] + Spared(xs[1..], calls)
  }

  function Plan(plans: seq<seq<Call>>): seq<Call> {
    if plans == [] then [] else plans[0]
  }

  function Later(plans: seq<seq<Call>>): seq<seq<Call>> {
    if plans == [] then [] else plans[1..]
  }

  // The watchers one pass calls, if `xs` are active and the callbacks make the calls planned.
  function Called(xs: seq<nat>, plans: seq<seq<Call>>): seq<nat>
    decreases |xs|
  {
    if xs == [] then [] else [xs[0]] + Called(Spared(xs[1..], Plan(plans)), Later(plans))
  }

  lemma {:induction false} SparedIs(xs: seq<nat>, calls: seq<Call>, x: nat)
    ensures x in Spared(xs, calls) <==> x in xs && Stop(x) !in calls
    ensures NoRepeats(xs) ==> NoRepeats(Spared(xs, calls))
  {
    if xs != [] {
      SparedIs(xs[1..], calls, x);
      SparedIs(xs[1..], calls, xs[0]);
      if NoRepeats(xs) {
        HeadOut(xs);
        Joined([xs[0]], Spared(xs[1..], calls));
      }
    }
  }

  // Whether one of the first n callbacks stops x.
  ghost predicate StoppedBefore(plans: seq<seq<Call>>, n: nat, x: nat) {
    exists i :: 0 <= i < n && i < |plans| && Stop(x) in plans[i]
  }

  lemma {:induction false} NotStopped(plans: seq<seq<Call>>, j: nat, x: nat)
    requires j > 0 && Stop(x) !in Plan(plans) && !StoppedBefore(Later(plans), j - 1, x)
    ensures !StoppedBefore(plans, j, x)
  {
    forall i | 0 <= i < j && i < |plans| ensures Stop(x) !in plans[i] {
      assert i > 0 ==> plans[i] == Later(plans)[i - 1];
    }
  }

  // Each active watcher is called once at its turn unless a callback before stopped it; no
  // other watcher is called, not even one started meanwhile.
  lemma {:induction false} CalledOnce(xs: seq<nat>, plans: seq<seq<Call>>)
    requires NoRepeats(xs)
    ensures NoRepeats(Called(xs, plans))
    ensures forall j :: 0 <= j < |Called(xs, plans)| ==>
      Called(xs, plans)[j] in xs && !StoppedBefore(plans, j, Called(xs, plans)[j])
    ensures forall x :: x in xs && x !in Called(xs, plans) ==> StoppedBefore(plans, |Called(xs, plans)|, x)
    decreases |xs|
  {
    if xs != [] {
      var rest := Spared(xs[1..], Plan(plans));
      HeadOut(xs);
      SparedIs(xs[1..], Plan(plans), xs[0]);
      CalledOnce(rest, Later(plans));
      var log, tail := Called(xs, plans), Called(rest, Later(plans));
      forall j | 0 < j < |log| ensures log[j] in xs && log[j] != xs[0] && !StoppedBefore(plans, j, log[j]) {
        assert log[j] == tail[j - 1] && tail[j - 1] in rest;
        SparedIs(xs[1..], Plan(plans), log[j]);
        NotStopped(plans, j, log[j]);
      }
      Joined([xs[0]], tail);
      forall x | x in xs && x !in log ensures StoppedBefore(plans, |log|, x) {
        SparedIs(xs[1..], Plan(plans), x);
        if x in rest {
          assert x !in tail;
          var i :| 0 <= i < |tail| && i < |Later(plans)| && Stop(x) in Later(plans)[i];
          assert Stop(x) in plans[i + 1];
        } else {
          assert Stop(x) in plans[0];
        }
      }
    }
  }

  // Stopping one more watcher.
  lemma {:induction false} SparedStop(xs: seq<nat>, calls: seq<Call>, h: nat)
    ensures Spared(xs, calls + [Stop(h)]) == Without(Spared(xs, calls), h)
  {
    if xs != [] {
      SparedStop(xs[1..], calls, h);
      assert Stop(xs[0]) in calls + [Stop(h)] <==> Stop(xs[0]) in calls || xs[0] == h;
    }
  }

  lemma {:induction false} SparedStart(xs: seq<nat>, calls: seq<Call>, h: nat)
    ensures Spared(xs, calls + [Start(h)]) == Spared(xs, calls)
  {
    if xs != [] {
      SparedStart(xs[1..], calls, h);
      assert Stop(xs[0]) in calls + [Start(h)] <==> Stop(xs[0]) in calls;
    }
  }

  lemma {:induction false} SparedNone(xs: seq<nat>)
    ensures Spared(xs, []) == xs
  {
    if xs != [] {
      SparedNone(xs[1..]);
    }
  }

  // -- What a pass leaves ------------------------------------------------------------------------

  // What the loop's list and the queue of the pass hold.
  datatype Lists = Lists(waiting: seq<nat>, turn: seq<nat>)

  // A watcher that starts goes to the front of the loop's list; one that stops leaves its list.
  function After(l: Lists, c: Call): (r: Lists)
    ensures |r.turn| <= |l.turn|
  {
    match c
    case Start(h) => if h in l.waiting || h in l.turn then l else l.(waiting := [h] + l.waiting)
    case Stop(h) =>
      WithoutShorter(l.turn, h);
      Lists(Without(l.waiting, h), Without(l.turn, h))
  }

  lemma {:induction false} WithoutShorter(xs: seq<nat>, h: nat)
    ensures |Without(xs, h)| <= |xs|
  {
    WithoutIs(xs, h);
  }

  function AfterAll(l: Lists, calls: seq<Call>): (r: Lists)
    ensures |r.turn| <= |l.turn|
  {
    if calls == [] then l else After(AfterAll(l, calls[..|calls| - 1]), calls[|calls| - 1])
  }

  // The first watcher of the queue goes to the end of the loop's list, and its callback is made.
  function Passed(l: Lists, plans: seq<seq<Call>>): seq<nat>
    decreases |l.turn|
  {
    if l.turn == [] then l.waiting
    else Passed(AfterAll(Lists(l.waiting + [l.turn[0]], l.turn[1..]), Plan(plans)), Later(plans))
  }

  lemma {:induction false} PassedStep(l: Lists, plans: seq<seq<Call>>)
    requires l.turn != []
    ensures Passed(l, plans)
         == Passed(AfterAll(Lists(l.waiting + [l.turn[0]], l.turn[1..]), Plan(plans)), Later(plans))
  {}

  lemma {:induction false} PassEnds(l: Lists, plans: seq<seq<Call>>)
    requires l.turn == []
    ensures Passed(l, plans) == l.waiting && Called(l.turn, plans) == []
  {}

  // Whether x is active after some calls.
  function OnAfter(on: bool, calls: seq<Call>, x: nat): bool {
    if calls == [] then on
    else
      var last := |calls| - 1;
      if calls[last].h == x then calls[last].Start? else OnAfter(on, calls[..last], x)
  }

  // The calls that the first n callbacks make.
  function CallsOf(plans: seq<seq<Call>>, n: nat): seq<Call> {
    if n == 0 then [] else Plan(plans) + CallsOf(Later(plans), n - 1)
  }

  lemma {:induction false} OnAfterJoin(on: bool, a: seq<Call>, b: seq<Call>, x: nat)
    ensures OnAfter(on, a + b, x) == OnAfter(OnAfter(on, a, x), b, x)
  {
    if b == [] {
      assert a + b == a;
    } else {
      OnAfterJoin(on, a, b[..|b| - 1], x);
      assert (a + b)[..|a + b| - 1] == a + b[..|b| - 1];
    }
  }

  lemma {:induction false} AfterAllIs(l: Lists, calls: seq<Call>, x: nat)
    ensures AfterAll(l, calls).turn == Spared(l.turn, calls)
    ensures var r := AfterAll(l, calls);
      x in r.waiting || x in r.turn <==> OnAfter(x in l.waiting || x in l.turn, calls, x)
  {
    if calls == [] {
      SparedNone(l.turn);
    } else {
      var last := |calls| - 1;
      var was := AfterAll(l, calls[..last]);
      assert calls == calls[..last] + [calls[last]];
      AfterAllIs(l, calls[..last], x);
      if calls[last].Start? {
        SparedStart(l.turn, calls[..last], calls[last].h);
      } else {
        SparedStop(l.turn, calls[..last], calls[last].h);
        WithoutKeeps(was.waiting, calls[last].h);
        WithoutKeeps(was.turn, calls[last].h);
      }
    }
  }

  // After a pass a watcher is active if the last call for it, among those the callbacks made, started
  // it, or if there was none and it was active before.
  lemma {:induction false} PassedActive(l: Lists, plans: seq<seq<Call>>, x: nat)
    ensures x in Passed(l, plans)
      <==> OnAfter(x in l.waiting || x in l.turn, CallsOf(plans, |Called(l.turn, plans)|), x)
    decreases |l.turn|
  {
    if l.turn != [] {
      var next := Lists(l.waiting + [l.turn[0]], l.turn[1..]);
      AfterAllIs(next, Plan(plans), x);
      PassedActive(AfterAll(next, Plan(plans)), Later(plans), x);
      var n := |Called(l.turn, plans)|;
      assert Called(l.turn, plans) == [l.turn[0]] + Called(Spared(l.turn[1..], Plan(plans)), Later(plans));
      OnAfterJoin(x in l.waiting || x in l.turn, Plan(plans), CallsOf(Later(plans), n - 1), x);
      assert x in l.turn <==> x == l.turn[0] || x in l.turn[1..];
    }
  }

  // The watchers of a list that no call names.
  function Untouched(xs: seq<nat>, named: set<nat>): seq<nat> {
    if xs == [] then []
    else Untouched(xs[..|xs| - 1], named) + if xs[|xs| - 1] in named then [] else [xs[|xs| - 1]]
  }

  lemma {:induction false} UntouchedJoin(a: seq<nat>, b: seq<nat>, named: set<nat>)
    ensures Untouched(a + b, named) == Untouched(a, named) + Untouched(b, named)
  {
    if b == [] {
      assert a + b == a;
    } else {
      UntouchedJoin(a, b[..|b| - 1], named);
      assert (a + b)[..|a + b| - 1] == a + b[..|b| - 1];
    }
  }

  lemma {:induction false} UntouchedOne(x: nat, named: set<nat>)
    ensures Untouched([x], named) == if x in named then [] else [x]
  {}

  lemma {:induction false} UntouchedWithout(xs: seq<nat>, h: nat, named: set<nat>)
    requires h in named
    ensures Untouched(Without(xs, h), named) == Untouched(xs, named)
  {
    if xs != [] {
      UntouchedWithout(xs[1..], h, named);
      assert xs == [xs[0]] + xs[1..];
      UntouchedJoin([xs[0]], xs[1..], named);
      UntouchedOne(xs[0], named);
      if xs[0] != h {
        UntouchedJoin([xs[0]], Without(xs[1..], h), named);
      }
    }
  }

  lemma {:induction false} AfterUntouched(l: Lists, calls: seq<Call>, named: set<nat>)
    requires forall c :: c in calls ==> c.h in named
    ensures var r := AfterAll(l, calls);
      Untouched(r.waiting, named) == Untouched(l.waiting, named) && Untouched(r.turn, named) == Untouched(l.turn, named)
  {
    if calls != [] {
      var last := |calls| - 1;
      var was, h := AfterAll(l, calls[..last]), calls[last].h;
      assert calls[last] in calls && forall c :: c in calls[..last] ==> c in calls;
      AfterUntouched(l, calls[..last], named);
      UntouchedJoin([h], was.waiting, named);
      UntouchedOne(h, named);
      UntouchedWithout(was.waiting, h, named);
      UntouchedWithout(was.turn, h, named);
    }
  }

  lemma {:induction false} UntouchedTurn(waiting: seq<nat>, turn: seq<nat>, named: set<nat>)
    requires turn != []
    ensures Untouched(waiting + [turn[0]], named) + Untouched(turn[1..], named)
         == Untouched(waiting, named) + Untouched(turn, named)
  {
    assert turn == [turn[0]] + turn[1..];
    UntouchedJoin(waiting, [turn[0]], named);
    UntouchedJoin([turn[0]], turn[1..], named);
    Grouped(Untouched(waiting, named), Untouched([turn[0]], named), Untouched(turn[1..], named));
    hide *;
  }

  lemma {:induction false} Grouped(a: seq<nat>, b: seq<nat>, c: seq<nat>)
    ensures a + b + c == a + (b + c)
  {}

  lemma {:induction false} LaterNamed(plans: seq<seq<Call>>, named: set<nat>)
    requires forall i, c :: 0 <= i < |plans| && c in plans[i] ==> c.h in named
    ensures forall c :: c in Plan(plans) ==> c.h in named
    ensures forall i, c :: 0 <= i < |Later(plans)| && c in Later(plans)[i] ==> c.h in named
  {}

  // Watchers that no call names keep their order over a pass.
  lemma {:induction false} PassedOrder(l: Lists, plans: seq<seq<Call>>, named: set<nat>)
    requires forall i, c :: 0 <= i < |plans| && c in plans[i] ==> c.h in named
    ensures Untouched(Passed(l, plans), named) == Untouched(l.waiting, named) + Untouched(l.turn, named)
    decreases |l.turn|
  {
    if l.turn == [] {
      assert Untouched(l.turn, named) == [] && Passed(l, plans) == l.waiting;
    } else {
      var next := Lists(l.waiting + [l.turn[0]], l.turn[1..]);
      hide *;
      PassedStep(l, plans);
      LaterNamed(plans, named);
      AfterUntouched(next, Plan(plans), named);
      PassedOrder(AfterAll(next, Plan(plans)), Later(plans), named);
      UntouchedTurn(l.waiting, l.turn, named);
    }
  }

  // An element splits its list in two.
  lemma {:induction false} SplitAt(xs: seq<nat>, h: nat) returns (a: seq<nat>, b: seq<nat>)
    requires h in xs && NoRepeats(xs)
    ensures xs == a + [h] + b && Without(xs, h) == a + b
  {
    if xs[0] == h {
      a, b := [], xs[1..];
      HeadOut(xs);
      WithoutAbsent(b, h);
    } else {
      HeadOut(xs);
      a, b := SplitAt(xs[1..], h);
      a := [xs[0]] + a;
    }
  }

  lemma {:induction false} WithoutAbsent(xs: seq<nat>, h: nat)
    requires h !in xs
    ensures Without(xs, h) == xs
  {
    if xs != [] {
      WithoutAbsent(xs[1..], h);
    }
  }

  // The two lists share no watcher and hold just the active ones.
  ghost predicate Sound(c: seq<Links>, active: seq<bool>, waiting: seq<nat>, turn: seq<nat>) {
    && |active| == |c|
    && List(c, HEAD, waiting) && List(c, LOCAL, turn)
    && NoRepeats(waiting) && NoRepeats(turn)
    && (forall x :: x in waiting ==> x !in turn)
    && (forall x :: x in waiting || x in turn ==> 2 <= x < |active|)
    && (forall x :: 2 <= x < |active| ==> (active[x] <==> x in waiting || x in turn))
  }

  // Taking h out of one list leaves the other one as it is.
  lemma {:induction false} StopFrame(c: seq<Links>, c': seq<Links>, head: nat, a: seq<nat>, h: nat, b: seq<nat>,
                                     xs: seq<nat>, other: nat, ys: seq<nat>)
    requires List(c, other, ys) && Wrote(c, c', {Last(head, a)}, {First(head, b)}) && head < 2 && other < 2
      && head != other
    requires xs == a + [h] + b && (forall x :: x in xs ==> x >= 2 && x !in ys) && forall x :: x in ys ==> x >= 2
    ensures List(c', other, ys)
  {
    EndsIn(head, a);
    EndsIn(head, b);
    assert forall x :: x in a || x in b ==> x in xs;
    ListFrame(c, c', {Last(head, a)}, {First(head, b)}, other, ys);
  }

  lemma {:induction false} StopOk(c: seq<Links>, c': seq<Links>, active: seq<bool>, waiting: seq<nat>, turn: seq<nat>,
                                  h: nat)
    requires Sound(c, active, waiting, turn) && (h in waiting || h in turn) && |c| == |c'|
    requires List(c', HEAD, Without(waiting, h)) && List(c', LOCAL, Without(turn, h))
    ensures Sound(c', active[h := false], Without(waiting, h), Without(turn, h))
  {
    WithoutKeeps(waiting, h);
    WithoutKeeps(turn, h);
    hide List, Without, NoRepeats;
  }

  lemma {:induction false} StopLists(c: seq<Links>, c': seq<Links>, active: seq<bool>, waiting: seq<nat>,
                                     turn: seq<nat>, h: nat, a: seq<nat>, b: seq<nat>)
    requires Sound(c, active, waiting, turn) && (h in waiting || h in turn)
    requires var xs := if h in waiting then waiting else turn; xs == a + [h] + b && Without(xs, h) == a + b
    requires var head := if h in waiting then HEAD else LOCAL;
      List(c', head, a + b) && Wrote(c, c', {Last(head, a)}, {First(head, b)})
    ensures |c| == |c'| && List(c', HEAD, Without(waiting, h)) && List(c', LOCAL, Without(turn, h))
  {
    if h in waiting {
      WithoutAbsent(turn, h);
      StopFrame(c, c', HEAD, a, h, b, waiting, LOCAL, turn);
    } else {
      WithoutAbsent(waiting, h);
      StopFrame(c, c', LOCAL, a, h, b, turn, HEAD, waiting);
    }
  }

  // One turn of a pass.
  lemma {:induction false} CalledStep(xs: seq<nat>, plans: seq<seq<Call>>, log: seq<nat>)
    requires xs != []
    ensures log + Called(xs, plans) == log + [xs[0]] + Called(Spared(xs[1..], Plan(plans)), Later(plans))
  {}

  class Loop {
    const memory: Memory
    var active: seq<bool>        // UV__HANDLE_ACTIVE
    ghost var waiting: seq<nat>  // what loop->prepare_handles holds
    ghost var turn: seq<nat>     // what the queue of the pass holds

    ghost predicate Valid()
      reads this, memory
    {
      Sound(memory.cells, active, waiting, turn)
    }

    constructor (size: nat)
      requires size >= 2
      ensures Valid() && fresh(memory) && |active| == size && waiting == [] && turn == []
    {
      memory := new Memory(seq(size, i requires 0 <= i => Links(i, i)));
      active := seq(size, _ => false);
      waiting, turn := [], [];
      new;
    }

    // uv_prepare_start with a callback
    method StartOne(h: nat)
      requires Valid() && 2 <= h < |active|
      modifies this, memory
      ensures Valid() && |active| == old(|active|) && turn == old(turn)
      ensures waiting == if old(active[h]) then old(waiting) else [h] + old(waiting)
      ensures Lists(waiting, turn) == After(Lists(old(waiting), old(turn)), Start(h))
    {
      if active[h] {
        return;
      }
      EndsIn(HEAD, waiting);
      memory.InsertHead(HEAD, h, waiting);
      ListFrame(old(memory.cells), memory.cells, {h, HEAD}, {h, First(HEAD, waiting)}, LOCAL, turn);
      Joined([h], waiting);
      waiting := [h] + waiting;
      active := active[h := true];
    }

    // uv_prepare_stop
    method StopOne(h: nat)
      requires Valid() && 2 <= h < |active|
      modifies this, memory
      ensures Valid() && |active| == old(|active|)
      ensures waiting == Without(old(waiting), h) && turn == Without(old(turn), h)
      ensures Lists(waiting, turn) == After(Lists(old(waiting), old(turn)), Stop(h))
    {
      if !active[h] {
        WithoutAbsent(waiting, h);
        WithoutAbsent(turn, h);
        return;
      }
      ghost var head, xs := if h in waiting then HEAD else LOCAL, if h in waiting then waiting else turn;
      ghost var a, b := SplitAt(xs, h);
      memory.Remove(h, head, a, b);
      StopLists(old(memory.cells), memory.cells, active, waiting, turn, h, a, b);
      StopOk(old(memory.cells), memory.cells, active, waiting, turn, h);
      hide *;
      waiting, turn := Without(waiting, h), Without(turn, h);
      active := active[h := false];
    }

    // What a callback does.
    method Callback(calls: seq<Call>)
      requires Valid() && forall c :: c in calls ==> 2 <= c.h < |active|
      modifies this, memory
      ensures Valid() && |active| == old(|active|)
      ensures Lists(waiting, turn) == AfterAll(Lists(old(waiting), old(turn)), calls)
    {
      hide Sound, After;
      assert calls[..0] == [];
      for i := 0 to |calls|
        invariant Valid() && |active| == old(|active|)
        invariant Lists(waiting, turn) == AfterAll(Lists(old(waiting), old(turn)), calls[..i])
      {
        assert calls[..i + 1][..i] == calls[..i] && calls[i] in calls;
        if calls[i].Start? {
          StartOne(calls[i].h);
        } else {
          StopOne(calls[i].h);
        }
      }
      assert calls[..|calls|] == calls;
    }

    // The watchers of the loop become those of the pass.
    method Begin()
      requires Valid() && turn == []
      modifies this, memory
      ensures Valid() && turn == old(waiting) && waiting == [] && active == old(active)
    {
      assert LOCAL !in [HEAD] + waiting;
      memory.Move(HEAD, LOCAL, waiting);
      turn, waiting := waiting, [];
    }

    method Done() returns (r: bool)
      requires Valid()
      ensures r <==> turn == []
    {
      r := memory.IsEmpty(LOCAL, turn);
    }

    // uv__run_prepare. The callbacks make the calls planned, and then none.
    method Run(plans: seq<seq<Call>>) returns (log: seq<nat>)
      requires Valid() && turn == []
      requires forall i, c :: 0 <= i < |plans| && c in plans[i] ==> 2 <= c.h < |active|
      modifies this, memory
      ensures Valid() && turn == [] && log == Called(old(waiting), plans)
      ensures waiting == Passed(Lists([], old(waiting)), plans)
      ensures forall x :: x in waiting <==> OnAfter(x in old(waiting), CallsOf(plans, |log|), x)
    {
      assert [] + Called(waiting, plans) == Called(waiting, plans);
      hide Called, Sound, Spared, AfterAll, Passed, OnAfter, CallsOf;
      Begin();
      log := [];
      ghost var xs, n := turn, |active|;
      var rest: seq<seq<Call>> := plans;
      var done := Done();
      while !done
        invariant Valid() && |active| == n && (done <==> turn == [])
        invariant forall i, c :: 0 <= i < |rest| && c in rest[i] ==> 2 <= c.h < n
        invariant Called(xs, plans) == log + Called(turn, rest)
        invariant Passed(Lists([], xs), plans) == Passed(Lists(waiting, turn), rest)
        decreases |turn|
      {
        CalledStep(turn, rest, log);
        PassedStep(Lists(waiting, turn), rest);
        AfterAllIs(Lists(waiting + [turn[0]], turn[1..]), Plan(rest), 0);
        var h := Turn();
        log := log + [h];
        Callback(Plan(rest));
        rest := Later(rest);
        done := Done();
      }
      PassEnds(Lists(waiting, turn), rest);
      assert log + [] == log;
      forall x ensures x in waiting <==> OnAfter(x in xs, CallsOf(plans, |log|), x) {
        PassedActive(Lists([], xs), plans, x);
      }
    }

    // The first watcher of the queue moves to the end of the loop's list.
    method Turn() returns (h: nat)
      requires Valid() && turn != []
      modifies this, memory
      ensures Valid() && active == old(active) && h == old(turn[0]) && turn == old(turn[1..])
      ensures waiting == old(waiting) + [h]
    {
      Ends(memory.cells, LOCAL, turn);
      h := memory.cells[LOCAL].next;
      assert turn == [] + [h] + turn[1..] && [] + turn[1..] == turn[1..];
      TurnApart(memory.cells, active, waiting, turn);
      memory.Remove(h, LOCAL, [], turn[1..]);
      ghost var c := memory.cells;
      ListFrame(old(memory.cells), c, {LOCAL}, {First(LOCAL, turn[1..])}, HEAD, waiting);
      memory.InsertTail(HEAD, h, waiting);
      ListFrame(c, memory.cells, {h, Last(HEAD, waiting)}, {h, HEAD}, LOCAL, turn[1..]);
      hide *;
      TurnOk(old(memory.cells), memory.cells, active, waiting, turn, h);
      turn, waiting := turn[1..], waiting + [h];
    }
  }

  lemma {:induction false} TurnApart(c: seq<Links>, active: seq<bool>, waiting: seq<nat>, turn: seq<nat>)
    requires Sound(c, active, waiting, turn) && turn != []
    ensures turn[0] >= 2 && turn[0] < |c| && turn[0] !in waiting && turn[0] !in turn[1..]
    ensures First(LOCAL, turn[1..]) != HEAD && First(LOCAL, turn[1..]) !in waiting && LOCAL !in waiting
    ensures Last(HEAD, waiting) != LOCAL && Last(HEAD, waiting) !in turn[1..] && HEAD !in turn[1..]
  {
    HeadOut(turn);
    EndsIn(LOCAL, turn[1..]);
    EndsIn(HEAD, waiting);
  }

  lemma {:induction false} TurnOk(c: seq<Links>, c': seq<Links>, active: seq<bool>, waiting: seq<nat>, turn: seq<nat>,
                                  h: nat)
    requires Sound(c, active, waiting, turn) && turn != [] && h == turn[0] && |c| == |c'|
    requires List(c', HEAD, waiting + [h]) && List(c', LOCAL, turn[1..])
    ensures Sound(c', active, waiting + [h], turn[1..])
  {
    HeadOut(turn);
    TailIn(waiting, h);
    hide List, NoRepeats;
  }
}
