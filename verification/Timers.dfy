/** Timers (src/unix/timer.cpp) over the linked heap.

Times and start ids are 64-bit counters. A handle is a node of the heap. Callbacks are
arbitrary calls of the interface, and may advance the loop's clock.
*/
module Timers {
  import opened Arith
  import opened LinkedTree
  import opened HeapShape
  import H = Heap

  const INT_MAX: int := 0x7fff_ffff

  datatype Timer = Timer(timeout: nat, startId: nat, repeat: nat, active: bool, hasCb: bool)

  // A callback made: the handle, and the timeout and start id it was due with.
  datatype Fire = Fire(handle: nat, timeout: nat, startId: nat)

  datatype Table = Table(
    timers: seq<Timer>,
    time: nat,           // loop->time
    counter: nat,        // loop->timer_counter
    fired: seq<Fire>)    // all callbacks of the loop's life

  // What a callback may do; Tick is uv_update_time reading a clock that never goes back.
  datatype Call =
    | Start(h: nat, cb: bool, timeout: nat, repeat: nat)
    | Stop(h: nat)
    | Again(h: nat)
    | SetRepeat(h: nat, repeat: nat)
    | Tick(now: nat)

  // timer_less_than
  predicate LessThan(a: Timer, b: Timer) {
    if a.timeout < b.timeout then true
    else if b.timeout < a.timeout then false
    else if a.startId < b.startId then true
    else if b.startId < a.startId then false
    else false
  }

  // One number in the same order.
  function KeyOf(timeout: int, startId: int): int {
    timeout * WORD + startId
  }

  function Key(timers: seq<Timer>): Ptr -> int {
    (x: Ptr) => if x < |timers| then KeyOf(timers[x].timeout, timers[x].startId) else 0
  }

  lemma {:induction false} LessIsKeyOrder(a: Timer, b: Timer)
    requires a.startId < WORD && b.startId < WORD
    ensures LessThan(a, b) <==> KeyOf(a.timeout, a.startId) < KeyOf(b.timeout, b.startId)
  {}

  function FireKey(f: Fire): int {
    KeyOf(f.timeout, f.startId)
  }

  // Callbacks come in strictly increasing order of timeout, then start id.
  ghost predicate Increasing(fired: seq<Fire>) {
    forall i, j :: 0 <= i < j < |fired| ==> FireKey(fired[i]) < FireKey(fired[j])
  }

  // Nothing still armed sorts before what has fired, and the clock and the counter have
  // passed it.
  ghost predicate Behind(s: Table, f: Fire) {
    && f.timeout <= s.time && f.startId < s.counter
    && forall x: nat :: x < |s.timers| && s.timers[x].active ==>
         FireKey(f) < KeyOf(s.timers[x].timeout, s.timers[x].startId)
  }

  ghost predicate Sound(s: Table) {
    && s.time < WORD && s.counter <= WORD
    && (forall x: nat :: x < |s.timers| ==> s.timers[x].timeout < WORD && s.timers[x].repeat < WORD)
    && (forall x: nat :: x < |s.timers| && s.timers[x].active ==> s.timers[x].startId < s.counter && s.timers[x].hasCb)
    && (forall x, y :: 0 <= x < y < |s.timers| && s.timers[x].active && s.timers[y].active ==>
          s.timers[x].startId != s.timers[y].startId)
    && Increasing(s.fired) && (s.fired != [] ==> Behind(s, s.fired[|s.fired| - 1]))
  }

  // The heap holds just the active timers.
  ghost predicate Holds(timers: seq<Timer>, ids: set<Ptr>) {
    forall x: Ptr :: x in ids <==> x < |timers| && timers[x].active
  }

  // loop->time + timeout, saturated.
  function Clamped(time: nat, timeout: nat): (r: nat)
    ensures r < WORD
  {
    var sum := (time + timeout) % WORD;
    if sum < timeout then WORD - 1 else sum
  }

  // Saturation keeps the sum at or after the present, and a positive timeout after it until
  // the clock itself is saturated.
  lemma {:induction false} ClampedIs(time: nat, timeout: nat)
    requires time < WORD && timeout < WORD
    ensures Clamped(time, timeout) == if time + timeout < WORD then time + timeout else WORD - 1
    ensures time <= Clamped(time, timeout)
    ensures timeout > 0 ==> (time < Clamped(time, timeout) <==> time < WORD - 1)
  {}

  function Started(s: Table, h: nat, timeout: nat, repeat: nat): Table
    requires h < |s.timers|
  {
    s.(timers := s.timers[h := Timer(Clamped(s.time, timeout), s.counter, repeat, true, true)],
      counter := s.counter + 1)
  }

  function Stopped(s: Table, h: nat): Table
    requires h < |s.timers|
  {
    s.(timers := s.timers[h := s.timers[h].(active := false)])
  }

  function Rearmed(s: Table, h: nat): Table
    requires h < |s.timers|
  {
    if s.timers[h].hasCb && s.timers[h].repeat > 0 then Started(s, h, s.timers[h].repeat, s.timers[h].repeat) else s
  }

  // t is s with timer h and no other armed, from now and with the next start id.
  ghost predicate Armed(s: Table, t: Table, h: nat, timeout: nat, repeat: nat) {
    && h < |s.timers| == |t.timers| && t.timers[h].active && t.timers[h].hasCb
    && t.timers[h].timeout == (if s.time + timeout < WORD then s.time + timeout else WORD - 1)
    && t.timers[h].startId == s.counter && t.timers[h].repeat == repeat
    && t.counter == s.counter + 1 && t.time == s.time && t.fired == s.fired
    && forall x: nat :: x < |s.timers| && x != h ==> t.timers[x] == s.timers[x]
  }

  // t is s with timer h and no other inactive.
  ghost predicate Disarmed(s: Table, t: Table, h: nat) {
    && h < |s.timers| == |t.timers| && !t.timers[h].active
    && t.timers[h].hasCb == s.timers[h].hasCb && t.timers[h].repeat == s.timers[h].repeat
    && t.counter == s.counter && t.time == s.time && t.fired == s.fired
    && forall x: nat :: x < |s.timers| && x != h ==> t.timers[x] == s.timers[x]
  }

  lemma {:induction false} StartedIs(s: Table, h: nat, timeout: nat, repeat: nat)
    requires h < |s.timers| && s.time < WORD && timeout < WORD
    ensures Armed(s, Started(s, h, timeout, repeat), h, timeout, repeat)
  {
    ClampedIs(s.time, timeout);
  }

  lemma {:induction false} StoppedIs(s: Table, h: nat)
    requires h < |s.timers|
    ensures Disarmed(s, Stopped(s, h), h)
  {}

  // A repeating timer is armed again, after its repeat; any other is left as it is.
  lemma {:induction false} RearmedIs(s: Table, h: nat)
    requires h < |s.timers| && s.time < WORD && s.timers[h].repeat < WORD
    ensures if s.timers[h].hasCb && s.timers[h].repeat > 0
      then Armed(s, Rearmed(s, h), h, s.timers[h].repeat, s.timers[h].repeat)
      else Rearmed(s, h) == s
  {
    StartedIs(s, h, s.timers[h].repeat, s.timers[h].repeat);
  }

  lemma {:induction false} StartedOk(s: Table, h: nat, timeout: nat, repeat: nat)
    requires Sound(s) && h < |s.timers| && !s.timers[h].active && timeout < WORD && repeat < WORD && s.counter < WORD
    ensures Sound(Started(s, h, timeout, repeat))
  {
    ClampedIs(s.time, timeout);
    var s' := Started(s, h, timeout, repeat);
    if s.fired != [] {
      var f := s.fired[|s.fired| - 1];
      assert Behind(s, f);
      forall x: nat | x < |s'.timers| && s'.timers[x].active
        ensures FireKey(f) < KeyOf(s'.timers[x].timeout, s'.timers[x].startId) {}
    }
  }

  lemma {:induction false} StoppedOk(s: Table, h: nat)
    requires Sound(s) && h < |s.timers|
    ensures Sound(Stopped(s, h))
  {}

  // The least active timer fires if it is due.
  function Fired(s: Table, h: nat): Table
    requires h < |s.timers|
  {
    s.(timers := s.timers[h := s.timers[h].(active := false)],
       fired := s.fired + [Fire(h, s.timers[h].timeout, s.timers[h].startId)])
  }

  lemma {:induction false} FiredOk(s: Table, h: nat)
    requires Sound(s) && h < |s.timers| && s.timers[h].active && s.timers[h].timeout <= s.time
    requires forall x: nat :: x < |s.timers| && s.timers[x].active ==> Key(s.timers)(h) <= Key(s.timers)(x)
    ensures Sound(Fired(s, h))
  {
    var s' := Fired(s, h);
    var f := Fire(h, s.timers[h].timeout, s.timers[h].startId);
    if s.fired != [] {
      assert Behind(s, s.fired[|s.fired| - 1]);
      forall i | 0 <= i < |s.fired| ensures FireKey(s.fired[i]) < FireKey(f) {
        assert i < |s.fired| - 1 ==> FireKey(s.fired[i]) < FireKey(s.fired[|s.fired| - 1]);
      }
    }
    forall x: nat | x < |s'.timers| && s'.timers[x].active
      ensures FireKey(f) < KeyOf(s'.timers[x].timeout, s'.timers[x].startId)
    {
      assert Key(s.timers)(h) <= Key(s.timers)(x) && s.timers[x].startId != s.timers[h].startId;
    }
    assert Behind(s', f);
  }

  lemma {:induction false} StopStart(s: Table, h: nat, timeout: nat, repeat: nat)
    requires h < |s.timers|
    ensures Started(Stopped(s, h), h, timeout, repeat) == Started(s, h, timeout, repeat)
    ensures !Stopped(s, h).timers[h].active && Stopped(s, h).timers[h].repeat == s.timers[h].repeat
    ensures Stopped(s, h).time == s.time && |Stopped(s, h).timers| == |s.timers| && Stopped(s, h).counter == s.counter
  {}

  predicate Due(s: Table, x: nat)
    requires x < |s.timers|
  {
    s.timers[x].active && s.timers[x].timeout <= s.time
  }

  // The timer that sorts first has the least timeout.
  ghost predicate Least(s: Table, h: nat) {
    && 0 < h < |s.timers| && s.timers[h].active
    && forall x: nat :: x < |s.timers| && s.timers[x].active ==> Key(s.timers)(h) <= Key(s.timers)(x)
  }

  lemma {:induction false} LeastFirst(s: Table, h: nat)
    requires Sound(s) && Least(s, h)
    ensures forall x: nat :: x < |s.timers| && s.timers[x].active ==> s.timers[h].timeout <= s.timers[x].timeout
  {
    forall x: nat | x < |s.timers| && s.timers[x].active ensures s.timers[h].timeout <= s.timers[x].timeout {
      assert Key(s.timers)(h) <= Key(s.timers)(x);
    }
  }

  function WithRepeat(s: Table, h: nat, repeat: nat): Table
    requires h < |s.timers|
  {
    s.(timers := s.timers[h := s.timers[h].(repeat := repeat)])
  }

  lemma {:induction false} WithRepeatOk(s: Table, h: nat, repeat: nat)
    requires Sound(s) && h < |s.timers| && repeat < WORD
    ensures Sound(WithRepeat(s, h, repeat))
  {}

  // What each change does to the keys and to who is active.
  lemma {:induction false} Changes(timers: seq<Timer>, h: nat, t: Timer, ids: set<Ptr>)
    requires h < |timers| && Holds(timers, ids)
    ensures Holds(timers[h := t], if t.active then ids + {h} else ids - {h})
    ensures forall x :: x != h ==> Key(timers)(x) == Key(timers[h := t])(x)
    ensures t.timeout == timers[h].timeout && t.startId == timers[h].startId ==>
      Key(timers)(h) == Key(timers[h := t])(h)
  {}

  lemma {:induction false} Rekey(heap: H.Heap, key: Ptr -> int, key': Ptr -> int)
    requires heap.Valid(key) && forall x :: x in Ids(heap.nodes.tree) ==> key(x) == key'(x)
    ensures heap.Valid(key')
  {
    OrderedFrame(key, key', heap.nodes.tree);
  }

  ghost predicate Legal(n: nat, c: Call) {
    match c
    case Start(h, _, timeout, repeat) => 0 < h < n && timeout < WORD && repeat < WORD
    case Stop(h) => 0 < h < n
    case Again(h) => 0 < h < n
    case SetRepeat(h, repeat) => 0 < h < n && repeat < WORD
    case Tick(now) => now < WORD - 1
  }

  ghost predicate AllLegal(n: nat, calls: seq<Call>) {
    forall c :: c in calls ==> Legal(n, c)
  }

  function Ticked(s: Table, now: nat): Table {
    s.(time := if now < s.time then s.time else now)
  }

  ghost function Apply(s: Table, c: Call): (r: Table)
    requires Legal(|s.timers|, c)
    ensures |r.timers| == |s.timers| && r.fired == s.fired && s.counter <= r.counter <= s.counter + 1
  {
    match c
    case Start(h, cb, timeout, repeat) => if cb then Started(s, h, timeout, repeat) else s
    case Stop(h) => Stopped(s, h)
    case Again(h) => Rearmed(s, h)
    case SetRepeat(h, repeat) => WithRepeat(s, h, repeat)
    case Tick(now) => Ticked(s, now)
  }

  // What one callback does.
  ghost function Applied(s: Table, calls: seq<Call>): (r: Table)
    requires AllLegal(|s.timers|, calls)
    ensures |r.timers| == |s.timers| && r.fired == s.fired && s.counter <= r.counter <= s.counter + |calls|
  {
    if calls == [] then s else
      var last := |calls| - 1;
      assert calls[last] in calls;
      Apply(Applied(s, calls[..last]), calls[last])
  }

  // One turn of uv__run_timers.
  ghost function TurnOf(s: Table, h: nat, calls: seq<Call>): (r: Table)
    requires h < |s.timers| && AllLegal(|s.timers|, calls)
    ensures |r.timers| == |s.timers| && s.counter <= r.counter <= s.counter + 1 + |calls|
    ensures r.fired == Fired(s, h).fired
  {
    Applied(Rearmed(Fired(s, h), h), calls)
  }

  lemma {:induction false} RearmedOk(s: Table, h: nat)
    requires Sound(s) && h < |s.timers| && !s.timers[h].active && s.counter < WORD
    ensures Sound(Rearmed(s, h))
  {
    if s.timers[h].hasCb && s.timers[h].repeat > 0 {
      StartedOk(s, h, s.timers[h].repeat, s.timers[h].repeat);
    }
  }

  lemma {:induction false} ApplyOk(s: Table, c: Call)
    requires Sound(s) && Legal(|s.timers|, c) && s.counter < WORD && s.time < WORD - 1
    ensures Sound(Apply(s, c)) && Apply(s, c).time < WORD - 1
  {
    match c
    case Start(h, cb, timeout, repeat) =>
      StoppedOk(s, h);
      StopStart(s, h, timeout, repeat);
      StartedOk(Stopped(s, h), h, timeout, repeat);
    case Stop(h) => StoppedOk(s, h);
    case Again(h) =>
      StoppedOk(s, h);
      StopStart(s, h, s.timers[h].repeat, s.timers[h].repeat);
      RearmedOk(Stopped(s, h), h);
    case SetRepeat(h, repeat) => WithRepeatOk(s, h, repeat);
    case Tick(now) =>
  }

  lemma {:induction false} AppliedOk(s: Table, calls: seq<Call>)
    requires Sound(s) && AllLegal(|s.timers|, calls) && s.counter + |calls| <= WORD && s.time < WORD - 1
    ensures Sound(Applied(s, calls)) && Applied(s, calls).time < WORD - 1
  {
    if calls != [] {
      var last := |calls| - 1;
      assert calls[last] in calls;
      AppliedOk(s, calls[..last]);
      ApplyOk(Applied(s, calls[..last]), calls[last]);
    }
  }

  // However the callback uses the timers, the history stays in order.
  lemma {:induction false} TurnOk(s: Table, h: nat, calls: seq<Call>)
    requires Sound(s) && Least(s, h) && Due(s, h) && AllLegal(|s.timers|, calls)
    requires s.counter + 1 + |calls| <= WORD && s.time < WORD - 1
    ensures Sound(TurnOf(s, h, calls)) && TurnOf(s, h, calls).time < WORD - 1
  {
    FiredOk(s, h);
    RearmedOk(Fired(s, h), h);
    AppliedOk(Rearmed(Fired(s, h), h), calls);
  }

  ghost function DueIn(s: Table, n: nat): (r: set<nat>)
    requires n <= |s.timers|
    ensures |r| <= n && forall x: nat :: x in r <==> x < n && Due(s, x)
  {
    if n == 0 then {} else DueIn(s, n - 1) + if Due(s, n - 1) then {n - 1} else {}
  }

  ghost function DueSet(s: Table): (r: set<nat>)
    ensures |r| <= |s.timers| && forall x: nat :: x in r <==> x < |s.timers| && Due(s, x)
  {
    DueIn(s, |s.timers|)
  }

  // A callback that arms nothing and leaves the clock alone leaves one due timer less: the
  // repeat of its own timer is not due before the clock is saturated.
  lemma {:induction false} TurnRetires(s: Table, h: nat)
    requires Sound(s) && h < |s.timers| && Due(s, h) && s.time < WORD - 1
    ensures DueSet(TurnOf(s, h, [])) == DueSet(s) - {h} && TurnOf(s, h, []).time == s.time
  {
    ClampedIs(s.time, s.timers[h].repeat);
    var s' := Rearmed(Fired(s, h), h);
    assert TurnOf(s, h, []) == s' && s'.time == s.time && !Due(s', h);
    assert forall x: nat :: x < |s.timers| && x != h ==> s'.timers[x] == s.timers[x];
    hide *;
    Retired(s, s', h);
  }

  lemma {:induction false} Retired(s: Table, s': Table, h: nat)
    requires h < |s.timers| == |s'.timers| && s'.time == s.time && !Due(s', h)
    requires forall x: nat :: x < |s.timers| && x != h ==> s'.timers[x] == s.timers[x]
    ensures DueSet(s') == DueSet(s) - {h}
  {
    hide DueSet, DueIn;
  }

  // Calls that name other timers leave this one as it is.
  lemma {:induction false} AppliedSpares(s: Table, calls: seq<Call>, h: nat)
    requires AllLegal(|s.timers|, calls) && h < |s.timers| && forall c :: c in calls ==> c.Tick? || c.h != h
    ensures Applied(s, calls).timers[h] == s.timers[h]
  {
    if calls != [] {
      var last := |calls| - 1;
      assert calls[last] in calls && forall c :: c in calls[..last] ==> c in calls;
      AppliedSpares(s, calls[..last], h);
    }
  }

  // When its turn is over a repeating timer is armed again, from the time of the turn and with a
  // start id of its own, and any other is inactive, unless its callback made calls for it.
  lemma {:induction false} TurnRepeats(s: Table, h: nat, calls: seq<Call>)
    requires Sound(s) && h < |s.timers| && Due(s, h) && AllLegal(|s.timers|, calls)
    requires forall c :: c in calls ==> c.Tick? || c.h != h
    ensures var t, repeat := TurnOf(s, h, calls).timers[h], s.timers[h].repeat;
      if repeat == 0 then !t.active
      else t == Timer(if s.time + repeat < WORD then s.time + repeat else WORD - 1, s.counter, repeat, true, true)
    ensures TurnOf(s, h, calls).fired == s.fired + [Fire(h, s.timers[h].timeout, s.timers[h].startId)]
  {
    var s1 := Fired(s, h);
    RearmedIs(s1, h);
    AppliedSpares(Rearmed(s1, h), calls, h);
  }

  // Arms nothing already due.
  predicate Tame(c: Call) {
    !c.Tick? && (c.Start? ==> c.timeout > 0)
  }

  // A change of one timer that does not make it due makes none due.
  lemma {:induction false} NoneNewlyDue(s: Table, s': Table, h: nat)
    requires h < |s.timers| == |s'.timers| && s'.time == s.time && (Due(s', h) ==> Due(s, h))
    requires forall x: nat :: x < |s.timers| && x != h ==> s'.timers[x] == s.timers[x]
    ensures DueSet(s') <= DueSet(s)
  {
    hide DueSet, DueIn;
  }

  lemma {:induction false} ApplyTame(s: Table, c: Call)
    requires Legal(|s.timers|, c) && Tame(c) && s.time < WORD - 1
    requires forall x: nat :: x < |s.timers| ==> s.timers[x].repeat < WORD
    ensures var s' := Apply(s, c); s'.time == s.time && DueSet(s') <= DueSet(s)
    ensures forall x: nat :: x < |s.timers| ==> Apply(s, c).timers[x].repeat < WORD
  {
    hide DueSet, DueIn, Clamped;
    ClampedIs(s.time, if c.Start? then c.timeout else s.timers[c.h].repeat);
    NoneNewlyDue(s, Apply(s, c), c.h);
  }

  lemma {:induction false} AppliedTame(s: Table, calls: seq<Call>)
    requires AllLegal(|s.timers|, calls) && (forall c :: c in calls ==> Tame(c)) && s.time < WORD - 1
    requires forall x: nat :: x < |s.timers| ==> s.timers[x].repeat < WORD
    ensures var s' := Applied(s, calls); s'.time == s.time && DueSet(s') <= DueSet(s)
    ensures forall x: nat :: x < |s.timers| ==> Applied(s, calls).timers[x].repeat < WORD
  {
    hide DueSet, DueIn, Legal, Apply, Tame;
    if calls != [] {
      var last := |calls| - 1;
      assert calls[last] in calls && forall c :: c in calls[..last] ==> c in calls;
      AppliedTame(s, calls[..last]);
      ApplyTame(Applied(s, calls[..last]), calls[last]);
    }
  }

  // A callback that arms nothing already due leaves fewer timers due.
  lemma {:induction false} TameTurn(s: Table, h: nat, calls: seq<Call>)
    requires Sound(s) && h < |s.timers| && Due(s, h) && s.time < WORD - 1
    requires AllLegal(|s.timers|, calls) && forall c :: c in calls ==> Tame(c)
    ensures DueSet(TurnOf(s, h, calls)) <= DueSet(s) - {h} && TurnOf(s, h, calls).time == s.time
  {
    TurnRetires(s, h);
    AppliedTame(TurnOf(s, h, []), calls);
  }

  // plans[i] is what the i-th callback of a pass does; later ones do nothing.
  function Plan(plans: seq<seq<Call>>, i: nat): seq<Call> {
    if i < |plans| then plans[i] else []
  }

  ghost predicate LegalPlans(n: nat, plans: seq<seq<Call>>) {
    forall i :: 0 <= i < |plans| ==> AllLegal(n, plans[i])
  }

  // The pass in which the callbacks of the timers in `order` are made.
  ghost function Pass(s: Table, plans: seq<seq<Call>>, order: seq<nat>): (r: Table)
    requires LegalPlans(|s.timers|, plans) && forall i :: 0 <= i < |order| ==> order[i] < |s.timers|
    ensures |r.timers| == |s.timers|
  {
    if order == [] then s else
      var last := |order| - 1;
      TurnOf(Pass(s, plans, order[..last]), order[last], Plan(plans, last))
  }

  // Each is due and sorts first when its turn comes.
  ghost predicate InTurn(s: Table, plans: seq<seq<Call>>, order: seq<nat>)
    requires LegalPlans(|s.timers|, plans)
    ensures InTurn(s, plans, order) ==> forall i :: 0 <= i < |order| ==> order[i] < |s.timers|
  {
    order != [] ==>
      var last := |order| - 1;
      && InTurn(s, plans, order[..last])
      && var was := Pass(s, plans, order[..last]);
      Least(was, order[last]) && Due(was, order[last])
  }

  // The calls of callbacks still to come.
  function Cost(plans: seq<seq<Call>>): nat {
    if plans == [] then 0 else |plans[0]| + 1 + Cost(plans[1..])
  }

  // Bounds how many start ids the rest of a pass uses, and how many turns it takes.
  ghost function Left(s: Table, plans: seq<seq<Call>>, i: nat): nat {
    if i < |plans| then Cost(plans[i..]) + |s.timers| else |DueSet(s)|
  }

  lemma {:induction false} TurnLeft(s: Table, h: nat, plans: seq<seq<Call>>, i: nat)
    requires Sound(s) && Least(s, h) && Due(s, h) && LegalPlans(|s.timers|, plans) && s.time < WORD - 1
    ensures var s' := TurnOf(s, h, Plan(plans, i));
      && Left(s', plans, i + 1) < Left(s, plans, i)
      && s'.counter + Left(s', plans, i + 1) <= s.counter + Left(s, plans, i)
      && s.counter + 1 + |Plan(plans, i)| <= s.counter + Left(s, plans, i)
  {
    if i < |plans| {
      assert plans[i..][1..] == plans[i + 1..];
    } else {
      TurnRetires(s, h);
      assert h in DueSet(s);
    }
  }

  lemma {:induction false} OneMore(s: Table, plans: seq<seq<Call>>, order: seq<nat>, h: nat)
    requires LegalPlans(|s.timers|, plans) && InTurn(s, plans, order)
    requires Least(Pass(s, plans, order), h) && Due(Pass(s, plans, order), h)
    ensures InTurn(s, plans, order + [h]) && AllLegal(|s.timers|, Plan(plans, |order|))
    ensures Pass(s, plans, order + [h]) == TurnOf(Pass(s, plans, order), h, Plan(plans, |order|))
  {
    assert (order + [h])[..|order|] == order;
    hide Least, Due;
  }

  // The history of the loop stays in order over whole passes, which end: each turn leaves
  // less to do.
  lemma {:induction false} PassOk(s: Table, plans: seq<seq<Call>>, order: seq<nat>)
    requires Sound(s) && LegalPlans(|s.timers|, plans) && InTurn(s, plans, order)
    requires s.time < WORD - 1 && s.counter + Left(s, plans, 0) <= WORD
    ensures var s' := Pass(s, plans, order);
      && Sound(s') && s'.time < WORD - 1
      && s'.counter + Left(s', plans, |order|) <= s.counter + Left(s, plans, 0)
      && |order| + Left(s', plans, |order|) <= Left(s, plans, 0)
  {
    if order == [] {
      assert Pass(s, plans, order) == s;
    } else {
      var last := |order| - 1;
      var rest := order[..last];
      assert InTurn(s, plans, rest) && AllLegal(|s.timers|, Plan(plans, last));
      assert Pass(s, plans, order) == TurnOf(Pass(s, plans, rest), order[last], Plan(plans, last));
      assert Least(Pass(s, plans, rest), order[last]) && Due(Pass(s, plans, rest), order[last]);
      hide *;
      PassOk(s, plans, rest);
      var was := Pass(s, plans, rest);
      TurnLeft(was, order[last], plans, last);
      TurnOk(was, order[last], Plan(plans, last));
    }
  }

  // So a pass whose callbacks arm nothing already due calls back at most the timers due at its
  // start, however many calls they make.
  lemma {:induction false} TamePass(s: Table, plans: seq<seq<Call>>, order: seq<nat>)
    requires Sound(s) && LegalPlans(|s.timers|, plans) && InTurn(s, plans, order)
    requires s.time < WORD - 1 && s.counter + Left(s, plans, 0) <= WORD
    requires forall i, c :: 0 <= i < |plans| && c in plans[i] ==> Tame(c)
    ensures var s' := Pass(s, plans, order);
      s'.time == s.time && DueSet(s') <= DueSet(s) && |order| + |DueSet(s')| <= |DueSet(s)|
  {
    if order == [] {
      assert Pass(s, plans, order) == s;
    } else {
      var last := |order| - 1;
      var rest := order[..last];
      var was, h := Pass(s, plans, rest), order[last];
      assert InTurn(s, plans, rest) && AllLegal(|s.timers|, Plan(plans, last));
      assert Pass(s, plans, order) == TurnOf(was, h, Plan(plans, last));
      assert Least(was, h) && Due(was, h) && h in DueSet(was) && forall c :: c in Plan(plans, last) ==> Tame(c);
      hide *;
      TamePass(s, plans, rest);
      PassOk(s, plans, rest);
      TameTurn(was, h, Plan(plans, last));
      Fewer(DueSet(was), DueSet(Pass(s, plans, order)), h);
    }
  }

  lemma {:induction false} Fewer(a: set<nat>, b: set<nat>, h: nat)
    requires b <= a - {h} && h in a
    ensures b <= a && |b| < |a|
  {
    assert a == (a - {h} - b) + {h} + b;
    assert |a| == |a - {h} - b| + 1 + |b|;
  }

  // The history grows by the callbacks of the pass.
  lemma {:induction false} PassLog(s: Table, plans: seq<seq<Call>>, order: seq<nat>)
    requires LegalPlans(|s.timers|, plans) && InTurn(s, plans, order)
    ensures var s' := Pass(s, plans, order);
      && |s'.fired| == |s.fired| + |order| && s.fired <= s'.fired
      && forall i :: 0 <= i < |order| ==> s'.fired[|s.fired| + i].handle == order[i]
  {
    if order != [] {
      var rest := order[..|order| - 1];
      PassLog(s, plans, rest);
      hide Least, Due;
    }
  }

  lemma {:induction false} NextCall(s: Table, calls: seq<Call>, i: nat)
    requires AllLegal(|s.timers|, calls) && i < |calls|
    ensures AllLegal(|s.timers|, calls[..i]) && AllLegal(|s.timers|, calls[..i + 1]) && Legal(|s.timers|, calls[i])
    ensures Applied(s, calls[..i + 1]) == Apply(Applied(s, calls[..i]), calls[i])
  {
    assert calls[..i + 1][..i] == calls[..i] && calls[i] in calls;
    assert forall c :: c in calls[..i + 1] ==> c in calls;
    assert calls[..i + 1][i] == calls[i];
    hide Legal, Apply;
  }

  lemma {:induction false} StartCalls(s: Table)
    ensures AllLegal(|s.timers|, []) && Applied(s, []) == s
  {}

  // What each call does to the timers: the one it names, and no other.
  lemma {:induction false} ApplyIs(s: Table, c: Call)
    requires Sound(s) && Legal(|s.timers|, c)
    ensures var t := Apply(s, c);
      match c
      case Start(h, cb, timeout, repeat) => if cb then Armed(s, t, h, timeout, repeat) else t == s
      case Stop(h) => Disarmed(s, t, h)
      case Again(h) =>
        if s.timers[h].hasCb && s.timers[h].repeat > 0 then Armed(s, t, h, s.timers[h].repeat, s.timers[h].repeat)
        else t == s
      case SetRepeat(h, repeat) =>
        t == s.(timers := t.timers) && t.timers == s.timers[h := s.timers[h].(repeat := repeat)]
      case Tick(now) => t == s.(time := t.time) && t.time >= s.time && (now >= s.time ==> t.time == now)
  {
    match c
    case Start(h, cb, timeout, repeat) => StartedIs(s, h, timeout, repeat);
    case Stop(h) => StoppedIs(s, h);
    case Again(h) => RearmedIs(s, h);
    case SetRepeat(h, repeat) =>
    case Tick(now) =>
  }

  // The order of the source: stop, again, then the callback.
  lemma {:induction false} TurnIs(s: Table, h: nat, calls: seq<Call>)
    requires Sound(s) && Least(s, h) && Due(s, h) && AllLegal(|s.timers|, calls) && s.counter < WORD
    ensures var s1 := Stopped(s, h);
      && h < |s.timers| == |s1.timers| && s1.counter == s.counter
      && var s2 := Rearmed(s1, h);
      && |s2.timers| == |s.timers| && s2.counter <= s.counter + 1 && s2.time == s.time
      && var s3 := s2.(fired := s2.fired + [Fire(h, s.timers[h].timeout, s.timers[h].startId)]);
      && Sound(s3) && TurnOf(s, h, calls) == Applied(s3, calls)
  {
    FiredOk(s, h);
    RearmedOk(Fired(s, h), h);
    assert Rearmed(Fired(s, h), h) == var s2 := Rearmed(Stopped(s, h), h);
      s2.(fired := s2.fired + [Fire(h, s.timers[h].timeout, s.timers[h].startId)]);
    hide Sound, Rearmed, Fired, Stopped, Least, Due;
  }

  // A timer is a node of the heap, so it is not the null one.
  class Timers {
    const heap: H.Heap
    var s: Table

    ghost predicate Valid()
      reads this, heap, heap.nodes
    {
      && heap.Valid(Key(s.timers)) && Holds(s.timers, Ids(heap.nodes.tree))
      && |s.timers| == |heap.nodes.cells| && Sound(s)
    }

    // uv_timer_init for each handle
    constructor (size: nat, time: nat)
      requires time < WORD
      ensures Valid() && fresh(heap) && fresh(heap.nodes) && |s.timers| == size && s.time == time && s.fired == []
    {
      heap := new H.Heap(size);
      s := Table(seq(size, _ => Timer(0, 0, 0, false, false)), time, 0, []);
    }

    // uv_timer_stop
    method Stop(h: nat)
      requires Valid() && 0 < h < |s.timers|
      modifies this, heap, heap.nodes
      ensures Valid() && s == Stopped(old(s), h) && Disarmed(old(s), s, h)
    {
      StoppedOk(s, h);
      if !s.timers[h].active {
        assert s.timers[h := s.timers[h].(active := false)] == s.timers;
        return;
      }
      Changes(s.timers, h, s.timers[h].(active := false), Ids(heap.nodes.tree));
      hide Sound, Holds, H.Heap.Valid, Key;
      heap.Remove(h, Key(s.timers));
      Rekey(heap, Key(s.timers), Key(Stopped(s, h).timers));
      s := s.(timers := s.timers[h := s.timers[h].(active := false)]);
    }

    // The part of uv_timer_start after the handle has been stopped.
    method Arm(h: nat, timeout: nat, repeat: nat)
      requires Valid() && 0 < h < |s.timers| && timeout < WORD && repeat < WORD && s.counter < WORD
      requires !s.timers[h].active
      modifies this, heap, heap.nodes
      ensures Valid() && s == Started(old(s), h, timeout, repeat)
    {
      var t := Timer(Clamped(s.time, timeout), s.counter, repeat, true, true);
      StartedOk(s, h, timeout, repeat);
      Changes(s.timers, h, t, Ids(heap.nodes.tree));
      assert h !in Ids(heap.nodes.tree) && Started(s, h, timeout, repeat) ==
        s.(timers := s.timers[h := t], counter := s.counter + 1);
      hide *;
      s := s.(timers := s.timers[h := t], counter := s.counter + 1);
      Rekey(heap, Key(old(s).timers), Key(s.timers));
      heap.Insert(h, Key(s.timers));
    }

    // uv_timer_start; the result is false for -EINVAL.
    method Start(h: nat, cb: bool, timeout: nat, repeat: nat) returns (ok: bool)
      requires Valid() && 0 < h < |s.timers| && timeout < WORD && repeat < WORD && s.counter < WORD
      modifies this, heap, heap.nodes
      ensures Valid() && ok == cb && s == if cb then Started(old(s), h, timeout, repeat) else old(s)
      ensures cb ==> Armed(old(s), s, h, timeout, repeat)
    {
      if !cb {
        return false;
      }
      if s.timers[h].active {
        Stop(h);
      }
      StopStart(old(s), h, timeout, repeat);
      StartedIs(old(s), h, timeout, repeat);
      hide *;
      Arm(h, timeout, repeat);
      return true;
    }

    // uv_timer_again; the result is false for -EINVAL.
    method Again(h: nat) returns (ok: bool)
      requires Valid() && 0 < h < |s.timers| && s.counter < WORD
      modifies this, heap, heap.nodes
      ensures Valid() && ok == old(s.timers[h].hasCb) && s == Rearmed(old(s), h)
      ensures if ok && old(s.timers[h].repeat) > 0
        then Armed(old(s), s, h, old(s.timers[h].repeat), old(s.timers[h].repeat)) else s == old(s)
    {
      RearmedIs(s, h);
      if !s.timers[h].hasCb {
        return false;
      }
      if s.timers[h].repeat > 0 {
        StopStart(s, h, s.timers[h].repeat, s.timers[h].repeat);
        Stop(h);
        var _ := Start(h, true, s.timers[h].repeat, s.timers[h].repeat);
      }
      return true;
    }

    // uv_timer_set_repeat
    method SetRepeat(h: nat, repeat: nat)
      requires Valid() && 0 < h < |s.timers| && repeat < WORD
      modifies this
      ensures Valid() && s == WithRepeat(old(s), h, repeat)
      ensures h < |old(s).timers| && s == old(s).(timers := old(s).timers[h := old(s).timers[h].(repeat := repeat)])
    {
      WithRepeatOk(s, h, repeat);
      Changes(s.timers, h, s.timers[h].(repeat := repeat), Ids(heap.nodes.tree));
      hide Sound, Holds, H.Heap.Valid, Key;
      s := s.(timers := s.timers[h := s.timers[h].(repeat := repeat)]);
      Rekey(heap, Key(old(s.timers)), Key(s.timers));
    }

    // uv_update_time
    method Tick(now: nat)
      requires Valid() && s.time <= now < WORD
      modifies this
      ensures Valid() && s == old(s).(time := now)
    {
      s := s.(time := now);
    }

    // uv__next_timeout: how long the loop may block.
    method NextTimeout() returns (r: int)
      requires Valid()
      ensures r == -1 <==> forall x: nat :: x < |s.timers| ==> !s.timers[x].active
      ensures r == 0 <==> exists x: nat :: x < |s.timers| && Due(s, x)
      ensures r > 0 ==>
        r <= INT_MAX && forall x: nat :: x < |s.timers| && s.timers[x].active ==> s.time + r <= s.timers[x].timeout
      ensures 0 < r < INT_MAX ==>
        exists x: nat :: x < |s.timers| && s.timers[x].active && s.time + r == s.timers[x].timeout
    {
      var h := heap.Min(Key(s.timers));
      if h == NULL {
        return -1;
      }
      LeastFirst(s, h);
      if s.timers[h].timeout <= s.time {
        assert Due(s, h);
        return 0;
      }
      var diff := s.timers[h].timeout - s.time;
      if diff > INT_MAX {
        diff := INT_MAX;
      }
      return diff;
    }

    // What a callback does.
    method Callback(calls: seq<Call>)
      requires Valid() && AllLegal(|s.timers|, calls) && s.counter + |calls| <= WORD && s.time < WORD - 1
      modifies this, heap, heap.nodes
      ensures Valid() && s == Applied(old(s), calls)
    {
      hide *;
      StartCalls(s);
      assert calls[..0] == [];
      for i := 0 to |calls|
        invariant Valid() && AllLegal(|old(s).timers|, calls[..i]) && s == Applied(old(s), calls[..i])
      {
        NextCall(old(s), calls, i);
        CallOne(calls[i]);
      }
      assert calls[..|calls|] == calls;
    }

    method CallOne(c: Call)
      requires Valid() && Legal(|s.timers|, c) && s.counter < WORD
      modifies this, heap, heap.nodes
      ensures Valid() && s == Apply(old(s), c)
    {
      match c
      case Start(h, cb, timeout, repeat) => var _ := Start(h, cb, timeout, repeat);
      case Stop(h) => Stop(h);
      case Again(h) => var _ := Again(h);
      case SetRepeat(h, repeat) => SetRepeat(h, repeat);
      case Tick(now) => Tick(if now < s.time then s.time else now);
    }

    method Log(f: Fire)
      requires Valid() && Sound(s.(fired := s.fired + [f]))
      modifies this
      ensures Valid() && s == old(s).(fired := old(s).fired + [f])
    {
      hide Sound, Holds, H.Heap.Valid, Key;
      s := s.(fired := s.fired + [f]);
    }

    // One turn of the loop: stop, again, callback.
    method Turn(h: nat, calls: seq<Call>)
      requires Valid() && h > 0 && Least(s, h) && Due(s, h) && AllLegal(|s.timers|, calls)
      requires s.counter + 1 + |calls| <= WORD && s.time < WORD - 1
      modifies this, heap, heap.nodes
      ensures Valid() && s == TurnOf(old(s), h, calls) && s.time < WORD - 1
    {
      TurnOk(s, h, calls);
      TurnIs(s, h, calls);
      var f := Fire(h, s.timers[h].timeout, s.timers[h].startId);
      hide *;
      Stop(h);
      var _ := Again(h);
      Log(f);
      Callback(calls);
    }

    // The timer whose turn it is, if any (lines 155-161).
    method Next() returns (h: Ptr)
      requires Valid()
      ensures h == NULL ==> forall x: nat :: x < |s.timers| ==> !Due(s, x)
      ensures h != NULL ==> Least(s, h) && Due(s, h)
    {
      h := heap.Min(Key(s.timers));
      if h != NULL {
        LeastFirst(s, h);
        if s.timers[h].timeout > s.time {
          return NULL;
        }
      }
    }

    // uv__run_timers: the callbacks made are for timers in turn, and in the end none is due.
    method Run(plans: seq<seq<Call>>) returns (ghost order: seq<nat>)
      requires Valid() && LegalPlans(|s.timers|, plans) && s.time < WORD - 1 && s.counter + Left(s, plans, 0) <= WORD
      modifies this, heap, heap.nodes
      ensures Valid() && InTurn(old(s), plans, order) && s == Pass(old(s), plans, order)
      ensures forall x: nat :: x < |s.timers| ==> !Due(s, x)
    {
      assert InTurn(s, plans, []) && Pass(s, plans, []) == s && Sound(s);
      hide *;
      order := [];
      var i := 0;
      var h := Next();
      while h != NULL
        invariant Valid() && i == |order| && InTurn(old(s), plans, order) && s == Pass(old(s), plans, order)
        invariant h == NULL ==> forall x: nat :: x < |s.timers| ==> !Due(s, x)
        invariant h != NULL ==> Least(s, h) && Due(s, h)
        decreases Left(s, plans, i)
      {
        PassOk(old(s), plans, order);
        TurnLeft(s, h, plans, i);
        OneMore(old(s), plans, order, h);
        Turn(h, Plan(plans, i));
        order := order + [h];
        i := i + 1;
        h := Next();
      }
    }
  }
}
