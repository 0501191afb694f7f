/** Polling a file's status (src/fs-poll.cpp).

A context belongs to a poll handle until that is stopped, and is freed when its timer has
closed. Contexts and handles are ids; a null pointer is -1. User callbacks are arbitrary calls
of the interface.
*/
module FsPoll {
  import opened Arith
  import T = Timers

  const NONE := -1

  // inFlight: a stat request is pending. running: poll_cb is on the stack. armed, closing: the
  // state of the timer. frees: how often the context has been freed. A status is a number;
  // statbuf is zero at first.
  datatype Ctx = Ctx(parent: int, interval: nat, startTime: nat, busy: int, statbuf: nat,
                     inFlight: bool, running: bool, armed: bool, timeout: nat, closing: bool, frees: nat)

  // What a stat request finds.
  datatype Outcome = Failed(err: int) | Found(stat: nat)

  // A call of the user's poll_cb for a context: what was found, and the status it is compared with.
  datatype Report = Report(c: nat, outcome: Outcome, prev: nat)

  datatype World = World(ctxs: seq<Ctx>, pollCtx: seq<int>, active: seq<bool>, now: nat, told: seq<Report>)

  datatype Call = Start(h: nat, interval: nat) | Stop(h: nat) | Tick(now: nat)

  function Bit(b: bool): nat {
    if b then 1 else 0
  }

  // A context is in one place, or freed once. One that has a handle is not on its way out, and
  // the timer of one that has none is not armed.
  ghost predicate SoundCtx(w: World, c: nat)
    requires c < |w.ctxs| && |w.pollCtx| == |w.active|
  {
    var x := w.ctxs[c];
    && Bit(x.inFlight) + Bit(x.running) + Bit(x.armed) + Bit(x.closing) + x.frees == 1
    && x.interval > 0 && x.startTime <= w.now
    && (x.parent != NONE ==>
          0 <= x.parent < |w.active| && w.pollCtx[x.parent] == c && w.active[x.parent] && !x.closing && x.frees == 0)
    && (x.parent == NONE ==> !x.armed)
  }

  ghost predicate SoundHandle(w: World, h: nat)
    requires h < |w.pollCtx| == |w.active|
  {
    && (w.active[h] <==> w.pollCtx[h] != NONE)
    && (w.active[h] ==> 0 <= w.pollCtx[h] < |w.ctxs| && w.ctxs[w.pollCtx[h]].parent == h)
  }

  ghost predicate Sound(w: World) {
    && |w.pollCtx| == |w.active|
    && (forall c: nat :: c < |w.ctxs| ==> SoundCtx(w, c))
    && (forall h: nat :: h < |w.active| ==> SoundHandle(w, h))
  }

  function Put(w: World, c: nat, x: Ctx): World
    requires c < |w.ctxs|
  {
    w.(ctxs := w.ctxs[c := x])
  }

  function Started(w: World, h: nat, interval: nat): World
    requires h < |w.active| == |w.pollCtx|
  {
    if w.active[h] then w
    else
      var x := Ctx(h, if interval == 0 then 1 else interval, w.now, 0, 0, true, false, false, 0, false, 0);
      w.(ctxs := w.ctxs + [x], pollCtx := w.pollCtx[h := |w.ctxs|], active := w.active[h := true])
  }

  function Stopped(w: World, h: nat): World
    requires Sound(w) && h < |w.active|
  {
    if !w.active[h] then w
    else
      assert SoundHandle(w, h);
      var c := w.pollCtx[h];
      var x := w.ctxs[c].(parent := NONE);
      var x' := if x.armed then x.(armed := false, closing := true) else x;
      Put(w, c, x').(pollCtx := w.pollCtx[h := NONE], active := w.active[h := false])
  }

  function Ticked(w: World, now: nat): World {
    w.(now := if now < w.now then w.now else now)
  }

  lemma {:induction false} StartedOk(w: World, h: nat, interval: nat)
    requires Sound(w) && h < |w.active|
    ensures Sound(Started(w, h, interval))
  {
    var w' := Started(w, h, interval);
    assert SoundHandle(w, h);
    forall c: nat | c < |w'.ctxs| ensures SoundCtx(w', c) {
      if c < |w.ctxs| {
        assert SoundCtx(w, c);
      }
    }
    forall g: nat | g < |w'.active| ensures SoundHandle(w', g) {
      assert SoundHandle(w, g);
    }
  }

  lemma {:induction false} StoppedOk(w: World, h: nat)
    requires Sound(w) && h < |w.active|
    ensures Sound(Stopped(w, h))
  {
    var w' := Stopped(w, h);
    assert SoundHandle(w, h);
    forall c: nat | c < |w'.ctxs| ensures SoundCtx(w', c) {
      assert SoundCtx(w, c);
    }
    forall g: nat | g < |w'.active| ensures SoundHandle(w', g) {
      assert SoundHandle(w, g);
    }
  }

  lemma {:induction false} TickedOk(w: World, now: nat)
    requires Sound(w)
    ensures Sound(Ticked(w, now))
  {
    var w' := Ticked(w, now);
    forall c: nat | c < |w'.ctxs| ensures SoundCtx(w', c) {
      assert SoundCtx(w, c);
    }
    forall g: nat | g < |w'.active| ensures SoundHandle(w', g) {
      assert SoundHandle(w, g);
    }
  }

  // A context changes its place but not its handle.
  lemma {:induction false} PutOk(w: World, c: nat, x: Ctx)
    requires Sound(w) && c < |w.ctxs| && x.parent == w.ctxs[c].parent && SoundCtx(Put(w, c, x), c)
    ensures Sound(Put(w, c, x))
  {
    var w' := Put(w, c, x);
    forall d: nat | d < |w'.ctxs| ensures SoundCtx(w', d) {
      assert SoundCtx(w, d);
    }
    forall g: nat | g < |w'.active| ensures SoundHandle(w', g) {
      assert SoundHandle(w, g);
    }
  }

  ghost predicate AllLegal(n: nat, calls: seq<Call>) {
    forall c :: c in calls ==> !c.Tick? ==> c.h < n
  }

  ghost function Apply(w: World, c: Call): (r: World)
    requires Sound(w) && (!c.Tick? ==> c.h < |w.active|)
    ensures Sound(r)
  {
    match c
    case Start(h, interval) =>
      StartedOk(w, h, interval);
      Started(w, h, interval)
    case Stop(h) =>
      StoppedOk(w, h);
      Stopped(w, h)
    case Tick(now) =>
      TickedOk(w, now);
      Ticked(w, now)
  }

  // What a callback of the user does.
  ghost function Applied(w: World, calls: seq<Call>): (r: World)
    requires Sound(w) && AllLegal(|w.active|, calls)
    ensures Sound(r) && |r.active| == |w.active|
  {
    if calls == [] then w else
      var last := |calls| - 1;
      assert calls[last] in calls;
      Apply(Applied(w, calls[..last]), calls[last])
  }

  // Contexts under the callback keep where they are, and time goes on.
  ghost predicate Kept(w: World, w': World) {
    && |w.ctxs| <= |w'.ctxs| && w.now <= w'.now
    && forall c: nat :: c < |w.ctxs| && w.ctxs[c].running ==>
      w'.ctxs[c] == w.ctxs[c] || w'.ctxs[c] == w.ctxs[c].(parent := NONE)
  }

  lemma {:induction false} ApplyKeeps(w: World, c: Call)
    requires Sound(w) && (!c.Tick? ==> c.h < |w.active|)
    ensures Kept(w, Apply(w, c))
  {
    if c.Stop? && w.active[c.h] {
      assert SoundHandle(w, c.h);
      assert SoundCtx(w, w.pollCtx[c.h]);
    }
    hide Sound;
  }

  lemma {:induction false} AppliedKeeps(w: World, calls: seq<Call>)
    requires Sound(w) && AllLegal(|w.active|, calls)
    ensures Kept(w, Applied(w, calls))
  {
    if calls != [] {
      var last := |calls| - 1;
      assert calls[last] in calls;
      AppliedKeeps(w, calls[..last]);
      ApplyKeeps(Applied(w, calls[..last]), calls[last]);
      hide Sound, Apply;
    }
  }

  // Whether poll_cb calls the user: for an error that is not the one seen last, and for a status
  // that follows an error or differs from the one before.
  predicate Reports(busy: int, statbuf: nat, outcome: Outcome) {
    match outcome
    case Failed(err) => busy != err
    case Found(stat) => busy < 0 || (busy > 0 && stat != statbuf)
  }

  function Delay(now: nat, startTime: nat, interval: nat): (d: nat)
    requires startTime <= now && interval > 0
    ensures 0 < d <= interval
  {
    interval - (now - startTime) % interval
  }

  // The next poll is at the first of the times startTime + k * interval after now.
  lemma {:induction false} DelayIs(now: nat, startTime: nat, interval: nat) returns (k: nat)
    requires startTime <= now && interval > 0
    ensures now + Delay(now, startTime, interval) == startTime + k * interval
    ensures now < startTime + k * interval
    ensures forall j: nat :: now < startTime + j * interval ==> startTime + k * interval <= startTime + j * interval
  {
    var past := now - startTime;
    k := past / interval + 1;
    assert past == (past / interval) * interval + past % interval;
    forall j: nat | now < startTime + j * interval ensures k * interval <= j * interval {
      if j < k {
        Product(j, k - 1, interval);
      } else {
        Product(k, j, interval);
      }
    }
  }

  lemma {:induction false} Product(a: nat, b: nat, c: nat)
    requires a <= b
    ensures a * c <= b * c
  {
    assert b * c == a * c + (b - a) * c;
  }

  // poll_cb begins: the request is no longer in flight.
  function Begun(w: World, c: nat): World
    requires c < |w.ctxs|
  {
    Put(w, c, w.ctxs[c].(inFlight := false, running := true))
  }

  // poll_cb ends: a context without a handle closes its timer, any other arms it.
  function Ended(w: World, c: nat): World
    requires c < |w.ctxs| && w.ctxs[c].startTime <= w.now && w.ctxs[c].interval > 0
  {
    var x := w.ctxs[c].(running := false);
    Put(w, c, if x.parent == NONE then x.(closing := true)
              else x.(armed := true, timeout := T.Clamped(w.now, Delay(w.now, x.startTime, x.interval))))
  }

  // What a context remembers of an outcome.
  function Noting(x: Ctx, outcome: Outcome): Ctx {
    match outcome
    case Failed(err) => x.(busy := err)
    case Found(stat) => x.(busy := 1, statbuf := stat)
  }

  function Noted(w: World, c: nat, outcome: Outcome): World
    requires c < |w.ctxs|
  {
    Put(w, c, Noting(w.ctxs[c], outcome))
  }

  function Reported(w: World, c: nat, outcome: Outcome): World
    requires c < |w.ctxs|
  {
    w.(told := w.told + [Report(c, outcome, w.ctxs[c].statbuf)])
  }

  // poll_cb, up to its last part.
  ghost function Polled(w: World, c: nat, outcome: Outcome, calls: seq<Call>): (r: World)
    requires Sound(w) && c < |w.ctxs| && w.ctxs[c].inFlight && AllLegal(|w.active|, calls)
    ensures Sound(r) && c < |r.ctxs| && r.ctxs[c].running && r.now >= w.now
    ensures r.ctxs[c].interval == w.ctxs[c].interval && r.ctxs[c].startTime == w.ctxs[c].startTime
    ensures w.ctxs[c].parent == NONE ==> r.ctxs[c].parent == NONE
  {
    BegunOk(w, c);
    var w1 := Begun(w, c);
    if w.ctxs[c].parent == NONE then w1 else
      ReportedOk(w1, c, outcome);
      AppliedKeeps(Reported(w1, c, outcome), calls);
      var w2 := if Reports(w.ctxs[c].busy, w.ctxs[c].statbuf, outcome) then Applied(Reported(w1, c, outcome), calls)
        else w1;
      NotedOk(w2, c, outcome);
      Noted(w2, c, outcome)
  }

  lemma {:induction false} BegunOk(w: World, c: nat)
    requires Sound(w) && c < |w.ctxs| && w.ctxs[c].inFlight
    ensures Sound(Begun(w, c)) && |Begun(w, c).active| == |w.active|
  {
    assert SoundCtx(w, c);
    PutOk(w, c, w.ctxs[c].(inFlight := false, running := true));
  }

  lemma {:induction false} NotedOk(w: World, c: nat, outcome: Outcome)
    requires Sound(w) && c < |w.ctxs|
    ensures Sound(Noted(w, c, outcome))
  {
    assert SoundCtx(w, c);
    PutOk(w, c, Noting(w.ctxs[c], outcome));
  }

  lemma {:induction false} ReportedOk(w: World, c: nat, outcome: Outcome)
    requires Sound(w) && c < |w.ctxs|
    ensures Sound(Reported(w, c, outcome))
  {
    var w' := Reported(w, c, outcome);
    forall d: nat | d < |w'.ctxs| ensures SoundCtx(w', d) {
      assert SoundCtx(w, d);
    }
    forall g: nat | g < |w'.active| ensures SoundHandle(w', g) {
      assert SoundHandle(w, g);
    }
  }

  lemma {:induction false} EndedOk(w: World, c: nat)
    requires Sound(w) && c < |w.ctxs| && w.ctxs[c].running
    ensures w.ctxs[c].startTime <= w.now && w.ctxs[c].interval > 0
    ensures Sound(Ended(w, c))
  {
    assert SoundCtx(w, c);
    PutOk(w, c, Ended(w, c).ctxs[c]);
  }

  // timer_cb
  function TimerFired(w: World, c: nat): World
    requires c < |w.ctxs|
  {
    Put(w, c, w.ctxs[c].(armed := false, inFlight := true, startTime := w.now))
  }

  // timer_close_cb
  function Freed(w: World, c: nat): World
    requires c < |w.ctxs|
  {
    Put(w, c, w.ctxs[c].(closing := false, frees := w.ctxs[c].frees + 1))
  }

  lemma {:induction false} TimerFiredOk(w: World, c: nat)
    requires Sound(w) && c < |w.ctxs| && w.ctxs[c].armed
    ensures Sound(TimerFired(w, c))
    ensures var h := w.ctxs[c].parent; h != NONE && 0 <= h < |w.pollCtx| && w.pollCtx[h] == c
  {
    assert SoundCtx(w, c);
    PutOk(w, c, TimerFired(w, c).ctxs[c]);
  }

  lemma {:induction false} FreedOk(w: World, c: nat)
    requires Sound(w) && c < |w.ctxs| && w.ctxs[c].closing
    ensures Sound(Freed(w, c)) && Freed(w, c).ctxs[c].frees == 1
  {
    assert SoundCtx(w, c);
    PutOk(w, c, Freed(w, c).ctxs[c]);
  }

  // Everything that can happen between two turns of the loop.
  datatype Event =
    | User(call: Call)
    | StatDone(c: nat, outcome: Outcome, calls: seq<Call>)
    | TimerDue(c: nat)
    | TimerClosed(c: nat)

  ghost predicate Enabled(w: World, e: Event) {
    match e
    case User(call) => AllLegal(|w.active|, [call])
    case StatDone(c, outcome, calls) =>
      c < |w.ctxs| && w.ctxs[c].inFlight && AllLegal(|w.active|, calls) && (outcome.Failed? ==> outcome.err < 0)
    case TimerDue(c) => c < |w.ctxs| && w.ctxs[c].armed && w.ctxs[c].timeout <= w.now
    case TimerClosed(c) => c < |w.ctxs| && w.ctxs[c].closing
  }

  ghost function Next(w: World, e: Event): (r: World)
    requires Sound(w) && Enabled(w, e)
    ensures Sound(r)
  {
    match e
    case User(call) =>
      assert call in [call];
      Apply(w, call)
    case StatDone(c, outcome, calls) =>
      var w' := Polled(w, c, outcome, calls);
      EndedOk(w', c);
      Ended(w', c)
    case TimerDue(c) =>
      TimerFiredOk(w, c);
      TimerFired(w, c)
    case TimerClosed(c) =>
      FreedOk(w, c);
      Freed(w, c)
  }

  // A run of events, each enabled in its turn.
  ghost predicate Runs(w: World, es: seq<Event>, w': World)
    requires Sound(w)
    decreases |es|
  {
    if es == [] then w' == w else Enabled(w, es[0]) && Runs(Next(w, es[0]), es[1..], w')
  }

  lemma {:induction false} ApplySpares(w: World, c: Call, d: nat)
    requires Sound(w) && (!c.Tick? ==> c.h < |w.active|) && d < |w.ctxs| && w.ctxs[d].frees > 0
    ensures d < |Apply(w, c).ctxs| && Apply(w, c).ctxs[d] == w.ctxs[d]
  {
    if c.Stop? && w.active[c.h] {
      assert SoundHandle(w, c.h);
      assert SoundCtx(w, w.pollCtx[c.h]);
    }
  }

  lemma {:induction false} AppliedSpares(w: World, calls: seq<Call>, d: nat)
    requires Sound(w) && AllLegal(|w.active|, calls) && d < |w.ctxs| && w.ctxs[d].frees > 0
    ensures d < |Applied(w, calls).ctxs| && Applied(w, calls).ctxs[d] == w.ctxs[d]
  {
    if calls != [] {
      var last := |calls| - 1;
      assert calls[last] in calls;
      AppliedSpares(w, calls[..last], d);
      ApplySpares(Applied(w, calls[..last]), calls[last], d);
      hide Sound, Apply;
    }
  }

  // Nothing touches a context once it is freed, so it is freed once.
  lemma {:induction false} FreedForGood(w: World, e: Event, d: nat)
    requires Sound(w) && Enabled(w, e) && d < |w.ctxs| && w.ctxs[d].frees > 0
    ensures d < |Next(w, e).ctxs| && Next(w, e).ctxs[d] == w.ctxs[d] && w.ctxs[d].frees == 1
  {
    assert SoundCtx(w, d);
    match e
    case User(call) =>
      assert call in [call];
      ApplySpares(w, call, d);
    case StatDone(c, outcome, calls) =>
      BegunOk(w, c);
      ReportedOk(Begun(w, c), c, outcome);
      AppliedSpares(Reported(Begun(w, c), c, outcome), calls, d);
    case TimerDue(c) =>
    case TimerClosed(c) =>
  }

  lemma {:induction false} RunFrees(w: World, es: seq<Event>, w': World, d: nat)
    requires Sound(w) && Runs(w, es, w') && d < |w.ctxs| && w.ctxs[d].frees > 0
    ensures Sound(w') && d < |w'.ctxs| && w'.ctxs[d] == w.ctxs[d]
    decreases |es|
  {
    if es != [] {
      FreedForGood(w, es[0], d);
      RunFrees(Next(w, es[0]), es[1..], w', d);
    }
  }

  // Over any run every context is in just one place: a stat request, poll_cb, an armed timer or
  // a closing one, or it has been freed once. When nothing is pending, the freed ones are those
  // whose handle was stopped.
  lemma {:induction false} RunPlaces(w: World, es: seq<Event>, w': World, c: nat)
    requires Sound(w) && Runs(w, es, w') && c < |w'.ctxs|
    ensures var x := w'.ctxs[c];
      && Bit(x.inFlight) + Bit(x.running) + Bit(x.armed) + Bit(x.closing) + x.frees == 1
      && (!x.inFlight && !x.running && !x.closing ==> (x.frees == 1 <==> x.parent == NONE))
    decreases |es|
  {
    if es == [] {
      assert SoundCtx(w', c);
    } else {
      RunPlaces(Next(w, es[0]), es[1..], w', c);
    }
  }

  // -- What the user is told ---------------------------------------------------------------------

  // The outcome an event has for a context that has a handle.
  ghost function Fresh(w: World, e: Event, c: nat): seq<Outcome>
    requires Enabled(w, e)
  {
    if e.StatDone? && e.c == c && w.ctxs[c].parent != NONE then [e.outcome] else []
  }

  // The outcomes of a context's stat requests over a run, as long as it has a handle.
  ghost function History(w: World, es: seq<Event>, c: nat): seq<Outcome>
    requires Sound(w)
    decreases |es|
  {
    if es == [] || !Enabled(w, es[0]) then [] else Fresh(w, es[0], c) + History(Next(w, es[0]), es[1..], c)
  }

  // The status last found, or zero.
  function LastFound(h: seq<Outcome>): nat {
    if h == [] then 0 else if h[|h| - 1].Found? then h[|h| - 1].stat else LastFound(h[..|h| - 1])
  }

  // The outcomes that are news: one that differs from the outcome before it, and a first one that is
  // an error; each with the status last found before it.
  function News(c: nat, h: seq<Outcome>): seq<Report> {
    if h == [] then []
    else
      var n := |h| - 1;
      News(c, h[..n]) + if (if n == 0 then h[n].Failed? else h[n] != h[n - 1]) then [Report(c, h[n], LastFound(h[..n]))]
        else []
  }

  // The reports about one context.
  function About(told: seq<Report>, c: nat): seq<Report> {
    if told == [] then []
    else About(told[..|told| - 1], c) + if told[|told| - 1].c == c then [told[|told| - 1]] else []
  }

  // What a context remembers after a history, and what the user has been told of it.
  ghost predicate Remembers(w: World, c: nat, h: seq<Outcome>) {
    && About(w.told, c) == News(c, h)
    && (forall i :: 0 <= i < |h| ==> h[i].Failed? ==> h[i].err < 0)
    && if c >= |w.ctxs| then h == []
       else
         && w.ctxs[c].statbuf == LastFound(h)
         && w.ctxs[c].busy == if h == [] then 0 else if h[|h| - 1].Failed? then h[|h| - 1].err else 1
  }

  lemma {:induction false} AboutMore(told: seq<Report>, r: Report, c: nat)
    ensures About(told + [r], c) == About(told, c) + if r.c == c then [r] else []
  {
    assert (told + [r])[..|told|] == told;
  }

  // Calls of the interface tell nobody anything and leave what contexts remember.
  ghost predicate Mute(w: World, w': World, c: nat) {
    && w'.told == w.told && |w.ctxs| <= |w'.ctxs|
    && if c < |w.ctxs| then w'.ctxs[c].busy == w.ctxs[c].busy && w'.ctxs[c].statbuf == w.ctxs[c].statbuf
       else c < |w'.ctxs| ==> w'.ctxs[c].busy == 0 && w'.ctxs[c].statbuf == 0
  }

  lemma {:induction false} ApplyMute(w: World, call: Call, c: nat)
    requires Sound(w) && (!call.Tick? ==> call.h < |w.active|)
    ensures Mute(w, Apply(w, call), c)
  {
    assert call.Stop? && w.active[call.h] ==> SoundHandle(w, call.h);
  }

  lemma {:induction false} AppliedMute(w: World, calls: seq<Call>, c: nat)
    requires Sound(w) && AllLegal(|w.active|, calls)
    ensures Mute(w, Applied(w, calls), c)
  {
    if calls != [] {
      var last := |calls| - 1;
      assert calls[last] in calls;
      AppliedMute(w, calls[..last], c);
      ApplyMute(Applied(w, calls[..last]), calls[last], c);
      hide Sound, Apply;
    }
  }

  lemma {:induction false} MuteRemembers(w: World, w': World, c: nat, h: seq<Outcome>)
    requires Remembers(w, c, h) && Mute(w, w', c)
    ensures Remembers(w', c, h)
  {
    hide About, News;
  }

  lemma {:induction false} PolledMute(w: World, d: nat, outcome: Outcome, calls: seq<Call>, c: nat)
    requires Sound(w) && d < |w.ctxs| && w.ctxs[d].inFlight && AllLegal(|w.active|, calls) && c != d
    ensures var w' := Polled(w, d, outcome, calls);
      Mute(w.(told := w'.told), w', c) && About(w'.told, c) == About(w.told, c)
  {
    BegunOk(w, d);
    ReportedOk(Begun(w, d), d, outcome);
    AppliedMute(Reported(Begun(w, d), d, outcome), calls, c);
    AboutMore(w.told, Report(d, outcome, w.ctxs[d].statbuf), c);
    hide About, Sound, Applied;
  }

  // News is what the context does not remember.
  lemma {:induction false} NewsIs(w: World, c: nat, outcome: Outcome, h: seq<Outcome>)
    requires Remembers(w, c, h) && c < |w.ctxs| && (outcome.Failed? ==> outcome.err < 0)
    ensures News(c, h + [outcome]) == News(c, h) +
      if Reports(w.ctxs[c].busy, w.ctxs[c].statbuf, outcome) then [Report(c, outcome, w.ctxs[c].statbuf)] else []
    ensures LastFound(h + [outcome]) == if outcome.Found? then outcome.stat else w.ctxs[c].statbuf
  {
    assert (h + [outcome])[..|h|] == h;
    assert h != [] ==> (h + [outcome])[|h| - 1] == h[|h| - 1];
    assert Reports(w.ctxs[c].busy, w.ctxs[c].statbuf, outcome)
      <==> if h == [] then outcome.Failed? else outcome != h[|h| - 1];
    hide About;
  }

  // The user is told and the outcome remembered.
  lemma {:induction false} Remembered(w: World, w': World, c: nat, outcome: Outcome, h: seq<Outcome>)
    requires Remembers(w, c, h) && c < |w.ctxs| && c < |w'.ctxs| && (outcome.Failed? ==> outcome.err < 0)
    requires About(w'.told, c) == About(w.told, c) +
      if Reports(w.ctxs[c].busy, w.ctxs[c].statbuf, outcome) then [Report(c, outcome, w.ctxs[c].statbuf)] else []
    requires w'.ctxs[c].statbuf == if outcome.Found? then outcome.stat else w.ctxs[c].statbuf
    requires w'.ctxs[c].busy == if outcome.Failed? then outcome.err else 1
    ensures Remembers(w', c, h + [outcome])
  {
    NewsIs(w, c, outcome, h);
    hide About, News, Reports, LastFound;
  }

  // A poll of a context with a handle.
  lemma {:induction false} PolledTells(w: World, c: nat, outcome: Outcome, calls: seq<Call>, h: seq<Outcome>)
    requires Sound(w) && c < |w.ctxs| && w.ctxs[c].inFlight && AllLegal(|w.active|, calls)
    requires w.ctxs[c].parent != NONE && Remembers(w, c, h) && (outcome.Failed? ==> outcome.err < 0)
    ensures Remembers(Polled(w, c, outcome, calls), c, h + [outcome])
  {
    BegunOk(w, c);
    var w1 := Begun(w, c);
    ReportedOk(w1, c, outcome);
    AppliedMute(Reported(w1, c, outcome), calls, c);
    AboutMore(w.told, Report(c, outcome, w.ctxs[c].statbuf), c);
    assert About(w.told, c) + [] == About(w.told, c);
    hide About, Sound, Applied, Reports, Remembers, News;
    Remembered(w, Polled(w, c, outcome, calls), c, outcome, h);
  }

  lemma {:induction false} EventTells(w: World, e: Event, c: nat, h: seq<Outcome>)
    requires Sound(w) && Enabled(w, e) && Remembers(w, c, h)
    ensures Remembers(Next(w, e), c, h + Fresh(w, e, c))
  {
    assert h + [] == h;
    match e
    case User(call) =>
      assert call in [call];
      ApplyMute(w, call, c);
      MuteRemembers(w, Next(w, e), c, h);
    case StatDone(d, outcome, calls) =>
      EndedOk(Polled(w, d, outcome, calls), d);
      if d != c {
        PolledMute(w, d, outcome, calls, c);
        MuteRemembers(w.(told := Polled(w, d, outcome, calls).told), Polled(w, d, outcome, calls), c, h);
        MuteRemembers(Polled(w, d, outcome, calls), Next(w, e), c, h);
      } else if w.ctxs[c].parent != NONE {
        PolledTells(w, c, outcome, calls, h);
        MuteRemembers(Polled(w, c, outcome, calls), Next(w, e), c, h + [outcome]);
      } else {
        MuteRemembers(w, Next(w, e), c, h);
      }
    case TimerDue(d) => MuteRemembers(w, Next(w, e), c, h);
    case TimerClosed(d) => MuteRemembers(w, Next(w, e), c, h);
  }

  lemma {:induction false} Grouped(a: seq<Outcome>, b: seq<Outcome>, c: seq<Outcome>)
    ensures a + (b + c) == a + b + c
  {}

  lemma {:induction false} RunTells(w: World, es: seq<Event>, w': World, c: nat, h: seq<Outcome>)
    requires Sound(w) && Runs(w, es, w') && Remembers(w, c, h)
    ensures Remembers(w', c, h + History(w, es, c))
    decreases |es|
  {
    if es == [] {
      assert h + [] == h;
    } else {
      var rest := History(Next(w, es[0]), es[1..], c);
      assert History(w, es, c) == Fresh(w, es[0], c) + rest && Runs(Next(w, es[0]), es[1..], w');
      hide *;
      EventTells(w, es[0], c, h);
      RunTells(Next(w, es[0]), es[1..], w', c, h + Fresh(w, es[0], c));
      Grouped(h, Fresh(w, es[0], c), rest);
    }
  }

  // Over any run, whatever callbacks do, what the user is told about a context started in it is the
  // news among its outcomes, in order: an outcome like the one before it is never reported, any other
  // always is, and a first status is not.
  lemma {:induction false} ToldNews(w: World, es: seq<Event>, w': World, c: nat)
    requires Sound(w) && Runs(w, es, w') && c >= |w.ctxs| && w.told == []
    ensures About(w'.told, c) == News(c, History(w, es, c))
  {
    RunTells(w, es, w', c, []);
    assert [] + History(w, es, c) == History(w, es, c);
  }

  // -- When polls are made -----------------------------------------------------------------------

  // A context just started polls at once, every `interval` milliseconds, or every one for zero.
  lemma {:induction false} StartedIs(w: World, h: nat, interval: nat)
    requires Sound(w) && h < |w.active| && !w.active[h]
    ensures var w' := Started(w, h, interval);
      && |w'.ctxs| == |w.ctxs| + 1 && w'.pollCtx[h] == |w.ctxs| && w'.active[h] && w'.now == w.now && w'.told == w.told
      && (forall c :: 0 <= c < |w.ctxs| ==> w'.ctxs[c] == w.ctxs[c])
      && var x := w'.ctxs[|w.ctxs|];
      && x.parent == h && x.inFlight && x.startTime == w.now && x.interval >= 1
      && (interval > 0 ==> x.interval == interval) && (interval == 0 ==> x.interval == 1)
  {}

  // A handle that stops lets go of its context, whose timer closes if it is armed.
  lemma {:induction false} StoppedIs(w: World, h: nat)
    requires Sound(w) && h < |w.active| && w.active[h]
    ensures var w', c := Stopped(w, h), w.pollCtx[h];
      && 0 <= c < |w.ctxs| && !w'.active[h] && w'.pollCtx[h] == NONE && w'.now == w.now && w'.told == w.told
      && w'.ctxs[c].parent == NONE && !w'.ctxs[c].armed && (w.ctxs[c].armed ==> w'.ctxs[c].closing)
      && forall d :: 0 <= d < |w.ctxs| && d != c ==> w'.ctxs[d] == w.ctxs[d]
  {
    assert SoundHandle(w, h);
    assert SoundCtx(w, w.pollCtx[h]);
  }

  // Whether a handle is active after some calls.
  function OnAfter(on: bool, calls: seq<Call>, h: nat): bool {
    if calls == [] then on
    else
      var last := |calls| - 1;
      if !calls[last].Tick? && calls[last].h == h then calls[last].Start? else OnAfter(on, calls[..last], h)
  }

  // The calls of a callback take effect: the last one for a handle says whether it is active.
  lemma {:induction false} AppliedActive(w: World, calls: seq<Call>, h: nat)
    requires Sound(w) && AllLegal(|w.active|, calls) && h < |w.active|
    ensures Applied(w, calls).active[h] == OnAfter(w.active[h], calls, h)
  {
    if calls != [] {
      var last := |calls| - 1;
      assert calls[last] in calls;
      AppliedActive(w, calls[..last], h);
      var was := Applied(w, calls[..last]);
      assert calls[last].Stop? && was.active[calls[last].h] ==> SoundHandle(was, calls[last].h);
      hide Sound;
    }
  }

  // A context that keeps its handle polls again at the first time of its grid after now, if the
  // clock lasts; the grid then starts anew.
  lemma {:induction false} EndedIs(w: World, c: nat) returns (k: nat)
    requires Sound(w) && c < |w.ctxs| && w.ctxs[c].running && w.ctxs[c].parent != NONE
    requires w.now + w.ctxs[c].interval < WORD
    ensures w.ctxs[c].startTime <= w.now && w.ctxs[c].interval > 0
    ensures var x, y := w.ctxs[c], Ended(w, c).ctxs[c];
      && y == x.(running := false, armed := true, timeout := x.startTime + k * x.interval) && y.timeout > w.now
      && (forall j: nat :: w.now < x.startTime + j * x.interval ==> y.timeout <= x.startTime + j * x.interval)
    ensures TimerFired(w, c).ctxs[c] == w.ctxs[c].(armed := false, inFlight := true, startTime := w.now)
  {
    assert SoundCtx(w, c);
    k := DelayIs(w.now, w.ctxs[c].startTime, w.ctxs[c].interval);
    T.ClampedIs(w.now, Delay(w.now, w.ctxs[c].startTime, w.ctxs[c].interval));
  }

  class Polls {
    var w: World

    // A loop with `handles` poll handles (uv_fs_poll_init).
    constructor (handles: nat, now: nat)
      ensures Sound(w) && w.ctxs == [] && |w.active| == handles && w.now == now && w.told == []
    {
      w := World([], seq(handles, _ => NONE), seq(handles, _ => false), now, []);
    }

    // uv_fs_poll_start
    method Start(h: nat, interval: nat)
      requires Sound(w) && h < |w.active|
      modifies this
      ensures Sound(w) && w == Started(old(w), h, interval)
    {
      StartedOk(w, h, interval);
      if w.active[h] {
        return;
      }
      var ctx := Ctx(h, if interval == 0 then 1 else interval, w.now, 0, 0, true, false, false, 0, false, 0);
      w := w.(ctxs := w.ctxs + [ctx]);
      w := w.(pollCtx := w.pollCtx[h := |w.ctxs| - 1], active := w.active[h := true]);
    }

    // uv_close of a context's timer
    method CloseTimer(c: nat)
      requires c < |w.ctxs| && !w.ctxs[c].closing
      modifies this
      ensures w == Put(old(w), c, old(w).ctxs[c].(armed := false, closing := true))
    {
      w := w.(ctxs := w.ctxs[c := w.ctxs[c].(armed := false, closing := true)]);
    }

    // uv_fs_poll_stop, which uv__fs_poll_close calls
    method Stop(h: nat)
      requires Sound(w) && h < |w.active|
      modifies this
      ensures Sound(w) && w == Stopped(old(w), h)
    {
      StoppedOk(w, h);
      if !w.active[h] {
        return;
      }
      assert SoundHandle(w, h);
      var c := w.pollCtx[h];
      assert c != NONE && w.ctxs[c].parent != NONE && SoundCtx(w, c);
      w := w.(ctxs := w.ctxs[c := w.ctxs[c].(parent := NONE)], pollCtx := w.pollCtx[h := NONE]);
      if w.ctxs[c].armed {
        CloseTimer(c);
      }
      w := w.(active := w.active[h := false]);
      assert w.ctxs == Stopped(old(w), h).ctxs;
    }

    // timer_cb
    method TimerCb(c: nat)
      requires Sound(w) && c < |w.ctxs| && w.ctxs[c].armed
      modifies this
      ensures Sound(w) && w == TimerFired(old(w), c)
    {
      TimerFiredOk(w, c);
      assert w.ctxs[c].parent != NONE && w.pollCtx[w.ctxs[c].parent] == c;
      w := w.(ctxs := w.ctxs[c := w.ctxs[c].(armed := false, inFlight := true, startTime := w.now)]);
    }

    // timer_close_cb
    method TimerCloseCb(c: nat)
      requires Sound(w) && c < |w.ctxs| && w.ctxs[c].closing
      modifies this
      ensures Sound(w) && w == Freed(old(w), c) && w.ctxs[c].frees == 1
    {
      FreedOk(w, c);
      w := w.(ctxs := w.ctxs[c := w.ctxs[c].(closing := false, frees := w.ctxs[c].frees + 1)]);
    }

    method Callback(calls: seq<Call>)
      requires Sound(w) && AllLegal(|w.active|, calls)
      modifies this
      ensures Sound(w) && w == Applied(old(w), calls)
    {
      hide Sound, Started, Stopped;
      assert calls[..0] == [];
      for i := 0 to |calls|
        invariant Sound(w) && AllLegal(|old(w).active|, calls[..i]) && w == Applied(old(w), calls[..i])
      {
        assert calls[..i + 1][..i] == calls[..i] && calls[i] in calls;
        match calls[i]
        case Start(h, interval) => Start(h, interval);
        case Stop(h) => Stop(h);
        case Tick(now) =>
          TickedOk(w, now);
          w := Ticked(w, now);
      }
      assert calls[..|calls|] == calls;
    }

    // poll_cb, for a context that is still allocated throughout; `result` is zero or a negative
    // error, and `stat` the status found.
    method PollCb(c: nat, result: int, stat: nat, calls: seq<Call>)
      requires Sound(w) && c < |w.ctxs| && w.ctxs[c].inFlight && AllLegal(|w.active|, calls) && result <= 0
      modifies this
      ensures Sound(w)
      ensures w == Next(old(w), StatDone(c, if result != 0 then Failed(result) else Found(stat), calls))
    {
      BegunOk(w, c);
      ghost var w0, outcome := w, if result != 0 then Failed(result) else Found(stat);
      w := w.(ctxs := w.ctxs[c := w.ctxs[c].(inFlight := false, running := true)]);
      if w.ctxs[c].parent == NONE {
        Finish(c);
        return;
      }
      ReportedOk(w, c, outcome);
      AppliedKeeps(Reported(w, c, outcome), calls);
      var busy := w.ctxs[c].busy;
      if result != 0 {
        if busy != result {
          Tell(c, Failed(result), calls);
        }
        Note(c, Failed(result));
      } else {
        if busy != 0 {
          if busy < 0 || w.ctxs[c].statbuf != stat {
            Tell(c, Found(stat), calls);
          }
        }
        Note(c, Found(stat));
      }
      assert w == Polled(w0, c, outcome, calls);
      Finish(c);
    }

    // The user's callback.
    method Tell(c: nat, outcome: Outcome, calls: seq<Call>)
      requires Sound(w) && c < |w.ctxs| && AllLegal(|w.active|, calls)
      modifies this
      ensures Sound(Reported(old(w), c, outcome)) && Sound(w) && w == Applied(Reported(old(w), c, outcome), calls)
    {
      ReportedOk(w, c, outcome);
      w := w.(told := w.told + [Report(c, outcome, w.ctxs[c].statbuf)]);
      Callback(calls);
    }

    // Lines 192, 202-203.
    method Note(c: nat, outcome: Outcome)
      requires Sound(w) && c < |w.ctxs|
      modifies this
      ensures Sound(w) && w == Noted(old(w), c, outcome)
    {
      NotedOk(w, c, outcome);
      if outcome.Failed? {
        w := w.(ctxs := w.ctxs[c := w.ctxs[c].(busy := outcome.err)]);
      } else {
        w := w.(ctxs := w.ctxs[c := w.ctxs[c].(statbuf := outcome.stat, busy := 1)]);
      }
    }

    // The end of poll_cb (lines 209-219), and of its first branch.
    method Finish(c: nat)
      requires Sound(w) && c < |w.ctxs| && w.ctxs[c].running
      modifies this
      ensures old(w).ctxs[c].startTime <= old(w).now && old(w).ctxs[c].interval > 0
      ensures Sound(w) && w == Ended(old(w), c)
    {
      EndedOk(w, c);
      assert SoundCtx(w, c);
      w := w.(ctxs := w.ctxs[c := w.ctxs[c].(running := false)]);
      if w.ctxs[c].parent == NONE {
        CloseTimer(c);
      } else {
        var interval := w.ctxs[c].interval - (w.now - w.ctxs[c].startTime) % w.ctxs[c].interval;
        w := w.(ctxs := w.ctxs[c := w.ctxs[c].(armed := true, timeout := T.Clamped(w.now, interval))]);
      }
      assert w.ctxs == Ended(old(w), c).ctxs;
    }
  }
}
