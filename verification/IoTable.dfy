/** The table of watched file descriptors (src/unix/core.cpp:745-858).

A watcher is an id of its own; 0 is the null pointer. Event masks are sets.
*/
module IoTable {
  import opened Seqs
  import opened Words

  const INT_MAX := 0x7fff_ffff

  datatype Event = In | Out | RdHup

  // pevents is the mask wanted, events the one the poller knows.
  datatype Watcher = Watcher(fd: int, pevents: set<Event>, events: set<Event>)

  // The slots in use.
  function Count(slots: seq<nat>): nat {
    if slots == [] then 0 else Count(slots[..|slots| - 1]) + if slots[|slots| - 1] != 0 then 1 else 0
  }

  lemma {:induction false} CountUpdate(slots: seq<nat>, i: nat, w: nat)
    requires i < |slots|
    ensures Count(slots[i := w]) == Count(slots) - (if slots[i] != 0 then 1 else 0) + (if w != 0 then 1 else 0)
  {
    var last := |slots| - 1;
    if i < last {
      assert slots[i := w][..last] == slots[..last][i := w];
      CountUpdate(slots[..last], i, w);
    } else {
      assert slots[i := w][..last] == slots[..last];
    }
  }

  lemma {:induction false} CountGrown(slots: seq<nat>, more: seq<nat>)
    requires forall i :: 0 <= i < |more| ==> more[i] == 0
    ensures Count(slots + more) == Count(slots)
  {
    if more == [] {
      assert slots + more == slots;
    } else {
      var last := |more| - 1;
      CountGrown(slots, more[..last]);
      assert (slots + more)[..|slots| + last] == slots + more[..last];
    }
  }

  // A slot holds the watcher of its descriptor, if that wants any events; a watcher whose two
  // masks differ waits in the queue.
  ghost predicate SoundSlot(ws: seq<Watcher>, slots: seq<nat>, i: nat)
    requires i < |slots|
  {
    slots[i] != 0 ==> slots[i] < |ws| && ws[slots[i]].fd == i && ws[slots[i]].pevents != {}
  }

  ghost predicate SoundWatcher(ws: seq<Watcher>, slots: seq<nat>, queue: seq<nat>, w: nat)
    requires 0 < w < |ws|
  {
    && (ws[w].pevents != {} ==> 0 <= ws[w].fd < |slots| && slots[ws[w].fd] == w)
    && (ws[w].pevents == {} ==> ws[w].events == {} && w !in queue)
    && (ws[w].events != ws[w].pevents ==> w in queue)
  }

  ghost predicate Sound(ws: seq<Watcher>, slots: seq<nat>, queue: seq<nat>) {
    && NoRepeats(queue) && (forall w :: w in queue ==> 0 < w < |ws|)
    && (forall i: nat :: i < |slots| ==> SoundSlot(ws, slots, i))
    && (forall w: nat :: 0 < w < |ws| ==> SoundWatcher(ws, slots, queue, w))
  }

  // Nobody else watches w's descriptor.
  ghost predicate Sole(ws: seq<Watcher>, slots: seq<nat>, w: nat)
    requires w < |ws|
  {
    0 <= ws[w].fd < |slots| ==> slots[ws[w].fd] == 0 || slots[ws[w].fd] == w
  }

  function Wanting(ws: seq<Watcher>, w: nat, events: set<Event>): seq<Watcher>
    requires w < |ws|
  {
    ws[w := ws[w].(pevents := events)]
  }

  // The queue after uv__io_start.
  function Queued(queue: seq<nat>, ws: seq<Watcher>, w: nat, events: set<Event>): seq<nat>
    requires w < |ws|
  {
    if ws[w].events == ws[w].pevents + events || w in queue then queue else queue + [w]
  }

  lemma {:induction false} StartOk(ws: seq<Watcher>, slots: seq<nat>, queue: seq<nat>, w: nat, events: set<Event>)
    requires Sound(ws, slots, queue) && 0 < w < |ws| && events != {} && 0 <= ws[w].fd < |slots| && Sole(ws, slots, w)
    ensures var ws' := Wanting(ws, w, ws[w].pevents + events);
      Sound(ws', slots[ws[w].fd := w], Queued(queue, ws, w, events))
    ensures ws[w].pevents != {} <==> slots[ws[w].fd] != 0
    ensures ws[w].events == ws[w].pevents + events ==> slots[ws[w].fd] == w
  {
    var ws' := Wanting(ws, w, ws[w].pevents + events);
    var slots', queue' := slots[ws[w].fd := w], Queued(queue, ws, w, events);
    if w !in queue {
      TailIn(queue, w);
    }
    assert SoundSlot(ws, slots, ws[w].fd);
    assert SoundWatcher(ws, slots, queue, w);
    forall i: nat | i < |slots| ensures SoundSlot(ws', slots', i) {
      assert SoundSlot(ws, slots, i);
    }
    forall x: nat | 0 < x < |ws| ensures SoundWatcher(ws', slots', queue', x) {
      assert SoundWatcher(ws, slots, queue, x);
      assert x in queue' <==> x in queue || (x == w && w in queue');
    }
    hide NoRepeats;
  }

  // What uv__io_stop leaves, for a watcher on a descriptor inside the table.
  function Unwanting(ws: seq<Watcher>, w: nat, events: set<Event>): seq<Watcher>
    requires w < |ws|
  {
    var rest := ws[w].pevents - events;
    ws[w := ws[w].(pevents := rest, events := if rest == {} then {} else ws[w].events)]
  }

  function Unqueued(queue: seq<nat>, ws: seq<Watcher>, w: nat, events: set<Event>): seq<nat>
    requires w < |ws|
  {
    if ws[w].pevents - events == {} then Without(queue, w) else if w in queue then queue else queue + [w]
  }

  lemma {:induction false} StopOk(ws: seq<Watcher>, slots: seq<nat>, queue: seq<nat>, w: nat, events: set<Event>)
    requires Sound(ws, slots, queue) && 0 < w < |ws| && 0 <= ws[w].fd < |slots| && Sole(ws, slots, w)
    ensures var slots' := if ws[w].pevents - events == {} then slots[ws[w].fd := 0] else slots;
      Sound(Unwanting(ws, w, events), slots', Unqueued(queue, ws, w, events))
    ensures ws[w].pevents != {} <==> slots[ws[w].fd] != 0
    ensures ws[w].pevents == {} ==> ws[w].events == {}
  {
    var ws', queue' := Unwanting(ws, w, events), Unqueued(queue, ws, w, events);
    var slots' := if ws[w].pevents - events == {} then slots[ws[w].fd := 0] else slots;
    WithoutKeeps(queue, w);
    if w !in queue {
      TailIn(queue, w);
    }
    assert SoundSlot(ws, slots, ws[w].fd);
    assert SoundWatcher(ws, slots, queue, w);
    forall i: nat | i < |slots| ensures SoundSlot(ws', slots', i) {
      assert SoundSlot(ws, slots, i);
    }
    forall x: nat | 0 < x < |ws| ensures SoundWatcher(ws', slots', queue', x) {
      assert SoundWatcher(ws, slots, queue, x);
      assert x != w ==> (x in queue' <==> x in queue);
    }
    hide NoRepeats;
  }

  // The poller takes over the wanted mask of the queue's first watcher.
  lemma {:induction false} PolledOk(ws: seq<Watcher>, slots: seq<nat>, queue: seq<nat>)
    requires Sound(ws, slots, queue) && queue != []
    ensures var w := queue[0];
      && 0 < w < |ws| && ws[w].pevents != {} && 0 <= ws[w].fd < |slots| && slots[ws[w].fd] == w
      && Sound(ws[w := ws[w].(events := ws[w].pevents)], slots, queue[1..])
  {
    var w := queue[0];
    HeadOut(queue);
    assert w in queue && SoundWatcher(ws, slots, queue, w);
    var ws' := ws[w := ws[w].(events := ws[w].pevents)];
    forall i: nat | i < |slots| ensures SoundSlot(ws', slots, i) {
      assert SoundSlot(ws, slots, i);
    }
    forall x: nat | 0 < x < |ws| ensures SoundWatcher(ws', slots, queue[1..], x) {
      assert SoundWatcher(ws, slots, queue, x);
    }
    hide NoRepeats;
  }

  lemma {:induction false} GrownOk(ws: seq<Watcher>, slots: seq<nat>, queue: seq<nat>, more: seq<nat>)
    requires Sound(ws, slots, queue) && forall i :: 0 <= i < |more| ==> more[i] == 0
    ensures Sound(ws, slots + more, queue)
  {
    forall i: nat | i < |slots + more| ensures SoundSlot(ws, slots + more, i) {
      if i < |slots| {
        assert SoundSlot(ws, slots, i);
      }
    }
    forall x: nat | 0 < x < |ws| ensures SoundWatcher(ws, slots + more, queue, x) {
      assert SoundWatcher(ws, slots, queue, x);
    }
    hide NoRepeats;
  }

  // The largest descriptor the assertion of uv__io_start lets through does not fit: the size
  // of its table wraps to zero.
  lemma {:induction false} TableFits(fd: nat)
    requires fd < INT_MAX
    ensures Value(Smeared(Word(fd + 1 + 2))) != 0 <==> fd < INT_MAX - 1
  {
    Rounded(fd + 1 + 2);
  }

  class IoLoop {
    var ws: seq<Watcher>
    var watchers: array?<nat>
    var nwatchers: nat
    var nfds: nat
    var queue: seq<nat>        // loop->watcher_queue

    ghost predicate Valid()
      reads this, watchers
    {
      && (if watchers == null then nwatchers == 0 else watchers.Length == nwatchers + 2)
      && nwatchers + 2 <= HALF_RANGE
      && nfds == Count(Slots()) && Sound(ws, Slots(), queue)
    }

    ghost function Slots(): seq<nat>
      requires watchers != null ==> watchers.Length == nwatchers + 2
      reads this, watchers
    {
      if watchers == null then [] else watchers[..nwatchers]
    }

    // The two slots past the end, where the poller keeps its list of events.
    ghost function Spare(): (nat, nat)
      requires watchers != null ==> watchers.Length == nwatchers + 2
      reads this, watchers
    {
      if watchers == null then (0, 0) else (watchers[nwatchers], watchers[nwatchers + 1])
    }

    // The table of uv__loop_init; descriptors[i] is that of watcher i.
    constructor (descriptors: seq<int>)
      requires forall i :: 0 <= i < |descriptors| ==> -1 <= descriptors[i] < INT_MAX
      ensures Valid() && watchers == null && queue == [] && |ws| == |descriptors|
    {
      ws := seq(|descriptors|, i requires 0 <= i < |descriptors| => Watcher(descriptors[i], {}, {}));
      watchers, nwatchers, nfds, queue := null, 0, 0, [];
    }

    // The new table of maybe_resize (lines 766-774): what fits of the old one, empty slots, and
    // the two spare ones.
    static method Grown(a: array?<nat>, n: nat, size: nat, list: nat, count: nat) returns (b: array<nat>)
      requires (if a == null then n == 0 else a.Length == n + 2) && n < size
      ensures fresh(b) && b.Length == size + 2 && b[size] == list && b[size + 1] == count
      ensures b[..n] == if a == null then [] else a[..n]
      ensures forall i :: n <= i < size ==> b[i] == 0
    {
      b := new nat[size + 2](i => 0);
      if a != null {
        for i := 0 to if n < size then n + 2 else size + 2
          invariant b[..i] == a[..i]
        {
          b[i] := a[i];
        }
      }
      assert a != null ==> b[..n] == b[..n + 2][..n] == a[..n + 2][..n] == a[..n];
      ghost var kept := b[..n];
      for i := n to size
        invariant b[..n] == kept && forall k :: n <= k < i ==> b[k] == 0
      {
        b[i] := 0;
      }
      b[size], b[size + 1] := list, count;
    }

    // Lines 754-777: the table gets a larger size.
    method Resize(size: nat)
      requires Valid() && nwatchers < size <= HALF_RANGE - 2
      modifies this`watchers, this`nwatchers
      ensures Valid() && nwatchers == size && Spare() == old(Spare()) && old(Slots()) <= Slots() && fresh(watchers)
      ensures forall i :: |old(Slots())| <= i < nwatchers ==> Slots()[i] == 0
    {
      hide Sound, Count;
      var fakeList, fakeCount := 0, 0;
      if watchers != null {
        fakeList, fakeCount := watchers[nwatchers], watchers[nwatchers + 1];
      }
      var grown := Grown(watchers, nwatchers, size, fakeList, fakeCount);
      ghost var slots, more := Slots(), grown[nwatchers..size];
      assert grown[..size] == slots + more;
      CountGrown(slots, more);
      GrownOk(ws, slots, queue, more);
      watchers, nwatchers := grown, size;
    }

    // maybe_resize. The result is false if the size it asks for wraps to zero bytes, after which
    // the source cannot go on.
    method MaybeResize(len: nat) returns (ok: bool)
      requires Valid() && len + 2 < RANGE
      modifies this`watchers, this`nwatchers
      ensures Valid() && Spare() == old(Spare()) && old(Slots()) <= Slots() && (ok ==> len <= nwatchers)
      ensures ok <==> len + 2 <= HALF_RANGE
      ensures forall i :: |old(Slots())| <= i < nwatchers ==> Slots()[i] == 0
      ensures len <= old(nwatchers) || !ok ==> watchers == old(watchers) && nwatchers == old(nwatchers)
      ensures ok && len > old(nwatchers) ==> LeastPower(len + 2, nwatchers + 2) && fresh(watchers)
    {
      hide Sound, Count;
      if len <= nwatchers {
        return true;
      }
      var power := NextPowerOfTwo(len + 2);
      if power == 0 {
        return false;
      }
      PowerFits(len + 2, power);
      Resize(power - 2);
      return true;
    }

    // uv__io_start. The result is false for the one descriptor that does not fit the table.
    method Start(w: nat, events: set<Event>) returns (ok: bool)
      requires Valid() && 0 < w < |ws| && events != {} && 0 <= ws[w].fd < INT_MAX && Sole(ws, Slots(), w)
      modifies this, watchers
      ensures Valid() && Spare() == old(Spare()) && (ok <==> old(ws[w].fd) < INT_MAX - 1)
      ensures !ok ==> ws == old(ws) && queue == old(queue) && nfds == old(nfds) && Slots() == old(Slots())
      ensures ok ==> ws == Wanting(old(ws), w, old(ws[w].pevents) + events)
      ensures ok ==> |ws| == |old(ws)| && ws[w] == old(ws[w]).(pevents := old(ws[w].pevents) + events)
      ensures ok ==> forall x :: 0 <= x < |ws| && x != w ==> ws[x] == old(ws)[x]
      ensures ok ==> queue == Queued(old(queue), old(ws), w, events)
      ensures ok ==> 0 <= ws[w].fd < nwatchers && Slots()[ws[w].fd] == w
      ensures ok ==> nfds == old(nfds) + if old(ws[w].pevents) == {} then 1 else 0
      ensures ok ==> forall i :: 0 <= i < |Slots()| && i != ws[w].fd ==>
        Slots()[i] == if i < |old(Slots())| then old(Slots()[i]) else 0
    {
      ok := MaybeResize(ws[w].fd + 1);
      if ok {
        Register(w, events);
      }
    }

    // The rest of uv__io_start; setting the wanted mask first or after resizing is the same.
    method Register(w: nat, events: set<Event>)
      requires Valid() && 0 < w < |ws| && events != {} && 0 <= ws[w].fd < nwatchers && Sole(ws, Slots(), w)
      modifies this`ws, this`queue, this`nfds, watchers
      ensures Valid() && Spare() == old(Spare()) && ws == Wanting(old(ws), w, old(ws[w].pevents) + events)
      ensures queue == Queued(old(queue), old(ws), w, events) && Slots() == old(Slots())[old(ws[w].fd) := w]
      ensures nfds == old(nfds) + if old(ws[w].pevents) == {} then 1 else 0
    {
      ghost var slots := Slots();
      StartOk(ws, slots, queue, w, events);
      CountUpdate(slots, ws[w].fd, w);
      hide Sound, Count;
      var fd := ws[w].fd;
      ws := ws[w := ws[w].(pevents := ws[w].pevents + events)];
      if ws[w].events == ws[w].pevents {
        assert slots[fd := w] == slots;
        return;
      }
      if w !in queue {
        queue := queue + [w];
      }
      if watchers[fd] == 0 {
        watchers[fd] := w;
        nfds := nfds + 1;
      }
      assert Slots() == slots[fd := w];
    }

    // uv__io_stop
    method Stop(w: nat, events: set<Event>)
      requires Valid() && 0 < w < |ws| && events != {} && -1 <= ws[w].fd && Sole(ws, Slots(), w)
      modifies this`ws, this`queue, this`nfds, watchers
      ensures Valid() && Spare() == old(Spare()) && |ws| == |old(ws)| && ws[w].pevents == old(ws[w].pevents) - events
      ensures forall x :: 0 <= x < |ws| && x != w ==> ws[x] == old(ws)[x]
      ensures nfds == old(nfds) - if old(ws[w].pevents) != {} && ws[w].pevents == {} then 1 else 0
      ensures |Slots()| == |old(Slots())|
      ensures forall i :: 0 <= i < |Slots()| && i != ws[w].fd ==> Slots()[i] == old(Slots()[i])
    {
      assert SoundWatcher(ws, Slots(), queue, w);
      if ws[w].fd == -1 || ws[w].fd >= nwatchers {
        return;
      }
      Unregister(w, events);
    }

    // uv__io_stop on a descriptor inside the table.
    method Unregister(w: nat, events: set<Event>)
      requires Valid() && 0 < w < |ws| && 0 <= ws[w].fd < nwatchers && Sole(ws, Slots(), w)
      modifies this`ws, this`queue, this`nfds, watchers
      ensures Valid() && Spare() == old(Spare()) && ws == Unwanting(old(ws), w, events)
      ensures queue == Unqueued(old(queue), old(ws), w, events)
      ensures Slots() == if ws[w].pevents == {} then old(Slots())[ws[w].fd := 0] else old(Slots())
      ensures nfds == old(nfds) - if old(ws[w].pevents) != {} && ws[w].pevents == {} then 1 else 0
    {
      ghost var slots := Slots();
      StopOk(ws, slots, queue, w, events);
      CountUpdate(slots, ws[w].fd, 0);
      hide Sound, Count, Without;
      var fd := ws[w].fd;
      ws := ws[w := ws[w].(pevents := ws[w].pevents - events)];
      if ws[w].pevents == {} {
        queue := Without(queue, w);
        if watchers[fd] != 0 {
          assert watchers[fd] == w && nfds > 0;
          watchers[fd] := 0;
          nfds := nfds - 1;
          ws := ws[w := ws[w].(events := {})];
        }
        assert ws == Unwanting(old(ws), w, events) && Slots() == slots[fd := 0];
      } else if w !in queue {
        queue := queue + [w];
      }
    }

    // What a poll does first: the poller learns the wanted mask of every queued watcher.
    method Poll()
      requires Valid()
      modifies this`ws, this`queue
      ensures Valid() && queue == [] && |ws| == |old(ws)|
      ensures forall w: nat :: 0 < w < |ws| ==> ws[w].events == ws[w].pevents == old(ws)[w].pevents
    {
      while queue != []
        invariant Valid() && |ws| == |old(ws)|
        invariant forall w: nat :: 0 < w < |ws| ==> ws[w].pevents == old(ws)[w].pevents
        decreases |queue|
      {
        PolledOk(ws, Slots(), queue);
        var w := queue[0];
        ws, queue := ws[w := ws[w].(events := ws[w].pevents)], queue[1..];
      }
      forall w: nat | 0 < w < |ws| ensures ws[w].events == ws[w].pevents {
        assert SoundWatcher(ws, Slots(), queue, w);
      }
    }
  }
}
