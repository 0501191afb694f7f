/** How much calls of uv_async_send and a loop's pass still have to do. */
module AsyncMeasure {
  import opened Sums
  import Async

  // The first part counts most.
  datatype Measure = Measure(work: nat, unread: nat, passes: nat)

  ghost predicate Less(a: Measure, b: Measure) {
    a.work < b.work || (a.work == b.work && (a.unread < b.unread || (a.unread == b.unread && a.passes < b.passes)))
  }

  // Calls of uv_async_send.
  function SenderWeight(c: Async.Sender): nat {
    match c
    case AtRead(_, _) => 3
    case AtCas(_, _) => 2
    case AtWrite(_, _) => 1
    case Returned(_, _) => 0
  }

  function SenderAt(m: map<Async.Thread, Async.Sender>): Async.Thread -> nat {
    t => if t in m then SenderWeight(m[t]) else 0
  }

  ghost function Senders(m: map<Async.Thread, Async.Sender>): nat {
    Sum(m.Keys, SenderAt(m))
  }

  lemma {:induction false} SenderMoves(m: map<Async.Thread, Async.Sender>, t: Async.Thread, c: Async.Sender)
    ensures Senders(m[t := c]) == Senders(m) - (if t in m then SenderWeight(m[t]) else 0) + SenderWeight(c)
  {
    var m' := m[t := c];
    if t in m {
      assert m'.Keys == m.Keys;
      SumChange(m.Keys, SenderAt(m), SenderAt(m'), t);
    } else {
      SumSplit(m'.Keys, SenderAt(m'), t);
      assert m'.Keys - {t} == m.Keys;
      SumSame(m.Keys, SenderAt(m), SenderAt(m'));
    }
  }

  // What is left of a pass over the handles.
  function LoopWeight(a: Async.State): nat {
    match a.loop
    case Polling => 0
    case Reading => 3 + 4 * |a.handles|
    case Drained => 2 + 4 * |a.handles|
    case Passing => 1 + 4 * |a.queue|
    case Testing(_) => 4 + 4 * |a.queue|
    case Calling(_) => 2 + 4 * |a.queue|
  }
}
