/** The intrusive circular list (src/queue.h).

A list is a head node and its elements, linked in a ring. Nodes of several lists live in
the same memory; each operation says which nodes it wrote, so other lists are unchanged.
*/
module Queue {

  datatype Links = Links(next: nat, prev: nat)

  ghost predicate Distinct(xs: seq<nat>) {
    forall i, j :: 0 <= i < j < |xs| ==> xs[i] != xs[j]
  }

  ghost predicate Linked(c: seq<Links>, x: nat, y: nat) {
    x < |c| && y < |c| && c[x].next == y && c[y].prev == x
  }

  // A row of nodes in a ring: each is linked to the next one, and the last to the first.
  ghost predicate Ring(c: seq<Links>, row: seq<nat>) {
    && row != [] && Distinct(row)
    && (forall i :: 0 < i < |row| ==> Linked(c, row[i - 1], row[i]))
    && Linked(c, row[|row| - 1], row[0])
  }

  // The list with head h holds xs.
  ghost predicate List(c: seq<Links>, h: nat, xs: seq<nat>) {
    Ring(c, [h] + xs)
  }

  // Only the next links of `nexts` and the previous links of `prevs` were written.
  ghost predicate Wrote(c: seq<Links>, c': seq<Links>, nexts: set<nat>, prevs: set<nat>) {
    && |c| == |c'|
    && (forall x :: 0 <= x < |c| && x !in nexts ==> c'[x].next == c[x].next)
    && (forall x :: 0 <= x < |c| && x !in prevs ==> c'[x].prev == c[x].prev)
  }

  // Lists that share no node with the written ones stay.
  lemma {:induction false} ListFrame(c: seq<Links>, c': seq<Links>, nexts: set<nat>, prevs: set<nat>, h: nat,
                                     xs: seq<nat>)
    requires List(c, h, xs) && Wrote(c, c', nexts, prevs)
    requires forall x :: x in nexts || x in prevs ==> x != h && x !in xs
    ensures List(c', h, xs)
  {
    var row := [h] + xs;
    assert forall i :: 0 < i < |row| ==> row[i] in xs;
    forall i | 0 < i < |row| ensures Linked(c', row[i - 1], row[i]) {
      assert Linked(c, row[i - 1], row[i]);
    }
  }

  function Last(h: nat, xs: seq<nat>): nat {
    if xs == [] then h else xs[|xs| - 1]
  }

  function First(h: nat, xs: seq<nat>): nat {
    if xs == [] then h else xs[0]
  }

  lemma {:induction false} EndsIn(h: nat, xs: seq<nat>)
    ensures (First(h, xs) == h || First(h, xs) in xs) && (Last(h, xs) == h || Last(h, xs) in xs)
  {}

  // The ends of a list are its head's links.
  lemma {:induction false} Ends(c: seq<Links>, h: nat, xs: seq<nat>)
    requires List(c, h, xs)
    ensures h < |c| && c[h].next == First(h, xs) < |c| && c[h].prev == Last(h, xs) < |c|
    ensures c[First(h, xs)].prev == h && c[Last(h, xs)].next == h
  {
    var row := [h] + xs;
    assert row[|row| - 1] == Last(h, xs);
    if xs != [] {
      assert Linked(c, row[0], row[1]);
    }
  }

  lemma {:induction false} TailOk(c: seq<Links>, c': seq<Links>, h: nat, xs: seq<nat>, q: nat)
    requires List(c, h, xs) && q < |c| && q != h && q !in xs
    requires Wrote(c, c', {q, Last(h, xs)}, {q, h}) && Linked(c', Last(h, xs), q) && Linked(c', q, h)
    ensures List(c', h, xs + [q])
  {
    var row, row' := [h] + xs, [h] + (xs + [q]);
    assert row' == row + [q] && row[|xs|] == Last(h, xs);
    forall i | 0 < i < |row'| ensures Linked(c', row'[i - 1], row'[i]) {
      if i <= |xs| {
        assert Linked(c, row[i - 1], row[i]) && row[i - 1] != row[|xs|] && row[0] != row[i];
      }
    }
  }

  lemma {:induction false} HeadOk(c: seq<Links>, c': seq<Links>, h: nat, xs: seq<nat>, q: nat)
    requires List(c, h, xs) && q < |c| && q != h && q !in xs
    requires Wrote(c, c', {q, h}, {q, First(h, xs)}) && Linked(c', h, q) && Linked(c', q, First(h, xs))
    ensures List(c', h, [q] + xs)
  {
    var row, row' := [h] + xs, [h] + ([q] + xs);
    assert row' == [h, q] + xs && forall i :: 0 < i < |row| ==> row'[i + 1] == row[i];
    forall i | 0 < i < |row'| ensures Linked(c', row'[i - 1], row'[i]) {
      if i > 2 {
        assert Linked(c, row[i - 2], row[i - 1]) && row[0] != row[i - 2] && row[1] != row[i - 1];
      }
    }
    if xs != [] {
      assert Linked(c, row[|xs|], row[0]) && row[0] != row[|xs|] && row[1] == First(h, xs) && row[0] != row[1];
      assert row'[|row'| - 1] == row[|xs|] == xs[|xs| - 1] && xs[|xs| - 1] in xs;
    }
    assert Distinct(row') by {
      assert forall j :: 2 <= j < |row'| ==> row'[j] == xs[j - 2] && row'[j] == row[j - 1];
    }
  }

  // The neighbours of an element.
  lemma {:induction false} Neighbours(c: seq<Links>, h: nat, a: seq<nat>, q: nat, b: seq<nat>)
    requires List(c, h, a + [q] + b)
    ensures Linked(c, Last(h, a), q) && Linked(c, q, First(h, b))
    ensures q != Last(h, a) && q != First(h, b)
  {
    var row := [h] + (a + [q] + b);
    assert row[|a| + 1] == q && row[|a|] == Last(h, a) && row[0] == h;
    assert Linked(c, row[|a|], row[|a| + 1]);
    if b != [] {
      assert row[|a| + 2] == b[0] && Linked(c, row[|a| + 1], row[|a| + 2]);
    }
  }

  lemma {:induction false} RemoveOk(c: seq<Links>, c': seq<Links>, h: nat, a: seq<nat>, q: nat, b: seq<nat>)
    requires List(c, h, a + [q] + b)
    requires Wrote(c, c', {Last(h, a)}, {First(h, b)}) && Linked(c', Last(h, a), First(h, b))
    ensures List(c', h, a + b)
  {
    var row, row' := [h] + (a + [q] + b), [h] + (a + b);
    assert forall i :: 0 <= i <= |a| ==> row'[i] == row[i];
    assert forall i :: |a| < i < |row'| ==> row'[i] == row[i + 1];
    assert row[|a|] == Last(h, a) && (b != [] ==> row[|a| + 2] == First(h, b));
    forall i | 0 < i < |row'| ensures Linked(c', row'[i - 1], row'[i]) {
      if i <= |a| {
        assert Linked(c, row[i - 1], row[i]) && row[i - 1] != row[|a|] && row[i] != First(h, b);
      } else if i > |a| + 1 {
        assert Linked(c, row[i], row[i + 1]) && row[i] != row[|a|] && row[i + 1] != row[|a| + 2];
      }
    }
    if b != [] {
      assert Linked(c, row[|row| - 1], row[0]) && row[|row| - 1] != row[|a|];
    }
  }

  ghost predicate Apart(a: seq<nat>, b: seq<nat>) {
    forall i, j :: 0 <= i < |a| && 0 <= j < |b| ==> a[i] != b[j]
  }

  // QUEUE_ADD puts the elements of n behind those of h; n itself is left dangling.
  lemma {:induction false} AddOk(c: seq<Links>, c': seq<Links>, h: nat, xs: seq<nat>, n: nat, ys: seq<nat>)
    requires List(c, h, xs) && List(c, n, ys) && Apart([h] + xs, [n] + ys) && ys != []
    requires Wrote(c, c', {Last(h, xs), Last(n, ys)}, {ys[0], h})
    requires Linked(c', Last(h, xs), ys[0]) && Linked(c', Last(n, ys), h)
    ensures List(c', h, xs + ys)
  {
    var row, row2, row' := [h] + xs, [n] + ys, [h] + (xs + ys);
    assert forall i :: 0 <= i < |row| ==> row'[i] == row[i];
    assert forall i :: |row| <= i < |row'| ==> row'[i] == row2[i - |row| + 1];
    assert row[|xs|] == Last(h, xs) && row2[|ys|] == Last(n, ys) && row2[1] == ys[0];
    forall i | 0 < i < |row'| ensures Linked(c', row'[i - 1], row'[i]) {
      if i <= |xs| {
        assert Linked(c, row[i - 1], row[i]) && row[i - 1] != row[|xs|] && row[i] != row[0];
      } else if i > |xs| + 1 {
        var k := i - |row| + 1;
        assert Linked(c, row2[k - 1], row2[k]) && row2[k - 1] != row2[|ys|] && row2[k] != row2[1];
      }
    }
  }

  lemma {:induction false} Outside(h: nat, xs: seq<nat>, n: nat, ys: seq<nat>)
    requires Apart([h] + xs, [n] + ys)
    ensures n != h && n != Last(h, xs) && forall i :: 0 <= i < |xs| ==> xs[i] != n
    ensures First(n, ys) != h && First(n, ys) != Last(h, xs) && Last(n, ys) != h && Last(n, ys) != Last(h, xs)
  {
    var row, row2 := [h] + xs, [n] + ys;
    assert row[0] == h && row[|xs|] == Last(h, xs) && row2[0] == n && row2[|ys|] == Last(n, ys);
    assert ys != [] ==> row2[1] == First(n, ys);
    assert forall i :: 0 <= i < |xs| ==> row[i + 1] == xs[i];
  }

  // QUEUE_SPLIT at q: h keeps a, and n becomes the head of q and b.
  lemma {:induction false} SplitOk(c: seq<Links>, c': seq<Links>, h: nat, a: seq<nat>, q: nat, b: seq<nat>, n: nat)
    requires List(c, h, a + [q] + b) && n < |c| && n !in [h] + (a + [q] + b)
    requires Wrote(c, c', {n, Last(q, b), Last(h, a)}, {n, h, q})
    requires Linked(c', n, q) && Linked(c', Last(q, b), n) && Linked(c', Last(h, a), h)
    ensures List(c', h, a) && List(c', n, [q] + b)
  {
    var row, row1, row2 := [h] + (a + [q] + b), [h] + a, [n] + ([q] + b);
    assert forall i :: 0 <= i <= |a| ==> row1[i] == row[i];
    assert forall i :: 0 < i < |row2| ==> row2[i] == row[|a| + i];
    assert row[|a|] == Last(h, a) && row[|row| - 1] == Last(q, b) && row[|a| + 1] == q && row[0] == h;
    forall i | 0 < i < |row1| ensures Linked(c', row1[i - 1], row1[i]) {
      assert Linked(c, row[i - 1], row[i]) && row[i - 1] != row[|a|] && row[i] != row[0] && row[i] != row[|a| + 1];
      assert row[i - 1] != row[|row| - 1];
    }
    forall i | 0 < i < |row2| ensures Linked(c', row2[i - 1], row2[i]) {
      if i > 1 {
        var k := |a| + i;
        assert Linked(c, row[k - 1], row[k]) && row[k - 1] != row[|a|] && row[k] != row[0] && row[k] != row[|a| + 1];
        assert row[k - 1] != row[|row| - 1];
      }
    }
    forall i | 0 < i < |row2| ensures row2[0] != row2[i] {
      assert row[|a| + i] in row;
    }
    assert Distinct(row1) && Distinct(row2);
  }

  lemma {:induction false} NewHead(h: nat, a: seq<nat>, q: nat, b: seq<nat>, n: nat)
    requires Distinct([h] + (a + [q] + b)) && n !in [h] + (a + [q] + b)
    ensures n != h && n != q && n != Last(h, a) && n != Last(q, b) && Last(h, a + [q] + b) == Last(q, b)
    ensures h != q && h != Last(q, b) && Last(h, a) != Last(q, b) && Last(h, a) != q
  {
    var row := [h] + (a + [q] + b);
    assert row[0] == h && row[|a|] == Last(h, a) && row[|a| + 1] == q && row[|row| - 1] == Last(q, b);
    assert h in row && q in row && Last(h, a) in row && Last(q, b) in row;
  }

  class Memory {
    var cells: seq<Links>

    constructor (initial: seq<Links>)
      ensures cells == initial
    {
      cells := initial;
    }

    // QUEUE_EMPTY
    method IsEmpty(h: nat, ghost xs: seq<nat>) returns (r: bool)
      requires List(cells, h, xs)
      ensures r <==> xs == []
    {
      Ends(cells, h, xs);
      assert xs != [] ==> ([h] + xs)[0] != ([h] + xs)[1];
      r := h == cells[h].next;
    }

    // QUEUE_INIT
    method Init(q: nat)
      requires q < |cells|
      modifies this
      ensures List(cells, q, []) && Wrote(old(cells), cells, {q}, {q})
    {
      cells := cells[q := Links(q, q)];
    }

    // QUEUE_INSERT_TAIL
    method InsertTail(h: nat, q: nat, ghost xs: seq<nat>)
      requires List(cells, h, xs) && q < |cells| && q != h && q !in xs
      modifies this
      ensures List(cells, h, xs + [q]) && Wrote(old(cells), cells, {q, Last(h, xs)}, {q, h})
    {
      Ends(cells, h, xs);
      cells := cells[q := cells[q].(next := h)];
      cells := cells[q := cells[q].(prev := cells[h].prev)];
      cells := cells[cells[q].prev := cells[cells[q].prev].(next := q)];
      cells := cells[h := cells[h].(prev := q)];
      TailOk(old(cells), cells, h, xs, q);
    }

    // QUEUE_INSERT_HEAD
    method InsertHead(h: nat, q: nat, ghost xs: seq<nat>)
      requires List(cells, h, xs) && q < |cells| && q != h && q !in xs
      modifies this
      ensures List(cells, h, [q] + xs) && Wrote(old(cells), cells, {q, h}, {q, First(h, xs)})
    {
      Ends(cells, h, xs);
      cells := cells[q := cells[q].(next := cells[h].next)];
      cells := cells[q := cells[q].(prev := h)];
      cells := cells[cells[q].next := cells[cells[q].next].(prev := q)];
      cells := cells[h := cells[h].(next := q)];
      HeadOk(old(cells), cells, h, xs, q);
    }

    // QUEUE_REMOVE of q from between a and b, whatever list it is in.
    method Remove(q: nat, ghost h: nat, ghost a: seq<nat>, ghost b: seq<nat>)
      requires List(cells, h, a + [q] + b)
      modifies this
      ensures List(cells, h, a + b) && Wrote(old(cells), cells, {Last(h, a)}, {First(h, b)})
    {
      Neighbours(cells, h, a, q, b);
      cells := cells[cells[q].prev := cells[cells[q].prev].(next := cells[q].next)];
      cells := cells[cells[q].next := cells[cells[q].next].(prev := cells[q].prev)];
      RemoveOk(old(cells), cells, h, a, q, b);
    }

    // QUEUE_ADD. With an empty n nothing is moved.
    method Add(h: nat, n: nat, ghost xs: seq<nat>, ghost ys: seq<nat>)
      requires List(cells, h, xs) && List(cells, n, ys) && Apart([h] + xs, [n] + ys)
      modifies this
      ensures List(cells, h, xs + ys)
      ensures Wrote(old(cells), cells, {Last(h, xs), Last(n, ys)}, {First(n, ys), h})
    {
      Ends(cells, h, xs);
      Ends(cells, n, ys);
      Outside(h, xs, n, ys);
      ghost var c := cells;
      cells := cells[cells[h].prev := cells[cells[h].prev].(next := cells[n].next)];
      cells := cells[cells[n].next := cells[cells[n].next].(prev := cells[h].prev)];
      cells := cells[h := cells[h].(prev := cells[n].prev)];
      cells := cells[cells[h].prev := cells[cells[h].prev].(next := h)];
      hide List;
      if ys == [] {
        assert xs + ys == xs;
        ListFrame(c, cells, {}, {n}, h, xs);
      } else {
        AddOk(c, cells, h, xs, n, ys);
      }
    }

    // QUEUE_SPLIT
    method Split(h: nat, q: nat, n: nat, ghost a: seq<nat>, ghost b: seq<nat>)
      requires List(cells, h, a + [q] + b) && n < |cells| && n !in [h] + (a + [q] + b)
      modifies this
      ensures List(cells, h, a) && List(cells, n, [q] + b)
      ensures Wrote(old(cells), cells, {n, Last(q, b), Last(h, a)}, {n, h, q})
    {
      Ends(cells, h, a + [q] + b);
      Neighbours(cells, h, a, q, b);
      NewHead(h, a, q, b, n);
      hide List;
      cells := cells[n := cells[n].(prev := cells[h].prev)];
      cells := cells[cells[n].prev := cells[cells[n].prev].(next := n)];
      cells := cells[n := cells[n].(next := q)];
      cells := cells[h := cells[h].(prev := cells[q].prev)];
      cells := cells[cells[h].prev := cells[cells[h].prev].(next := h)];
      cells := cells[q := cells[q].(prev := n)];
      SplitOk(old(cells), cells, h, a, q, b, n);
    }

    // QUEUE_MOVE: n takes over all elements of h.
    method Move(h: nat, n: nat, ghost xs: seq<nat>)
      requires List(cells, h, xs) && n < |cells| && n !in [h] + xs
      modifies this
      ensures List(cells, h, []) && List(cells, n, xs)
      ensures Wrote(old(cells), cells, {n, h, Last(h, xs)}, {n, h, First(h, xs)})
    {
      var empty := IsEmpty(h, xs);
      Ends(cells, h, xs);
      if empty {
        Init(n);
        ListFrame(old(cells), cells, {n}, {n}, h, xs);
      } else {
        assert xs == [] + [xs[0]] + xs[1..] == [xs[0]] + xs[1..];
        Split(h, cells[h].next, n, [], xs[1..]);
      }
    }
  }
}
