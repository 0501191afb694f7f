/** The tree of signal watchers (src/unix/signal.cpp): how uv__signal_handler finds the
watchers of a signal, and when the operating system's handler is installed.

A watcher's address is its node id; loops have addresses of their own, and 0 is NULL.
*/
module SignalTree {
  import opened Arith
  import opened LinkedTree
  import opened Order
  import opened RedBlack
  import opened RbTree
  import opened RbSearch
  import opened Seqs
  import S = Signal

  // uv__signal_compare on {signum, loop, address}.
  function Compare(n1: int, l1: int, w1: int, n2: int, l2: int, w2: int): int {
    if n1 < n2 then -1
    else if n1 > n2 then 1
    else if l1 < l2 then -1
    else if l1 > l2 then 1
    else if w1 < w2 then -1
    else if w1 > w2 then 1
    else 0
  }

  // One number in the same order.
  function KeyOf(signum: int, loop: int, w: int): int {
    (signum * WORD + loop) * WORD + w
  }

  lemma {:induction false} CompareIsKeyOrder(n1: int, l1: int, w1: int, n2: int, l2: int, w2: int)
    requires 0 <= l1 < WORD && 0 <= w1 < WORD && 0 <= l2 < WORD && 0 <= w2 < WORD
    ensures Compare(n1, l1, w1, n2, l2, w2) < 0 <==> KeyOf(n1, l1, w1) < KeyOf(n2, l2, w2)
    ensures Compare(n1, l1, w1, n2, l2, w2) == 0 <==> KeyOf(n1, l1, w1) == KeyOf(n2, l2, w2)
  {
    var a, b := n1 * WORD + l1, n2 * WORD + l2;
    assert n1 < n2 ==> a < b;
    assert n1 > n2 ==> a > b;
    assert a < b ==> a * WORD + w1 < b * WORD + w2;
    assert a > b ==> a * WORD + w1 > b * WORD + w2;
  }

  type Msg = S.Msg

  // The messages for watchers of loop l among those sent, in order.
  function Sent(sent: seq<Ptr>, loops: seq<nat>, l: nat, signum: nat): seq<Msg> {
    if sent == [] then []
    else
      var rest := Sent(sent[..|sent| - 1], loops, l, signum);
      var x := sent[|sent| - 1];
      if x < |loops| && loops[x] == l then rest + [S.Msg(x, signum)] else rest
  }

  function Key(signums: seq<nat>, loops: seq<nat>): Ptr -> int {
    (x: Ptr) => if x < |signums| && x < |loops| then KeyOf(signums[x], loops[x], x) else 0
  }

  // The watchers in tree order: by signal, then loop, then address.
  ghost predicate Ordered(signums: seq<nat>, loops: seq<nat>, xs: seq<Ptr>) {
    && |signums| == |loops| <= WORD
    && (forall x :: 0 <= x < |loops| ==> 0 < loops[x] < WORD)
    && (forall i :: 0 <= i < |xs| ==> 0 < xs[i] < |signums| && signums[xs[i]] != 0)
    && Sorted(Key(signums, loops), xs)
  }

  ghost predicate Watched(signums: seq<nat>, xs: seq<Ptr>, n: nat) {
    exists i :: 0 <= i < |xs| && xs[i] < |signums| && signums[xs[i]] == n
  }

  // Where the watchers of a signal begin.
  ghost function Lower(signums: seq<nat>, loops: seq<nat>, xs: seq<Ptr>, signum: nat): nat {
    Rank(Key(signums, loops), xs, KeyOf(signum, 0, 0))
  }

  // Watchers before that position have smaller signals, later ones do not.
  lemma {:induction false} Splits(signums: seq<nat>, loops: seq<nat>, xs: seq<Ptr>, signum: nat, at: nat, i: nat)
    requires Ordered(signums, loops, xs) && at < WORD && i < |xs|
    ensures i < Rank(Key(signums, loops), xs, KeyOf(signum, 0, at)) <==> signums[xs[i]] < signum
  {
    var key := Key(signums, loops);
    var r := Rank(key, xs, KeyOf(signum, 0, at));
    var x := xs[i];
    CompareIsKeyOrder(signums[x], loops[x], x, signum, 0, at);
    if i < r {
      assert xs[..r][i] == x;
    } else if r < i {
      assert key(xs[r]) < key(x);
    }
  }

  // The address of the lookup key does not matter: no loop is NULL.
  lemma {:induction false} LowerIs(signums: seq<nat>, loops: seq<nat>, xs: seq<Ptr>, signum: nat, at: nat)
    requires Ordered(signums, loops, xs) && at < WORD
    ensures Rank(Key(signums, loops), xs, KeyOf(signum, 0, at)) == Lower(signums, loops, xs, signum)
  {
    var r, lo := Rank(Key(signums, loops), xs, KeyOf(signum, 0, at)), Lower(signums, loops, xs, signum);
    if r < |xs| {
      Splits(signums, loops, xs, signum, at, r);
      Splits(signums, loops, xs, signum, 0, r);
    }
    if lo < |xs| {
      Splits(signums, loops, xs, signum, at, lo);
      Splits(signums, loops, xs, signum, 0, lo);
    }
  }

  // Signal numbers do not decrease along the tree.
  lemma {:induction false} SignalsGrow(signums: seq<nat>, loops: seq<nat>, xs: seq<Ptr>, i: nat, j: nat)
    requires Ordered(signums, loops, xs) && i <= j < |xs|
    ensures signums[xs[i]] <= signums[xs[j]]
  {
    var x, y := xs[i], xs[j];
    if i < j {
      assert Key(signums, loops)(x) < Key(signums, loops)(y);
      CompareIsKeyOrder(signums[x], loops[x], x, signums[y], loops[y], y);
    }
  }

  // The watchers of a signal from its lower bound up to position i.
  ghost predicate Visited(signums: seq<nat>, xs: seq<Ptr>, signum: nat, lo: nat, i: nat) {
    lo <= i <= |xs| && forall j :: lo <= j < i ==> xs[j] < |signums| && signums[xs[j]] == signum
  }

  lemma {:induction false} OnceEach(key: Ptr -> int, xs: seq<Ptr>, lo: nat, i: nat)
    requires Sorted(key, xs) && lo <= i <= |xs|
    ensures NoRepeats(xs[lo..i])
    decreases i
  {
    if lo < i {
      var x := xs[i - 1];
      OnceEach(key, xs, lo, i - 1);
      forall j | lo <= j < i - 1 ensures xs[j] != x {
        assert key(xs[j]) < key(xs[i - 1]);
      }
      TailIn(xs[lo..i - 1], x);
      assert xs[lo..i] == xs[lo..i - 1] + [x];
    }
  }

  // `visited` lists every watcher of the signal, each once, in tree order.
  ghost predicate VisitsAll(signums: seq<nat>, loops: seq<nat>, xs: seq<Ptr>, signum: nat, visited: seq<Ptr>) {
    && NoRepeats(visited)
    && Lower(signums, loops, xs, signum) + |visited| <= |xs|
    && visited == xs[Lower(signums, loops, xs, signum)..Lower(signums, loops, xs, signum) + |visited|]
    && forall j :: 0 <= j < |xs| && xs[j] < |signums| ==> (signums[xs[j]] == signum <==> xs[j] in visited)
  }

  // Where the visit stops, every watcher of the signal was visited, and each once.
  lemma {:induction false} VisitedAll(signums: seq<nat>, loops: seq<nat>, xs: seq<Ptr>, signum: nat, i: nat)
    requires Ordered(signums, loops, xs) && Visited(signums, xs, signum, Lower(signums, loops, xs, signum), i)
    requires i < |xs| ==> signums[xs[i]] != signum
    ensures VisitsAll(signums, loops, xs, signum, xs[Lower(signums, loops, xs, signum)..i])
  {
    var lo := Lower(signums, loops, xs, signum);
    forall j | 0 <= j < |xs| ensures signums[xs[j]] == signum <==> xs[j] in xs[lo..i] {
      Splits(signums, loops, xs, signum, 0, j);
      if i <= j {
        Splits(signums, loops, xs, signum, 0, i);
        SignalsGrow(signums, loops, xs, i, j);
      }
      if lo <= j < i {
        assert xs[lo..i][j - lo] == xs[j];
      }
    }
    OnceEach(Key(signums, loops), xs, lo, i);
  }

  // A state of the step relation whose tree is the one in which xs are the watchers, in order.
  ghost predicate Pictures(s: S.State, signums: seq<nat>, loops: seq<nat>, xs: seq<Ptr>) {
    && (forall h :: h in s.tree <==> h in xs)
    && (forall h :: h in xs ==> h in s.handles && h < |signums| && h < |loops| && s.handles[h].signum == signums[h]
                                && s.handles[h].loop == loops[h])
  }

  // The search of the tree visits just the watchers that the step relation delivers a signal to.
  lemma {:induction false} VisitsWatching(s: S.State, signums: seq<nat>, loops: seq<nat>, xs: seq<Ptr>, signum: nat,
                                          visited: seq<Ptr>)
    requires Pictures(s, signums, loops, xs) && VisitsAll(signums, loops, xs, signum, visited)
    ensures S.Watching(s, signum, visited)
    ensures signum != 0 && s.handler.Idle? ==> S.Enabled(s, S.Catch(signum, visited))
  {
    forall h: nat ensures h in visited <==> h in s.tree && h in s.handles && s.handles[h].signum == signum {
      if h in visited {
        assert h in xs;
      } else if h in xs {
        var j :| 0 <= j < |xs| && xs[j] == h;
        assert signums[xs[j]] == signum <==> xs[j] in visited;
      }
    }
    hide Lower, NoRepeats;
  }

  // The signal number of a watcher outside the tree does not matter to it.
  lemma {:induction false} Relabel(signums: seq<nat>, loops: seq<nat>, xs: seq<Ptr>, h: Ptr, n: nat)
    requires Ordered(signums, loops, xs) && h < |signums| && h !in xs
    ensures Ordered(signums[h := n], loops, xs)
    ensures forall k :: Watched(signums[h := n], xs, k) <==> Watched(signums, xs, k)
  {
    var after := signums[h := n];
    forall i, j | 0 <= i < j < |xs| ensures Key(after, loops)(xs[i]) < Key(after, loops)(xs[j]) {
      assert xs[i] in xs && xs[j] in xs;
      assert Key(signums, loops)(xs[i]) < Key(signums, loops)(xs[j]);
    }
    assert forall i :: 0 <= i < |xs| ==> xs[i] in xs;
  }

  // Where an element of xs is once h has been put in at i.
  function Shift(i: nat, j: nat): nat {
    if j < i then j else j + 1
  }

  lemma {:induction false} Shifted(xs: seq<Ptr>, ys: seq<Ptr>, h: Ptr, i: nat)
    requires i <= |xs| && ys == xs[..i] + [h] + xs[i..]
    ensures |ys| == |xs| + 1 && ys[i] == h && forall j: nat :: j < |xs| ==> ys[Shift(i, j)] == xs[j]
    ensures forall k: nat :: k < |ys| && k != i ==> ys[k] == xs[if k < i then k else k - 1]
  {}

  lemma {:induction false} WatchedUp(signums: seq<nat>, xs: seq<Ptr>, ys: seq<Ptr>, h: Ptr, i: nat, j: nat)
    requires i <= |xs| && ys == xs[..i] + [h] + xs[i..] && j < |xs| && xs[j] < |signums|
    ensures Watched(signums, ys, signums[xs[j]])
  {
    Shifted(xs, ys, h, i);
    assert ys[Shift(i, j)] == xs[j];
  }

  lemma {:induction false} WatchedDown(signums: seq<nat>, xs: seq<Ptr>, ys: seq<Ptr>, h: Ptr, i: nat, k: nat)
    requires i <= |xs| && ys == xs[..i] + [h] + xs[i..] && k < |ys| && ys[k] < |signums|
    ensures ys[k] == h || Watched(signums, xs, signums[ys[k]])
  {
    Shifted(xs, ys, h, i);
    if k != i {
      assert ys[k] == xs[if k < i then k else k - 1];
    }
  }

  lemma {:induction false} WatchedOne(signums: seq<nat>, xs: seq<Ptr>, ys: seq<Ptr>, h: Ptr, i: nat, n: nat)
    requires i <= |xs| && ys == xs[..i] + [h] + xs[i..] && h < |signums|
    ensures Watched(signums, ys, n) <==> Watched(signums, xs, n) || n == signums[h]
  {
    assert |ys| == |xs| + 1 && ys[i] == h;
    if Watched(signums, xs, n) {
      var j: nat :| j < |xs| && xs[j] < |signums| && signums[xs[j]] == n;
      WatchedUp(signums, xs, ys, h, i, j);
    } else if n == signums[h] {
      assert signums[ys[i]] == n;
    } else if Watched(signums, ys, n) {
      var k: nat :| k < |ys| && ys[k] < |signums| && signums[ys[k]] == n;
      WatchedDown(signums, xs, ys, h, i, k);
      assert false;
    }
  }

  lemma {:induction false} WatchedInserted(signums: seq<nat>, xs: seq<Ptr>, ys: seq<Ptr>, h: Ptr)
    requires IsInsertion(xs, ys, h) && h < |signums|
    ensures forall n :: Watched(signums, ys, n) <==> Watched(signums, xs, n) || n == signums[h]
  {
    var i: nat :| i <= |xs| && ys == xs[..i] + [h] + xs[i..];
    hide *;
    forall n: nat ensures Watched(signums, ys, n) <==> Watched(signums, xs, n) || n == signums[h] {
      WatchedOne(signums, xs, ys, h, i, n);
    }
  }

  lemma {:induction false} OrderedRemovedAt(signums: seq<nat>, loops: seq<nat>, ys: seq<Ptr>, xs: seq<Ptr>, h: Ptr,
                                            i: nat)
    requires Ordered(signums, loops, xs) && i <= |ys| && xs == ys[..i] + [h] + ys[i..]
    ensures Ordered(signums, loops, ys) && h !in ys && 0 < h < |signums| && signums[h] != 0
  {
    var key := Key(signums, loops);
    Shifted(ys, xs, h, i);
    assert forall j: nat, k: nat :: j < k < |xs| ==> key(xs[j]) < key(xs[k]);
    hide Key;
    forall j: nat | j < |ys| ensures 0 < ys[j] < |signums| && signums[ys[j]] != 0 && ys[j] != h {
      assert xs[Shift(i, j)] == ys[j];
      assert if j < i then key(xs[Shift(i, j)]) < key(xs[i]) else key(xs[i]) < key(xs[Shift(i, j)]);
    }
    forall j: nat, k: nat | j < k < |ys| ensures key(ys[j]) < key(ys[k]) {
      assert key(xs[Shift(i, j)]) < key(xs[Shift(i, k)]);
    }
    assert 0 < xs[i] < |signums|;
  }

  lemma {:induction false} OrderedRemoved(signums: seq<nat>, loops: seq<nat>, ys: seq<Ptr>, xs: seq<Ptr>, h: Ptr)
    requires Ordered(signums, loops, xs) && IsInsertion(ys, xs, h)
    ensures Ordered(signums, loops, ys) && h !in ys && 0 < h < |signums| && signums[h] != 0
  {
    var i: nat :| i <= |ys| && xs == ys[..i] + [h] + ys[i..];
    hide *;
    OrderedRemovedAt(signums, loops, ys, xs, h, i);
  }

  // The operating system's handler is installed just for the watched signals.
  ghost predicate Installs(installed: set<nat>, signums: seq<nat>, xs: seq<Ptr>) {
    forall n :: n in installed <==> Watched(signums, xs, n)
  }

  lemma {:induction false} LinkInstalls(installed: set<nat>, signums: seq<nat>, loops: seq<nat>, xs: seq<Ptr>,
                                        ys: seq<Ptr>, h: Ptr, n: nat)
    requires Ordered(signums, loops, xs) && Installs(installed, signums, xs) && IsInsertion(xs, ys, h)
    requires h < |signums| && h !in xs
    ensures Installs(installed + {n}, signums[h := n], ys)
  {
    Relabel(signums, loops, xs, h, n);
    WatchedInserted(signums[h := n], xs, ys, h);
  }

  lemma {:induction false} UnlinkInstalls(installed: set<nat>, signums: seq<nat>, loops: seq<nat>, ys: seq<Ptr>,
                                          xs: seq<Ptr>, h: Ptr)
    requires Ordered(signums, loops, xs) && Installs(installed, signums, xs) && IsInsertion(ys, xs, h)
    ensures Ordered(signums, loops, ys) && 0 < h < |signums| && Ordered(signums[h := 0], loops, ys)
    ensures Installs(if Watched(signums, ys, signums[h]) then installed else installed - {signums[h]},
                     signums[h := 0], ys)
  {
    OrderedRemoved(signums, loops, ys, xs, h);
    WatchedInserted(signums, ys, xs, h);
    Relabel(signums, loops, ys, h, 0);
  }

  lemma {:induction false} Entered(signums: seq<nat>, loops: seq<nat>, xs: seq<Ptr>, ys: seq<Ptr>, h: Ptr)
    requires Ordered(signums, loops, xs) && IsInsertion(xs, ys, h) && 0 < h < |signums| && signums[h] != 0
    requires Sorted(Key(signums, loops), ys)
    ensures Ordered(signums, loops, ys)
  {
    WatchedInserted(signums, xs, ys, h);
  }

  // What the handler has done: one message and one count for each of `sent`.
  ghost predicate Delivered(loops: seq<nat>, signum: nat, sent: seq<Ptr>, caught0: seq<nat>, pipes0: map<nat, seq<Msg>>,
                            caught: seq<nat>, pipes: map<nat, seq<Msg>>)
  {
    && |caught| == |caught0| && pipes.Keys == pipes0.Keys
    && (forall x :: 0 <= x < |caught| ==> caught[x] == caught0[x] + multiset(sent)[x])
    && (forall l :: l in pipes ==> pipes[l] == pipes0[l] + Sent(sent, loops, l, signum))
  }

  lemma {:induction false} SentMore(sent: seq<Ptr>, loops: seq<nat>, l: nat, signum: nat, x: Ptr)
    ensures Sent(sent + [x], loops, l, signum) ==
      Sent(sent, loops, l, signum) + if x < |loops| && loops[x] == l then [S.Msg(x, signum)] else []
  {
    assert (sent + [x])[..|sent|] == sent;
  }

  lemma {:induction false} CaughtOne(loops: seq<nat>, signum: nat, sent: seq<Ptr>, caught0: seq<nat>,
                                     pipes0: map<nat, seq<Msg>>, caught: seq<nat>, pipes: map<nat, seq<Msg>>, x: Ptr)
    requires Delivered(loops, signum, sent, caught0, pipes0, caught, pipes)
    requires x < |loops| && x < |caught| && loops[x] in pipes
    ensures Delivered(loops, signum, sent + [x], caught0, pipes0, caught[x := caught[x] + 1],
                      pipes[loops[x] := pipes[loops[x]] + [S.Msg(x, signum)]])
  {
    assert multiset(sent + [x]) == multiset(sent)[x := multiset(sent)[x] + 1];
    forall l | l in pipes ensures Sent(sent + [x], loops, l, signum) ==
      Sent(sent, loops, l, signum) + if loops[x] == l then [S.Msg(x, signum)] else []
    {
      SentMore(sent, loops, l, signum, x);
    }
    hide Sent;
  }

  // The watchers whose write succeeded: ok[i] says it of the i-th one visited, and writes after
  // the last one fail.
  function Chosen(visited: seq<Ptr>, ok: seq<bool>): seq<Ptr> {
    if visited == [] then []
    else
      var n := |visited| - 1;
      Chosen(visited[..n], ok) + if n < |ok| && ok[n] then [visited[n]] else []
  }

  lemma {:induction false} ChosenMore(visited: seq<Ptr>, ok: seq<bool>, x: Ptr)
    ensures Chosen(visited + [x], ok)
         == Chosen(visited, ok) + if |visited| < |ok| && ok[|visited|] then [x] else []
  {
    assert (visited + [x])[..|visited|] == visited;
  }

  lemma {:induction false} NothingYet(xs: seq<Ptr>, lo: nat, ok: seq<bool>)
    requires lo <= |xs|
    ensures Chosen(xs[lo..lo], ok) == []
  {}

  lemma {:induction false} ChosenNext(xs: seq<Ptr>, lo: nat, i: nat, ok: seq<bool>)
    requires lo <= i < |xs|
    ensures var sent := Chosen(xs[lo..i], ok);
      Chosen(xs[lo..i + 1], ok) == if i - lo < |ok| && ok[i - lo] then sent + [xs[i]] else sent
  {
    assert xs[lo..i + 1] == xs[lo..i] + [xs[i]];
    ChosenMore(xs[lo..i], ok, xs[i]);
  }

  // Each watcher is sent to once at most, and just if its write succeeded.
  lemma {:induction false} ChosenIs(visited: seq<Ptr>, ok: seq<bool>, i: nat)
    requires NoRepeats(visited) && i < |visited|
    ensures NoRepeats(Chosen(visited, ok)) && (forall x :: x in Chosen(visited, ok) ==> x in visited)
    ensures visited[i] in Chosen(visited, ok) <==> i < |ok| && ok[i]
  {
    var n := |visited| - 1;
    var front, x := visited[..n], visited[n];
    assert visited == front + [x];
    Joined(front, [x]);
    hide NoRepeats;
    if n > 0 {
      ChosenIs(front, ok, if i < n then i else 0);
    }
    if n < |ok| && ok[n] {
      TailIn(Chosen(front, ok), x);
    }
    if i < n {
      assert front[i] == visited[i] && front[i] in front;
    }
  }

  class Watchers {
    const nodes: TreeStore
    var signums: seq<nat>
    var loops: seq<nat>
    var caught: seq<nat>
    var installed: set<nat>
    var pipes: map<nat, seq<Msg>>

    ghost predicate Shape()
      reads this, nodes
    {
      && nodes.Valid() && IsRedBlack(nodes.tree) && Ordered(signums, loops, InOrder(nodes.tree))
      && |signums| == |caught| == |nodes.cells|
      && (forall x :: 0 <= x < |loops| ==> loops[x] in pipes)
    }

    ghost predicate Valid()
      reads this, nodes
    {
      Shape() && Installs(installed, signums, InOrder(nodes.tree))
    }

    constructor (owners: seq<nat>)
      requires |owners| <= WORD && forall x :: 0 <= x < |owners| ==> 0 < owners[x] < WORD
      ensures Valid() && fresh(nodes) && loops == owners && InOrder(nodes.tree) == []
    {
      nodes := new TreeStore(|owners|);
      signums := seq(|owners|, _ => 0);
      caught := seq(|owners|, _ => 0);
      loops := owners;
      installed := {};
      pipes := map x | x in owners :: [];
    }

    // uv__signal_first_handle; `at` is the address of the lookup key on the stack.
    method FirstHandle(signum: nat, at: nat) returns (handle: Ptr)
      requires Shape() && at < WORD
      ensures handle == NULL <==> !Watched(signums, InOrder(nodes.tree), signum)
      ensures handle != NULL ==>
        var xs, lo := InOrder(nodes.tree), Lower(signums, loops, InOrder(nodes.tree), signum);
        lo < |xs| && handle == xs[lo] && signums[handle] == signum
    {
      ghost var xs := InOrder(nodes.tree);
      handle := NFind(nodes, KeyOf(signum, 0, at), Key(signums, loops));
      LowerIs(signums, loops, xs, signum, at);
      ghost var lo := Lower(signums, loops, xs, signum);
      forall j | 0 <= j < |xs| && signums[xs[j]] == signum
        ensures handle != NULL && signums[handle] == signum
      {
        Splits(signums, loops, xs, signum, 0, j);
        Splits(signums, loops, xs, signum, 0, lo);
        SignalsGrow(signums, loops, xs, lo, j);
      }
      if handle != NULL && signums[handle] == signum {
        return handle;
      }
      return NULL;
    }

    // What the loop of the handler needs to know: not how the tree is ordered.
    ghost predicate Sound()
      reads this, nodes
    {
      && nodes.Valid() && |signums| == |loops| == |caught|
      && (forall j :: 0 <= j < |InOrder(nodes.tree)| ==> 0 < InOrder(nodes.tree)[j] < |signums|)
      && (forall x :: 0 <= x < |loops| ==> loops[x] in pipes)
    }

    // A successful write to the pipe of a watcher's loop, and the count (lines 153-168).
    method Catch(handle: Ptr, signum: nat, ghost sent: seq<Ptr>, ghost caught0: seq<nat>,
                 ghost pipes0: map<nat, seq<Msg>>)
      requires Sound() && handle < |loops| && Delivered(loops, signum, sent, caught0, pipes0, caught, pipes)
      modifies this`caught, this`pipes
      ensures Sound() && Delivered(loops, signum, sent + [handle], caught0, pipes0, caught, pipes)
    {
      CaughtOne(loops, signum, sent, caught0, pipes0, caught, pipes, handle);
      hide Delivered;
      var l := loops[handle];
      pipes := pipes[l := pipes[l] + [S.Msg(handle, signum)]];
      caught := caught[handle := caught[handle] + 1];
    }

    // Tries to write; a full pipe loses the message, so the environment says whether it
    // succeeds.
    method Notify(handle: Ptr, signum: nat, ok: bool, ghost sent: seq<Ptr>, ghost caught0: seq<nat>,
                  ghost pipes0: map<nat, seq<Msg>>)
      requires Sound() && handle < |loops| && Delivered(loops, signum, sent, caught0, pipes0, caught, pipes)
      modifies this`caught, this`pipes
      ensures Sound()
      ensures Delivered(loops, signum, if ok then sent + [handle] else sent, caught0, pipes0, caught, pipes)
    {
      if ok {
        Catch(handle, signum, sent, caught0, pipes0);
      }
    }

    lemma {:induction false} NothingSent(signum: nat)
      ensures Delivered(loops, signum, [], caught, pipes, caught, pipes)
    {}

    lemma {:induction false} SoundAt(i: nat)
      requires Sound() && i < |InOrder(nodes.tree)|
      ensures nodes.Valid() && InOrder(nodes.tree)[i] < |loops| && 0 < InOrder(nodes.tree)[i] < |signums|
    {}

    method VisitFrom(first: Ptr, signum: nat, ok: seq<bool>, ghost lo: nat) returns (ghost i: nat)
      requires Sound() && first == ElementAt(InOrder(nodes.tree), lo) && lo <= |InOrder(nodes.tree)|
      modifies this`caught, this`pipes
      ensures Sound() && lo <= i <= |InOrder(nodes.tree)|
      ensures forall j :: lo <= j < i ==> signums[InOrder(nodes.tree)[j]] == signum
      ensures i < |InOrder(nodes.tree)| ==> signums[InOrder(nodes.tree)[i]] != signum
      ensures Delivered(loops, signum, Chosen(InOrder(nodes.tree)[lo..i], ok), old(caught), old(pipes), caught, pipes)
    {
      hide *;
      ghost var xs, sent := InOrder(nodes.tree), [];
      NothingYet(xs, lo, ok);
      NothingSent(signum);
      i := lo;
      var handle, k := first, 0;
      AtElement(handle, i);
      while handle != NULL && signums[handle] == signum
        invariant Sound() && lo <= i <= |xs| && k == i - lo && handle == ElementAt(xs, i)
        invariant (handle == NULL <==> i == |xs|) && (handle != NULL ==> handle < |signums| && handle == xs[i])
        invariant forall j :: lo <= j < i ==> 0 < xs[j] < |signums| && signums[xs[j]] == signum
        invariant sent == Chosen(xs[lo..i], ok)
        invariant Delivered(loops, signum, sent, old(caught), old(pipes), caught, pipes)
        decreases |xs| - i
      {
        SoundAt(i);
        handle, sent := Visit(handle, signum, ok, k, lo, i, sent, old(caught), old(pipes));
        i, k := i + 1, k + 1;
        AtElement(handle, i);
      }
    }

    lemma {:induction false} AtElement(handle: Ptr, i: nat)
      requires Sound() && handle == ElementAt(InOrder(nodes.tree), i) && i <= |InOrder(nodes.tree)|
      ensures handle == NULL <==> i == |InOrder(nodes.tree)|
      ensures handle != NULL ==> 0 < handle < |signums| == |loops| && handle == InOrder(nodes.tree)[i]
    {
      hide InOrder;
    }

    // The body of the handler's loop.
    method Visit(handle: Ptr, signum: nat, ok: seq<bool>, k: nat, ghost lo: nat, ghost i: nat, ghost sent: seq<Ptr>,
                 ghost caught0: seq<nat>, ghost pipes0: map<nat, seq<Msg>>)
      returns (next: Ptr, ghost sent': seq<Ptr>)
      requires Sound() && lo <= i < |InOrder(nodes.tree)| && handle == InOrder(nodes.tree)[i] && k == i - lo
      requires sent == Chosen(InOrder(nodes.tree)[lo..i], ok)
      requires Delivered(loops, signum, sent, caught0, pipes0, caught, pipes)
      modifies this`caught, this`pipes
      ensures Sound() && next == ElementAt(InOrder(nodes.tree), i + 1)
      ensures sent' == Chosen(InOrder(nodes.tree)[lo..i + 1], ok)
      ensures Delivered(loops, signum, sent', caught0, pipes0, caught, pipes)
    {
      hide *;
      ghost var xs := InOrder(nodes.tree);
      SoundAt(i);
      ChosenNext(xs, lo, i, ok);
      sent' := if k < |ok| && ok[k] then sent + [handle] else sent;
      Notify(handle, signum, k < |ok| && ok[k], sent, caught0, pipes0);
      assert nodes.Valid();
      next := Next(nodes, handle, i);
    }

    // uv__signal_handler: the visited watchers are all that watch the signal, each once, in
    // tree order; one message is sent to, and one count added for, each whose write succeeds.
    method Handler(signum: nat, at: nat, ok: seq<bool>) returns (ghost visited: seq<Ptr>)
      requires Shape() && at < WORD
      modifies this`caught, this`pipes
      ensures Shape() && VisitsAll(signums, loops, InOrder(nodes.tree), signum, visited)
      ensures Delivered(loops, signum, Chosen(visited, ok), old(caught), old(pipes), caught, pipes)
    {
      ghost var xs := InOrder(nodes.tree);
      visited := [];
      var handle := FirstHandle(signum, at);
      if handle != NULL {
        ghost var i := VisitFrom(handle, signum, ok, Lower(signums, loops, xs, signum));
        visited := xs[Lower(signums, loops, xs, signum)..i];
        hide *;
        VisitedAll(signums, loops, xs, signum, i);
      }
    }

    // Lines 330-331.
    method Enter(handle: Ptr, signum: nat)
      requires Shape() && 0 < handle < |signums| && handle !in InOrder(nodes.tree) && signum != 0
      modifies this`signums, nodes
      ensures Shape() && signums == old(signums)[handle := signum]
      ensures IsInsertion(old(InOrder(nodes.tree)), InOrder(nodes.tree), handle)
    {
      ghost var xs := InOrder(nodes.tree);
      Relabel(signums, loops, xs, handle, signum);
      IdsInOrder(nodes.tree, handle);
      signums := signums[handle := signum];
      var found := Insert(nodes, handle, Key(signums, loops));
      if found != NULL {
        CompareIsKeyOrder(signums[found], loops[found], found, signum, loops[handle], handle);
      }
      Entered(signums, loops, xs, InOrder(nodes.tree), handle);
    }

    // The part of uv_signal_start under the lock (lines 321-331). `ok` says whether the
    // operating system accepts the signal number; the result is false if it does not.
    method Link(handle: Ptr, signum: nat, at: nat, ok: bool) returns (linked: bool)
      requires Valid() && at < WORD && 0 < handle < |signums| && signums[handle] == 0 && signum != 0
      modifies this`signums, this`installed, nodes
      ensures Valid()
      ensures linked <==> ok || Watched(old(signums), old(InOrder(nodes.tree)), signum)
      ensures !linked ==> signums == old(signums) && InOrder(nodes.tree) == old(InOrder(nodes.tree))
      ensures linked ==> handle < |old(signums)| && signums == old(signums)[handle := signum]
      ensures linked ==> IsInsertion(old(InOrder(nodes.tree)), InOrder(nodes.tree), handle)
    {
      var first := FirstHandle(signum, at);
      if first == NULL && !ok {
        return false;
      }
      ghost var xs, was := InOrder(nodes.tree), installed;
      assert first != NULL ==> installed + {signum} == installed;
      if first == NULL {
        installed := installed + {signum};
      }
      Enter(handle, signum);
      LinkInstalls(was, old(signums), loops, xs, InOrder(nodes.tree), handle, signum);
      return true;
    }

    // uv__signal_stop of a started watcher (lines 450-464).
    method Unlink(handle: Ptr, at: nat)
      requires Valid() && at < WORD && handle in InOrder(nodes.tree)
      modifies this`signums, this`installed, nodes
      ensures Valid() && IsInsertion(InOrder(nodes.tree), old(InOrder(nodes.tree)), handle)
      ensures handle < |old(signums)| && signums == old(signums)[handle := 0]
    {
      ghost var xs := InOrder(nodes.tree);
      IdsInOrder(nodes.tree, handle);
      Remove(nodes, handle);
      ghost var ys := InOrder(nodes.tree);
      UnlinkInstalls(installed, signums, loops, ys, xs, handle);
      var first := FirstHandle(signums[handle], at);
      if first == NULL {
        installed := installed - {signums[handle]};
      }
      signums := signums[handle := 0];
    }
  }
}
