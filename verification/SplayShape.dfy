/** The pointer structure of a top-down splay (include/tree.h:84-113, 205-238): the tree
still to be searched, and two chains of nodes already moved aside.

A node has two links and a null link is 0. The source never follows null (Addr), so cell 0
stands for the scratch node on its stack. A direction says which of its links a
rotation or a chain uses.
*/
module SplayShape {

  type Ptr = nat
  const NULL: Ptr := 0

  // A pointer followed: it is never null.
  function Addr(p: Ptr): (q: Ptr)
    requires p != NULL
    ensures q == p
  {
    p
  }

  datatype Dir = L | R
  datatype Kids = Kids(left: Ptr, right: Ptr)
  datatype Tree = Leaf | Node(left: Tree, id: Ptr, right: Tree)

  function Other(d: Dir): Dir {
    if d.L? then R else L
  }

  function Get(c: seq<Kids>, p: Ptr, d: Dir): Ptr
    requires p < |c|
  {
    if d.L? then c[p].left else c[p].right
  }

  function Set(c: seq<Kids>, p: Ptr, d: Dir, v: Ptr): (c': seq<Kids>)
    requires p < |c|
    ensures |c'| == |c| && Get(c', p, d) == v && Get(c', p, Other(d)) == Get(c, p, Other(d))
    ensures forall x :: 0 <= x < |c| && x != p ==> c'[x] == c[x]
  {
    c[p := if d.L? then c[p].(left := v) else c[p].(right := v)]
  }

  function Sub(t: Tree, d: Dir): Tree
    requires t.Node?
  {
    if d.L? then t.left else t.right
  }

  // The node with `near` on side d and `far` on the other.
  function Join(near: Tree, id: Ptr, far: Tree, d: Dir): Tree {
    if d.L? then Node(near, id, far) else Node(far, id, near)
  }

  function InOrder(t: Tree): seq<Ptr> {
    match t
    case Leaf => []
    case Node(l, id, r) => InOrder(l) + [id] + InOrder(r)
  }

  function Ids(t: Tree): set<Ptr> {
    match t
    case Leaf => {}
    case Node(l, id, r) => Ids(l) + {id} + Ids(r)
  }

  function Size(t: Tree): nat {
    match t
    case Leaf => 0
    case Node(l, _, r) => Size(l) + 1 + Size(r)
  }

  ghost predicate Distinct(t: Tree) {
    t.Node? ==> Distinct(t.left) && Distinct(t.right) && t.id !in Ids(t.left) && t.id !in Ids(t.right)
                && Ids(t.left) !! Ids(t.right)
  }

  // The cells below p represent t.
  ghost predicate Rep(c: seq<Kids>, p: Ptr, t: Tree)
    decreases t
  {
    match t
    case Leaf => p == NULL
    case Node(l, id, r) => p == id && 0 < id < |c| && Rep(c, c[id].left, l) && Rep(c, c[id].right, r)
  }

  // A node moved aside, with the subtree it keeps.
  datatype Link = Link(id: Ptr, tree: Tree)

  function End(chain: seq<Link>): Ptr {
    if chain == [] then NULL else chain[|chain| - 1].id
  }

  // A chain hangs off the scratch node by links of direction d; the last such link dangles.
  ghost predicate RepChain(c: seq<Kids>, chain: seq<Link>, d: Dir)
    requires |c| > 0
  {
    chain != [] ==>
      var front, last := chain[..|chain| - 1], chain[|chain| - 1];
      && RepChain(c, front, d) && End(front) < |c| && Get(c, End(front), d) == last.id
      && 0 < last.id < |c| && Rep(c, Get(c, last.id, Other(d)), last.tree)
  }

  function ChainIds(chain: seq<Link>): set<Ptr> {
    if chain == [] then {}
    else
      var last := chain[|chain| - 1];
      ChainIds(chain[..|chain| - 1]) + {last.id} + Ids(last.tree)
  }

  ghost predicate DistinctChain(chain: seq<Link>) {
    chain != [] ==>
      var front, last := chain[..|chain| - 1], chain[|chain| - 1];
      && DistinctChain(front) && Distinct(last.tree) && last.id !in Ids(last.tree)
      && ({last.id} + Ids(last.tree)) !! ChainIds(front)
  }

  // The nodes of a chain in order: what hangs by right links comes before the key.
  function ChainOrder(chain: seq<Link>, d: Dir): seq<Ptr> {
    if chain == [] then []
    else
      var rest, last := ChainOrder(chain[..|chain| - 1], d), chain[|chain| - 1];
      if d.R? then rest + (InOrder(last.tree) + [last.id]) else ([last.id] + InOrder(last.tree)) + rest
  }

  // The whole chain as a tree, with s where the last link dangles.
  function ChainTree(chain: seq<Link>, s: Tree, d: Dir): Tree
    decreases |chain|
  {
    if chain == [] then s
    else
      var last := chain[|chain| - 1];
      ChainTree(chain[..|chain| - 1], Join(s, last.id, last.tree, d), d)
  }

  // -- Frames ---------------------------------------------------------------------------

  ghost predicate Same(c: seq<Kids>, c': seq<Kids>, changed: set<Ptr>) {
    |c| == |c'| && forall x :: 0 <= x < |c| && x !in changed ==> c[x] == c'[x]
  }

  lemma {:induction false} RepFrame(c: seq<Kids>, c': seq<Kids>, changed: set<Ptr>, p: Ptr, t: Tree)
    requires Rep(c, p, t) && Same(c, c', changed) && Ids(t) !! changed
    ensures Rep(c', p, t)
    decreases t
  {
    if t.Node? {
      RepFrame(c, c', changed, c[t.id].left, t.left);
      RepFrame(c, c', changed, c[t.id].right, t.right);
    }
  }

  // Writes elsewhere, and to the dangling link, leave a chain as it is.
  lemma {:induction false} ChainFrame(c: seq<Kids>, c': seq<Kids>, changed: set<Ptr>, chain: seq<Link>, d: Dir)
    requires |c| > 0 && RepChain(c, chain, d) && DistinctChain(chain) && NULL !in ChainIds(chain)
    requires Same(c, c', changed) && ChainIds(chain) * changed <= {End(chain)}
    requires End(chain) < |c| && (chain != [] ==> Get(c', End(chain), Other(d)) == Get(c, End(chain), Other(d)))
    requires chain != [] ==> Get(c', NULL, d) == Get(c, NULL, d)
    ensures RepChain(c', chain, d)
    decreases |chain|
  {
    if chain != [] {
      var front, last := chain[..|chain| - 1], chain[|chain| - 1];
      RepFrame(c, c', changed, Get(c, last.id, Other(d)), last.tree);
      if front != [] {
        assert End(front) in ChainIds(front);
        assert End(front) !in changed;
      }
      ChainFrame(c, c', changed, front, d);
    }
  }

  lemma {:induction false} RootIn(c: seq<Kids>, p: Ptr, t: Tree)
    requires Rep(c, p, t)
    ensures if t.Leaf? then p == NULL else p == t.id && p in Ids(t) && 0 < p < |c|
  {}

  // -- One state of the splay -------------------------------------------------------------

  ghost predicate Apart(l: seq<Link>, t: Tree, r: seq<Link>) {
    && Distinct(t) && DistinctChain(l) && DistinctChain(r)
    && Ids(t) !! ChainIds(l) && Ids(t) !! ChainIds(r) && ChainIds(l) !! ChainIds(r)
    && NULL !in Ids(t) && NULL !in ChainIds(l) && NULL !in ChainIds(r)
  }

  ghost predicate Splaying(c: seq<Kids>, root: Ptr, l: seq<Link>, t: Tree, r: seq<Link>) {
    && |c| > 0 && Rep(c, root, t) && RepChain(c, l, R) && RepChain(c, r, L) && Apart(l, t, r)
    && End(l) < |c| && End(r) < |c|
  }

  function Full(l: seq<Link>, t: Tree, r: seq<Link>): seq<Ptr> {
    ChainOrder(l, R) + InOrder(t) + ChainOrder(r, L)
  }

  // SPLAY_ROTATE_RIGHT for d == L, SPLAY_ROTATE_LEFT for d == R.
  function Rotate(t: Tree, d: Dir): (t': Tree)
    requires t.Node? && Sub(t, d).Node?
    ensures Size(t') == Size(t) && Ids(t') == Ids(t)
  {
    var tmp := Sub(t, d);
    Join(Sub(tmp, d), tmp.id, Join(Sub(tmp, Other(d)), t.id, Sub(t, Other(d)), d), d)
  }

  function RotateCells(c: seq<Kids>, root: Ptr, tmp: Ptr, d: Dir): seq<Kids>
    requires root < |c| && tmp < |c|
  {
    Set(Set(c, root, d, Get(c, tmp, Other(d))), tmp, Other(d), root)
  }

  lemma {:induction false} RotateInOrder(t: Tree, d: Dir)
    requires t.Node? && Sub(t, d).Node?
    ensures InOrder(Rotate(t, d)) == InOrder(t)
  {
    var tmp := Sub(t, d);
    if d.L? {
      assert InOrder(tmp.left) + [tmp.id] + (InOrder(tmp.right) + [t.id] + InOrder(t.right))
          == (InOrder(tmp.left) + [tmp.id] + InOrder(tmp.right)) + [t.id] + InOrder(t.right);
    } else {
      assert (InOrder(t.left) + [t.id] + InOrder(tmp.left)) + [tmp.id] + InOrder(tmp.right)
          == InOrder(t.left) + [t.id] + (InOrder(tmp.left) + [tmp.id] + InOrder(tmp.right));
    }
  }

  lemma {:induction false} RotateRep(c: seq<Kids>, t: Tree, d: Dir)
    requires t.Node? && Sub(t, d).Node? && Rep(c, t.id, t) && Distinct(t) && Sub(t, d).id < |c|
    ensures Rep(RotateCells(c, t.id, Sub(t, d).id, d), Sub(t, d).id, Rotate(t, d)) && Distinct(Rotate(t, d))
    ensures Same(c, RotateCells(c, t.id, Sub(t, d).id, d), {t.id, Sub(t, d).id})
  {
    var tmp := Sub(t, d);
    var c' := RotateCells(c, t.id, tmp.id, d);
    var changed := {t.id, tmp.id};
    RepFrame(c, c', changed, Get(c, tmp.id, d), Sub(tmp, d));
    RepFrame(c, c', changed, Get(c, tmp.id, Other(d)), Sub(tmp, Other(d)));
    RepFrame(c, c', changed, Get(c, t.id, Other(d)), Sub(t, Other(d)));
  }

  lemma {:induction false} RotateOk(c: seq<Kids>, root: Ptr, l: seq<Link>, t: Tree, r: seq<Link>, d: Dir)
    requires Splaying(c, root, l, t, r) && t.Node? && Sub(t, d).Node? && Sub(t, d).id < |c|
    ensures Splaying(RotateCells(c, root, Sub(t, d).id, d), Sub(t, d).id, l, Rotate(t, d), r)
    ensures Full(l, Rotate(t, d), r) == Full(l, t, r)
  {
    var c' := RotateCells(c, root, Sub(t, d).id, d);
    RotateRep(c, t, d);
    RotateInOrder(t, d);
    var changed := {t.id, Sub(t, d).id};
    assert changed <= Ids(t);
    if l != [] { assert End(l) in ChainIds(l); }
    if r != [] { assert End(r) in ChainIds(r); }
    ChainFrame(c, c', changed, l, R);
    ChainFrame(c, c', changed, r, L);
  }

  // SPLAY_LINKLEFT for d == L, SPLAY_LINKRIGHT for d == R: the root joins the chain.
  lemma {:induction false} LinkRep(c: seq<Kids>, chain: seq<Link>, t: Tree, d: Dir)
    requires |c| > 0 && RepChain(c, chain, d) && t.Node? && Rep(c, t.id, t) && Distinct(t) && DistinctChain(chain)
    requires Ids(t) !! ChainIds(chain) && NULL !in Ids(t) && NULL !in ChainIds(chain) && End(chain) < |c|
    ensures var c' := Set(c, End(chain), d, t.id);
      var chain' := chain + [Link(t.id, Sub(t, Other(d)))];
      && RepChain(c', chain', d) && Rep(c', Get(c', t.id, d), Sub(t, d)) && DistinctChain(chain') && End(chain') == t.id
      && ChainIds(chain') == ChainIds(chain) + {t.id} + Ids(Sub(t, Other(d)))
  {
    var c' := Set(c, End(chain), d, t.id);
    var chain' := chain + [Link(t.id, Sub(t, Other(d)))];
    assert chain'[..|chain|] == chain;
    if chain != [] { assert End(chain) in ChainIds(chain); }
    ChainFrame(c, c', {End(chain)}, chain, d);
    RepFrame(c, c', {End(chain)}, Get(c, t.id, d), Sub(t, d));
    RepFrame(c, c', {End(chain)}, Get(c, t.id, Other(d)), Sub(t, Other(d)));
  }

  // The chains after the root has joined the one of direction d.
  function Linked(chain: seq<Link>, t: Tree, d: Dir): seq<Link>
    requires t.Node?
  {
    chain + [Link(t.id, Sub(t, Other(d)))]
  }

  lemma {:induction false} LinkLeftOrder(l: seq<Link>, t: Tree, r: seq<Link>)
    requires t.Node?
    ensures Full(l, t.left, Linked(r, t, L)) == Full(l, t, r)
  {
    var r' := Linked(r, t, L);
    assert r'[..|r|] == r;
    assert ChainOrder(r', L) == ([t.id] + InOrder(t.right)) + ChainOrder(r, L);
    assert InOrder(t.left) + (([t.id] + InOrder(t.right)) + ChainOrder(r, L)) == InOrder(t) + ChainOrder(r, L);
  }

  lemma {:induction false} LinkLeftOk(c: seq<Kids>, root: Ptr, l: seq<Link>, t: Tree, r: seq<Link>)
    requires Splaying(c, root, l, t, r) && t.Node?
    ensures var c' := Set(c, End(r), L, root); Splaying(c', c'[root].left, l, t.left, Linked(r, t, L))
    ensures ChainIds(Linked(r, t, L)) == ChainIds(r) + {t.id} + Ids(Sub(t, Other(L)))
    ensures End(Linked(r, t, L)) == t.id
  {
    LinkRep(c, r, t, L);
    var c' := Set(c, End(r), L, root);
    var r' := Linked(r, t, L);
    if l != [] { assert End(l) in ChainIds(l); }
    if r != [] { assert End(r) in ChainIds(r); }
    ChainFrame(c, c', {End(r)}, l, R);
  }

  lemma {:induction false} LinkRightOrder(l: seq<Link>, t: Tree, r: seq<Link>)
    requires t.Node?
    ensures Full(Linked(l, t, R), t.right, r) == Full(l, t, r)
  {
    var l' := Linked(l, t, R);
    assert l'[..|l|] == l;
    assert ChainOrder(l', R) == ChainOrder(l, R) + (InOrder(t.left) + [t.id]);
    assert ChainOrder(l, R) + (InOrder(t.left) + [t.id]) + InOrder(t.right) == ChainOrder(l, R) + InOrder(t);
  }

  lemma {:induction false} LinkRightOk(c: seq<Kids>, root: Ptr, l: seq<Link>, t: Tree, r: seq<Link>)
    requires Splaying(c, root, l, t, r) && t.Node?
    ensures var c' := Set(c, End(l), R, root); Splaying(c', c'[root].right, Linked(l, t, R), t.right, r)
    ensures ChainIds(Linked(l, t, R)) == ChainIds(l) + {t.id} + Ids(Sub(t, Other(R)))
    ensures End(Linked(l, t, R)) == t.id
  {
    LinkRep(c, l, t, R);
    var c' := Set(c, End(l), R, root);
    var l' := Linked(l, t, R);
    if l != [] { assert End(l) in ChainIds(l); }
    if r != [] { assert End(r) in ChainIds(r); }
    ChainFrame(c, c', {End(l)}, r, L);
  }

  // -- SPLAY_ASSEMBLE -----------------------------------------------------------------------

  // A chain whose last link points to s is a tree.
  lemma {:induction false} ChainRep(c: seq<Kids>, chain: seq<Link>, s: Tree, d: Dir)
    requires |c| > 0 && RepChain(c, chain, d) && End(chain) < |c| && Rep(c, Get(c, End(chain), d), s)
    ensures Rep(c, Get(c, NULL, d), ChainTree(chain, s, d))
    decreases |chain|
  {
    if chain != [] {
      var last := chain[|chain| - 1];
      ChainRep(c, chain[..|chain| - 1], Join(s, last.id, last.tree, d), d);
    }
  }

  lemma {:induction false} ChainTreeIds(chain: seq<Link>, s: Tree, d: Dir)
    requires Distinct(s) && DistinctChain(chain) && Ids(s) !! ChainIds(chain)
    ensures Ids(ChainTree(chain, s, d)) == ChainIds(chain) + Ids(s) && Distinct(ChainTree(chain, s, d))
    decreases |chain|
  {
    if chain != [] {
      var last := chain[|chain| - 1];
      ChainTreeIds(chain[..|chain| - 1], Join(s, last.id, last.tree, d), d);
    }
  }

  lemma {:induction false} ChainTreeOrder(chain: seq<Link>, s: Tree, d: Dir)
    ensures InOrder(ChainTree(chain, s, d)) ==
      if d.R? then ChainOrder(chain, d) + InOrder(s) else InOrder(s) + ChainOrder(chain, d)
    decreases |chain|
  {
    if chain != [] {
      var last, front := chain[|chain| - 1], chain[..|chain| - 1];
      ChainTreeOrder(front, Join(s, last.id, last.tree, d), d);
      var o := ChainOrder(front, d);
      if d.R? {
        assert o + (InOrder(last.tree) + [last.id] + InOrder(s)) == o + (InOrder(last.tree) + [last.id]) + InOrder(s);
      } else {
        assert InOrder(s) + [last.id] + InOrder(last.tree) + o == InOrder(s) + (([last.id] + InOrder(last.tree)) + o);
      }
    }
  }

  // The four writes of SPLAY_ASSEMBLE; cell 0 is the scratch node.
  function AssembleCells(c: seq<Kids>, root: Ptr, left: Ptr, right: Ptr): seq<Kids>
    requires root < |c| && left < |c| && right < |c|
  {
    var c1 := Set(c, left, R, c[root].left);
    var c2 := Set(c1, right, L, c1[root].right);
    var c3 := Set(c2, root, L, c2[NULL].right);
    Set(c3, root, R, c3[NULL].left)
  }

  function Assembled(l: seq<Link>, t: Tree, r: seq<Link>): Tree
    requires t.Node?
  {
    Node(ChainTree(l, t.left, R), t.id, ChainTree(r, t.right, L))
  }

  lemma {:induction false} AssembledShape(l: seq<Link>, t: Tree, r: seq<Link>)
    requires Apart(l, t, r) && t.Node?
    ensures Distinct(Assembled(l, t, r)) && NULL !in Ids(Assembled(l, t, r))
    ensures t.id !in Ids(ChainTree(l, t.left, R)) && t.id !in Ids(ChainTree(r, t.right, L))
    ensures InOrder(Assembled(l, t, r)) == Full(l, t, r)
  {
    ChainTreeIds(l, t.left, R);
    ChainTreeIds(r, t.right, L);
    ChainTreeOrder(l, t.left, R);
    ChainTreeOrder(r, t.right, L);
    Regrouped(ChainOrder(l, R), InOrder(t.left), t.id, InOrder(t.right), ChainOrder(r, L));
    hide ChainTree, ChainOrder, ChainIds, DistinctChain;
  }

  lemma {:induction false} Regrouped(a: seq<Ptr>, b: seq<Ptr>, x: Ptr, c: seq<Ptr>, d: seq<Ptr>)
    ensures a + b + [x] + (c + d) == a + (b + [x] + c) + d
  {}

  // After the first two writes both chains are trees below the scratch node.
  lemma {:induction false} EndsWritten(c: seq<Kids>, root: Ptr, l: seq<Link>, t: Tree, r: seq<Link>)
    requires Splaying(c, root, l, t, r) && t.Node?
    ensures var c1 := Set(c, End(l), R, c[root].left);
      var c2 := Set(c1, End(r), L, c1[root].right);
      && Rep(c2, c2[NULL].right, ChainTree(l, t.left, R)) && Rep(c2, c2[NULL].left, ChainTree(r, t.right, L))
  {
    var c1 := Set(c, End(l), R, c[root].left);
    var c2 := Set(c1, End(r), L, c1[root].right);
    if l != [] { assert End(l) in ChainIds(l); }
    if r != [] { assert End(r) in ChainIds(r); }
    var ends := {End(l), End(r)};
    ChainFrame(c, c2, ends, l, R);
    ChainFrame(c, c2, ends, r, L);
    RepFrame(c, c2, ends, c[root].left, t.left);
    RepFrame(c, c2, ends, c[root].right, t.right);
    ChainRep(c2, l, t.left, R);
    ChainRep(c2, r, t.right, L);
  }

  lemma {:induction false} AssembleOk(c: seq<Kids>, root: Ptr, l: seq<Link>, t: Tree, r: seq<Link>)
    requires Splaying(c, root, l, t, r) && t.Node?
    ensures Rep(AssembleCells(c, root, End(l), End(r)), root, Assembled(l, t, r))
    ensures Distinct(Assembled(l, t, r)) && NULL !in Ids(Assembled(l, t, r))
    ensures InOrder(Assembled(l, t, r)) == Full(l, t, r)
  {
    AssembledShape(l, t, r);
    EndsWritten(c, root, l, t, r);
    var c1 := Set(c, End(l), R, c[root].left);
    var c2 := Set(c1, End(r), L, c1[root].right);
    var c4 := AssembleCells(c, root, End(l), End(r));
    hide ChainTree, RepChain, ChainIds, DistinctChain, ChainOrder, Distinct, Ids, InOrder;
    RepFrame(c2, c4, {root}, c2[NULL].right, ChainTree(l, t.left, R));
    RepFrame(c2, c4, {root}, c2[NULL].left, ChainTree(r, t.right, L));
  }
}
