/** Swapping a node with its child (src/heap-inl.h:67-100). */
module HeapLinks {
  import opened HeapShape
  import opened LinkedTree

  // Parent and child trade places; the shape of the tree stays as it is.
  function Swapped(t: Tree, left: bool): Tree
    requires t.Node? && (if left then t.left.Node? else t.right.Node?)
  {
    if left then
      var Node(Node(a, c, cred, b), p, pred, r) := t;
      Node(Node(a, p, cred, b), c, pred, r)
    else
      var Node(l, p, pred, Node(a, c, cred, b)) := t;
      Node(l, c, pred, Node(a, p, cred, b))
  }

  function ChildOf(t: Tree, left: bool): Tree
    requires t.Node?
  {
    if left then t.left else t.right
  }

  function SwappedCells(s: seq<Cell>, p: Ptr, c: Ptr, left: bool): (s': seq<Cell>)
    requires p < |s| && c < |s|
    ensures |s'| == |s|
  {
    s[p := s[c].(parent := c)][c := if left then s[p].(left := p) else s[p].(right := p)]
  }

  // The store after all writes of a swap of p with its child c; sib is c's sibling
  // and h the node above p.
  function SwappedStore(s: seq<Cell>, p: Ptr, c: Ptr, left: bool, a: Ptr, b: Ptr, sib: Ptr, h: Ptr): (s': seq<Cell>)
    requires p < |s| && c < |s| && a < |s| && b < |s| && sib < |s| && h < |s|
    ensures |s'| == |s|
  {
    Redirected(WithParent(WithParent(WithParent(SwappedCells(s, p, c, left), sib, c), a, p), b, p), h, p, c)
  }

  lemma {:induction false} SwapWrites(s: seq<Cell>, s': seq<Cell>, p: Ptr, c: Ptr, left: bool, a: Ptr, b: Ptr,
                                      sib: Ptr, h: Ptr)
    requires 0 < p < |s| && 0 < c < |s| && a < |s| && b < |s| && sib < |s| && h < |s|
    requires p != c && {p, c} !! {a, b, sib, h}
    requires (a == b ==> a == NULL) && (a == sib ==> a == NULL) && (b == sib ==> b == NULL)
    requires (a == h ==> a == NULL) && (b == h ==> b == NULL) && (sib == h ==> h == NULL)
    requires s' == SwappedStore(s, p, c, left, a, b, sib, h)
    ensures Agree(s, s', {p, c, a, b, sib, h})
    ensures s'[p] == s[c].(parent := c)
    ensures s'[c] == if left then s[p].(left := p) else s[p].(right := p)
    ensures a != NULL ==> s'[a] == s[a].(parent := p)
    ensures b != NULL ==> s'[b] == s[b].(parent := p)
    ensures sib != NULL ==> s'[sib] == s[sib].(parent := c)
    ensures h != NULL ==> s'[h] == if s[h].left == p then s[h].(left := c) else s[h].(right := c)
  {}

  // The six nodes a swap writes.
  function Written(c: Ctx, t: Tree, left: bool): set<Ptr>
    requires t.Node? && ChildOf(t, left).Node?
  {
    var k := ChildOf(t, left);
    {t.id, k.id, Root(k.left), Root(k.right), Root(ChildOf(t, !left)), Hole(c)}
  }

  lemma {:induction false} SwapNodes(s: seq<Cell>, root: Ptr, c: Ctx, t: Tree, left: bool)
    requires At(s, root, c, t) && t.Node? && ChildOf(t, left).Node?
    ensures var p, k, q := t.id, ChildOf(t, left), ChildOf(t, !left);
      var a, b, sib, h := Root(k.left), Root(k.right), Root(q), Hole(c);
      && p != k.id && {p, k.id} !! {a, b, sib, h} && NULL !in Ids(t) + CtxIds(c)
      && (a == b ==> a == NULL) && (a == sib ==> a == NULL) && (b == sib ==> b == NULL)
      && (a == h ==> a == NULL) && (b == h ==> b == NULL) && (sib == h ==> h == NULL)
      && (c.InRight? ==> Root(c.left) != p)
  {
    var k, q := ChildOf(t, left), ChildOf(t, !left);
    NonNull(s, Hole(c), t);
    NonNullCtx(s, root, c, t.id);
    assert Distinct(k);
    assert k.left.Node? ==> k.left.id in Ids(k.left);
    assert k.right.Node? ==> k.right.id in Ids(k.right);
    assert q.Node? ==> q.id in Ids(q);
    assert c.InRight? && c.left.Node? ==> c.left.id in Ids(c.left);
  }

  lemma {:induction false} SwapApart(s: seq<Cell>, root: Ptr, c: Ctx, t: Tree, left: bool)
    requires At(s, root, c, t) && t.Node? && ChildOf(t, left).Node?
    ensures var k, q, ws := ChildOf(t, left), ChildOf(t, !left), Written(c, t, left);
      && Ids(k.left) * ws <= {Root(k.left)} && Ids(k.right) * ws <= {Root(k.right)}
      && Ids(q) * ws <= {Root(q)} && CtxIds(c) * ws <= {Hole(c)}
      && Rep(s, t.id, k) && Distinct(k)
  {
    var k, q := ChildOf(t, left), ChildOf(t, !left);
    NonNull(s, Hole(c), t);
    NonNullCtx(s, root, c, t.id);
    assert Rep(s, t.id, k) && Distinct(k);
    assert k.left.Node? ==> k.left.id in Ids(k.left);
    assert k.right.Node? ==> k.right.id in Ids(k.right);
    assert q.Node? ==> q.id in Ids(q);
  }

  lemma {:induction false} SwappedIds(t: Tree, left: bool)
    requires t.Node? && ChildOf(t, left).Node?
    ensures Ids(Swapped(t, left)) == Ids(t)
    ensures Distinct(t) ==> Distinct(Swapped(t, left))
  {
    assert Distinct(t) ==> Distinct(ChildOf(t, left));
  }

  lemma {:induction false} SwappedKeepsShape(c: Ctx, t: Tree, left: bool, n: nat)
    requires t.Node? && ChildOf(t, left).Node?
    ensures Complete(Plug(c, Swapped(t, left)), 1, n) <==> Complete(Plug(c, t), 1, n)
    ensures Ids(Plug(c, Swapped(t, left))) == Ids(Plug(c, t))
  {
    CompletePlug(c, t, n);
    CompletePlug(c, Swapped(t, left), n);
    SwappedIds(t, left);
    IdsPlug(c, t);
    IdsPlug(c, Swapped(t, left));
  }

  lemma {:induction false} Swap(s: seq<Cell>, s': seq<Cell>, root: Ptr, root': Ptr, c: Ctx, t: Tree, left: bool)
    requires At(s, root, c, t) && t.Node? && ChildOf(t, left).Node?
    requires var p, k, q, h := t.id, ChildOf(t, left), ChildOf(t, !left), Hole(c);
      && p < |s| && k.id < |s| && Root(k.left) < |s| && Root(k.right) < |s| && Root(q) < |s| && h < |s|
      && s' == SwappedStore(s, p, k.id, left, Root(k.left), Root(k.right), Root(q), h)
    requires root' == if c.Top? then ChildOf(t, left).id else root
    ensures At(s', root', Top, Plug(c, Swapped(t, left)))
  {
    var p, k, q := t.id, ChildOf(t, left), ChildOf(t, !left);
    var ws := Written(c, t, left);
    SwapNodes(s, root, c, t, left);
    SwapApart(s, root, c, t, left);
    SwapWrites(s, s', p, k.id, left, Root(k.left), Root(k.right), Root(q), Hole(c));
    Reparent(s, s', ws, k.id, p, k.left);
    Reparent(s, s', ws, k.id, p, k.right);
    Reparent(s, s', ws, p, k.id, q);
    SwappedIds(t, left);
    Splice(s, s', ws, root, root', c, t, Swapped(t, left));
    Zip(s', root', c, Swapped(t, left));
  }

  // The struct copies of a swap, and the links between the two nodes.
  method SwapRecords(h: TreeStore, parent: Ptr, child: Ptr, ghost left: bool) returns (sibling: Ptr)
    requires 0 < parent < |h.cells| && 0 < child < |h.cells| && parent != child
    requires left <==> h.cells[parent].left == child
    modifies h`cells
    ensures h.cells == SwappedCells(old(h.cells), parent, child, left)
    ensures sibling == if left then old(h.cells)[parent].right else old(h.cells)[parent].left
  {
    var t := h.cells[Addr(parent)];
    h.cells := h.cells[Addr(parent) := h.cells[Addr(child)]];
    h.cells := h.cells[Addr(child) := t];
    h.cells := h.cells[Addr(parent) := h.cells[Addr(parent)].(parent := child)];
    if h.cells[Addr(child)].left == child {
      h.SetLeft(child, parent);
      sibling := h.cells[Addr(child)].right;
    } else {
      h.SetRight(child, parent);
      sibling := h.cells[Addr(child)].left;
    }
  }

  // The pointer writes of a swap, with no account of the tree they change.
  method NodeSwapLinks(h: TreeStore, parent: Ptr, child: Ptr, ghost left: bool)
    requires 0 < parent < |h.cells| && 0 < child < |h.cells| && parent != child
    requires left <==> h.cells[parent].left == child
    requires var s := h.cells; var p, c := s[parent], s[child]; var sib := if left then p.right else p.left;
      && c.left < |s| && c.right < |s| && sib < |s| && p.parent < |s|
      && {parent, child} !! {c.left, c.right, sib, p.parent}
    modifies h`cells, h`root
    ensures var s := old(h.cells); var p, c := s[parent], s[child];
      && h.cells == SwappedStore(s, parent, child, left, c.left, c.right, if left then p.right else p.left, p.parent)
      && h.root == if p.parent == NULL then child else old(h.root)
  {
    var sibling := SwapRecords(h, parent, child, left);
    h.SetParent(sibling, child);
    h.SetParent(h.cells[Addr(parent)].left, parent);
    h.SetParent(h.cells[Addr(parent)].right, parent);
    h.Redirect(h.cells[Addr(child)].parent, parent, child);
  }

  // heap_node_swap: the child moves closer to the root.
  method NodeSwap(h: TreeStore, parent: Ptr, child: Ptr, ghost c: Ctx, ghost t: Tree, ghost left: bool)
    requires h.Valid() && h.tree == Plug(c, t) && t.Node? && t.id == parent
    requires ChildOf(t, left).Node? && ChildOf(t, left).id == child
    modifies h
    ensures h.Valid() && h.tree == Plug(c, Swapped(t, left)) && |h.cells| == old(|h.cells|)
  {
    h.Look(c, t);
    h.Look(if left then InLeft(c, parent, t.red, t.right) else InRight(c, t.left, parent, t.red), ChildOf(t, left));
    SwapNodes(h.cells, h.root, c, t, left);
    NodeSwapLinks(h, parent, child, left);
    h.tree := Plug(c, Swapped(t, left));
    Swap(old(h.cells), h.cells, old(h.root), h.root, c, t, left);
  }
}
