/** Binary trees stored as linked nodes.

Nodes live in a store indexed by id; id 0 is the null pointer. The heap of
src/heap-inl.h and the red-black tree of include/tree.h both keep left, right and
parent links, and both overwrite them one at a time, so both are written against
the store defined here. What a store holds is described by a value tree, and a
place inside that tree by a context (everything except the subtree at the place).
*/
module LinkedTree {

  type Ptr = nat

  const NULL: Ptr := 0

  // A pointer followed: it is never null.
  function Addr(p: Ptr): (q: Ptr)
    requires p != NULL
    ensures q == p
  {
    p
  }

  // One node's links; heap nodes have no colour and leave that field alone.
  datatype Cell = Cell(left: Ptr, right: Ptr, parent: Ptr, red: bool)

  datatype Tree = Leaf | Node(left: Tree, id: Ptr, red: bool, right: Tree)

  // A tree with one subtree missing: the frames from the hole up to the root.
  datatype Ctx =
    | Top
    | InLeft(up: Ctx, id: Ptr, red: bool, right: Tree)
    | InRight(up: Ctx, left: Tree, id: Ptr, red: bool)

  function Root(t: Tree): Ptr {
    if t.Leaf? then NULL else t.id
  }

  function Hole(c: Ctx): Ptr {
    if c.Top? then NULL else c.id
  }

  function Grow(c: Ctx, t: Tree): (r: Tree)
    requires !c.Top?
    ensures r.Node?
  {
    match c
    case InLeft(_, id, red, r) => Node(t, id, red, r)
    case InRight(_, l, id, red) => Node(l, id, red, t)
  }

  function Plug(c: Ctx, t: Tree): Tree
    decreases c
  {
    if c.Top? then t else Plug(c.up, Grow(c, t))
  }

  lemma {:induction false} PlugNode(c: Ctx, t: Tree)
    requires !c.Top? || t.Node?
    ensures Plug(c, t).Node?
    decreases c
  {
    if !c.Top? {
      PlugNode(c.up, Grow(c, t));
    }
  }

  function Ids(t: Tree): set<Ptr> {
    match t
    case Leaf => {}
    case Node(l, id, _, r) => Ids(l) + {id} + Ids(r)
  }

  function CtxIds(c: Ctx): set<Ptr> {
    match c
    case Top => {}
    case InLeft(up, id, _, r) => CtxIds(up) + {id} + Ids(r)
    case InRight(up, l, id, _) => CtxIds(up) + {id} + Ids(l)
  }

  function Height(t: Tree): nat {
    match t
    case Leaf => 0
    case Node(l, _, _, r) => 1 + if Height(l) < Height(r) then Height(r) else Height(l)
  }

  function InOrder(t: Tree): seq<Ptr> {
    match t
    case Leaf => []
    case Node(l, id, _, r) => InOrder(l) + [id] + InOrder(r)
  }

  // The nodes before and after the hole, in order.
  function Before(c: Ctx): seq<Ptr> {
    match c
    case Top => []
    case InLeft(up, _, _, _) => Before(up)
    case InRight(up, l, id, _) => Before(up) + InOrder(l) + [id]
  }

  function After(c: Ctx): seq<Ptr> {
    match c
    case Top => []
    case InLeft(up, id, _, r) => [id] + InOrder(r) + After(up)
    case InRight(up, _, _, _) => After(up)
  }

  lemma {:induction false} InCtx(c: Ctx, t: Tree)
    requires !c.Top?
    ensures Root(Plug(c, t)) in CtxIds(c)
    decreases c
  {
    if !c.up.Top? {
      InCtx(c.up, Grow(c, t));
    }
  }

  // No node occurs twice.
  ghost predicate Distinct(t: Tree) {
    match t
    case Leaf => true
    case Node(l, id, _, r) =>
      && id !in Ids(l) && id !in Ids(r) && Ids(l) !! Ids(r)
      && Distinct(l) && Distinct(r)
  }

  ghost predicate CtxDistinct(c: Ctx) {
    match c
    case Top => true
    case InLeft(up, id, _, r) =>
      && Distinct(r) && id !in Ids(r) && id !in CtxIds(up) && Ids(r) !! CtxIds(up)
      && CtxDistinct(up)
    case InRight(up, l, id, _) =>
      && Distinct(l) && id !in Ids(l) && id !in CtxIds(up) && Ids(l) !! CtxIds(up)
      && CtxDistinct(up)
  }

  // The store links t's nodes the way t says, below the node `parent`.
  ghost predicate Rep(s: seq<Cell>, parent: Ptr, t: Tree)
    decreases t
  {
    match t
    case Leaf => true
    case Node(l, id, red, r) =>
      && 0 < id < |s|
      && s[id] == Cell(Root(l), Root(r), parent, red)
      && Rep(s, id, l) && Rep(s, id, r)
  }

  // The store links c's nodes the way c says, with the hole's link holding p.
  ghost predicate RepCtx(s: seq<Cell>, root: Ptr, c: Ctx, p: Ptr) {
    match c
    case Top => root == p
    case InLeft(up, id, red, r) =>
      && 0 < id < |s|
      && s[id] == Cell(p, Root(r), Hole(up), red)
      && Rep(s, id, r) && RepCtx(s, root, up, id)
    case InRight(up, l, id, red) =>
      && 0 < id < |s|
      && s[id] == Cell(Root(l), p, Hole(up), red)
      && Rep(s, id, l) && RepCtx(s, root, up, id)
  }

  // The store holds t at the hole of c.
  ghost predicate At(s: seq<Cell>, root: Ptr, c: Ctx, t: Tree) {
    && Rep(s, Hole(c), t) && RepCtx(s, root, c, Root(t))
    && Distinct(t) && CtxDistinct(c) && Ids(t) !! CtxIds(c)
  }

  lemma {:induction false} NonNull(s: seq<Cell>, parent: Ptr, t: Tree)
    requires Rep(s, parent, t)
    ensures NULL !in Ids(t)
    decreases t
  {
    if t.Node? {
      NonNull(s, t.id, t.left);
      NonNull(s, t.id, t.right);
    }
  }

  lemma {:induction false} NonNullCtx(s: seq<Cell>, root: Ptr, c: Ctx, p: Ptr)
    requires RepCtx(s, root, c, p)
    ensures NULL !in CtxIds(c)
  {
    match c
    case Top =>
    case InLeft(up, id, _, r) => NonNull(s, id, r); NonNullCtx(s, root, up, id);
    case InRight(up, l, id, _) => NonNull(s, id, l); NonNullCtx(s, root, up, id);
  }

  lemma {:induction false} Zip(s: seq<Cell>, root: Ptr, c: Ctx, t: Tree)
    ensures At(s, root, c, t) <==> At(s, root, Top, Plug(c, t))
    decreases c
  {
    if !c.Top? {
      Zip(s, root, c.up, Grow(c, t));
      assert At(s, root, c, t) <==> At(s, root, c.up, Grow(c, t));
    }
  }

  // s' differs from s at the nodes in `changed` only.
  ghost predicate Agree(s: seq<Cell>, s': seq<Cell>, changed: set<Ptr>) {
    && |s'| == |s|
    && forall i :: 0 <= i < |s| && i !in changed ==> s'[i] == s[i]
  }

  lemma {:induction false} Frame(s: seq<Cell>, s': seq<Cell>, changed: set<Ptr>, parent: Ptr, t: Tree)
    requires Rep(s, parent, t) && Agree(s, s', changed) && Ids(t) !! changed
    ensures Rep(s', parent, t)
    decreases t
  {
    if t.Node? {
      Frame(s, s', changed, t.id, t.left);
      Frame(s, s', changed, t.id, t.right);
    }
  }

  // Moving a whole subtree to another parent touches its root's parent link only.
  lemma {:induction false} Reparent(s: seq<Cell>, s': seq<Cell>, changed: set<Ptr>, parent: Ptr, parent': Ptr, t: Tree)
    requires Rep(s, parent, t) && Distinct(t) && Agree(s, s', changed) && Ids(t) * changed <= {Root(t)}
    requires t.Node? && t.id < |s| ==> s'[t.id] == s[t.id].(parent := parent')
    ensures Rep(s', parent', t)
  {
    if t.Node? {
      Frame(s, s', changed, t.id, t.left);
      Frame(s, s', changed, t.id, t.right);
    }
  }

  lemma {:induction false} FrameCtx(s: seq<Cell>, s': seq<Cell>, changed: set<Ptr>, root: Ptr, c: Ctx, p: Ptr)
    requires RepCtx(s, root, c, p) && Agree(s, s', changed) && CtxIds(c) !! changed
    ensures RepCtx(s', root, c, p)
  {
    match c
    case Top =>
    case InLeft(up, id, _, r) => Frame(s, s', changed, id, r); FrameCtx(s, s', changed, root, up, id);
    case InRight(up, l, id, _) => Frame(s, s', changed, id, l); FrameCtx(s, s', changed, root, up, id);
  }

  // The node above the hole with its link into the hole redirected to p.
  function Relinked(c: Ctx, cell: Cell, p: Ptr): Cell {
    if c.InLeft? then cell.(left := p) else cell.(right := p)
  }

  // Replacing the subtree at a hole: outside the subtree only the link into the
  // hole changes.
  lemma {:induction false} Splice(s: seq<Cell>, s': seq<Cell>, changed: set<Ptr>, root: Ptr, root': Ptr, c: Ctx,
                                  t: Tree, t': Tree)
    requires At(s, root, c, t) && Agree(s, s', changed) && CtxIds(c) * changed <= {Hole(c)}
    requires Rep(s', Hole(c), t') && Distinct(t') && Ids(t') !! CtxIds(c)
    requires !c.Top? && c.id < |s| ==> s'[c.id] == Relinked(c, s[c.id], Root(t'))
    requires root' == if c.Top? then Root(t') else root
    ensures At(s', root', c, t')
  {
    match c
    case Top =>
    case InLeft(up, id, _, r) => Frame(s, s', changed, id, r); FrameCtx(s, s', changed, root, up, id);
    case InRight(up, l, id, _) => Frame(s, s', changed, id, l); FrameCtx(s, s', changed, root, up, id);
  }

  lemma {:induction false} InOrderPlug(c: Ctx, t: Tree)
    ensures InOrder(Plug(c, t)) == Before(c) + InOrder(t) + After(c)
    decreases c
  {
    if !c.Top? {
      InOrderPlug(c.up, Grow(c, t));
    }
  }

  lemma {:induction false} IdsPlug(c: Ctx, t: Tree)
    ensures Ids(Plug(c, t)) == CtxIds(c) + Ids(t)
    decreases c
  {
    if !c.Top? {
      IdsPlug(c.up, Grow(c, t));
    }
  }

  // A node of a tree stands somewhere in it.
  lemma {:induction false} Locate(c: Ctx, t: Tree, x: Ptr) returns (c': Ctx, t': Tree)
    requires x in Ids(t)
    ensures Plug(c', t') == Plug(c, t) && t'.Node? && t'.id == x
    decreases t
  {
    if x == t.id {
      c', t' := c, t;
    } else if x in Ids(t.left) {
      c', t' := Locate(InLeft(c, t.id, t.red, t.right), t.left, x);
    } else {
      c', t' := Locate(InRight(c, t.left, t.id, t.red), t.right, x);
    }
  }

  function RotatedLeft(t: Tree): (r: Tree)
    requires t.Node? && t.right.Node?
    ensures r.Node?
  {
    var Node(a, x, xred, Node(b, y, yred, d)) := t;
    Node(Node(a, x, xred, b), y, yred, d)
  }

  function RotatedRight(t: Tree): (r: Tree)
    requires t.Node? && t.left.Node?
    ensures r.Node?
  {
    var Node(Node(a, x, xred, b), y, yred, d) := t;
    Node(a, x, xred, Node(b, y, yred, d))
  }


  lemma {:induction false} RotatedLeftInOrder(t: Tree)
    requires t.Node? && t.right.Node?
    ensures InOrder(RotatedLeft(t)) == InOrder(t)
  {}

  lemma {:induction false} RotatedRightInOrder(t: Tree)
    requires t.Node? && t.left.Node?
    ensures InOrder(RotatedRight(t)) == InOrder(t)
  {}

  // One pointer write each; writing through a null child is skipped, as the source's
  // guards do.
  function WithLeft(s: seq<Cell>, x: Ptr, p: Ptr): (s': seq<Cell>)
    requires x < |s|
    ensures |s'| == |s|
  {
    s[x := s[x].(left := p)]
  }

  function WithRight(s: seq<Cell>, x: Ptr, p: Ptr): (s': seq<Cell>)
    requires x < |s|
    ensures |s'| == |s|
  {
    s[x := s[x].(right := p)]
  }

  function WithParent(s: seq<Cell>, x: Ptr, p: Ptr): (s': seq<Cell>)
    requires x < |s|
    ensures |s'| == |s|
  {
    if x == NULL then s else s[x := s[x].(parent := p)]
  }

  function Redirected(s: seq<Cell>, up: Ptr, from: Ptr, to: Ptr): (s': seq<Cell>)
    requires up < |s|
    ensures |s'| == |s|
  {
    if up == NULL then s else if s[up].left == from then WithLeft(s, up, to) else WithRight(s, up, to)
  }

  lemma {:induction false} RotatedLeftIds(t: Tree)
    requires t.Node? && t.right.Node?
    ensures Ids(RotatedLeft(t)) == Ids(t)
    ensures Distinct(t) ==> Distinct(RotatedLeft(t))
  {
    assert Distinct(t) ==> Distinct(t.right);
  }

  // The store after the six pointer writes of a left rotation at x.
  function LeftRotationStore(s: seq<Cell>, x: Ptr, y: Ptr, b: Ptr, h: Ptr): (s': seq<Cell>)
    requires x < |s| && y < |s| && b < |s| && h < |s|
    ensures |s'| == |s|
  {
    WithParent(WithLeft(Redirected(WithParent(WithParent(WithRight(s, x, b), b, x), y, h), h, x, y), y, x), x, y)
  }

  lemma {:induction false} LeftRotationWrites(s: seq<Cell>, s': seq<Cell>, x: Ptr, y: Ptr, b: Ptr, h: Ptr)
    requires 0 < x < |s| && 0 < y < |s| && b < |s| && h < |s|
    requires x != y && x != b && y != b && h != x && h != y && (h == b ==> h == NULL)
    requires s' == LeftRotationStore(s, x, y, b, h)
    ensures Agree(s, s', {x, y, b, h})
    ensures s'[x] == s[x].(right := b, parent := y)
    ensures s'[y] == s[y].(left := x, parent := h)
    ensures b != NULL ==> s'[b] == s[b].(parent := x)
    ensures h != NULL ==> s'[h] == if s[h].left == x then s[h].(left := y) else s[h].(right := y)
  {}

  // The nodes a left rotation writes lie apart from the subtrees it keeps.
  lemma {:induction false} LeftRotationNodes(s: seq<Cell>, root: Ptr, c: Ctx, t: Tree)
    requires t.Node? && t.right.Node? && At(s, root, c, t)
    ensures var Node(a, x, _, Node(b, y, _, d)) := t;
      var ws := {x, y, Root(b), Hole(c)};
      && x != y && Root(b) !in {x, y} && Hole(c) !in {x, y} && (Hole(c) == Root(b) ==> Root(b) == NULL)
      && NULL !in Ids(t) + CtxIds(c) && Distinct(b) && (c.InRight? ==> Root(c.left) != x)
      && Ids(a) !! ws && Ids(b) * ws <= {Root(b)} && Ids(d) !! ws && CtxIds(c) * ws <= {Hole(c)}
      && Rep(s, x, a) && Rep(s, y, b) && Rep(s, y, d)
      && 0 < y < |s| && s[y] == Cell(Root(b), Root(d), x, t.right.red)
  {
    assert Distinct(t.right);
    assert Rep(s, t.id, t.right);
    NonNull(s, Hole(c), t);
    NonNullCtx(s, root, c, t.id);
    var b := t.right.left;
    assert b.Node? ==> b.id in Ids(b);
    assert c.InRight? && c.left.Node? ==> c.left.id in Ids(c.left);
  }

  lemma {:induction false} LeftRotation(s: seq<Cell>, s': seq<Cell>, root: Ptr, root': Ptr, c: Ctx, t: Tree)
    requires t.Node? && t.right.Node? && At(s, root, c, t)
    requires var x, y, b, h := t.id, t.right.id, Root(t.right.left), Hole(c);
       0 < x < |s| && 0 < y < |s| && b < |s| && h < |s| &&
       s' == LeftRotationStore(s, x, y, b, h)
    requires root' == if c.Top? then t.right.id else root
    ensures At(s', root', Top, Plug(c, RotatedLeft(t)))
  {
    var Node(a, x, _, Node(b, y, _, d)) := t;
    var ws := {x, y, Root(b), Hole(c)};
    LeftRotationNodes(s, root, c, t);
    LeftRotationWrites(s, s', x, y, Root(b), Hole(c));
    Frame(s, s', ws, x, a);
    Reparent(s, s', ws, y, x, b);
    Frame(s, s', ws, y, d);
    RotatedLeftIds(t);
    Splice(s, s', ws, root, root', c, t, RotatedLeft(t));
    Zip(s', root', c, RotatedLeft(t));
  }

  // The store after the six pointer writes of a right rotation at x.
  function RightRotationStore(s: seq<Cell>, x: Ptr, y: Ptr, b: Ptr, h: Ptr): (s': seq<Cell>)
    requires x < |s| && y < |s| && b < |s| && h < |s|
    ensures |s'| == |s|
  {
    WithParent(WithRight(Redirected(WithParent(WithParent(WithLeft(s, x, b), b, x), y, h), h, x, y), y, x), x, y)
  }

  lemma {:induction false} RightRotationWrites(s: seq<Cell>, s': seq<Cell>, x: Ptr, y: Ptr, b: Ptr, h: Ptr)
    requires 0 < x < |s| && 0 < y < |s| && b < |s| && h < |s|
    requires x != y && x != b && y != b && h != x && h != y && (h == b ==> h == NULL)
    requires s' == RightRotationStore(s, x, y, b, h)
    ensures Agree(s, s', {x, y, b, h})
    ensures s'[x] == s[x].(left := b, parent := y)
    ensures s'[y] == s[y].(right := x, parent := h)
    ensures b != NULL ==> s'[b] == s[b].(parent := x)
    ensures h != NULL ==> s'[h] == if s[h].left == x then s[h].(left := y) else s[h].(right := y)
  {}

  lemma {:induction false} RightRotationNodes(s: seq<Cell>, root: Ptr, c: Ctx, t: Tree)
    requires t.Node? && t.left.Node? && At(s, root, c, t)
    ensures var Node(Node(a, y, _, b), x, _, d) := t;
      var ws := {x, y, Root(b), Hole(c)};
      && x != y && Root(b) !in {x, y} && Hole(c) !in {x, y} && (Hole(c) == Root(b) ==> Root(b) == NULL)
      && NULL !in Ids(t) + CtxIds(c) && Distinct(b) && (c.InRight? ==> Root(c.left) != x)
      && Ids(a) !! ws && Ids(b) * ws <= {Root(b)} && Ids(d) !! ws && CtxIds(c) * ws <= {Hole(c)}
      && Rep(s, y, a) && Rep(s, y, b) && Rep(s, x, d)
      && 0 < y < |s| && s[y] == Cell(Root(a), Root(b), x, t.left.red)
  {
    assert Distinct(t.left);
    assert Rep(s, t.id, t.left);
    NonNull(s, Hole(c), t);
    NonNullCtx(s, root, c, t.id);
    var b := t.left.right;
    assert b.Node? ==> b.id in Ids(b);
    assert c.InRight? && c.left.Node? ==> c.left.id in Ids(c.left);
  }

  lemma {:induction false} RotatedRightIds(t: Tree)
    requires t.Node? && t.left.Node?
    ensures Ids(RotatedRight(t)) == Ids(t)
    ensures Distinct(t) ==> Distinct(RotatedRight(t))
  {
    assert Distinct(t) ==> Distinct(t.left);
  }

  lemma {:induction false} RightRotation(s: seq<Cell>, s': seq<Cell>, root: Ptr, root': Ptr, c: Ctx, t: Tree)
    requires t.Node? && t.left.Node? && At(s, root, c, t)
    requires var x, y, b, h := t.id, t.left.id, Root(t.left.right), Hole(c);
       0 < x < |s| && 0 < y < |s| && b < |s| && h < |s| &&
       s' == RightRotationStore(s, x, y, b, h)
    requires root' == if c.Top? then t.left.id else root
    ensures At(s', root', Top, Plug(c, RotatedRight(t)))
  {
    var Node(Node(a, y, _, b), x, _, d) := t;
    var ws := {x, y, Root(b), Hole(c)};
    RightRotationNodes(s, root, c, t);
    RightRotationWrites(s, s', x, y, Root(b), Hole(c));
    Frame(s, s', ws, x, d);
    Reparent(s, s', ws, y, x, b);
    Frame(s, s', ws, y, a);
    RotatedRightIds(t);
    Splice(s, s', ws, root, root', c, t, RotatedRight(t));
    Zip(s', root', c, RotatedRight(t));
  }

  // The only subtree of a node with at most one.
  function Only(t: Tree): Tree
    requires t.Node?
  {
    if t.left.Leaf? then t.right else t.left
  }

  // Cutting out a node with at most one child, which takes its place.
  lemma {:induction false} CutOut(s: seq<Cell>, s': seq<Cell>, root: Ptr, root': Ptr, c: Ctx, t: Tree)
    requires At(s, root, c, t) && t.Node? && (t.left.Leaf? || t.right.Leaf?)
    requires Root(Only(t)) < |s| && Hole(c) < |s|
    requires s' == Redirected(WithParent(s, Root(Only(t)), Hole(c)), Hole(c), t.id, Root(Only(t)))
    requires root' == if c.Top? then Root(Only(t)) else root
    ensures At(s', root', Top, Plug(c, Only(t))) && t.id < |s| && s'[t.id] == s[t.id]
  {
    var x := Only(t);
    var ws := {Root(x), Hole(c)} - {NULL};
    NonNull(s, Hole(c), t);
    NonNullCtx(s, root, c, t.id);
    assert Rep(s, t.id, x) && Distinct(x) && (x.Node? ==> x.id in Ids(x));
    assert c.InRight? && c.left.Node? ==> c.left.id in Ids(c.left);
    assert Agree(s, s', ws);
    Reparent(s, s', ws, t.id, Hole(c), x);
    Splice(s, s', ws, root, root', c, t, x);
    Zip(s', root', c, x);
  }

  lemma {:induction false} AttachLeaf(s: seq<Cell>, s': seq<Cell>, root: Ptr, root': Ptr, c: Ctx, elm: Ptr, red: bool)
    requires At(s, root, c, Leaf) && 0 < elm < |s| && elm !in CtxIds(c)
    requires |s'| == |s| && s'[elm] == Cell(NULL, NULL, Hole(c), red)
    requires forall i :: 0 <= i < |s| && i != elm && i != Hole(c) ==> s'[i] == s[i]
    requires 0 < Hole(c) < |s| ==> s'[Hole(c)] == Relinked(c, s[Hole(c)], elm)
    requires root' == if c.Top? then elm else root
    ensures At(s', root', Top, Plug(c, Node(Leaf, elm, red, Leaf)))
  {
    var t := Node(Leaf, elm, red, Leaf);
    NonNullCtx(s, root, c, NULL);
    Splice(s, s', {elm, Hole(c)}, root, root', c, Leaf, t);
    Zip(s', root', c, t);
  }

  // Putting node e in the place of the root o of t: e takes over o's links, and the
  // nodes that pointed at o point at e.
  ghost predicate SubstitutedWrites(s: seq<Cell>, s': seq<Cell>, o: Ptr, e: Ptr) {
    && o < |s| && e < |s| && s[o].parent < |s| && s[o].left < |s| && s[o].right < |s|
    && var h, l, r := s[o].parent, s[o].left, s[o].right;
      && Agree(s, s', {e, h, l, r}) && s'[e] == s[o]
      && (h != NULL ==> s'[h] == if s[h].left == o then s[h].(left := e) else s[h].(right := e))
      && (l != NULL ==> s'[l] == s[l].(parent := e))
      && (r != NULL ==> s'[r] == s[r].(parent := e))
  }

  // e and the four nodes around o are different nodes.
  ghost predicate SubstitutedApart(s: seq<Cell>, o: Ptr, e: Ptr) {
    && 0 < o < |s| && 0 < e < |s| && o != e && s[o].parent < |s| && s[o].left < |s| && s[o].right < |s|
    && var h, l, r := s[o].parent, s[o].left, s[o].right;
      && {o, e} !! {h, l, r}
      && (l == h ==> h == NULL) && (r == h ==> h == NULL) && (l == r ==> l == NULL)
  }

  lemma {:induction false} SubstitutedNodes(s: seq<Cell>, root: Ptr, c: Ctx, t: Tree, e: Ptr)
    requires At(s, root, c, t) && t.Node? && e !in Ids(t) + CtxIds(c) && 0 < e < |s|
    requires Root(t.left) < |s| && Root(t.right) < |s| && Hole(c) < |s|
    ensures var Node(l, o, _, r) := t;
      var ws := {e, Hole(c), Root(l), Root(r)};
      && SubstitutedApart(s, o, e) && (c.InRight? ==> Root(c.left) != o)
      && Ids(l) * ws <= {Root(l)} && Ids(r) * ws <= {Root(r)} && CtxIds(c) * ws <= {Hole(c)}
  {
    NonNull(s, Hole(c), t);
    NonNullCtx(s, root, c, t.id);
    assert t.left.Node? ==> t.left.id in Ids(t.left);
    assert t.right.Node? ==> t.right.id in Ids(t.right);
    assert c.InRight? && c.left.Node? ==> c.left.id in Ids(c.left);
  }

  lemma {:induction false} Substitute(s: seq<Cell>, s': seq<Cell>, root: Ptr, root': Ptr, c: Ctx, t: Tree, e: Ptr)
    requires At(s, root, c, t) && t.Node? && e !in Ids(t) + CtxIds(c) && 0 < e < |s|
    requires 0 < t.id < |s| && s[t.id] == Cell(Root(t.left), Root(t.right), Hole(c), t.red)
    requires SubstitutedWrites(s, s', t.id, e)
    requires root' == if c.Top? then e else root
    ensures At(s', root', Top, Plug(c, t.(id := e)))
  {
    var Node(l, o, _, r) := t;
    var ws := {e, Hole(c), Root(l), Root(r)};
    SubstitutedNodes(s, root, c, t, e);
    Reparent(s, s', ws, o, e, l);
    Reparent(s, s', ws, o, e, r);
    Splice(s, s', ws, root, root', c, t, t.(id := e));
    Zip(s', root', c, t.(id := e));
  }

  lemma {:induction false} Recolour(s: seq<Cell>, s': seq<Cell>, root: Ptr, c: Ctx, t: Tree, red: bool)
    requires At(s, root, c, t) && t.Node?
    requires 0 < t.id < |s| && s' == s[t.id := s[t.id].(red := red)]
    ensures At(s', root, Top, Plug(c, t.(red := red)))
  {
    Frame(s, s', {t.id}, t.id, t.left);
    Frame(s, s', {t.id}, t.id, t.right);
    Splice(s, s', {t.id}, root, root, c, t, t.(red := red));
    Zip(s', root, c, t.(red := red));
  }

  /** A tree's nodes and its root pointer. */
  class TreeStore {
    var root: Ptr
    var cells: seq<Cell>
    ghost var tree: Tree

    ghost predicate Valid()
      reads this
    {
      At(cells, root, Top, tree)
    }

    constructor (size: nat)
      ensures Valid() && tree == Leaf && |cells| == size
    {
      root := NULL;
      cells := seq(size, _ => Cell(NULL, NULL, NULL, false));
      tree := Leaf;
    }

    // What the links around the root of a subtree are.
    lemma Look(c: Ctx, t: Tree)
      requires Valid() && tree == Plug(c, t)
      ensures At(cells, root, c, t)
      ensures t.Node? ==> 0 < t.id < |cells| && cells[t.id] == Cell(Root(t.left), Root(t.right), Hole(c), t.red)
      ensures c.Top? <==> root == Root(t)
      ensures t.Node? ==> Root(t.left) < |cells| && Root(t.right) < |cells|
      ensures t.Node? ==> (Root(t.left) == NULL <==> t.left.Leaf?) && (Root(t.right) == NULL <==> t.right.Leaf?)
      ensures !c.Top? && t.Node? ==> (Root(t) == (if c.InLeft? then cells[Hole(c)].left else cells[Hole(c)].right))
    {
      Zip(cells, root, c, t);
      if !c.Top? {
        PlugNode(c, t);
        InCtx(c, t);
      }
      if t.Node? {
        assert Rep(cells, t.id, t.left) && Rep(cells, t.id, t.right);
      }
    }


    // The colours of a node's children.
    lemma LookKids(c: Ctx, t: Tree)
      requires Valid() && tree == Plug(c, t) && t.Node?
      ensures t.left.Node? ==> 0 < t.left.id < |cells| && cells[t.left.id].red == t.left.red
      ensures t.right.Node? ==> 0 < t.right.id < |cells| && cells[t.right.id].red == t.right.red
    {
      Look(InLeft(c, t.id, t.red, t.right), t.left);
      Look(InRight(c, t.left, t.id, t.red), t.right);
    }

    // The subtree at the hole and the node above it, as far as a loop needs them.
    ghost predicate Sees(c: Ctx, t: Tree)
      reads this
    {
      && (t.Node? ==> 0 < t.id < |cells| && cells[t.id].red == t.red)
      && (c.Top? <==> root == Root(t))
    }

    // The node above the hole.
    lemma LookHole(c: Ctx, t: Tree)
      requires Valid() && tree == Plug(c, t)
      ensures c.Top? ==> root == Root(t)
      ensures !c.Top? ==> 0 < c.id < |cells|
      ensures c.InLeft? ==> cells[c.id] == Cell(Root(t), Root(c.right), Hole(c.up), c.red)
      ensures c.InRight? ==> cells[c.id] == Cell(Root(c.left), Root(t), Hole(c.up), c.red)
    {
      if c.Top? {
        Look(c, t);
      } else {
        Look(c.up, Grow(c, t));
      }
    }

    // The link that leads to the node above the hole.
    lemma {:induction false} LookParent(c: Ctx, t: Tree)
      requires Valid() && tree == Plug(c, t) && !c.Top?
      ensures c.up.Top? ==> root == c.id
      ensures c.up.InLeft? ==> 0 < c.up.id < |cells| && cells[c.up.id].left == c.id
      ensures c.up.InRight? ==> 0 < c.up.id < |cells| && cells[c.up.id].right == c.id
    {
      LookHole(c.up, Grow(c, t));
    }

    // A node or its sibling tells which child of its parent it is.
    lemma {:induction false} LookSide(c: Ctx, t: Tree)
      requires Valid() && tree == Plug(c, t)
      requires t.Node? || (c.InLeft? && c.right.Node?) || (c.InRight? && c.left.Node?)
      ensures !c.Top? ==> 0 < c.id < |cells|
      ensures !c.Top? ==> (cells[c.id].left == Root(t) <==> c.InLeft?) && (cells[c.id].right == Root(t) <==> c.InRight?)
    {
      Look(c, t);
      if !c.Top? {
        LookHole(c, t);
        var sibling := if c.InLeft? then c.right else c.left;
        NonNull(cells, c.id, sibling);
        NonNull(cells, c.id, t);
        assert sibling.Node? ==> sibling.id in Ids(sibling);
        assert t.Node? ==> t.id in Ids(t);
      }
    }

    // What x's parent link leads to.
    ghost predicate SeesUp(c: Ctx, x: Ptr)
      reads this
    {
      && 0 < x < |cells| && cells[x].parent == Hole(c) < |cells|
      && (!c.Top? ==> Hole(c) != NULL && cells[Hole(c)].red == c.red)
    }

    lemma LookUp(c: Ctx, t: Tree)
      requires Valid() && tree == Plug(c, t) && t.Node?
      ensures SeesUp(c, t.id)
    {
      Look(c, t);
      if !c.Top? {
        Look(c.up, Grow(c, t));
      }
    }

    method SetLeft(x: Ptr, p: Ptr)
      requires 0 < x < |cells|
      modifies this`cells
      ensures cells == WithLeft(old(cells), x, p)
    {
      cells := cells[Addr(x) := cells[Addr(x)].(left := p)];
    }

    method SetRight(x: Ptr, p: Ptr)
      requires 0 < x < |cells|
      modifies this`cells
      ensures cells == WithRight(old(cells), x, p)
    {
      cells := cells[Addr(x) := cells[Addr(x)].(right := p)];
    }

    method SetParent(x: Ptr, p: Ptr)
      requires x < |cells|
      modifies this`cells
      ensures cells == WithParent(old(cells), x, p)
    {
      if x != NULL {
        cells := cells[Addr(x) := cells[Addr(x)].(parent := p)];
      }
    }

    // Makes whatever points down at `from` point at `to` instead.
    method Redirect(up: Ptr, from: Ptr, to: Ptr)
      requires up < |cells|
      modifies this`root, this`cells
      ensures cells == Redirected(old(cells), up, from, to)
      ensures root == if up == NULL then to else old(root)
    {
      if up != NULL {
        if from == cells[Addr(up)].left {
          SetLeft(up, to);
        } else {
          SetRight(up, to);
        }
      } else {
        root := to;
      }
    }

    // The pointer writes of a rotation, with no account of the tree they rotate.
    method RotateLeftLinks(elm: Ptr)
      requires 0 < elm < |cells| && 0 < cells[elm].right < |cells| && cells[elm].parent < |cells|
      requires cells[cells[elm].right].left < |cells| && cells[cells[elm].right].left != elm
      modifies this`root, this`cells
      ensures var x, y, up := elm, old(cells)[elm].right, old(cells)[elm].parent;
        && cells == LeftRotationStore(old(cells), x, y, old(cells)[y].left, up)
        && root == if up == NULL then y else old(root)
    {
      var tmp := cells[Addr(elm)].right;
      var inner := cells[Addr(tmp)].left;
      SetRight(elm, inner);
      SetParent(inner, elm);
      var up := cells[Addr(elm)].parent;
      SetParent(tmp, up);
      Redirect(up, elm, tmp);
      SetLeft(tmp, elm);
      SetParent(elm, tmp);
    }

    method RotateLeft(elm: Ptr, ghost c: Ctx, ghost t: Tree)
      requires Valid() && tree == Plug(c, t) && t.Node? && t.right.Node? && t.id == elm
      modifies this
      ensures Valid() && tree == Plug(c, RotatedLeft(t)) && |cells| == old(|cells|)
    {
      Look(c, t);
      Look(InRight(c, t.left, elm, t.red), t.right);
      LeftRotationNodes(cells, root, c, t);
      RotateLeftLinks(elm);
      tree := Plug(c, RotatedLeft(t));
      LeftRotation(old(cells), cells, old(root), root, c, t);
    }

    // The pointer writes of a rotation, with no account of the tree they rotate.
    method RotateRightLinks(elm: Ptr)
      requires 0 < elm < |cells| && 0 < cells[elm].left < |cells| && cells[elm].parent < |cells|
      requires cells[cells[elm].left].right < |cells| && cells[cells[elm].left].right != elm
      modifies this`root, this`cells
      ensures var x, y, up := elm, old(cells)[elm].left, old(cells)[elm].parent;
        && cells == RightRotationStore(old(cells), x, y, old(cells)[y].right, up)
        && root == if up == NULL then y else old(root)
    {
      var tmp := cells[Addr(elm)].left;
      var inner := cells[Addr(tmp)].right;
      SetLeft(elm, inner);
      SetParent(inner, elm);
      var up := cells[Addr(elm)].parent;
      SetParent(tmp, up);
      Redirect(up, elm, tmp);
      SetRight(tmp, elm);
      SetParent(elm, tmp);
    }

    method RotateRight(elm: Ptr, ghost c: Ctx, ghost t: Tree)
      requires Valid() && tree == Plug(c, t) && t.Node? && t.left.Node? && t.id == elm
      modifies this
      ensures Valid() && tree == Plug(c, RotatedRight(t)) && |cells| == old(|cells|)
    {
      Look(c, t);
      Look(InLeft(c, elm, t.red, t.right), t.left);
      RightRotationNodes(cells, root, c, t);
      RotateRightLinks(elm);
      tree := Plug(c, RotatedRight(t));
      RightRotation(old(cells), cells, old(root), root, c, t);
    }

    method SetRed(x: Ptr, red: bool, ghost c: Ctx, ghost t: Tree)
      requires Valid() && tree == Plug(c, t) && t.Node? && t.id == x
      modifies this`cells, this`tree
      ensures Valid() && tree == Plug(c, t.(red := red)) && |cells| == old(|cells|)
    {
      ghost var s := cells;
      Look(c, t);
      cells := cells[Addr(x) := cells[Addr(x)].(red := red)];
      tree := Plug(c, t.(red := red));
      Recolour(s, cells, root, c, t, red);
    }

    // Cuts out elm, which has at most the one child given.
    method CutOutNode(elm: Ptr, child: Ptr, ghost c: Ctx, ghost t: Tree)
      requires Valid() && tree == Plug(c, t) && t.Node? && t.id == elm
      requires (t.left.Leaf? || t.right.Leaf?) && child == Root(Only(t))
      modifies this
      ensures Valid() && tree == Plug(c, Only(t)) && |cells| == old(|cells|)
      ensures elm < |cells| && cells[elm] == old(cells)[elm]
    {
      Look(c, t);
      var up := cells[Addr(elm)].parent;
      SetParent(child, up);
      Redirect(up, elm, child);
      tree := Plug(c, Only(t));
      CutOut(old(cells), cells, old(root), root, c, t);
    }

    method SubstituteLinks(o: Ptr, e: Ptr)
      requires SubstitutedApart(cells, o, e)
      modifies this`cells, this`root
      ensures SubstitutedWrites(old(cells), cells, o, e)
      ensures root == if old(cells)[o].parent == NULL then e else old(root)
    {
      cells := cells[Addr(e) := cells[Addr(o)]];
      Redirect(cells[Addr(o)].parent, o, e);
      SetParent(cells[Addr(o)].left, e);
      SetParent(cells[Addr(o)].right, e);
    }

    // Puts e where o is, links, colour and all.
    method SubstituteNode(o: Ptr, e: Ptr, ghost c: Ctx, ghost t: Tree)
      requires Valid() && tree == Plug(c, t) && t.Node? && t.id == o
      requires 0 < e < |cells| && e !in Ids(t) + CtxIds(c)
      modifies this
      ensures Valid() && tree == Plug(c, t.(id := e)) && |cells| == old(|cells|)
    {
      Look(c, t);
      SubstitutedNodes(cells, root, c, t, e);
      SubstituteLinks(o, e);
      tree := Plug(c, t.(id := e));
      Substitute(old(cells), cells, old(root), root, c, t, e);
    }
  }
}
