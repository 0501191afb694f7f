/** The red-black tree operations of include/tree.h, on linked nodes.

The comparison function the source takes as a macro argument is the sign of the
difference of two keys; `key` gives every node's key.
*/
module RbTree {
  import opened LinkedTree
  import opened Order
  import opened RedBlack

  // What holds at every turn of the insertion loop: the red node elm may stand
  // where no red node is allowed, and nothing else is wrong.
  ghost predicate Inserting(c: Ctx, t: Tree) {
    Red(t) && Balanced(t) && CtxBalanced(c, BlackHeight(t))
  }

  // How far the loop still has to climb.
  ghost function Climb(c: Ctx): nat {
    if c.Top? || !c.red then 0 else 1 + Depth(c)
  }

  ghost function Depth(c: Ctx): nat {
    if c.Top? then 0 else 1 + Depth(c.up)
  }

  // What one turn of the insertion loop achieves.
  ghost predicate Turned(c: Ctx, t: Tree, c': Ctx, t': Tree) {
    && Inserting(c', t') && Climb(c') < Climb(c)
    && InOrder(Plug(c', t')) == InOrder(Plug(c, t))
  }

  // One turn of the insertion loop with the parent a left child: either the uncle
  // is red and the grandparent's colour moves up, or rotations end the loop.
  function RecolouredLeft(c: Ctx, t: Tree): Tree
    requires !c.Top? && c.up.InLeft? && c.up.right.Node?
  {
    var p := Grow(c, t);
    Node(p.(red := false), c.up.id, true, c.up.right.(red := false))
  }

  // The parent's subtree with elm turned to the outside.
  function OuterLeft(c: Ctx, t: Tree): (r: Tree)
    requires c.InLeft? || (c.InRight? && t.Node?)
    ensures r.Node?
  {
    if c.InLeft? then Grow(c, t) else RotatedLeft(Grow(c, t))
  }

  lemma {:induction false} RecolouredLeftKeeps(c: Ctx, t: Tree)
    requires Inserting(c, t) && !c.Top? && c.red && c.up.InLeft? && Red(c.up.right)
    ensures Turned(c, t, c.up.up, RecolouredLeft(c, t))
  {
    var p := Grow(c, t);
    assert CtxBalanced(c.up, BlackHeight(p));
    assert Depth(c) == 1 + Depth(c.up);
    assert Plug(c, t) == Plug(c.up, p) == Plug(c.up.up, Grow(c.up, p));
    InOrderPlug(c.up.up, Grow(c.up, p));
    InOrderPlug(c.up.up, RecolouredLeft(c, t));
  }

  lemma {:induction false} RotatedOutLeftKeeps(c: Ctx, t: Tree)
    requires Inserting(c, t) && !c.Top? && c.red && c.up.InLeft? && !Red(c.up.right)
    ensures var p, u := OuterLeft(c, t), c.up.right;
      Turned(c, t, InLeft(c.up.up, p.id, false, Node(p.right, c.up.id, true, u)), p.left)
  {
    var p, u := OuterLeft(c, t), c.up.right;
    assert CtxBalanced(c.up, BlackHeight(Grow(c, t)));
    if c.InRight? {
      RotatedLeftInOrder(Grow(c, t));
    }
    RotatedRightInOrder(Node(p.(red := false), c.up.id, true, u));
    assert Plug(c, t) == Plug(c.up, Grow(c, t)) == Plug(c.up.up, Grow(c.up, Grow(c, t)));
    InOrderPlug(c.up.up, Grow(c.up, Grow(c, t)));
    InOrderPlug(c.up.up, RotatedRight(Node(p.(red := false), c.up.id, true, u)));
  }

  method RecolourLeft(h: TreeStore, elm: Ptr, ghost c: Ctx, ghost t: Tree)
    returns (elm': Ptr, ghost c': Ctx, ghost t': Tree)
    requires h.Valid() && h.tree == Plug(c, t) && Inserting(c, t) && t.id == elm
    requires !c.Top? && c.red && c.up.InLeft? && Red(c.up.right)
    modifies h
    ensures h.Valid() && |h.cells| == old(|h.cells|)
    ensures h.tree == Plug(c', t') && Turned(c, t, c', t') && t'.id == elm'
  {
    ghost var p, g, up, u := Grow(c, t), c.up.id, c.up.up, c.up.right;
    h.Look(c, t);
    h.Look(c.up, p);
    h.Look(up, Grow(c.up, p));
    var parent := h.cells[Addr(elm)].parent;
    var gparent := h.cells[Addr(parent)].parent;
    var tmp := h.cells[Addr(gparent)].right;
    h.SetRed(tmp, false, InRight(up, p, g, c.up.red), u);
    u := u.(red := false);
    h.SetRed(parent, false, InLeft(up, g, c.up.red, u), p);
    p := p.(red := false);
    h.SetRed(gparent, true, up, Node(p, g, c.up.red, u));
    RecolouredLeftKeeps(c, t);
    elm', c', t' := gparent, up, RecolouredLeft(c, t);
  }

  method RotateOutLeft(h: TreeStore, elm: Ptr, ghost c: Ctx, ghost t: Tree)
    returns (elm': Ptr, ghost c': Ctx, ghost t': Tree)
    requires h.Valid() && h.tree == Plug(c, t) && Inserting(c, t) && t.id == elm
    requires !c.Top? && c.red && c.up.InLeft? && !Red(c.up.right)
    modifies h
    ensures h.Valid() && |h.cells| == old(|h.cells|)
    ensures h.tree == Plug(c', t') && Turned(c, t, c', t') && t'.id == elm'
  {
    ghost var p, g, up, u := Grow(c, t), c.up.id, c.up.up, c.up.right;
    h.Look(c, t);
    h.Look(c.up, p);
    h.Look(up, Grow(c.up, p));
    var parent := h.cells[Addr(elm)].parent;
    var gparent := h.cells[Addr(parent)].parent;
    elm' := elm;
    if h.cells[Addr(parent)].right == elm {
      h.RotateLeft(parent, c.up, p);
      elm', parent := parent, elm;
    }
    p := OuterLeft(c, t);
    h.SetRed(parent, false, c.up, p);
    p := p.(red := false);
    h.SetRed(gparent, true, up, Node(p, g, c.up.red, u));
    h.RotateRight(gparent, up, Node(p, g, true, u));
    RotatedOutLeftKeeps(c, t);
    c', t' := InLeft(up, p.id, false, Node(p.right, g, true, u)), p.left;
  }

  // One turn of the insertion loop with the parent a right child: either the uncle
  // is red and the grandparent's colour moves up, or rotations end the loop.
  function RecolouredRight(c: Ctx, t: Tree): Tree
    requires !c.Top? && c.up.InRight? && c.up.left.Node?
  {
    var p := Grow(c, t);
    Node(c.up.left.(red := false), c.up.id, true, p.(red := false))
  }

  // The parent's subtree with elm turned to the outside.
  function OuterRight(c: Ctx, t: Tree): (r: Tree)
    requires c.InRight? || (c.InLeft? && t.Node?)
    ensures r.Node?
  {
    if c.InRight? then Grow(c, t) else RotatedRight(Grow(c, t))
  }

  lemma {:induction false} RecolouredRightKeeps(c: Ctx, t: Tree)
    requires Inserting(c, t) && !c.Top? && c.red && c.up.InRight? && Red(c.up.left)
    ensures Turned(c, t, c.up.up, RecolouredRight(c, t))
  {
    var p := Grow(c, t);
    assert CtxBalanced(c.up, BlackHeight(p));
    assert Depth(c) == 1 + Depth(c.up);
    assert Plug(c, t) == Plug(c.up, p) == Plug(c.up.up, Grow(c.up, p));
    InOrderPlug(c.up.up, Grow(c.up, p));
    InOrderPlug(c.up.up, RecolouredRight(c, t));
  }

  lemma {:induction false} RotatedOutRightKeeps(c: Ctx, t: Tree)
    requires Inserting(c, t) && !c.Top? && c.red && c.up.InRight? && !Red(c.up.left)
    ensures var p, u := OuterRight(c, t), c.up.left;
      Turned(c, t, InRight(c.up.up, Node(u, c.up.id, true, p.left), p.id, false), p.right)
  {
    var p, u := OuterRight(c, t), c.up.left;
    assert CtxBalanced(c.up, BlackHeight(Grow(c, t)));
    if c.InLeft? {
      RotatedRightInOrder(Grow(c, t));
    }
    RotatedLeftInOrder(Node(u, c.up.id, true, p.(red := false)));
    assert Plug(c, t) == Plug(c.up, Grow(c, t)) == Plug(c.up.up, Grow(c.up, Grow(c, t)));
    InOrderPlug(c.up.up, Grow(c.up, Grow(c, t)));
    InOrderPlug(c.up.up, RotatedLeft(Node(u, c.up.id, true, p.(red := false))));
  }

  method RecolourRight(h: TreeStore, elm: Ptr, ghost c: Ctx, ghost t: Tree)
    returns (elm': Ptr, ghost c': Ctx, ghost t': Tree)
    requires h.Valid() && h.tree == Plug(c, t) && Inserting(c, t) && t.id == elm
    requires !c.Top? && c.red && c.up.InRight? && Red(c.up.left)
    modifies h
    ensures h.Valid() && |h.cells| == old(|h.cells|)
    ensures h.tree == Plug(c', t') && Turned(c, t, c', t') && t'.id == elm'
  {
    ghost var p, g, up, u := Grow(c, t), c.up.id, c.up.up, c.up.left;
    h.Look(c, t);
    h.Look(c.up, p);
    h.Look(up, Grow(c.up, p));
    var parent := h.cells[Addr(elm)].parent;
    var gparent := h.cells[Addr(parent)].parent;
    var tmp := h.cells[Addr(gparent)].left;
    h.SetRed(tmp, false, InLeft(up, g, c.up.red, p), u);
    u := u.(red := false);
    h.SetRed(parent, false, InRight(up, u, g, c.up.red), p);
    p := p.(red := false);
    h.SetRed(gparent, true, up, Node(u, g, c.up.red, p));
    RecolouredRightKeeps(c, t);
    elm', c', t' := gparent, up, RecolouredRight(c, t);
  }

  method RotateOutRight(h: TreeStore, elm: Ptr, ghost c: Ctx, ghost t: Tree)
    returns (elm': Ptr, ghost c': Ctx, ghost t': Tree)
    requires h.Valid() && h.tree == Plug(c, t) && Inserting(c, t) && t.id == elm
    requires !c.Top? && c.red && c.up.InRight? && !Red(c.up.left)
    modifies h
    ensures h.Valid() && |h.cells| == old(|h.cells|)
    ensures h.tree == Plug(c', t') && Turned(c, t, c', t') && t'.id == elm'
  {
    ghost var p, g, up, u := Grow(c, t), c.up.id, c.up.up, c.up.left;
    h.Look(c, t);
    h.Look(c.up, p);
    h.Look(up, Grow(c.up, p));
    var parent := h.cells[Addr(elm)].parent;
    var gparent := h.cells[Addr(parent)].parent;
    elm' := elm;
    if h.cells[Addr(parent)].left == elm {
      h.RotateRight(parent, c.up, p);
      elm', parent := parent, elm;
    }
    p := OuterRight(c, t);
    h.SetRed(parent, false, c.up, p);
    p := p.(red := false);
    h.SetRed(gparent, true, up, Node(u, g, c.up.red, p));
    h.RotateLeft(gparent, up, Node(u, g, true, p));
    RotatedOutRightKeeps(c, t);
    c', t' := InRight(up, Node(u, g, true, p.left), p.id, false), p.right;
  }

  // One turn of the insertion loop.
  method InsertTurn(h: TreeStore, elm: Ptr, ghost c: Ctx, ghost t: Tree)
    returns (elm': Ptr, ghost c': Ctx, ghost t': Tree)
    requires h.Valid() && h.tree == Plug(c, t) && Inserting(c, t) && t.id == elm
    requires !c.Top? && c.red
    modifies h
    ensures h.Valid() && |h.cells| == old(|h.cells|)
    ensures h.tree == Plug(c', t') && Turned(c, t, c', t') && t'.id == elm'
  {
    ghost var p, up := Grow(c, t), c.up.up;
    ghost var g := Grow(c.up, p);
    h.Look(c, t);
    h.Look(c.up, p);
    h.Look(up, g);
    var parent := h.cells[Addr(elm)].parent;
    var gparent := h.cells[Addr(parent)].parent;
    if parent == h.cells[Addr(gparent)].left {
      var tmp := h.cells[Addr(gparent)].right;
      h.Look(InRight(up, g.left, g.id, g.red), g.right);
      if tmp != NULL && h.cells[Addr(tmp)].red {
        elm', c', t' := RecolourLeft(h, elm, c, t);
      } else {
        elm', c', t' := RotateOutLeft(h, elm, c, t);
      }
    } else {
      var tmp := h.cells[Addr(gparent)].left;
      h.Look(InLeft(up, g.id, g.red, g.right), g.left);
      if tmp != NULL && h.cells[Addr(tmp)].red {
        elm', c', t' := RecolourRight(h, elm, c, t);
      } else {
        elm', c', t' := RotateOutRight(h, elm, c, t);
      }
    }
  }

  method InsertColor(h: TreeStore, elm0: Ptr, ghost c0: Ctx, ghost t0: Tree)
    requires h.Valid() && h.tree == Plug(c0, t0) && Inserting(c0, t0) && t0.id == elm0
    modifies h
    ensures h.Valid() && |h.cells| == old(|h.cells|)
    ensures IsRedBlack(h.tree) && InOrder(h.tree) == old(InOrder(h.tree))
  {
    var elm := elm0;
    ghost var c, t := c0, t0;
    h.LookUp(c, t);
    while h.cells[Addr(elm)].parent != NULL && h.cells[Addr(h.cells[Addr(elm)].parent)].red
      invariant h.Valid() && |h.cells| == old(|h.cells|) && h.tree == Plug(c, t)
      invariant Inserting(c, t) && t.id == elm && h.SeesUp(c, elm)
      invariant InOrder(h.tree) == old(InOrder(h.tree))
      decreases Climb(c)
    {
      elm, c, t := InsertTurn(h, elm, c, t);
      h.LookUp(c, t);
    }
    ghost var T := h.tree;
    PlugNode(c, t);
    BlackRoot(c, t);
    h.Look(Top, T);
    h.SetRed(h.root, false, Top, T);
  }

  // Once the parent is black, blackening the root is all that is missing.
  lemma {:induction false} BlackRoot(c: Ctx, t: Tree)
    requires Inserting(c, t) && (c.Top? || !c.red)
    ensures Plug(c, t).Node? && IsRedBlack(Plug(c, t).(red := false))
  {
    PlugNode(c, t);
    if c.Top? {
    } else {
      Unplug(c, t);
    }
  }

  // A search for k has narrowed the tree down to the hole of c.
  ghost predicate Narrowed(key: Ptr -> int, k: int, c: Ctx) {
    AllBelow(key, Before(c), k) && AllAbove(key, After(c), k)
  }

  lemma {:induction false} NarrowLeft(key: Ptr -> int, k: int, c: Ctx, t: Tree)
    requires Sorted(key, InOrder(Plug(c, t))) && Narrowed(key, k, c) && t.Node? && k < key(t.id)
    ensures Narrowed(key, k, InLeft(c, t.id, t.red, t.right))
  {
    InOrderPlug(c, t);
    SortedParts(key, InOrder(t.left), t.id, InOrder(t.right), InOrder(Plug(c, t)), Before(c), After(c));
  }

  lemma {:induction false} NarrowRight(key: Ptr -> int, k: int, c: Ctx, t: Tree)
    requires Sorted(key, InOrder(Plug(c, t))) && Narrowed(key, k, c) && t.Node? && key(t.id) < k
    ensures Narrowed(key, k, InRight(c, t.left, t.id, t.red))
  {
    InOrderPlug(c, t);
    SortedParts(key, InOrder(t.left), t.id, InOrder(t.right), InOrder(Plug(c, t)), Before(c), After(c));
  }

  // Hangs a new red leaf below `parent`, on the side `comp` says.
  method Attach(h: TreeStore, elm: Ptr, parent: Ptr, comp: int, ghost c: Ctx)
    requires h.Valid() && h.tree == Plug(c, Leaf) && 0 < elm < |h.cells| && elm !in Ids(h.tree)
    requires parent == Hole(c) && (c.InLeft? ==> comp < 0) && (c.InRight? ==> comp > 0)
    modifies h
    ensures h.Valid() && |h.cells| == old(|h.cells|)
    ensures h.tree == Plug(c, Node(Leaf, elm, true, Leaf))
  {
    h.Look(c, Leaf);
    IdsPlug(c, Leaf);
    if !c.Top? {
      h.LookHole(c, Leaf);
    }
    h.cells := h.cells[Addr(elm) := Cell(NULL, NULL, parent, true)];
    if parent != NULL {
      if comp < 0 {
        h.SetLeft(parent, elm);
      } else {
        h.SetRight(parent, elm);
      }
    } else {
      h.root := elm;
    }
    h.tree := Plug(c, Node(Leaf, elm, true, Leaf));
    AttachLeaf(old(h.cells), h.cells, old(h.root), h.root, c, elm, true);
  }

  // The descent of an insertion: finds a node with the key, or the place for one.
  method Descend(h: TreeStore, k: int, key: Ptr -> int)
    returns (found: Ptr, parent: Ptr, comp: int, ghost c: Ctx)
    requires h.Valid() && Sorted(key, InOrder(h.tree))
    ensures found != NULL ==> found in InOrder(h.tree) && key(found) == k
    ensures found == NULL ==> h.tree == Plug(c, Leaf) && parent == Hole(c) && Narrowed(key, k, c)
    ensures found == NULL ==> (c.InLeft? ==> comp < 0) && (c.InRight? ==> comp > 0)
  {
    found := NULL;
    var tmp := h.root;
    parent, comp := NULL, 0;
    c := Top;
    ghost var t := h.tree;
    h.Look(c, t);
    while tmp != NULL
      invariant h.tree == Plug(c, t) && tmp == Root(t) && parent == Hole(c)
      invariant t.Node? ==> t.id != NULL
      invariant (c.InLeft? ==> comp < 0) && (c.InRight? ==> comp > 0)
      invariant Narrowed(key, k, c)
      decreases t
    {
      h.Look(c, t);
      InOrderPlug(c, t);
      parent := tmp;
      comp := k - key(parent);
      if comp < 0 {
        tmp := h.cells[Addr(tmp)].left;
        NarrowLeft(key, k, c, t);
        c, t := InLeft(c, t.id, t.red, t.right), t.left;
      } else if comp > 0 {
        tmp := h.cells[Addr(tmp)].right;
        NarrowRight(key, k, c, t);
        c, t := InRight(c, t.left, t.id, t.red), t.right;
      } else {
        found := tmp;
        return;
      }
      h.Look(c, t);
    }
  }

  method Insert(h: TreeStore, elm: Ptr, key: Ptr -> int) returns (found: Ptr)
    requires h.Valid() && IsRedBlack(h.tree) && Sorted(key, InOrder(h.tree))
    requires 0 < elm < |h.cells| && elm !in Ids(h.tree)
    modifies h
    ensures h.Valid() && IsRedBlack(h.tree) && Sorted(key, InOrder(h.tree)) && |h.cells| == old(|h.cells|)
    ensures found != NULL ==> found in old(InOrder(h.tree)) && key(found) == key(elm)
    ensures found != NULL ==> h.cells == old(h.cells) && h.tree == old(h.tree)
    ensures found == NULL ==> IsInsertion(old(InOrder(h.tree)), InOrder(h.tree), elm)
  {
    var parent, comp;
    ghost var c;
    found, parent, comp, c := Descend(h, key(elm), key);
    if found != NULL {
      return;
    }
    InsertLeaf(key, c, elm);
    Attach(h, elm, parent, comp, c);
    InsertColor(h, elm, c, Node(Leaf, elm, true, Leaf));
  }

  // Putting a red leaf where the search for its key ended.
  lemma {:induction false} InsertLeaf(key: Ptr -> int, c: Ctx, elm: Ptr)
    requires IsRedBlack(Plug(c, Leaf)) && Sorted(key, InOrder(Plug(c, Leaf))) && Narrowed(key, key(elm), c)
    ensures var t := Node(Leaf, elm, true, Leaf);
      && Inserting(c, t) && Sorted(key, InOrder(Plug(c, t)))
      && IsInsertion(InOrder(Plug(c, Leaf)), InOrder(Plug(c, t)), elm)
  {
    var t := Node(Leaf, elm, true, Leaf);
    Unplug(c, Leaf);
    InOrderPlug(c, Leaf);
    InOrderPlug(c, t);
    assert InOrder(Plug(c, Leaf)) == Before(c) + After(c);
    assert InOrder(t) == [elm];
    SortedInsert(key, Before(c), elm, After(c));
  }

  lemma {:induction false} SortedInsert(key: Ptr -> int, a: seq<Ptr>, x: Ptr, b: seq<Ptr>)
    requires Sorted(key, a + b) && AllBelow(key, a, key(x)) && AllAbove(key, b, key(x))
    ensures Sorted(key, a + [x] + b) && IsInsertion(a + b, a + [x] + b, x)
  {
    assert (a + b)[..|a|] == a && (a + b)[|a|..] == b;
    forall i, j | 0 <= i < j < |a| + 1 + |b| ensures key((a + [x] + b)[i]) < key((a + [x] + b)[j]) {
      var i', j' := if i <= |a| then i else i - 1, if j <= |a| then j else j - 1;
      if i != |a| && j != |a| {
        assert key((a + b)[i']) < key((a + b)[j']);
      }
    }
  }

  function Blackened(t: Tree): Tree {
    if t.Leaf? then t else t.(red := false)
  }

  // What holds at every turn of the removal loop: every path through the subtree t
  // is one black node short, and a red root of t may have red children.
  ghost predicate Removing(c: Ctx, t: Tree) {
    Balanced(Blackened(t)) && CtxBalanced(c, BlackHeight(t) + 1)
  }

  // How far the removal loop still has to climb.
  ghost function Shortage(c: Ctx, t: Tree): nat {
    if Red(t) then 0 else Depth(c)
  }

  // A node short of one black has a sibling.
  lemma {:induction false} SiblingExists(c: Ctx, t: Tree)
    requires Removing(c, t) && !c.Top?
    ensures c.InLeft? ==> c.right.Node?
    ensures c.InRight? ==> c.left.Node?
  {}

  lemma {:induction false} BlackenedBalanced(t: Tree)
    requires Balanced(t)
    ensures Balanced(Blackened(t)) && !Red(Blackened(t))
    ensures BlackHeight(Blackened(t)) == BlackHeight(t) + if Red(t) then 1 else 0
  {}

  // One turn of the removal loop with elm a left child.
  //
  // A red sibling first: recolouring and a rotation give elm a black sibling.
  function RedSiblingLeft(c: Ctx): Ctx
    requires c.InLeft? && c.right.Node?
  {
    var s := c.right;
    InLeft(InLeft(c.up, s.id, false, s.right), c.id, true, s.left)
  }

  lemma {:induction false} RedSiblingLeftKeeps(c: Ctx, t: Tree)
    requires Removing(c, t) && !Red(t) && c.InLeft? && Red(c.right)
    ensures var c' := RedSiblingLeft(c);
      && Removing(c', t) && c'.right.Node? && !Red(c'.right)
      && InOrder(Plug(c', t)) == InOrder(Plug(c, t))
  {
    var p := Grow(c, t);
    RotatedLeftInOrder(p);
    InOrderPlug(c.up, p);
    InOrderPlug(c.up, Grow(RedSiblingLeft(c).up, Grow(RedSiblingLeft(c), t)));
  }

  method TurnRedSiblingLeft(h: TreeStore, parent: Ptr, tmp: Ptr, ghost c: Ctx, ghost t: Tree)
    returns (ghost c': Ctx)
    requires h.Valid() && h.tree == Plug(c, t) && Removing(c, t) && !Red(t)
    requires c.InLeft? && c.id == parent && Red(c.right) && c.right.id == tmp
    modifies h
    ensures h.Valid() && |h.cells| == old(|h.cells|)
    ensures h.tree == Plug(c', t) && Removing(c', t) && InOrder(h.tree) == old(InOrder(h.tree))
    ensures c'.InLeft? && c'.id == parent && c'.red && c'.right.Node? && !Red(c'.right)
  {
    RedSiblingLeftKeeps(c, t);
    ghost var s, up := c.right, c.up;
    h.SetRed(tmp, false, InRight(up, t, parent, c.red), s);
    s := s.(red := false);
    h.SetRed(parent, true, up, Node(t, parent, c.red, s));
    h.RotateLeft(parent, up, Node(t, parent, true, s));
    c' := RedSiblingLeft(c);
  }

  // A black sibling with black children gives up its colour; the shortage moves up.
  lemma {:induction false} PassedUpLeftKeeps(c: Ctx, t: Tree)
    requires Removing(c, t) && !Red(t) && c.InLeft? && c.right.Node? && !Red(c.right)
    requires !Red(c.right.left) && !Red(c.right.right)
    ensures var t' := Node(t, c.id, c.red, c.right.(red := true));
      Removing(c.up, t') && InOrder(Plug(c.up, t')) == InOrder(Plug(c, t))
  {
    InOrderPlug(c.up, Node(t, c.id, c.red, c.right.(red := true)));
    InOrderPlug(c.up, Grow(c, t));
  }

  // A sibling whose only red child is on elm's side is rotated so that it is not.
  function NearRedLeft(s: Tree): Tree
    requires s.Node? && s.left.Node?
  {
    var n := s.left;
    Node(n.left, n.id, false, Node(n.right, s.id, true, s.right))
  }

  lemma {:induction false} NearRedLeftKeeps(c: Ctx, t: Tree)
    requires Removing(c, t) && !Red(t) && c.InLeft? && c.right.Node? && !Red(c.right)
    requires Red(c.right.left) && !Red(c.right.right)
    ensures var c' := c.(right := NearRedLeft(c.right));
      Removing(c', t) && InOrder(Plug(c', t)) == InOrder(Plug(c, t))
  {
    var s, c' := c.right, c.(right := NearRedLeft(c.right));
    assert Balanced(s) && Balanced(s.left) && Balanced(s.right);
    assert Balanced(s.left.left) && Balanced(s.left.right);
    assert Balanced(Node(s.left.right, s.id, true, s.right));
    RotatedRightInOrder(s);
    assert InOrder(c'.right) == InOrder(s);
    assert Balanced(c'.right) && BlackHeight(c'.right) == BlackHeight(s);
    assert CtxBalanced(c', BlackHeight(t) + 1);
    InOrderPlug(c, t);
    InOrderPlug(c', t);
  }

  method TurnNearRedLeft(h: TreeStore, tmp: Ptr, ghost c: Ctx, ghost t: Tree)
    returns (ghost c': Ctx)
    requires h.Valid() && h.tree == Plug(c, t) && Removing(c, t) && !Red(t)
    requires c.InLeft? && c.right.Node? && !Red(c.right) && c.right.id == tmp
    requires Red(c.right.left) && !Red(c.right.right)
    modifies h
    ensures h.Valid() && |h.cells| == old(|h.cells|)
    ensures h.tree == Plug(c', t) && Removing(c', t) && InOrder(h.tree) == old(InOrder(h.tree))
    ensures c' == c.(right := NearRedLeft(c.right))
  {
    NearRedLeftKeeps(c, t);
    ghost var s, sc := c.right, InRight(c.up, t, c.id, c.red);
    ghost var n := s.left;
    h.Look(sc, s);
    h.Look(InLeft(sc, s.id, s.red, s.right), n);
    var oleft := h.cells[Addr(tmp)].left;
    if oleft != NULL {
      h.SetRed(oleft, false, InLeft(sc, s.id, s.red, s.right), n);
    }
    n := n.(red := false);
    h.SetRed(tmp, true, sc, Node(n, s.id, s.red, s.right));
    h.RotateRight(tmp, sc, Node(n, s.id, true, s.right));
    c' := c.(right := NearRedLeft(c.right));
  }

  // A sibling with a red child on the far side makes up the shortage.
  function FarRedLeft(c: Ctx, t: Tree): Tree
    requires c.InLeft? && c.right.Node? && c.right.right.Node?
  {
    var s := c.right;
    Node(Node(t, c.id, false, s.left), s.id, c.red, s.right.(red := false))
  }

  lemma {:induction false} FarRedLeftKeeps(c: Ctx, t: Tree)
    requires Removing(c, t) && !Red(t) && c.InLeft? && c.right.Node? && !Red(c.right)
    requires Red(c.right.right)
    ensures var t' := FarRedLeft(c, t);
      IsRedBlack(Plug(c.up, t')) && InOrder(Plug(c.up, t')) == InOrder(Plug(c, t))
  {
    BlackenedBalanced(c.right.right);
    assert Balanced(c.right) && BlackHeight(c.right) == BlackHeight(t) + 1;
    assert Balanced(c.right.left) && Balanced(Node(t, c.id, false, c.right.left));
    assert Balanced(FarRedLeft(c, t));
    Unplug(c.up, FarRedLeft(c, t));
    RotatedLeftInOrder(Grow(c, t));
    assert InOrder(FarRedLeft(c, t)) == InOrder(Grow(c, t));
    InOrderPlug(c.up, FarRedLeft(c, t));
    InOrderPlug(c.up, Grow(c, t));
  }

  method TurnFarRedLeft(h: TreeStore, parent: Ptr, tmp: Ptr, ghost c: Ctx, ghost t: Tree)
    requires h.Valid() && h.tree == Plug(c, t) && Removing(c, t) && !Red(t)
    requires c.InLeft? && c.id == parent && c.right.Node? && !Red(c.right) && c.right.id == tmp
    requires Red(c.right.right)
    modifies h
    ensures h.Valid() && |h.cells| == old(|h.cells|)
    ensures IsRedBlack(h.tree) && InOrder(h.tree) == old(InOrder(h.tree))
  {
    FarRedLeftKeeps(c, t);
    ghost var s, sc := c.right, InRight(c.up, t, parent, c.red);
    h.Look(c.up, Grow(c, t));
    h.Look(sc, s);
    h.SetRed(tmp, h.cells[Addr(parent)].red, sc, s);
    s := s.(red := c.red);
    h.SetRed(parent, false, c.up, Node(t, parent, c.red, s));
    sc := InRight(c.up, t, parent, false);
    h.Look(sc, s);
    h.LookKids(sc, s);
    if h.cells[Addr(tmp)].right != NULL {
      h.SetRed(h.cells[Addr(tmp)].right, false, InRight(sc, s.left, s.id, s.red), s.right);
    }
    s := s.(right := s.right.(red := false));
    h.RotateLeft(parent, c.up, Node(t, parent, false, s));
  }

  method TurnBlackSiblingLeft(h: TreeStore, parent: Ptr, elm: Ptr, ghost c: Ctx, ghost t: Tree)
    returns (parent': Ptr, elm': Ptr, ghost c': Ctx, ghost t': Tree)
    requires h.Valid() && h.tree == Plug(c, t) && Removing(c, t) && !Red(t)
    requires c.InLeft? && c.id == parent && c.right.Node? && !Red(c.right) && elm == Root(t)
    modifies h
    ensures h.Valid() && |h.cells| == old(|h.cells|)
    ensures h.tree == Plug(c', t') && Removing(c', t') && Shortage(c', t') < (if c.red then 1 else Depth(c))
    ensures elm' == Root(t') && parent' == Hole(c') && InOrder(h.tree) == old(InOrder(h.tree))
  {
    c' := c;
    h.LookHole(c, t);
    var tmp := h.cells[Addr(parent)].right;
    ghost var s, sc := c.right, InRight(c.up, t, parent, c.red);
    h.Look(sc, s);
    h.LookKids(sc, s);
    if (h.cells[Addr(tmp)].left == NULL || !h.cells[Addr(h.cells[Addr(tmp)].left)].red) &&
       (h.cells[Addr(tmp)].right == NULL || !h.cells[Addr(h.cells[Addr(tmp)].right)].red) {
      PassedUpLeftKeeps(c, t);
      h.SetRed(tmp, true, sc, s);
      t', c' := Node(t, parent, c.red, s.(red := true)), c.up;
      h.Look(c', t');
      elm' := parent;
      parent' := h.cells[Addr(elm')].parent;
    } else {
      if h.cells[Addr(tmp)].right == NULL || !h.cells[Addr(h.cells[Addr(tmp)].right)].red {
        c' := TurnNearRedLeft(h, tmp, c, t);
        h.LookHole(c', t);
        tmp := h.cells[Addr(parent)].right;
      }
      TurnFarRedLeft(h, parent, tmp, c', t);
      c', t' := Top, h.tree;
      h.Look(Top, h.tree);
      elm', parent' := h.root, NULL;
    }
  }

  method RemoveTurnLeft(h: TreeStore, parent: Ptr, elm: Ptr, ghost c: Ctx, ghost t: Tree)
    returns (parent': Ptr, elm': Ptr, ghost c': Ctx, ghost t': Tree)
    requires h.Valid() && h.tree == Plug(c, t) && Removing(c, t) && !Red(t)
    requires c.InLeft? && c.id == parent && elm == Root(t)
    modifies h
    ensures h.Valid() && |h.cells| == old(|h.cells|)
    ensures h.tree == Plug(c', t') && Removing(c', t') && Shortage(c', t') < Shortage(c, t)
    ensures elm' == Root(t') && parent' == Hole(c') && InOrder(h.tree) == old(InOrder(h.tree))
  {
    ghost var c1 := c;
    SiblingExists(c, t);
    h.LookHole(c, t);
    var tmp := h.cells[Addr(parent)].right;
    h.Look(InRight(c.up, t, parent, c.red), c.right);
    if h.cells[Addr(tmp)].red {
      c1 := TurnRedSiblingLeft(h, parent, tmp, c, t);
    }
    parent', elm', c', t' := TurnBlackSiblingLeft(h, parent, elm, c1, t);
  }

  // One turn of the removal loop with elm a right child.
  //
  // A red sibling first: recolouring and a rotation give elm a black sibling.
  function RedSiblingRight(c: Ctx): Ctx
    requires c.InRight? && c.left.Node?
  {
    var s := c.left;
    InRight(InRight(c.up, s.left, s.id, false), s.right, c.id, true)
  }

  lemma {:induction false} RedSiblingRightKeeps(c: Ctx, t: Tree)
    requires Removing(c, t) && !Red(t) && c.InRight? && Red(c.left)
    ensures var c' := RedSiblingRight(c);
      && Removing(c', t) && c'.left.Node? && !Red(c'.left)
      && InOrder(Plug(c', t)) == InOrder(Plug(c, t))
  {
    var p := Grow(c, t);
    RotatedRightInOrder(p);
    InOrderPlug(c.up, p);
    InOrderPlug(c.up, Grow(RedSiblingRight(c).up, Grow(RedSiblingRight(c), t)));
  }

  method TurnRedSiblingRight(h: TreeStore, parent: Ptr, tmp: Ptr, ghost c: Ctx, ghost t: Tree)
    returns (ghost c': Ctx)
    requires h.Valid() && h.tree == Plug(c, t) && Removing(c, t) && !Red(t)
    requires c.InRight? && c.id == parent && Red(c.left) && c.left.id == tmp
    modifies h
    ensures h.Valid() && |h.cells| == old(|h.cells|)
    ensures h.tree == Plug(c', t) && Removing(c', t) && InOrder(h.tree) == old(InOrder(h.tree))
    ensures c'.InRight? && c'.id == parent && c'.red && c'.left.Node? && !Red(c'.left)
  {
    RedSiblingRightKeeps(c, t);
    ghost var s, up := c.left, c.up;
    h.SetRed(tmp, false, InLeft(up, parent, c.red, t), s);
    s := s.(red := false);
    h.SetRed(parent, true, up, Node(s, parent, c.red, t));
    h.RotateRight(parent, up, Node(s, parent, true, t));
    c' := RedSiblingRight(c);
  }

  // A black sibling with black children gives up its colour; the shortage moves up.
  lemma {:induction false} PassedUpRightKeeps(c: Ctx, t: Tree)
    requires Removing(c, t) && !Red(t) && c.InRight? && c.left.Node? && !Red(c.left)
    requires !Red(c.left.left) && !Red(c.left.right)
    ensures var t' := Node(c.left.(red := true), c.id, c.red, t);
      Removing(c.up, t') && InOrder(Plug(c.up, t')) == InOrder(Plug(c, t))
  {
    InOrderPlug(c.up, Node(c.left.(red := true), c.id, c.red, t));
    InOrderPlug(c.up, Grow(c, t));
  }

  // A sibling whose only red child is on elm's side is rotated so that it is not.
  function NearRedRight(s: Tree): Tree
    requires s.Node? && s.right.Node?
  {
    var n := s.right;
    Node(Node(s.left, s.id, true, n.left), n.id, false, n.right)
  }

  lemma {:induction false} NearRedRightKeeps(c: Ctx, t: Tree)
    requires Removing(c, t) && !Red(t) && c.InRight? && c.left.Node? && !Red(c.left)
    requires Red(c.left.right) && !Red(c.left.left)
    ensures var c' := c.(left := NearRedRight(c.left));
      Removing(c', t) && InOrder(Plug(c', t)) == InOrder(Plug(c, t))
  {
    var s, c' := c.left, c.(left := NearRedRight(c.left));
    assert Balanced(s) && Balanced(s.left) && Balanced(s.right);
    assert Balanced(s.right.left) && Balanced(s.right.right);
    assert Balanced(Node(s.left, s.id, true, s.right.left));
    RotatedLeftInOrder(s);
    assert InOrder(c'.left) == InOrder(s);
    assert Balanced(c'.left) && BlackHeight(c'.left) == BlackHeight(s);
    assert CtxBalanced(c', BlackHeight(t) + 1);
    InOrderPlug(c, t);
    InOrderPlug(c', t);
  }

  method TurnNearRedRight(h: TreeStore, tmp: Ptr, ghost c: Ctx, ghost t: Tree)
    returns (ghost c': Ctx)
    requires h.Valid() && h.tree == Plug(c, t) && Removing(c, t) && !Red(t)
    requires c.InRight? && c.left.Node? && !Red(c.left) && c.left.id == tmp
    requires Red(c.left.right) && !Red(c.left.left)
    modifies h
    ensures h.Valid() && |h.cells| == old(|h.cells|)
    ensures h.tree == Plug(c', t) && Removing(c', t) && InOrder(h.tree) == old(InOrder(h.tree))
    ensures c' == c.(left := NearRedRight(c.left))
  {
    NearRedRightKeeps(c, t);
    ghost var s, sc := c.left, InLeft(c.up, c.id, c.red, t);
    ghost var n := s.right;
    h.Look(sc, s);
    h.Look(InRight(sc, s.left, s.id, s.red), n);
    var oright := h.cells[Addr(tmp)].right;
    if oright != NULL {
      h.SetRed(oright, false, InRight(sc, s.left, s.id, s.red), n);
    }
    n := n.(red := false);
    h.SetRed(tmp, true, sc, Node(s.left, s.id, s.red, n));
    h.RotateLeft(tmp, sc, Node(s.left, s.id, true, n));
    c' := c.(left := NearRedRight(c.left));
  }

  // A sibling with a red child on the far side makes up the shortage.
  function FarRedRight(c: Ctx, t: Tree): Tree
    requires c.InRight? && c.left.Node? && c.left.left.Node?
  {
    var s := c.left;
    Node(s.left.(red := false), s.id, c.red, Node(s.right, c.id, false, t))
  }

  lemma {:induction false} FarRedRightKeeps(c: Ctx, t: Tree)
    requires Removing(c, t) && !Red(t) && c.InRight? && c.left.Node? && !Red(c.left)
    requires Red(c.left.left)
    ensures var t' := FarRedRight(c, t);
      IsRedBlack(Plug(c.up, t')) && InOrder(Plug(c.up, t')) == InOrder(Plug(c, t))
  {
    BlackenedBalanced(c.left.left);
    assert Balanced(c.left) && BlackHeight(c.left) == BlackHeight(t) + 1;
    assert Balanced(c.left.right) && Balanced(Node(c.left.right, c.id, false, t));
    assert Balanced(FarRedRight(c, t));
    Unplug(c.up, FarRedRight(c, t));
    RotatedRightInOrder(Grow(c, t));
    assert InOrder(FarRedRight(c, t)) == InOrder(Grow(c, t));
    InOrderPlug(c.up, FarRedRight(c, t));
    InOrderPlug(c.up, Grow(c, t));
  }

  method TurnFarRedRight(h: TreeStore, parent: Ptr, tmp: Ptr, ghost c: Ctx, ghost t: Tree)
    requires h.Valid() && h.tree == Plug(c, t) && Removing(c, t) && !Red(t)
    requires c.InRight? && c.id == parent && c.left.Node? && !Red(c.left) && c.left.id == tmp
    requires Red(c.left.left)
    modifies h
    ensures h.Valid() && |h.cells| == old(|h.cells|)
    ensures IsRedBlack(h.tree) && InOrder(h.tree) == old(InOrder(h.tree))
  {
    FarRedRightKeeps(c, t);
    ghost var s, sc := c.left, InLeft(c.up, parent, c.red, t);
    h.Look(c.up, Grow(c, t));
    h.Look(sc, s);
    h.SetRed(tmp, h.cells[Addr(parent)].red, sc, s);
    s := s.(red := c.red);
    h.SetRed(parent, false, c.up, Node(s, parent, c.red, t));
    sc := InLeft(c.up, parent, false, t);
    h.Look(sc, s);
    h.LookKids(sc, s);
    if h.cells[Addr(tmp)].left != NULL {
      h.SetRed(h.cells[Addr(tmp)].left, false, InLeft(sc, s.id, s.red, s.right), s.left);
    }
    s := s.(left := s.left.(red := false));
    h.RotateRight(parent, c.up, Node(s, parent, false, t));
  }

  method TurnBlackSiblingRight(h: TreeStore, parent: Ptr, elm: Ptr, ghost c: Ctx, ghost t: Tree)
    returns (parent': Ptr, elm': Ptr, ghost c': Ctx, ghost t': Tree)
    requires h.Valid() && h.tree == Plug(c, t) && Removing(c, t) && !Red(t)
    requires c.InRight? && c.id == parent && c.left.Node? && !Red(c.left) && elm == Root(t)
    modifies h
    ensures h.Valid() && |h.cells| == old(|h.cells|)
    ensures h.tree == Plug(c', t') && Removing(c', t') && Shortage(c', t') < (if c.red then 1 else Depth(c))
    ensures elm' == Root(t') && parent' == Hole(c') && InOrder(h.tree) == old(InOrder(h.tree))
  {
    c' := c;
    h.LookHole(c, t);
    var tmp := h.cells[Addr(parent)].left;
    ghost var s, sc := c.left, InLeft(c.up, parent, c.red, t);
    h.Look(sc, s);
    h.LookKids(sc, s);
    if (h.cells[Addr(tmp)].left == NULL || !h.cells[Addr(h.cells[Addr(tmp)].left)].red) &&
       (h.cells[Addr(tmp)].right == NULL || !h.cells[Addr(h.cells[Addr(tmp)].right)].red) {
      PassedUpRightKeeps(c, t);
      h.SetRed(tmp, true, sc, s);
      t', c' := Node(s.(red := true), parent, c.red, t), c.up;
      h.Look(c', t');
      elm' := parent;
      parent' := h.cells[Addr(elm')].parent;
    } else {
      if h.cells[Addr(tmp)].left == NULL || !h.cells[Addr(h.cells[Addr(tmp)].left)].red {
        c' := TurnNearRedRight(h, tmp, c, t);
        h.LookHole(c', t);
        tmp := h.cells[Addr(parent)].left;
      }
      TurnFarRedRight(h, parent, tmp, c', t);
      c', t' := Top, h.tree;
      h.Look(Top, h.tree);
      elm', parent' := h.root, NULL;
    }
  }

  method RemoveTurnRight(h: TreeStore, parent: Ptr, elm: Ptr, ghost c: Ctx, ghost t: Tree)
    returns (parent': Ptr, elm': Ptr, ghost c': Ctx, ghost t': Tree)
    requires h.Valid() && h.tree == Plug(c, t) && Removing(c, t) && !Red(t)
    requires c.InRight? && c.id == parent && elm == Root(t)
    modifies h
    ensures h.Valid() && |h.cells| == old(|h.cells|)
    ensures h.tree == Plug(c', t') && Removing(c', t') && Shortage(c', t') < Shortage(c, t)
    ensures elm' == Root(t') && parent' == Hole(c') && InOrder(h.tree) == old(InOrder(h.tree))
  {
    ghost var c1 := c;
    SiblingExists(c, t);
    h.LookHole(c, t);
    var tmp := h.cells[Addr(parent)].left;
    h.Look(InLeft(c.up, parent, c.red, t), c.left);
    if h.cells[Addr(tmp)].red {
      c1 := TurnRedSiblingRight(h, parent, tmp, c, t);
    }
    parent', elm', c', t' := TurnBlackSiblingRight(h, parent, elm, c1, t);
  }

  method RemoveColor(h: TreeStore, parent0: Ptr, elm0: Ptr, ghost c0: Ctx, ghost t0: Tree)
    requires h.Valid() && h.tree == Plug(c0, t0) && Removing(c0, t0)
    requires elm0 == Root(t0) && parent0 == Hole(c0)
    modifies h
    ensures h.Valid() && |h.cells| == old(|h.cells|)
    ensures IsRedBlack(h.tree) && InOrder(h.tree) == old(InOrder(h.tree))
  {
    var parent, elm := parent0, elm0;
    ghost var c, t := c0, t0;
    h.Look(c, t);
    while (elm == NULL || !h.cells[Addr(elm)].red) && elm != h.root
      invariant h.Valid() && |h.cells| == old(|h.cells|) && h.tree == Plug(c, t) && Removing(c, t)
      invariant elm == Root(t) && parent == Hole(c) && InOrder(h.tree) == old(InOrder(h.tree))
      invariant h.Sees(c, t)
      decreases Shortage(c, t)
    {
      SiblingExists(c, t);
      h.LookSide(c, t);
      if h.cells[Addr(parent)].left == elm {
        parent, elm, c, t := RemoveTurnLeft(h, parent, elm, c, t);
      } else {
        parent, elm, c, t := RemoveTurnRight(h, parent, elm, c, t);
      }
      h.Look(c, t);
    }
    ShortageEnds(c, t);
    if elm != NULL {
      h.SetRed(elm, false, c, t);
    }
  }

  // Blackening elm where the loop stops makes up the shortage.
  lemma {:induction false} ShortageEnds(c: Ctx, t: Tree)
    requires Removing(c, t) && (Red(t) || c.Top?)
    ensures IsRedBlack(Plug(c, Blackened(t))) && InOrder(Plug(c, Blackened(t))) == InOrder(Plug(c, t))
  {
    Unplug(c, Blackened(t));
    InOrderPlug(c, t);
    InOrderPlug(c, Blackened(t));
  }

  // The frames of d, which all go left, put below those of c.
  function Under(d: Ctx, c: Ctx): Ctx {
    match d
    case Top => c
    case InLeft(up, id, red, r) => InLeft(Under(up, c), id, red, r)
    case InRight(up, l, id, red) => InRight(Under(up, c), l, id, red)
  }

  ghost predicate LeftSpine(d: Ctx) {
    d.Top? || (d.InLeft? && LeftSpine(d.up))
  }

  lemma {:induction false} PlugUnder(d: Ctx, c: Ctx, t: Tree)
    ensures Plug(Under(d, c), t) == Plug(c, Plug(d, t))
    decreases d
  {
    if !d.Top? {
      PlugUnder(d.up, c, Grow(d, t));
    }
  }

  // Ids play no part in the colour rules.
  lemma {:induction false} RenamedBalanced(d: Ctx, c: Ctx, l: Tree, x: Ptr, y: Ptr, red: bool, h: nat)
    ensures var (a, b) := (Under(d, InRight(c, l, x, red)), Under(d, InRight(c, l, y, red)));
      (CtxBalanced(a, h) <==> CtxBalanced(b, h)) && (NeedsBlack(a) <==> NeedsBlack(b))
    decreases d
  {
    if !d.Top? {
      RenamedBalanced(d.up, c, l, x, y, red, h + if d.red then 0 else 1);
    }
  }

  // After cutting out a node with at most one child, the colours are one black
  // short, or right if the node was red.
  lemma {:induction false} CutOutColours(c: Ctx, t: Tree)
    requires IsRedBlack(Plug(c, t)) && t.Node? && (t.left.Leaf? || t.right.Leaf?)
    ensures t.red ==> IsRedBlack(Plug(c, Only(t)))
    ensures !t.red ==> Removing(c, Only(t))
  {
    Unplug(c, t);
    Unplug(c, Only(t));
    BlackenedBalanced(Only(t));
  }

  lemma {:induction false} CutOutOrder(c: Ctx, t: Tree)
    requires t.Node? && (t.left.Leaf? || t.right.Leaf?)
    ensures IsInsertion(InOrder(Plug(c, Only(t))), InOrder(Plug(c, t)), t.id)
  {
    InOrderPlug(c, t);
    InOrderPlug(c, Only(t));
    var a, b := Before(c) + InOrder(t.left), InOrder(t.right) + After(c);
    assert InOrder(Plug(c, t)) == a + [t.id] + b;
    assert InOrder(Plug(c, Only(t))) == a + b;
    Inserted(a, t.id, b);
  }

  lemma {:induction false} Inserted(a: seq<Ptr>, x: Ptr, b: seq<Ptr>)
    ensures IsInsertion(a + b, a + [x] + b, x)
  {
    assert (a + b)[..|a|] == a && (a + b)[|a|..] == b;
  }

  // Moving the successor s of o into o's place.
  lemma {:induction false} SuccessorColours(c: Ctx, l: Tree, o: Ptr, red: bool, d: Ctx, s: Tree)
    requires s.Node? && s.left.Leaf?
    requires IsRedBlack(Plug(Under(d, InRight(c, l, o, red)), s))
    ensures var cc := Under(d, InRight(c, l, s.id, red));
      (s.red ==> IsRedBlack(Plug(cc, s.right))) && (!s.red ==> Removing(cc, s.right))
  {
    CutOutColours(Under(d, InRight(c, l, o, red)), s);
    Unplug(Under(d, InRight(c, l, o, red)), s.right);
    Unplug(Under(d, InRight(c, l, s.id, red)), s.right);
    RenamedBalanced(d, c, l, o, s.id, red, BlackHeight(s.right));
    RenamedBalanced(d, c, l, o, s.id, red, BlackHeight(s.right) + 1);
  }

  lemma {:induction false} SpineOrder(d: Ctx, c: Ctx)
    requires LeftSpine(d)
    ensures Before(Under(d, c)) == Before(c) && After(Under(d, c)) == After(d) + After(c)
  {
    if !d.Top? {
      SpineOrder(d.up, c);
    }
  }

  lemma {:induction false} SuccessorOrder(c: Ctx, l: Tree, o: Ptr, red: bool, d: Ctx, s: Tree)
    requires s.Node? && s.left.Leaf? && LeftSpine(d)
    ensures IsInsertion(InOrder(Plug(Under(d, InRight(c, l, s.id, red)), s.right)),
                        InOrder(Plug(Under(d, InRight(c, l, o, red)), s)), o)
  {
    SpineOrder(d, InRight(c, l, o, red));
    SpineOrder(d, InRight(c, l, s.id, red));
    InOrderPlug(Under(d, InRight(c, l, o, red)), s);
    InOrderPlug(Under(d, InRight(c, l, s.id, red)), s.right);
    SuccessorShape(Before(c) + InOrder(l), o, s.id, InOrder(s.right), After(d) + After(c));
  }

  lemma {:induction false} SuccessorShape(a: seq<Ptr>, o: Ptr, m: Ptr, r: seq<Ptr>, z: seq<Ptr>)
    ensures IsInsertion(a + [m] + r + z, a + [o] + ([] + [m] + r) + z, o)
  {
    var b := [m] + r + z;
    assert a + [m] + r + z == a + b && a + [o] + ([] + [m] + r) + z == a + [o] + b;
    Inserted(a, o, b);
  }

  lemma {:induction false} CutOutAbsent(c: Ctx, t: Tree, c': Ctx, t': Tree)
    requires Ids(t) !! CtxIds(c) && Distinct(t) && t.Node? && (t.left.Leaf? || t.right.Leaf?)
    requires Plug(c', t') == Plug(c, Only(t))
    ensures t.id !in Ids(t') + CtxIds(c')
  {
    IdsPlug(c, Only(t));
    IdsPlug(c', t');
    assert t.id in Ids(t) && t.id !in CtxIds(c) && t.id !in Ids(Only(t));
    assert Ids(t') + CtxIds(c') == Ids(Only(t)) + CtxIds(c);
  }

  lemma {:induction false} UnderIds(d: Ctx, c: Ctx)
    ensures CtxIds(c) <= CtxIds(Under(d, c))
  {
    if !d.Top? {
      UnderIds(d.up, c);
    }
  }

  // The node above the hole after the successor m took the place of o.
  lemma {:induction false} HoleMoved(d: Ctx, c: Ctx, l: Tree, o: Ptr, m: Ptr, red: bool)
    requires CtxDistinct(Under(d, InRight(c, l, o, red)))
    ensures Hole(Under(d, InRight(c, l, m, red))) ==
      if Hole(Under(d, InRight(c, l, o, red))) == o then m else Hole(Under(d, InRight(c, l, o, red)))
  {
    if !d.Top? {
      UnderIds(d.up, InRight(c, l, o, red));
    }
  }

  // The leftmost node below o's right child, and the frames on the way there.
  method Successor(h: TreeStore, old_: Ptr, ghost c: Ctx, ghost t: Tree)
    returns (elm: Ptr, ghost d: Ctx, ghost s: Tree)
    requires h.Valid() && h.tree == Plug(c, t) && t.Node? && t.right.Node? && t.id == old_
    ensures s.Node? && s.left.Leaf? && s.id == elm && LeftSpine(d)
    ensures Plug(d, s) == t.right
    ensures h.tree == Plug(Under(d, InRight(c, t.left, t.id, t.red)), s)
  {
    ghost var base := InRight(c, t.left, t.id, t.red);
    h.Look(c, t);
    elm, d, s := h.cells[Addr(old_)].right, Top, t.right;
    h.Look(base, s);
    var left := h.cells[Addr(elm)].left;
    while left != NULL
      invariant h.tree == Plug(Under(d, base), s) && Plug(d, s) == t.right && LeftSpine(d)
      invariant s.Node? && s.id == elm && left == Root(s.left) && (left == NULL <==> s.left.Leaf?)
      decreases s
    {
      elm := left;
      d, s := InLeft(d, s.id, s.red, s.right), s.left;
      h.Look(Under(d, base), s);
      left := h.cells[Addr(elm)].left;
    }
  }

  method Remove(h: TreeStore, elm: Ptr)
    requires h.Valid() && IsRedBlack(h.tree) && elm in Ids(h.tree)
    modifies h
    ensures h.Valid() && IsRedBlack(h.tree) && |h.cells| == old(|h.cells|)
    ensures IsInsertion(InOrder(h.tree), old(InOrder(h.tree)), elm)
  {
    ghost var c, t := Locate(Top, h.tree, elm);
    h.Look(c, t);
    if h.cells[Addr(elm)].left != NULL && h.cells[Addr(elm)].right != NULL {
      RemoveInner(h, elm, c, t);
    } else {
      var child := if h.cells[Addr(elm)].left == NULL then h.cells[Addr(elm)].right else h.cells[Addr(elm)].left;
      var parent, red := h.cells[Addr(elm)].parent, h.cells[Addr(elm)].red;
      CutOutColours(c, t);
      CutOutOrder(c, t);
      h.CutOutNode(elm, child, c, t);
      if !red {
        RemoveColor(h, parent, child, c, Only(t));
      }
    }
  }

  // Removal of a node with two children: its successor takes its place.
  method RemoveInner(h: TreeStore, old_: Ptr, ghost c: Ctx, ghost t: Tree)
    requires h.Valid() && IsRedBlack(h.tree) && h.tree == Plug(c, t)
    requires t.Node? && t.left.Node? && t.right.Node? && t.id == old_
    modifies h
    ensures h.Valid() && IsRedBlack(h.tree) && |h.cells| == old(|h.cells|)
    ensures IsInsertion(InOrder(h.tree), old(InOrder(h.tree)), old_)
  {
    var elm;
    ghost var d, s;
    elm, d, s := Successor(h, old_, c, t);
    ghost var base, moved := InRight(c, t.left, old_, t.red), InRight(c, t.left, elm, t.red);
    ghost var cc := Under(d, base);
    SuccessorColours(c, t.left, old_, t.red, d, s);
    SuccessorOrder(c, t.left, old_, t.red, d, s);
    h.Look(cc, s);
    var child, parent, red := h.cells[Addr(elm)].right, h.cells[Addr(elm)].parent, h.cells[Addr(elm)].red;
    ghost var rest := Node(t.left, old_, t.red, Plug(d, s.right));
    PlugUnder(d, base, s.right);
    PlugUnder(d, moved, s.right);
    CutOutAbsent(cc, s, c, rest);
    HoleMoved(d, c, t.left, old_, elm, t.red);
    h.CutOutNode(elm, child, cc, s);
    if h.cells[Addr(elm)].parent == old_ {
      parent := elm;
    }
    h.SubstituteNode(old_, elm, c, rest);
    if !red {
      RemoveColor(h, parent, child, Under(d, moved), s.right);
    }
  }
}
