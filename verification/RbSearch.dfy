/** Lookup and in-order stepping in a red-black tree (include/tree.h:629-721).

The tree's nodes in order form a sequence; every operation here is specified by
positions in that sequence.
*/
module RbSearch {
  import opened LinkedTree
  import opened Order
  import opened RbTree

  // The element at a position, or null past the ends.
  function ElementAt(xs: seq<Ptr>, i: int): Ptr {
    if 0 <= i < |xs| then xs[i] else NULL
  }

  function First(xs: seq<Ptr>): Ptr {
    ElementAt(xs, 0)
  }

  function Last(xs: seq<Ptr>): Ptr {
    ElementAt(xs, |xs| - 1)
  }

  // How many leading elements have keys below k.
  function Rank(key: Ptr -> int, xs: seq<Ptr>, k: int): (i: nat)
    ensures i <= |xs| && AllBelow(key, xs[..i], k) && (i < |xs| ==> k <= key(xs[i]))
  {
    if xs == [] || k <= key(xs[0]) then 0
    else
      var i := 1 + Rank(key, xs[1..], k);
      assert forall j :: 0 < j < i ==> xs[..i][j] == xs[1..][..i - 1][j - 1];
      i
  }

  lemma {:induction false} RankIs(key: Ptr -> int, a: seq<Ptr>, b: seq<Ptr>, k: int)
    requires AllBelow(key, a, k) && (b != [] ==> k <= key(b[0]))
    ensures Rank(key, a + b, k) == |a|
  {
    if a == [] {
      assert a + b == b;
    } else {
      assert (a + b)[1..] == a[1..] + b && (a + b)[0] == a[0];
      forall j | 0 <= j < |a[1..]| ensures key(a[1..][j]) < k {
        assert a[1..][j] == a[j + 1];
      }
      RankIs(key, a[1..], b, k);
    }
  }

  method Find(h: TreeStore, k: int, key: Ptr -> int) returns (res: Ptr)
    requires h.Valid() && Sorted(key, InOrder(h.tree))
    ensures res != NULL ==> res in InOrder(h.tree) && key(res) == k
    ensures res == NULL ==> forall x :: x in InOrder(h.tree) ==> key(x) != k
  {
    var tmp := h.root;
    ghost var c, t := Top, h.tree;
    h.Look(c, t);
    while tmp != NULL
      invariant h.tree == Plug(c, t) && tmp == Root(t) && (tmp == NULL <==> t.Leaf?)
      invariant Narrowed(key, k, c)
      decreases t
    {
      h.Look(c, t);
      InOrderPlug(c, t);
      var comp := k - key(tmp);
      if comp < 0 {
        tmp := h.cells[Addr(tmp)].left;
        NarrowLeft(key, k, c, t);
        c, t := InLeft(c, t.id, t.red, t.right), t.left;
      } else if comp > 0 {
        tmp := h.cells[Addr(tmp)].right;
        NarrowRight(key, k, c, t);
        c, t := InRight(c, t.left, t.id, t.red), t.right;
      } else {
        return tmp;
      }
    }
    InOrderPlug(c, t);
    res := NULL;
  }

  method NFind(h: TreeStore, k: int, key: Ptr -> int) returns (res: Ptr)
    requires h.Valid() && Sorted(key, InOrder(h.tree))
    ensures res == ElementAt(InOrder(h.tree), Rank(key, InOrder(h.tree), k))
  {
    var tmp := h.root;
    res := NULL;
    ghost var c, t := Top, h.tree;
    h.Look(c, t);
    while tmp != NULL
      invariant h.tree == Plug(c, t) && tmp == Root(t) && (tmp == NULL <==> t.Leaf?)
      invariant Narrowed(key, k, c) && res == First(After(c))
      decreases t
    {
      h.Look(c, t);
      var comp := k - key(tmp);
      if comp < 0 {
        res := tmp;
        tmp := h.cells[Addr(tmp)].left;
        NarrowLeft(key, k, c, t);
        c, t := InLeft(c, t.id, t.red, t.right), t.left;
      } else if comp > 0 {
        tmp := h.cells[Addr(tmp)].right;
        NarrowRight(key, k, c, t);
        c, t := InRight(c, t.left, t.id, t.red), t.right;
      } else {
        FoundRank(key, c, t);
        return tmp;
      }
    }
    InOrderPlug(c, t);
    assert InOrder(h.tree) == Before(c) + After(c);
    RankIs(key, Before(c), After(c), k);
  }

  lemma {:induction false} NodeSplits(c: Ctx, t: Tree)
    requires t.Node?
    ensures InOrder(Plug(c, t)) == (Before(c) + InOrder(t.left)) + ([t.id] + InOrder(t.right) + After(c))
  {
    InOrderPlug(c, t);
  }

  lemma {:induction false} RankFound(key: Ptr -> int, a: seq<Ptr>, b: seq<Ptr>)
    requires Sorted(key, a + b) && b != []
    ensures ElementAt(a + b, Rank(key, a + b, key(b[0]))) == b[0]
  {
    forall i | 0 <= i < |a| ensures key(a[i]) < key(b[0]) {
      assert (a + b)[i] == a[i] && (a + b)[|a|] == b[0];
    }
    RankIs(key, a, b, key(b[0]));
  }

  lemma {:induction false} FoundRank(key: Ptr -> int, c: Ctx, t: Tree)
    requires Sorted(key, InOrder(Plug(c, t))) && t.Node?
    ensures ElementAt(InOrder(Plug(c, t)), Rank(key, InOrder(Plug(c, t)), key(t.id))) == t.id
  {
    NodeSplits(c, t);
    hide *;
    RankFound(key, Before(c) + InOrder(t.left), [t.id] + InOrder(t.right) + After(c));
  }

  // Where a node stands in the order.
  lemma {:induction false} PositionIs(c: Ctx, t: Tree)
    requires t.Node?
    ensures var xs, i := InOrder(Plug(c, t)), |Before(c)| + |InOrder(t.left)|;
      i < |xs| && xs[i] == t.id && xs[..i] == Before(c) + InOrder(t.left) && xs[i + 1..] == InOrder(t.right) + After(c)
  {
    InOrderPlug(c, t);
    var a, b := Before(c) + InOrder(t.left), InOrder(t.right) + After(c);
    assert InOrder(Plug(c, t)) == a + [t.id] + b;
  }

  // No node occurs twice in the order.
  lemma {:induction false} IdsInOrder(t: Tree, x: Ptr)
    ensures x in Ids(t) <==> x in InOrder(t)
    decreases t
  {
    if t.Node? {
      IdsInOrder(t.left, x);
      IdsInOrder(t.right, x);
    }
  }

  lemma {:induction false} UniquePosition(t: Tree, i: int, j: int)
    requires Distinct(t) && 0 <= i < |InOrder(t)| && 0 <= j < |InOrder(t)| && InOrder(t)[i] == InOrder(t)[j]
    ensures i == j
    decreases t
  {
    var n := |InOrder(t.left)|;
    IdsInOrder(t.left, InOrder(t)[i]);
    IdsInOrder(t.right, InOrder(t)[i]);
    if i < n && j < n {
      UniquePosition(t.left, i, j);
    } else if i > n && j > n {
      UniquePosition(t.right, i - n - 1, j - n - 1);
    }
  }

  lemma {:induction false} FirstIn(t: Tree)
    requires t.Node?
    ensures First(InOrder(t)) == if t.left.Leaf? then t.id else First(InOrder(t.left))
  {}

  lemma {:induction false} LastIn(t: Tree)
    requires t.Node?
    ensures Last(InOrder(t)) == if t.right.Leaf? then t.id else Last(InOrder(t.right))
  {}

  // What follows a node: the start of its right subtree, or of what its context holds.
  lemma {:induction false} FollowedBy(c: Ctx, t: Tree)
    requires t.Node?
    ensures ElementAt(InOrder(Plug(c, t)), |Before(c)| + |InOrder(t.left)| + 1) ==
      if t.right.Node? then First(InOrder(t.right)) else First(After(c))
  {
    PositionIs(c, t);
    var xs, i := InOrder(Plug(c, t)), |Before(c)| + |InOrder(t.left)|;
    assert First(xs[i + 1..]) == ElementAt(xs, i + 1);
  }

  lemma {:induction false} PrecededBy(c: Ctx, t: Tree)
    requires t.Node?
    ensures ElementAt(InOrder(Plug(c, t)), |Before(c)| + |InOrder(t.left)| - 1) ==
      if t.left.Node? then Last(InOrder(t.left)) else Last(Before(c))
  {
    PositionIs(c, t);
    var xs, i := InOrder(Plug(c, t)), |Before(c)| + |InOrder(t.left)|;
    assert Last(xs[..i]) == ElementAt(xs, i - 1);
  }

  method Next(h: TreeStore, elm0: Ptr, ghost i: int) returns (elm: Ptr)
    requires h.Valid() && 0 <= i < |InOrder(h.tree)| && InOrder(h.tree)[i] == elm0
    ensures elm == ElementAt(InOrder(h.tree), i + 1)
  {
    elm := elm0;
    IdsInOrder(h.tree, elm);
    ghost var c, t := Locate(Top, h.tree, elm);
    PositionIs(c, t);
    h.Look(Top, h.tree);
    UniquePosition(h.tree, i, |Before(c)| + |InOrder(t.left)|);
    FollowedBy(c, t);
    h.Look(c, t);
    if h.cells[Addr(elm)].right != NULL {
      elm := h.cells[Addr(elm)].right;
      elm := DescendToNext(h, elm, InRight(c, t.left, t.id, t.red), t.right);
    } else {
      elm := ClimbToNext(h, elm, c, t);
    }
  }

  // The neighbour in a subtree is its outermost node.
  method DescendToNext(h: TreeStore, elm0: Ptr, ghost c0: Ctx, ghost t0: Tree) returns (elm: Ptr)
    requires h.Valid() && h.tree == Plug(c0, t0) && t0.Node? && t0.id == elm0
    ensures elm == First(InOrder(t0))
  {
    elm := elm0;
    ghost var c, t := c0, t0;
    h.Look(c, t);
    while h.cells[Addr(elm)].left != NULL
      invariant h.tree == Plug(c, t) && t.Node? && t.id == elm && 0 < elm < |h.cells|
      invariant h.cells[elm].left == Root(t.left) && (h.cells[elm].left == NULL <==> t.left.Leaf?)
      invariant First(InOrder(t)) == First(InOrder(t0))
      decreases t
    {
      elm := h.cells[Addr(elm)].left;
      FirstIn(t);
      c, t := InLeft(c, t.id, t.red, t.right), t.left;
      h.Look(c, t);
    }
  }

  // Without a right subtree the neighbour is the nearest ancestor on that side.
  method ClimbToNext(h: TreeStore, elm0: Ptr, ghost c0: Ctx, ghost t0: Tree) returns (elm: Ptr)
    requires h.Valid() && h.tree == Plug(c0, t0) && t0.Node? && t0.id == elm0
    ensures elm == First(After(c0))
  {
    elm := elm0;
    ghost var c, t := c0, t0;
    h.LookUp(c, t);
    h.LookSide(c, t);
    if h.cells[Addr(elm)].parent != NULL && elm == h.cells[Addr(h.cells[Addr(elm)].parent)].left {
      elm := h.cells[Addr(elm)].parent;
    } else {
      while h.cells[Addr(elm)].parent != NULL && elm == h.cells[Addr(h.cells[Addr(elm)].parent)].right
        invariant h.tree == Plug(c, t) && t.Node? && t.id == elm && h.SeesUp(c, elm)
        invariant !c.Top? ==> (h.cells[c.id].right == elm <==> c.InRight?)
        invariant After(c) == After(c0)
        decreases c
      {
        elm := h.cells[Addr(elm)].parent;
        c, t := c.up, Grow(c, t);
        h.LookUp(c, t);
        h.LookSide(c, t);
      }
      elm := h.cells[Addr(elm)].parent;
    }
  }

  method Min(h: TreeStore) returns (parent: Ptr)
    requires h.Valid()
    ensures parent == First(InOrder(h.tree))
  {
    var tmp := h.root;
    parent := NULL;
    ghost var c, t := Top, h.tree;
    h.Look(c, t);
    while tmp != NULL
      invariant h.tree == Plug(c, t) && tmp == Root(t) && (tmp == NULL <==> t.Leaf?)
      invariant First(InOrder(h.tree)) == if t.Leaf? then parent else First(InOrder(t))
      decreases t
    {
      h.Look(c, t);
      parent := tmp;
      tmp := h.cells[Addr(tmp)].left;
      FirstIn(t);
      c, t := InLeft(c, t.id, t.red, t.right), t.left;
    }
  }

  method Prev(h: TreeStore, elm0: Ptr, ghost i: int) returns (elm: Ptr)
    requires h.Valid() && 0 <= i < |InOrder(h.tree)| && InOrder(h.tree)[i] == elm0
    ensures elm == ElementAt(InOrder(h.tree), i - 1)
  {
    elm := elm0;
    IdsInOrder(h.tree, elm);
    ghost var c, t := Locate(Top, h.tree, elm);
    PositionIs(c, t);
    h.Look(Top, h.tree);
    UniquePosition(h.tree, i, |Before(c)| + |InOrder(t.left)|);
    PrecededBy(c, t);
    h.Look(c, t);
    if h.cells[Addr(elm)].left != NULL {
      elm := h.cells[Addr(elm)].left;
      elm := DescendToPrev(h, elm, InLeft(c, t.id, t.red, t.right), t.left);
    } else {
      elm := ClimbToPrev(h, elm, c, t);
    }
  }

  // The neighbour in a subtree is its outermost node.
  method DescendToPrev(h: TreeStore, elm0: Ptr, ghost c0: Ctx, ghost t0: Tree) returns (elm: Ptr)
    requires h.Valid() && h.tree == Plug(c0, t0) && t0.Node? && t0.id == elm0
    ensures elm == Last(InOrder(t0))
  {
    elm := elm0;
    ghost var c, t := c0, t0;
    h.Look(c, t);
    while h.cells[Addr(elm)].right != NULL
      invariant h.tree == Plug(c, t) && t.Node? && t.id == elm && 0 < elm < |h.cells|
      invariant h.cells[elm].right == Root(t.right) && (h.cells[elm].right == NULL <==> t.right.Leaf?)
      invariant Last(InOrder(t)) == Last(InOrder(t0))
      decreases t
    {
      elm := h.cells[Addr(elm)].right;
      LastIn(t);
      c, t := InRight(c, t.left, t.id, t.red), t.right;
      h.Look(c, t);
    }
  }

  // Without a left subtree the neighbour is the nearest ancestor on that side.
  method ClimbToPrev(h: TreeStore, elm0: Ptr, ghost c0: Ctx, ghost t0: Tree) returns (elm: Ptr)
    requires h.Valid() && h.tree == Plug(c0, t0) && t0.Node? && t0.id == elm0
    ensures elm == Last(Before(c0))
  {
    elm := elm0;
    ghost var c, t := c0, t0;
    h.LookUp(c, t);
    h.LookSide(c, t);
    if h.cells[Addr(elm)].parent != NULL && elm == h.cells[Addr(h.cells[Addr(elm)].parent)].right {
      elm := h.cells[Addr(elm)].parent;
    } else {
      while h.cells[Addr(elm)].parent != NULL && elm == h.cells[Addr(h.cells[Addr(elm)].parent)].left
        invariant h.tree == Plug(c, t) && t.Node? && t.id == elm && h.SeesUp(c, elm)
        invariant !c.Top? ==> (h.cells[c.id].left == elm <==> c.InLeft?)
        invariant Before(c) == Before(c0)
        decreases c
      {
        elm := h.cells[Addr(elm)].parent;
        c, t := c.up, Grow(c, t);
        h.LookUp(c, t);
        h.LookSide(c, t);
      }
      elm := h.cells[Addr(elm)].parent;
    }
  }

  method Max(h: TreeStore) returns (parent: Ptr)
    requires h.Valid()
    ensures parent == Last(InOrder(h.tree))
  {
    var tmp := h.root;
    parent := NULL;
    ghost var c, t := Top, h.tree;
    h.Look(c, t);
    while tmp != NULL
      invariant h.tree == Plug(c, t) && tmp == Root(t) && (tmp == NULL <==> t.Leaf?)
      invariant Last(InOrder(h.tree)) == if t.Leaf? then parent else Last(InOrder(t))
      decreases t
    {
      h.Look(c, t);
      parent := tmp;
      tmp := h.cells[Addr(tmp)].right;
      LastIn(t);
      c, t := InRight(c, t.left, t.id, t.red), t.right;
    }
  }
}
