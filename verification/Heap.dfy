/** The linked binary min heap of src/heap-inl.h.

`less_than` compares keys: less_than(a, b) is key(a) < key(b).
*/
module Heap {
  import opened LinkedTree
  import opened HeapShape
  import opened HeapLinks

  // A link that can be followed and overwritten: the source's `struct heap_node**`.
  datatype Slot = MinSlot | LeftSlot(node: Ptr) | RightSlot(node: Ptr)

  function SlotOf(c: Ctx): Slot {
    match c
    case Top => MinSlot
    case InLeft(_, id, _, _) => LeftSlot(id)
    case InRight(_, _, id, _) => RightSlot(id)
  }

  class Heap {
    const nodes: TreeStore
    var nelts: nat

    // heap_init
    constructor (size: nat)
      ensures nelts == 0 && fresh(nodes) && nodes.tree == Leaf && |nodes.cells| == size
      ensures forall key :: Valid(key)
    {
      nodes := new TreeStore(size);
      nelts := 0;
    }

    ghost predicate Valid(key: Ptr -> int)
      reads this, nodes
    {
      nodes.Valid() && Complete(nodes.tree, 1, nelts) && Ordered(key, nodes.tree)
    }

    // heap_min
    method Min(ghost key: Ptr -> int) returns (min: Ptr)
      requires Valid(key)
      ensures min == nodes.root && (min == NULL <==> nelts == 0)
      ensures nelts == 0 <==> Ids(nodes.tree) == {}
      ensures min != NULL ==> min in Ids(nodes.tree) && forall x :: x in Ids(nodes.tree) ==> key(min) <= key(x)
    {
      min := nodes.root;
      nodes.Look(Top, nodes.tree);
      assert nodes.tree.Node? ==> nodes.tree.id in Ids(nodes.tree);
      forall x | x in Ids(nodes.tree) ensures key(min) <= key(x) {
        RootLeast(key, nodes.tree, x);
      }
    }

    function Deref(slot: Slot): Ptr
      requires slot.MinSlot? || 0 < slot.node < |nodes.cells|
      reads nodes
    {
      match slot
      case MinSlot => nodes.root
      case LeftSlot(n) => nodes.cells[Addr(n)].left
      case RightSlot(n) => nodes.cells[Addr(n)].right
    }

    method Store(slot: Slot, p: Ptr)
      requires slot.MinSlot? || 0 < slot.node < |nodes.cells|
      modifies nodes`root, nodes`cells
      ensures slot.MinSlot? ==> nodes.root == p && nodes.cells == old(nodes.cells)
      ensures slot.LeftSlot? ==>
        nodes.root == old(nodes.root) && nodes.cells == WithLeft(old(nodes.cells), slot.node, p)
      ensures slot.RightSlot? ==>
        nodes.root == old(nodes.root) && nodes.cells == WithRight(old(nodes.cells), slot.node, p)
    {
      match slot
      case MinSlot => nodes.root := p;
      case LeftSlot(n) => nodes.SetLeft(n, p);
      case RightSlot(n) => nodes.SetRight(n, p);
    }

    // Follows the path to position N, which is taken or the first free one.
    method Traverse(N: nat) returns (parent: Slot, child: Slot, ghost c: Ctx, ghost t: Tree)
      requires nodes.Valid() && Complete(nodes.tree, 1, nelts) && 0 < N <= nelts + 1
      ensures nodes.tree == Plug(c, t) && Pos(c) == N && child == SlotOf(c)
      ensures parent == if c.Top? then MinSlot else SlotOf(c.up)
    {
      var path, k := PathTo(N);
      c, t := Top, nodes.tree;
      parent, child := MinSlot, MinSlot;
      while k > 0
        invariant nodes.tree == Plug(c, t) && child == SlotOf(c) && Unwind(path, k, Pos(c)) == N
        invariant parent == if c.Top? then MinSlot else SlotOf(c.up)
      {
        UnwindGrows(path, k, Pos(c));
        CompletePlug(c, t, nelts);
        nodes.LookHole(c, t);
        nodes.Look(c, t);
        parent := child;
        if path % 2 == 1 {
          child := RightSlot(Deref(child));
          c, t := InRight(c, t.left, t.id, t.red), t.right;
        } else {
          child := LeftSlot(Deref(child));
          c, t := InLeft(c, t.id, t.red, t.right), t.left;
        }
        path := path / 2;
        k := k - 1;
      }
    }

    method SiftUp(node: Ptr, key: Ptr -> int, ghost c0: Ctx, ghost t0: Tree)
      requires nodes.Valid() && nodes.tree == Plug(c0, t0) && SiftingUp(key, c0, t0) && t0.id == node
      requires Complete(nodes.tree, 1, nelts)
      modifies nodes
      ensures Valid(key) && |nodes.cells| == old(|nodes.cells|) && Ids(nodes.tree) == old(Ids(nodes.tree))
    {
      ghost var c, t := c0, t0;
      nodes.LookUp(c, t);
      while nodes.cells[Addr(node)].parent != NULL && key(node) < key(nodes.cells[Addr(node)].parent)
        invariant nodes.Valid() && nodes.tree == Plug(c, t) && SiftingUp(key, c, t) && t.id == node
        invariant Complete(nodes.tree, 1, nelts) && Ids(nodes.tree) == old(Ids(nodes.tree))
        invariant |nodes.cells| == old(|nodes.cells|) && nodes.SeesUp(c, node)
        decreases c
      {
        SiftUpStep(key, c, t);
        SwappedKeepsShape(c.up, Grow(c, t), c.InLeft?, nelts);
        NodeSwap(nodes, nodes.cells[Addr(node)].parent, node, c.up, Grow(c, t), c.InLeft?);
        c, t := c.up, Swapped(Grow(c, t), c.InLeft?);
        nodes.LookUp(c, t);
      }
      OrderedPlug(key, c, t);
    }

    // Links the new node in at the slot found for it.
    method Attach(newnode: Ptr, parent: Slot, child: Slot, ghost c: Ctx)
      requires nodes.Valid() && nodes.tree == Plug(c, Leaf)
      requires 0 < newnode < |nodes.cells| && newnode !in Ids(nodes.tree)
      requires child == SlotOf(c) && parent == if c.Top? then MinSlot else SlotOf(c.up)
      modifies nodes
      ensures nodes.Valid() && |nodes.cells| == old(|nodes.cells|)
      ensures nodes.tree == Plug(c, Node(Leaf, newnode, false, Leaf))
    {
      nodes.Look(c, Leaf);
      nodes.LookHole(c, Leaf);
      IdsPlug(c, Leaf);
      if !c.Top? {
        nodes.LookParent(c, Leaf);
      }
      var up := Deref(parent);
      assert up == Hole(c);
      nodes.cells := nodes.cells[Addr(newnode) := Cell(NULL, NULL, up, false)];
      Store(child, newnode);
      nodes.tree := Plug(c, Node(Leaf, newnode, false, Leaf));
      AttachLeaf(old(nodes.cells), nodes.cells, old(nodes.root), nodes.root, c, newnode, false);
    }

    // heap_insert
    method Insert(newnode: Ptr, key: Ptr -> int)
      requires Valid(key) && 0 < newnode < |nodes.cells| && newnode !in Ids(nodes.tree)
      modifies this, nodes
      ensures Valid(key) && nelts == old(nelts) + 1 && |nodes.cells| == old(|nodes.cells|)
      ensures Ids(nodes.tree) == old(Ids(nodes.tree)) + {newnode}
    {
      var parent, child;
      ghost var c, t;
      parent, child, c, t := Traverse(1 + nelts);
      InsertedLeaf(key, c, t, newnode, nelts);
      Attach(newnode, parent, child, c);
      nelts := nelts + 1;
      SiftUp(newnode, key, c, Node(Leaf, newnode, false, Leaf));
    }

    // Unlinks the last node of the bottom row.
    method DetachLast(ghost key: Ptr -> int) returns (child: Ptr)
      requires Valid(key) && nelts > 0
      modifies this, nodes
      ensures Valid(key) && nelts == old(nelts) - 1 && |nodes.cells| == old(|nodes.cells|)
      ensures 0 < child < |nodes.cells| && child !in Ids(nodes.tree)
      ensures old(Ids(nodes.tree)) == Ids(nodes.tree) + {child}
    {
      var parent, max;
      ghost var c, t;
      parent, max, c, t := Traverse(nelts);
      LastLeaf(key, c, t, nelts);
      nodes.Look(c, t);
      nodes.LookHole(c, t);
      nelts := nelts - 1;
      child := Deref(max);
      Store(max, NULL);
      nodes.tree := Plug(c, Leaf);
      DetachLeaf(old(nodes.cells), nodes.cells, old(nodes.root), nodes.root, c, child, t.red);
    }

    // The pointer writes that put `child` where `node` is.
    method ReplaceLinks(node: Ptr, child: Ptr)
      requires SubstitutedApart(nodes.cells, node, child)
      modifies nodes`cells, nodes`root
      ensures SubstitutedWrites(old(nodes.cells), nodes.cells, node, child)
      ensures nodes.root == if old(nodes.cells)[node].parent == NULL then child else old(nodes.root)
    {
      nodes.cells := nodes.cells[Addr(child) := nodes.cells[Addr(node)]];
      nodes.SetParent(nodes.cells[Addr(child)].left, child);
      nodes.SetParent(nodes.cells[Addr(child)].right, child);
      nodes.Redirect(nodes.cells[Addr(node)].parent, node, child);
    }

    method Replace(node: Ptr, child: Ptr, ghost c: Ctx, ghost t: Tree)
      requires nodes.Valid() && nodes.tree == Plug(c, t) && t.Node? && t.id == node
      requires 0 < child < |nodes.cells| && child !in Ids(t) + CtxIds(c)
      modifies nodes
      ensures nodes.Valid() && nodes.tree == Plug(c, t.(id := child)) && |nodes.cells| == old(|nodes.cells|)
    {
      nodes.Look(c, t);
      SubstitutedNodes(nodes.cells, nodes.root, c, t, child);
      ReplaceLinks(node, child);
      nodes.tree := Plug(c, t.(id := child));
      Substitute(old(nodes.cells), nodes.cells, old(nodes.root), nodes.root, c, t, child);
    }

    // The lightest of a node and its children (lines 217-221).
    method Smallest(child: Ptr, key: Ptr -> int, ghost c: Ctx, ghost t: Tree) returns (smallest: Ptr, ghost left: bool)
      requires nodes.Valid() && nodes.tree == Plug(c, t) && SiftingDown(key, c, t) && t.id == child
      ensures t.Node? && (smallest == child ==> SiftingUp(key, c, t))
      ensures smallest != child ==>
        && ChildOf(t, left).Node? && smallest == ChildOf(t, left).id && key(smallest) < key(child)
        && AtLeast(key, key(smallest), ChildOf(t, !left))
    {
      nodes.Look(c, t);
      smallest := child;
      if nodes.cells[Addr(child)].left != NULL && key(nodes.cells[Addr(child)].left) < key(smallest) {
        smallest := nodes.cells[Addr(child)].left;
      }
      if nodes.cells[Addr(child)].right != NULL && key(nodes.cells[Addr(child)].right) < key(smallest) {
        smallest := nodes.cells[Addr(child)].right;
      }
      left := t.left.Node? && smallest == t.left.id;
      if smallest != child {
        nodes.LookKids(c, t);
      }
    }

    // One turn of the walk down: swaps child with its smallest child, if that is smaller.
    method SiftDownTurn(child: Ptr, key: Ptr -> int, ghost c: Ctx, ghost t: Tree)
      returns (done: bool, ghost c': Ctx, ghost t': Tree)
      requires nodes.Valid() && nodes.tree == Plug(c, t) && SiftingDown(key, c, t) && t.id == child
      requires Complete(nodes.tree, 1, nelts)
      modifies nodes
      ensures nodes.Valid() && |nodes.cells| == old(|nodes.cells|) && Ids(nodes.tree) == old(Ids(nodes.tree))
      ensures Complete(nodes.tree, 1, nelts) && nodes.tree == Plug(c', t') && SiftingDown(key, c', t') && t'.id == child
      ensures done ==> SiftingUp(key, c', t')
      ensures !done ==> Height(t') < Height(t)
    {
      var smallest;
      ghost var left;
      smallest, left := Smallest(child, key, c, t);
      c', t' := c, t;
      done := smallest == child;
      if !done {
        hide *;
        SiftDownStep(key, c, t, left);
        SwappedKeepsShape(c, t, left, nelts);
        NodeSwap(nodes, child, smallest, c, t, left);
        c', t' := Beneath(c, Swapped(t, left), left), ChildOf(Swapped(t, left), left);
      }
    }

    method SiftDown(child: Ptr, key: Ptr -> int, ghost c0: Ctx, ghost t0: Tree)
      returns (ghost c: Ctx, ghost t: Tree)
      requires nodes.Valid() && nodes.tree == Plug(c0, t0) && SiftingDown(key, c0, t0) && t0.id == child
      requires Complete(nodes.tree, 1, nelts)
      modifies nodes
      ensures nodes.Valid() && |nodes.cells| == old(|nodes.cells|) && Ids(nodes.tree) == old(Ids(nodes.tree))
      ensures Complete(nodes.tree, 1, nelts) && nodes.tree == Plug(c, t) && SiftingUp(key, c, t) && t.id == child
    {
      c, t := c0, t0;
      var done := false;
      while !done
        invariant nodes.Valid() && |nodes.cells| == old(|nodes.cells|) && Ids(nodes.tree) == old(Ids(nodes.tree))
        invariant Complete(nodes.tree, 1, nelts) && nodes.tree == Plug(c, t) && SiftingDown(key, c, t) && t.id == child
        invariant done ==> SiftingUp(key, c, t)
        decreases !done, Height(t)
      {
        done, c, t := SiftDownTurn(child, key, c, t);
      }
    }

    // heap_remove
    method Remove(node: Ptr, key: Ptr -> int)
      requires Valid(key) && node in Ids(nodes.tree)
      modifies this, nodes
      ensures Valid(key) && nelts == old(nelts) - 1 && |nodes.cells| == old(|nodes.cells|)
      ensures Ids(nodes.tree) == old(Ids(nodes.tree)) - {node}
    {
      CountZero(nodes.tree, nelts);
      var child := DetachLast(key);
      if child == node {
        return;
      }
      ghost var c, t := Locate(Top, nodes.tree, node);
      ReplacedNode(key, c, t, child, nelts);
      Replace(node, child, c, t);
      t := t.(id := child);
      c, t := SiftDown(child, key, c, t);
      SiftUp(child, key, c, t);
    }

    // heap_dequeue
    method Dequeue(key: Ptr -> int)
      requires Valid(key) && nelts > 0
      modifies this, nodes
      ensures Valid(key) && nelts == old(nelts) - 1
      ensures old(nodes.root) in old(Ids(nodes.tree)) && Ids(nodes.tree) == old(Ids(nodes.tree)) - {old(nodes.root)}
      ensures forall x :: x in old(Ids(nodes.tree)) ==> key(old(nodes.root)) <= key(x)
    {
      var min := Min(key);
      Remove(min, key);
    }
  }

  // A leaf hung at the first free position only needs to be sifted up.
  lemma {:induction false} InsertedLeaf(key: Ptr -> int, c: Ctx, t: Tree, x: Ptr, n: nat)
    requires Complete(Plug(c, t), 1, n) && Ordered(key, Plug(c, t)) && Pos(c) == n + 1
    ensures t == Leaf && var t' := Node(Leaf, x, false, Leaf);
      && SiftingUp(key, c, t') && Complete(Plug(c, t'), 1, n + 1)
      && Ids(Plug(c, t')) == Ids(Plug(c, t)) + {x}
  {
    CompletePlug(c, t, n);
    CompleteGrows(c, x, false);
    OrderedPlug(key, c, t);
    IdsPlug(c, Leaf);
    IdsPlug(c, Node(Leaf, x, false, Leaf));
  }

  // The node at the root of t may be lighter than its ancestors; all else is in order.
  ghost predicate SiftingUp(key: Ptr -> int, c: Ctx, t: Tree) {
    && t.Node? && Ordered(key, t) && CtxOrdered(key, c)
    && Allows(key, c, t.left) && Allows(key, c, t.right)
  }

  lemma {:induction false} SiftUpStep(key: Ptr -> int, c: Ctx, t: Tree)
    requires SiftingUp(key, c, t) && !c.Top? && key(t.id) < key(c.id)
    ensures SiftingUp(key, c.up, Swapped(Grow(c, t), c.InLeft?))
  {
    var t' := Swapped(Grow(c, t), c.InLeft?);
    assert Ordered(key, ChildOf(t', c.InLeft?));
  }

  lemma {:induction false} CountZero(t: Tree, n: nat)
    requires Complete(t, 1, n) && t.Node?
    ensures n > 0
  {}

  lemma {:induction false} DetachLeaf(s: seq<Cell>, s': seq<Cell>, root: Ptr, root': Ptr, c: Ctx, x: Ptr, red: bool)
    requires At(s, root, c, Node(Leaf, x, red, Leaf)) && |s'| == |s|
    requires forall i :: 0 <= i < |s| && i != Hole(c) ==> s'[i] == s[i]
    requires 0 < Hole(c) < |s| ==> s'[Hole(c)] == Relinked(c, s[Hole(c)], NULL)
    requires root' == if c.Top? then NULL else root
    ensures At(s', root', Top, Plug(c, Leaf))
  {
    NonNullCtx(s, root, c, x);
    Splice(s, s', {Hole(c)}, root, root', c, Node(Leaf, x, red, Leaf), Leaf);
    Zip(s', root', c, Leaf);
  }

  // The node at the last position is a leaf, and the tree without it is a heap.
  lemma {:induction false} LastLeaf(key: Ptr -> int, c: Ctx, t: Tree, n: nat)
    requires Complete(Plug(c, t), 1, n) && Ordered(key, Plug(c, t)) && Distinct(Plug(c, t)) && Pos(c) == n
    ensures t.Node? && t == Node(Leaf, t.id, t.red, Leaf)
    ensures Complete(Plug(c, Leaf), 1, n - 1) && Ordered(key, Plug(c, Leaf))
    ensures Ids(Plug(c, t)) == Ids(Plug(c, Leaf)) + {t.id}
    ensures Ids(Plug(c, Leaf)) == CtxIds(c)
  {
    CompletePlug(c, t, n);
    CompleteGrows(c, t.id, t.red);
    OrderedPlug(key, c, t);
    OrderedPlug(key, c, Leaf);
    IdsPlug(c, Leaf);
    IdsPlug(c, t);
  }

  // The node at the root of t may be heavier than its children, or lighter than its
  // ancestors; all else is in order.
  ghost predicate SiftingDown(key: Ptr -> int, c: Ctx, t: Tree) {
    && t.Node? && Ordered(key, t.left) && Ordered(key, t.right) && CtxOrdered(key, c)
    && Allows(key, c, t.left) && Allows(key, c, t.right)
  }

  lemma {:induction false} ReplacedNode(key: Ptr -> int, c: Ctx, t: Tree, x: Ptr, n: nat)
    requires Ordered(key, Plug(c, t)) && Complete(Plug(c, t), 1, n) && t.Node? && x !in Ids(Plug(c, t))
    requires Distinct(Plug(c, t))
    ensures SiftingDown(key, c, t.(id := x)) && Complete(Plug(c, t.(id := x)), 1, n)
    ensures x !in Ids(t) + CtxIds(c)
    ensures Ids(Plug(c, t.(id := x))) == Ids(Plug(c, t)) - {t.id} + {x}
  {
    OrderedPlug(key, c, t);
    CompletePlug(c, t, n);
    CompletePlug(c, t.(id := x), n);
    IdsPlug(c, t);
    IdsPlug(c, t.(id := x));
    DistinctPlug(c, t);
  }

  lemma {:induction false} DistinctPlug(c: Ctx, t: Tree)
    requires Distinct(Plug(c, t))
    ensures Distinct(t) && CtxDistinct(c) && Ids(t) !! CtxIds(c)
    decreases c
  {
    if !c.Top? {
      DistinctPlug(c.up, Grow(c, t));
    }
  }

  // The context of a node's left or right subtree.
  function Beneath(c: Ctx, t: Tree, left: bool): Ctx
    requires t.Node?
  {
    if left then InLeft(c, t.id, t.red, t.right) else InRight(c, t.left, t.id, t.red)
  }

  lemma {:induction false} SiftDownStep(key: Ptr -> int, c: Ctx, t: Tree, left: bool)
    requires SiftingDown(key, c, t) && ChildOf(t, left).Node?
    requires key(ChildOf(t, left).id) < key(t.id)
    requires AtLeast(key, key(ChildOf(t, left).id), ChildOf(t, !left))
    ensures var t' := Swapped(t, left);
      && SiftingDown(key, Beneath(c, t', left), ChildOf(t', left)) && Height(ChildOf(t', left)) < Height(t)
      && Plug(Beneath(c, t', left), ChildOf(t', left)) == Plug(c, t')
  {
    assert Ordered(key, ChildOf(t, left));
  }
}
