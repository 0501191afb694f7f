/** What a binary min heap is, on value trees: complete, and ordered.

src/heap-inl.h:29-31 promises a complete tree whose root is the lowest element.
Positions are numbered from 1 at the root; the children of p are 2p and 2p + 1, so
the bits of p below its top bit spell the path from the root.
*/
module HeapShape {
  import opened Arith
  import opened LinkedTree

  // The subtree standing at position pos of the complete tree with n nodes.
  ghost predicate Complete(t: Tree, pos: nat, n: nat) {
    match t
    case Leaf => pos > n
    case Node(l, _, _, r) => pos <= n && Complete(l, 2 * pos, n) && Complete(r, 2 * pos + 1, n)
  }

  function Pos(c: Ctx): (p: nat)
    ensures p > 0
  {
    match c
    case Top => 1
    case InLeft(up, _, _, _) => 2 * Pos(up)
    case InRight(up, _, _, _) => 2 * Pos(up) + 1
  }

  ghost predicate CompleteCtx(c: Ctx, n: nat) {
    match c
    case Top => true
    case InLeft(up, _, _, r) => Pos(up) <= n && Complete(r, 2 * Pos(up) + 1, n) && CompleteCtx(up, n)
    case InRight(up, l, _, _) => Pos(up) <= n && Complete(l, 2 * Pos(up), n) && CompleteCtx(up, n)
  }

  lemma {:induction false} CompletePlug(c: Ctx, t: Tree, n: nat)
    ensures Complete(Plug(c, t), 1, n) <==> Complete(t, Pos(c), n) && CompleteCtx(c, n)
    decreases c
  {
    if !c.Top? {
      CompletePlug(c.up, Grow(c, t), n);
    }
  }

  // The height is at most log2 of the number of nodes, rounded down, plus one.
  lemma {:induction false} HeightBound(t: Tree, pos: nat, n: nat)
    requires Complete(t, pos, n) && t.Node?
    ensures pos * Pow2(Height(t) - 1) <= n
    decreases t
  {
    if t.left.Node? {
      HeightBound(t.left, 2 * pos, n);
      var p := Pow2(Height(t.left) - 1);
      assert pos * (2 * p) == 2 * pos * p;
    }
    if t.right.Node? {
      HeightBound(t.right, 2 * pos + 1, n);
      var p := Pow2(Height(t.right) - 1);
      assert pos * (2 * p) + p == (2 * pos + 1) * p;
    }
  }

  // Position m lies in the subtree at position q.
  ghost predicate Below(q: nat, m: nat) {
    m == q || (m > q && Below(q, m / 2))
  }

  lemma {:induction false} BelowChild(q: nat, m: nat)
    requires q > 0 && (Below(2 * q, m) || Below(2 * q + 1, m))
    ensures Below(q, m)
    decreases m
  {
    if m != 2 * q && m != 2 * q + 1 {
      BelowChild(q, m / 2);
    } else {
      assert Below(q, m / 2);
    }
  }

  lemma {:induction false} BelowOne(q: nat, m: nat)
    requires q > 0 && Below(2 * q, m)
    ensures !Below(2 * q + 1, m)
    decreases m
  {
    if m > 2 * q + 1 {
      BelowOne(q, m / 2);
    }
  }

  // Adding or removing position m leaves subtrees elsewhere complete.
  lemma {:induction false} CompleteElsewhere(t: Tree, q: nat, m: nat)
    requires q > 0 && m > 0 && !Below(q, m)
    ensures Complete(t, q, m - 1) <==> Complete(t, q, m)
    decreases t
  {
    if t.Node? {
      if Below(2 * q, m) || Below(2 * q + 1, m) {
        BelowChild(q, m);
      }
      CompleteElsewhere(t.left, 2 * q, m);
      CompleteElsewhere(t.right, 2 * q + 1, m);
    }
  }

  lemma {:induction false} CompleteCtxElsewhere(c: Ctx, m: nat)
    requires m > 0 && Below(Pos(c), m) && (!c.Top? ==> Pos(c.up) < m)
    ensures CompleteCtx(c, m - 1) <==> CompleteCtx(c, m)
  {
    match c
    case Top =>
    case InLeft(up, _, _, r) =>
      BelowChild(Pos(up), m);
      BelowOne(Pos(up), m);
      CompleteElsewhere(r, 2 * Pos(up) + 1, m);
      CompleteCtxElsewhere(up, m);
    case InRight(up, l, _, _) =>
      BelowChild(Pos(up), m);
      if Below(2 * Pos(up), m) {
        BelowOne(Pos(up), m);
      }
      CompleteElsewhere(l, 2 * Pos(up), m);
      CompleteCtxElsewhere(up, m);
  }

  // Hanging a leaf at the first free position, and taking the last one away.
  lemma {:induction false} CompleteGrows(c: Ctx, x: Ptr, red: bool)
    ensures Complete(Plug(c, Leaf), 1, Pos(c) - 1) <==> Complete(Plug(c, Node(Leaf, x, red, Leaf)), 1, Pos(c))
  {
    CompletePlug(c, Leaf, Pos(c) - 1);
    CompletePlug(c, Node(Leaf, x, red, Leaf), Pos(c));
    CompleteCtxElsewhere(c, Pos(c));
  }

  // The path loops of insert and remove push the bits of a number onto `path`, lowest
  // bit first, and leave its top bit; unwinding them rebuilds the number.
  function Unwind(path: nat, k: nat, pos: nat): nat
    decreases k
  {
    if k == 0 then pos else Unwind(path / 2, k - 1, 2 * pos + path % 2)
  }

  lemma {:induction false} UnwindGrows(path: nat, k: nat, pos: nat)
    ensures Unwind(path, k, pos) >= pos && (k > 0 ==> Unwind(path, k, pos) >= 2 * pos)
    decreases k
  {
    if k > 0 {
      UnwindGrows(path / 2, k - 1, 2 * pos + path % 2);
    }
  }

  // The path from the root to position N; it needs no more bits than N has.
  method PathTo(N: nat) returns (path: nat, k: nat)
    requires N > 0
    ensures Unwind(path, k, 1) == N
    ensures path < N
  {
    path, k := 0, 0;
    var n := N;
    while n >= 2
      invariant 1 <= n && Unwind(path, k, n) == N
      invariant path < Pow2(k) && n * Pow2(k) <= N
      decreases n
    {
      Halve(n, Pow2(k));
      assert Unwind(2 * path + n % 2, k + 1, n / 2) == Unwind(path, k, n) by {
        assert (2 * path + n % 2) / 2 == path && (2 * path + n % 2) % 2 == n % 2;
      }
      path := 2 * path + n % 2;
      k, n := k + 1, n / 2;
    }
  }

  // No node's key is below its parent's.
  ghost predicate Ordered(key: Ptr -> int, t: Tree) {
    match t
    case Leaf => true
    case Node(l, id, _, r) =>
      Ordered(key, l) && Ordered(key, r) && AtLeast(key, key(id), l) && AtLeast(key, key(id), r)
  }

  ghost predicate AtLeast(key: Ptr -> int, k: int, t: Tree) {
    t.Node? ==> k <= key(t.id)
  }

  // The subtrees below the hole must not go under this context's last key.
  ghost predicate Allows(key: Ptr -> int, c: Ctx, t: Tree) {
    !c.Top? ==> AtLeast(key, key(c.id), t)
  }

  ghost predicate CtxOrdered(key: Ptr -> int, c: Ctx) {
    match c
    case Top => true
    case InLeft(up, id, _, r) =>
      Ordered(key, r) && AtLeast(key, key(id), r) && Allows(key, up, Node(Leaf, id, false, Leaf)) && CtxOrdered(key, up)
    case InRight(up, l, id, _) =>
      Ordered(key, l) && AtLeast(key, key(id), l) && Allows(key, up, Node(Leaf, id, false, Leaf)) && CtxOrdered(key, up)
  }

  lemma {:induction false} OrderedPlug(key: Ptr -> int, c: Ctx, t: Tree)
    ensures Ordered(key, Plug(c, t)) <==> Ordered(key, t) && CtxOrdered(key, c) && Allows(key, c, t)
    decreases c
  {
    if !c.Top? {
      OrderedPlug(key, c.up, Grow(c, t));
    }
  }

  // The root is the least element.
  lemma {:induction false} RootLeast(key: Ptr -> int, t: Tree, x: Ptr)
    requires Ordered(key, t) && x in Ids(t)
    ensures key(t.id) <= key(x)
    decreases t
  {
    if x in Ids(t.left) {
      RootLeast(key, t.left, x);
    } else if x in Ids(t.right) {
      RootLeast(key, t.right, x);
    }
  }

  // Order depends on the keys of the heap's own nodes only.
  lemma {:induction false} OrderedFrame(key: Ptr -> int, key': Ptr -> int, t: Tree)
    requires forall x :: x in Ids(t) ==> key(x) == key'(x)
    ensures Ordered(key, t) <==> Ordered(key', t)
    decreases t
  {
    if t.Node? {
      OrderedFrame(key, key', t.left);
      OrderedFrame(key, key', t.right);
      assert t.left.Node? ==> t.left.id in Ids(t.left);
      assert t.right.Node? ==> t.right.id in Ids(t.right);
    }
  }
}
