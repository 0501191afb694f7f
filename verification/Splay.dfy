/** Splay trees (include/tree.h:123-274). Lookups restructure the tree, but never its order. */
module Splay {
  import opened Order
  import opened SplayShape
  import C = SplayCost

  // The root is the node with key k, or the node just before or after where k would be.
  ghost predicate Near(key: Ptr -> int, t: Tree, k: int) {
    && t.Node?
    && (key(t.id) == k
        || (k < key(t.id) && AllBelow(key, InOrder(t.left), k))
        || (key(t.id) < k && AllAbove(key, InOrder(t.right), k)))
  }

  // Everything moved aside is on its side of the key.
  ghost predicate Parted(key: Ptr -> int, k: int, l: seq<Link>, r: seq<Link>) {
    AllBelow(key, ChainOrder(l, R), k) && AllAbove(key, ChainOrder(r, L), k)
  }

  lemma {:induction false} PartLeft(key: Ptr -> int, k: int, l: seq<Link>, t: Tree, r: seq<Link>)
    requires Sorted(key, Full(l, t, r)) && Parted(key, k, l, r) && t.Node? && k < key(t.id)
    ensures Parted(key, k, l, Linked(r, t, L))
  {
    assert Linked(r, t, L)[..|r|] == r;
    SortedParts(key, InOrder(t.left), t.id, InOrder(t.right), Full(l, t, r), ChainOrder(l, R), ChainOrder(r, L));
  }

  lemma {:induction false} PartRight(key: Ptr -> int, k: int, l: seq<Link>, t: Tree, r: seq<Link>)
    requires Sorted(key, Full(l, t, r)) && Parted(key, k, l, r) && t.Node? && key(t.id) < k
    ensures Parted(key, k, Linked(l, t, R), r)
  {
    assert Linked(l, t, R)[..|l|] == l;
    SortedParts(key, InOrder(t.left), t.id, InOrder(t.right), Full(l, t, r), ChainOrder(l, R), ChainOrder(r, L));
  }

  // The loop stops at the key, or where the search would fall off the tree.
  ghost predicate Stopped(key: Ptr -> int, k: int, t: Tree) {
    t.Node? && (key(t.id) == k || (k < key(t.id) && t.left.Leaf?) || (key(t.id) < k && t.right.Leaf?))
  }

  lemma {:induction false} StopsLeft(key: Ptr -> int, k: int, t: Tree)
    requires t.Node? && k < key(t.id) && t.left.Leaf?
    ensures Stopped(key, k, t)
  {}

  lemma {:induction false} StopsRight(key: Ptr -> int, k: int, t: Tree)
    requires t.Node? && key(t.id) < k && t.right.Leaf?
    ensures Stopped(key, k, t)
  {}

  lemma {:induction false} StopsAt(key: Ptr -> int, k: int, t: Tree)
    requires t.Node? && key(t.id) == k
    ensures Stopped(key, k, t)
  {}

  lemma {:induction false} StoppedNear(key: Ptr -> int, k: int, l: seq<Link>, t: Tree, r: seq<Link>)
    requires Parted(key, k, l, r) && Stopped(key, k, t)
    ensures Near(key, Assembled(l, t, r), k)
  {
    ChainTreeOrder(l, t.left, R);
    ChainTreeOrder(r, t.right, L);
  }

  // A turn of the loop of a splay has lost nothing: the nodes in play are those of `was`, in
  // the same order, and no other cell but the scratch node was written.
  ghost predicate Turning(c: seq<Kids>, root: Ptr, l: seq<Link>, t: Tree, r: seq<Link>, was: Tree, c0: seq<Kids>) {
    && Splaying(c, root, l, t, r) && t.Node?
    && Full(l, t, r) == InOrder(was) && ChainIds(l) + Ids(t) + ChainIds(r) == Ids(was)
    && Same(c0, c, Ids(was) + {NULL})
  }

  lemma {:induction false} TurnLook(c: seq<Kids>, root: Ptr, l: seq<Link>, t: Tree, r: seq<Link>, was: Tree,
                                    c0: seq<Kids>)
    requires Turning(c, root, l, t, r, was, c0)
    ensures t.Node? && root == t.id && 0 < root < |c| == |c0| && End(l) < |c| && End(r) < |c|
    ensures c[root].left < |c| && if t.left.Leaf? then c[root].left == NULL else c[root].left == t.left.id != NULL
    ensures c[root].right < |c| && if t.right.Leaf? then c[root].right == NULL else c[root].right == t.right.id != NULL
    ensures Full(l, t, r) == InOrder(was) && Size(t.left) < Size(t) && Size(t.right) < Size(t)
  {
    RootIn(c, c[root].left, t.left);
    RootIn(c, c[root].right, t.right);
  }

  lemma {:induction false} TurnRotate(c: seq<Kids>, root: Ptr, l: seq<Link>, t: Tree, r: seq<Link>, was: Tree,
                                      c0: seq<Kids>, d: Dir)
    requires Turning(c, root, l, t, r, was, c0) && Sub(t, d).Node? && root < |c| && Sub(t, d).id < |c|
    ensures Turning(RotateCells(c, root, Sub(t, d).id, d), Sub(t, d).id, l, Rotate(t, d), r, was, c0)
    ensures Rotate(t, d).id == Sub(t, d).id && Size(Rotate(t, d)) == Size(t)
  {
    RotateOk(c, root, l, t, r, d);
    assert t.id in Ids(was) && Sub(t, d).id in Ids(was);
  }

  lemma {:induction false} TurnLinkLeft(c: seq<Kids>, root: Ptr, l: seq<Link>, t: Tree, r: seq<Link>, was: Tree,
                                        c0: seq<Kids>)
    requires Turning(c, root, l, t, r, was, c0) && t.left.Node?
    ensures End(r) < |c| && root < |c| && End(Linked(r, t, L)) == root
    ensures var c' := Set(c, End(r), L, root); Turning(c', c'[root].left, l, t.left, Linked(r, t, L), was, c0)
  {
    LinkLeftOk(c, root, l, t, r);
    LinkLeftOrder(l, t, r);
    if r != [] { assert End(r) in ChainIds(r) && End(r) in Ids(was); }
    assert Ids(t) == Ids(t.left) + {t.id} + Ids(t.right);
  }

  lemma {:induction false} TurnLinkRight(c: seq<Kids>, root: Ptr, l: seq<Link>, t: Tree, r: seq<Link>, was: Tree,
                                         c0: seq<Kids>)
    requires Turning(c, root, l, t, r, was, c0) && t.right.Node?
    ensures End(l) < |c| && root < |c| && End(Linked(l, t, R)) == root
    ensures var c' := Set(c, End(l), R, root); Turning(c', c'[root].right, Linked(l, t, R), t.right, r, was, c0)
  {
    LinkRightOk(c, root, l, t, r);
    LinkRightOrder(l, t, r);
    if l != [] { assert End(l) in ChainIds(l) && End(l) in Ids(was); }
    assert Ids(t) == Ids(t.left) + {t.id} + Ids(t.right);
  }

  // What a turn to the left, or to the right, makes of the rest of the splay.
  lemma {:induction false} TurnsLeft(key: Ptr -> int, k: int, l: seq<Link>, t: Tree, r: seq<Link>, n: nat, rotate: bool)
    requires t.Node? && k < key(t.id) && t.left.Node? && rotate == (k < key(t.left.id))
    ensures var turned := if rotate then Rotate(t, L) else t;
      if rotate && turned.left.Leaf? then C.Finish(key, k, l, turned, r, n + 1) == C.Finish(key, k, l, t, r, n)
      else (
        && turned.left.Node?
        && C.Finish(key, k, l, turned.left, Linked(r, turned, L), n + 1) == C.Finish(key, k, l, t, r, n))
  {
    C.TurnFinish(key, k, l, t, r, n, L);
    hide C.Finish, Linked;
  }

  lemma {:induction false} TurnsRight(key: Ptr -> int, k: int, l: seq<Link>, t: Tree, r: seq<Link>, n: nat,
                                      rotate: bool)
    requires t.Node? && key(t.id) < k && t.right.Node? && rotate == (key(t.right.id) < k)
    ensures var turned := if rotate then Rotate(t, R) else t;
      if rotate && turned.right.Leaf? then C.Finish(key, k, l, turned, r, n + 1) == C.Finish(key, k, l, t, r, n)
      else (
        && turned.right.Node?
        && C.Finish(key, k, Linked(l, turned, R), turned.right, r, n + 1) == C.Finish(key, k, l, t, r, n))
  {
    C.TurnFinish(key, k, l, t, r, n, R);
    hide C.Finish, Linked;
  }

  lemma {:induction false} FinishBegins(key: Ptr -> int, k: int, t: Tree)
    requires t.Node?
    ensures C.Finish(key, k, [], t, [], 0) == C.Splay(key, k, t)
  {}

  lemma {:induction false} FinishEnds(key: Ptr -> int, k: int, l: seq<Link>, t: Tree, r: seq<Link>, n: nat)
    requires Stopped(key, k, t)
    ensures C.Finish(key, k, l, t, r, n) == C.Outcome(Assembled(l, t, r), n)
  {}

  lemma {:induction false} SplayBegins(c: seq<Kids>, root: Ptr, t: Tree, key: Ptr -> int, k: int)
    requires |c| > 0 && Rep(c, root, t) && t.Node? && Distinct(t) && NULL !in Ids(t)
    ensures Turning(c[NULL := Kids(NULL, NULL)], root, [], t, [], t, c) && Parted(key, k, [], []) && root == t.id
  {
    var c' := c[NULL := Kids(NULL, NULL)];
    RepFrame(c, c', {NULL}, root, t);
    assert Full([], t, []) == InOrder(t);
  }

  // SPLAY_ASSEMBLE ends the splay.
  lemma {:induction false} SplayEnds(c: seq<Kids>, root: Ptr, l: seq<Link>, t: Tree, r: seq<Link>, was: Tree,
                                     c0: seq<Kids>, key: Ptr -> int, k: int)
    requires Turning(c, root, l, t, r, was, c0) && Parted(key, k, l, r) && Stopped(key, k, t)
    ensures root < |c| && End(l) < |c| && End(r) < |c|
    ensures var c' := AssembleCells(c, root, End(l), End(r));
      var t' := Assembled(l, t, r);
      && Rep(c', root, t') && Distinct(t') && NULL !in Ids(t') && InOrder(t') == InOrder(was) && Ids(t') == Ids(was)
      && Near(key, t', k) && t'.id == t.id && Same(c0, c', Ids(was) + {NULL})
    ensures t.left.Leaf? && l == [] ==> Assembled(l, t, r).left == Leaf
    ensures t.right.Leaf? && r == [] ==> Assembled(l, t, r).right == Leaf
  {
    AssembleOk(c, root, l, t, r);
    StoppedNear(key, k, l, t, r);
    AssembledIds(l, t, r);
    if l != [] { assert End(l) in ChainIds(l); }
    if r != [] { assert End(r) in ChainIds(r); }
  }

  lemma {:induction false} AssembledIds(l: seq<Link>, t: Tree, r: seq<Link>)
    requires Apart(l, t, r) && t.Node?
    ensures Ids(Assembled(l, t, r)) == ChainIds(l) + Ids(t) + ChainIds(r)
  {
    ChainTreeIds(l, t.left, R);
    ChainTreeIds(r, t.right, L);
  }

  // A key before or after all nodes of a tree.
  ghost function Beyond(key: Ptr -> int, t: Tree, comp: int): int {
    if t.Leaf? then 0
    else
      var a, b := Beyond(key, t.left, comp), Beyond(key, t.right, comp);
      if comp < 0 then Min(Min(a, b), key(t.id) - 1) else -Min(Min(-a, -b), -key(t.id) - 1)
  }

  function Min(a: int, b: int): int {
    if a < b then a else b
  }

  lemma {:induction false} BeyondAll(key: Ptr -> int, t: Tree, comp: int, k: int)
    requires if comp < 0 then k <= Beyond(key, t, comp) else Beyond(key, t, comp) <= k
    ensures forall x :: x in Ids(t) ==> if comp < 0 then k < key(x) else key(x) < k
  {
    if t.Node? {
      BeyondAll(key, t.left, comp, k);
      BeyondAll(key, t.right, comp, k);
    }
  }

  lemma {:induction false} AllBeyond(c: seq<Kids>, root: Ptr, l: seq<Link>, t: Tree, r: seq<Link>, was: Tree,
                                     c0: seq<Kids>, key: Ptr -> int, comp: int, k: int)
    requires Turning(c, root, l, t, r, was, c0) && comp != 0 && k == Beyond(key, was, comp)
    ensures root < |c| && if comp < 0 then k < key(root) else key(root) < k
    ensures t.left.Node? && comp < 0 ==> k < key(c[root].left)
    ensures t.right.Node? && comp > 0 ==> key(c[root].right) < k
  {
    BeyondAll(key, was, comp, k);
    TurnLook(c, root, l, t, r, was, c0);
    assert root in Ids(was);
    assert t.left.Node? ==> t.left.id in Ids(t.left) && t.left.id in Ids(was);
    assert t.right.Node? ==> t.right.id in Ids(t.right) && t.right.id in Ids(was);
  }

  lemma {:induction false} IdsInOrder(t: Tree, x: Ptr)
    ensures x in Ids(t) <==> x in InOrder(t)
  {
    if t.Node? {
      IdsInOrder(t.left, x);
      IdsInOrder(t.right, x);
    }
  }

  lemma {:induction false} NearEnd(key: Ptr -> int, t: Tree, was: Tree, comp: int, k: int)
    requires Near(key, t, k) && Ids(t) == Ids(was) && comp != 0 && k == Beyond(key, was, comp)
    ensures if comp < 0 then t.left == Leaf else t.right == Leaf
  {
    BeyondAll(key, was, comp, k);
    assert t.id in Ids(t);
    OneSided(key, t, comp < 0, k);
  }

  // If all keys are on one side of k, the root near k has no child on the other.
  lemma {:induction false} OneSided(key: Ptr -> int, t: Tree, above: bool, k: int)
    requires Near(key, t, k) && forall x :: x in Ids(t) ==> if above then k < key(x) else key(x) < k
    ensures if above then t.left == Leaf else t.right == Leaf
  {
    var s := if above then t.left else t.right;
    assert t.id in Ids(t) && forall x :: x in Ids(s) ==> x in Ids(t);
    forall i | 0 <= i < |InOrder(s)| ensures InOrder(s)[i] in Ids(s) {
      IdsInOrder(s, InOrder(s)[i]);
    }
    if s.Node? {
      RootPosition(s);
    }
  }

  lemma {:induction false} RootPosition(t: Tree)
    requires t.Node?
    ensures |InOrder(t.left)| < |InOrder(t)| && InOrder(t)[|InOrder(t.left)|] == t.id
    ensures InOrder(t)[..|InOrder(t.left)|] == InOrder(t.left)
      && InOrder(t)[|InOrder(t.left)| + 1..] == InOrder(t.right)
    ensures InOrder(t)[|InOrder(t.left)|..] == [t.id] + InOrder(t.right)
    ensures InOrder(t)[..|InOrder(t.left)| + 1] == InOrder(t.left) + [t.id]
  {}

  lemma {:induction false} NearFinds(key: Ptr -> int, t: Tree, k: int)
    requires Near(key, t, k) && Sorted(key, InOrder(t))
    ensures key(t.id) != k ==> forall x :: x in InOrder(t) ==> key(x) != k
    ensures AllBelow(key, InOrder(t.left), k) && AllAbove(key, InOrder(t.right), k)
  {
    assert InOrder(t) == [] + (InOrder(t.left) + [t.id] + InOrder(t.right)) + [];
    SortedParts(key, InOrder(t.left), t.id, InOrder(t.right), InOrder(t), [], []);
  }

  lemma {:induction false} FirstNode(key: Ptr -> int, t: Tree, elm: Ptr)
    requires t.Leaf?
    ensures Sorted(key, InOrder(Node(Leaf, elm, Leaf))) && IsInsertion(InOrder(t), InOrder(Node(Leaf, elm, Leaf)), elm)
  {
    assert InOrder(Node(Leaf, elm, Leaf)) == [elm] == [][..0] + [elm] + [][0..];
  }

  // Putting elm in beside the root that is nearest to it.
  lemma {:induction false} InsertedOk(c: seq<Kids>, c': seq<Kids>, t: Tree, elm: Ptr, before: bool, key: Ptr -> int)
    requires t.Node? && Rep(c, t.id, t) && Distinct(t) && NULL !in Ids(t) && 0 < elm < |c| && elm !in Ids(t)
    requires Near(key, t, key(elm)) && Sorted(key, InOrder(t))
    requires if before then key(elm) < key(t.id) else key(t.id) < key(elm)
    requires var kids := if before then Kids(c[t.id].left, t.id) else Kids(t.id, c[t.id].right);
      c' == Set(c[elm := kids], t.id, if before then L else R, NULL)
    ensures var t' := C.Inserted(t, elm, before);
      && Rep(c', elm, t') && Distinct(t') && NULL !in Ids(t')
      && Sorted(key, InOrder(t')) && IsInsertion(InOrder(t), InOrder(t'), elm)
  {
    RepFrame(c, c', {elm, t.id}, c[t.id].left, t.left);
    RepFrame(c, c', {elm, t.id}, c[t.id].right, t.right);
    var inner := if before then Node(Leaf, t.id, t.right) else Node(t.left, t.id, Leaf);
    assert Ids(Leaf) == {} && Ids(inner) == {t.id} + if before then Ids(t.right) else Ids(t.left);
    InsertedOrder(t, elm, before, key);
  }

  lemma {:induction false} InsertedOrder(t: Tree, elm: Ptr, before: bool, key: Ptr -> int)
    requires Near(key, t, key(elm)) && Sorted(key, InOrder(t))
    requires if before then key(elm) < key(t.id) else key(t.id) < key(elm)
    ensures var t' := C.Inserted(t, elm, before);
      Sorted(key, InOrder(t')) && IsInsertion(InOrder(t), InOrder(t'), elm)
  {
    NearFinds(key, t, key(elm));
    InsertedAt(t, elm, before);
    RootPosition(t);
    SortedParts(key, InOrder(t.left), t.id, InOrder(t.right), InOrder(t), [], []);
    hide *;
    var xs, n := InOrder(t), |InOrder(t.left)|;
    Between(key, xs, InOrder(t.left), t.id, InOrder(t.right), key(elm), before);
    SortedInsertion(key, xs, if before then n else n + 1, elm);
  }

  lemma {:induction false} InsertedAt(t: Tree, elm: Ptr, before: bool)
    requires t.Node?
    ensures var i := |InOrder(t.left)| + if before then 0 else 1;
      i <= |InOrder(t)| && InOrder(C.Inserted(t, elm, before)) == InOrder(t)[..i] + [elm] + InOrder(t)[i..]
  {
    RootPosition(t);
    assert InOrder(Leaf) == [];
    if before {
      assert InOrder(Node(Leaf, t.id, t.right)) == [t.id] + InOrder(t.right);
    } else {
      assert InOrder(Node(t.left, t.id, Leaf)) == InOrder(t.left) + [t.id];
    }
  }

  lemma {:induction false} Between(key: Ptr -> int, xs: seq<Ptr>, a: seq<Ptr>, x: Ptr, b: seq<Ptr>, k: int,
                                   before: bool)
    requires xs == a + [x] + b && AllBelow(key, a, k) && AllAbove(key, b, k)
    requires if before then k < key(x) else key(x) < k
    ensures var i := |a| + if before then 0 else 1;
      i <= |xs| && AllBelow(key, xs[..i], k) && AllAbove(key, xs[i..], k)
  {
    if before {
      assert xs[..|a|] == a && xs[|a|..] == [x] + b;
    } else {
      assert xs[..|a| + 1] == a + [x] && xs[|a| + 1..] == b;
    }
  }

  lemma {:induction false} RemovedAlone(t: Tree)
    requires t.Node? && t.left.Leaf?
    ensures IsInsertion(InOrder(t.right), InOrder(t), t.id)
  {
    var xs := InOrder(t.right);
    assert InOrder(t) == xs[..0] + [t.id] + xs[0..];
  }

  lemma {:induction false} LeftPart(key: Ptr -> int, t: Tree)
    requires t.Node? && Sorted(key, InOrder(t))
    ensures Sorted(key, InOrder(t.left))
  {
    assert forall i :: 0 <= i < |InOrder(t.left)| ==> InOrder(t)[i] == InOrder(t.left)[i];
  }

  // The left subtree splayed towards the key of the old root ends in its last node.
  lemma {:induction false} LeftEnds(key: Ptr -> int, t: Tree, t1: Tree, k: int)
    requires t.Node? && key(t.id) == k && Near(key, t, k) && Sorted(key, InOrder(t))
    requires Near(key, t1, k) && InOrder(t1) == InOrder(t.left)
    ensures t1.right == Leaf
  {
    NearFinds(key, t, k);
    forall x | x in Ids(t1) ensures key(x) < k {
      IdsInOrder(t1, x);
    }
    OneSided(key, t1, false, k);
  }

  lemma {:induction false} RemovedOk(c: seq<Kids>, c1: seq<Kids>, c2: seq<Kids>, t: Tree, t1: Tree, tmp: Ptr)
    requires t.Node? && Distinct(t) && NULL !in Ids(t) && Rep(c, tmp, t.right)
    requires t1.Node? && Rep(c1, t1.id, t1) && Distinct(t1) && Ids(t1) == Ids(t.left) && InOrder(t1) == InOrder(t.left)
    requires t1.right == Leaf && Same(c, c1, Ids(t1) + {NULL}) && t1.id < |c1| && c2 == Set(c1, t1.id, R, tmp)
    ensures var t' := t1.(right := t.right);
      Rep(c2, t1.id, t') && Distinct(t') && NULL !in Ids(t') && IsInsertion(InOrder(t'), InOrder(t), t.id)
  {
    RepFrame(c1, c2, {t1.id}, c1[t1.id].left, t1.left);
    RepFrame(c, c1, Ids(t1) + {NULL}, tmp, t.right);
    RepFrame(c1, c2, {t1.id}, tmp, t.right);
    assert forall x :: x in Ids(t1.left) ==> x in Ids(t1);
    var xs := InOrder(t1.(right := t.right));
    var i := |InOrder(t.left)|;
    assert xs == InOrder(t.left) + InOrder(t.right);
    assert InOrder(t) == xs[..i] + [t.id] + xs[i..];
  }

  class SplayTree {
    var root: Ptr
    var cells: seq<Kids>
    ghost var tree: Tree

    ghost predicate Valid()
      reads this
    {
      |cells| > 0 && Rep(cells, root, tree) && Distinct(tree) && NULL !in Ids(tree)
    }

    constructor (size: nat)
      ensures Valid() && tree == Leaf && |cells| == size + 1
    {
      root := NULL;
      cells := seq(size + 1, _ => Kids(NULL, NULL));
      tree := Leaf;
    }

    // SPLAY_ROTATE_RIGHT and SPLAY_ROTATE_LEFT
    method RotateRight(tmp: Ptr)
      requires 0 < root < |cells| && 0 < tmp < |cells|
      modifies this`root, this`cells
      ensures cells == RotateCells(old(cells), old(root), tmp, L) && root == tmp
    {
      cells := cells[Addr(root) := cells[Addr(root)].(left := cells[Addr(tmp)].right)];
      cells := cells[Addr(tmp) := cells[Addr(tmp)].(right := root)];
      root := tmp;
    }

    method RotateLeft(tmp: Ptr)
      requires 0 < root < |cells| && 0 < tmp < |cells|
      modifies this`root, this`cells
      ensures cells == RotateCells(old(cells), old(root), tmp, R) && root == tmp
    {
      cells := cells[Addr(root) := cells[Addr(root)].(right := cells[Addr(tmp)].left)];
      cells := cells[Addr(tmp) := cells[Addr(tmp)].(left := root)];
      root := tmp;
    }

    // SPLAY_LINKLEFT and SPLAY_LINKRIGHT; tmp may be the scratch node.
    method LinkLeft(tmp: Ptr) returns (tmp': Ptr)
      requires 0 < root < |cells| && tmp < |cells|
      modifies this`root, this`cells
      ensures cells == Set(old(cells), tmp, L, old(root)) && tmp' == old(root) && root == cells[old(root)].left
    {
      cells := cells[tmp := cells[tmp].(left := root)];
      tmp' := root;
      root := cells[Addr(root)].left;
    }

    method LinkRight(tmp: Ptr) returns (tmp': Ptr)
      requires 0 < root < |cells| && tmp < |cells|
      modifies this`root, this`cells
      ensures cells == Set(old(cells), tmp, R, old(root)) && tmp' == old(root) && root == cells[old(root)].right
    {
      cells := cells[tmp := cells[tmp].(right := root)];
      tmp' := root;
      root := cells[Addr(root)].right;
    }

    // SPLAY_ASSEMBLE
    method Assemble(left: Ptr, right: Ptr)
      requires 0 < root < |cells| && left < |cells| && right < |cells|
      modifies this`cells
      ensures cells == AssembleCells(old(cells), root, left, right)
    {
      cells := cells[left := cells[left].(right := cells[Addr(root)].left)];
      cells := cells[right := cells[right].(left := cells[Addr(root)].right)];
      cells := cells[Addr(root) := cells[Addr(root)].(left := cells[NULL].right)];
      cells := cells[Addr(root) := cells[Addr(root)].(right := cells[NULL].left)];
    }

    // Lines 215-224: one step to the left, below a root whose left child is tmp. The source
    // knows whether the key is left of tmp too, and then rotates first.
    method TurnLeft(tmp: Ptr, rotate: bool, right: Ptr, ghost key: Ptr -> int, ghost k: int, ghost l: seq<Link>,
                    ghost t: Tree, ghost r: seq<Link>, ghost n: nat, ghost was: Tree, ghost c0: seq<Kids>)
      returns (right': Ptr, stop: bool, ghost t': Tree, ghost r': seq<Link>)
      requires Turning(cells, root, l, t, r, was, c0) && right == End(r)
      requires root < |cells| && tmp == cells[root].left && tmp != NULL
      requires Parted(key, k, l, r) && Sorted(key, InOrder(was)) && k < key(root) && rotate == (k < key(tmp))
      modifies this`root, this`cells
      ensures Turning(cells, root, l, t', r', was, c0) && right' == End(r') && Parted(key, k, l, r')
      ensures t.Node? && t'.Node? && C.Finish(key, k, l, t', r', n + 1) == C.Finish(key, k, l, t, r, n)
      ensures stop ==> Stopped(key, k, t') && k < key(t'.id)
      ensures !stop ==> Size(t') < Size(t)
    {
      assert t.Node? ==> Sub(t, L) == t.left;
      hide *;
      ghost var turned := t;
      TurnLook(cells, root, l, t, r, was, c0);
      TurnsLeft(key, k, l, t, r, n, rotate);
      if rotate {
        TurnRotate(cells, root, l, t, r, was, c0, L);
        RotateRight(tmp);
        turned := Rotate(t, L);
        TurnLook(cells, root, l, turned, r, was, c0);
        if cells[Addr(root)].left == NULL {
          StopsLeft(key, k, turned);
          return right, true, turned, r;
        }
      }
      PartLeft(key, k, l, turned, r);
      TurnLinkLeft(cells, root, l, turned, r, was, c0);
      right' := LinkLeft(right);
      stop, t', r' := false, turned.left, Linked(r, turned, L);
    }

    // Lines 225-234, the mirror image.
    method TurnRight(tmp: Ptr, rotate: bool, left: Ptr, ghost key: Ptr -> int, ghost k: int, ghost l: seq<Link>,
                     ghost t: Tree, ghost r: seq<Link>, ghost n: nat, ghost was: Tree, ghost c0: seq<Kids>)
      returns (left': Ptr, stop: bool, ghost t': Tree, ghost l': seq<Link>)
      requires Turning(cells, root, l, t, r, was, c0) && left == End(l)
      requires root < |cells| && tmp == cells[root].right && tmp != NULL
      requires Parted(key, k, l, r) && Sorted(key, InOrder(was)) && key(root) < k && rotate == (key(tmp) < k)
      modifies this`root, this`cells
      ensures Turning(cells, root, l', t', r, was, c0) && left' == End(l') && Parted(key, k, l', r)
      ensures t.Node? && t'.Node? && C.Finish(key, k, l', t', r, n + 1) == C.Finish(key, k, l, t, r, n)
      ensures stop ==> Stopped(key, k, t') && key(t'.id) < k
      ensures !stop ==> Size(t') < Size(t)
    {
      assert t.Node? ==> Sub(t, R) == t.right;
      hide *;
      ghost var turned := t;
      TurnLook(cells, root, l, t, r, was, c0);
      TurnsRight(key, k, l, t, r, n, rotate);
      if rotate {
        TurnRotate(cells, root, l, t, r, was, c0, R);
        RotateLeft(tmp);
        turned := Rotate(t, R);
        TurnLook(cells, root, l, turned, r, was, c0);
        if cells[Addr(root)].right == NULL {
          StopsRight(key, k, turned);
          return left, true, turned, l;
        }
      }
      PartRight(key, k, l, turned, r);
      TurnLinkRight(cells, root, l, turned, r, was, c0);
      left' := LinkRight(left);
      stop, t', l' := false, turned.right, Linked(l, turned, R);
    }

    // The loop of a splay has ended.
    ghost predicate Searched(key: Ptr -> int, k: int, left: Ptr, right: Ptr, l: seq<Link>, t: Tree, r: seq<Link>,
                             n: nat, was: Tree, c0: seq<Kids>)
      reads this`root, this`cells
    {
      && Turning(cells, root, l, t, r, was, c0) && left == End(l) && right == End(r)
      && Parted(key, k, l, r) && Stopped(key, k, t)
      && was.Node? && C.Outcome(Assembled(l, t, r), n) == C.Splay(key, k, was)
    }

    // Lines 211-236.
    method Search(k: int, key: Ptr -> int)
      returns (left: Ptr, right: Ptr, ghost l: seq<Link>, ghost t: Tree, ghost r: seq<Link>, ghost n: nat)
      requires Valid() && tree.Node? && Sorted(key, InOrder(tree))
      modifies this`root, this`cells
      ensures Searched(key, k, left, right, l, t, r, n, tree, old(cells))
    {
      SplayBegins(cells, root, tree, key, k);
      hide *;
      ghost var c0 := cells;
      cells := cells[NULL := Kids(NULL, NULL)];
      left, right := NULL, NULL;
      l, r, t, n := [], [], tree, 0;
      FinishBegins(key, k, tree);
      var stop := false;
      TurnLook(cells, root, l, t, r, tree, c0);
      while !stop && key(root) != k
        invariant Turning(cells, root, l, t, r, tree, c0) && left == End(l) && right == End(r)
        invariant t.Node? && C.Finish(key, k, l, t, r, n) == C.Splay(key, k, tree)
        invariant Parted(key, k, l, r) && (stop ==> Stopped(key, k, t)) && root < |cells|
        decreases !stop, Size(t)
      {
        TurnLook(cells, root, l, t, r, tree, c0);
        if k < key(root) {
          var tmp := cells[Addr(root)].left;
          if tmp == NULL {
            StopsLeft(key, k, t);
            stop := true;
          } else {
            right, stop, t, r := TurnLeft(tmp, k < key(tmp), right, key, k, l, t, r, n, tree, c0);
            n := n + 1;
          }
        } else {
          var tmp := cells[Addr(root)].right;
          if tmp == NULL {
            StopsRight(key, k, t);
            stop := true;
          } else {
            left, stop, t, l := TurnRight(tmp, key(tmp) < k, left, key, k, l, t, r, n, tree, c0);
            n := n + 1;
          }
        }
        TurnLook(cells, root, l, t, r, tree, c0);
      }
      if !stop {
        TurnLook(cells, root, l, t, r, tree, c0);
        StopsAt(key, k, t);
      }
      FinishEnds(key, k, l, t, r, n);
    }

    // name##_SPLAY: no node is lost, their order stays, and the root ends up near the key.
    // Cells of other nodes are not touched. Which tree comes out, and after how many turns, is
    // given by the function of the same name.
    method Splay(k: int, key: Ptr -> int) returns (ghost turns: nat)
      requires Valid() && tree.Node? && Sorted(key, InOrder(tree))
      modifies this
      ensures Valid() && InOrder(tree) == old(InOrder(tree)) && Ids(tree) == old(Ids(tree)) && Near(key, tree, k)
      ensures Same(old(cells), cells, Ids(tree) + {NULL})
      ensures old(tree).Node? && C.Outcome(tree, turns) == C.Splay(key, k, old(tree))
    {
      ghost var was, c0 := tree, cells;
      ghost var l, t, r;
      var left, right;
      left, right, l, t, r, turns := Search(k, key);
      SplayEnds(cells, root, l, t, r, was, c0, key, k);
      hide C.Splay, Assembled, ChainTree, RepChain, Apart, DistinctChain, ChainIds, ChainOrder, Full;
      Assemble(left, right);
      tree := Assembled(l, t, r);
    }

    // Lines 247-272.
    method SearchMinMax(comp: int, ghost key: Ptr -> int, ghost k: int)
      returns (left: Ptr, right: Ptr, ghost l: seq<Link>, ghost t: Tree, ghost r: seq<Link>, ghost n: nat)
      requires Valid() && tree.Node? && comp != 0 && Sorted(key, InOrder(tree)) && k == Beyond(key, tree, comp)
      modifies this`root, this`cells
      ensures Searched(key, k, left, right, l, t, r, n, tree, old(cells))
    {
      SplayBegins(cells, root, tree, key, k);
      hide *;
      ghost var c0 := cells;
      cells := cells[NULL := Kids(NULL, NULL)];
      left, right := NULL, NULL;
      l, r, t, n := [], [], tree, 0;
      FinishBegins(key, k, tree);
      var stop := false;
      while !stop
        invariant Turning(cells, root, l, t, r, tree, c0) && left == End(l) && right == End(r)
        invariant t.Node? && C.Finish(key, k, l, t, r, n) == C.Splay(key, k, tree)
        invariant Parted(key, k, l, r) && (stop ==> Stopped(key, k, t))
        decreases !stop, Size(t)
      {
        TurnLook(cells, root, l, t, r, tree, c0);
        AllBeyond(cells, root, l, t, r, tree, c0, key, comp, k);
        if comp < 0 {
          var tmp := cells[Addr(root)].left;
          if tmp == NULL {
            StopsLeft(key, k, t);
            stop := true;
          } else {
            right, stop, t, r := TurnLeft(tmp, comp < 0, right, key, k, l, t, r, n, tree, c0);
            n := n + 1;
          }
        } else {
          var tmp := cells[Addr(root)].right;
          if tmp == NULL {
            StopsRight(key, k, t);
            stop := true;
          } else {
            left, stop, t, l := TurnRight(tmp, comp > 0, left, key, k, l, t, r, n, tree, c0);
            n := n + 1;
          }
        }
      }
      FinishEnds(key, k, l, t, r, n);
    }

    // name##_SPLAY_MINMAX: the root becomes the first node for comp < 0, the last for comp > 0.
    method SplayMinMax(comp: int, ghost key: Ptr -> int) returns (ghost turns: nat)
      requires Valid() && tree.Node? && comp != 0 && Sorted(key, InOrder(tree))
      modifies this
      ensures Valid() && InOrder(tree) == old(InOrder(tree)) && tree.Node?
      ensures if comp < 0 then tree.left == Leaf else tree.right == Leaf
      ensures old(tree).Node? && C.Outcome(tree, turns) == C.Splay(key, Beyond(key, old(tree), comp), old(tree))
    {
      ghost var was, c0, k := tree, cells, Beyond(key, tree, comp);
      ghost var l, t, r;
      var left, right;
      left, right, l, t, r, turns := SearchMinMax(comp, key, k);
      SplayEnds(cells, root, l, t, r, was, c0, key, k);
      hide C.Splay, Assembled, ChainTree, RepChain, Apart, DistinctChain, ChainIds, ChainOrder, Full;
      Assemble(left, right);
      tree := Assembled(l, t, r);
      NearEnd(key, tree, was, comp, k);
    }

    // name##_SPLAY_FIND
    method Find(k: int, key: Ptr -> int) returns (res: Ptr, ghost turns: nat)
      requires Valid() && Sorted(key, InOrder(tree))
      modifies this
      ensures Valid() && InOrder(tree) == old(InOrder(tree))
      ensures res != NULL ==> res in Ids(tree) && key(res) == k
      ensures res == NULL ==> forall x :: x in InOrder(tree) ==> key(x) != k
      ensures C.Outcome(tree, turns) == C.Find(key, k, old(tree))
    {
      res, turns := NULL, 0;
      if root == NULL {
        return;
      }
      turns := Splay(k, key);
      NearFinds(key, tree, k);
      if key(root) == k {
        res := root;
      }
    }

    // name##_SPLAY_INSERT
    method Insert(elm: Ptr, key: Ptr -> int) returns (found: Ptr, ghost turns: nat)
      requires Valid() && Sorted(key, InOrder(tree)) && 0 < elm < |cells| && elm !in Ids(tree)
      modifies this
      ensures Valid() && Sorted(key, InOrder(tree))
      ensures found != NULL ==> found in Ids(tree) && key(found) == key(elm) && InOrder(tree) == old(InOrder(tree))
      ensures found == NULL ==> IsInsertion(old(InOrder(tree)), InOrder(tree), elm)
      ensures C.Outcome(tree, turns) == C.Insert(key, elm, old(tree))
    {
      found, turns := NULL, 0;
      if root == NULL {
        cells := cells[Addr(elm) := Kids(NULL, NULL)];
        FirstNode(key, tree, elm);
        tree := Node(Leaf, elm, Leaf);
      } else {
        turns := Splay(key(elm), key);
        RootIn(cells, root, tree);
        ghost var c, t := cells, tree;
        if key(elm) < key(root) {
          cells := cells[Addr(elm) := Kids(cells[Addr(root)].left, root)];
          cells := cells[Addr(root) := cells[Addr(root)].(left := NULL)];
          InsertedOk(c, cells, t, elm, true, key);
        } else if key(elm) > key(root) {
          cells := cells[Addr(elm) := Kids(root, cells[Addr(root)].right)];
          cells := cells[Addr(root) := cells[Addr(root)].(right := NULL)];
          InsertedOk(c, cells, t, elm, false, key);
        } else {
          found := root;
          return;
        }
        tree := C.Inserted(t, elm, key(elm) < key(t.id));
      }
      root := elm;
    }

    // Lines 195-198, below a root that is about to leave. The left subtree, splayed with the
    // root's key, ends in its new root, so the link overwritten at line 198 is null.
    method JoinSubtrees(k: int, key: Ptr -> int) returns (ghost turns: nat)
      requires Valid() && tree.Node? && tree.left.Node? && Sorted(key, InOrder(tree))
      requires key(tree.id) == k && Near(key, tree, k)
      modifies this
      ensures Valid() && |cells| == old(|cells|) && IsInsertion(InOrder(tree), old(InOrder(tree)), old(tree.id))
      ensures forall n: nat :: C.Outcome(tree, n + turns) == C.Cropped(key, k, C.Outcome(old(tree), n))
    {
      ghost var t, c := tree, cells;
      RootIn(c, root, t);
      RootIn(c, c[root].left, t.left);
      var tmp := cells[Addr(root)].right;
      root := cells[Addr(root)].left;
      tree := t.left;
      LeftPart(key, t);
      turns := Splay(k, key);
      LeftEnds(key, t, tree, k);
      ghost var c1, t1 := cells, tree;
      RootIn(c1, root, t1);
      cells := cells[Addr(root) := cells[Addr(root)].(right := tmp)];
      tree := t1.(right := t.right);
      RemovedOk(c, c1, cells, t, t1, tmp);
    }

    // name##_SPLAY_REMOVE: takes out the node with the key of elm, if there is one. The
    // result is elm itself, which need not be the node taken out.
    method Remove(elm: Ptr, key: Ptr -> int) returns (res: Ptr, ghost gone: Ptr, ghost turns: nat)
      requires Valid() && Sorted(key, InOrder(tree)) && elm != NULL
      modifies this
      ensures Valid() && |cells| == old(|cells|)
      ensures res == NULL ==>
        InOrder(tree) == old(InOrder(tree)) && forall x :: x in InOrder(tree) ==> key(x) != key(elm)
      ensures res != NULL ==>
        res == elm && key(gone) == key(elm) && IsInsertion(InOrder(tree), old(InOrder(tree)), gone)
      ensures C.Outcome(tree, turns) == C.Remove(key, key(elm), old(tree))
    {
      res, gone, turns := NULL, NULL, 0;
      if root == NULL {
        return;
      }
      turns := Splay(key(elm), key);
      NearFinds(key, tree, key(elm));
      RootIn(cells, root, tree);
      if key(root) == key(elm) {
        gone := root;
        RootIn(cells, cells[Addr(root)].left, tree.left);
        if cells[Addr(root)].left == NULL {
          RemovedAlone(tree);
          root := cells[Addr(root)].right;
          tree := tree.right;
        } else {
          ghost var more := JoinSubtrees(key(elm), key);
          turns := turns + more;
        }
        res := elm;
      }
    }
  }
}
