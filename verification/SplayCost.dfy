/** What a splay makes of a tree, and what it costs (include/tree.h:44-47).

The potential of a tree is the sum over its nodes of the logarithm, rounded down, of the size
of the subtree below. A splay may take many turns, but then it lowers the potential.
*/
module SplayCost {
  import opened Arith
  import opened SplayShape

  // The trees a splay leaves left and right of the node it ends at, and the turns it took.
  datatype Cut = Cut(left: Tree, id: Ptr, right: Tree, turns: nat)

  // The key lies on side d of node x.
  predicate Past(key: Ptr -> int, k: int, x: Ptr, d: Dir) {
    if d.L? then k < key(x) else key(x) < k
  }

  // A node linked into the chain of the side it is on: `far` is the subtree it keeps.
  function Attached(c: Cut, id: Ptr, far: Tree, d: Dir): Cut {
    if d.L? then c.(right := Node(c.right, id, far), turns := c.turns + 1)
    else c.(left := Node(far, id, c.left), turns := c.turns + 1)
  }

  // The splay as one function: down side d, with a rotation first when the key is beyond the
  // next node too.
  function Splayed(key: Ptr -> int, k: int, t: Tree): (c: Cut)
    requires t.Node?
    ensures Size(c.left) + Size(c.right) + 1 == Size(t)
    decreases Size(t)
  {
    var d := if k < key(t.id) then L else R;
    if key(t.id) == k || Sub(t, d).Leaf? then Cut(t.left, t.id, t.right, 0)
    else
      var y := Sub(t, d);
      if !Past(key, k, y.id, d) then Attached(Splayed(key, k, y), t.id, Sub(t, Other(d)), d)
      else
        var turned := Rotate(t, d);
        if Sub(y, d).Leaf? then Cut(turned.left, turned.id, turned.right, 1)
        else Attached(Splayed(key, k, Sub(y, d)), y.id, Sub(turned, Other(d)), d)
  }

  function Lg(n: nat): nat {
    if n <= 1 then 0 else 1 + Lg(n / 2)
  }

  lemma {:induction false} LgIs(n: nat)
    requires n > 0
    ensures Pow2(Lg(n)) <= n < 2 * Pow2(Lg(n))
  {
    if n > 1 {
      LgIs(n / 2);
    }
  }

  lemma {:induction false} LgMonotone(m: nat, n: nat)
    requires m <= n
    ensures Lg(m) <= Lg(n)
  {
    if m > 1 {
      LgMonotone(m / 2, n / 2);
    }
  }

  // Of two parts of n, one is less than half as big as the power of two below n.
  lemma {:induction false} LgParts(a: nat, b: nat, n: nat)
    requires a + b < n && b > 0
    ensures Lg(a) < Lg(n) || Lg(b) < Lg(n)
  {
    LgIs(n);
    LgIs(b);
    if a > 0 {
      LgIs(a);
      if Lg(n) <= Lg(a) && Lg(n) <= Lg(b) {
        Pow2Monotone(Lg(n), Lg(a));
        Pow2Monotone(Lg(n), Lg(b));
      }
    }
  }

  function Potential(t: Tree): nat {
    match t
    case Leaf => 0
    case Node(l, _, r) => Potential(l) + Lg(Size(t)) + Potential(r)
  }

  // The tree of the cut in which the splay down side d put the nodes it passed.
  function Passed(c: Cut, d: Dir): Tree {
    if d.L? then c.right else c.left
  }

  // What the splay costs beyond the potential it releases.
  function Excess(key: Ptr -> int, k: int, t: Tree): int
    requires t.Node?
  {
    var c := Splayed(key, k, t);
    c.turns + 2 * (Potential(c.left) + Potential(c.right)) - 2 * Potential(t)
  }

  // The nodes passed on the first side make up a tree of lower rank; then a turn is still paid for.
  predicate Spare(key: Ptr -> int, k: int, t: Tree)
    requires t.Node?
  {
    var d := if k < key(t.id) then L else R;
    key(t.id) == k || Lg(Size(Passed(Splayed(key, k, t), d))) < Lg(Size(t))
  }

  // A turn without a rotation.
  lemma {:induction false} ZigExcess(key: Ptr -> int, k: int, t: Tree, d: Dir)
    requires t.Node? && Past(key, k, t.id, d) && Sub(t, d).Node? && !Past(key, k, Sub(t, d).id, d)
    ensures var g := Lg(Size(Passed(Splayed(key, k, t), d)));
      && Excess(key, k, t) == 1 + Excess(key, k, Sub(t, d)) + 2 * (g - Lg(Size(t)))
      && g <= Lg(Size(t)) && Lg(Size(Sub(t, d))) <= Lg(Size(t))
      && (g == Lg(Size(Sub(t, d))) == Lg(Size(t)) ==> Spare(key, k, Sub(t, d)))
  {
    var c, y := Splayed(key, k, t), Sub(t, d);
    LgMonotone(Size(Passed(c, d)), Size(t));
    LgMonotone(Size(y), Size(t));
    LgParts(Size(Passed(c, Other(d))), Size(Passed(c, d)), Size(t));
    assert Passed(c, Other(d)) == Passed(Splayed(key, k, y), Other(d));
  }

  // What the potential of t consists of, and that of the node rotated below its child.
  lemma {:induction false} RotatedPotential(t: Tree, d: Dir)
    requires t.Node? && Sub(t, d).Node?
    ensures var y, far := Sub(t, d), Sub(t, Other(d));
      var x' := Sub(Rotate(t, d), Other(d));
      && Potential(t) == Potential(Sub(y, d)) + Potential(Sub(y, Other(d))) + Potential(far) + Lg(Size(t)) + Lg(Size(y))
      && Potential(x') == Potential(Sub(y, Other(d))) + Potential(far) + Lg(Size(x'))
      && Size(Sub(y, d)) + Size(x') + 1 == Size(t) && Sub(Rotate(t, d), d) == Sub(y, d)
  {}

  // A turn with a rotation.
  lemma {:induction false} ZigZigExcess(key: Ptr -> int, k: int, t: Tree, d: Dir)
    requires t.Node? && Past(key, k, t.id, d) && Sub(t, d).Node? && Past(key, k, Sub(t, d).id, d)
    requires Sub(Sub(t, d), d).Node?
    ensures var y, z, x' := Sub(t, d), Sub(Sub(t, d), d), Sub(Rotate(t, d), Other(d));
      var g := Lg(Size(Passed(Splayed(key, k, t), d)));
      && Excess(key, k, t) == 1 + Excess(key, k, z) + 2 * (g + Lg(Size(x')) - Lg(Size(t)) - Lg(Size(y)))
      && g <= Lg(Size(t)) && Lg(Size(x')) <= Lg(Size(t)) && Lg(Size(z)) <= Lg(Size(y)) <= Lg(Size(t))
      && (Lg(Size(z)) == Lg(Size(t)) ==> Lg(Size(x')) < Lg(Size(t)))
  {
    var y, z, x' := Sub(t, d), Sub(Sub(t, d), d), Sub(Rotate(t, d), Other(d));
    LgMonotone(Size(Passed(Splayed(key, k, t), d)), Size(t));
    LgMonotone(Size(x'), Size(t));
    LgMonotone(Size(z), Size(y));
    LgMonotone(Size(y), Size(t));
    LgParts(Size(x'), Size(z), Size(t));
    RotatedPotential(t, d);
    assert Splayed(key, k, t) == Attached(Splayed(key, k, z), y.id, x', d);
    hide Splayed, Lg, Rotate;
  }

  // A rotation after which the search is over.
  lemma {:induction false} LastExcess(key: Ptr -> int, k: int, t: Tree, d: Dir)
    requires t.Node? && Past(key, k, t.id, d) && Sub(t, d).Node? && Past(key, k, Sub(t, d).id, d)
    requires Sub(Sub(t, d), d).Leaf?
    ensures Excess(key, k, t) <= 1 && Lg(Size(t)) >= 1
  {
    LgMonotone(Size(Sub(Rotate(t, d), Other(d))), Size(t));
    RotatedPotential(t, d);
    assert Splayed(key, k, t) == Cut(Rotate(t, d).left, Rotate(t, d).id, Rotate(t, d).right, 1);
  }

  lemma {:induction false} ExcessBound(key: Ptr -> int, k: int, t: Tree)
    requires t.Node?
    ensures Excess(key, k, t) <= 3 * Lg(Size(t)) + 1 - if Spare(key, k, t) then 1 else 0
    decreases Size(t)
  {
    var d := if k < key(t.id) then L else R;
    if key(t.id) != k && Sub(t, d).Node? {
      var y := Sub(t, d);
      if !Past(key, k, y.id, d) {
        ExcessBound(key, k, y);
        ZigExcess(key, k, t, d);
      } else if Sub(y, d).Node? {
        ExcessBound(key, k, Sub(y, d));
        ZigZigExcess(key, k, t, d);
      } else {
        LastExcess(key, k, t, d);
      }
      hide Splayed, Excess, Potential, Lg;
    }
  }

  // -- Operations -------------------------------------------------------------------------------

  // A tree, and the turns it took to get to it.
  datatype Outcome = Outcome(tree: Tree, turns: nat)

  function Splay(key: Ptr -> int, k: int, t: Tree): Outcome
    requires t.Node?
  {
    var c := Splayed(key, k, t);
    Outcome(Node(c.left, c.id, c.right), c.turns)
  }

  function Find(key: Ptr -> int, k: int, t: Tree): Outcome {
    if t.Leaf? then Outcome(t, 0) else Splay(key, k, t)
  }

  // The tree with elm as its new root, before or after the old one.
  function Inserted(t: Tree, elm: Ptr, before: bool): Tree
    requires t.Node?
  {
    if before then Node(t.left, elm, Node(Leaf, t.id, t.right)) else Node(Node(t.left, t.id, Leaf), elm, t.right)
  }

  function Insert(key: Ptr -> int, elm: Ptr, t: Tree): Outcome {
    if t.Leaf? then Outcome(Node(Leaf, elm, Leaf), 0)
    else
      var s := Splay(key, key(elm), t);
      if key(elm) == key(s.tree.id) then s else s.(tree := Inserted(s.tree, elm, key(elm) < key(s.tree.id)))
  }

  // The root leaves: its left subtree is splayed once more, and its right link overwritten.
  function Cropped(key: Ptr -> int, k: int, s: Outcome): Outcome
    requires s.tree.Node?
  {
    if s.tree.left.Leaf? then s.(tree := s.tree.right)
    else
      var u := Splay(key, k, s.tree.left);
      Outcome(u.tree.(right := s.tree.right), s.turns + u.turns)
  }

  function Remove(key: Ptr -> int, k: int, t: Tree): Outcome {
    if t.Leaf? then Outcome(t, 0)
    else
      var s := Splay(key, k, t);
      if key(s.tree.id) != k then s else Cropped(key, k, s)
  }

  datatype Op = FindOp(k: int) | InsertOp(elm: Ptr) | RemoveOp(k: int)

  function Do(key: Ptr -> int, t: Tree, op: Op): Outcome {
    match op
    case FindOp(k) => Find(key, k, t)
    case InsertOp(elm) => Insert(key, elm, t)
    case RemoveOp(k) => Remove(key, k, t)
  }

  function DoAll(key: Ptr -> int, t: Tree, ops: seq<Op>): Outcome
    decreases |ops|
  {
    if ops == [] then Outcome(t, 0)
    else
      var a := Do(key, t, ops[0]);
      var b := DoAll(key, a.tree, ops[1..]);
      b.(turns := a.turns + b.turns)
  }

  function Inserts(ops: seq<Op>): nat {
    if ops == [] then 0 else (if ops[0].InsertOp? then 1 else 0) + Inserts(ops[1..])
  }

  // A splay costs the logarithm of the size, beyond what the potential pays.
  lemma {:induction false} SplayPaid(key: Ptr -> int, k: int, t: Tree)
    requires t.Node?
    ensures var r := Splay(key, k, t);
      r.turns + 2 * Potential(r.tree) <= 2 * Potential(t) + 5 * Lg(Size(t)) + 1 && Size(r.tree) == Size(t)
  {
    ExcessBound(key, k, t);
  }

  lemma {:induction false} InsertedPaid(t: Tree, elm: Ptr, before: bool)
    requires t.Node?
    ensures var t' := Inserted(t, elm, before);
      Potential(t') <= Potential(t) + Lg(Size(t')) && Size(t') == Size(t) + 1
  {
    var t' := Inserted(t, elm, before);
    assert Size(Leaf) == 0 && Potential(Leaf) == 0;
    if before {
      LgMonotone(Size(t'.right), Size(t));
      assert Potential(t'.right) == Lg(Size(t'.right)) + Potential(t.right);
    } else {
      LgMonotone(Size(t'.left), Size(t));
      assert Potential(t'.left) == Lg(Size(t'.left)) + Potential(t.left);
    }
    hide Lg;
  }

  lemma {:induction false} CroppedPaid(key: Ptr -> int, k: int, s: Outcome)
    requires s.tree.Node?
    ensures var r := Cropped(key, k, s);
      && r.turns + 2 * Potential(r.tree) <= s.turns + 2 * Potential(s.tree) + 5 * Lg(Size(s.tree)) + 1
      && Size(r.tree) < Size(s.tree)
  {
    if s.tree.left.Node? {
      var r := Cropped(key, k, s);
      SplayPaid(key, k, s.tree.left);
      LgMonotone(Size(s.tree.left), Size(s.tree));
      LgMonotone(Size(r.tree), Size(s.tree));
      hide Splay, Lg;
    }
  }

  lemma {:induction false} FindPaid(key: Ptr -> int, k: int, t: Tree)
    ensures var r := Find(key, k, t);
      r.turns + 2 * Potential(r.tree) <= 2 * Potential(t) + 5 * Lg(Size(t)) + 1 && Size(r.tree) == Size(t)
  {
    hide Splay, Lg, Potential;
    if t.Node? {
      SplayPaid(key, k, t);
    }
  }

  lemma {:induction false} InsertPaid(key: Ptr -> int, elm: Ptr, t: Tree)
    ensures var r := Insert(key, elm, t);
      && r.turns + 2 * Potential(r.tree) <= 2 * Potential(t) + 7 * Lg(Size(t) + 1) + 1
      && Size(r.tree) <= Size(t) + 1
  {
    assert Size(Node(Leaf, elm, Leaf)) == 1 && Potential(Node(Leaf, elm, Leaf)) == Lg(1) == 0;
    hide Splay, Lg, Inserted, Potential, Splayed;
    LgMonotone(Size(t), Size(t) + 1);
    if t.Node? {
      var s := Splay(key, key(elm), t);
      SplayPaid(key, key(elm), t);
      InsertedPaid(s.tree, elm, key(elm) < key(s.tree.id));
    }
  }

  lemma {:induction false} RemovePaid(key: Ptr -> int, k: int, t: Tree)
    ensures var r := Remove(key, k, t);
      && r.turns + 2 * Potential(r.tree) <= 2 * Potential(t) + 10 * Lg(Size(t)) + 2
      && Size(r.tree) <= Size(t)
  {
    hide Splay, Lg, Cropped, Potential;
    if t.Node? {
      SplayPaid(key, k, t);
      CroppedPaid(key, k, Splay(key, k, t));
    }
  }

  lemma {:induction false} OpPaid(key: Ptr -> int, t: Tree, op: Op, n: nat)
    requires Size(t) + (if op.InsertOp? then 1 else 0) <= n
    ensures var r := Do(key, t, op);
      && r.turns + 2 * Potential(r.tree) <= 2 * Potential(t) + 10 * Lg(n) + 2
      && Size(r.tree) <= Size(t) + if op.InsertOp? then 1 else 0
  {
    hide Find, Insert, Remove, Potential, Lg, Size;
    LgMonotone(Size(t), n);
    match op
    case FindOp(k) => FindPaid(key, k, t);
    case InsertOp(elm) =>
      InsertPaid(key, elm, t);
      LgMonotone(Size(t) + 1, n);
    case RemoveOp(k) => RemovePaid(key, k, t);
  }

  // The Balance Theorem: the turns of any sequence of finds, inserts and removes, on a tree
  // that was empty, are of the order of their number times the logarithm of the number of
  // inserts.
  lemma {:induction false} Balance(key: Ptr -> int, t: Tree, ops: seq<Op>, n: nat)
    requires Size(t) + Inserts(ops) <= n
    ensures var r := DoAll(key, t, ops);
      r.turns + 2 * Potential(r.tree) <= 2 * Potential(t) + |ops| * (10 * Lg(n) + 2)
    decreases |ops|
  {
    if ops != [] {
      hide *;
      FirstOp(key, t, ops);
      OpPaid(key, t, ops[0], n);
      Balance(key, Do(key, t, ops[0]).tree, ops[1..], n);
      OneMore(|ops[1..]|, 10 * Lg(n) + 2);
    } else {
      hide Lg;
    }
  }

  lemma {:induction false} FirstOp(key: Ptr -> int, t: Tree, ops: seq<Op>)
    requires ops != []
    ensures var a := Do(key, t, ops[0]);
      var b := DoAll(key, a.tree, ops[1..]);
      DoAll(key, t, ops) == b.(turns := a.turns + b.turns)
    ensures Inserts(ops) == (if ops[0].InsertOp? then 1 else 0) + Inserts(ops[1..])
  {}

  lemma {:induction false} OneMore(m: nat, c: nat)
    ensures (m + 1) * c == m * c + c
  {}

  lemma {:induction false} BalanceFromEmpty(key: Ptr -> int, ops: seq<Op>)
    ensures DoAll(key, Leaf, ops).turns <= |ops| * (10 * Lg(Inserts(ops)) + 2)
  {
    Balance(key, Leaf, ops, Inserts(ops));
  }

  // -- The loop ---------------------------------------------------------------------------------------

  // What becomes of the tree t and the chains l and r after n turns.
  function Finish(key: Ptr -> int, k: int, l: seq<Link>, t: Tree, r: seq<Link>, n: nat): Outcome
    requires t.Node?
  {
    var c := Splayed(key, k, t);
    Outcome(Node(ChainTree(l, c.left, R), c.id, ChainTree(r, c.right, L)), n + c.turns)
  }

  lemma {:induction false} LinkedTree(chain: seq<Link>, t: Tree, s: Tree, d: Dir)
    requires t.Node?
    ensures ChainTree(Linked(chain, t, d), s, d) == ChainTree(chain, Join(s, t.id, Sub(t, Other(d)), d), d)
  {
    assert Linked(chain, t, d)[..|chain|] == chain;
  }

  // One turn down side d: the rotation, and the link unless that is the end.
  lemma {:induction false} TurnFinish(key: Ptr -> int, k: int, l: seq<Link>, t: Tree, r: seq<Link>, n: nat, d: Dir)
    requires t.Node? && Past(key, k, t.id, d) && Sub(t, d).Node?
    ensures var rotate := Past(key, k, Sub(t, d).id, d);
      var turned := if rotate then Rotate(t, d) else t;
      var l', r' := if d.L? then l else Linked(l, turned, R), if d.L? then Linked(r, turned, L) else r;
      if rotate && Sub(turned, d).Leaf? then Finish(key, k, l, turned, r, n + 1) == Finish(key, k, l, t, r, n)
      else Sub(turned, d).Node? && Finish(key, k, l', Sub(turned, d), r', n + 1) == Finish(key, k, l, t, r, n)
  {
    var turned := if Past(key, k, Sub(t, d).id, d) then Rotate(t, d) else t;
    if Sub(turned, d).Node? {
      var c := Splayed(key, k, Sub(turned, d));
      if d.L? {
        LinkedTree(r, turned, c.right, L);
      } else {
        LinkedTree(l, turned, c.left, R);
      }
    }
    hide ChainTree;
  }
}
