/** What a red-black tree is, on value trees: colours, black heights, order.

include/tree.h states the conditions at lines 50-58: equal black counts on every
path, no red node under a red node, and a height of at most 2lg(n+1).
*/
module RedBlack {
  import opened Arith
  import opened LinkedTree

  ghost predicate Red(t: Tree) {
    t.Node? && t.red
  }

  function BlackHeight(t: Tree): nat {
    match t
    case Leaf => 0
    case Node(l, _, red, _) => BlackHeight(l) + if red then 0 else 1
  }

  // No red node has a red child, and all paths down carry the same number of
  // black nodes.
  ghost predicate Balanced(t: Tree) {
    match t
    case Leaf => true
    case Node(l, _, red, r) =>
      && Balanced(l) && Balanced(r) && BlackHeight(l) == BlackHeight(r)
      && (red ==> !Red(l) && !Red(r))
  }

  ghost predicate IsRedBlack(t: Tree) {
    Balanced(t) && !Red(t)
  }

  // A red node directly at this hole would break a rule: it would be a red root
  // or the child of a red node.
  ghost predicate NeedsBlack(c: Ctx) {
    c.Top? || c.red
  }

  // The context keeps the rules if its hole holds a tree of black height h whose
  // root is red only where a red node is allowed.
  ghost predicate CtxBalanced(c: Ctx, h: nat) {
    match c
    case Top => true
    case InLeft(up, _, red, r) =>
      && Balanced(r) && BlackHeight(r) == h
      && (red ==> !Red(r) && !NeedsBlack(up))
      && CtxBalanced(up, h + if red then 0 else 1)
    case InRight(up, l, _, red) =>
      && Balanced(l) && BlackHeight(l) == h
      && (red ==> !Red(l) && !NeedsBlack(up))
      && CtxBalanced(up, h + if red then 0 else 1)
  }

  lemma {:induction false} Unplug(c: Ctx, t: Tree)
    ensures IsRedBlack(Plug(c, t)) <==>
      Balanced(t) && CtxBalanced(c, BlackHeight(t)) && (NeedsBlack(c) ==> !Red(t))
    decreases c
  {
    if !c.Top? {
      Unplug(c.up, Grow(c, t));
    }
  }

  function Size(t: Tree): nat {
    match t
    case Leaf => 0
    case Node(l, _, _, r) => Size(l) + 1 + Size(r)
  }

  lemma {:induction false} SizeAtLeast(t: Tree)
    requires Balanced(t)
    ensures Size(t) + 1 >= Pow2(BlackHeight(t))
    decreases t
  {
    if t.Node? {
      SizeAtLeast(t.left);
      SizeAtLeast(t.right);
    }
  }

  lemma {:induction false} HeightAtMost(t: Tree)
    requires Balanced(t)
    ensures Height(t) <= 2 * BlackHeight(t) + if Red(t) then 1 else 0
    decreases t
  {
    if t.Node? {
      HeightAtMost(t.left);
      HeightAtMost(t.right);
    }
  }

  // The height is at most 2 * log2(Size + 1), written without logarithms.
  lemma {:induction false} HeightBound(t: Tree)
    requires IsRedBlack(t)
    ensures Pow2(Height(t)) <= (Size(t) + 1) * (Size(t) + 1)
  {
    HeightAtMost(t);
    SizeAtLeast(t);
    Pow2Double(BlackHeight(t));
    Pow2Monotone(Height(t), 2 * BlackHeight(t));
    SquareMonotone(Pow2(BlackHeight(t)), Size(t) + 1);
  }
}
