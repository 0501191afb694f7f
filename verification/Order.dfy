/** Rows of nodes in key order, as the search trees keep them. */
module Order {

  // The nodes are in strictly increasing key order.
  ghost predicate Sorted(key: nat -> int, xs: seq<nat>) {
    forall i, j :: 0 <= i < j < |xs| ==> key(xs[i]) < key(xs[j])
  }

  ghost predicate AllBelow(key: nat -> int, xs: seq<nat>, k: int) {
    forall i :: 0 <= i < |xs| ==> key(xs[i]) < k
  }

  ghost predicate AllAbove(key: nat -> int, xs: seq<nat>, k: int) {
    forall i :: 0 <= i < |xs| ==> k < key(xs[i])
  }

  lemma {:induction false} SortedParts(key: nat -> int, xs: seq<nat>, x: nat, ys: seq<nat>, all: seq<nat>, a: seq<nat>,
                                       b: seq<nat>)
    requires Sorted(key, all) && all == a + (xs + [x] + ys) + b
    ensures AllBelow(key, xs, key(x)) && AllAbove(key, ys, key(x))
  {
    forall i | 0 <= i < |xs| ensures key(xs[i]) < key(x) {
      assert all[|a| + i] == xs[i] && all[|a| + |xs|] == x;
    }
    forall i | 0 <= i < |ys| ensures key(x) < key(ys[i]) {
      assert all[|a| + |xs| + 1 + i] == ys[i] && all[|a| + |xs|] == x;
    }
  }

  // ys is xs with x put in somewhere.
  ghost predicate IsInsertion(xs: seq<nat>, ys: seq<nat>, x: nat) {
    exists i :: 0 <= i <= |xs| && ys == xs[..i] + [x] + xs[i..]
  }

  lemma {:induction false} SortedInsertion(key: nat -> int, xs: seq<nat>, i: nat, x: nat)
    requires Sorted(key, xs) && i <= |xs| && AllBelow(key, xs[..i], key(x)) && AllAbove(key, xs[i..], key(x))
    ensures Sorted(key, xs[..i] + [x] + xs[i..]) && IsInsertion(xs, xs[..i] + [x] + xs[i..], x)
  {
    assert forall j :: 0 <= j < i ==> xs[j] == xs[..i][j];
    assert forall j :: i <= j < |xs| ==> xs[j] == xs[i..][j - i];
  }
}
