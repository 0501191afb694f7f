/** Sequences without repeats: what the intrusive queues of the library hold. */
module Seqs {

  ghost predicate NoRepeats<T(!new)>(xs: seq<T>) {
    forall x :: multiset(xs)[x] <= 1
  }

  // xs with x taken out.
  function Without<T(==)>(xs: seq<T>, x: T): seq<T> {
    if xs == [] then []
    else if xs[0] == x then Without(xs[1..], x)
    else [xs[0]] + Without(xs[1..], x)
  }

  lemma {:induction false} WithoutIs<T(!new)>(xs: seq<T>, x: T)
    ensures multiset(Without(xs, x)) == multiset(xs)[x := 0]
    ensures |Without(xs, x)| == |xs| - multiset(xs)[x]
  {
    if xs != [] {
      WithoutIs(xs[1..], x);
      assert xs == [xs[0]] + xs[1..];
    }
  }

  lemma {:induction false} WithoutKeeps<T(!new)>(xs: seq<T>, x: T)
    ensures forall y :: y in Without(xs, x) <==> y in xs && y != x
    ensures NoRepeats(xs) ==> NoRepeats(Without(xs, x))
  {
    WithoutIs(xs, x);
    forall y ensures y in Without(xs, x) <==> y in xs && y != x {
      assert y in Without(xs, x) <==> y in multiset(Without(xs, x));
      assert y in xs <==> y in multiset(xs);
    }
  }

  lemma {:induction false} Joined<T(!new)>(a: seq<T>, b: seq<T>)
    ensures NoRepeats(a + b) <==> NoRepeats(a) && NoRepeats(b) && forall x :: x in a ==> x !in b
  {
    assert forall x :: multiset(a + b)[x] == multiset(a)[x] + multiset(b)[x];
    if NoRepeats(a + b) {
      forall x | x in a ensures x !in b {
        assert x in multiset(a);
        assert x in b ==> x in multiset(b);
      }
      assert forall x :: multiset(a)[x] <= multiset(a + b)[x] && multiset(b)[x] <= multiset(a + b)[x];
    }
    if NoRepeats(a) && NoRepeats(b) && forall x :: x in a ==> x !in b {
      forall x ensures multiset(a + b)[x] <= 1 {
        assert x in a <==> x in multiset(a);
        assert x in b <==> x in multiset(b);
      }
    }
  }

  lemma {:induction false} HeadOut<T(!new)>(xs: seq<T>)
    requires NoRepeats(xs) && xs != []
    ensures NoRepeats(xs[1..]) && xs[0] !in xs[1..] && forall y :: y in xs <==> y == xs[0] || y in xs[1..]
  {
    assert xs == [xs[0]] + xs[1..];
    Joined([xs[0]], xs[1..]);
  }

  lemma {:induction false} TailIn<T(!new)>(xs: seq<T>, x: T)
    requires NoRepeats(xs) && x !in xs
    ensures NoRepeats(xs + [x])
  {
    Joined(xs, [x]);
  }
}
