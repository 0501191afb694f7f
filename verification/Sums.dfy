/** Sums over finite sets, for measures. */
module Sums {

  ghost function Sum<K(!new)>(keys: set<K>, f: K -> nat): nat {
    if keys == {} then 0 else
      var k :| k in keys;
      f(k) + Sum(keys - {k}, f)
  }

  lemma {:induction false} SumSplit<K(!new)>(keys: set<K>, f: K -> nat, k: K)
    requires k in keys
    ensures Sum(keys, f) == f(k) + Sum(keys - {k}, f)
  {
    var j :| j in keys && Sum(keys, f) == f(j) + Sum(keys - {j}, f);
    if j != k {
      SumSplit(keys - {j}, f, k);
      SumSplit(keys - {k}, f, j);
      assert keys - {j} - {k} == keys - {k} - {j};
    }
  }

  lemma {:induction false} SumSame<K(!new)>(keys: set<K>, f: K -> nat, g: K -> nat)
    requires forall k :: k in keys ==> f(k) == g(k)
    ensures Sum(keys, f) == Sum(keys, g)
  {
    if keys != {} {
      var k :| k in keys;
      SumSplit(keys, f, k);
      SumSplit(keys, g, k);
      SumSame(keys - {k}, f, g);
    }
  }

  // One term changes.
  lemma {:induction false} SumChange<K(!new)>(keys: set<K>, f: K -> nat, g: K -> nat, k: K)
    requires k in keys && forall j :: j in keys && j != k ==> f(j) == g(j)
    ensures Sum(keys, f) - f(k) == Sum(keys, g) - g(k)
  {
    SumSplit(keys, f, k);
    SumSplit(keys, g, k);
    SumSame(keys - {k}, f, g);
  }
}
