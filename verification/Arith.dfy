/** Powers of two, and facts about products that need spelling out. */
module Arith {

  // The values a 64-bit word takes are those below this.
  const WORD: int := 0x1_0000_0000_0000_0000

  function Pow2(n: nat): (p: nat)
    ensures p > 0
  {
    if n == 0 then 1 else 2 * Pow2(n - 1)
  }

  lemma {:induction false} Pow2Double(n: nat)
    ensures Pow2(2 * n) == Pow2(n) * Pow2(n)
  {
    if n > 0 {
      Pow2Double(n - 1);
      assert Pow2(2 * n) == 2 * Pow2(2 * n - 1) == 4 * Pow2(2 * (n - 1));
    }
  }

  lemma {:induction false} Pow2Monotone(m: nat, n: nat)
    requires m <= n
    ensures Pow2(m) <= Pow2(n)
  {
    if m < n {
      Pow2Monotone(m, n - 1);
    }
  }

  lemma {:induction false} SquareMonotone(m: nat, n: nat)
    requires m <= n
    ensures m * m <= n * n
  {
    assert n * n == m * m + (n - m) * (n + m);
  }

  lemma {:induction false} Halve(n: nat, p: nat)
    ensures (n / 2) * (2 * p) <= n * p
  {
    var h := n / 2;
    assert n == 2 * h + n % 2;
    assert h * (2 * p) == (2 * h) * p;
    assert n * p == (2 * h) * p + (n % 2) * p;
  }
}
