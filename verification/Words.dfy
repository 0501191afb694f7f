/** 32-bit words, and the rounding to a power of two of src/unix/core.cpp:733-743. */
module Words {
  import opened Arith

  const TOP: bv32 := 0x8000_0000
  const HALF_RANGE := 0x8000_0000
  const RANGE := 0x1_0000_0000

  function Half(b: bv32): bv32 {
    b >> 1
  }

  predicate Odd(b: bv32) {
    b & 1 == 1
  }

  // The number a word stands for.
  function Value(b: bv32): nat
    decreases b
  {
    if b == 0 then 0 else 2 * Value(Half(b)) + if Odd(b) then 1 else 0
  }

  // The word for a number; higher bits are lost.
  function Word(n: nat): bv32 {
    if n == 0 then 0 else Twice(Word(n / 2), n % 2 == 1)
  }

  lemma {:induction false} ValueIs(b: bv32)
    ensures Value(b) == 2 * Value(Half(b)) + if Odd(b) then 1 else 0
  {
    if b == 0 {
      assert Half(b) == 0;
    } else {
      hide Half, Odd;
    }
  }

  predicate AtMost(a: bv32, b: bv32) {
    a <= b
  }

  lemma {:induction false} HalfAtMost(a: bv32, b: bv32)
    requires AtMost(a, b)
    ensures AtMost(Half(a), Half(b))
  {}

  lemma {:induction false} HalfEqual(a: bv32, b: bv32)
    requires Half(a) == Half(b) && AtMost(a, b) && a != b
    ensures Odd(b) && !Odd(a)
  {}

  lemma {:induction false} HalfLess(a: bv32, b: bv32)
    requires AtMost(a, b) && a != b
    ensures b != 0 && Half(b) < b
  {}

  // Words are ordered like their numbers.
  lemma {:induction false} Monotone(a: bv32, b: bv32)
    requires AtMost(a, b)
    ensures a == b || Value(a) < Value(b)
    decreases b
  {
    hide *;
    if a != b {
      ValueIs(a);
      ValueIs(b);
      HalfAtMost(a, b);
      HalfLess(a, b);
      if Half(a) == Half(b) {
        HalfEqual(a, b);
      } else {
        Monotone(Half(a), Half(b));
      }
    }
  }

  lemma {:induction false} SevenHalves(b: bv32)
    requires b & 0x7f == 0
    ensures Value(b) == 128 * Value(b >> 7)
  {
    var b1, b2, b3 := Half(b), Half(Half(b)), Half(Half(Half(b)));
    var b4, b5, b6 := Half(b3), Half(Half(b3)), Half(Half(Half(b3)));
    SevenShifts(b);
    hide *;
    ValueIs(b);
    ValueIs(b1);
    ValueIs(b2);
    ValueIs(b3);
    ValueIs(b4);
    ValueIs(b5);
    ValueIs(b6);
  }

  lemma {:induction false} SevenShifts(b: bv32)
    requires b & 0x7f == 0
    ensures var b3 := Half(Half(Half(b)));
      && !Odd(b) && !Odd(Half(b)) && !Odd(Half(Half(b))) && !Odd(b3)
      && !Odd(Half(b3)) && !Odd(Half(Half(b3))) && !Odd(Half(Half(Half(b3))))
      && Half(Half(Half(Half(b3)))) == b >> 7
  {}

  lemma {:induction false} TopIs()
    ensures Value(TOP) == HALF_RANGE
  {
    SevenHalves(0x8000_0000);
    SevenHalves(0x100_0000);
    SevenHalves(0x2_0000);
    SevenHalves(0x400);
    assert Value(0x8) == 8 by {
      ValueIs(0x8);
      ValueIs(0x4);
      ValueIs(0x2);
      ValueIs(0x1);
    }
  }

  function Twice(h: bv32, odd: bool): bv32 {
    (h << 1) | if odd then 1 else 0
  }

  lemma {:induction false} HalfOfTwice(h: bv32, odd: bool)
    requires !AtMost(TOP, h)
    ensures Half(Twice(h, odd)) == h && (Odd(Twice(h, odd)) <==> odd)
  {}

  lemma {:induction false} WordIs(n: nat)
    requires n < RANGE
    ensures Value(Word(n)) == n
  {
    assert n == 0 ==> Word(n) == 0 && Value(0) == 0;
    assert n > 0 ==> Word(n) == Twice(Word(n / 2), n % 2 == 1);
    assert n / 2 < HALF_RANGE;
    hide *;
    if n > 0 {
      WordIs(n / 2);
      TopIs();
      if AtMost(TOP, Word(n / 2)) {
        Monotone(TOP, Word(n / 2));
      }
      HalfOfTwice(Word(n / 2), n % 2 == 1);
      ValueIs(Word(n));
    }
  }

  // val - 1 with every bit below its top bit set, plus one.
  function Smeared(val: bv32): bv32 {
    var a := val - 1;
    var a1 := a | (a >> 1);
    var a2 := a1 | (a1 >> 2);
    var a4 := a2 | (a2 >> 4);
    var a8 := a4 | (a4 >> 8);
    (a8 | (a8 >> 16)) + 1
  }

  predicate OneBit(r: bv32) {
    r != 0 && r & (r - 1) == 0
  }

  lemma {:induction false} SmearedIs(val: bv32)
    requires val != 0 && AtMost(val, TOP)
    ensures OneBit(Smeared(val)) && AtMost(val, Smeared(val))
  {}

  lemma {:induction false} SmearedHalf(val: bv32)
    requires val != 0 && AtMost(val, TOP)
    ensures !AtMost(val, Half(Smeared(val)))
  {}

  lemma {:induction false} SmearedWraps(val: bv32)
    requires val == 0 || !AtMost(val, TOP)
    ensures Smeared(val) == 0
  {}

  lemma {:induction false} OneBitHalf(r: bv32)
    requires OneBit(r)
    ensures if Odd(r) then Half(r) == 0 else OneBit(Half(r)) && Half(r) < r
  {}

  lemma {:induction false} OneBitIs(r: bv32) returns (j: nat)
    requires OneBit(r)
    ensures Value(r) == Pow2(j)
    decreases r
  {
    OneBitHalf(r);
    ValueIs(r);
    if Odd(r) {
      return 0;
    }
    hide Half, Odd, OneBit;
    var i := OneBitIs(Half(r));
    return i + 1;
  }

  lemma {:induction false} NoneBetween(i: nat, j: nat, n: nat)
    requires Pow2(i) < 2 * n && n <= Pow2(j)
    ensures Pow2(i) <= Pow2(j)
  {
    if i > j {
      Pow2Monotone(j, i - 1);
    } else {
      Pow2Monotone(i, j);
    }
  }

  // The least power of two not below val, as long as that is one a word can hold.
  ghost predicate LeastPower(val: nat, r: nat) {
    (exists i :: r == Pow2(i)) && val <= r && forall j :: val <= Pow2(j) ==> r <= Pow2(j)
  }

  lemma {:induction false} PowerFits(val: nat, r: nat)
    requires LeastPower(val, r) && 0 < val <= HALF_RANGE
    ensures val <= r <= HALF_RANGE
  {
    assert Pow2(7) == 128;
    Pow2Double(7);
    assert Pow2(15) == 2 * Pow2(14);
    Pow2Double(15);
    assert Pow2(31) == 2 * Pow2(30) == HALF_RANGE;
  }

  lemma {:induction false} SmearedLeast(val: nat)
    requires 0 < val <= HALF_RANGE
    ensures LeastPower(val, Value(Smeared(Word(val))))
  {
    var w := Word(val);
    var r := Smeared(w);
    WordIs(val);
    TopIs();
    InRange(w);
    SmearedIs(w);
    SmearedHalf(w);
    hide Smeared, AtMost, OneBit, Word, Value, Half;
    Monotone(w, r);
    Exceeds(w, Half(r));
    ValueIs(r);
    var i := OneBitIs(r);
    forall j | val <= Pow2(j) ensures Value(r) <= Pow2(j) {
      NoneBetween(i, j, val);
    }
  }

  lemma {:induction false} InRange(w: bv32)
    requires 0 < Value(w) <= HALF_RANGE
    ensures w != 0 && AtMost(w, TOP)
  {
    TopIs();
    Exceeds(w, TOP);
  }

  lemma {:induction false} Exceeds(a: bv32, b: bv32)
    ensures AtMost(a, b) <==> Value(a) <= Value(b)
  {
    if AtMost(a, b) {
      Monotone(a, b);
    } else {
      Flip(a, b);
      Monotone(b, a);
      hide Value;
    }
  }

  lemma {:induction false} Flip(a: bv32, b: bv32)
    requires !AtMost(a, b)
    ensures AtMost(b, a) && a != b
  {}

  // next_power_of_two. Beyond the largest power a word holds, and for zero, it wraps to zero.
  method NextPowerOfTwo(val: nat) returns (r: nat)
    requires val < RANGE
    ensures if 0 < val <= HALF_RANGE then LeastPower(val, r) else r == 0
  {
    var v := Word(val);
    ghost var w := v;
    v := v - 1;
    v := v | (v >> 1);
    v := v | (v >> 2);
    v := v | (v >> 4);
    v := v | (v >> 8);
    v := v | (v >> 16);
    v := v + 1;
    assert v == Smeared(w);
    hide *;
    Rounded(val);
    r := Value(v);
  }

  lemma {:induction false} Rounded(val: nat)
    requires val < RANGE
    ensures var r := Value(Smeared(Word(val)));
      if 0 < val <= HALF_RANGE then LeastPower(val, r) else r == 0
  {
    if 0 < val <= HALF_RANGE {
      SmearedLeast(val);
    } else {
      WordIs(val);
      TopIs();
      Exceeds(Word(val), TOP);
      assert val == 0 ==> Word(val) == 0;
      SmearedWraps(Word(val));
      assert Value(0) == 0;
    }
  }
}
