/**
  Bitwise operators on natural numbers, defined one binary digit at a time.

  Both sides of the SHA-256 refinement use these operators, so no bit-vector
  reasoning is needed: shifts double and halve, and "or" of two numbers that
  share no digit is their sum.
 */
module Bits {

  type Byte = x: nat | x < 0x100

  /** x times 2^n. */
  function Double(x: nat, n: nat): (r: nat)
    ensures r >= x
  {
    if n == 0 then x else 2 * Double(x, n - 1)
  }

  /** x divided by 2^n, rounding toward minus infinity. */
  function Halve(x: int, n: nat): (r: int)
    ensures x >= 0 ==> 0 <= r <= x
  {
    if n == 0 then x else Halve(x, n - 1) / 2
  }

  function Pow2(n: nat): (r: nat)
    ensures r >= 1
  {
    Double(1, n)
  }

  function And(x: nat, y: nat): nat
  {
    if x == 0 || y == 0 then 0 else 2 * And(x / 2, y / 2) + (x % 2) * (y % 2)
  }

  function Or(x: nat, y: nat): nat
  {
    if x == 0 then y
    else if y == 0 then x
    else 2 * Or(x / 2, y / 2) + (if x % 2 == 1 || y % 2 == 1 then 1 else 0)
  }

  function Xor(x: nat, y: nat): nat
  {
    if x == 0 then y
    else if y == 0 then x
    else 2 * Xor(x / 2, y / 2) + (if x % 2 == y % 2 then 0 else 1)
  }

  lemma {:induction false} OperatorsStayBelow(x: nat, y: nat, n: nat)
    requires x < Pow2(n) && y < Pow2(n)
    ensures And(x, y) < Pow2(n) && Or(x, y) < Pow2(n) && Xor(x, y) < Pow2(n)
    decreases n
  {
    if n > 0 {
      OperatorsStayBelow(x / 2, y / 2, n - 1);
    }
  }

  /** Numbers whose digits do not overlap combine by addition. */
  lemma {:induction false} DisjointOrIsSum(high: nat, low: nat, n: nat)
    requires low < Pow2(n)
    ensures Or(Double(high, n), low) == Double(high, n) + low
    decreases n
  {
    if n > 0 {
      DisjointOrIsSum(high, low / 2, n - 1);
    }
  }

  /** Masking with ones keeps the low digits. */
  lemma {:induction false} LowDigits(high: nat, low: nat, n: nat)
    requires low < Pow2(n)
    ensures And(Double(high, n) + low, Pow2(n) - 1) == low
    decreases n
  {
    if n > 0 {
      LowDigits(high, low / 2, n - 1);
      var x, m := Double(high, n - 1) + low / 2, Pow2(n - 1) - 1;
      assert (Double(high, n) + low) / 2 == x && (Pow2(n) - 1) / 2 == m;
    }
  }

  lemma LowByte(x: nat)
    ensures And(x, 0xff) == x % 0x100
  {
    DoubleValues(x / 0x100);
    DoubleValues(1);
    LowDigits(x / 0x100, x % 0x100, 8);
    hide And;
  }

  lemma {:induction false} DoubleTwice(x: nat, m: nat, n: nat)
    ensures Double(x, m + n) == Double(Double(x, m), n)
    decreases n
  {
    if n > 0 {
      DoubleTwice(x, m, n - 1);
    }
  }

  lemma DoubleValues(x: nat)
    ensures Double(x, 0) == x && Double(x, 4) == 16 * x && Double(x, 8) == 0x100 * x
    ensures Double(x, 16) == 0x1_0000 * x && Double(x, 24) == 0x100_0000 * x
    ensures Double(x, 32) == 0x1_0000_0000 * x
  {
    DoubleEight(x);
    DoubleEight(0x100 * x);
    DoubleEight(0x1_0000 * x);
    DoubleEight(0x100_0000 * x);
    hide Double;
    DoubleTwice(x, 8, 8);
    DoubleTwice(x, 16, 8);
    DoubleTwice(x, 24, 8);
  }

  lemma DoubleEight(x: nat)
    ensures Double(x, 4) == 16 * x && Double(x, 8) == 0x100 * x
  {
    assert Double(x, 1) == 2 * x;
    assert Double(x, 2) == 4 * x;
    assert Double(x, 3) == 8 * x;
    assert Double(x, 5) == 32 * x;
    assert Double(x, 6) == 64 * x;
    assert Double(x, 7) == 128 * x;
  }

  lemma {:induction false} HalveTwice(x: int, m: nat, n: nat)
    ensures Halve(x, m + n) == Halve(Halve(x, m), n)
    decreases n
  {
    if n > 0 {
      HalveTwice(x, m, n - 1);
    }
  }

  lemma HalveValues(x: int)
    ensures Halve(x, 2) == x / 4 && Halve(x, 5) == x / 32 && Halve(x, 8) == x / 0x100
    ensures Halve(x, 9) == x / 0x200 && Halve(x, 16) == x / 0x1_0000 && Halve(x, 24) == x / 0x100_0000
  {
    HalveEight(x);
    HalveEight(x / 0x100);
    HalveEight(x / 0x1_0000);
    hide Halve;
    HalveTwice(x, 8, 8);
    HalveTwice(x, 16, 8);
  }

  lemma HalveEight(x: int)
    ensures Halve(x, 2) == x / 4 && Halve(x, 5) == x / 32
    ensures Halve(x, 8) == x / 0x100 && Halve(x, 9) == x / 0x200
  {
    assert Halve(x, 1) == x / 2;
    assert Halve(x, 3) == x / 8;
    assert Halve(x, 4) == x / 16;
    assert Halve(x, 6) == x / 64;
    assert Halve(x, 7) == x / 128;
  }
}
