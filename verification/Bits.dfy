/** Bitwise operations on natural numbers of any width. */
module Bits {
  import opened Arith

  function Pow2(n: nat): (r: nat)
    ensures r > 0
  {
    if n == 0 then 1 else 2 * Pow2(n - 1)
  }

  function And(x: nat, y: nat): nat {
    if x == 0 || y == 0 then 0
    else 2 * And(x / 2, y / 2) + (if x % 2 == 1 && y % 2 == 1 then 1 else 0)
  }

  function Or(x: nat, y: nat): nat
    decreases x + y
  {
    if x == 0 && y == 0 then 0
    else 2 * Or(x / 2, y / 2) + (if x % 2 == 1 || y % 2 == 1 then 1 else 0)
  }

  function Xor(x: nat, y: nat): nat
    decreases x + y
  {
    if x == 0 && y == 0 then 0
    else 2 * Xor(x / 2, y / 2) + (if x % 2 != y % 2 then 1 else 0)
  }

  lemma {:induction false} Pow2Add(m: nat, n: nat)
    ensures Pow2(m + n) == Pow2(m) * Pow2(n)
  {
    if m > 0 { Pow2Add(m - 1, n); }
  }

  lemma Pow2Values()
    ensures Pow2(8) == 0x100 && Pow2(16) == 0x1_0000 && Pow2(24) == 0x100_0000 && Pow2(32) == 0x1_0000_0000
  {
    assert Pow2(4) == 16;
    Pow2Add(4, 4);
    Pow2Add(8, 8);
    Pow2Add(8, 16);
    Pow2Add(16, 16);
  }

  lemma HalvesMod(x: nat, n: nat)
    requires n > 0
    ensures x % Pow2(n) == 2 * (x / 2 % Pow2(n - 1)) + x % 2
  {
    var p := Pow2(n - 1);
    var q, r := x / 2 / p, x / 2 % p;
    assert x == (2 * p) * q + (2 * r + x % 2);
    DivModUnique(x, 2 * p, q, 2 * r + x % 2);
  }

  lemma {:induction false} BelowPow2(x: nat, y: nat, n: nat)
    requires x < Pow2(n) && y < Pow2(n)
    ensures And(x, y) < Pow2(n) && Or(x, y) < Pow2(n) && Xor(x, y) < Pow2(n)
  {
    if n > 0 { BelowPow2(x / 2, y / 2, n - 1); }
  }

  /** Masking with `n` ones is the remainder modulo 2^n. */
  lemma {:induction false} AndOnes(x: nat, n: nat)
    ensures And(x, Pow2(n) - 1) == x % Pow2(n)
  {
    if n > 0 {
      HalvesMod(x, n);
      assert (Pow2(n) - 1) / 2 == Pow2(n - 1) - 1;
      AndOnes(x / 2, n - 1);
    }
  }

  /** Flipping `n` ones is the complement of an `n`-bit number. */
  lemma {:induction false} XorOnes(x: nat, n: nat)
    requires x < Pow2(n)
    ensures Xor(x, Pow2(n) - 1) == Pow2(n) - 1 - x
  {
    if n > 0 {
      assert (Pow2(n) - 1) / 2 == Pow2(n - 1) - 1;
      XorOnes(x / 2, n - 1);
    }
  }

  /** The low `n` bits of a disjunction are the disjunction of the low bits. */
  lemma {:induction false} OrMod(x: nat, y: nat, n: nat)
    ensures Or(x, y) % Pow2(n) == Or(x % Pow2(n), y % Pow2(n))
  {
    if n > 0 {
      OrMod(x / 2, y / 2, n - 1);
      HalvesMod(x, n);
      HalvesMod(y, n);
      HalvesMod(Or(x, y), n);
    }
  }

  /** A disjunction of numbers with no bit in common is their sum. */
  lemma {:induction false} OrDisjoint(x: nat, y: nat, n: nat)
    requires y < Pow2(n)
    ensures Or(x * Pow2(n), y) == x * Pow2(n) + y
  {
    if n > 0 {
      var h := x * Pow2(n - 1);
      assert x * Pow2(n) == 2 * h;
      OrDisjoint(x, y / 2, n - 1);
    } else {
      OrZero(x);
    }
  }

  lemma {:induction false} OrZero(x: nat)
    ensures Or(x, 0) == x
  {
    if x > 0 { OrZero(x / 2); }
  }
}
