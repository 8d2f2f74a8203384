/** Real powers with natural exponents, and powers of two. */
module Powers {
  import opened Arith
  import opened Bits
  import opened RealMul

  function RPow(x: real, e: nat): real {
    if e == 0 then 1.0 else Mul(x, RPow(x, e - 1))
  }

  function RPow2(n: nat): (r: real)
    ensures r >= 1.0
  {
    Pow2(n) as real
  }

  lemma {:induction false} Pow2Mono(m: nat, n: nat)
    requires m <= n
    ensures Pow2(m) <= Pow2(n) && (m < n ==> Pow2(m) < Pow2(n))
  {
    if m < n { Pow2Mono(m, n - 1); }
  }

  lemma RPow2Add(m: nat, n: nat)
    ensures RPow2(m + n) == Mul(RPow2(m), RPow2(n))
  {
    hide Mul;
    Pow2Add(m, n);
    OfInts(Pow2(m), Pow2(n));
  }

  lemma {:induction false} RPowMono(a: real, b: real, e: nat)
    requires 0.0 <= a <= b
    ensures 0.0 <= RPow(a, e) <= RPow(b, e)
  {
    hide Mul;
    if e > 0 {
      RPowMono(a, b, e - 1);
      Mono2(a, b, RPow(a, e - 1), RPow(b, e - 1));
    }
  }

  lemma {:induction false} RPowStrict(a: real, b: real, e: nat)
    requires 0.0 <= a < b && e > 0
    ensures RPow(a, e) < RPow(b, e)
  {
    hide Mul;
    RPowMono(a, b, e - 1);
    if e == 1 {
      assert RPow(a, 0) == 1.0 == RPow(b, 0);
    } else {
      RPowStrict(a, b, e - 1);
    }
    Mono(a, b, RPow(b, e - 1));
    Mono(RPow(a, e - 1), RPow(b, e - 1), a);
  }

  lemma {:induction false} RPowTimes(a: real, b: real, e: nat)
    ensures RPow(Mul(a, b), e) == Mul(RPow(a, e), RPow(b, e))
  {
    hide Mul;
    if e == 0 {
      Units(1.0);
    } else {
      RPowTimes(a, b, e - 1);
      Swap(a, b, RPow(a, e - 1), RPow(b, e - 1));
    }
  }

  lemma {:induction false} RPowOne(e: nat)
    ensures RPow(1.0, e) == 1.0
  {
    hide Mul;
    if e > 0 {
      RPowOne(e - 1);
      Units(1.0);
    }
  }

  lemma {:induction false} RPowOfPow2(k: nat, e: nat)
    ensures RPow(RPow2(k), e) == RPow2(k * e)
  {
    hide Mul;
    if e > 0 {
      RPowOfPow2(k, e - 1);
      assert k * e == k + k * (e - 1);
      RPow2Add(k, k * (e - 1));
    } else {
      assert k * e == 0;
    }
  }

  /** `x^r * 2^n`: at most one exactly when `n / r` bits do not exceed `-log2 x`. */
  function Excess(x: real, r: nat, n: nat): real { Mul(RPow(x, r), RPow2(n)) }

  lemma ExcessMono(a: real, b: real, r: nat, m: nat, n: nat)
    requires 0.0 <= a <= b && m <= n
    ensures 0.0 <= Excess(a, r, m) <= Excess(b, r, n)
  {
    hide Mul, RPow;
    RPowMono(a, b, r);
    Pow2Mono(m, n);
    Mono2(RPow(a, r), RPow(b, r), RPow2(m), RPow2(n));
  }

  lemma ExcessStrict(a: real, b: real, r: nat, n: nat)
    requires 0.0 <= a < b && r > 0
    ensures Excess(a, r, n) < Excess(b, r, n)
  {
    hide Mul, RPow;
    RPowStrict(a, b, r);
    Mono(RPow(a, r), RPow(b, r), RPow2(n));
  }

  lemma ExcessTimes(x: real, y: real, r: nat, m: nat, n: nat)
    ensures Excess(Mul(x, y), r, m + n) == Mul(Excess(x, r, m), Excess(y, r, n))
  {
    hide Mul, RPow;
    RPowTimes(x, y, r);
    RPow2Add(m, n);
    Swap(RPow(x, r), RPow(y, r), RPow2(m), RPow2(n));
  }

  /** Two factors that cover their credits cover the sum of the credits. */
  lemma ExcessWithinOne(x: real, y: real, r: nat, m: nat, n: nat)
    requires 0.0 <= x && 0.0 <= y && Excess(x, r, m) <= 1.0 && Excess(y, r, n) <= 1.0
    ensures Excess(Mul(x, y), r, m + n) <= 1.0
  {
    hide Mul, Excess;
    ExcessTimes(x, y, r, m, n);
    ExcessMono(x, x, r, m, m);
    ExcessMono(y, y, r, n, n);
    Mono2(Excess(x, r, m), 1.0, Excess(y, r, n), 1.0);
    Units(1.0);
  }

  /** Two factors short of their credits are short of the sum of the credits. */
  lemma ExcessAboveOne(x: real, y: real, r: nat, m: nat, n: nat)
    requires 0.0 <= x && 0.0 <= y && Excess(x, r, m) > 1.0 && Excess(y, r, n) > 1.0
    ensures Excess(Mul(x, y), r, m + n) > 1.0
  {
    hide Mul, Excess;
    ExcessTimes(x, y, r, m, n);
    Mono(1.0, Excess(x, r, m), Excess(y, r, n));
    Units(Excess(y, r, n));
  }

  lemma ExcessOne(r: nat)
    ensures Excess(1.0, r, 0) == 1.0
  {
    RPowOne(r);
  }

  lemma ExcessOfHalves(k: nat, r: nat)
    ensures Excess(1.0 / RPow2(k), r, k * r) == 1.0
  {
    hide Mul, RPow;
    var p := RPow2(k);
    Quotient(1.0, p);
    RPowTimes(1.0 / p, p, r);
    RPowOne(r);
    RPowOfPow2(k, r);
  }

  lemma ExcessDoubles(x: real, r: nat, n: nat)
    ensures Excess(x, r, n + 1) == 2.0 * Excess(x, r, n)
  {
    hide Mul, RPow;
    Distrib(RPow2(n), RPow2(n), RPow(x, r));
  }

  /** What `x^r * 2^n <= 1` says about `n` when `x` is at least, or above, 2^-k. */
  lemma ExcessGap(x: real, k: nat, r: nat, n: nat)
    requires r > 0 && Excess(x, r, n) <= 1.0
    ensures x >= 1.0 / RPow2(k) ==> n <= k * r
    ensures x > 1.0 / RPow2(k) ==> n < k * r
  {
    hide Excess;
    var h := 1.0 / RPow2(k);
    ExcessOfHalves(k, r);
    if x >= h && n > k * r {
      ExcessDoubles(h, r, k * r);
      ExcessMono(h, h, r, k * r + 1, n);
      ExcessMono(h, x, r, n, n);
    }
    if x > h && n == k * r {
      ExcessStrict(h, x, r, n);
    }
  }
}
