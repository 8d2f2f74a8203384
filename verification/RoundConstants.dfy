/** The standard's constants are fractional bits of roots of the first primes, sections 4.2.2 and 5.3.3. */
module RoundConstants {
  import opened Fips180

  predicate Divides(d: nat, n: nat)
    requires d > 0
  {
    n % d == 0
  }

  ghost predicate IsPrime(n: nat) { n >= 2 && forall d: nat :: 2 <= d < n ==> !Divides(d, n) }

  /** `q` is the first prime after `p`. */
  ghost predicate NextPrime(p: nat, q: nat) { p < q && IsPrime(q) && forall n: nat :: p < n < q ==> !IsPrime(n) }

  /** `k` is the first 32 bits of the fraction of the cube root of `p`, whose whole part is `a`. */
  predicate CubeRootBits(p: nat, a: nat, k: Word) {
    var c := a * 0x1_0000_0000 + k;
    c * c * c <= p * 0x1_0000_0000_0000_0000_0000_0000 < (c + 1) * (c + 1) * (c + 1)
  }

  ghost predicate CubeFraction(p: nat, k: Word) { exists a: nat :: CubeRootBits(p, a, k) }

  ghost predicate SquareFraction(p: nat, k: Word) { exists a: nat :: SquareRootBits(p, a, k) }

  predicate SquareRootBits(p: nat, a: nat, k: Word) {
    var c := a * 0x1_0000_0000 + k;
    c * c <= p * 0x1_0000_0000_0000_0000 < (c + 1) * (c + 1)
  }

  // ---- the first primes ----

  function P1(i: nat): nat {
    match i
    case 0 => 2 case 1 => 3 case 2 => 5 case 3 => 7
    case 4 => 11 case 5 => 13 case 6 => 17 case _ => 19
  }

  function P2(i: nat): nat {
    match i
    case 0 => 23 case 1 => 29 case 2 => 31 case 3 => 37
    case 4 => 41 case 5 => 43 case 6 => 47 case _ => 53
  }

  function P3(i: nat): nat {
    match i
    case 0 => 59 case 1 => 61 case 2 => 67 case 3 => 71
    case 4 => 73 case 5 => 79 case 6 => 83 case _ => 89
  }

  function P4(i: nat): nat {
    match i
    case 0 => 97 case 1 => 101 case 2 => 103 case 3 => 107
    case 4 => 109 case 5 => 113 case 6 => 127 case _ => 131
  }

  function P5(i: nat): nat {
    match i
    case 0 => 137 case 1 => 139 case 2 => 149 case 3 => 151
    case 4 => 157 case 5 => 163 case 6 => 167 case _ => 173
  }

  function P6(i: nat): nat {
    match i
    case 0 => 179 case 1 => 181 case 2 => 191 case 3 => 193
    case 4 => 197 case 5 => 199 case 6 => 211 case _ => 223
  }

  function P7(i: nat): nat {
    match i
    case 0 => 227 case 1 => 229 case 2 => 233 case 3 => 239
    case 4 => 241 case 5 => 251 case 6 => 257 case _ => 263
  }

  function P8(i: nat): nat {
    match i
    case 0 => 269 case 1 => 271 case 2 => 277 case 3 => 281
    case 4 => 283 case 5 => 293 case 6 => 307 case _ => 311
  }

  /** The primes in order, from number 0 on. */
  function Prime(t: nat): nat
    requires t < 64
  {
    if t < 8 then P1(t) else if t < 16 then P2(t - 8) else if t < 24 then P3(t - 16) else if t < 32 then P4(t - 24)
    else if t < 40 then P5(t - 32) else if t < 48 then P6(t - 40) else if t < 56 then P7(t - 48) else P8(t - 56)
  }

  /** A composite below 361 has a divisor among the primes up to 17. */
  predicate Sieved(n: nat) {
    (n > 2 && n % 2 == 0) || (n > 3 && n % 3 == 0) || (n > 5 && n % 5 == 0) || (n > 7 && n % 7 == 0)
    || (n > 11 && n % 11 == 0) || (n > 13 && n % 13 == 0) || (n > 17 && n % 17 == 0)
  }

  lemma SieveIsExact(n: nat)
    requires 2 <= n < 361
    ensures IsPrime(n) <==> !Sieved(n)
  {
    if Sieved(n) {
      assert Divides(2, n) || Divides(3, n) || Divides(5, n) || Divides(7, n) || Divides(11, n) || Divides(13, n)
             || Divides(17, n);
    } else {
      forall d: nat | 2 <= d < n
        ensures !Divides(d, n)
      {
        if Divides(d, n) { HasSmallFactor(n, d); }
      }
    }
  }

  lemma HasSmallFactor(n: nat, d: nat)
    requires 2 <= d < n < 361 && Divides(d, n)
    ensures Sieved(n)
  {
    var e := n / d;
    assert n == d * e && e >= 2;
    if e >= 19 { Arith.MulMono(19, e, d); }
    assert d * 19 == 19 * d;
    if d <= 18 {
      SmallFactor(n, d, e);
    } else {
      Arith.MulMono(2, d, e);
      SmallFactor(n, e, d);
    }
  }

  lemma SmallFactor(n: nat, d: nat, e: nat)
    requires 2 <= d <= 18 && d < n && n == d * e
    ensures Sieved(n)
  {
    if d % 2 == 0 { Multiple(n, 2, d / 2, e); }
    else if d % 3 == 0 { Multiple(n, 3, d / 3, e); }
    else if d % 5 == 0 { Multiple(n, 5, d / 5, e); }
    else { Multiple(n, d, 1, e); }
  }

  lemma Multiple(n: nat, q: nat, m: nat, e: nat)
    requires q > 0 && n == q * m * e
    ensures n % q == 0
  {
    assert n == q * (m * e);
    Arith.DivModUnique(n, q, m * e, 0);
  }

  /** Everything between `p` and `q`, at most fourteen apart, is composite. */
  predicate Composites(p: nat, q: nat) {
    q <= p + 14
    && (p + 1 < q ==> Sieved(p + 1)) && (p + 2 < q ==> Sieved(p + 2)) && (p + 3 < q ==> Sieved(p + 3))
    && (p + 4 < q ==> Sieved(p + 4)) && (p + 5 < q ==> Sieved(p + 5)) && (p + 6 < q ==> Sieved(p + 6))
    && (p + 7 < q ==> Sieved(p + 7)) && (p + 8 < q ==> Sieved(p + 8)) && (p + 9 < q ==> Sieved(p + 9))
    && (p + 10 < q ==> Sieved(p + 10)) && (p + 11 < q ==> Sieved(p + 11)) && (p + 12 < q ==> Sieved(p + 12))
    && (p + 13 < q ==> Sieved(p + 13))
  }

  lemma Between(p: nat, q: nat, n: nat)
    requires Composites(p, q) && p < n < q
    ensures Sieved(n)
  {
    hide Sieved;
  }

  lemma After(p: nat, q: nat)
    requires 2 <= p < q < 361 && !Sieved(q) && Composites(p, q)
    ensures NextPrime(p, q)
  {
    SieveIsExact(q);
    forall n: nat | p < n < q
      ensures !IsPrime(n)
    {
      Between(p, q, n);
      SieveIsExact(n);
    }
  }

  lemma Primes1(t: nat)
    requires 0 <= t < 8
    ensures NextPrime(Prime(t), Prime(t + 1))
  {
    hide NextPrime;
    After(2, 3);
    After(3, 5);
    After(5, 7);
    After(7, 11);
    After(11, 13);
    After(13, 17);
    After(17, 19);
    After(19, 23);
  }

  lemma Primes2(t: nat)
    requires 8 <= t < 16
    ensures NextPrime(Prime(t), Prime(t + 1))
  {
    hide NextPrime;
    After(23, 29);
    After(29, 31);
    After(31, 37);
    After(37, 41);
    After(41, 43);
    After(43, 47);
    After(47, 53);
    After(53, 59);
  }

  lemma Primes3(t: nat)
    requires 16 <= t < 24
    ensures NextPrime(Prime(t), Prime(t + 1))
  {
    hide NextPrime;
    After(59, 61);
    After(61, 67);
    After(67, 71);
    After(71, 73);
    After(73, 79);
    After(79, 83);
    After(83, 89);
    After(89, 97);
  }

  lemma Primes4(t: nat)
    requires 24 <= t < 32
    ensures NextPrime(Prime(t), Prime(t + 1))
  {
    hide NextPrime;
    After(97, 101);
    After(101, 103);
    After(103, 107);
    After(107, 109);
    After(109, 113);
    After(113, 127);
    After(127, 131);
    After(131, 137);
  }

  lemma Primes5(t: nat)
    requires 32 <= t < 40
    ensures NextPrime(Prime(t), Prime(t + 1))
  {
    hide NextPrime;
    After(137, 139);
    After(139, 149);
    After(149, 151);
    After(151, 157);
    After(157, 163);
    After(163, 167);
    After(167, 173);
    After(173, 179);
  }

  lemma Primes6(t: nat)
    requires 40 <= t < 48
    ensures NextPrime(Prime(t), Prime(t + 1))
  {
    hide NextPrime;
    After(179, 181);
    After(181, 191);
    After(191, 193);
    After(193, 197);
    After(197, 199);
    After(199, 211);
    After(211, 223);
    After(223, 227);
  }

  lemma Primes7(t: nat)
    requires 48 <= t < 56
    ensures NextPrime(Prime(t), Prime(t + 1))
  {
    hide NextPrime;
    After(227, 229);
    After(229, 233);
    After(233, 239);
    After(239, 241);
    After(241, 251);
    After(251, 257);
    After(257, 263);
    After(263, 269);
  }

  lemma Primes8(t: nat)
    requires 56 <= t < 63
    ensures NextPrime(Prime(t), Prime(t + 1))
  {
    hide NextPrime;
    After(269, 271);
    After(271, 277);
    After(277, 281);
    After(281, 283);
    After(283, 293);
    After(293, 307);
    After(307, 311);
  }

  lemma Cubes1(t: nat)
    requires 0 <= t < 8
    ensures CubeFraction(Prime(t), K(t))
  {
    assert CubeRootBits(2, 1, 0x428a2f98);
    assert CubeRootBits(3, 1, 0x71374491);
    assert CubeRootBits(5, 1, 0xb5c0fbcf);
    assert CubeRootBits(7, 1, 0xe9b5dba5);
    assert CubeRootBits(11, 2, 0x3956c25b);
    assert CubeRootBits(13, 2, 0x59f111f1);
    assert CubeRootBits(17, 2, 0x923f82a4);
    assert CubeRootBits(19, 2, 0xab1c5ed5);
  }

  lemma Cubes2(t: nat)
    requires 8 <= t < 16
    ensures CubeFraction(Prime(t), K(t))
  {
    assert CubeRootBits(23, 2, 0xd807aa98);
    assert CubeRootBits(29, 3, 0x12835b01);
    assert CubeRootBits(31, 3, 0x243185be);
    assert CubeRootBits(37, 3, 0x550c7dc3);
    assert CubeRootBits(41, 3, 0x72be5d74);
    assert CubeRootBits(43, 3, 0x80deb1fe);
    assert CubeRootBits(47, 3, 0x9bdc06a7);
    assert CubeRootBits(53, 3, 0xc19bf174);
  }

  lemma Cubes3(t: nat)
    requires 16 <= t < 24
    ensures CubeFraction(Prime(t), K(t))
  {
    assert CubeRootBits(59, 3, 0xe49b69c1);
    assert CubeRootBits(61, 3, 0xefbe4786);
    assert CubeRootBits(67, 4, 0x0fc19dc6);
    assert CubeRootBits(71, 4, 0x240ca1cc);
    assert CubeRootBits(73, 4, 0x2de92c6f);
    assert CubeRootBits(79, 4, 0x4a7484aa);
    assert CubeRootBits(83, 4, 0x5cb0a9dc);
    assert CubeRootBits(89, 4, 0x76f988da);
  }

  lemma Cubes4(t: nat)
    requires 24 <= t < 32
    ensures CubeFraction(Prime(t), K(t))
  {
    assert CubeRootBits(97, 4, 0x983e5152);
    assert CubeRootBits(101, 4, 0xa831c66d);
    assert CubeRootBits(103, 4, 0xb00327c8);
    assert CubeRootBits(107, 4, 0xbf597fc7);
    assert CubeRootBits(109, 4, 0xc6e00bf3);
    assert CubeRootBits(113, 4, 0xd5a79147);
    assert CubeRootBits(127, 5, 0x06ca6351);
    assert CubeRootBits(131, 5, 0x14292967);
  }

  lemma Cubes5(t: nat)
    requires 32 <= t < 40
    ensures CubeFraction(Prime(t), K(t))
  {
    assert CubeRootBits(137, 5, 0x27b70a85);
    assert CubeRootBits(139, 5, 0x2e1b2138);
    assert CubeRootBits(149, 5, 0x4d2c6dfc);
    assert CubeRootBits(151, 5, 0x53380d13);
    assert CubeRootBits(157, 5, 0x650a7354);
    assert CubeRootBits(163, 5, 0x766a0abb);
    assert CubeRootBits(167, 5, 0x81c2c92e);
    assert CubeRootBits(173, 5, 0x92722c85);
  }

  lemma Cubes6(t: nat)
    requires 40 <= t < 48
    ensures CubeFraction(Prime(t), K(t))
  {
    assert CubeRootBits(179, 5, 0xa2bfe8a1);
    assert CubeRootBits(181, 5, 0xa81a664b);
    assert CubeRootBits(191, 5, 0xc24b8b70);
    assert CubeRootBits(193, 5, 0xc76c51a3);
    assert CubeRootBits(197, 5, 0xd192e819);
    assert CubeRootBits(199, 5, 0xd6990624);
    assert CubeRootBits(211, 5, 0xf40e3585);
    assert CubeRootBits(223, 6, 0x106aa070);
  }

  lemma Cubes7(t: nat)
    requires 48 <= t < 56
    ensures CubeFraction(Prime(t), K(t))
  {
    assert CubeRootBits(227, 6, 0x19a4c116);
    assert CubeRootBits(229, 6, 0x1e376c08);
    assert CubeRootBits(233, 6, 0x2748774c);
    assert CubeRootBits(239, 6, 0x34b0bcb5);
    assert CubeRootBits(241, 6, 0x391c0cb3);
    assert CubeRootBits(251, 6, 0x4ed8aa4a);
    assert CubeRootBits(257, 6, 0x5b9cca4f);
    assert CubeRootBits(263, 6, 0x682e6ff3);
  }

  lemma Cubes8(t: nat)
    requires 56 <= t < 64
    ensures CubeFraction(Prime(t), K(t))
  {
    assert CubeRootBits(269, 6, 0x748f82ee);
    assert CubeRootBits(271, 6, 0x78a5636f);
    assert CubeRootBits(277, 6, 0x84c87814);
    assert CubeRootBits(281, 6, 0x8cc70208);
    assert CubeRootBits(283, 6, 0x90befffa);
    assert CubeRootBits(293, 6, 0xa4506ceb);
    assert CubeRootBits(307, 6, 0xbef9a3f7);
    assert CubeRootBits(311, 6, 0xc67178f2);
  }

  /** `Prime` lists the first 64 primes. */
  lemma PrimesInOrder(t: nat)
    requires t < 64
    ensures Prime(0) == 2 && IsPrime(Prime(0)) && (t + 1 < 64 ==> NextPrime(Prime(t), Prime(t + 1)))
  {
    hide NextPrime;
    SieveIsExact(2);
    if t < 8 {
      Primes1(t);
    } else if t < 16 {
      Primes2(t);
    } else if t < 24 {
      Primes3(t);
    } else if t < 32 {
      Primes4(t);
    } else if t < 40 {
      Primes5(t);
    } else if t < 48 {
      Primes6(t);
    } else if t < 56 {
      Primes7(t);
    } else if t < 63 {
      Primes8(t);
    }
  }

  /** Round constant `t` is the first 32 bits of the fraction of the cube root of prime number `t`. */
  lemma ConstantsAreCubeRoots(t: nat)
    requires t < 64
    ensures CubeFraction(Prime(t), K(t))
  {
    hide CubeFraction, Prime, K;
    if t < 8 {
      Cubes1(t);
    } else if t < 16 {
      Cubes2(t);
    } else if t < 24 {
      Cubes3(t);
    } else if t < 32 {
      Cubes4(t);
    } else if t < 40 {
      Cubes5(t);
    } else if t < 48 {
      Cubes6(t);
    } else if t < 56 {
      Cubes7(t);
    } else if t < 64 {
      Cubes8(t);
    }
  }

  /** The initial hash value, likewise from the square roots of the first eight. */
  lemma InitialValueIsSquareRoots()
    ensures SquareFraction(Prime(0), H0.a) && SquareFraction(Prime(1), H0.b) && SquareFraction(Prime(2), H0.c)
    ensures SquareFraction(Prime(3), H0.d) && SquareFraction(Prime(4), H0.e) && SquareFraction(Prime(5), H0.f)
    ensures SquareFraction(Prime(6), H0.g) && SquareFraction(Prime(7), H0.h)
  {
    assert SquareRootBits(2, 1, 0x6a09e667);
    assert SquareRootBits(3, 1, 0xbb67ae85);
    assert SquareRootBits(5, 2, 0x3c6ef372);
    assert SquareRootBits(7, 2, 0xa54ff53a);
    assert SquareRootBits(11, 3, 0x510e527f);
    assert SquareRootBits(13, 3, 0x9b05688c);
    assert SquareRootBits(17, 4, 0x1f83d9ab);
    assert SquareRootBits(19, 4, 0x5be0cd19);
  }
}
