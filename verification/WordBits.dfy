/** The standard's operations on 32-bit vectors, for evaluating an example. */
module WordBits {
  import opened Arith
  import opened Bits
  import opened Fips180

  function Half(v: bv32): bv32 { v >> 1 }

  function Bit(v: bv32): (b: nat)
    ensures b <= 1
  {
    if v & 1 == 1 then 1 else 0
  }

  function AndB(x: bv32, y: bv32): bv32 { x & y }

  function XorB(x: bv32, y: bv32): bv32 { x ^ y }

  /** The number in the low `k` bits. */
  function Low(v: bv32, k: nat): nat
    decreases k
  {
    if k == 0 then 0 else Bit(v) + 2 * Low(Half(v), k - 1)
  }

  lemma {:induction false} LowBound(v: bv32, k: nat)
    ensures Low(v, k) < Pow2(k)
    decreases k
  {
    hide Half;
    if k > 0 { LowBound(Half(v), k - 1); }
  }

  function Num(v: bv32): Word {
    LowBound(v, 32);
    Pow2Values();
    Low(v, 32)
  }

  // ---- reading a literal ----

  function Four(v: bv32): nat {
    (if v & 1 == 1 then 1 else 0) + (if v & 2 == 2 then 2 else 0) + (if v & 4 == 4 then 4 else 0) + (if v & 8 == 8 then 8 else 0)
  }

  function Next(v: bv32): bv32 { v >> 4 }

  lemma Steps(v: bv32)
    ensures Next(v) == Half(Half(Half(Half(v))))
    ensures Four(v) == Bit(v) + 2 * Bit(Half(v)) + 4 * Bit(Half(Half(v))) + 8 * Bit(Half(Half(Half(v))))
  {
  }

  lemma LowFour(v: bv32, k: nat)
    ensures Low(v, k + 4) == Four(v) + 16 * Low(Next(v), k)
  {
    hide Half, Bit, Four, Next;
    Steps(v);
    assert Low(v, k + 4) == Bit(v) + 2 * Low(Half(v), k + 3);
    assert Low(Half(v), k + 3) == Bit(Half(v)) + 2 * Low(Half(Half(v)), k + 2);
    assert Low(Half(Half(v)), k + 2) == Bit(Half(Half(v))) + 2 * Low(Half(Half(Half(v))), k + 1);
  }

  lemma LowNone(v: bv32)
    ensures Low(v, 0) == 0
  {
  }

  function Eight(v: bv32): nat { Four(v) + 0x10 * Four(Next(v)) }

  function Value(v: bv32): nat {
    var a, b, c := Next(Next(v)), Next(Next(Next(Next(v)))), Next(Next(Next(Next(Next(Next(v))))));
    Eight(v) + 0x100 * Eight(a) + 0x1_0000 * Eight(b) + 0x100_0000 * Eight(c)
  }

  lemma LowEight(v: bv32, k: nat)
    ensures Low(v, k + 8) == Eight(v) + 256 * Low(Next(Next(v)), k)
  {
    hide Low, Four, Next;
    LowFour(v, k + 4);
    LowFour(Next(v), k);
  }

  lemma Reads(v: bv32)
    ensures Num(v) == Value(v)
  {
    hide Low, Eight, Next;
    var a, b, c := Next(Next(v)), Next(Next(Next(Next(v)))), Next(Next(Next(Next(Next(Next(v))))));
    LowEight(v, 24);
    LowEight(a, 16);
    LowEight(b, 8);
    LowEight(c, 0);
    LowNone(Next(Next(c)));
  }

  /** The number of a literal, read off its bits. */
  lemma Is(v: bv32, n: nat)
    requires Value(v) == n
    ensures Num(v) == n
  {
    hide Value, Num;
    Reads(v);
  }

  // ---- the bitwise operations ----

  lemma OneBit(p: nat, q: nat)
    requires p <= 1 && q <= 1
    ensures And(p, q) == (if p == 1 && q == 1 then 1 else 0) && Xor(p, q) == (if p != q then 1 else 0)
  {
    assert And(0, 0) == Xor(0, 0) == 0;
  }

  lemma AndByHalves(a: nat, p: nat, b: nat, q: nat)
    requires p <= 1 && q <= 1
    ensures And(p + 2 * a, q + 2 * b) == And(p, q) + 2 * And(a, b)
  {
    var m, n := p + 2 * a, q + 2 * b;
    assert m / 2 == a && n / 2 == b && m % 2 == p && n % 2 == q;
    OneBit(p, q);
  }

  lemma AndHalves(x: bv32, y: bv32)
    ensures Half(AndB(x, y)) == AndB(Half(x), Half(y)) && Bit(AndB(x, y)) == And(Bit(x), Bit(y))
  {
    hide And, Xor;
    OneBit(Bit(x), Bit(y));
  }

  lemma {:induction false} AndLow(x: bv32, y: bv32, k: nat)
    ensures And(Low(x, k), Low(y, k)) == Low(AndB(x, y), k)
    decreases k
  {
    hide Half, Bit, AndB, And;
    if k == 0 {
      OneBit(0, 0);
    } else {
      AndLow(Half(x), Half(y), k - 1);
      AndHalves(x, y);
      AndByHalves(Low(Half(x), k - 1), Bit(x), Low(Half(y), k - 1), Bit(y));
    }
  }

  lemma XorByHalves(a: nat, p: nat, b: nat, q: nat)
    requires p <= 1 && q <= 1
    ensures Xor(p + 2 * a, q + 2 * b) == Xor(p, q) + 2 * Xor(a, b)
  {
    var m, n := p + 2 * a, q + 2 * b;
    assert m / 2 == a && n / 2 == b && m % 2 == p && n % 2 == q;
    OneBit(p, q);
  }

  lemma XorHalves(x: bv32, y: bv32)
    ensures Half(XorB(x, y)) == XorB(Half(x), Half(y)) && Bit(XorB(x, y)) == Xor(Bit(x), Bit(y))
  {
    hide And, Xor;
    OneBit(Bit(x), Bit(y));
  }

  lemma {:induction false} XorLow(x: bv32, y: bv32, k: nat)
    ensures Xor(Low(x, k), Low(y, k)) == Low(XorB(x, y), k)
    decreases k
  {
    hide Half, Bit, XorB, Xor;
    if k == 0 {
      OneBit(0, 0);
    } else {
      XorLow(Half(x), Half(y), k - 1);
      XorHalves(x, y);
      XorByHalves(Low(Half(x), k - 1), Bit(x), Low(Half(y), k - 1), Bit(y));
    }
  }

  // ---- shifts ----

  function Down(v: bv32, n: nat): bv32
    decreases n
  {
    if n == 0 then v else Down(Half(v), n - 1)
  }

  lemma Twice(p: nat, l: nat)
    ensures 2 * (p * l) == (2 * p) * l
  {
  }

  lemma {:induction false} Cut(v: bv32, n: nat, j: nat)
    ensures Low(v, n + j) == Low(v, n) + Pow2(n) * Low(Down(v, n), j)
    decreases n
  {
    hide Half, Bit;
    if n > 0 {
      Cut(Half(v), n - 1, j);
      Twice(Pow2(n - 1), Low(Down(v, n), j));
    }
  }

  /** All of the low `k` bits are ones. */
  predicate Ones(m: bv32, k: nat)
    decreases k
  {
    k == 0 || (Bit(m) == 1 && Ones(Half(m), k - 1))
  }

  /** Equal where the mask has ones. */
  predicate Alike(x: bv32, y: bv32, m: bv32) { (x ^ y) & m == 0 }

  lemma AlikeHalves(x: bv32, y: bv32, m: bv32)
    requires Alike(x, y, m)
    ensures Alike(Half(x), Half(y), Half(m)) && (Bit(m) == 1 ==> Bit(x) == Bit(y))
  {
  }

  lemma {:induction false} SameLow(x: bv32, y: bv32, m: bv32, k: nat)
    requires Ones(m, k) && Alike(x, y, m)
    ensures Low(x, k) == Low(y, k)
    decreases k
  {
    hide Half, Bit, Alike;
    if k > 0 {
      AlikeHalves(x, y, m);
      SameLow(Half(x), Half(y), Half(m), k - 1);
    }
  }

  lemma RotrIs(x: Word, n: nat, lo: nat, hi: nat)
    requires 0 < n < 32 && x == lo + Pow2(n) * hi && lo < Pow2(n) && hi < Pow2(32 - n)
    ensures Shr(x, n) == hi && Rotr(x, n) == hi + Pow2(32 - n) * lo
  {
    hide Pow2, Or;
    Pow2Values();
    var p, q := Pow2(n), Pow2(32 - n);
    Pow2Add(n, 32 - n);
    DivModUnique(x, p, hi, lo);
    Shifted(x, p, q, lo, hi);
    OrDisjoint(lo, hi, 32 - n);
    OrSwap(hi, lo * q);
  }

  lemma Shifted(x: nat, p: nat, q: nat, lo: nat, hi: nat)
    requires q > 0 && x == lo + p * hi && lo < p
    ensures p * q > 0 && x * q % (p * q) == lo * q
  {
    MulMono(lo + 1, p, q);
    assert (lo + 1) * q == lo * q + q;
    assert (p * hi) * q == (p * q) * hi;
    assert x * q == lo * q + (p * hi) * q;
    DivModUnique(x * q, p * q, hi, lo * q);
  }

  lemma {:induction false} OrSwap(x: nat, y: nat)
    ensures Or(x, y) == Or(y, x)
    decreases x + y
  {
    if x > 0 || y > 0 { OrSwap(x / 2, y / 2); }
  }

  lemma Pow2Top()
    ensures Pow2(31) == 0x8000_0000 && Pow2(32) == 0x1_0000_0000 && Pow2(1) == 2
  {
    Pow2Values();
    assert Pow2(32) == 2 * Pow2(31) && Pow2(1) == 2 * Pow2(0);
  }

  lemma NumIs(v: bv32)
    ensures Num(v) == Low(v, 32) && Low(v, 1) == Bit(v)
  {
    LowNone(Half(v));
  }

  lemma TopBit(v: bv32)
    ensures Num(v) == Low(v, 31) + 0x8000_0000 * Bit(Down(v, 31)) && Low(v, 31) < 0x8000_0000
  {
    hide Bit, Half, Down, Low, Num, Pow2;
    Pow2Top();
    NumIs(v);
    NumIs(Down(v, 31));
    Cut(v, 31, 1);
    LowBound(v, 31);
  }

  function Spin(v: bv32): bv32 { (v >> 1) | (v << 31) }

  lemma SpinBits(v: bv32)
    ensures Alike(Spin(v), Half(v), 0x7FFF_FFFF)
  {
  }

  lemma SpinTop(v: bv32)
    ensures Bit(Down(Spin(v), 31)) == Bit(v)
  {
    var w := Spin(v);
    hide Down;
    DownTop(w);
  }

  lemma DownNext(v: bv32, k: nat)
    ensures Down(v, k + 4) == Down(Next(v), k)
  {
    hide Half, Next, Bit, Four;
    Steps(v);
    assert Down(v, k + 4) == Down(Half(v), k + 3);
    assert Down(Half(v), k + 3) == Down(Half(Half(v)), k + 2);
  }

  lemma DownTop(v: bv32)
    ensures Down(v, 31) == v >> 31
  {
    hide Half, Next, Down;
    DownNext(v, 27);
    DownNext(Next(v), 23);
    DownNext(Next(Next(v)), 19);
    var w := Next(Next(Next(v)));
    DownNext(w, 15);
    DownNext(Next(w), 11);
    DownNext(Next(Next(w)), 7);
    var u := Next(Next(Next(w)));
    DownNext(u, 3);
    DownThree(Next(u));
    HalvesTop(v);
  }

  lemma DownThree(v: bv32)
    ensures Down(v, 3) == Half(Half(Half(v)))
  {
    hide Half;
    assert Down(v, 3) == Down(Half(v), 2) == Down(Half(Half(v)), 1);
  }

  lemma HalvesTop(v: bv32)
    ensures Half(Half(Half(Next(Next(Next(Next(Next(Next(Next(v)))))))))) == v >> 31
  {
  }

  lemma SpinNum(v: bv32)
    ensures Num(Spin(v)) == Rotr(Num(v), 1)
  {
    hide Bit, Half, Down, Low, Num, Pow2, Alike, Spin, Rotr, Shr, Ones;
    OnesTable();
    SpinBits(v);
    SpinTop(v);
    SameLow(Spin(v), Half(v), 0x7FFF_FFFF, 31);
    TopBit(Spin(v));
    NumIs(v);
    LowFirst(v, 31);
    LowBound(Half(v), 31);
    Pow2Top();
    RotrIs(Num(v), 1, Bit(v), Low(Half(v), 31));
  }

  lemma LowFirst(v: bv32, k: nat)
    ensures Low(v, k + 1) == Bit(v) + 2 * Low(Half(v), k)
  {
  }

  /** One more place. */
  lemma RotrNext(x: Word, n: nat)
    requires 0 < n < 31
    ensures Rotr(Rotr(x, n), 1) == Rotr(x, n + 1)
  {
    hide Rotr, Shr, Pow2;
    Pow2Top();
    var p, q := Pow2(n), Pow2(31 - n);
    Pow2Add(n, 31 - n);
    Pow2Add(n, 32 - n);
    Pow2Add(1, 31 - n);
    Pow2Add(1, n);
    var lo, hi := x % p, x / p;
    assert x == lo + p * hi;
    HiBound(x, p, 2 * q, hi);
    var b, h := hi % 2, hi / 2;
    Places(p, q, lo, b, h);
    RotrIs(x, n, lo, hi);
    RotrIs(Rotr(x, n), 1, b, h + q * lo);
    RotrIs(x, n + 1, lo + p * b, h);
  }

  lemma Places(p: nat, q: nat, lo: nat, b: nat, h: nat)
    requires lo < p && b <= 1 && h < q
    ensures 2 * q * lo == 2 * (q * lo) && p * (b + 2 * h) == p * b + (2 * p) * h && q * (lo + p * b) == q * lo + (q * p) * b
    ensures h + q * lo < p * q && q * p == p * q && lo + p * b < 2 * p
  {
    assert p * (b + 2 * h) == p * b + p * (2 * h) && p * (2 * h) == (2 * p) * h;
    assert q * (lo + p * b) == q * lo + q * (p * b) && q * (p * b) == (q * p) * b;
    MulMono(lo + 1, p, q);
    assert (lo + 1) * q == lo * q + q;
    MulMono(b, 1, p);
  }

  lemma HiBound(x: nat, p: nat, q: nat, hi: nat)
    requires p > 0 && p * hi <= x < p * q
    ensures hi < q
  {
    if hi >= q { MulMono(q, hi, p); }
  }

  function Spins(v: bv32, n: nat): bv32
    decreases n
  {
    if n == 0 then v else Spin(Spins(v, n - 1))
  }

  lemma {:induction false} SpinsNum(v: bv32, n: nat)
    requires 0 < n < 32
    ensures Num(Spins(v, n)) == Rotr(Num(v), n)
    decreases n
  {
    hide Spin, Num, Rotr;
    SpinNum(Spins(v, n - 1));
    if n > 1 {
      SpinsNum(v, n - 1);
      RotrNext(Num(v), n - 1);
    }
  }

  // ---- addition ----

  function Maj3(x: bv32, y: bv32, c: bv32): bv32 { (x & y) | (c & (x ^ y)) }

  function Sum3(x: bv32, y: bv32, c: bv32): bv32 { x ^ y ^ c }

  /** The carries of `x + y` follow the rule of written addition; evident for literals. */
  predicate Carries(x: bv32, y: bv32) {
    var c := (x + y) ^ x ^ y;
    c == ((x & y) | (c & (x ^ y))) << 1
  }

  lemma Ripple(x: bv32, y: bv32) returns (c: bv32)
    requires Carries(x, y)
    ensures Sum3(x, y, c) == x + y && Bit(c) == 0 && Alike(Half(c), Maj3(x, y, c), 0x7FFF_FFFF)
  {
    c := (x + y) ^ x ^ y;
    Settled(x, y, c);
    Undone(x + y, x, y);
  }

  lemma Settled(x: bv32, y: bv32, c: bv32)
    requires c == ((x & y) | (c & (x ^ y))) << 1
    ensures Bit(c) == 0 && Alike(Half(c), Maj3(x, y, c), 0x7FFF_FFFF)
  {
  }

  lemma Undone(s: bv32, x: bv32, y: bv32)
    ensures Sum3(x, y, s ^ x ^ y) == s
  {
  }

  lemma SumHalf(x: bv32, y: bv32, c: bv32)
    ensures Half(Sum3(x, y, c)) == Sum3(Half(x), Half(y), Half(c))
  {
  }

  lemma CarryHalf(x: bv32, y: bv32, c: bv32, m: bv32)
    requires Alike(Half(c), Maj3(x, y, c), m)
    ensures Alike(Half(Half(c)), Maj3(Half(x), Half(y), Half(c)), Half(m))
  {
  }

  lemma CarryBit(x: bv32, y: bv32, c: bv32, m: bv32)
    requires Alike(Half(c), Maj3(x, y, c), m) && Bit(m) == 1
    ensures Bit(x) + Bit(y) + Bit(c) == Bit(Sum3(x, y, c)) + 2 * Bit(Half(c))
  {
  }

  lemma AddHalves(x: bv32, y: bv32, c: bv32, m: bv32)
    requires Alike(Half(c), Maj3(x, y, c), m)
    ensures Alike(Half(Half(c)), Maj3(Half(x), Half(y), Half(c)), Half(m))
    ensures Bit(m) == 1 ==> Bit(x) + Bit(y) + Bit(c) == Bit(Sum3(x, y, c)) + 2 * Bit(Half(c))
    ensures Half(Sum3(x, y, c)) == Sum3(Half(x), Half(y), Half(c))
  {
    hide Half, Alike, Maj3, Sum3, Bit;
    SumHalf(x, y, c);
    CarryHalf(x, y, c, m);
    if Bit(m) == 1 { CarryBit(x, y, c, m); }
  }

  lemma {:induction false} AddLow(x: bv32, y: bv32, c: bv32, m: bv32, k: nat)
    requires Ones(m, k) && Alike(Half(c), Maj3(x, y, c), m)
    ensures Low(x, k) + Low(y, k) + Bit(c) == Low(Sum3(x, y, c), k) + Pow2(k) * Bit(Down(c, k))
    ensures Down(Sum3(x, y, c), k) == Sum3(Down(x, k), Down(y, k), Down(c, k))
    decreases k
  {
    hide Half, Alike, Maj3, Sum3, Bit;
    if k > 0 {
      AddHalves(x, y, c, m);
      AddLow(Half(x), Half(y), Half(c), Half(m), k - 1);
      Twice(Pow2(k - 1), Bit(Down(c, k)));
    }
  }

  lemma SumBit(x: bv32, y: bv32, c: bv32)
    ensures Bit(Sum3(x, y, c)) == (Bit(x) + Bit(y) + Bit(c)) % 2
  {
  }

  lemma Summed(x: bv32, y: bv32, c: bv32, s: bv32)
    requires s == Sum3(x, y, c) && Bit(c) == 0 && Alike(Half(c), Maj3(x, y, c), 0x7FFF_FFFF)
    ensures Num(s) == Add(Num(x), Num(y))
  {
    hide Bit, Half, Down, Low, Num, Alike, Sum3, Maj3, Ones, Pow2, Add;
    OnesTable();
    AddLow(x, y, c, 0x7FFF_FFFF, 31);
    SumBit(Down(x, 31), Down(y, 31), Down(c, 31));
    Pow2Top();
    TopBit(x);
    TopBit(y);
    TopBit(s);
    AddTop(Num(x), Num(y), Low(x, 31), Low(y, 31), Low(s, 31), Bit(Down(x, 31)), Bit(Down(y, 31)), Bit(Down(c, 31)));
  }

  lemma AddTop(u: Word, v: Word, x: nat, y: nat, s: nat, p: nat, q: nat, c: nat)
    requires s < 0x8000_0000 && x + y == s + 0x8000_0000 * c && p <= 1 && q <= 1 && c <= 1
    requires u == x + 0x8000_0000 * p && v == y + 0x8000_0000 * q
    ensures Add(u, v) == s + 0x8000_0000 * ((p + q + c) % 2)
  {
    DivModUnique(u + v, 0x1_0000_0000, (p + q + c) / 2, s + 0x8000_0000 * ((p + q + c) % 2));
  }

  function Plus(x: bv32, y: bv32): bv32 { x + y }

  lemma PlusNum(x: bv32, y: bv32)
    requires Carries(x, y)
    ensures Num(Plus(x, y)) == Add(Num(x), Num(y))
  {
    hide Num, Carries, Sum3, Maj3, Add;
    var c := Ripple(x, y);
    Summed(x, y, c, Plus(x, y));
  }

  lemma OnesNext(m: bv32, k: nat, m': bv32)
    requires Ones(m, k) && Half(m') == m && Bit(m') == 1
    ensures Ones(m', k + 1)
  {
  }

  lemma NoOnes()
    ensures Ones(0, 0)
  {
  }

  lemma OnesTable()
    ensures Ones(0x7FFF_FFFF, 31)
  {
    hide Ones;
    NoOnes();
    OnesNext(0x0, 0, 0x1);
    OnesNext(0x1, 1, 0x3);
    OnesNext(0x3, 2, 0x7);
    OnesNext(0x7, 3, 0xF);
    OnesNext(0xF, 4, 0x1F);
    OnesNext(0x1F, 5, 0x3F);
    OnesNext(0x3F, 6, 0x7F);
    OnesNext(0x7F, 7, 0xFF);
    OnesNext(0xFF, 8, 0x1FF);
    OnesNext(0x1FF, 9, 0x3FF);
    OnesNext(0x3FF, 10, 0x7FF);
    OnesNext(0x7FF, 11, 0xFFF);
    OnesNext(0xFFF, 12, 0x1FFF);
    OnesNext(0x1FFF, 13, 0x3FFF);
    OnesNext(0x3FFF, 14, 0x7FFF);
    OnesNext(0x7FFF, 15, 0xFFFF);
    OnesNext(0xFFFF, 16, 0x1FFFF);
    OnesNext(0x1FFFF, 17, 0x3FFFF);
    OnesNext(0x3FFFF, 18, 0x7FFFF);
    OnesNext(0x7FFFF, 19, 0xFFFFF);
    OnesNext(0xFFFFF, 20, 0x1FFFFF);
    OnesNext(0x1FFFFF, 21, 0x3FFFFF);
    OnesNext(0x3FFFFF, 22, 0x7FFFFF);
    OnesNext(0x7FFFFF, 23, 0xFFFFFF);
    OnesNext(0xFFFFFF, 24, 0x1FFFFFF);
    OnesNext(0x1FFFFFF, 25, 0x3FFFFFF);
    OnesNext(0x3FFFFFF, 26, 0x7FFFFFF);
    OnesNext(0x7FFFFFF, 27, 0xFFFFFFF);
    OnesNext(0xFFFFFFF, 28, 0x1FFFFFFF);
    OnesNext(0x1FFFFFFF, 29, 0x3FFFFFFF);
    OnesNext(0x3FFFFFFF, 30, 0x7FFFFFFF);
  }


}
