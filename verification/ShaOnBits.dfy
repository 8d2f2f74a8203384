/** The standard's compression on bit vectors, for evaluating an example. */
module ShaOnBits {
  import opened Arith
  import opened Bits
  import opened Fips180
  import opened WordBits

  // ---- the operations ----

  function Flip(v: bv32): bv32 { XorB(v, 0xFFFF_FFFF) }

  lemma AllOnesNum()
    ensures Num(0xFFFF_FFFF) == 0xFFFF_FFFF
  {
    Reads(0xFFFF_FFFF);
  }

  lemma AndNum(x: bv32, y: bv32)
    ensures AndW(Num(x), Num(y)) == Num(AndB(x, y))
  {
    hide Low, And;
    AndLow(x, y, 32);
  }

  lemma XorNum(x: bv32, y: bv32)
    ensures XorW(Num(x), Num(y)) == Num(XorB(x, y))
  {
    hide Low, Xor;
    XorLow(x, y, 32);
  }

  lemma FlipNum(v: bv32)
    ensures NotW(Num(v)) == Num(Flip(v))
  {
    hide Num, Xor;
    AllOnesNum();
    Pow2Values();
    XorNum(v, 0xFFFF_FFFF);
    XorOnes(Num(v), 32);
  }

  function Spin4(v: bv32): bv32 { Spin(Spin(Spin(Spin(v)))) }

  lemma FourMore(v: bv32, w: bv32, n: nat)
    requires w == Spins(v, n)
    ensures Spins(v, n + 4) == Spin4(w)
  {
    hide Spin;
    assert Spins(v, n + 4) == Spin(Spins(v, n + 3));
    assert Spins(v, n + 3) == Spin(Spins(v, n + 2));
    assert Spins(v, n + 2) == Spin(Spins(v, n + 1));
  }

  lemma FirstSpins(v: bv32)
    ensures Spins(v, 1) == Spin(v) && Spins(v, 2) == Spin(Spin(v)) && Spins(v, 3) == Spin(Spin(Spin(v)))
  {
    hide Spin;
    assert Spins(v, 0) == v;
  }

  function Rot(v: bv32, n: bv6): bv32
    requires n <= 32
  {
    (v >> n) | (v << (32 - n))
  }

  lemma Spun2(v: bv32)
    ensures Spin(Spin(v)) == Rot(v, 2)
  {
  }

  lemma Spun3(v: bv32)
    ensures Spin(Spin(Spin(v))) == Rot(v, 3)
  {
  }

  lemma Spun6(v: bv32)
    ensures Spin4(Spin(Spin(v))) == Rot(v, 6)
  {
  }

  lemma Spun7(v: bv32)
    ensures Spin4(Spin(Spin(Spin(v)))) == Rot(v, 7)
  {
  }

  lemma Spun10(v: bv32)
    ensures Spin4(Spin4(Spin(Spin(v)))) == Rot(v, 10)
  {
  }

  lemma Spun11(v: bv32)
    ensures Spin4(Spin4(Spin(Spin(Spin(v))))) == Rot(v, 11)
  {
  }

  lemma Spun13(v: bv32)
    ensures Spin4(Spin4(Spin4(Spin(v)))) == Rot(v, 13)
  {
  }

  lemma Spun17(v: bv32)
    ensures Spin4(Spin4(Spin4(Spin4(Spin(v))))) == Rot(v, 17)
  {
  }

  lemma Spun18(v: bv32)
    ensures Spin4(Spin4(Spin4(Spin4(Spin(Spin(v)))))) == Rot(v, 18)
  {
  }

  lemma Spun19(v: bv32)
    ensures Spin4(Spin4(Spin4(Spin4(Spin(Spin(Spin(v))))))) == Rot(v, 19)
  {
  }

  lemma Spun22(v: bv32)
    ensures Spin4(Spin4(Spin4(Spin4(Spin4(Spin(Spin(v))))))) == Rot(v, 22)
  {
  }

  lemma Spun25(v: bv32)
    ensures Spin4(Spin4(Spin4(Spin4(Spin4(Spin4(Spin(v))))))) == Rot(v, 25)
  {
  }

  lemma Rot2(v: bv32)
    ensures Num(Rot(v, 2)) == Rotr(Num(v), 2)
  {
    hide Num, Spin, Spin4, Spins, Rotr, Rot;
    FirstSpins(v);
    SpinsNum(v, 2);
    Spun2(v);
  }

  lemma Rot3(v: bv32)
    ensures Num(Rot(v, 3)) == Rotr(Num(v), 3)
  {
    hide Num, Spin, Spin4, Spins, Rotr, Rot;
    FirstSpins(v);
    SpinsNum(v, 3);
    Spun3(v);
  }

  lemma Rot6(v: bv32)
    ensures Num(Rot(v, 6)) == Rotr(Num(v), 6)
  {
    hide Num, Spin, Spin4, Spins, Rotr, Rot;
    FirstSpins(v);
    FourMore(v, Spin(Spin(v)), 2);
    SpinsNum(v, 6);
    Spun6(v);
  }

  lemma Rot7(v: bv32)
    ensures Num(Rot(v, 7)) == Rotr(Num(v), 7)
  {
    hide Num, Spin, Spin4, Spins, Rotr, Rot;
    FirstSpins(v);
    FourMore(v, Spin(Spin(Spin(v))), 3);
    SpinsNum(v, 7);
    Spun7(v);
  }

  lemma Rot10(v: bv32)
    ensures Num(Rot(v, 10)) == Rotr(Num(v), 10)
  {
    hide Num, Spin, Spin4, Spins, Rotr, Rot;
    FirstSpins(v);
    FourMore(v, Spin(Spin(v)), 2);
    FourMore(v, Spin4(Spin(Spin(v))), 6);
    SpinsNum(v, 10);
    Spun10(v);
  }

  lemma Rot11(v: bv32)
    ensures Num(Rot(v, 11)) == Rotr(Num(v), 11)
  {
    hide Num, Spin, Spin4, Spins, Rotr, Rot;
    FirstSpins(v);
    FourMore(v, Spin(Spin(Spin(v))), 3);
    FourMore(v, Spin4(Spin(Spin(Spin(v)))), 7);
    SpinsNum(v, 11);
    Spun11(v);
  }

  lemma Rot13(v: bv32)
    ensures Num(Rot(v, 13)) == Rotr(Num(v), 13)
  {
    hide Num, Spin, Spin4, Spins, Rotr, Rot;
    FirstSpins(v);
    FourMore(v, Spin(v), 1);
    FourMore(v, Spin4(Spin(v)), 5);
    FourMore(v, Spin4(Spin4(Spin(v))), 9);
    SpinsNum(v, 13);
    Spun13(v);
  }

  lemma Rot17(v: bv32)
    ensures Num(Rot(v, 17)) == Rotr(Num(v), 17)
  {
    hide Num, Spin, Spin4, Spins, Rotr, Rot;
    FirstSpins(v);
    FourMore(v, Spin(v), 1);
    FourMore(v, Spin4(Spin(v)), 5);
    FourMore(v, Spin4(Spin4(Spin(v))), 9);
    FourMore(v, Spin4(Spin4(Spin4(Spin(v)))), 13);
    SpinsNum(v, 17);
    Spun17(v);
  }

  lemma Rot18(v: bv32)
    ensures Num(Rot(v, 18)) == Rotr(Num(v), 18)
  {
    hide Num, Spin, Spin4, Spins, Rotr, Rot;
    FirstSpins(v);
    FourMore(v, Spin(Spin(v)), 2);
    FourMore(v, Spin4(Spin(Spin(v))), 6);
    FourMore(v, Spin4(Spin4(Spin(Spin(v)))), 10);
    FourMore(v, Spin4(Spin4(Spin4(Spin(Spin(v))))), 14);
    SpinsNum(v, 18);
    Spun18(v);
  }

  lemma Rot19(v: bv32)
    ensures Num(Rot(v, 19)) == Rotr(Num(v), 19)
  {
    hide Num, Spin, Spin4, Spins, Rotr, Rot;
    FirstSpins(v);
    FourMore(v, Spin(Spin(Spin(v))), 3);
    FourMore(v, Spin4(Spin(Spin(Spin(v)))), 7);
    FourMore(v, Spin4(Spin4(Spin(Spin(Spin(v))))), 11);
    FourMore(v, Spin4(Spin4(Spin4(Spin(Spin(Spin(v)))))), 15);
    SpinsNum(v, 19);
    Spun19(v);
  }

  lemma Rot22(v: bv32)
    ensures Num(Rot(v, 22)) == Rotr(Num(v), 22)
  {
    hide Num, Spin, Spin4, Spins, Rotr, Rot;
    FirstSpins(v);
    FourMore(v, Spin(Spin(v)), 2);
    FourMore(v, Spin4(Spin(Spin(v))), 6);
    FourMore(v, Spin4(Spin4(Spin(Spin(v)))), 10);
    FourMore(v, Spin4(Spin4(Spin4(Spin(Spin(v))))), 14);
    FourMore(v, Spin4(Spin4(Spin4(Spin4(Spin(Spin(v)))))), 18);
    SpinsNum(v, 22);
    Spun22(v);
  }

  lemma Rot25(v: bv32)
    ensures Num(Rot(v, 25)) == Rotr(Num(v), 25)
  {
    hide Num, Spin, Spin4, Spins, Rotr, Rot;
    FirstSpins(v);
    FourMore(v, Spin(v), 1);
    FourMore(v, Spin4(Spin(v)), 5);
    FourMore(v, Spin4(Spin4(Spin(v))), 9);
    FourMore(v, Spin4(Spin4(Spin4(Spin(v)))), 13);
    FourMore(v, Spin4(Spin4(Spin4(Spin4(Spin(v))))), 17);
    FourMore(v, Spin4(Spin4(Spin4(Spin4(Spin4(Spin(v)))))), 21);
    SpinsNum(v, 25);
    Spun25(v);
  }

  lemma ShrNum(v: bv32, r: bv32, n: nat, mask: bv32)
    requires 0 < n < 32 && Num(r) == Rotr(Num(v), n) && Num(mask) == Pow2(32 - n) - 1
    ensures Shr(Num(v), n) == Num(AndB(r, mask))
  {
    hide Num, Rotr, Shr, And, Pow2;
    ShrRotr(Num(v), n);
    AndNum(r, mask);
    AndOnes(Num(r), 32 - n);
  }

  lemma ShrRotr(x: Word, n: nat)
    requires 0 < n < 32
    ensures Shr(x, n) == Rotr(x, n) % Pow2(32 - n)
  {
    hide Rotr, Shr, Pow2;
    Pow2Values();
    var p, q := Pow2(n), Pow2(32 - n);
    Pow2Add(n, 32 - n);
    var lo, hi := x % p, x / p;
    assert x == lo + p * hi;
    HiBound(x, p, q, hi);
    RotrIs(x, n, lo, hi);
    DivModUnique(Rotr(x, n), q, lo, hi);
  }

  function S3(v: bv32): bv32 { AndB(Rot(v, 3), 0x1FFF_FFFF) }

  function S10(v: bv32): bv32 { AndB(Rot(v, 10), 0x003F_FFFF) }

  lemma ShiftsNum(v: bv32)
    ensures Num(S3(v)) == Shr(Num(v), 3) && Num(S10(v)) == Shr(Num(v), 10)
  {
    hide Num, Rotr, Shr, Rot, AndB;
    Rot3(v);
    Rot10(v);
    Reads(0x1FFF_FFFF);
    Reads(0x003F_FFFF);
    MaskPowers();
    ShrNum(v, Rot(v, 3), 3, 0x1FFF_FFFF);
    ShrNum(v, Rot(v, 10), 10, 0x003F_FFFF);
  }

  lemma MaskPowers()
    ensures Pow2(29) == 0x2000_0000 && Pow2(22) == 0x0040_0000
  {
    Pow2Values();
    assert Pow2(24) == 4 * Pow2(22) && Pow2(32) == 8 * Pow2(29);
  }

  // ---- the functions of one round ----

  function ChB(x: bv32, y: bv32, z: bv32): bv32 { XorB(AndB(x, y), AndB(Flip(x), z)) }

  function MajB(x: bv32, y: bv32, z: bv32): bv32 { XorB(XorB(AndB(x, y), AndB(x, z)), AndB(y, z)) }

  function Sum0(v: bv32): bv32 { XorB(XorB(Rot(v, 2), Rot(v, 13)), Rot(v, 22)) }

  function Sum1(v: bv32): bv32 { XorB(XorB(Rot(v, 6), Rot(v, 11)), Rot(v, 25)) }

  function Sigma0(v: bv32): bv32 { XorB(XorB(Rot(v, 7), Rot(v, 18)), S3(v)) }

  function Sigma1(v: bv32): bv32 { XorB(XorB(Rot(v, 17), Rot(v, 19)), S10(v)) }

  lemma ChNum(x: bv32, y: bv32, z: bv32)
    ensures Num(ChB(x, y, z)) == Ch(Num(x), Num(y), Num(z))
  {
    hide Num, AndB, XorB, Flip, AndW, XorW, NotW;
    FlipNum(x);
    AndNum(x, y);
    AndNum(Flip(x), z);
    XorNum(AndB(x, y), AndB(Flip(x), z));
  }

  lemma MajNum(x: bv32, y: bv32, z: bv32)
    ensures Num(MajB(x, y, z)) == Maj(Num(x), Num(y), Num(z))
  {
    hide Num, AndB, XorB, AndW, XorW;
    AndNum(x, y);
    AndNum(x, z);
    AndNum(y, z);
    XorNum(AndB(x, y), AndB(x, z));
    XorNum(XorB(AndB(x, y), AndB(x, z)), AndB(y, z));
  }

  lemma Sum0Num(v: bv32)
    ensures Num(Sum0(v)) == BigSigma0(Num(v))
  {
    hide Num, XorB, XorW, Rotr, Shr, Rot, S3, S10;
    Rot2(v);
    Rot13(v);
    Rot22(v);
    XorNum(Rot(v, 2), Rot(v, 13));
    XorNum(XorB(Rot(v, 2), Rot(v, 13)), Rot(v, 22));
  }

  lemma Sum1Num(v: bv32)
    ensures Num(Sum1(v)) == BigSigma1(Num(v))
  {
    hide Num, XorB, XorW, Rotr, Shr, Rot, S3, S10;
    Rot6(v);
    Rot11(v);
    Rot25(v);
    XorNum(Rot(v, 6), Rot(v, 11));
    XorNum(XorB(Rot(v, 6), Rot(v, 11)), Rot(v, 25));
  }

  lemma Sigma0Num(v: bv32)
    ensures Num(Sigma0(v)) == SmallSigma0(Num(v))
  {
    hide Num, XorB, XorW, Rotr, Shr, Rot, S3, S10;
    Rot7(v);
    Rot18(v);
    ShiftsNum(v);
    XorNum(Rot(v, 7), Rot(v, 18));
    XorNum(XorB(Rot(v, 7), Rot(v, 18)), S3(v));
  }

  lemma Sigma1Num(v: bv32)
    ensures Num(Sigma1(v)) == SmallSigma1(Num(v))
  {
    hide Num, XorB, XorW, Rotr, Shr, Rot, S3, S10;
    Rot17(v);
    Rot19(v);
    ShiftsNum(v);
    XorNum(Rot(v, 17), Rot(v, 19));
    XorNum(XorB(Rot(v, 17), Rot(v, 19)), S10(v));
  }

  // ---- rounds ----

  datatype Words = Words(a: bv32, b: bv32, c: bv32, d: bv32, e: bv32, f: bv32, g: bv32, h: bv32)

  function Nums(s: Words): State { State(Num(s.a), Num(s.b), Num(s.c), Num(s.d), Num(s.e), Num(s.f), Num(s.g), Num(s.h)) }

  function First(s: Words, k: bv32, w: bv32): bv32 { Plus(Plus(Plus(Plus(s.h, Sum1(s.e)), ChB(s.e, s.f, s.g)), k), w) }

  function Second(s: Words): bv32 { Plus(Sum0(s.a), MajB(s.a, s.b, s.c)) }

  function RoundB(s: Words, k: bv32, w: bv32): Words {
    Words(Plus(First(s, k, w), Second(s)), s.a, s.b, s.c, Plus(s.d, First(s, k, w)), s.e, s.f, s.g)
  }

  predicate FirstOk(s: Words, k: bv32, w: bv32) {
    Carries(s.h, Sum1(s.e)) && Carries(Plus(s.h, Sum1(s.e)), ChB(s.e, s.f, s.g))
    && Carries(Plus(Plus(s.h, Sum1(s.e)), ChB(s.e, s.f, s.g)), k)
    && Carries(Plus(Plus(Plus(s.h, Sum1(s.e)), ChB(s.e, s.f, s.g)), k), w)
  }

  lemma FirstNum(s: Words, k: bv32, w: bv32)
    requires FirstOk(s, k, w)
    ensures Num(First(s, k, w)) == T1(Nums(s), Num(k), Num(w))
  {
    hide Num, Sum1, ChB, BigSigma1, Ch, Add, Carries, Plus;
    Sum1Num(s.e);
    ChNum(s.e, s.f, s.g);
    PlusNum(s.h, Sum1(s.e));
    PlusNum(Plus(s.h, Sum1(s.e)), ChB(s.e, s.f, s.g));
    PlusNum(Plus(Plus(s.h, Sum1(s.e)), ChB(s.e, s.f, s.g)), k);
    PlusNum(Plus(Plus(Plus(s.h, Sum1(s.e)), ChB(s.e, s.f, s.g)), k), w);
  }

  lemma SecondNum(s: Words)
    requires Carries(Sum0(s.a), MajB(s.a, s.b, s.c))
    ensures Num(Second(s)) == T2(Nums(s))
  {
    hide Num, Sum0, MajB, BigSigma0, Maj, Add, Carries, Plus;
    Sum0Num(s.a);
    MajNum(s.a, s.b, s.c);
    PlusNum(Sum0(s.a), MajB(s.a, s.b, s.c));
  }

  lemma RoundNum(s: Words, k: bv32, w: bv32)
    requires FirstOk(s, k, w)
    requires Carries(Sum0(s.a), MajB(s.a, s.b, s.c))
    requires Carries(First(s, k, w), Second(s))
    requires Carries(s.d, First(s, k, w))
    ensures Nums(RoundB(s, k, w)) == Round(Nums(s), Num(k), Num(w))
  {
    hide Num, First, Second, T1, T2, Add, Carries, FirstOk, Plus;
    FirstNum(s, k, w);
    SecondNum(s);
    PlusNum(First(s, k, w), Second(s));
    PlusNum(s.d, First(s, k, w));
  }

  // ---- what is known of a block ----

  /** Schedule word `t` of block `b`. */
  ghost predicate WordIs(msg: seq<Byte>, b: nat, t: nat, w: bv32) {
    forall c: nat, u: nat :: c == b < BlockCount(|msg|) && u == t ==> Schedule(msg, c, u) == Num(w)
  }

  ghost predicate KeyIs(t: nat, k: bv32) { forall u: nat :: u == t && u < 64 ==> K(u) == Num(k) }

  /** The working variables of block `b` after `t` rounds. */
  ghost predicate After(msg: seq<Byte>, b: nat, t: nat, s: Words) {
    forall c: nat, u: nat :: c == b < BlockCount(|msg|) && u == t <= 64 ==> Rounds(HashValue(msg, c), msg, c, u) == Nums(s)
  }

  /** The hash value after `b` blocks. */
  ghost predicate HashIs(msg: seq<Byte>, b: nat, s: Words) {
    forall c: nat :: c == b <= BlockCount(|msg|) ==> HashValue(msg, c) == Nums(s)
  }

  lemma WordAt(msg: seq<Byte>, b: nat, t: nat, w: bv32)
    requires b < BlockCount(|msg|)
    ensures WordIs(msg, b, t, w) <==> Schedule(msg, b, t) == Num(w)
  {
    hide Num, Schedule, BlockCount;
  }

  lemma KeyAt(t: nat, k: bv32)
    requires t < 64
    ensures KeyIs(t, k) <==> K(t) == Num(k)
  {
    hide Num, K;
  }

  lemma RoundsAt(msg: seq<Byte>, b: nat, t: nat, s: Words)
    requires b < BlockCount(|msg|) && t <= 64
    ensures After(msg, b, t, s) <==> Rounds(HashValue(msg, b), msg, b, t) == Nums(s)
  {
    hide Nums, Rounds, HashValue, BlockCount;
  }

  lemma HashAt(msg: seq<Byte>, b: nat, s: Words)
    requires b <= BlockCount(|msg|)
    ensures HashIs(msg, b, s) <==> HashValue(msg, b) == Nums(s)
  {
    hide Nums, HashValue, BlockCount;
  }

  // ---- one step further ----

  lemma WordFirst(msg: seq<Byte>, b: nat, t: nat, w: bv32)
    requires b < BlockCount(|msg|) && t < 16 && BlockWord(msg, b, t) == Num(w)
    ensures WordIs(msg, b, t, w)
  {
    hide Num, WordIs, BlockCount, BlockWord;
    WordAt(msg, b, t, w);
  }

  lemma WordNext(msg: seq<Byte>, b: nat, t: nat, w2: bv32, w7: bv32, w15: bv32, w16: bv32, w: bv32)
    requires b < BlockCount(|msg|) && t >= 16 && WordIs(msg, b, t - 2, w2) && WordIs(msg, b, t - 7, w7)
    requires WordIs(msg, b, t - 15, w15) && WordIs(msg, b, t - 16, w16)
    requires Carries(Sigma1(w2), w7)
    requires Carries(Plus(Sigma1(w2), w7), Sigma0(w15))
    requires Carries(Plus(Plus(Sigma1(w2), w7), Sigma0(w15)), w16)
    requires Plus(Plus(Plus(Sigma1(w2), w7), Sigma0(w15)), w16) == w
    ensures WordIs(msg, b, t, w)
  {
    hide Num, Plus, Sigma0, Sigma1, SmallSigma0, SmallSigma1, Carries, Add, BlockCount, WordIs;
    WordAt(msg, b, t - 2, w2);
    WordAt(msg, b, t - 7, w7);
    WordAt(msg, b, t - 15, w15);
    WordAt(msg, b, t - 16, w16);
    WordAt(msg, b, t, w);
    Sigma1Num(w2);
    Sigma0Num(w15);
    PlusNum(Sigma1(w2), w7);
    PlusNum(Plus(Sigma1(w2), w7), Sigma0(w15));
    PlusNum(Plus(Plus(Sigma1(w2), w7), Sigma0(w15)), w16);
  }

  lemma KeyRead(t: nat, k: bv32, n: Word)
    requires t < 64 && K(t) == n && Value(k) == n
    ensures KeyIs(t, k)
  {
    hide Num, Value, KeyIs, K;
    KeyAt(t, k);
    Is(k, n);
  }

  lemma NextRound(msg: seq<Byte>, b: nat, t: nat, s: Words, k: bv32, w: bv32, r: Words)
    requires b < BlockCount(|msg|) && t < 64 && After(msg, b, t, s) && KeyIs(t, k) && WordIs(msg, b, t, w)
    requires Carries(s.h, Sum1(s.e))
    requires Carries(Plus(s.h, Sum1(s.e)), ChB(s.e, s.f, s.g))
    requires Carries(Plus(Plus(s.h, Sum1(s.e)), ChB(s.e, s.f, s.g)), k)
    requires Carries(Plus(Plus(Plus(s.h, Sum1(s.e)), ChB(s.e, s.f, s.g)), k), w)
    requires Carries(Sum0(s.a), MajB(s.a, s.b, s.c))
    requires Carries(First(s, k, w), Second(s))
    requires Carries(s.d, First(s, k, w))
    requires RoundB(s, k, w) == r
    ensures After(msg, b, t + 1, r)
  {
    hide Num, RoundB, Round, Carries, Schedule, First, Second, BlockCount, After, WordIs, KeyIs, Nums, K, HashValue;
    RoundsAt(msg, b, t, s);
    RoundsAt(msg, b, t + 1, r);
    WordAt(msg, b, t, w);
    KeyAt(t, k);
    RoundNum(s, k, w);
  }

  lemma FirstHash(msg: seq<Byte>, s: Words)
    requires Nums(s) == H0
    ensures HashIs(msg, 0, s)
  {
    hide Nums, BlockCount;
    HashAt(msg, 0, s);
  }

  lemma FirstRound(msg: seq<Byte>, b: nat, s: Words)
    requires b < BlockCount(|msg|) && HashIs(msg, b, s)
    ensures After(msg, b, 0, s)
  {
    hide Nums, BlockCount, HashValue, HashIs, After;
    HashAt(msg, b, s);
    RoundsAt(msg, b, 0, s);
    assert Rounds(HashValue(msg, b), msg, b, 0) == HashValue(msg, b);
  }

  lemma NextHash(msg: seq<Byte>, b: nat, s: Words, r: Words, t: Words)
    requires b < BlockCount(|msg|) && HashIs(msg, b, s) && After(msg, b, 64, r)
    requires Carries(s.a, r.a) && Carries(s.b, r.b) && Carries(s.c, r.c) && Carries(s.d, r.d)
    requires Carries(s.e, r.e) && Carries(s.f, r.f) && Carries(s.g, r.g) && Carries(s.h, r.h)
    requires t.a == Plus(s.a, r.a) && t.b == Plus(s.b, r.b) && t.c == Plus(s.c, r.c) && t.d == Plus(s.d, r.d)
    requires t.e == Plus(s.e, r.e) && t.f == Plus(s.f, r.f) && t.g == Plus(s.g, r.g) && t.h == Plus(s.h, r.h)
    ensures HashIs(msg, b + 1, t)
  {
    hide Num, Plus, Carries, Add, BlockCount, HashIs, After, Rounds;
    HashAt(msg, b, s);
    HashAt(msg, b + 1, t);
    RoundsAt(msg, b, 64, r);
    PlusNum(s.a, r.a);
    PlusNum(s.b, r.b);
    PlusNum(s.c, r.c);
    PlusNum(s.d, r.d);
    PlusNum(s.e, r.e);
    PlusNum(s.f, r.f);
    PlusNum(s.g, r.g);
    PlusNum(s.h, r.h);
  }

  lemma BytesOf(w: Word, a: Byte, b: Byte, c: Byte, d: Byte)
    requires w == 0x100_0000 * a + 0x1_0000 * b + 0x100 * c + d
    ensures WordBytes(w) == [a, b, c, d]
  {
    DivModUnique(w, 0x100_0000, a, 0x1_0000 * b + 0x100 * c + d);
    DivModUnique(w, 0x1_0000, 0x100 * a + b, 0x100 * c + d);
    DivModUnique(w, 0x100, 0x1_0000 * a + 0x100 * b + c, d);
    DivModUnique(0x100 * a + b, 0x100, a, b);
    DivModUnique(0x1_0000 * a + 0x100 * b + c, 0x100, 0x100 * a + b, c);
  }
}
