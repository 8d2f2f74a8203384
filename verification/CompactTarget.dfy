/** Compact (nBits) targets: the lossy floating encoding, its decoding, and the model-adjusted
    block target derived through both. */
module CompactTarget {
  import opened Arith
  import opened Bits
  import Powers

  datatype Decoded = Decoded(target: nat, negative: bool, overflow: bool)

  /** 256^n */
  function Bytes(n: nat): (r: nat)
    ensures r > 0
  {
    if n == 0 then 1 else 256 * Bytes(n - 1)
  }

  function SetCompact(nCompact: nat): Decoded {
    var exponent := nCompact / 0x100_0000;
    var mantissa := nCompact % 0x80_0000;
    var negative := nCompact / 0x80_0000 % 2 == 1;
    Decoded(Shifted(exponent, mantissa), negative, OverflowFlag(exponent, mantissa))
  }

  function Shifted(exponent: nat, mantissa: nat): nat {
    DivIsFloor(mantissa, Bytes(if exponent <= 3 then 3 - exponent else 0), 0);
    MulMono(0, mantissa, Bytes(if exponent > 3 then exponent - 3 else 0));
    if exponent <= 3 then mantissa / Bytes(3 - exponent) else mantissa * Bytes(exponent - 3)
  }

  function OverflowFlag(exponent: nat, mantissa: nat): bool {
    mantissa != 0 && (exponent > 34 || (exponent > 3 && mantissa > 0xff * Bytes(exponent - 3)))
  }

  function BitLength(t: nat): nat {
    if t == 0 then 0 else 1 + BitLength(t / 2)
  }

  function GetCompact(target: nat, negative: bool): nat {
    var size := (BitLength(target) + 7) / 8;
    var mantissa := if size <= 3 then target * Bytes(3 - size) else target / Bytes(size - 3);
    var (size', mantissa') := if mantissa / 0x80_0000 % 2 == 1 then (size + 1, mantissa / 256) else (size, mantissa);
    size' * 0x100_0000 + mantissa' % 0x80_0000 + (if negative && mantissa' != 0 then 0x80_0000 else 0)
  }

  // ---- the size of a number ----

  lemma {:induction false} BitLengthBounds(t: nat)
    ensures t < Pow2(BitLength(t))
    ensures t > 0 ==> BitLength(t) > 0 && Pow2(BitLength(t) - 1) <= t
  {
    if t > 1 { BitLengthBounds(t / 2); }
  }

  lemma {:induction false} BytesIsPow2(n: nat)
    ensures Bytes(n) == Pow2(8 * n)
  {
    if n > 0 {
      BytesIsPow2(n - 1);
      Pow2Add(8, 8 * (n - 1));
      Pow2Values();
    }
  }

  lemma {:induction false} BytesAdd(m: nat, n: nat)
    ensures Bytes(m + n) == Bytes(m) * Bytes(n)
  {
    if m > 0 { BytesAdd(m - 1, n); }
  }

  lemma {:induction false} BytesMono(m: nat, n: nat)
    requires m <= n
    ensures Bytes(m) <= Bytes(n)
  {
    if m < n { BytesMono(m, n - 1); }
  }

  /** `size` is the number of base-256 digits. */
  lemma SizeBounds(t: nat)
    ensures var size := (BitLength(t) + 7) / 8;
            t < Bytes(size) && (t == 0 <==> size == 0) && (t > 0 ==> Bytes(size - 1) <= t)
  {
    var size := (BitLength(t) + 7) / 8;
    BitLengthBounds(t);
    BytesIsPow2(size);
    Powers.Pow2Mono(BitLength(t), 8 * size);
    if t > 0 {
      BytesIsPow2(size - 1);
      Powers.Pow2Mono(8 * (size - 1), BitLength(t) - 1);
    }
  }

  /** The number of low bytes a target loses: the kept mantissa stays below 0x800000 and, once
      anything is lost, at or above 0x8000. */
  ghost predicate Loses(t: nat, k: nat) {
    t < 0x80_0000 * Bytes(k) && (k > 0 ==> 0x8000 * Bytes(k) <= t)
  }

  lemma LosesUnique(t: nat, k: nat, u: nat, l: nat)
    requires Loses(t, k) && Loses(u, l) && t <= u
    ensures k <= l
    ensures k < l ==> t < 0x8000 * Bytes(l)
  {
    if k < l {
      BytesMono(k + 1, l);
    } else if l < k {
      BytesMono(l + 1, k);
    }
  }

  // ---- decode after encode ----

  /** `t` with its low `k` bytes cleared. */
  function Cleared(t: nat, k: nat): (r: nat)
    ensures r <= t < r + Bytes(k)
  {
    DivIsFloor(t, Bytes(k), 0);
    Bytes(k) * (t / Bytes(k))
  }

  function Compose(e: nat, m: nat, negative: bool): nat {
    e * 0x100_0000 + m + (if negative then 0x80_0000 else 0)
  }

  lemma DecodeFields(e: nat, m: nat, negative: bool)
    requires m < 0x80_0000
    ensures var d := SetCompact(Compose(e, m, negative));
            d.target == (if e <= 3 then m / Bytes(3 - e) else m * Bytes(e - 3)) && d.negative == negative
    ensures var n := Compose(e, m, negative); n / 0x100_0000 == e && n % 0x80_0000 == m
  {
    var n, bit := Compose(e, m, negative), if negative then 1 else 0;
    DivModUnique(n, 0x100_0000, e, m + bit * 0x80_0000);
    DivModUnique(n, 0x80_0000, 2 * e + bit, m);
  }

  lemma SmallEncode(t: nat, negative: bool, size: nat)
    requires size == (BitLength(t) + 7) / 8 <= 3
    ensures GetCompact(t, negative)
            == if size == 0 then 0
               else if t * Bytes(3 - size) < 0x80_0000 then Compose(size, t * Bytes(3 - size), negative)
               else if size == 1 then Compose(2, t * 256, negative)
               else if size == 2 then Compose(3, t, negative)
               else Compose(4, t / 256, negative)
    ensures t * Bytes(3 - size) < 0x100_0000 && (size == 0 <==> t == 0)
  {
    SizeBounds(t);
    hide BitLength, Bytes;
    SmallFactor(t, size);
    var m := t * Bytes(3 - size);
    TopBit(m);
    TopBit(m / 256);
  }

  /** The bounds and products of the three small sizes. */
  lemma SmallFactor(t: nat, size: nat)
    requires size <= 3 && t < Bytes(size) && (size == 0 || Bytes(size - 1) <= t)
    ensures Bytes(0) == 1 && Bytes(1) == 256 && Bytes(2) == 0x1_0000 && Bytes(3) == 0x100_0000
    ensures t * Bytes(3 - size) == (if size == 0 then 0 else if size == 1 then 0x1_0000 * t else if size == 2 then 256 * t else t)
  {
    assert Bytes(0) == 1 && Bytes(1) == 256 && Bytes(2) == 0x1_0000 && Bytes(3) == 0x100_0000;
  }

  lemma TopBit(m: nat)
    requires m < 0x100_0000
    ensures m / 0x80_0000 % 2 == 1 <==> m >= 0x80_0000
    ensures m < 0x80_0000 ==> m % 0x80_0000 == m
  {
  }

  lemma SmallRoundTrip(t: nat, negative: bool)
    requires (BitLength(t) + 7) / 8 <= 3
    ensures var d := SetCompact(GetCompact(t, negative));
            d.negative == (negative && t != 0)
            && d.target == (if t < 0x80_0000 then t else t / 256 * 256)
    ensures t >= 0x80_0000 ==> GetCompact(t, negative) == Compose(4, t / 256, negative)
  {
    hide BitLength, GetCompact, SetCompact;
    var size := (BitLength(t) + 7) / 8;
    SmallEncode(t, negative, size);
    assert Bytes(0) == 1 && Bytes(1) == 256 && Bytes(2) == 0x1_0000 && Bytes(3) == 0x100_0000;
    if size == 0 {
      DecodeFields(0, 0, false);
    } else if t * Bytes(3 - size) < 0x80_0000 {
      DecodeFields(size, t * Bytes(3 - size), negative);
    } else if size == 1 {
      DecodeFields(2, t * 256, negative);
    } else if size == 2 {
      DecodeFields(3, t, negative);
    } else {
      DecodeFields(4, t / 256, negative);
    }
  }

  lemma LargeMantissa(t: nat, j: nat)
    requires j > 0 && Bytes(j + 2) <= t < Bytes(j + 3)
    ensures 0x1_0000 <= t / Bytes(j) < 0x100_0000
    ensures t / Bytes(j) / 256 == t / Bytes(j + 1)
  {
    assert Bytes(j + 2) == 0x1_0000 * Bytes(j) && Bytes(j + 3) == 0x100_0000 * Bytes(j);
    DivIsFloor(t, Bytes(j), 0x1_0000);
    DivIsFloor(t, Bytes(j), 0x100_0000);
    DivDiv(t, Bytes(j), 256);
    assert Bytes(j) * 256 == Bytes(j + 1);
  }

  lemma LargeEncode(t: nat, negative: bool, j: nat) returns (k: nat)
    requires j > 0 && (BitLength(t) + 7) / 8 == j + 3
    ensures k > 0 && 0x8000 <= t / Bytes(k) < 0x80_0000
    ensures GetCompact(t, negative) == Compose(k + 3, t / Bytes(k), negative)
  {
    hide BitLength, Bytes;
    SizeBounds(t);
    LargeMantissa(t, j);
    TopBit(t / Bytes(j));
    TopBit(t / Bytes(j + 1));
    k := if t / Bytes(j) < 0x80_0000 then j else j + 1;
  }

  lemma MantissaLoses(t: nat, k: nat)
    requires 0x8000 <= t / Bytes(k) < 0x80_0000
    ensures Loses(t, k) && t / Bytes(k) * Bytes(k) == Cleared(t, k)
  {
    DivIsFloor(t, Bytes(k), 0x8000);
    DivIsFloor(t, Bytes(k), 0x80_0000);
  }

  lemma SmallLoses(t: nat, k: nat)
    requires t < Bytes(3) && k == if t < 0x80_0000 then 0 else 1
    ensures Loses(t, k)
    ensures Cleared(t, k) == if k == 0 then t else t / 256 * 256
    ensures k > 0 ==> 0x8000 <= t / Bytes(k) < 0x80_0000
  {
    assert Bytes(0) == 1 && Bytes(1) == 256 && Bytes(3) == 0x100_0000;
  }

  /** How many bytes are lost, and the compact form when any is. */
  lemma EncodeForm(t: nat, negative: bool) returns (k: nat)
    ensures Loses(t, k)
    ensures k > 0 ==> 0x8000 <= t / Bytes(k) < 0x80_0000
                      && GetCompact(t, negative) == Compose(k + 3, t / Bytes(k), negative)
    ensures SetCompact(GetCompact(t, negative)).target == Cleared(t, k)
    ensures SetCompact(GetCompact(t, negative)).negative == (negative && t != 0)
  {
    hide BitLength, GetCompact, SetCompact, Cleared, Loses;
    var size := (BitLength(t) + 7) / 8;
    SizeBounds(t);
    if size <= 3 {
      SmallRoundTrip(t, negative);
      k := if t < 0x80_0000 then 0 else 1;
      BytesMono(size, 3);
      SmallLoses(t, k);
    } else {
      k := LargeEncode(t, negative, size - 3);
      DecodeFields(k + 3, t / Bytes(k), negative);
      MantissaLoses(t, k);
    }
  }

  /** The value a target keeps through its compact form. */
  function Quantised(t: nat): nat { SetCompact(GetCompact(t, false)).target }

  /** The compact form rounds down, by less than one unit of the kept mantissa, and keeps the sign
      of everything but zero. */
  lemma RoundsDown(t: nat, negative: bool) returns (k: nat)
    ensures Loses(t, k)
    ensures Quantised(t) <= t < Quantised(t) + Bytes(k)
    ensures SetCompact(GetCompact(t, negative)).target == Quantised(t)
    ensures SetCompact(GetCompact(t, negative)).negative == (negative && t != 0)
  {
    k := EncodeForm(t, negative);
    var l := EncodeForm(t, false);
    LosesUnique(t, k, t, l);
    LosesUnique(t, l, t, k);
  }

  lemma ClearedLoses(t: nat, k: nat)
    requires Loses(t, k) && k > 0
    ensures Loses(Cleared(t, k), k) && Cleared(t, k) / Bytes(k) == t / Bytes(k)
  {
    DivIsFloor(t, Bytes(k), 0x8000);
    MulMono(0x8000, t / Bytes(k), Bytes(k));
    DivModUnique(Cleared(t, k), Bytes(k), t / Bytes(k), 0);
  }

  /** Encoding what was decoded gives the same compact value back. */
  lemma EncodeStable(t: nat, negative: bool)
    ensures GetCompact(Quantised(t), negative) == GetCompact(t, negative)
    ensures Quantised(Quantised(t)) == Quantised(t)
  {
    var k := EncodeForm(t, negative);
    var k0 := EncodeForm(t, false);
    LosesUnique(t, k, t, k0);
    LosesUnique(t, k0, t, k);
    var q := Quantised(t);
    if k == 0 {
      assert q == t;
    } else {
      ClearedLoses(t, k);
      var l := EncodeForm(q, negative);
      LosesUnique(q, k, q, l);
      LosesUnique(q, l, q, k);
      var l0 := EncodeForm(q, false);
    }
  }

  lemma QuantisedMono(t: nat, u: nat)
    requires t <= u
    ensures Quantised(t) <= Quantised(u)
  {
    var k := EncodeForm(t, false);
    var l := EncodeForm(u, false);
    LosesUnique(t, k, u, l);
    if k == l {
      DivMono(t, u, Bytes(k));
      MulMono(t / Bytes(k), u / Bytes(k), Bytes(k));
    } else {
      MulMono(0x8000, u / Bytes(l), Bytes(l));
    }
  }

  /** The compact form keeps the largest representable target that does not exceed `t`. */
  lemma LargestRepresentable(t: nat, r: nat)
    requires r <= t && Quantised(r) == r
    ensures r <= Quantised(t) <= t && Quantised(Quantised(t)) == Quantised(t)
  {
    QuantisedMono(r, t);
    EncodeStable(t, false);
    var k := RoundsDown(t, false);
  }

  // ---- the overflow flag ----

  const UINT256: nat := Bytes(32)

  /** The overflow flag claims that a non-zero mantissa does not fit 256 bits. It is right except
      for exponent 4 with a mantissa above 0xff00, where it is raised for a 32-bit number, and for
      exponents 33 and 34 with a mantissa that the shift pushes out, where it is not raised. */
  lemma OverflowExactly(n: nat)
    ensures var e, m := n / 0x100_0000, n % 0x80_0000;
            (SetCompact(n).overflow <==> SetCompact(n).target >= UINT256)
            <==> !(e == 4 && m > 0xff00) && !(e == 33 && m >= 0x1_0000) && !(e == 34 && m >= 0x100)
  {
    hide Bytes, Shifted, OverflowFlag;
    var e, m := n / 0x100_0000, n % 0x80_0000;
    if e <= 32 { UpTo32(e, m); } else if e <= 34 { At33And34(e, m); } else { From35(e, m); }
  }

  /** One compact value of each family: the flag is set on a target that fits, and clear on two
      that do not. */
  lemma OverflowWitnesses()
    ensures SetCompact(0x0400_ffff).overflow && SetCompact(0x0400_ffff).target < UINT256
    ensures !SetCompact(0x2101_0000).overflow && SetCompact(0x2101_0000).target >= UINT256
    ensures !SetCompact(0x2200_0100).overflow && SetCompact(0x2200_0100).target >= UINT256
  {
    UpTo32(4, 0xffff);
    At33And34(33, 0x1_0000);
    At33And34(34, 0x100);
    hide Shifted, OverflowFlag;
  }

  lemma UpTo32(e: nat, m: nat)
    requires e <= 32 && m < 0x80_0000
    ensures Shifted(e, m) < UINT256
    ensures OverflowFlag(e, m) <==> e == 4 && m > 0xff00
  {
    assert Bytes(1) == 0x100 && Bytes(2) == 0x1_0000;
    if e <= 3 {
      BytesMono(3, 32);
      SmallTarget(m, e);
    } else {
      ShiftedFits(m, e - 3);
      if e > 4 { BytesMono(2, e - 3); }
    }
  }

  lemma At33And34(e: nat, m: nat)
    requires 33 <= e <= 34 && m < 0x80_0000
    ensures Shifted(e, m) >= UINT256 <==> m >= if e == 33 then 0x1_0000 else 0x100
    ensures !OverflowFlag(e, m)
  {
    assert Bytes(1) == 0x100 && Bytes(2) == 0x1_0000;
    ShiftedAgainst(m, 35 - e, e - 3);
    BytesMono(2, e - 3);
  }

  lemma From35(e: nat, m: nat)
    requires e >= 35
    ensures Shifted(e, m) >= UINT256 <==> m != 0
    ensures OverflowFlag(e, m) <==> m != 0
  {
    BytesMono(32, e - 3);
    if m > 0 { MulMono(1, m, Bytes(e - 3)); }
  }

  lemma ShiftedAgainst(m: nat, j: nat, k: nat)
    ensures m * Bytes(k) >= Bytes(j + k) <==> m >= Bytes(j)
  {
    BytesAdd(j, k);
    if m >= Bytes(j) { MulMono(Bytes(j), m, Bytes(k)); }
    else { MulMono(m + 1, Bytes(j), Bytes(k)); assert (m + 1) * Bytes(k) == m * Bytes(k) + Bytes(k); }
  }

  lemma SmallTarget(m: nat, e: nat)
    requires e <= 3 && m < 0x80_0000
    ensures m / Bytes(3 - e) < Bytes(3)
  {
    assert Bytes(3) == 0x100_0000;
    DivIsFloor(m, Bytes(3 - e), 0);
    MulMono(1, Bytes(3 - e), m / Bytes(3 - e));
  }

  lemma ShiftedFits(m: nat, k: nat)
    requires k <= 29 && m < 0x80_0000
    ensures m * Bytes(k) < UINT256
  {
    assert Bytes(3) == 0x100_0000;
    BytesAdd(3, k);
    MulMono(m, 0x80_0000, Bytes(k));
    BytesMono(3 + k, 32);
  }

  // ---- the model-adjusted block target ----

  datatype Outcome = Adjusted(nbits: nat, target: nat, overflow: bool, negative: bool) | ValueError | OverflowError

  /** min(powLimit, floor(base * normalizer / difficulty)), through its compact form; the
      serialisation to 32 bytes can still refuse it. */
  function DeriveAdjustedBlockTarget(baseNbits: nat, difficulty: int, normalizer: int, powLimitNbits: int): Outcome {
    if difficulty <= 0 || normalizer <= 0 || powLimitNbits <= 0 then ValueError
    else
      var base := SetCompact(baseNbits);
      var adjusted := Capped(base.target * normalizer / difficulty, SetCompact(powLimitNbits).target);
      var newNbits := GetCompact(adjusted, base.negative);
      var d := SetCompact(newNbits);
      if d.target >= UINT256 then OverflowError else Adjusted(newNbits, d.target, d.overflow, d.negative)
  }

  function Capped(x: int, limit: nat): nat
    requires x >= 0
  {
    if x > limit then limit else x
  }

  /** A valid call returns the largest compact target that exceeds neither the chain limit nor
      base * N / D, together with its own encoding; it fails only when that target is wider than
      32 bytes, which needs a chain limit wider than 32 bytes. */
  lemma AdjustedIsLargest(baseNbits: nat, difficulty: int, normalizer: int, powLimitNbits: int, r: nat)
    requires difficulty > 0 && normalizer > 0 && powLimitNbits > 0
    ensures var limit := SetCompact(powLimitNbits).target;
            var base := SetCompact(baseNbits).target;
            var out := DeriveAdjustedBlockTarget(baseNbits, difficulty, normalizer, powLimitNbits);
            out != ValueError
            && (limit < UINT256 ==> out.Adjusted?)
            && (out.Adjusted? ==>
                  out.target <= limit && out.target * difficulty <= base * normalizer && out.target < UINT256
                  && SetCompact(out.nbits).target == out.target
                  && (r <= limit && r * difficulty <= base * normalizer && Quantised(r) == r ==> r <= out.target))
  {
    hide SetCompact, GetCompact;
    var limit, base := SetCompact(powLimitNbits).target, SetCompact(baseNbits);
    var x := base.target * normalizer;
    MulMono(0, base.target, normalizer);
    DivIsFloor(x, difficulty, 0);
    var adjusted := Capped(x / difficulty, limit);
    var k := RoundsDown(adjusted, base.negative);
    DivIsFloor(x, difficulty, Quantised(adjusted));
    DivIsFloor(x, difficulty, r);
    if r <= adjusted && Quantised(r) == r { LargestRepresentable(adjusted, r); }
  }

  /** A smaller difficulty or a larger normalizer never tightens the target. */
  lemma AdjustedMono(baseNbits: nat, difficulty: int, normalizer: int, difficulty': int, normalizer': int, powLimitNbits: int)
    requires 0 < difficulty <= difficulty' && 0 < normalizer' <= normalizer
    ensures var out := DeriveAdjustedBlockTarget(baseNbits, difficulty, normalizer, powLimitNbits);
            var out' := DeriveAdjustedBlockTarget(baseNbits, difficulty', normalizer', powLimitNbits);
            out.Adjusted? ==> out'.Adjusted? && out'.target <= out.target
  {
    if powLimitNbits > 0 {
      hide SetCompact, GetCompact;
      var limit, base := SetCompact(powLimitNbits).target, SetCompact(baseNbits);
      var x, x' := base.target * normalizer, base.target * normalizer';
      MulMono(0, base.target, normalizer');
      MulMono(normalizer', normalizer, base.target);
      DivIsFloor(x', difficulty', 0);
      MulMono(difficulty, difficulty', x' / difficulty');
      DivIsFloor(x, difficulty, x' / difficulty');
      var a, a' := Capped(x / difficulty, limit), Capped(x' / difficulty', limit);
      QuantisedMono(a', a);
      var k := RoundsDown(a, base.negative);
      var k' := RoundsDown(a', base.negative);
    }
  }

  /** The errors, and the sign of the result. */
  lemma AdjustedOutcome(baseNbits: nat, difficulty: int, normalizer: int, powLimitNbits: int)
    ensures var out := DeriveAdjustedBlockTarget(baseNbits, difficulty, normalizer, powLimitNbits);
            (out == ValueError <==> difficulty <= 0 || normalizer <= 0 || powLimitNbits <= 0)
            && (out.Adjusted? ==> out.negative == (SetCompact(baseNbits).negative && out.target != 0)
                                  && (out.overflow <==> (out.nbits / 0x100_0000 == 4 && out.nbits % 0x80_0000 > 0xff00)
                                                        || (out.nbits / 0x100_0000 >= 35 && out.nbits % 0x80_0000 != 0)))
  {
    if difficulty > 0 && normalizer > 0 && powLimitNbits > 0 {
      hide SetCompact, GetCompact, Shifted, OverflowFlag;
      var base := SetCompact(baseNbits);
      var x := base.target * normalizer;
      MulMono(0, base.target, normalizer);
      DivIsFloor(x, difficulty, 0);
      var adjusted := Capped(x / difficulty, SetCompact(powLimitNbits).target);
      var k := EncodeForm(adjusted, base.negative);
      KeepsNonZero(adjusted, k);
      FlagOf(GetCompact(adjusted, base.negative));
    }
  }

  lemma KeepsNonZero(t: nat, k: nat)
    requires Loses(t, k) && (k > 0 ==> 0x8000 <= t / Bytes(k))
    ensures Cleared(t, k) == 0 <==> t == 0
  {
    if k > 0 {
      MulMono(0x8000, t / Bytes(k), Bytes(k));
      DivIsFloor(t, Bytes(k), 0x8000);
    } else {
      assert t / 1 * 1 == t;
    }
  }

  lemma FlagOf(n: nat)
    ensures SetCompact(n).overflow
            <==> (n / 0x100_0000 == 4 && n % 0x80_0000 > 0xff00) || (n / 0x100_0000 >= 35 && n % 0x80_0000 != 0)
  {
    hide Bytes, Shifted, OverflowFlag;
    var e, m := n / 0x100_0000, n % 0x80_0000;
    if e <= 32 { UpTo32(e, m); } else if e <= 34 { At33And34(e, m); } else { From35(e, m); }
  }

  /** Examples: one byte, four bytes, a sign with the flag raised for a 32-bit number, and the first
      target of the chain both ways. */
  lemma CompactExamples()
    ensures SetCompact(0x0112_3456) == Decoded(0x12, false, false)
    ensures SetCompact(0x0500_9234) == Decoded(0x9234_0000, false, false)
    ensures SetCompact(0x0492_3456) == Decoded(0x1234_5600, true, true)
    ensures SetCompact(0x1d00_ffff) == Decoded(0xffff * Pow2(208), false, false)
    ensures GetCompact(0xffff * Pow2(208), false) == 0x1d00_ffff
  {
    hide SetCompact, GetCompact, Pow2, Bytes;
    SmallBytes();
    FlagOf(0x0112_3456);
    FlagOf(0x0500_9234);
    FlagOf(0x0492_3456);
    DecodeFields(1, 0x12_3456, false);
    DecodeFields(5, 0x9234, false);
    DecodeFields(4, 0x12_3456, true);
    FirstTarget();
  }

  lemma SmallBytes()
    ensures Bytes(1) == 0x100 && Bytes(2) == 0x1_0000
  {
  }

  lemma FirstTarget()
    ensures SetCompact(0x1d00_ffff) == Decoded(0xffff * Pow2(208), false, false)
            && GetCompact(0xffff * Pow2(208), false) == 0x1d00_ffff
  {
    hide BitLength, GetCompact, Bytes, OverflowFlag, SetCompact;
    BytesIsPow2(26);
    FlagOf(0x1d00_ffff);
    var t := 0xffff * Bytes(26);
    DecodeFields(29, 0xffff, false);
    DivModUnique(t, Bytes(26), 0xffff, 0);
    MantissaLoses(t, 26);
    var k := EncodeForm(t, false);
    LosesUnique(t, k, t, 26);
    LosesUnique(t, 26, t, k);
  }
}
