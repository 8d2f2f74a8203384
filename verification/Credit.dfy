/** Consensus credit of a proof window: interval masses in Q63 fixed point, credit units from a
    threshold table, and their sum over the window. */
module Credit {
  import opened Arith
  import opened Bits
  import opened Powers
  import opened RealMul

  const BCRED_R: nat := 1024
  const BCRED_N_MAX: nat := 32 * 1024
  const Q_ONE: nat := 0x8000_0000_0000_0000
  const ATOL: real := 0.0001
  const ATOL_Q63_CEIL: nat := 922337203685478

  datatype Result<T> = Ok(value: T) | ValueError

  /** A double, with a finite magnitude in the form `frexp` gives it: `mant * 2^(exp - 53)`.
      Nothing below needs the mantissa to have 53 bits. */
  datatype Double = NaN | Infinite | Finite(neg: bool, mant: nat, exp: int) {
    function Value(): real
      requires Finite?
    {
      if neg then -Scale(mant, exp - 53) else Scale(mant, exp - 53)
    }
  }

  /** `m * 2^k` */
  function Scale(m: nat, k: int): real {
    if k >= 0 then Mul(m as real, RPow2(k)) else m as real / RPow2(-k)
  }

  function Clamp(x: real): real { if x < 0.0 then 0.0 else if x > 1.0 then 1.0 else x }

  lemma QOne()
    ensures Q_ONE as real == RPow2(63)
  {
    Pow2Values();
    Pow2Add(31, 32);
    assert Pow2(32) == 2 * Pow2(31);
  }

  /** Scaling by 2^63 moves the exponent. */
  lemma ScaleBy63(m: nat, e: int)
    ensures Mul(Scale(m, e - 53), RPow2(63)) == Scale(m, e + 10)
  {
    hide Mul, Pow2;
    var k, x, one := e - 53, m as real, RPow2(63);
    if k >= 0 {
      RPow2Add(k, 63);
      Assoc(x, RPow2(k), one);
    } else if e + 10 >= 0 {
      RPow2Add(-k, e + 10);
      Quotient(x, RPow2(-k));
      Assoc(x / RPow2(-k), RPow2(-k), RPow2(e + 10));
    } else {
      var y, d := x / RPow2(-k), RPow2(-(e + 10));
      RPow2Add(63, -(e + 10));
      Quotient(x, RPow2(-k));
      Assoc(y, one, d);
      DivIs(x, d, Mul(y, one));
    }
  }

  // ---- exact quantisation ----

  lemma DivideBounds(m: nat, p: nat, q: int)
    requires p > 0
    ensures p * q <= m ==> q as real <= m as real / p as real
    ensures m < p * q + p ==> m as real / p as real < q as real + 1.0
    ensures m <= p * q ==> m as real / p as real <= q as real
    ensures p * q - p < m ==> q as real - 1.0 < m as real / p as real
  {
    hide Mul;
    var x, d, y := m as real, p as real, q as real;
    OfInts(q, p);
    Units(d);
    Distrib(y, 1.0, d);
    assert p * q == q * p;
    DivIs(x, d, y);
    DivIs(x, d, y + 1.0);
    DivIs(x, d, y - 1.0);
  }

  function ShiftFloor(m: nat, k: int): (r: nat)
    ensures k >= 0 ==> r as real == Scale(m, k)
    ensures r as real <= Scale(m, k) < r as real + 1.0
  {
    var p := Pow2(if k >= 0 then k else -k);
    DivIsFloor(m, p, 0);
    DivideBounds(m, p, m / p);
    OfInts(m, p);
    if k >= 0 then m * p else m / p
  }

  function ShiftCeil(m: nat, k: int): (r: nat)
    ensures r as real - 1.0 < Scale(m, k) <= r as real
  {
    var p := Pow2(if k >= 0 then k else -k);
    DivIsFloor(m + p - 1, p, 0);
    DivideBounds(m, p, (m + p - 1) / p);
    OfInts(m, p);
    if k >= 0 then m * p else (m + p - 1) / p
  }

  /** A clamped value in Q63 units. */
  function Q63(v: real): real { Mul(v, RPow2(63)) }

  lemma Q63Bounds(v: real)
    requires 0.0 <= v <= 1.0
    ensures 0.0 <= Q63(v) <= Q_ONE as real && Q63(0.0) == 0.0 && Q63(1.0) == Q_ONE as real
    ensures v < 1.0 ==> Q63(v) < Q_ONE as real
  {
    hide Mul;
    QOne();
    Units(RPow2(63));
    Mono(0.0, v, RPow2(63));
    Mono(v, 1.0, RPow2(63));
  }

  /** `frexp` in integers: for `x` in (0, 1), `x * 2^63` is the mantissa shifted by `exp + 10`. */
  lemma FractionScaled(x: Double)
    requires x.Finite? && 0.0 < x.Value() < 1.0
    ensures Q63(x.Value()) == Scale(x.mant, x.exp + 10) < Q_ONE as real
  {
    hide Mul;
    ScaleNonNegative(x.mant, x.exp - 53);
    ScaleBy63(x.mant, x.exp);
    Q63Bounds(x.Value());
  }

  lemma ScaleNonNegative(m: nat, k: int)
    ensures Scale(m, k) >= 0.0
  {
    hide Mul;
    if k >= 0 { Positive(m as real, RPow2(k)); } else { DivIs(m as real, RPow2(-k), 0.0); Units(RPow2(-k)); }
  }

  /** floor(x * 2^63) of a double in [0, 1], by an exact shift. */
  function F64ToQ63Floor(x: Double): (q: nat)
    requires x.Finite?
    ensures q <= Q_ONE
    ensures q as real <= Q63(Clamp(x.Value())) < q as real + 1.0
  {
    Q63Bounds(Clamp(x.Value()));
    if x.Value() <= 0.0 then 0
    else if x.Value() >= 1.0 then Q_ONE
    else FractionScaled(x); ShiftFloor(x.mant, x.exp + 10)
  }

  /** ceil(x * 2^63) of a double in [0, 1]. */
  function F64ToQ63Ceil(x: Double): (q: nat)
    requires x.Finite?
    ensures q <= Q_ONE
    ensures q as real - 1.0 < Q63(Clamp(x.Value())) <= q as real
  {
    Q63Bounds(Clamp(x.Value()));
    if x.Value() <= 0.0 then 0
    else if x.Value() >= 1.0 then Q_ONE
    else FractionScaled(x); ShiftCeil(x.mant, x.exp + 10)
  }

  // ---- interval mass ----

  /** Conservative mass of one step: the endpoints round outward, then widen by the tolerance. */
  function MassQ63ForStep(lower: Double, upper: Double, atol: nat := ATOL_Q63_CEIL): (r: Result<nat>)
    ensures r.Ok? <==> lower.Finite? && upper.Finite? && lower.Value() <= upper.Value()
    ensures r.Ok? ==> r.value <= Q_ONE && (atol > 0 ==> r.value > 0)
  {
    if !lower.Finite? || !upper.Finite? then ValueError
    else if upper.Value() < lower.Value() then ValueError
    else
      QuantisedOrder(lower, upper);
      var mass := F64ToQ63Ceil(upper) - F64ToQ63Floor(lower) + 2 * atol;
      Ok(if mass > Q_ONE then Q_ONE else mass)
  }

  lemma QuantisedOrder(lower: Double, upper: Double)
    requires lower.Finite? && upper.Finite? && lower.Value() <= upper.Value()
    ensures F64ToQ63Floor(lower) <= F64ToQ63Ceil(upper)
  {
    Mono(Clamp(lower.Value()), Clamp(upper.Value()), RPow2(63));
  }

  /** The part of the unit interval between the endpoints, widened by `2 * a` and capped at one. */
  function TrueMass(lower: Double, upper: Double, a: real): real
    requires lower.Finite? && upper.Finite?
  {
    var w := Clamp(upper.Value()) - Clamp(lower.Value()) + 2.0 * a;
    if w > 1.0 then 1.0 else w
  }

  /** Every rounding over-estimates: the quantised mass covers the true mass, by less than two quanta. */
  lemma MassCoversTruth(lower: Double, upper: Double, atol: nat, a: real)
    requires MassQ63ForStep(lower, upper, atol).Ok? && Q63(a) <= atol as real
    ensures Q63(TrueMass(lower, upper, a)) <= MassQ63ForStep(lower, upper, atol).value as real
    ensures Q63(a) == atol as real ==>
              MassQ63ForStep(lower, upper, atol).value as real < Q63(TrueMass(lower, upper, a)) + 2.0
  {
    hide Mul, F64ToQ63Ceil, F64ToQ63Floor, Double.Value;
    QuantisedOrder(lower, upper);
    var u, l := Clamp(upper.Value()), Clamp(lower.Value());
    var w := u - l + 2.0 * a;
    Distrib(u, l, RPow2(63));
    Distrib(a, a, RPow2(63));
    Distrib(u - l, a + a, RPow2(63));
    assert Q63(w) == Q63(u) - Q63(l) + 2.0 * Q63(a);
    Q63Bounds(1.0);
    if w > 1.0 { Mono(1.0, w, RPow2(63)); } else { Mono(w, 1.0, RPow2(63)); }
  }

  lemma QuantisedMono(x: Double, y: Double)
    requires x.Finite? && y.Finite? && x.Value() <= y.Value()
    ensures F64ToQ63Ceil(x) <= F64ToQ63Ceil(y) && F64ToQ63Floor(x) <= F64ToQ63Floor(y)
  {
    hide Mul;
    Mono(Clamp(x.Value()), Clamp(y.Value()), RPow2(63));
    assert F64ToQ63Ceil(x) as real - 1.0 < F64ToQ63Ceil(y) as real;
    assert F64ToQ63Floor(x) as real < F64ToQ63Floor(y) as real + 1.0;
  }

  /** Widening an interval never lowers its mass. */
  lemma MassMono(lower: Double, upper: Double, lower': Double, upper': Double, atol: nat)
    requires MassQ63ForStep(lower, upper, atol).Ok? && lower'.Finite? && upper'.Finite?
    requires lower'.Value() <= lower.Value() && upper.Value() <= upper'.Value()
    ensures MassQ63ForStep(lower', upper', atol).Ok?
    ensures MassQ63ForStep(lower, upper, atol).value <= MassQ63ForStep(lower', upper', atol).value
  {
    hide F64ToQ63Ceil, F64ToQ63Floor, Double.Value;
    QuantisedMono(upper, upper');
    QuantisedMono(lower', lower);
    QuantisedOrder(lower, upper);
  }

  // ---- the threshold table ----

  /** `t / 2^63 <= 2^(-n / R)`, raised to the power `R`. */
  ghost predicate Fits(t: nat, n: nat) {
    Excess(t as real / Q_ONE as real, BCRED_R, n) <= 1.0
  }

  lemma FitsDown(t: nat, n: nat, t': nat, n': nat)
    requires Fits(t, n) && t' <= t && n' <= n
    ensures Fits(t', n')
  {
    ExcessMono(t' as real / Q_ONE as real, t as real / Q_ONE as real, BCRED_R, n', n);
  }

  lemma FitsZero(t: nat)
    requires t <= Q_ONE
    ensures Fits(t, 0)
  {
    ExcessMono(t as real / Q_ONE as real, 1.0, BCRED_R, 0, 0);
    ExcessOne(BCRED_R);
  }

  lemma ZeroFits(n: nat)
    ensures Fits(0, n)
  {
    Units(RPow(0.0, BCRED_R - 1));
    Units(RPow2(n));
  }

  ghost function LargestFitting(n: nat, t: nat): (r: nat)
    ensures r <= t && Fits(r, n)
    ensures forall u: nat :: r < u <= t ==> !Fits(u, n)
  {
    ZeroFits(n);
    if t == 0 || Fits(t, n) then t else LargestFitting(n, t - 1)
  }

  /** Entry `n` of the credit table, floor(2^63 * 2^(-n / R)). */
  ghost function Threshold(n: nat): (r: nat)
    ensures r <= Q_ONE && Fits(r, n)
    ensures forall u: nat :: r < u <= Q_ONE ==> !Fits(u, n)
  {
    LargestFitting(n, Q_ONE)
  }

  /** The table is non-increasing and starts at one. */
  lemma ThresholdTable(m: nat, n: nat)
    requires m <= n
    ensures Threshold(n) <= Threshold(m) && Threshold(0) == Q_ONE
  {
    FitsZero(Q_ONE);
    FitsDown(Threshold(n), n, Threshold(n), m);
  }

  // ---- credit of a step ----

  /** `n` is the largest index whose threshold is at least the mass. */
  ghost predicate IsCredit(n: nat, mass: nat) {
    n <= BCRED_N_MAX && mass <= Threshold(n) && forall m: nat :: n < m <= BCRED_N_MAX ==> Threshold(m) < mass
  }

  /** A mass fits index `n` exactly when the credit reaches `n`. */
  lemma CreditIsFit(n: nat, mass: nat, m: nat)
    requires IsCredit(n, mass) && m <= BCRED_N_MAX && mass <= Q_ONE
    ensures Fits(mass, m) <==> m <= n
  {
    if m <= n { FitsDown(Threshold(n), n, mass, m); } else { assert Threshold(m) < mass; }
  }

  ghost predicate IsTable(thresholds: seq<nat>) {
    |thresholds| == BCRED_N_MAX + 1 && forall n :: 0 <= n < |thresholds| ==> thresholds[n] == Threshold(n)
  }

  method CreditUnitsForStep(thresholds: seq<nat>, mass: nat) returns (r: Result<nat>)
    requires IsTable(thresholds) && mass <= Q_ONE
    ensures mass == 0 <==> r == ValueError
    ensures r.Ok? ==> IsCredit(r.value, mass)
  {
    if mass <= 0 { return ValueError; }
    ThresholdTable(0, 0);
    var lo, hi := 0, BCRED_N_MAX;
    while lo < hi
      invariant lo <= hi <= BCRED_N_MAX
      invariant mass <= Threshold(lo)
      invariant forall m: nat :: hi < m <= BCRED_N_MAX ==> Threshold(m) < mass
    {
      var mid := (lo + hi + 1) / 2;
      if thresholds[mid] >= mass {
        lo := mid;
      } else {
        forall m: nat | mid <= m <= BCRED_N_MAX ensures Threshold(m) < mass { ThresholdTable(mid, m); }
        hi := mid - 1;
      }
    }
    return Ok(lo);
  }

  lemma CreditUnique(n: nat, m: nat, mass: nat)
    requires IsCredit(n, mass) && IsCredit(m, mass)
    ensures n == m
  {
  }

  ghost function LargestCredit(mass: nat, top: nat): (n: nat)
    requires mass <= Q_ONE && top <= BCRED_N_MAX
    ensures n <= top && mass <= Threshold(n)
    ensures forall m: nat :: n < m <= top ==> Threshold(m) < mass
  {
    ThresholdTable(0, 0);
    if top == 0 || mass <= Threshold(top) then top else LargestCredit(mass, top - 1)
  }

  ghost function CreditOf(mass: nat): (n: nat)
    requires mass <= Q_ONE
    ensures IsCredit(n, mass)
  {
    LargestCredit(mass, BCRED_N_MAX)
  }

  /** A heavier step never earns more. */
  lemma CreditMono(mass: nat, mass': nat)
    requires mass <= mass' <= Q_ONE
    ensures CreditOf(mass') <= CreditOf(mass)
  {
    CreditIsFit(CreditOf(mass'), mass', CreditOf(mass'));
    FitsDown(mass', CreditOf(mass'), mass, CreditOf(mass'));
    CreditIsFit(CreditOf(mass), mass, CreditOf(mass'));
  }

  // ---- credit of a window ----

  ghost predicate WindowValid(lowers: seq<Double>, uppers: seq<Double>) {
    |lowers| == |uppers|
    && forall i :: 0 <= i < |lowers| ==> MassQ63ForStep(lowers[i], uppers[i]).Ok?
  }

  ghost function StepCredit(lower: Double, upper: Double): nat
    requires MassQ63ForStep(lower, upper).Ok?
  {
    CreditOf(MassQ63ForStep(lower, upper).value)
  }

  ghost function WindowCredit(lowers: seq<Double>, uppers: seq<Double>): nat
    requires WindowValid(lowers, uppers)
  {
    if lowers == [] then 0
    else
      var k := |lowers| - 1;
      WindowCredit(lowers[..k], uppers[..k]) + StepCredit(lowers[k], uppers[k])
  }

  lemma PrefixStep(lowers: seq<Double>, uppers: seq<Double>, i: nat)
    requires |lowers| == |uppers| && i < |lowers|
    requires WindowValid(lowers[..i], uppers[..i]) && MassQ63ForStep(lowers[i], uppers[i]).Ok?
    ensures WindowValid(lowers[..i + 1], uppers[..i + 1])
    ensures WindowCredit(lowers[..i + 1], uppers[..i + 1])
            == WindowCredit(lowers[..i], uppers[..i]) + StepCredit(lowers[i], uppers[i])
  {
    hide MassQ63ForStep, StepCredit;
    assert lowers[..i + 1][..i] == lowers[..i] && uppers[..i + 1][..i] == uppers[..i];
  }

  /** Sums the credit of the steps; any invalid step invalidates the window. */
  method BCredUnitsFromBounds(thresholds: seq<nat>, lowers: seq<Double>, uppers: seq<Double>) returns (r: Result<nat>)
    requires IsTable(thresholds)
    ensures r.Ok? <==> WindowValid(lowers, uppers)
    ensures r.Ok? ==> r.value == WindowCredit(lowers, uppers)
  {
    hide F64ToQ63Ceil, F64ToQ63Floor, Threshold, IsTable, IsCredit, WindowCredit, Double.Value;
    if |lowers| != |uppers| { return ValueError; }
    var total := 0;
    assert WindowCredit(lowers[..0], uppers[..0]) == 0 by { EmptyWindow(lowers[..0], uppers[..0]); }
    for i := 0 to |lowers|
      invariant WindowValid(lowers[..i], uppers[..i])
      invariant total == WindowCredit(lowers[..i], uppers[..i])
    {
      var mass := MassQ63ForStep(lowers[i], uppers[i]);
      if mass.ValueError? { return ValueError; }
      var credit := CreditUnitsForStep(thresholds, mass.value);
      CreditUnique(credit.value, StepCredit(lowers[i], uppers[i]), mass.value);
      PrefixStep(lowers, uppers, i);
      total := total + credit.value;
    }
    assert lowers[..|lowers|] == lowers && uppers[..|uppers|] == uppers;
    return Ok(total);
  }

  lemma EmptyWindow(lowers: seq<Double>, uppers: seq<Double>)
    requires lowers == uppers == []
    ensures WindowValid(lowers, uppers) && WindowCredit(lowers, uppers) == 0
  {
  }

  /** The checked-in constant is ceil(ATOL * 2^63). */
  lemma AtolCovered()
    ensures ATOL_Q63_CEIL as real - 1.0 < Q63(ATOL) <= ATOL_Q63_CEIL as real
  {
    QOne();
    hide Pow2;
    assert Mul(ATOL, Q_ONE as real) == 0.0001 * 9223372036854775808.0;
  }

  /** A step's credit is covered by any factor that its quantised mass covers. */
  lemma StepCovered(lower: Double, upper: Double, x: real)
    requires MassQ63ForStep(lower, upper).Ok?
    requires 0.0 <= x && Q63(x) <= MassQ63ForStep(lower, upper).value as real
    ensures Excess(x, BCRED_R, StepCredit(lower, upper)) <= 1.0
  {
    hide Excess, F64ToQ63Ceil, F64ToQ63Floor, Threshold, Mul, Pow2, Double.Value;
    var mass := MassQ63ForStep(lower, upper).value;
    var n := StepCredit(lower, upper);
    CreditIsFit(n, mass, n);
    QOne();
    DivIs(mass as real, RPow2(63), x);
    ExcessMono(x, mass as real / Q_ONE as real, BCRED_R, n, n);
  }

  /** In particular by the true mass, and by anything below it. */
  lemma TrueStepCovered(lower: Double, upper: Double, x: real)
    requires MassQ63ForStep(lower, upper).Ok?
    requires 0.0 <= x <= TrueMass(lower, upper, ATOL)
    ensures Excess(x, BCRED_R, StepCredit(lower, upper)) <= 1.0
  {
    hide Excess, MassQ63ForStep, TrueMass, Mul, StepCredit;
    AtolCovered();
    MassCoversTruth(lower, upper, ATOL_Q63_CEIL, ATOL);
    Mono(x, TrueMass(lower, upper, ATOL), RPow2(63));
    StepCovered(lower, upper, x);
  }

  ghost function Product(xs: seq<real>): real {
    if xs == [] then 1.0 else Mul(Product(xs[..|xs| - 1]), xs[|xs| - 1])
  }

  /** If every step's credit is covered by a factor, the window's credit is covered by their product. */
  lemma {:induction false} WindowCovered(lowers: seq<Double>, uppers: seq<Double>, xs: seq<real>)
    requires WindowValid(lowers, uppers) && |xs| == |lowers|
    requires forall i :: 0 <= i < |xs| ==> 0.0 <= xs[i]
    requires forall i :: 0 <= i < |xs| ==> Excess(xs[i], BCRED_R, StepCredit(lowers[i], uppers[i])) <= 1.0
    ensures 0.0 <= Product(xs)
    ensures Excess(Product(xs), BCRED_R, WindowCredit(lowers, uppers)) <= 1.0
  {
    hide Excess, StepCredit, Threshold, Mul, MassQ63ForStep;
    if |xs| == 0 {
      ExcessOne(BCRED_R);
    } else {
      var k := |xs| - 1;
      WindowCovered(lowers[..k], uppers[..k], xs[..k]);
      Positive(Product(xs[..k]), xs[k]);
      ExcessWithinOne(Product(xs[..k]), xs[k], BCRED_R, WindowCredit(lowers[..k], uppers[..k]), StepCredit(lowers[k], uppers[k]));
    }
  }

  /** The quantised masses of a window, as fractions of 2^63. */
  ghost function QuantisedMasses(lowers: seq<Double>, uppers: seq<Double>): seq<real>
    requires WindowValid(lowers, uppers)
  {
    seq(|lowers|, i requires 0 <= i < |lowers| => MassQ63ForStep(lowers[i], uppers[i]).value as real / Q_ONE as real)
  }

  ghost function TrueMasses(lowers: seq<Double>, uppers: seq<Double>): seq<real>
    requires WindowValid(lowers, uppers)
  {
    seq(|lowers|, i requires 0 <= i < |lowers| => TrueMass(lowers[i], uppers[i], ATOL))
  }

  /** Never over-credit: `2^B` times the `R`-th power of the product of the masses is at most one,
      so `B / R` bits never exceed the surprisal of the window, neither on the quantised masses
      nor on the true ones. */
  lemma NeverOverCredit(lowers: seq<Double>, uppers: seq<Double>)
    requires WindowValid(lowers, uppers)
    ensures Excess(Product(QuantisedMasses(lowers, uppers)), BCRED_R, WindowCredit(lowers, uppers)) <= 1.0
    ensures Excess(Product(TrueMasses(lowers, uppers)), BCRED_R, WindowCredit(lowers, uppers)) <= 1.0
  {
    hide Excess, StepCredit, WindowCredit, Mul;
    var qs, ts := QuantisedMasses(lowers, uppers), TrueMasses(lowers, uppers);
    forall i | 0 <= i < |qs|
      ensures 0.0 <= qs[i] && Excess(qs[i], BCRED_R, StepCredit(lowers[i], uppers[i])) <= 1.0
      ensures 0.0 <= ts[i] && Excess(ts[i], BCRED_R, StepCredit(lowers[i], uppers[i])) <= 1.0
    {
      QOne();
      Quotient(MassQ63ForStep(lowers[i], uppers[i]).value as real, RPow2(63));
      StepCovered(lowers[i], uppers[i], qs[i]);
      TrueStepCovered(lowers[i], uppers[i], ts[i]);
    }
    WindowCovered(lowers, uppers, qs);
    WindowCovered(lowers, uppers, ts);
  }

  ghost predicate Wider(lower: Double, upper: Double, lower': Double, upper': Double) {
    lower.Finite? && upper.Finite? && lower'.Finite? && upper'.Finite?
    && lower'.Value() <= lower.Value() && upper.Value() <= upper'.Value()
  }

  /** Widening the intervals of a window never raises its credit. */
  lemma {:induction false} WiderEarnsLess(lowers: seq<Double>, uppers: seq<Double>, lowers': seq<Double>, uppers': seq<Double>)
    requires WindowValid(lowers, uppers) && |lowers'| == |uppers'| == |lowers|
    requires forall i :: 0 <= i < |lowers| ==> Wider(lowers[i], uppers[i], lowers'[i], uppers'[i])
    ensures WindowValid(lowers', uppers')
    ensures WindowCredit(lowers', uppers') <= WindowCredit(lowers, uppers)
  {
    forall i | 0 <= i < |lowers|
      ensures MassQ63ForStep(lowers'[i], uppers'[i]).Ok?
      ensures StepCredit(lowers'[i], uppers'[i]) <= StepCredit(lowers[i], uppers[i])
    {
      MassMono(lowers[i], uppers[i], lowers'[i], uppers'[i], ATOL_Q63_CEIL);
      CreditMono(MassQ63ForStep(lowers[i], uppers[i]).value, MassQ63ForStep(lowers'[i], uppers'[i]).value);
    }
    if lowers != [] {
      var k := |lowers| - 1;
      WiderEarnsLess(lowers[..k], uppers[..k], lowers'[..k], uppers'[..k]);
    }
  }

  lemma HalvedMass(k: nat)
    requires k <= 63
    ensures Pow2(63 - k) <= Q_ONE && Pow2(63 - k) as real / Q_ONE as real == 1.0 / RPow2(k)
  {
    hide Mul, Pow2;
    QOne();
    RPow2Add(63 - k, k);
    var m, d := RPow2(63 - k), RPow2(k);
    Mono(1.0, d, m);
    Units(m);
    Quotient(1.0, d);
    Comm(m, d);
    Assoc(1.0 / d, d, m);
    DivIs(m, RPow2(63), 1.0 / d);
  }

  /** A unit is 1/1024 of a bit: a mass of 2^-k earns k bits, up to 32. */
  lemma WholeBits(k: nat)
    requires k <= 63
    ensures Pow2(63 - k) <= Q_ONE && CreditOf(Pow2(63 - k)) == 1024 * if k <= 32 then k else 32
  {
    hide Excess, Threshold, Pow2;
    HalvedMass(k);
    var mass := Pow2(63 - k);
    var n := CreditOf(mass);
    var top := 1024 * if k <= 32 then k else 32;
    CreditIsFit(n, mass, n);
    ExcessGap(1.0 / RPow2(k), k, BCRED_R, n);
    ExcessOfHalves(k, BCRED_R);
    ExcessMono(1.0 / RPow2(k), 1.0 / RPow2(k), BCRED_R, top, k * BCRED_R);
    CreditIsFit(n, mass, top);
  }

  /** The tolerance alone keeps every step under 13 bits, so the 32-bit cap never acts. */
  lemma CapNeverReached(lower: Double, upper: Double)
    requires MassQ63ForStep(lower, upper).Ok?
    ensures StepCredit(lower, upper) <= 13 * BCRED_R
  {
    hide Excess, F64ToQ63Ceil, F64ToQ63Floor, Threshold, Mul, Double.Value;
    QuantisedOrder(lower, upper);
    var mass := MassQ63ForStep(lower, upper).value;
    var n := StepCredit(lower, upper);
    CreditIsFit(n, mass, n);
    assert RPow2(13) == 8192.0;
    assert mass as real / Q_ONE as real >= 1.0 / 8192.0;
    ExcessGap(mass as real / Q_ONE as real, 13, BCRED_R, n);
  }

  /** One more unit would be too much for a step. */
  lemma StepNotUnder(lower: Double, upper: Double)
    requires MassQ63ForStep(lower, upper).Ok?
    ensures Excess(MassQ63ForStep(lower, upper).value as real / Q_ONE as real, BCRED_R, StepCredit(lower, upper) + 1) > 1.0
  {
    hide Excess, Threshold, Mul, F64ToQ63Ceil, F64ToQ63Floor, Double.Value;
    CapNeverReached(lower, upper);
    QuantisedOrder(lower, upper);
    var mass, n := MassQ63ForStep(lower, upper).value, StepCredit(lower, upper);
    CreditIsFit(n, mass, n + 1);
  }

  /** Nor is a window credited too little: one more unit for each step would be too much. */
  lemma NeverUnderCredit(lowers: seq<Double>, uppers: seq<Double>)
    requires WindowValid(lowers, uppers) && lowers != []
    ensures Excess(Product(QuantisedMasses(lowers, uppers)), BCRED_R, WindowCredit(lowers, uppers) + |lowers|) > 1.0
  {
    hide Excess, StepCredit, Mul, MassQ63ForStep;
    var qs := QuantisedMasses(lowers, uppers);
    forall i | 0 <= i < |qs|
      ensures 0.0 <= qs[i] && Excess(qs[i], BCRED_R, StepCredit(lowers[i], uppers[i]) + 1) > 1.0
    {
      QOne();
      Quotient(MassQ63ForStep(lowers[i], uppers[i]).value as real, RPow2(63));
      StepNotUnder(lowers[i], uppers[i]);
    }
    WindowNotUnder(lowers, uppers, qs);
  }

  lemma {:induction false} WindowNotUnder(lowers: seq<Double>, uppers: seq<Double>, xs: seq<real>)
    requires WindowValid(lowers, uppers) && |xs| == |lowers| > 0
    requires forall i :: 0 <= i < |xs| ==> 0.0 <= xs[i]
    requires forall i :: 0 <= i < |xs| ==> Excess(xs[i], BCRED_R, StepCredit(lowers[i], uppers[i]) + 1) > 1.0
    ensures 0.0 <= Product(xs)
    ensures Excess(Product(xs), BCRED_R, WindowCredit(lowers, uppers) + |lowers|) > 1.0
  {
    hide Excess, StepCredit, Mul, MassQ63ForStep;
    var k := |xs| - 1;
    if k == 0 {
      Units(xs[0]);
      EmptyWindow(lowers[..0], uppers[..0]);
      assert Product(xs[..0]) == 1.0;
    } else {
      WindowNotUnder(lowers[..k], uppers[..k], xs[..k]);
      Positive(Product(xs[..k]), xs[k]);
      ExcessAboveOne(Product(xs[..k]), xs[k], BCRED_R, WindowCredit(lowers[..k], uppers[..k]) + k,
                     StepCredit(lowers[k], uppers[k]) + 1);
    }
  }
}
