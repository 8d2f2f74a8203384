/** Tier rule, and the miner's pre-submit gate that drops windows of too little surprisal. */
module EntropyGate {
  import opened Bits
  import opened Credit
  import opened Powers
  import opened RealMul

  const B_FLOOR_BITS: nat := 45
  const B_FREE_BITS: nat := 70

  datatype Tier = Invalid | Admission | Free

  function TierForUnits(units: nat): Tier {
    if units < B_FLOOR_BITS * BCRED_R then Invalid
    else if units < B_FREE_BITS * BCRED_R then Admission
    else Free
  }

  /** What the gate charges for one chosen probability: `-log2 p` bits, or the 32-bit cap. */
  function Charge(p: real): real {
    if 0.0 < p <= 1.0 then p else 1.0 / RPow2(32)
  }

  function Charges(ps: seq<real>): (r: seq<real>)
    ensures |r| == |ps| && forall i :: 0 <= i < |ps| ==> r[i] == Charge(ps[i])
  {
    seq(|ps|, i requires 0 <= i < |ps| => Charge(ps[i]))
  }

  /** The charged bits add up to less than 70: the product of the charges is above 2^-70. */
  ghost predicate Dropped(ps: seq<real>) {
    |ps| > 0 && Product(Charges(ps)) > 1.0 / RPow2(B_FREE_BITS)
  }

  lemma ChargeCovers(lower: Double, upper: Double, p: real)
    requires MassQ63ForStep(lower, upper).Ok?
    requires 0.0 < p <= 1.0 ==> p <= TrueMass(lower, upper, ATOL)
    ensures Charge(p) >= 0.0 && Excess(Charge(p), BCRED_R, StepCredit(lower, upper)) <= 1.0
  {
    hide Excess, StepCredit, MassQ63ForStep, TrueMass;
    if 0.0 < p <= 1.0 {
      TrueStepCovered(lower, upper, p);
    } else {
      CreditCapped(lower, upper);
      CapCovers(32, BCRED_R, StepCredit(lower, upper));
    }
  }

  lemma CreditCapped(lower: Double, upper: Double)
    requires MassQ63ForStep(lower, upper).Ok?
    ensures StepCredit(lower, upper) <= 32 * BCRED_R
  {
  }

  lemma CapCovers(k: nat, r: nat, n: nat)
    requires n <= k * r
    ensures Excess(1.0 / RPow2(k), r, n) <= 1.0
  {
    hide Excess;
    ExcessOfHalves(k, r);
    ExcessMono(1.0 / RPow2(k), 1.0 / RPow2(k), r, n, k * r);
  }

  /** A dropped window can never reach the free tier, whatever bounds the verifier derives, as
      long as each interval is at least as wide as the recorded probability less the tolerance. */
  lemma GateIsSound(ps: seq<real>, lowers: seq<Double>, uppers: seq<Double>)
    requires WindowValid(lowers, uppers) && |ps| == |lowers| && Dropped(ps)
    requires forall i :: 0 <= i < |ps| && 0.0 < ps[i] <= 1.0 ==> ps[i] <= TrueMass(lowers[i], uppers[i], ATOL)
    ensures TierForUnits(WindowCredit(lowers, uppers)) != Free
  {
    hide Excess, StepCredit, MassQ63ForStep, TrueMass, Mul, WindowCredit;
    var xs := Charges(ps);
    forall i | 0 <= i < |xs|
      ensures 0.0 <= xs[i] && Excess(xs[i], BCRED_R, StepCredit(lowers[i], uppers[i])) <= 1.0
    {
      ChargeCovers(lowers[i], uppers[i], ps[i]);
    }
    WindowCovered(lowers, uppers, xs);
    ExcessGap(Product(xs), B_FREE_BITS, BCRED_R, WindowCredit(lowers, uppers));
  }

  /** The recorded interval [0, p] is at least as massive as p. */
  lemma RecordedMass(lower: Double, upper: Double, p: real)
    requires lower.Finite? && upper.Finite? && lower.Value() == 0.0 && upper.Value() == p && 0.0 < p <= 1.0
    ensures p <= TrueMass(lower, upper, ATOL)
  {
    hide Double.Value;
  }

  /** On the intervals [0, p] of the recorded probabilities themselves nothing has to be assumed. */
  lemma GateIsSoundOnRecorded(ps: seq<real>, lowers: seq<Double>, uppers: seq<Double>)
    requires WindowValid(lowers, uppers) && |ps| == |lowers| == |uppers| && Dropped(ps)
    requires forall i :: 0 <= i < |ps| ==> lowers[i].Finite? && uppers[i].Finite?
    requires forall i :: 0 <= i < |ps| && 0.0 < ps[i] <= 1.0 ==> lowers[i].Value() == 0.0 && uppers[i].Value() == ps[i]
    ensures TierForUnits(WindowCredit(lowers, uppers)) != Free
  {
    hide TrueMass, WindowCredit, Dropped, WindowValid;
    forall i | 0 <= i < |ps| && 0.0 < ps[i] <= 1.0
      ensures ps[i] <= TrueMass(lowers[i], uppers[i], ATOL)
    {
      RecordedMass(lowers[i], uppers[i], ps[i]);
    }
    GateIsSound(ps, lowers, uppers);
  }

  /** Windows below 45 bits are invalid, from 70 bits on they are free; there are 1024 units to a bit. */
  lemma TierExactly(units: nat)
    ensures TierForUnits(units) == Invalid <==> units < 46080
    ensures TierForUnits(units) == Admission <==> 46080 <= units < 71680
    ensures TierForUnits(units) == Free <==> 71680 <= units
  {
  }

  /** On probabilities, a window is dropped exactly when their product is above 2^-70. */
  lemma DroppedExactly(ps: seq<real>)
    requires ps != [] && forall i :: 0 <= i < |ps| ==> 0.0 < ps[i] <= 1.0
    ensures Dropped(ps) <==> Product(ps) > 1.0 / RPow2(70)
  {
    assert Charges(ps) == ps;
  }

  /** Anything else is charged 32 bits. */
  lemma OutOfRangeCharge(p: real)
    requires !(0.0 < p <= 1.0)
    ensures Mul(Charge(p), RPow2(32)) == 1.0
  {
    Quotient(1.0, RPow2(32));
  }
}
