/** What the sampler tail comes to in exact arithmetic: a probability distribution over the tokens
    above minus infinity, proportional to their weights. */
module ExactTail {
  import opened Floats
  import opened SamplerTail
  import opened RealMul

  datatype Extended = NegInf | Fin(r: real)

  /** Sums, products and reciprocals are exact, and the weight of a finite value is positive. */
  ghost predicate Exact(o: Ops<Extended, real>) {
    o.zero == Fin(0.0) && o.dzero == 0.0 && o.ninf == NegInf
    && (forall x: Extended, y: Extended {:trigger o.add(x, y)} {:trigger o.mul(x, y)} ::
          x.Fin? && y.Fin? ==> o.add(x, y) == Sum(x, y) && o.mul(x, y) == Times(x, y))
    && (forall x: real, y: real :: o.dadd(x, y) == x + y)
    && (forall z: real, x: Extended :: x.Fin? ==> o.accumulate(z, x) == z + x.r)
    && (forall z :: (o.positive(z) <==> z > 0.0) && (z > 0.0 ==> o.recip(z) == Fin(1.0 / z)))
    && (forall v, m :: v != NegInf ==> o.expDiff(v, m).Fin? && o.expDiff(v, m).r > 0.0)
  }

  /** Such arithmetic exists, with weight one for every finite value. */
  function Ordinary(): Ops<Extended, real> {
    Ops<Extended, real>.Ops((x, y) => true, Fin(0.0), NegInf, (v, m) => Fin(1.0), (x, y) => Times(x, y),
                            (x, y) => Sum(x, y), 0.0, (z, x) => z + Value(x), z => z > 0.0,
                            z => if z > 0.0 then Fin(1.0 / z) else NegInf, (v, m) => 1.0, (x, y) => x + y, (m, z) => m)
  }

  lemma OrdinaryIsExact()
    ensures Exact(Ordinary())
  {
    hide Mul, Sum, Times;
  }

  function Times(x: Extended, y: Extended): Extended { Fin(Mul(Value(x), Value(y))) }

  function Sum(x: Extended, y: Extended): Extended { Fin(Value(x) + Value(y)) }

  function Value(x: Extended): real { if x.Fin? then x.r else 0.0 }

  function Weight(o: Ops<Extended, real>, v: Extended, m: Extended): real { Value(o.expDiff(v, m)) }

  /** The weight of the first `n` tokens, those at minus infinity apart. */
  function TotalWeight(o: Ops<Extended, real>, logits: seq<Extended>, m: Extended, n: nat): real
    requires n <= |logits|
  {
    if n == 0 then 0.0
    else TotalWeight(o, logits, m, n - 1) + if logits[n - 1] != NegInf then Weight(o, logits[n - 1], m) else 0.0
  }

  function Total(xs: seq<Extended>, n: nat): real
    requires n <= |xs|
  {
    if n == 0 then 0.0 else Total(xs, n - 1) + Value(xs[n - 1])
  }

  lemma Basics(o: Ops<Extended, real>)
    requires Exact(o)
    ensures o.zero == Fin(0.0) && o.dzero == 0.0 && o.ninf == NegInf
  {
  }

  lemma Weighs(o: Ops<Extended, real>, v: Extended, m: Extended, z: real)
    requires Exact(o) && v != NegInf
    ensures o.expDiff(v, m) == Fin(Weight(o, v, m)) && Weight(o, v, m) > 0.0
    ensures o.accumulate(z, o.expDiff(v, m)) == z + Weight(o, v, m)
    ensures z > 0.0 ==> Prob(o, v, m, z) == Fin(Mul(Weight(o, v, m), 1.0 / z))
  {
    hide Mul;
    var w := Weight(o, v, m);
    assert o.accumulate(z, Fin(w)) == z + w;
    if z > 0.0 { assert o.mul(Fin(w), Fin(1.0 / z)) == Times(Fin(w), Fin(1.0 / z)); }
  }

  lemma Adds(o: Ops<Extended, real>, x: real, y: Extended)
    requires Exact(o) && y.Fin?
    ensures o.add(Fin(x), y) == Fin(x + y.r)
  {
    assert o.add(Fin(x), y) == Sum(Fin(x), y);
  }

  lemma {:induction false} MassIsTotal(o: Ops<Extended, real>, logits: seq<Extended>, m: Extended, n: nat)
    requires Exact(o) && n <= |logits|
    ensures Mass(o, KeptValues(logits, Live(o, logits), n), m) == TotalWeight(o, logits, m, n) >= 0.0
    ensures (exists i :: 0 <= i < n && logits[i] != NegInf) ==> TotalWeight(o, logits, m, n) > 0.0
  {
    hide KeptValues, Mass, Exact, Weight;
    Basics(o);
    if n == 0 {
      KeptStep(logits, Live(o, logits), 0);
      EmptyFolds(o);
    } else {
      MassIsTotal(o, logits, m, n - 1);
      KeptStep(logits, Live(o, logits), n - 1);
      if logits[n - 1] != NegInf {
        FoldSnoc(o, KeptValues(logits, Live(o, logits), n - 1), logits[n - 1], m);
        Weighs(o, logits[n - 1], m, TotalWeight(o, logits, m, n - 1));
      } else if i :| 0 <= i < n && logits[i] != NegInf {
        assert i < n - 1;
      }
    }
  }

  lemma {:induction false} ScaledTotal(o: Ops<Extended, real>, logits: seq<Extended>, m: Extended,
                                       probs: seq<Extended>, z: real, n: nat)
    requires n <= |logits| == |probs| && z > 0.0
    requires forall i :: 0 <= i < |logits| ==>
               probs[i] == if logits[i] != NegInf then Fin(Mul(Weight(o, logits[i], m), 1.0 / z)) else Fin(0.0)
    ensures Total(probs, n) == Mul(TotalWeight(o, logits, m, n), 1.0 / z)
  {
    hide Mul;
    if n == 0 {
      Units(1.0 / z);
    } else {
      ScaledTotal(o, logits, m, probs, z, n - 1);
      if logits[n - 1] != NegInf { Distrib(TotalWeight(o, logits, m, n - 1), Weight(o, logits[n - 1], m), 1.0 / z); }
    }
  }

  lemma {:induction false} CumIsTotal(o: Ops<Extended, real>, probs: seq<Extended>, live: seq<bool>, n: nat)
    requires Exact(o) && n <= |probs| == |live|
    requires forall i :: 0 <= i < |probs| ==> probs[i].Fin? && (!live[i] ==> probs[i].r == 0.0)
    ensures Cum(o, KeptValues(probs, live, n)) == Fin(Total(probs, n))
  {
    hide KeptValues, Cum, Exact;
    Basics(o);
    if n == 0 {
      KeptStep(probs, live, 0);
      EmptyFolds(o);
    } else {
      CumIsTotal(o, probs, live, n - 1);
      KeptStep(probs, live, n - 1);
      Adds(o, Total(probs, n - 1), probs[n - 1]);
      if live[n - 1] { FoldSnoc(o, KeptValues(probs, live, n - 1), probs[n - 1], o.zero); }
    }
  }

  /** The maximum of the live logits bounds every logit and is one of them. */
  lemma {:induction false} MaxIsGreatest(o: Ops<Extended, real>, logits: seq<Extended>, n: nat)
    requires TotalOrder(o) && o.ninf == NegInf && n <= |logits|
    ensures var m := MaxOf(o, KeptValues(logits, Live(o, logits), n));
            (forall i :: 0 <= i < n ==> o.le(logits[i], m)) && (m == NegInf || exists i :: 0 <= i < n && logits[i] == m)
  {
    hide MaxOf, KeptValues;
    var live := Live(o, logits);
    if n == 0 {
      KeptStep(logits, live, 0);
      EmptyFolds(o);
    } else {
      MaxIsGreatest(o, logits, n - 1);
      KeptStep(logits, live, n - 1);
      var m := MaxOf(o, KeptValues(logits, live, n - 1));
      forall i: nat | i < n - 1 { Order(o, logits[i], m, logits[n - 1]); }
      if live[n - 1] { FoldSnoc(o, KeptValues(logits, live, n - 1), logits[n - 1], NegInf); }
    }
  }

  function TotalWide(o: Ops<Extended, real>, logits: seq<Extended>, m: Extended, n: nat): real
    requires n <= |logits|
  {
    if n == 0 then 0.0
    else TotalWide(o, logits, m, n - 1) + if logits[n - 1] != NegInf then o.wideExp(logits[n - 1], m) else 0.0
  }

  lemma WideAdds(o: Ops<Extended, real>, x: real, y: real)
    requires Exact(o)
    ensures o.dadd(x, y) == x + y
  {
  }

  lemma {:induction false} SumIsTotal(o: Ops<Extended, real>, logits: seq<Extended>, m: Extended, n: nat)
    requires Exact(o) && n <= |logits|
    ensures KeptSum(o, KeptValues(logits, Live(o, logits), n), m) == TotalWide(o, logits, m, n)
  {
    hide KeptValues, KeptSum, Exact;
    Basics(o);
    if n == 0 {
      KeptStep(logits, Live(o, logits), 0);
      EmptyFolds(o);
    } else {
      SumIsTotal(o, logits, m, n - 1);
      KeptStep(logits, Live(o, logits), n - 1);
      if logits[n - 1] != NegInf {
        WideAdds(o, TotalWide(o, logits, m, n - 1), o.wideExp(logits[n - 1], m));
        FoldSnoc(o, KeptValues(logits, Live(o, logits), n - 1), logits[n - 1], m);
      }
    }
  }

  /** The logarithm of the normaliser is taken of the greatest logit and of the sum of all tokens'
      weights relative to it; without a token above minus infinity it is minus infinity. */
  lemma NormaliserIs(o: Ops<Extended, real>, logits: seq<Extended>, t: Tail<Extended>)
    requires Exact(o) && TotalOrder(o) && IsTail(o, logits, t)
    ensures (forall i :: 0 <= i < |logits| ==> logits[i] == NegInf) ==> t.logZ == NegInf
    ensures forall m :: m != NegInf && m in logits && (forall i :: 0 <= i < |logits| ==> o.le(logits[i], m)) ==>
              t.logZ == o.logNorm(m, TotalWide(o, logits, m, |logits|))
  {
    hide MaxOf, KeptSum, KeptValues, IsSoftmax, IsCdf;
    var top := MaxOf(o, KeptValues(logits, Live(o, logits), |logits|));
    MaxIsGreatest(o, logits, |logits|);
    SumIsTotal(o, logits, top, |logits|);
    forall m | m != NegInf && m in logits && forall i :: 0 <= i < |logits| ==> o.le(logits[i], m)
      ensures m == top
    {
    }
  }

  /** With a token above minus infinity, the probabilities are the tokens' shares of the total weight,
      zero at minus infinity, and sum to one; each cumulative entry is the sum up to its token. */
  lemma TailIsDistribution(o: Ops<Extended, real>, logits: seq<Extended>, t: Tail<Extended>)
    requires Exact(o) && IsTail(o, logits, t) && exists i :: 0 <= i < |logits| && logits[i] != NegInf
    ensures var n, m := |logits|, MaxOf(o, KeptValues(logits, Live(o, logits), |logits|));
            |t.probs| == |t.cdf| == n && TotalWeight(o, logits, m, n) > 0.0
            && (forall i :: 0 <= i < n ==> t.probs[i].Fin?)
            && (forall i :: 0 <= i < n ==>
                  Mul(t.probs[i].r, TotalWeight(o, logits, m, n)) == if logits[i] != NegInf then Weight(o, logits[i], m) else 0.0)
            && Total(t.probs, n) == 1.0
            && forall i :: 0 <= i < n ==> t.cdf[i] == Fin(Total(t.probs, i + 1))
  {
    hide MaxOf, Mass, Cum, KeptValues, Mul, Exact, Weight, Prob;
    Basics(o);
    var n, live, m := |logits|, Live(o, logits), MaxOf(o, KeptValues(logits, Live(o, logits), |logits|));
    MassIsTotal(o, logits, m, n);
    var z := TotalWeight(o, logits, m, n);
    forall i | 0 <= i < n
      ensures t.probs[i] == if logits[i] != NegInf then Fin(Mul(Weight(o, logits[i], m), 1.0 / z)) else Fin(0.0)
      ensures Mul(t.probs[i].r, z) == if logits[i] != NegInf then Weight(o, logits[i], m) else 0.0
    {
      if logits[i] != NegInf {
        Weighs(o, logits[i], m, z);
        BackAgain(Weight(o, logits[i], m), z);
      } else {
        Units(z);
      }
    }
    ScaledTotal(o, logits, m, t.probs, z, n);
    BackAgain(z, z);
    forall i | 0 <= i < n
      ensures t.cdf[i] == Fin(Total(t.probs, i + 1))
    {
      CumIsTotal(o, t.probs, live, i + 1);
    }
  }

  lemma BackAgain(x: real, z: real)
    requires z > 0.0
    ensures Mul(Mul(x, 1.0 / z), z) == x && Mul(z, 1.0 / z) == 1.0
  {
    hide Mul;
    Quotient(1.0, z);
    Assoc(x, 1.0 / z, z);
    Comm(1.0 / z, z);
    Units(x);
  }
}
