/** Floating-point arithmetic as an abstract ordered type: only the few laws the fast sampler
    relies on, and no associativity. `F` stands for the non-NaN floats, `D` for the doubles. */
module Floats {

  datatype Ops<!F, !D> = Ops(
    le: (F, F) -> bool,
    zero: F,
    ninf: F,
    expDiff: (F, F) -> F,      // exp(v - max)
    mul: (F, F) -> F,
    add: (F, F) -> F,
    dzero: D,
    accumulate: (D, F) -> D,   // double += float
    positive: D -> bool,       // z > 0
    recip: D -> F,             // float(1.0 / z)
    wideExp: (F, F) -> D,      // exp(double(v - max))
    dadd: (D, D) -> D,
    logNorm: (F, D) -> F)      // max + float(log(sum))
  {
    predicate Less(x: F, y: F) { !le(y, x) }

    /** Transitivity at three values; under a name, so that it is used only where asked for. */
    predicate Chained(x: F, y: F, z: F) { le(x, y) && le(y, z) ==> le(x, z) }

    function Max(x: F, y: F): F { if Less(x, y) then y else x }
  }

  ghost predicate TotalOrder<F(!new), D(!new)>(o: Ops<F, D>) {
    (forall x, y :: o.le(x, y) || o.le(y, x))
    && (forall x, y :: o.le(x, y) && o.le(y, x) ==> x == y)
    && (forall x, y, z :: o.Chained(x, y, z))
    && (forall x :: o.le(o.ninf, x))
  }

  /** The laws are those of finite values: `expDiff` and `add` are only meant where they do not meet
      two infinities, and `recip` where the mass is not so small that its reciprocal overflows a float
      (zero times that would be no number). A mass is at least the weight of the maximum. */
  ghost predicate Laws<F(!new), D(!new)>(o: Ops<F, D>) {
    TotalOrder(o)
    && (forall x :: o.add(x, o.zero) == x)
    && (forall x, p :: o.le(o.zero, p) ==> o.le(x, o.add(x, p)))
    && (forall v, m :: o.le(o.zero, o.expDiff(v, m)))
    && (forall v, m :: o.le(v, m) ==> o.mul(o.expDiff(v, m), o.zero) == o.zero)
    && (forall z :: o.positive(z) ==> o.mul(o.zero, o.recip(z)) == o.zero)
    && (forall x, z :: o.positive(z) && o.le(o.zero, x) ==> o.le(o.zero, o.mul(x, o.recip(z))))
  }

  /** A logit of minus infinity weighs nothing beside one above it. */
  ghost predicate BottomLaws<F(!new), D(!new)>(o: Ops<F, D>) {
    (forall m :: m != o.ninf ==> o.expDiff(o.ninf, m) == o.zero)
    && (forall z :: o.accumulate(z, o.zero) == z)
    && (forall x, m :: m != o.ninf ==> o.dadd(x, o.wideExp(o.ninf, m)) == x)
  }

  /** The laws are consistent: arithmetic on the naturals already satisfies them. */
  lemma LawsHaveAModel()
    ensures exists o: Ops<nat, nat> :: Laws(o) && BottomLaws(o)
  {
    var o := Ops<nat, nat>.Ops((x, y) => x <= y, 0, 0,
                               (v, m) => if v == 0 && m != 0 then 0 else 1, (x, y) => x * y, (x, y) => x + y,
                               0, (z, x) => z + x, z => z > 0, z => 1,
                               (v, m) => if v == 0 && m != 0 then 0 else 1, (x, y) => x + y,
                               (m, z) => m + z);
    assert Laws(o) && BottomLaws(o);
  }

  // The laws one at a time, for proofs that keep `Laws` hidden.

  lemma Order<F(!new), D(!new)>(o: Ops<F, D>, x: F, y: F, z: F)
    requires TotalOrder(o)
    ensures o.le(x, x) && (o.le(x, y) || o.le(y, x)) && (o.le(x, y) && o.le(y, z) ==> o.le(x, z))
  {
    assert o.Chained(x, y, z);
  }

  lemma LawsOrder<F(!new), D(!new)>(o: Ops<F, D>)
    requires Laws(o)
    ensures TotalOrder(o)
  {
  }

  lemma ZeroScaled<F(!new), D(!new)>(o: Ops<F, D>, z: D)
    requires Laws(o)
    ensures o.positive(z) ==> o.mul(o.zero, o.recip(z)) == o.zero
  {
  }

  lemma AddGrows<F(!new), D(!new)>(o: Ops<F, D>, x: F, p: F)
    requires Laws(o) && o.le(o.zero, p)
    ensures o.le(x, o.add(x, p))
  {
  }

  /** Scaling a weight by the reciprocal of the mass, or by zero when there is no mass. */
  lemma ScaledWeight<F(!new), D(!new)>(o: Ops<F, D>, v: F, m: F, z: D)
    requires Laws(o) && o.le(v, m)
    ensures o.mul(o.expDiff(v, m), o.zero) == o.zero
    ensures o.positive(z) ==> o.le(o.zero, o.mul(o.expDiff(v, m), o.recip(z)))
  {
  }
}
