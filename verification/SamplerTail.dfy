/** The sampler tail over masked logits: normaliser, masked softmax and cumulative distribution,
    by loops over the whole vocabulary and by loops over the survivors alone. */
module SamplerTail {
  import opened Floats
  import opened Ranking

  // ---- what both compute, over the surviving ids in ascending order ----

  function Live<F(==), D>(o: Ops<F, D>, logits: seq<F>): (live: seq<bool>)
    ensures |live| == |logits| && forall i :: 0 <= i < |logits| ==> live[i] == (logits[i] != o.ninf)
  {
    seq(|logits|, i requires 0 <= i < |logits| => logits[i] != o.ninf)
  }

  /** The entries below `n` of the live positions, in order. */
  ghost function KeptValues<F>(xs: seq<F>, live: seq<bool>, n: nat): seq<F>
    requires n <= |xs| && n <= |live|
  {
    if n == 0 then [] else if live[n - 1] then KeptValues(xs, live, n - 1) + [xs[n - 1]] else KeptValues(xs, live, n - 1)
  }

  ghost function MaxOf<F, D>(o: Ops<F, D>, vals: seq<F>): F {
    if vals == [] then o.ninf else o.Max(MaxOf(o, vals[..|vals| - 1]), vals[|vals| - 1])
  }

  ghost function KeptSum<F, D>(o: Ops<F, D>, vals: seq<F>, m: F): D {
    if vals == [] then o.dzero else o.dadd(KeptSum(o, vals[..|vals| - 1], m), o.wideExp(vals[|vals| - 1], m))
  }

  ghost function Mass<F, D>(o: Ops<F, D>, vals: seq<F>, m: F): D {
    if vals == [] then o.dzero else o.accumulate(Mass(o, vals[..|vals| - 1], m), o.expDiff(vals[|vals| - 1], m))
  }

  /** Summed left to right, one rounding per addition. */
  ghost function Cum<F, D>(o: Ops<F, D>, vals: seq<F>): F {
    if vals == [] then o.zero else o.add(Cum(o, vals[..|vals| - 1]), vals[|vals| - 1])
  }

  ghost function Prob<F, D>(o: Ops<F, D>, v: F, m: F, z: D): F {
    if o.positive(z) then o.mul(o.expDiff(v, m), o.recip(z)) else o.zero
  }

  lemma FoldSnoc<F, D>(o: Ops<F, D>, vals: seq<F>, v: F, m: F)
    ensures MaxOf(o, vals + [v]) == o.Max(MaxOf(o, vals), v)
    ensures KeptSum(o, vals + [v], m) == o.dadd(KeptSum(o, vals, m), o.wideExp(v, m))
    ensures Mass(o, vals + [v], m) == o.accumulate(Mass(o, vals, m), o.expDiff(v, m))
    ensures Cum(o, vals + [v]) == o.add(Cum(o, vals), v)
  {
    assert (vals + [v])[..|vals|] == vals;
  }

  datatype Tail<F> = Tail(logZ: F, probs: seq<F>, cdf: seq<F>)

  ghost predicate IsLogZ<F, D>(o: Ops<F, D>, vals: seq<F>, m: F, logZ: F) {
    m == MaxOf(o, vals) && logZ == if m == o.ninf then o.ninf else o.logNorm(m, KeptSum(o, vals, m))
  }

  ghost predicate IsSoftmax<F, D>(o: Ops<F, D>, logits: seq<F>, m: F, z: D, probs: seq<F>) {
    |probs| == |logits|
    && forall i :: 0 <= i < |logits| ==> probs[i] == if logits[i] != o.ninf then Prob(o, logits[i], m, z) else o.zero
  }

  ghost predicate IsCdf<F, D>(o: Ops<F, D>, live: seq<bool>, probs: seq<F>, cdf: seq<F>)
    requires |live| == |probs|
  {
    |cdf| == |probs| && forall i :: 0 <= i < |probs| ==> cdf[i] == Cum(o, KeptValues(probs, live, i + 1))
  }

  ghost predicate IsTail<F, D>(o: Ops<F, D>, logits: seq<F>, t: Tail<F>) {
    var live := Live(o, logits);
    var vals := KeptValues(logits, live, |logits|);
    var m := MaxOf(o, vals);
    IsLogZ(o, vals, m, t.logZ) && IsSoftmax(o, logits, m, Mass(o, vals, m), t.probs) && IsCdf(o, live, t.probs, t.cdf)
  }

  lemma TailUnique<F, D>(o: Ops<F, D>, logits: seq<F>, t: Tail<F>, u: Tail<F>)
    requires IsTail(o, logits, t) && IsTail(o, logits, u)
    ensures t == u
  {
    assert t.probs == u.probs;
    assert t.cdf == u.cdf;
  }

  // ---- loops over the whole vocabulary ----

  method DenseLogZ<F(==, !new), D>(o: Ops<F, D>, logits: seq<F>) returns (logZ: F, m: F)
    ensures IsLogZ(o, KeptValues(logits, Live(o, logits), |logits|), m, logZ)
  {
    hide MaxOf, KeptSum;
    ghost var live := Live(o, logits);
    m := o.ninf;
    assert MaxOf(o, []) == m && forall x :: KeptSum(o, [], x) == o.dzero by { EmptyFolds(o); }
    for i := 0 to |logits|
      invariant m == MaxOf(o, KeptValues(logits, live, i))
    {
      if logits[i] != o.ninf {
        m := o.Max(m, logits[i]);
        FoldSnoc(o, KeptValues(logits, live, i), logits[i], m);
      }
    }
    logZ := o.ninf;
    if m != o.ninf {
      var sum := o.dzero;
      for i := 0 to |logits|
        invariant sum == KeptSum(o, KeptValues(logits, live, i), m)
      {
        if logits[i] != o.ninf {
          sum := o.dadd(sum, o.wideExp(logits[i], m));
          FoldSnoc(o, KeptValues(logits, live, i), logits[i], m);
        }
      }
      logZ := o.logNorm(m, sum);
    }
  }

  lemma EmptyFolds<F(!new), D>(o: Ops<F, D>)
    ensures MaxOf(o, []) == o.ninf && Cum(o, []) == o.zero
    ensures forall m :: KeptSum(o, [], m) == o.dzero && Mass(o, [], m) == o.dzero
  {
  }

  lemma KeptStep<F>(xs: seq<F>, live: seq<bool>, i: nat)
    requires i <= |xs| == |live|
    ensures KeptValues(xs, live, 0) == []
    ensures i < |xs| ==>
              KeptValues(xs, live, i + 1) == if live[i] then KeptValues(xs, live, i) + [xs[i]] else KeptValues(xs, live, i)
  {
  }

  method DenseSoftmax<F(==, !new), D(!new)>(o: Ops<F, D>, logits: seq<F>, m: F) returns (probs: seq<F>)
    requires Laws(o)
    ensures IsSoftmax(o, logits, m, Mass(o, KeptValues(logits, Live(o, logits), |logits|), m), probs)
  {
    hide Mass, KeptValues, MaxOf, KeptSum, Cum, Laws;
    var n := |logits|;
    ghost var live := Live(o, logits);
    var z := o.dzero;
    assert Mass(o, KeptValues(logits, live, 0), m) == z by { EmptyFolds(o); KeptStep(logits, live, 0); }
    probs := seq(n, _ => o.zero);
    for i := 0 to n
      invariant |probs| == n && z == Mass(o, KeptValues(logits, live, i), m)
      invariant forall j :: 0 <= j < i ==> probs[j] == if logits[j] != o.ninf then o.expDiff(logits[j], m) else o.zero
    {
      KeptStep(logits, live, i);
      if logits[i] == o.ninf {
        probs := probs[i := o.zero];
      } else {
        var e := o.expDiff(logits[i], m);
        probs := probs[i := e];
        z := o.accumulate(z, e);
        FoldSnoc(o, KeptValues(logits, live, i), logits[i], m);
      }
    }
    ZeroScaled(o, z);
    if o.positive(z) {
      var inv := o.recip(z);
      probs := seq(n, i requires 0 <= i < n => o.mul(probs[i], inv));
    } else {
      probs := seq(n, _ => o.zero);
    }
  }

  /** Adding the zero of an entry that is not kept changes nothing. */
  lemma CumStep<F(!new), D(!new)>(o: Ops<F, D>, live: seq<bool>, probs: seq<F>, i: nat)
    requires Laws(o) && i < |live| == |probs| && (!live[i] ==> probs[i] == o.zero)
    ensures Cum(o, KeptValues(probs, live, i + 1)) == o.add(Cum(o, KeptValues(probs, live, i)), probs[i])
  {
    KeptStep(probs, live, i);
    FoldSnoc(o, KeptValues(probs, live, i), probs[i], o.zero);
  }

  method DenseCdf<F(==, !new), D(!new)>(o: Ops<F, D>, ghost live: seq<bool>, probs: seq<F>) returns (cdf: seq<F>)
    requires Laws(o) && |live| == |probs|
    requires forall i :: 0 <= i < |probs| && !live[i] ==> probs[i] == o.zero
    ensures IsCdf(o, live, probs, cdf)
  {
    hide Cum, KeptValues, Laws;
    var cumulative := o.zero;
    EmptyFolds(o);
    KeptStep(probs, live, 0);
    cdf := [];
    for i := 0 to |probs|
      invariant |cdf| == i && cumulative == Cum(o, KeptValues(probs, live, i))
      invariant forall j :: 0 <= j < i ==> cdf[j] == Cum(o, KeptValues(probs, live, j + 1))
    {
      CumStep(o, live, probs, i);
      cumulative := o.add(cumulative, probs[i]);
      cdf := cdf + [cumulative];
    }
  }

  method DenseTail<F(!new, ==), D(!new)>(o: Ops<F, D>, logits: seq<F>) returns (t: Tail<F>)
    requires Laws(o)
    ensures IsTail(o, logits, t)
  {
    var logZ, m := DenseLogZ(o, logits);
    var probs := DenseSoftmax(o, logits, m);
    var cdf := DenseCdf(o, Live(o, logits), probs);
    t := Tail(logZ, probs, cdf);
  }

  // ---- loops over the survivors ----

  /** The kept values are the values at the kept ids. */
  lemma {:induction false} ValuesAtIds<F>(xs: seq<F>, live: seq<bool>, n: nat)
    requires n <= |xs| && n <= |live|
    ensures |KeptValues(xs, live, n)| == |KeptIds(live, n)|
    ensures forall j :: 0 <= j < |KeptIds(live, n)| ==> KeptValues(xs, live, n)[j] == xs[KeptIds(live, n)[j]]
  {
    if n > 0 { ValuesAtIds(xs, live, n - 1); }
  }

  /** Between two survivors the kept values stand still. */
  lemma {:induction false} StandStill<F>(xs: seq<F>, live: seq<bool>, a: nat, b: nat)
    requires a <= b <= |xs| && b <= |live| && forall i :: a <= i < b ==> !live[i]
    ensures KeptValues(xs, live, b) == KeptValues(xs, live, a)
  {
    if a < b { StandStill(xs, live, a, b - 1); }
  }

  method SurvivorLogZ<F(==, !new), D(!new)>(o: Ops<F, D>, logits: seq<F>, ids: seq<nat>,
                                            ghost vals: seq<F>) returns (logZ: F, m: F)
    requires |vals| == |ids| && forall j :: 0 <= j < |ids| ==> ids[j] < |logits| && vals[j] == logits[ids[j]]
    ensures IsLogZ(o, vals, m, logZ)
  {
    hide MaxOf, KeptSum;
    assert vals[..|ids|] == vals && vals[..0] == [];
    m := o.ninf;
    assert MaxOf(o, []) == m && forall x :: KeptSum(o, [], x) == o.dzero by { EmptyFolds(o); }
    for j := 0 to |ids|
      invariant m == MaxOf(o, vals[..j])
    {
      m := o.Max(m, logits[ids[j]]);
      assert vals[..j + 1] == vals[..j] + [vals[j]];
      FoldSnoc(o, vals[..j], vals[j], m);
    }
    logZ := o.ninf;
    if m != o.ninf {
      var sum := o.dzero;
      for j := 0 to |ids|
        invariant sum == KeptSum(o, vals[..j], m)
      {
        sum := o.dadd(sum, o.wideExp(logits[ids[j]], m));
        assert vals[..j + 1] == vals[..j] + [vals[j]];
        FoldSnoc(o, vals[..j], vals[j], m);
      }
      logZ := o.logNorm(m, sum);
    }
  }

  method SurvivorSoftmax<F(==, !new), D(!new)>(o: Ops<F, D>, logits: seq<F>, ids: seq<nat>, m: F,
                                               ghost vals: seq<F>) returns (probs: seq<F>)
    requires |vals| == |ids| && forall j :: 0 <= j < |ids| ==> ids[j] < |logits| && vals[j] == logits[ids[j]]
    requires forall j, l :: 0 <= j < l < |ids| ==> ids[j] < ids[l]
    ensures |probs| == |logits|
    ensures forall i :: 0 <= i < |logits| ==> probs[i] == if i in ids then Prob(o, logits[i], m, Mass(o, vals, m)) else o.zero
  {
    hide Mass;
    var n := |logits|;
    assert vals[..|ids|] == vals && vals[..0] == [];
    var z := o.dzero;
    assert Mass(o, [], m) == z by { EmptyFolds(o); }
    probs := seq(n, _ => o.zero);
    for j := 0 to |ids|
      invariant |probs| == n && z == Mass(o, vals[..j], m)
      invariant forall l :: 0 <= l < j ==> probs[ids[l]] == o.expDiff(logits[ids[l]], m)
      invariant forall i :: 0 <= i < n && i !in ids ==> probs[i] == o.zero
    {
      var e := o.expDiff(logits[ids[j]], m);
      probs := probs[ids[j] := e];
      z := o.accumulate(z, e);
      assert vals[..j + 1] == vals[..j] + [vals[j]];
      FoldSnoc(o, vals[..j], vals[j], m);
    }
    if o.positive(z) {
      var inv := o.recip(z);
      for j := 0 to |ids|
        invariant |probs| == n
        invariant forall l :: 0 <= l < j ==> probs[ids[l]] == o.mul(o.expDiff(logits[ids[l]], m), inv)
        invariant forall l :: j <= l < |ids| ==> probs[ids[l]] == o.expDiff(logits[ids[l]], m)
        invariant forall i :: 0 <= i < n && i !in ids ==> probs[i] == o.zero
      {
        probs := probs[ids[j] := o.mul(probs[ids[j]], inv)];
      }
    } else {
      probs := seq(n, _ => o.zero);
    }
  }

  /** The distribution as constant runs broken only at survivors. */
  method SurvivorCdf<F(==, !new), D(!new)>(o: Ops<F, D>, ghost live: seq<bool>, probs: seq<F>,
                                           ids: seq<nat>) returns (cdf: seq<F>)
    requires |live| == |probs| && (forall j :: 0 <= j < |ids| ==> ids[j] < |probs|)
    requires forall j, l :: 0 <= j < l < |ids| ==> ids[j] < ids[l]
    requires forall i :: 0 <= i < |live| ==> (live[i] <==> i in ids)
    ensures IsCdf(o, live, probs, cdf)
  {
    hide Cum;
    var cumulative, pos := o.zero, 0;
    assert Cum(o, []) == cumulative by { EmptyFolds(o); }
    cdf := [];
    for j := 0 to |ids|
      invariant |cdf| == pos <= |probs| && cumulative == Cum(o, KeptValues(probs, live, pos))
      invariant forall l :: 0 <= l < j ==> ids[l] < pos
      invariant forall l :: j <= l < |ids| ==> pos <= ids[l]
      invariant forall i :: 0 <= i < pos ==> cdf[i] == Cum(o, KeptValues(probs, live, i + 1))
    {
      var id := ids[j];
      Run(o, probs, live, pos, id);
      if id > pos { cdf := cdf + seq(id - pos, _ => cumulative); }
      FoldSnoc(o, KeptValues(probs, live, id), probs[id], o.zero);
      cumulative := o.add(cumulative, probs[id]);
      cdf := cdf + [cumulative];
      pos := id + 1;
    }
    Run(o, probs, live, pos, |probs|);
    if pos < |probs| { cdf := cdf + seq(|probs| - pos, _ => cumulative); }
  }

  lemma Run<F(!new), D(!new)>(o: Ops<F, D>, probs: seq<F>, live: seq<bool>, a: nat, b: nat)
    requires |live| == |probs| && a <= b <= |probs| && forall i :: a <= i < b ==> !live[i]
    ensures KeptValues(probs, live, b) == KeptValues(probs, live, a)
    ensures forall e :: a < e <= b ==> KeptValues(probs, live, e) == KeptValues(probs, live, a)
  {
    StandStill(probs, live, a, b);
    forall e | a < e <= b
      ensures KeptValues(probs, live, e) == KeptValues(probs, live, a)
    {
      StandStill(probs, live, a, e);
    }
  }

  // ---- kept tokens whose scaled logit fell to minus infinity ----

  /** Everything above minus infinity is kept, and some of it is there if anything is kept. */
  ghost predicate Covers<F, D>(o: Ops<F, D>, logits: seq<F>, keep: seq<bool>) {
    |keep| == |logits| && (forall i :: 0 <= i < |logits| && !keep[i] ==> logits[i] == o.ninf)
    && ((forall i :: 0 <= i < |keep| ==> !keep[i]) || exists i :: 0 <= i < |logits| && logits[i] != o.ninf)
  }

  lemma {:induction false} SameMax<F(!new), D(!new)>(o: Ops<F, D>, logits: seq<F>, keep: seq<bool>, live: seq<bool>, n: nat)
    requires TotalOrder(o) && n <= |logits| == |keep| == |live|
    requires forall i :: 0 <= i < |logits| ==> (live[i] <==> logits[i] != o.ninf) && (live[i] ==> keep[i])
    ensures MaxOf(o, KeptValues(logits, keep, n)) == MaxOf(o, KeptValues(logits, live, n))
  {
    hide MaxOf, KeptValues;
    KeptStep(logits, keep, if n > 0 then n - 1 else 0);
    KeptStep(logits, live, if n > 0 then n - 1 else 0);
    if n > 0 {
      SameMax(o, logits, keep, live, n - 1);
      if keep[n - 1] { FoldSnoc(o, KeptValues(logits, keep, n - 1), logits[n - 1], o.zero); }
      if live[n - 1] { FoldSnoc(o, KeptValues(logits, live, n - 1), logits[n - 1], o.zero); }
      assert o.le(o.ninf, MaxOf(o, KeptValues(logits, keep, n - 1)));
    }
  }

  lemma {:induction false} SameSums<F(!new), D(!new)>(o: Ops<F, D>, logits: seq<F>, keep: seq<bool>, live: seq<bool>,
                                                      m: F, n: nat)
    requires BottomLaws(o) && m != o.ninf && n <= |logits| == |keep| == |live|
    requires forall i :: 0 <= i < |logits| ==> (live[i] <==> logits[i] != o.ninf) && (live[i] ==> keep[i])
    ensures KeptSum(o, KeptValues(logits, keep, n), m) == KeptSum(o, KeptValues(logits, live, n), m)
    ensures Mass(o, KeptValues(logits, keep, n), m) == Mass(o, KeptValues(logits, live, n), m)
  {
    hide KeptSum, Mass, KeptValues;
    KeptStep(logits, keep, if n > 0 then n - 1 else 0);
    KeptStep(logits, live, if n > 0 then n - 1 else 0);
    if n > 0 {
      SameSums(o, logits, keep, live, m, n - 1);
      if keep[n - 1] { FoldSnoc(o, KeptValues(logits, keep, n - 1), logits[n - 1], m); }
      if live[n - 1] { FoldSnoc(o, KeptValues(logits, live, n - 1), logits[n - 1], m); }
    }
  }

  lemma {:induction false} SameCum<F(!new), D(!new)>(o: Ops<F, D>, probs: seq<F>, keep: seq<bool>, live: seq<bool>, n: nat)
    requires Laws(o) && n <= |probs| == |keep| == |live|
    requires forall i :: 0 <= i < |probs| && !live[i] ==> probs[i] == o.zero
    requires forall i :: 0 <= i < |probs| && live[i] ==> keep[i]
    ensures Cum(o, KeptValues(probs, keep, n)) == Cum(o, KeptValues(probs, live, n))
  {
    hide Cum, KeptValues, Laws;
    if n == 0 {
      KeptStep(probs, keep, 0);
      KeptStep(probs, live, 0);
    } else {
      SameCum(o, probs, keep, live, n - 1);
      CumStep(o, keep, probs, n - 1);
      CumStep(o, live, probs, n - 1);
    }
  }

  lemma {:induction false} SomeAbove<F(!new), D(!new)>(o: Ops<F, D>, logits: seq<F>, live: seq<bool>, n: nat, i: nat)
    requires TotalOrder(o) && i < n <= |logits| == |live| && live[i] && logits[i] != o.ninf
    ensures MaxOf(o, KeptValues(logits, live, n)) != o.ninf
  {
    hide MaxOf, KeptValues;
    KeptStep(logits, live, n - 1);
    if live[n - 1] { FoldSnoc(o, KeptValues(logits, live, n - 1), logits[n - 1], o.zero); }
    if i < n - 1 { SomeAbove(o, logits, live, n - 1, i); }
  }

  lemma SameFolds<F(!new), D(!new)>(o: Ops<F, D>, logits: seq<F>, keep: seq<bool>, m: F)
    requires Laws(o) && BottomLaws(o) && Covers(o, logits, keep) && m == MaxOf(o, KeptValues(logits, keep, |logits|))
    ensures var n, live := |logits|, Live(o, logits);
            MaxOf(o, KeptValues(logits, live, n)) == m
            && KeptSum(o, KeptValues(logits, keep, n), m) == KeptSum(o, KeptValues(logits, live, n), m)
            && Mass(o, KeptValues(logits, keep, n), m) == Mass(o, KeptValues(logits, live, n), m)
    ensures m == o.ninf ==> forall i :: 0 <= i < |keep| ==> !keep[i]
  {
    hide KeptSum, Mass, MaxOf, KeptValues;
    var n, live := |logits|, Live(o, logits);
    SameMax(o, logits, keep, live, n);
    if i :| 0 <= i < n && logits[i] != o.ninf {
      SomeAbove(o, logits, live, n, i);
      SameSums(o, logits, keep, live, m, n);
    } else {
      assert keep == live;
    }
  }

  /** The probability of a kept token at minus infinity is zero, as in the dense loop. */
  lemma ProbsAgree<F(!new), D(!new)>(o: Ops<F, D>, logits: seq<F>, keep: seq<bool>, m: F, z: D, probs: seq<F>)
    requires Laws(o) && BottomLaws(o) && Covers(o, logits, keep) && |probs| == |logits|
    requires m == o.ninf ==> forall i :: 0 <= i < |keep| ==> !keep[i]
    requires forall i :: 0 <= i < |logits| ==> probs[i] == if keep[i] then Prob(o, logits[i], m, z) else o.zero
    ensures IsSoftmax(o, logits, m, z, probs)
  {
  }

  /** Loops over the kept tokens give the dense tail, even when some kept logits are minus infinity. */
  lemma KeptIsTail<F(!new), D(!new)>(o: Ops<F, D>, logits: seq<F>, keep: seq<bool>, logZ: F, m: F, probs: seq<F>, cdf: seq<F>)
    requires Laws(o) && BottomLaws(o) && Covers(o, logits, keep) && |probs| == |logits|
    requires IsLogZ(o, KeptValues(logits, keep, |logits|), m, logZ) && IsCdf(o, keep, probs, cdf)
    requires forall i :: 0 <= i < |logits| ==>
               probs[i] == if keep[i] then Prob(o, logits[i], m, Mass(o, KeptValues(logits, keep, |logits|), m)) else o.zero
    ensures IsTail(o, logits, Tail(logZ, probs, cdf))
  {
    hide Laws, BottomLaws, Prob, KeptSum, Mass, Cum, MaxOf, KeptValues;
    var n, live := |logits|, Live(o, logits);
    SameFolds(o, logits, keep, m);
    ProbsAgree(o, logits, keep, m, Mass(o, KeptValues(logits, keep, n), m), probs);
    forall i | 0 <= i < n
      ensures cdf[i] == Cum(o, KeptValues(probs, live, i + 1))
    {
      SameCum(o, probs, keep, live, i + 1);
    }
  }

  /** The tail from the kept tokens alone; `ids` lists the tokens flagged in `keep`. */
  method SurvivorTail<F(!new, ==), D(!new)>(o: Ops<F, D>, logits: seq<F>, ids: seq<nat>,
                                            ghost keep: seq<bool>) returns (t: Tail<F>)
    requires Laws(o) && BottomLaws(o) && Covers(o, logits, keep) && ids == KeptIds(keep, |logits|)
    ensures IsTail(o, logits, t)
  {
    hide Laws, BottomLaws, Covers, MaxOf, Mass, KeptSum, Cum, KeptValues;
    CoversAll(o, logits, keep);
    ghost var vals := KeptValues(logits, keep, |logits|);
    ValuesAtIds(logits, keep, |logits|);
    var logZ, m := SurvivorLogZ(o, logits, ids, vals);
    var probs := SurvivorSoftmax(o, logits, ids, m, vals);
    var cdf := SurvivorCdf(o, keep, probs, ids);
    KeptIsTail(o, logits, keep, logZ, m, probs, cdf);
    t := Tail(logZ, probs, cdf);
  }

  lemma CoversAll<F, D>(o: Ops<F, D>, logits: seq<F>, keep: seq<bool>)
    requires Covers(o, logits, keep)
    ensures |keep| == |logits|
  {
  }

  // ---- selection and tail together ----

  /** The best-ranked token is always kept. */
  lemma BestIsKept<F(!new), D(!new)>(o: Ops<F, D>, working: seq<F>, ranked: seq<(F, nat)>, kpos: nat, scale: F -> F,
                                     divide: F -> F, s: Selection<F>)
    requires TotalOrder(o) && IsRanking(o, working, ranked) && kpos < |ranked|
    requires Selects(o, working, ranked[kpos].0, scale, divide, s)
    requires scale(ranked[0].0) != o.ninf && divide(ranked[0].0) != o.ninf
    ensures Covers(o, s.logits, s.keep)
  {
    hide IsRanking;
    RankZeroIsFirstMax(o, working, ranked);
    var best := ranked[0].1;
    forall j: nat | j < |working| { Order(o, working[j], working[best], ranked[kpos].0); }
    assert s.keep[best];
    assert s.logits[best] != o.ninf;
  }

  /** The staged path: top-k from at most `kpos` ranks, then the tail over the survivors. */
  method StagedTail<F(!new, ==), D(!new)>(o: Ops<F, D>, n: nat, ranked: seq<(F, nat)>, kpos: nat, scale: F -> F, divide: F -> F,
                                          ghost working: seq<F>) returns (s: Selection<F>, t: Tail<F>)
    requires Laws(o) && BottomLaws(o) && |working| == n && IsRanking(o, working, ranked) && kpos < |ranked|
    requires scale(ranked[0].0) != o.ninf && divide(ranked[0].0) != o.ninf
    ensures Selects(o, working, ranked[kpos].0, scale, divide, s) && IsTail(o, s.logits, t)
  {
    hide Laws, BottomLaws, IsRanking, Covers, IsTail;
    LawsOrder(o);
    var ids;
    s, ids := PrefixSelect(o, n, ranked, kpos, scale, divide, working);
    BestIsKept(o, working, ranked, kpos, scale, divide, s);
    t := SurvivorTail(o, s.logits, ids, s.keep);
  }

  /** The path it replaces: a scan of the whole vocabulary, then the dense loops. */
  method DensePath<F(!new, ==), D(!new)>(o: Ops<F, D>, working: seq<F>, kth: F, scale: F -> F, divide: F -> F)
    returns (s: Selection<F>, t: Tail<F>)
    requires Laws(o) && |working| > 0
    ensures Selects(o, working, kth, scale, divide, s) && IsTail(o, s.logits, t)
  {
    hide Laws, IsTail, Selects;
    LawsOrder(o);
    s := DenseSelect(o, working, kth, scale, divide);
    t := DenseTail(o, s.logits);
  }

  /** Both paths have one outcome. */
  lemma StagedIsDense<F(!new), D(!new)>(o: Ops<F, D>, working: seq<F>, kth: F, scale: F -> F, divide: F -> F,
                                        s: Selection<F>, t: Tail<F>, s': Selection<F>, t': Tail<F>)
    requires Selects(o, working, kth, scale, divide, s) && IsTail(o, s.logits, t)
    requires Selects(o, working, kth, scale, divide, s') && IsTail(o, s'.logits, t')
    ensures s == s' && t == t'
  {
    hide IsTail;
    SelectionUnique(o, working, kth, scale, divide, s, s');
    TailUnique(o, s.logits, t, t');
  }
}
