/** The distribution kept on the survivors only, and the map from its ranks back to tokens. */
module CompactCdf {
  import opened Floats
  import opened Ranking
  import opened SamplerTail

  datatype Compact<F> = Compact(ids: seq<nat>, cdf: seq<F>, logNormalizer: F)

  // ---- lower bound ----

  ghost predicate Sorted<F, D>(o: Ops<F, D>, s: seq<F>) {
    forall i, j :: 0 <= i <= j < |s| ==> o.le(s[i], s[j])
  }

  /** `r` is the first index whose entry is not below `u`. */
  ghost predicate IsLowerBound<F, D>(o: Ops<F, D>, s: seq<F>, u: F, r: nat) {
    r <= |s| && (forall i :: 0 <= i < r ==> o.Less(s[i], u)) && (r < |s| ==> !o.Less(s[r], u))
  }

  method LowerBound<F(!new), D(!new)>(o: Ops<F, D>, s: seq<F>, u: F) returns (r: nat)
    requires TotalOrder(o) && Sorted(o, s)
    ensures IsLowerBound(o, s, u, r)
  {
    var first, count := 0, |s|;
    while count > 0
      invariant 0 <= first && 0 <= count && first + count <= |s|
      invariant forall i :: 0 <= i < first ==> o.Less(s[i], u)
      invariant forall i :: first + count <= i < |s| ==> !o.Less(s[i], u)
    {
      var step := count / 2;
      var it := first + step;
      if o.Less(s[it], u) {
        forall i | 0 <= i <= it ensures o.Less(s[i], u) { Order(o, u, s[i], s[it]); }
        first, count := it + 1, count - step - 1;
      } else {
        forall i | it <= i < |s| ensures !o.Less(s[i], u) { Order(o, u, s[it], s[i]); }
        count := step;
      }
    }
    return first;
  }

  /** A distribution built from non-negative probabilities never descends. */
  lemma {:induction false} CdfSorted<F(!new), D(!new)>(o: Ops<F, D>, live: seq<bool>, probs: seq<F>, a: nat, b: nat)
    requires Laws(o) && |live| == |probs| && a <= b <= |probs| && forall i :: 0 <= i < |probs| ==> o.le(o.zero, probs[i])
    ensures o.le(Cum(o, KeptValues(probs, live, a)), Cum(o, KeptValues(probs, live, b)))
    ensures o.le(o.zero, Cum(o, KeptValues(probs, live, a)))
    decreases b, b - a
  {
    hide Cum, Laws, TotalOrder;
    LawsOrder(o);
    if a < b {
      CdfSorted(o, live, probs, a, b - 1);
      CumStep(o, live, probs, b - 1);
      Order(o, Cum(o, KeptValues(probs, live, a)), Cum(o, KeptValues(probs, live, b - 1)), Cum(o, KeptValues(probs, live, b)));
    } else if a > 0 {
      CdfSorted(o, live, probs, a - 1, a - 1);
      CumStep(o, live, probs, a - 1);
      Order(o, o.zero, Cum(o, KeptValues(probs, live, a - 1)), Cum(o, KeptValues(probs, live, a)));
      Order(o, Cum(o, KeptValues(probs, live, a)), o.zero, o.zero);
    } else {
      EmptyFolds(o);
      Order(o, o.zero, o.zero, o.zero);
    }
  }

  lemma CumStep<F(!new), D(!new)>(o: Ops<F, D>, live: seq<bool>, probs: seq<F>, i: nat)
    requires Laws(o) && |live| == |probs| && i < |probs| && o.le(o.zero, probs[i])
    ensures o.le(Cum(o, KeptValues(probs, live, i)), Cum(o, KeptValues(probs, live, i + 1)))
  {
    hide Cum, Laws;
    LawsOrder(o);
    FoldSnoc(o, KeptValues(probs, live, i), probs[i], o.zero);
    AddGrows(o, Cum(o, KeptValues(probs, live, i)), probs[i]);
  }

  // ---- the constructor ----

  /** The probabilities of the survivors, in ascending id order. */
  ghost function SurvivorProbs<F, D>(o: Ops<F, D>, vals: seq<F>): (r: seq<F>)
    ensures |r| == |vals|
  {
    var m := MaxOf(o, vals);
    seq(|vals|, j requires 0 <= j < |vals| => Prob(o, vals[j], m, Mass(o, vals, m)))
  }

  /** The compact form of the survivors `ids` with values `vals`. */
  ghost predicate IsCompact<F, D>(o: Ops<F, D>, ids: seq<nat>, vals: seq<F>, c: Compact<F>) {
    c.ids == ids && |c.cdf| == |ids| == |vals|
    && (forall j :: 0 <= j < |ids| ==> c.cdf[j] == Cum(o, SurvivorProbs(o, vals)[..j + 1]))
    && c.logNormalizer == o.logNorm(MaxOf(o, vals), KeptSum(o, vals, MaxOf(o, vals)))
  }

  method MaximumOf<F(!new, ==), D(!new)>(o: Ops<F, D>, survivors: seq<(nat, F)>, ghost vals: seq<F>) returns (maximum: F)
    requires TotalOrder(o) && |vals| == |survivors| > 0 && forall j :: 0 <= j < |vals| ==> vals[j] == survivors[j].1
    ensures maximum == MaxOf(o, vals)
  {
    hide MaxOf;
    maximum := survivors[0].1;
    assert MaxOf(o, vals[..1]) == maximum by { FirstMaximum(o, vals); }
    for j := 0 to |survivors|
      invariant maximum == if j == 0 then survivors[0].1 else MaxOf(o, vals[..j])
    {
      if j > 0 {
        assert vals[..j + 1] == vals[..j] + [vals[j]];
        FoldSnoc(o, vals[..j], vals[j], maximum);
      }
      maximum := o.Max(maximum, survivors[j].1);
    }
    assert vals[..|survivors|] == vals;
  }

  lemma FirstMaximum<F(!new), D(!new)>(o: Ops<F, D>, vals: seq<F>)
    requires TotalOrder(o) && |vals| > 0
    ensures MaxOf(o, vals[..1]) == vals[0] == o.Max(vals[0], vals[0])
  {
    assert vals[..1] == [] + [vals[0]];
    FoldSnoc(o, [], vals[0], o.ninf);
    EmptyFolds(o);
  }

  method Weights<F(!new, ==), D(!new)>(o: Ops<F, D>, survivors: seq<(nat, F)>, maximum: F, ghost vals: seq<F>)
    returns (weights: seq<F>, z: D, normalizerSum: D)
    requires |vals| == |survivors| && forall j :: 0 <= j < |vals| ==> vals[j] == survivors[j].1
    ensures |weights| == |vals| && forall j :: 0 <= j < |vals| ==> weights[j] == o.expDiff(vals[j], maximum)
    ensures z == Mass(o, vals, maximum) && normalizerSum == KeptSum(o, vals, maximum)
  {
    hide Mass, KeptSum;
    var n := |survivors|;
    assert vals[..n] == vals && vals[..0] == [];
    EmptyFolds(o);
    z, weights := o.dzero, [];
    for j := 0 to n
      invariant |weights| == j && z == Mass(o, vals[..j], maximum)
      invariant forall l :: 0 <= l < j ==> weights[l] == o.expDiff(vals[l], maximum)
    {
      assert vals[..j + 1] == vals[..j] + [vals[j]];
      FoldSnoc(o, vals[..j], vals[j], maximum);
      weights := weights + [o.expDiff(survivors[j].1, maximum)];
      z := o.accumulate(z, weights[j]);
    }
    normalizerSum := o.dzero;
    for j := 0 to n
      invariant normalizerSum == KeptSum(o, vals[..j], maximum)
    {
      assert vals[..j + 1] == vals[..j] + [vals[j]];
      FoldSnoc(o, vals[..j], vals[j], maximum);
      normalizerSum := o.dadd(normalizerSum, o.wideExp(survivors[j].1, maximum));
    }
  }

  /** Turns the weights into the running sums of the scaled weights, in place. */
  method Accumulate<F(!new, ==), D(!new)>(o: Ops<F, D>, weights: seq<F>, inv: F, ghost probs: seq<F>) returns (cdf: seq<F>)
    requires |probs| == |weights| && forall j :: 0 <= j < |probs| ==> probs[j] == o.mul(weights[j], inv)
    ensures |cdf| == |probs| && forall j :: 0 <= j < |probs| ==> cdf[j] == Cum(o, probs[..j + 1])
  {
    hide Cum;
    EmptyFolds(o);
    cdf := weights;
    var cumulative := o.zero;
    assert probs[..0] == [];
    for j := 0 to |weights|
      invariant |cdf| == |weights| && cumulative == Cum(o, probs[..j])
      invariant forall l :: 0 <= l < j ==> cdf[l] == Cum(o, probs[..l + 1])
      invariant forall l :: j <= l < |weights| ==> cdf[l] == weights[l]
    {
      assert probs[..j + 1] == probs[..j] + [probs[j]];
      FoldSnoc(o, probs[..j], probs[j], o.zero);
      cumulative := o.add(cumulative, o.mul(cdf[j], inv));
      cdf := cdf[j := cumulative];
    }
  }

  /** Accumulates the distribution of at least one survivor. */
  method BuildFromSurvivors<F(!new, ==), D(!new)>(o: Ops<F, D>, survivors: seq<(nat, F)>,
                                                  ghost vals: seq<F>) returns (c: Compact<F>)
    requires Laws(o) && |vals| == |survivors| > 0 && forall j :: 0 <= j < |vals| ==> vals[j] == survivors[j].1
    ensures IsCompact(o, Ids(survivors), vals, c)
  {
    hide MaxOf, Mass, KeptSum, Cum, Laws;
    LawsOrder(o);
    var maximum := MaximumOf(o, survivors, vals);
    var weights, z, normalizerSum := Weights(o, survivors, maximum, vals);
    var inv := if o.positive(z) then o.recip(z) else o.zero;
    ghost var probs := SurvivorProbs(o, vals);
    forall j | 0 <= j < |vals|
      ensures probs[j] == o.mul(weights[j], inv)
    {
      BelowMax(o, vals, j);
      ScaledWeight(o, vals[j], maximum, z);
    }
    var cdf := Accumulate(o, weights, inv, probs);
    c := Compact(Ids(survivors), cdf, o.logNorm(maximum, normalizerSum));
  }

  lemma {:induction false} BelowMax<F(!new), D(!new)>(o: Ops<F, D>, vals: seq<F>, j: nat)
    requires TotalOrder(o) && j < |vals|
    ensures o.le(vals[j], MaxOf(o, vals))
  {
    var k := |vals| - 1;
    if j < k {
      BelowMax(o, vals[..k], j);
      assert vals[..k][j] == vals[j];
      Order(o, vals[j], MaxOf(o, vals[..k]), vals[k]);
    }
  }

  /** Temperature one leaves a value as it is. */
  function Unscaled<F>(v: F): F { v }

  /** Builds the compact distribution of the strict top-k of `ranked`; `s` is the selection a
      whole-vocabulary scan makes at temperature one. */
  method Build<F(!new, ==), D(!new)>(o: Ops<F, D>, ranked: seq<(F, nat)>, k: nat, ghost working: seq<F>, ghost s: Selection<F>)
    returns (c: Compact<F>)
    requires Laws(o) && IsRanking(o, working, ranked) && 0 < k <= |ranked|
    requires ranked[0].0 != o.ninf && Selects(o, working, ranked[k - 1].0, Unscaled<F>, Unscaled<F>, s)
    ensures IsCompact(o, KeptIds(s.keep, |working|), KeptValues(working, s.keep, |working|), c)
  {
    hide Laws, TotalOrder, IsRanking, Selects;
    LawsOrder(o);
    ghost var n := |working|;
    var iv := CollectPrefix(o, ranked, k - 1, working);
    WhatIsKept(o, working, ranked, k - 1, Unscaled<F>, Unscaled<F>, s);
    if |iv| == 0 {
      iv := [(ranked[0].1, ranked[0].0)];
      RankZeroIsFirstMax(o, working, ranked);
    }
    IdsKept(o, working, ranked, k - 1, iv, s.keep);
    var sorted := SortById(iv);
    SortIs(iv);
    SortedFrom(iv, sorted, working);
    forall i | 0 <= i < n
      ensures s.keep[i] <==> i in Ids(sorted)
    {
      assert i in Ids(iv) <==> i in Ids(sorted);
    }
    SortedIsKept(sorted, working, s.keep);
    c := BuildFromSurvivors(o, sorted, KeptValues(working, s.keep, n));
  }

  lemma IdsKept<F(!new), D(!new)>(o: Ops<F, D>, working: seq<F>, ranked: seq<(F, nat)>, kpos: nat, iv: seq<(nat, F)>,
                                  keep: seq<bool>)
    requires kpos < |ranked| && |keep| == |working| && |iv| > 0
    requires forall t :: 0 <= t < |iv| ==> iv[t].0 < |working|
    requires (exists i :: 0 <= i < |working| && Above(o, working, ranked[kpos].0, i))
             ==> forall i :: 0 <= i < |working| ==> (keep[i] <==> Above(o, working, ranked[kpos].0, i))
    requires (forall i :: 0 <= i < |working| ==> !Above(o, working, ranked[kpos].0, i))
             ==> forall i :: 0 <= i < |working| ==> (keep[i] <==> i == ranked[0].1)
    requires (iv == [(ranked[0].1, ranked[0].0)] && forall i :: 0 <= i < |working| ==> !Above(o, working, ranked[kpos].0, i))
             || (forall i :: 0 <= i < |working| ==> (Above(o, working, ranked[kpos].0, i) <==> i in Ids(iv)))
    ensures forall i :: 0 <= i < |working| ==> (keep[i] <==> i in Ids(iv))
  {
    assert Ids(iv)[0] in Ids(iv);
    if forall i :: 0 <= i < |working| ==> !Above(o, working, ranked[kpos].0, i) {
      assert iv == [(ranked[0].1, ranked[0].0)];
      assert Ids(iv) == [ranked[0].1];
    }
  }

  lemma SortedIsKept<F(!new)>(sorted: seq<(nat, F)>, working: seq<F>, keep: seq<bool>)
    requires AscendingIds(sorted) && |keep| == |working|
    requires forall j :: 0 <= j < |sorted| ==> sorted[j].0 < |working| && sorted[j].1 == working[sorted[j].0]
    requires forall i :: 0 <= i < |working| ==> (keep[i] <==> i in Ids(sorted))
    ensures Ids(sorted) == KeptIds(keep, |working|)
    ensures |KeptValues(working, keep, |working|)| == |sorted|
    ensures forall j :: 0 <= j < |sorted| ==> KeptValues(working, keep, |working|)[j] == sorted[j].1
  {
    forall i | i in Ids(sorted) ensures 0 <= i < |working| {
      var j :| 0 <= j < |sorted| && Ids(sorted)[j] == i;
    }
    AscendingIsKept(Ids(sorted), keep, |working|);
    ValuesAtIds(working, keep, |working|);
    assert forall j :: 0 <= j < |sorted| ==> KeptIds(keep, |working|)[j] == Ids(sorted)[j] == sorted[j].0;
  }

  /** What a selection keeps when something, or nothing, is strictly above the threshold. */
  lemma WhatIsKept<F(!new), D(!new)>(o: Ops<F, D>, working: seq<F>, ranked: seq<(F, nat)>, kpos: nat,
                                           scale: F -> F, divide: F -> F, s: Selection<F>)
    requires TotalOrder(o) && IsRanking(o, working, ranked) && kpos < |ranked|
    requires Selects(o, working, ranked[kpos].0, scale, divide, s)
    ensures |s.keep| == |working|
    ensures (exists i :: 0 <= i < |working| && Above(o, working, ranked[kpos].0, i))
            ==> forall i :: 0 <= i < |working| ==> (s.keep[i] <==> Above(o, working, ranked[kpos].0, i))
    ensures (forall i :: 0 <= i < |working| ==> !Above(o, working, ranked[kpos].0, i))
            ==> forall i :: 0 <= i < |working| ==> (s.keep[i] <==> i == ranked[0].1)
  {
    hide IsRanking;
    RankZeroIsFirstMax(o, working, ranked);
    FirstMaxUnique(o, working, ranked[0].1);
  }

  // ---- the compact form refines the dense one ----

  function MapRank<F(==), D>(o: Ops<F, D>, c: Compact<F>, rank: nat, u: F, vocab: nat): (nat, F)
    requires rank <= |c.ids| == |c.cdf| && |c.ids| > 0
  {
    if u == o.zero then (0, if c.ids[0] == 0 then c.cdf[0] else o.zero)
    else if rank == |c.ids| then (vocab, o.zero)
    else (c.ids[rank], c.cdf[rank])
  }

  lemma IdsStep(live: seq<bool>, n: nat)
    requires n < |live|
    ensures KeptIds(live, n + 1) == if live[n] then KeptIds(live, n) + [n] else KeptIds(live, n)
  {
  }

  /** How many survivors lie at or below token `i`. */
  lemma CountKept<F>(xs: seq<F>, live: seq<bool>, n: nat, e: nat) returns (c: nat)
    requires e <= n <= |xs| == |live|
    ensures c <= |KeptIds(live, n)| == |KeptValues(xs, live, n)|
    ensures KeptValues(xs, live, e) == KeptValues(xs, live, n)[..c]
    ensures c > 0 ==> KeptIds(live, n)[c - 1] < e
    ensures c < |KeptIds(live, n)| ==> e <= KeptIds(live, n)[c]
  {
    c := |KeptIds(live, e)|;
    ValuesKept(xs, live, n, e);
    IdsKeptFrom(live, n, e);
    ValuesAtIds(xs, live, e);
    ValuesAtIds(xs, live, n);
    assert KeptIds(live, n)[..c] == KeptIds(live, e);
  }

  lemma PrefixSnoc<T>(a: seq<T>, b: seq<T>, x: T)
    requires a <= b
    ensures a <= b + [x] && (b + [x])[|a|] == if |a| < |b| then b[|a|] else x
  {
  }

  /** The values kept so far begin those kept later. */
  lemma {:induction false} ValuesKept<F>(xs: seq<F>, live: seq<bool>, n: nat, e: nat)
    requires e <= n <= |xs| == |live|
    ensures KeptValues(xs, live, e) <= KeptValues(xs, live, n)
  {
    hide KeptValues;
    if e < n {
      ValuesKept(xs, live, n - 1, e);
      KeptStep(xs, live, n - 1);
      PrefixSnoc(KeptValues(xs, live, e), KeptValues(xs, live, n - 1), xs[n - 1]);
    }
  }

  /** `a` begins `b`, which goes on with ids from `e` on. */
  predicate Begins(a: seq<nat>, b: seq<nat>, e: nat) {
    a <= b && (|a| < |b| ==> e <= b[|a|])
  }

  lemma BeginsStep(a: seq<nat>, b: seq<nat>, e: nat, x: nat)
    ensures Begins(a, a, e) && (Begins(a, b, e) && e <= x ==> Begins(a, b + [x], e))
  {
    if a <= b { PrefixSnoc(a, b, x); }
  }

  /** So do the ids, and later ids are later tokens. */
  lemma {:induction false} IdsKeptFrom(live: seq<bool>, n: nat, e: nat)
    requires e <= n <= |live|
    ensures Begins(KeptIds(live, e), KeptIds(live, n), e)
  {
    hide KeptIds, Begins;
    if e < n {
      IdsKeptFrom(live, n - 1, e);
      IdsStep(live, n - 1);
      BeginsStep(KeptIds(live, e), KeptIds(live, n - 1), e, n - 1);
    } else {
      BeginsStep(KeptIds(live, e), [], e, e);
    }
  }

  /** The dense distribution is a step function over the compact one. */
  lemma StepFunction<F(!new), D(!new)>(o: Ops<F, D>, live: seq<bool>, probs: seq<F>, cdf: seq<F>, compact: seq<F>,
                                       i: nat) returns (c: nat)
    requires |live| == |probs| && IsCdf(o, live, probs, cdf) && i < |probs|
    requires |compact| == |KeptIds(live, |probs|)| == |KeptValues(probs, live, |probs|)|
    requires forall j :: 0 <= j < |compact| ==> compact[j] == Cum(o, KeptValues(probs, live, |probs|)[..j + 1])
    ensures c <= |compact| && cdf[i] == if c == 0 then o.zero else compact[c - 1]
    ensures c > 0 ==> KeptIds(live, |probs|)[c - 1] <= i
    ensures c < |compact| ==> i < KeptIds(live, |probs|)[c]
  {
    c := CountKept(probs, live, |probs|, i + 1);
    EmptyFolds(o);
  }

  /** A lower bound on the compact distribution, mapped back, is the lower bound on the dense one:
      same token, same cumulative value, for every non-negative draw. */
  lemma RefinesDense<F(!new), D(!new)>(o: Ops<F, D>, live: seq<bool>, probs: seq<F>, cdf: seq<F>, c: Compact<F>, u: F,
                                       rank: nat, token: nat)
    requires TotalOrder(o) && |live| == |probs| && IsCdf(o, live, probs, cdf) && o.le(o.zero, u)
    requires c.ids == KeptIds(live, |probs|) && |c.cdf| == |c.ids| == |KeptValues(probs, live, |probs|)| > 0
    requires forall j :: 0 <= j < |c.cdf| ==> c.cdf[j] == Cum(o, KeptValues(probs, live, |probs|)[..j + 1])
    requires forall i :: 0 <= i < |cdf| ==> o.le(o.zero, cdf[i])
    requires IsLowerBound(o, c.cdf, u, rank) && IsLowerBound(o, cdf, u, token)
    ensures MapRank(o, c, rank, u, |probs|) == (token, if token < |cdf| then cdf[token] else o.zero)
  {
    hide Cum, KeptValues, KeptIds;
    if u == o.zero {
      assert !o.Less(cdf[0], u);
      assert token == 0;
      var k := StepFunction(o, live, probs, cdf, c.cdf, 0);
    } else {
      if token < |cdf| {
        var k := StepFunction(o, live, probs, cdf, c.cdf, token);
        assert k > 0;
        assert !o.Less(c.cdf[k - 1], u);
        assert rank <= k - 1;
      }
      if rank < |c.cdf| {
        var t := c.ids[rank];
        var k := StepFunction(o, live, probs, cdf, c.cdf, t);
      }
    }
  }

  lemma ProbsNonNegative<F(!new), D(!new)>(o: Ops<F, D>, logits: seq<F>, probs: seq<F>)
    requires Laws(o)
    requires var vals := KeptValues(logits, Live(o, logits), |logits|);
             IsSoftmax(o, logits, MaxOf(o, vals), Mass(o, vals, MaxOf(o, vals)), probs)
    ensures forall i :: 0 <= i < |probs| ==> o.le(o.zero, probs[i])
  {
    hide Laws, Mass, MaxOf;
    LawsOrder(o);
    var live := Live(o, logits);
    var vals := KeptValues(logits, live, |logits|);
    var m := MaxOf(o, vals);
    Order(o, o.zero, o.zero, o.zero);
    forall i | 0 <= i < |probs|
      ensures o.le(o.zero, probs[i])
    {
      if logits[i] != o.ninf {
        var j := KeptAt(logits, live, |logits|, i);
        BelowMax(o, vals, j);
        ScaledWeight(o, logits[i], m, Mass(o, vals, m));
      }
    }
  }

  lemma {:induction false} KeptAt<F>(xs: seq<F>, live: seq<bool>, n: nat, i: nat) returns (j: nat)
    requires i < n <= |xs| == |live| && live[i]
    ensures j < |KeptValues(xs, live, n)| && KeptValues(xs, live, n)[j] == xs[i]
  {
    if i == n - 1 {
      j := |KeptValues(xs, live, n)| - 1;
    } else {
      j := KeptAt(xs, live, n - 1, i);
    }
  }

  lemma {:induction false} SurvivorProbsAre<F(!new), D(!new)>(o: Ops<F, D>, logits: seq<F>, live: seq<bool>, m: F,
                                                              z: D, probs: seq<F>, n: nat)
    requires n <= |logits| == |live| == |probs|
    requires forall i :: 0 <= i < |logits| && live[i] ==> probs[i] == Prob(o, logits[i], m, z)
    ensures |KeptValues(probs, live, n)| == |KeptValues(logits, live, n)|
    ensures forall j :: 0 <= j < |KeptValues(logits, live, n)| ==>
              KeptValues(probs, live, n)[j] == Prob(o, KeptValues(logits, live, n)[j], m, z)
  {
    if n > 0 { SurvivorProbsAre(o, logits, live, m, z, probs, n - 1); }
  }

  /** The whole path: when no kept logit is minus infinity, sampling the compact distribution of the ranked prefix
      gives the token, the cumulative value and the normaliser of the dense reference. */
  lemma CompactSamplesAlike<F(!new), D(!new)>(o: Ops<F, D>, working: seq<F>, kth: F, s: Selection<F>, t: Tail<F>,
                                              c: Compact<F>, u: F, rank: nat, token: nat)
    requires Laws(o) && |working| > 0 && o.le(o.zero, u)
    requires Selects(o, working, kth, Unscaled<F>, Unscaled<F>, s) && IsTail(o, s.logits, t)
    requires forall i :: 0 <= i < |working| && s.keep[i] ==> working[i] != o.ninf
    requires IsCompact(o, KeptIds(s.keep, |working|), KeptValues(working, s.keep, |working|), c) && |c.ids| > 0
    requires IsLowerBound(o, c.cdf, u, rank) && IsLowerBound(o, t.cdf, u, token)
    ensures MapRank(o, c, rank, u, |working|) == (token, if token < |working| then t.cdf[token] else o.zero)
    ensures c.logNormalizer == t.logZ
  {
    hide Laws, MaxOf, Mass, KeptSum, Cum, Selects, TotalOrder;
    LawsOrder(o);
    var n, live := |working|, Live(o, s.logits);
    KeptIsLive(o, working, kth, s);
    SameKept(working, s.logits, live, n);
    var vals := KeptValues(s.logits, live, n);
    var m := MaxOf(o, vals);
    ValuesAtIds(t.probs, live, n);
    SurvivorProbsAre(o, s.logits, live, m, Mass(o, vals, m), t.probs, n);
    assert KeptValues(t.probs, live, n) == SurvivorProbs(o, vals);
    ProbsNonNegative(o, s.logits, t.probs);
    forall i | 0 <= i < n
      ensures o.le(o.zero, t.cdf[i])
    {
      CdfSorted(o, live, t.probs, i + 1, i + 1);
    }
    RefinesDense(o, live, t.probs, t.cdf, c, u, rank, token);
    MaxIsFinite(o, working, live, n);
  }

  lemma KeptIsLive<F(!new), D(!new)>(o: Ops<F, D>, working: seq<F>, kth: F, s: Selection<F>)
    requires Selects(o, working, kth, Unscaled<F>, Unscaled<F>, s)
    requires forall i :: 0 <= i < |working| && s.keep[i] ==> working[i] != o.ninf
    ensures |s.logits| == |working| && Live(o, s.logits) == s.keep
    ensures forall i :: 0 <= i < |working| && s.keep[i] ==> s.logits[i] == working[i]
  {
  }

  lemma {:induction false} SameKept<F>(xs: seq<F>, ys: seq<F>, live: seq<bool>, n: nat)
    requires n <= |xs| == |ys| == |live| && forall i :: 0 <= i < |live| && live[i] ==> xs[i] == ys[i]
    ensures KeptValues(xs, live, n) == KeptValues(ys, live, n)
  {
    if n > 0 { SameKept(xs, ys, live, n - 1); }
  }

  lemma MaxIsFinite<F(!new), D(!new)>(o: Ops<F, D>, working: seq<F>, live: seq<bool>, n: nat)
    requires TotalOrder(o) && n <= |working| == |live| && |KeptIds(live, n)| > 0
    requires forall i :: 0 <= i < |working| && live[i] ==> working[i] != o.ninf
    ensures MaxOf(o, KeptValues(working, live, n)) != o.ninf
  {
    hide MaxOf;
    ValuesAtIds(working, live, n);
    BelowMax(o, KeptValues(working, live, n), 0);
  }

  lemma {:induction false} CumMono<F(!new), D(!new)>(o: Ops<F, D>, vals: seq<F>, a: nat, b: nat)
    requires Laws(o) && a <= b <= |vals| && forall i :: 0 <= i < |vals| ==> o.le(o.zero, vals[i])
    ensures o.le(Cum(o, vals[..a]), Cum(o, vals[..b]))
  {
    hide Cum, Laws;
    LawsOrder(o);
    Order(o, Cum(o, vals[..a]), Cum(o, vals[..a]), Cum(o, vals[..a]));
    if a < b {
      CumMono(o, vals, a, b - 1);
      assert vals[..b] == vals[..b - 1] + [vals[b - 1]];
      FoldSnoc(o, vals[..b - 1], vals[b - 1], o.zero);
      AddGrows(o, Cum(o, vals[..b - 1]), vals[b - 1]);
      Order(o, Cum(o, vals[..a]), Cum(o, vals[..b - 1]), Cum(o, vals[..b]));
    }
  }

  lemma CompactSorted<F(!new), D(!new)>(o: Ops<F, D>, ids: seq<nat>, vals: seq<F>, c: Compact<F>)
    requires Laws(o) && IsCompact(o, ids, vals, c)
    ensures Sorted(o, c.cdf)
  {
    hide Laws, MaxOf, Mass, KeptSum, Cum;
    LawsOrder(o);
    var probs := SurvivorProbs(o, vals);
    Order(o, o.zero, o.zero, o.zero);
    forall j | 0 <= j < |vals|
      ensures o.le(o.zero, probs[j])
    {
      BelowMax(o, vals, j);
      ScaledWeight(o, vals[j], MaxOf(o, vals), Mass(o, vals, MaxOf(o, vals)));
    }
    forall i, j | 0 <= i <= j < |c.cdf|
      ensures o.le(c.cdf[i], c.cdf[j])
    {
      CumMono(o, probs, i + 1, j + 1);
    }
  }

  /** Samples with the draw `u` from the compact distribution of the strict top-k of `ranked`. */
  method SampleCompact<F(!new, ==), D(!new)>(o: Ops<F, D>, ranked: seq<(F, nat)>, k: nat, u: F, vocab: nat,
                                             ghost working: seq<F>, ghost s: Selection<F>, ghost t: Tail<F>)
    returns (token: nat, probability: F, logZ: F)
    requires Laws(o) && o.le(o.zero, u) && |working| == vocab && IsRanking(o, working, ranked) && 0 < k <= |ranked|
    requires ranked[0].0 != o.ninf
    requires Selects(o, working, ranked[k - 1].0, Unscaled<F>, Unscaled<F>, s) && IsTail(o, s.logits, t)
    ensures IsLowerBound(o, t.cdf, u, token) && probability == (if token < vocab then t.cdf[token] else o.zero)
    ensures logZ == t.logZ
  {
    hide Laws, TotalOrder, IsRanking, IsCompact, Selects, KeptIds, KeptValues, Sorted, IsTail;
    LawsOrder(o);
    KeptAreFinite(o, working, ranked, k - 1, s);
    TailShape(o, s.logits, t);
    var c := Build(o, ranked, k, working, s);
    CompactShape(o, KeptIds(s.keep, vocab), KeptValues(working, s.keep, vocab), c);
    SelectionNonEmpty(o, working, ranked, k - 1, s);
    CompactSorted(o, KeptIds(s.keep, vocab), KeptValues(working, s.keep, vocab), c);
    var rank := LowerBound(o, c.cdf, u);
    ghost var dense := FirstNotBelow(o, t.cdf, u);
    CompactSamplesAlike(o, working, ranked[k - 1].0, s, t, c, u, rank, dense);
    var r := MapRank(o, c, rank, u, vocab);
    token, probability, logZ := r.0, r.1, c.logNormalizer;
  }

  lemma TailShape<F, D>(o: Ops<F, D>, logits: seq<F>, t: Tail<F>)
    requires IsTail(o, logits, t)
    ensures |t.cdf| == |logits|
  {
  }

  /** Nothing of minus infinity is kept unless the best-ranked logit is. */
  lemma KeptAreFinite<F(!new), D(!new)>(o: Ops<F, D>, working: seq<F>, ranked: seq<(F, nat)>, kpos: nat, s: Selection<F>)
    requires TotalOrder(o) && IsRanking(o, working, ranked) && kpos < |ranked| && ranked[0].0 != o.ninf
    requires Selects(o, working, ranked[kpos].0, Unscaled<F>, Unscaled<F>, s)
    ensures |s.keep| == |s.logits| == |working| > 0 && forall i :: 0 <= i < |working| && s.keep[i] ==> working[i] != o.ninf
  {
    WhatIsKept(o, working, ranked, kpos, Unscaled<F>, Unscaled<F>, s);
  }

  lemma CompactShape<F(!new), D(!new)>(o: Ops<F, D>, ids: seq<nat>, vals: seq<F>, c: Compact<F>)
    requires IsCompact(o, ids, vals, c)
    ensures c.ids == ids && |c.cdf| == |c.ids|
  {
  }

  lemma SelectionNonEmpty<F(!new), D(!new)>(o: Ops<F, D>, working: seq<F>, ranked: seq<(F, nat)>, kpos: nat, s: Selection<F>)
    requires TotalOrder(o) && IsRanking(o, working, ranked) && kpos < |ranked|
    requires Selects(o, working, ranked[kpos].0, Unscaled<F>, Unscaled<F>, s)
    ensures |KeptIds(s.keep, |working|)| > 0
  {
    WhatIsKept(o, working, ranked, kpos, Unscaled<F>, Unscaled<F>, s);
    if exists i :: 0 <= i < |working| && Above(o, working, ranked[kpos].0, i) {
      var i :| 0 <= i < |working| && Above(o, working, ranked[kpos].0, i);
      assert i in KeptIds(s.keep, |working|);
    } else {
      assert ranked[0].1 in KeptIds(s.keep, |working|);
    }
  }

  lemma FirstNotBelow<F(!new), D(!new)>(o: Ops<F, D>, s: seq<F>, u: F) returns (r: nat)
    requires TotalOrder(o)
    ensures IsLowerBound(o, s, u, r)
  {
    r := 0;
    while r < |s| && o.Less(s[r], u)
      invariant r <= |s| && forall i :: 0 <= i < r ==> o.Less(s[i], u)
    {
      r := r + 1;
    }
  }
}
