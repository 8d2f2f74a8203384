/** When a sampler step succeeds and what it writes, in terms of the single samplings alone. */
module BarrierStep {
  import opened Barrier

  /** Group `g`'s miner after the first `n` of its streams. */
  ghost function MinerAt<M, L>(c: Config<M, L>, m: M, g: nat, input: Input<L>, n: nat): M
    requires Sized(c, input, g) && c.bounds[g] + n <= c.bounds[g + 1]
  {
    if n == 0 then m
    else
      InBounds(c, input, g);
      c.onLogits(MinerAt(c, m, g, input, n - 1), n - 1, input.rows[c.bounds[g] + n - 1], input.sorts[g]).0
  }

  /** What that miner answers for the next one. */
  ghost function Reply<M, L>(c: Config<M, L>, m: M, g: nat, input: Input<L>, n: nat): int
    requires Sized(c, input, g) && c.bounds[g] + n < c.bounds[g + 1]
  {
    InBounds(c, input, g);
    c.onLogits(MinerAt(c, m, g, input, n), n, input.rows[c.bounds[g] + n], input.sorts[g]).1
  }

  lemma InBounds<M, L>(c: Config<M, L>, input: Input<L>, g: nat)
    requires Sized(c, input, g)
    ensures c.bounds[g] <= c.bounds[g + 1] <= |input.rows| && g < |input.sorts|
  {
  }

  ghost predicate AnsweredUpTo<M, L>(c: Config<M, L>, m: M, g: nat, input: Input<L>, n: nat)
    requires Sized(c, input, g) && c.bounds[g] + n <= c.bounds[g + 1]
  {
    forall k: nat :: k < n ==> Reply(c, m, g, input, k) >= 0
  }

  /** The host has the logits, or this group's sort succeeded. */
  predicate CanSample<L>(input: Input<L>, g: nat)
    requires g < |input.sorts|
  {
    !input.device || input.sorts[g]
  }

  lemma OneToken<M, L>(c: Config<M, L>, m: M, g: nat, input: Input<L>, n: nat)
    requires Sized(c, input, g) && c.bounds[g] + n <= c.bounds[g + 1]
    ensures var o, r := Tokens(c, MinerAt(c, m, g, input, n), g, input, c.bounds[g] + n), c.bounds[g + 1] - c.bounds[g];
            if n == r then o == Outcome(MinerAt(c, m, g, input, n), [], true)
            else if Reply(c, m, g, input, n) < 0 then o == Outcome(MinerAt(c, m, g, input, n + 1), [], false)
            else
              var rest := Tokens(c, MinerAt(c, m, g, input, n + 1), g, input, c.bounds[g] + n + 1);
              o == Outcome(rest.miner, [Reply(c, m, g, input, n)] + rest.written, rest.ok)
  {
  }

  /** From its stream `n` on, with all before answered. */
  lemma {:induction false} TokensAre<M, L>(c: Config<M, L>, m: M, g: nat, input: Input<L>, n: nat)
    requires Sized(c, input, g) && c.bounds[g] + n <= c.bounds[g + 1] && AnsweredUpTo(c, m, g, input, n)
    ensures var o, size := Tokens(c, MinerAt(c, m, g, input, n), g, input, c.bounds[g] + n), c.bounds[g + 1] - c.bounds[g];
            var w := |o.written|;
            n + w <= size && AnsweredUpTo(c, m, g, input, n + w) && (o.ok <==> n + w == size)
            && (o.ok || Reply(c, m, g, input, n + w) < 0)
            && (forall k: nat :: k < w ==> o.written[k] == Reply(c, m, g, input, n + k))
            && o.miner == MinerAt(c, m, g, input, if o.ok then size else n + w + 1)
    decreases c.bounds[g + 1] - c.bounds[g] - n
  {
    hide Tokens, Reply, MinerAt;
    OneToken(c, m, g, input, n);
    if n < c.bounds[g + 1] - c.bounds[g] && Reply(c, m, g, input, n) >= 0 {
      TokensAre(c, m, g, input, n + 1);
      var rest := Tokens(c, MinerAt(c, m, g, input, n + 1), g, input, c.bounds[g] + n + 1);
      var o := Tokens(c, MinerAt(c, m, g, input, n), g, input, c.bounds[g] + n);
      forall k: nat | k < |o.written|
        ensures o.written[k] == Reply(c, m, g, input, n + k)
      {
        if k > 0 { assert o.written[k] == rest.written[k - 1] == Reply(c, m, g, input, n + 1 + (k - 1)); }
      }
    }
  }

  /** A group that can sample answers until the first refusal; one that cannot leaves everything alone. */
  lemma GroupIs<M, L>(c: Config<M, L>, m: M, g: nat, input: Input<L>)
    requires Sized(c, input, g)
    ensures var o, size := GroupStep(c, m, g, input), c.bounds[g + 1] - c.bounds[g];
            (o.ok <==> CanSample(input, g) && AnsweredUpTo(c, m, g, input, size))
            && (!CanSample(input, g) ==> o.miner == m) && (o.ok ==> o.miner == MinerAt(c, m, g, input, size))
  {
    hide Tokens, Reply, MinerAt;
    InBounds(c, input, g);
    assert MinerAt(c, m, g, input, 0) == m by { NoneYet(c, m, g, input); }
    TokensAre(c, m, g, input, 0);
    var o := Tokens(c, m, g, input, c.bounds[g]);
    if !o.ok { RefusedAt(c, m, g, input, |o.written|, c.bounds[g + 1] - c.bounds[g]); }
  }

  lemma RefusedAt<M, L>(c: Config<M, L>, m: M, g: nat, input: Input<L>, k: nat, n: nat)
    requires Sized(c, input, g) && k < n && c.bounds[g] + n <= c.bounds[g + 1] && Reply(c, m, g, input, k) < 0
    ensures !AnsweredUpTo(c, m, g, input, n)
  {
  }

  lemma NoneYet<M, L>(c: Config<M, L>, m: M, g: nat, input: Input<L>)
    requires Sized(c, input, g)
    ensures c.bounds[g] <= c.bounds[g + 1] && MinerAt(c, m, g, input, 0) == m
  {
    InBounds(c, input, g);
  }

  /** What it leaves at its stream `n`. */
  lemma GroupWrites<M, L>(c: Config<M, L>, m: M, g: nat, input: Input<L>, n: nat)
    requires Sized(c, input, g) && c.bounds[g] + n < c.bounds[g + 1]
    ensures var part := Padded(GroupStep(c, m, g, input).written, c.bounds[g + 1] - c.bounds[g]);
            n < |part|
            && part[n] == if CanSample(input, g) && AnsweredUpTo(c, m, g, input, n + 1) then Reply(c, m, g, input, n) else -1
  {
    hide Tokens, Reply, MinerAt;
    NoneYet(c, m, g, input);
    TokensAre(c, m, g, input, 0);
    var o := Tokens(c, m, g, input, c.bounds[g]);
    if n < |o.written| {
      assert o.written[n] == Reply(c, m, g, input, 0 + n);
    } else if CanSample(input, g) {
      RefusedAt(c, m, g, input, |o.written|, n + 1);
    }
  }

  lemma {:induction false} GatheredAt<M, L>(c: Config<M, L>, s0: State<M, L>, input: Input<L>, k: nat, g: nat, n: nat)
    requires Quiet(c, s0) && ValidInput(c, input) && g < k <= Groups(c) && c.bounds[g] + n < c.bounds[g + 1]
    ensures |Gathered(c, s0, input, k)| == c.bounds[k] && c.bounds[g + 1] <= c.bounds[k]
    ensures var part := Padded(GroupStep(c, s0.workers[g].miner, g, input).written, c.bounds[g + 1] - c.bounds[g]);
            n < |part| && Gathered(c, s0, input, k)[c.bounds[g] + n] == part[n]
  {
    hide GroupStep, Padded, CanSample, AnsweredUpTo, Reply;
    GatheredSize(c, s0, input, k);
    GatheredSize(c, s0, input, k - 1);
    GroupWrites(c, s0.workers[g].miner, g, input, n);
    if g < k - 1 { GatheredAt(c, s0, input, k - 1, g, n); } else { assert c.bounds[g + 1] == c.bounds[k]; }
  }

  /** After a step, whatever the interleaving was: it succeeded exactly when every group could sample
      and none of its streams was refused, and each stream has its answer unless its group could not
      sample or was refused at it or before, which leaves -1. */
  lemma StepIs<M, L>(c: Config<M, L>, s0: State<M, L>, input: Input<L>, s: State<M, L>)
    requires Mid(c, s0, input, s) && Enabled(c, s, Return)
    ensures var t := Apply(c, s, Return);
            (t.stepOk <==> forall g: nat :: g < Groups(c) ==> CanSample(input, g) && AllAnswered(c, s0, input, g))
            && |t.loans| == s0.gen + 1 && |t.loans[s0.gen].out| == c.bounds[Groups(c)]
            && forall g: nat, n: nat ::
                 (g < Groups(c) && c.bounds[g] + n < c.bounds[g + 1] && c.bounds[g] + n < |t.loans[s0.gen].out|) ==>
                 t.loans[s0.gen].out[c.bounds[g] + n]
                 == if CanSample(input, g) && AnsweredUpTo(c, s0.workers[g].miner, g, input, n + 1)
                    then Reply(c, s0.workers[g].miner, g, input, n) else -1
  {
    hide GroupStep, Padded, Mid, Quiet, AnsweredUpTo, Reply;
    MidIsQuiet(c, s0, input, s);
    ReturnDone(c, s0, input, s);
    ResultIs(c, s0, input);
  }

  ghost predicate AllAnswered<M, L>(c: Config<M, L>, s0: State<M, L>, input: Input<L>, g: nat)
    requires Quiet(c, s0) && ValidInput(c, input) && g < Groups(c)
  {
    AnsweredUpTo(c, s0.workers[g].miner, g, input, c.bounds[g + 1] - c.bounds[g])
  }

  lemma MidIsQuiet<M, L>(c: Config<M, L>, s0: State<M, L>, input: Input<L>, s: State<M, L>)
    requires Mid(c, s0, input, s)
    ensures Quiet(c, s0) && ValidInput(c, input) && |s0.loans| == s0.gen
  {
  }

  lemma ResultIs<M, L>(c: Config<M, L>, s0: State<M, L>, input: Input<L>)
    requires Quiet(c, s0) && ValidInput(c, input) && |s0.loans| == s0.gen
    ensures var t := StepResult(c, s0, input);
            (t.stepOk <==> forall g: nat :: g < Groups(c) ==> CanSample(input, g) && AllAnswered(c, s0, input, g))
            && |t.loans| == s0.gen + 1 && |t.loans[s0.gen].out| == c.bounds[Groups(c)]
            && forall g: nat, n: nat ::
                 (g < Groups(c) && c.bounds[g] + n < c.bounds[g + 1] && c.bounds[g] + n < |t.loans[s0.gen].out|) ==>
                 t.loans[s0.gen].out[c.bounds[g] + n]
                 == if CanSample(input, g) && AnsweredUpTo(c, s0.workers[g].miner, g, input, n + 1)
                    then Reply(c, s0.workers[g].miner, g, input, n) else -1
  {
    hide GroupStep, Padded, AnsweredUpTo, Reply, Gathered;
    var t := StepResult(c, s0, input);
    GatheredSize(c, s0, input, Groups(c));
    forall g: nat | g < Groups(c)
      ensures GroupStep(c, s0.workers[g].miner, g, input).ok <==> CanSample(input, g) && AllAnswered(c, s0, input, g)
    {
      GroupIs(c, s0.workers[g].miner, g, input);
    }
    forall g: nat, n: nat | g < Groups(c) && c.bounds[g] + n < c.bounds[g + 1]
      ensures Gathered(c, s0, input, Groups(c))[c.bounds[g] + n]
              == if CanSample(input, g) && AnsweredUpTo(c, s0.workers[g].miner, g, input, n + 1)
                 then Reply(c, s0.workers[g].miner, g, input, n) else -1
    {
      GatheredAt(c, s0, input, Groups(c), g, n);
      GroupWrites(c, s0.workers[g].miner, g, input, n);
    }
  }

  /** With logits on the host or sorted, and no stream refused, every stream ends with a token. */
  lemma AllServed<M(!new), L(!new)>(c: Config<M, L>, s0: State<M, L>, input: Input<L>, s: State<M, L>)
    requires Mid(c, s0, input, s) && Enabled(c, s, Return)
    requires forall g: nat :: g < |input.sorts| ==> !input.device || input.sorts[g]
    requires forall m, n, l, b :: c.onLogits(m, n, l, b).1 >= 0
    ensures var t := Apply(c, s, Return);
            t.stepOk && |t.loans| == s0.gen + 1 && |t.loans[s0.gen].out| == c.bounds[Groups(c)]
            && forall i :: 0 <= i < |t.loans[s0.gen].out| ==> t.loans[s0.gen].out[i] >= 0
  {
    hide Mid, GroupStep, Gathered, Reply, MinerAt, AnsweredUpTo;
    MidIsQuiet(c, s0, input, s);
    ReturnDone(c, s0, input, s);
    GatheredSize(c, s0, input, Groups(c));
    forall g: nat | g < Groups(c)
      ensures GroupStep(c, s0.workers[g].miner, g, input).ok
    {
      NoneRefused(c, s0.workers[g].miner, g, input);
      GroupIs(c, s0.workers[g].miner, g, input);
    }
  }

  lemma NoneRefused<M(!new), L(!new)>(c: Config<M, L>, m: M, g: nat, input: Input<L>)
    requires Sized(c, input, g) && forall m, n, l, b :: c.onLogits(m, n, l, b).1 >= 0
    ensures c.bounds[g] <= c.bounds[g + 1] && AnsweredUpTo(c, m, g, input, c.bounds[g + 1] - c.bounds[g])
  {
    InBounds(c, input, g);
    forall k: nat | k < c.bounds[g + 1] - c.bounds[g]
      ensures Reply(c, m, g, input, k) >= 0
    {
      var m', l, b := MinerAt(c, m, g, input, k), input.rows[c.bounds[g] + k], input.sorts[g];
      assert c.onLogits(m', k, l, b).1 >= 0;
    }
  }
}
