/** A mining window on one context: prompt pass, then sample and decode in lock step. */
module Stepwise {
  import opened Llama
  import opened Decoding

  datatype Config = Config(window: nat, slots: nat, ctxPerSlot: nat, prefixPrefill: bool, batchCap: nat)

  type Sampler<!S, !L> = (S, seq<L>, seq<seq<int>>) -> (S, Option<seq<int>>)

  // ---- the batch of one generation step ----

  /** One row a stream, in stream order, each at the end of its context. */
  function StepRows(ctxv: seq<seq<int>>, chosen: seq<int>, n: nat): (rows: seq<Row>)
    requires n <= |ctxv| == |chosen|
    ensures |rows| == n
  {
    seq(n, s requires 0 <= s < n => Row(chosen[s], |ctxv[s]|, s, true))
  }

  /** The streams before `n` have their new token, the others not yet. */
  ghost predicate Advanced(kv: seq<seq<int>>, ctxv: seq<seq<int>>, chosen: seq<int>, n: nat) {
    n <= |ctxv| == |chosen| <= |kv|
    && forall s :: 0 <= s < |ctxv| ==> kv[s] == if s < n then ctxv[s] + [chosen[s]] else ctxv[s]
  }

  lemma NoRows(kv: seq<seq<int>>)
    ensures Consecutive(kv, []) && After(kv, []) == kv
  {
  }

  lemma {:induction false} StepBatch(kv: seq<seq<int>>, ctxv: seq<seq<int>>, chosen: seq<int>, n: nat)
    requires Holds(kv, ctxv) && n <= |ctxv| == |chosen|
    ensures Consecutive(kv, StepRows(ctxv, chosen, n)) && Advanced(After(kv, StepRows(ctxv, chosen, n)), ctxv, chosen, n)
  {
    hide After, Consecutive;
    NoRows(kv);
    if n > 0 {
      var rows, last := StepRows(ctxv, chosen, n - 1), Row(chosen[n - 1], |ctxv[n - 1]|, n - 1, true);
      StepBatch(kv, ctxv, chosen, n - 1);
      assert StepRows(ctxv, chosen, n) == rows + [last];
      Extend(kv, rows, last);
    }
  }

  lemma StepLogits<L>(net: seq<int> -> L, kv: seq<seq<int>>, ctxv: seq<seq<int>>, chosen: seq<int>, s: nat)
    requires Holds(kv, ctxv) && s < |ctxv| == |chosen|
    ensures RowLogits(net, kv, StepRows(ctxv, chosen, |ctxv|), s) == net(ctxv[s] + [chosen[s]])
  {
    assert StepRows(ctxv, chosen, |ctxv|)[..s + 1] == StepRows(ctxv, chosen, s + 1);
    StepBatch(kv, ctxv, chosen, s + 1);
  }

  lemma {:induction false} AllOutput<L>(net: seq<int> -> L, kv: seq<seq<int>>, batch: seq<Row>)
    requires forall r :: 0 <= r < |batch| ==> batch[r].output
    ensures |OutputRows(net, kv, batch)| == |batch|
    ensures forall r :: 0 <= r < |batch| ==> OutputRows(net, kv, batch)[r] == RowLogits(net, kv, batch, r)
  {
    hide After;
    if batch != [] {
      var k := |batch| - 1;
      AllOutput(net, kv, batch[..k]);
      forall r | 0 <= r < k
        ensures RowLogits(net, kv, batch[..k], r) == RowLogits(net, kv, batch, r)
      {
        assert batch[..k][..r + 1] == batch[..r + 1];
      }
    }
  }

  /** A whole step's batch: accepted, and its outputs are the logits of the pushed contexts. */
  lemma StepDecoded<L>(net: seq<int> -> L, kv: seq<seq<int>>, ctxv: seq<seq<int>>, chosen: seq<int>)
    requires Holds(kv, ctxv) && |ctxv| == |chosen|
    ensures var nb := StepRows(ctxv, chosen, |ctxv|);
            var next := Push(ctxv, chosen);
            Consecutive(kv, nb) && Holds(After(kv, nb), next) && |After(kv, nb)| == |kv|
            && OutputRows(net, kv, nb) == Logits(net, next)
            && |HostRows(net, kv, nb)| == |ctxv|
            && forall s :: 0 <= s < |ctxv| ==> HostRows(net, kv, nb)[s] == Some(net(next[s]))
  {
    var nb, next := StepRows(ctxv, chosen, |ctxv|), Push(ctxv, chosen);
    StepBatch(kv, ctxv, chosen, |ctxv|);
    AllOutput(net, kv, nb);
    hide OutputRows, RowLogits, Consecutive;
    forall s | 0 <= s < |ctxv|
      ensures RowLogits(net, kv, nb, s) == net(next[s])
    {
      StepLogits(net, kv, ctxv, chosen, s);
    }
    assert OutputRows(net, kv, nb) == Logits(net, next);
  }

  /** Every stream has gained `i` tokens. */
  ghost predicate Grown(toks: seq<seq<int>>, ctxv: seq<seq<int>>, i: nat) {
    |ctxv| == |toks| && forall s :: 0 <= s < |toks| ==> |ctxv[s]| == |toks[s]| + i
  }

  /** The rows of step `i` in stream order, placed after the prompt and the steps before. */
  method StepBatchOf(toks: seq<seq<int>>, chosen: seq<int>, i: nat, ghost ctxv: seq<seq<int>>) returns (nb: seq<Row>)
    requires Grown(toks, ctxv, i) && |chosen| == |toks|
    ensures nb == StepRows(ctxv, chosen, |ctxv|)
  {
    nb := [];
    for s := 0 to |toks|
      invariant nb == StepRows(ctxv, chosen, s)
    {
      nb := nb + [Row(chosen[s], |toks[s]| + i, s, true)];
    }
  }

  // ---- the window ----

  ghost predicate ValidInput(cfg: Config, toks: seq<seq<int>>) {
    1 <= |toks| <= cfg.slots
    && forall s :: 0 <= s < |toks| ==> |toks[s]| > 0 && |toks[s]| + cfg.window <= cfg.ctxPerSlot
  }

  method Validate(cfg: Config, toks: seq<seq<int>>) returns (valid: bool)
    ensures valid <==> ValidInput(cfg, toks)
  {
    if |toks| < 1 || |toks| > cfg.slots { return false; }
    for s := 0 to |toks|
      invariant forall t :: 0 <= t < s ==> |toks[t]| > 0 && |toks[t]| + cfg.window <= cfg.ctxPerSlot
    {
      if |toks[s]| == 0 || |toks[s]| + cfg.window > cfg.ctxPerSlot { return false; }
    }
    return true;
  }

  /** The step at which the sampler first refuses, and whether it did so by a negative token. */
  function Refusal<S, L>(net: seq<int> -> L, step: Sampler<S, L>, st: S, ctxv: seq<seq<int>>, n: nat, k: nat): Option<(nat, bool)>
    decreases n
  {
    if n == 0 then None
    else
      var r := step(st, Logits(net, ctxv), ctxv);
      if Accepted(r.1, |ctxv|) then Refusal(net, step, r.0, Push(ctxv, r.1.value), n - 1, k + 1) else Some((k, r.1.Some?))
  }

  /** A window completes exactly when nothing is refused, and then every stream has its prompt
      followed by `n` tokens of the vocabulary. */
  lemma {:induction false} WindowShape<S, L>(net: seq<int> -> L, step: Sampler<S, L>, st: S, ctxv: seq<seq<int>>, n: nat, k: nat)
    ensures Generate(net, step, st, ctxv, n).1.Some? <==> Refusal(net, step, st, ctxv, n, k).None?
    ensures Refusal(net, step, st, ctxv, n, k).Some? ==> k <= Refusal(net, step, st, ctxv, n, k).value.0 < k + n
    ensures Generate(net, step, st, ctxv, n).1.Some? ==> Continued(ctxv, Generate(net, step, st, ctxv, n).1.value, n)
    decreases n
  {
    if n > 0 {
      var r := step(st, Logits(net, ctxv), ctxv);
      if Accepted(r.1, |ctxv|) {
        WindowShape(net, step, r.0, Push(ctxv, r.1.value), n - 1, k + 1);
      }
    }
  }

  ghost predicate Continued(prompts: seq<seq<int>>, out: seq<seq<int>>, n: nat) {
    |out| == |prompts|
    && forall s :: 0 <= s < |prompts| ==>
         |out[s]| == |prompts[s]| + n && prompts[s] <= out[s] && forall i :: |prompts[s]| <= i < |out[s]| ==> out[s][i] >= 0
  }

  /** What a step may read: the host copy by row, and the device rows in stream order. */
  ghost predicate Readable<L>(net: seq<int> -> L, ctxv: seq<seq<int>>, host: seq<Option<L>>, device: seq<L>,
                              lastRow: seq<nat>, skip: bool) {
    device == Logits(net, ctxv) && |lastRow| == |ctxv|
    && (!skip ==> forall s :: 0 <= s < |ctxv| ==> lastRow[s] < |host| && host[lastRow[s]] == Some(net(ctxv[s])))
  }

  /** Runs the prompt pass and yields every stream's first logits. */
  method Prompt<L(!new)>(ctx: Context<L>, cfg: Config, toks: seq<seq<int>>) returns (ok: bool, logits: seq<L>)
    requires 0 < |toks| <= |ctx.kv| && Prompts(toks) && !ctx.skipCopy && cfg.batchCap > 0
    modifies ctx
    ensures ok && Holds(ctx.kv, toks) && |ctx.kv| == |old(ctx.kv)| && !ctx.skipCopy
    ensures logits == Logits(ctx.net, toks)
  {
    ctx.Clear();
    if cfg.prefixPrefill {
      var promptLogits;
      ok, promptLogits := PromptShared(ctx, toks, cfg.batchCap);
      logits := seq(|toks|, s requires 0 <= s < |toks| && promptLogits[s].Some? => promptLogits[s].value);
    } else {
      var lastRow;
      ok, lastRow := PromptPlain(ctx, toks);
      var host := ctx.host;
      logits := seq(|toks|, s requires 0 <= s < |toks| && lastRow[s] < |host|
                    && host[lastRow[s]].Some? => host[lastRow[s]].value);
    }
    assert logits == Logits(ctx.net, toks);
  }

  /** The logits of this step: the device rows once they are usable, else the host copy. */
  method Read<L(!new)>(ctx: Context<L>, ghost ctxv: seq<seq<int>>, promptLogits: seq<L>, lastRow: seq<nat>, i: nat,
                       useDev: bool, devMode: bool)
    returns (logits: seq<L>)
    requires i == 0 ==> promptLogits == Logits(ctx.net, ctxv)
    requires i > 0 ==> Readable(ctx.net, ctxv, ctx.host, ctx.device, lastRow, ctx.skipCopy)
    requires devMode == ctx.skipCopy == (useDev && i > 1)
    modifies ctx`skipCopy
    ensures logits == Logits(ctx.net, ctxv) && ctx.skipCopy == (useDev && i > 0)
  {
    logits := promptLogits;
    if useDev && i > 0 {
      logits := ctx.device;
      if !devMode { ctx.SetSkipCopy(true); }
    } else if i > 0 {
      var host := ctx.host;
      logits := seq(|lastRow|, s requires 0 <= s < |lastRow| && lastRow[s] < |host|
                    && host[lastRow[s]].Some? => host[lastRow[s]].value);
      assert logits == Logits(ctx.net, ctxv);
    }
  }

  /** One step of the reference and of its refusal. */
  lemma OneStep<S, L>(net: seq<int> -> L, step: Sampler<S, L>, st: S, ctxv: seq<seq<int>>, n: nat, k: nat)
    ensures Generate(net, step, st, ctxv, 0) == (st, Some(ctxv)) && Refusal(net, step, st, ctxv, 0, k) == None
    ensures n > 0 ==>
              var r := step(st, Logits(net, ctxv), ctxv);
              if Accepted(r.1, |ctxv|) then
                Generate(net, step, st, ctxv, n) == Generate(net, step, r.0, Push(ctxv, r.1.value), n - 1)
                && Refusal(net, step, st, ctxv, n, k) == Refusal(net, step, r.0, Push(ctxv, r.1.value), n - 1, k + 1)
              else Generate(net, step, st, ctxv, n) == (r.0, None) && Refusal(net, step, st, ctxv, n, k) == Some((k, r.1.Some?))
  {
  }

  /** One window of `cfg.window` steps. From step 1 on the logits come from the device when
      `wantDev` and `onDevice`, and the host copy is then skipped. */
  method Run<S, L(!new)>(ctx: Context<L>, cfg: Config, toks: seq<seq<int>>, step: Sampler<S, L>, st0: S, wantDev: bool,
                         onDevice: bool)
    returns (st: S, result: Option<seq<seq<int>>>)
    requires |ctx.kv| == cfg.slots && cfg.batchCap > 0 && !ctx.skipCopy
    modifies ctx
    ensures !ValidInput(cfg, toks) ==> st == st0 && result == None && !ctx.skipCopy
    ensures ValidInput(cfg, toks) ==> (st, result) == Generate(ctx.net, step, st0, toks, cfg.window)
    ensures ValidInput(cfg, toks) ==>
              (ctx.skipCopy <==> wantDev && onDevice
                                 && Refusal(ctx.net, step, st0, toks, cfg.window, 0).Some?
                                 && Refusal(ctx.net, step, st0, toks, cfg.window, 0).value.0 > 0
                                 && Refusal(ctx.net, step, st0, toks, cfg.window, 0).value.1)
    ensures |ctx.kv| == cfg.slots
  {
    hide After, Consecutive, OutputRows, RowLogits, Generate, Refusal, Holds;
    st, result := st0, None;
    var valid := Validate(cfg, toks);
    if !valid { return; }
    var ok, promptLogits := Prompt(ctx, cfg, toks);
    if !ok { return; }
    var ctxv := toks;
    var lastRow: seq<nat> := [];
    var devMode := false;
    for i := 0 to cfg.window
      invariant |ctx.kv| == cfg.slots && Grown(toks, ctxv, i) && Holds(ctx.kv, ctxv)
      invariant i == 0 ==> promptLogits == Logits(ctx.net, ctxv)
      invariant i > 0 ==> Readable(ctx.net, ctxv, ctx.host, ctx.device, lastRow, ctx.skipCopy)
      invariant devMode == ctx.skipCopy == (wantDev && onDevice && i > 1)
      invariant Generate(ctx.net, step, st, ctxv, cfg.window - i) == Generate(ctx.net, step, st0, toks, cfg.window)
      invariant Refusal(ctx.net, step, st, ctxv, cfg.window - i, i) == Refusal(ctx.net, step, st0, toks, cfg.window, 0)
    {
      var logits := Read(ctx, ctxv, promptLogits, lastRow, i, wantDev && onDevice, devMode);
      devMode := wantDev && onDevice && i > 0;
      OneStep(ctx.net, step, st, ctxv, cfg.window - i, i);
      var r := step(st, logits, ctxv);
      st := r.0;
      if r.1.None? {
        if devMode { ctx.SetSkipCopy(false); }
        return st, None;
      }
      if !Accepted(r.1, |ctxv|) { return st, None; }
      var chosen := r.1.value;
      var nb := StepBatchOf(toks, chosen, i, ctxv);
      StepDecoded(ctx.net, ctx.kv, ctxv, chosen);
      ctxv := Push(ctxv, chosen);
      lastRow := seq(|toks|, s => s);
      ok := ctx.Decode(nb);
      assert ok;
    }
    if devMode { ctx.SetSkipCopy(false); }
    OneStep(ctx.net, step, st, ctxv, 0, cfg.window);
    result := Some(ctxv);
  }

  // ---- which samplers leave the flag set ----

  /** A sampler that, when it does not give up, has a token for every stream. */
  ghost predicate Regular<S(!new), L(!new)>(step: Sampler<S, L>) {
    forall st, logits, ctxv :: step(st, logits, ctxv).1.Some? ==> OneEach(step(st, logits, ctxv).1.value, |ctxv|)
  }

  /** One token for each stream, none negative. */
  predicate OneEach(chosen: seq<int>, streams: nat) { |chosen| == streams && forall s :: 0 <= s < |chosen| ==> chosen[s] >= 0 }

  /** Such a sampler never stops a window by a negative token. */
  lemma {:induction false} RegularGivesUp<S(!new), L(!new)>(net: seq<int> -> L, step: Sampler<S, L>, st: S,
                                                            ctxv: seq<seq<int>>, n: nat, k: nat)
    requires Regular(step)
    ensures Refusal(net, step, st, ctxv, n, k).Some? ==> !Refusal(net, step, st, ctxv, n, k).value.1
    decreases n
  {
    if n > 0 {
      var r := step(st, Logits(net, ctxv), ctxv);
      if Accepted(r.1, |ctxv|) { RegularGivesUp(net, step, r.0, Push(ctxv, r.1.value), n - 1, k + 1); }
    }
  }

  /** The reference for one window after the other; an unsuitable batch is refused. */
  ghost function Windows<S, L>(net: seq<int> -> L, step: Sampler<S, L>, st: S, cfg: Config, batches: seq<seq<seq<int>>>)
    : (S, seq<Option<seq<seq<int>>>>)
  {
    if batches == [] then (st, [])
    else
      var before := Windows(net, step, st, cfg, batches[..|batches| - 1]);
      var last := batches[|batches| - 1];
      var r := if ValidInput(cfg, last) then Generate(net, step, before.0, last, cfg.window) else (before.0, None);
      (r.0, before.1 + [r.1])
  }

  /** With a regular sampler each window finds the flag clear, so a whole run equals the reference. */
  method RunAll<S(!new), L(!new)>(ctx: Context<L>, cfg: Config, batches: seq<seq<seq<int>>>, step: Sampler<S, L>, st0: S,
                                  wantDev: bool, onDevice: bool) returns (st: S, results: seq<Option<seq<seq<int>>>>)
    requires |ctx.kv| == cfg.slots && cfg.batchCap > 0 && !ctx.skipCopy && Regular(step)
    modifies ctx
    ensures (st, results) == Windows(ctx.net, step, st0, cfg, batches) && !ctx.skipCopy && |ctx.kv| == cfg.slots
  {
    hide Generate, Refusal, Regular, ValidInput;
    st, results := st0, [];
    for i := 0 to |batches|
      invariant |ctx.kv| == cfg.slots && !ctx.skipCopy
      invariant (st, results) == Windows(ctx.net, step, st0, cfg, batches[..i])
    {
      assert batches[..i + 1][..i] == batches[..i];
      RegularGivesUp(ctx.net, step, st, batches[i], cfg.window, 0);
      var result;
      st, result := Run(ctx, cfg, batches[i], step, st, wantDev, onDevice);
      results := results + [result];
    }
    assert batches[..|batches|] == batches;
  }

  /** A sampler that takes one step and then stops, by a negative token or by giving up. */
  function StopsAfterOne<L>(negative: bool): Sampler<nat, L> {
    (st: nat, logits: seq<L>, ctxv: seq<seq<int>>) =>
      if st == 0 then (1, Some(seq(|ctxv|, _ => 0)))
      else (st, if negative then Some(seq(|ctxv|, _ => -1)) else None)
  }

  /** Any window of two steps or more is refused at its second by either sampler; only the first
      kind leaves the flag set. */
  lemma StopsAtSecond<L>(net: seq<int> -> L, ctxv: seq<seq<int>>, n: nat, negative: bool)
    requires n >= 2 && |ctxv| > 0
    ensures Refusal(net, StopsAfterOne(negative), 0, ctxv, n, 0) == Some((1, negative))
  {
    var step := StopsAfterOne<L>(negative);
    var r := step(0, Logits(net, ctxv), ctxv);
    assert Accepted(r.1, |ctxv|);
    var next := Push(ctxv, r.1.value);
    var r2 := step(1, Logits(net, next), next);
    assert negative ==> r2.1.Some? && r2.1.value[0] == -1;
    assert Refusal(net, step, 1, next, n - 1, 1) == Some((1, negative));
  }

  /** So a whole window on device logits does leave it set. */
  method FlagLeftSet<L(!new)>(ctx: Context<L>, cfg: Config, toks: seq<seq<int>>)
    requires |ctx.kv| == cfg.slots && cfg.batchCap > 0 && !ctx.skipCopy && ValidInput(cfg, toks) && cfg.window >= 2
    modifies ctx
    ensures ctx.skipCopy
  {
    StopsAtSecond(ctx.net, toks, cfg.window, true);
    var st, result := Run(ctx, cfg, toks, StopsAfterOne<L>(true), 0, true, true);
  }
}
