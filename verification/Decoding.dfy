/** What a mining window is meant to compute, and the prompt passes of the engine. */
module Decoding {
  import opened Llama

  // ---- the reference: each stream sampled from the logits of its own full context ----

  function Logits<L>(net: seq<int> -> L, ctxv: seq<seq<int>>): seq<L> {
    seq(|ctxv|, s requires 0 <= s < |ctxv| => net(ctxv[s]))
  }

  /** The sampler filled in a token for every stream and refused none. */
  predicate Accepted(r: Option<seq<int>>, streams: nat) {
    r.Some? && |r.value| == streams && forall s :: 0 <= s < streams ==> r.value[s] >= 0
  }

  function Push(ctxv: seq<seq<int>>, chosen: seq<int>): seq<seq<int>>
    requires |chosen| == |ctxv|
  {
    seq(|ctxv|, s requires 0 <= s < |ctxv| => ctxv[s] + [chosen[s]])
  }

  /** A window of `n` steps with the sampler `step` in state `st`; `None` once it refuses. */
  function Generate<S, L>(net: seq<int> -> L, step: (S, seq<L>, seq<seq<int>>) -> (S, Option<seq<int>>),
                          st: S, ctxv: seq<seq<int>>, n: nat): (S, Option<seq<seq<int>>>)
    decreases n
  {
    if n == 0 then (st, Some(ctxv))
    else
      var r := step(st, Logits(net, ctxv), ctxv);
      if Accepted(r.1, |ctxv|) then Generate(net, step, r.0, Push(ctxv, r.1.value), n - 1) else (r.0, None)
  }

  // ---- prompt passes ----

  ghost predicate Prompts(toks: seq<seq<int>>) {
    forall s :: 0 <= s < |toks| ==> |toks[s]| > 0
  }

  /** The cache holds exactly the contexts of the streams. */
  ghost predicate Holds(kv: seq<seq<int>>, ctxv: seq<seq<int>>) {
    |ctxv| <= |kv| && forall s :: 0 <= s < |ctxv| ==> kv[s] == ctxv[s]
  }

  ghost function TotalLength(toks: seq<seq<int>>): nat {
    if toks == [] then 0 else TotalLength(toks[..|toks| - 1]) + |toks[|toks| - 1]|
  }

  /** Streams before `s` are in, of stream `s` its first `i` tokens, of later ones the first `c`. */
  ghost predicate Filled(kv: seq<seq<int>>, toks: seq<seq<int>>, s: nat, i: nat, c: nat) {
    |toks| <= |kv| && s <= |toks| && (s < |toks| ==> i <= |toks[s]|)
    && (forall t :: 0 <= t < |toks| ==> c <= |toks[t]|)
    && (forall t :: 0 <= t < s ==> kv[t] == toks[t])
    && (s < |toks| ==> kv[s] == toks[s][..i])
    && (forall t :: s < t < |toks| ==> kv[t] == toks[t][..c])
  }

  lemma FilledStep(kv: seq<seq<int>>, batch: seq<Row>, toks: seq<seq<int>>, s: nat, i: nat, c: nat, output: bool)
    requires Consecutive(kv, batch) && Filled(After(kv, batch), toks, s, i, c) && s < |toks| && i < |toks[s]|
    ensures var row := Row(toks[s][i], i, s, output);
            Consecutive(kv, batch + [row]) && Filled(After(kv, batch + [row]), toks, s, i + 1, c)
            && After(kv, batch + [row])[s] == toks[s][..i + 1]
  {
    Extend(kv, batch, Row(toks[s][i], i, s, output));
    assert toks[s][..i + 1] == toks[s][..i] + [toks[s][i]];
  }

  /** `lastRow[t]` is an output row with the logits of stream `t`'s whole prompt. */
  ghost predicate LastRows<L>(net: seq<int> -> L, kv: seq<seq<int>>, pb: seq<Row>, toks: seq<seq<int>>, lastRow: seq<nat>) {
    |lastRow| <= |toks|
    && forall t :: 0 <= t < |lastRow| ==>
         lastRow[t] < |pb| && pb[lastRow[t]].output && RowLogits(net, kv, pb, lastRow[t]) == net(toks[t])
  }

  lemma LastRowsStep<L>(net: seq<int> -> L, kv: seq<seq<int>>, pb: seq<Row>, toks: seq<seq<int>>, lastRow: seq<nat>, row: Row)
    requires LastRows(net, kv, pb, toks, lastRow)
    ensures LastRows(net, kv, pb + [row], toks, lastRow)
  {
    hide After, Consecutive, RowLogits;
    forall t | 0 <= t < |lastRow|
      ensures lastRow[t] < |pb + [row]| && (pb + [row])[lastRow[t]] == pb[lastRow[t]]
      ensures RowLogits(net, kv, pb + [row], lastRow[t]) == net(toks[t])
    {
      RowStable(net, kv, pb, row, lastRow[t]);
    }
  }

  lemma LastRowsAppend<L>(net: seq<int> -> L, kv: seq<seq<int>>, pb: seq<Row>, toks: seq<seq<int>>, lastRow: seq<nat>, row: Row)
    requires LastRows(net, kv, pb + [row], toks, lastRow) && |lastRow| < |toks| && row.seqId < |kv| && row.output
    requires After(kv, pb + [row])[row.seqId] == toks[|lastRow|]
    ensures LastRows(net, kv, pb + [row], toks, lastRow + [|pb|])
  {
    hide After, RowLogits, Consecutive;
    NewRow(net, kv, pb, row);
    var pb', last' := pb + [row], lastRow + [|pb|];
    forall t | 0 <= t < |last'|
      ensures last'[t] < |pb'| && pb'[last'[t]].output && RowLogits(net, kv, pb', last'[t]) == net(toks[t])
    {
      if t == |lastRow| { assert pb'[|pb|] == row; }
    }
  }

  lemma NewRow<L>(net: seq<int> -> L, kv: seq<seq<int>>, pb: seq<Row>, row: Row)
    requires row.seqId < |kv|
    ensures RowLogits(net, kv, pb + [row], |pb|) == net(After(kv, pb + [row])[row.seqId])
  {
    hide After;
    assert (pb + [row])[..|pb| + 1] == pb + [row];
  }

  /** One batch of all prompts; the last token of each stream asks for logits. With the host copy
      skipped the host still holds what it held before. */
  method PromptPlain<L(!new)>(ctx: Context<L>, toks: seq<seq<int>>) returns (ok: bool, lastRow: seq<nat>)
    requires Prompts(toks) && |toks| <= |ctx.kv| && ctx.kv == seq(|ctx.kv|, _ => [])
    modifies ctx
    ensures ok && Holds(ctx.kv, toks) && |ctx.kv| == |old(ctx.kv)| && ctx.skipCopy == old(ctx.skipCopy)
    ensures |lastRow| == |toks| && (ctx.skipCopy ==> ctx.host == old(ctx.host))
    ensures !ctx.skipCopy ==> forall s :: 0 <= s < |toks| ==>
              lastRow[s] < |ctx.host| && ctx.host[lastRow[s]] == Some(ctx.net(toks[s]))
    ensures ctx.evaluated == old(ctx.evaluated) + TotalLength(toks)
  {
    hide After, Consecutive, RowLogits, TotalLength, LastRows;
    var pb: seq<Row> := [];
    lastRow := [];
    EmptyBatch(ctx.net, ctx.kv, toks);
    for s := 0 to |toks|
      invariant unchanged(ctx)
      invariant Consecutive(ctx.kv, pb) && Filled(After(ctx.kv, pb), toks, s, 0, 0)
      invariant |lastRow| == s && |pb| == TotalLength(toks[..s])
      invariant LastRows(ctx.net, ctx.kv, pb, toks, lastRow)
    {
      for i := 0 to |toks[s]|
        invariant unchanged(ctx)
        invariant Consecutive(ctx.kv, pb) && Filled(After(ctx.kv, pb), toks, s, i, 0)
        invariant |lastRow| == (if i < |toks[s]| then s else s + 1) && |pb| == TotalLength(toks[..s]) + i
        invariant LastRows(ctx.net, ctx.kv, pb, toks, lastRow)
      {
        var row := Row(toks[s][i], i, s, i + 1 == |toks[s]|);
        FilledStep(ctx.kv, pb, toks, s, i, 0, row.output);
        LastRowsStep(ctx.net, ctx.kv, pb, toks, lastRow, row);
        if row.output {
          LastRowsAppend(ctx.net, ctx.kv, pb, toks, lastRow, row);
          lastRow := lastRow + [|pb|];
        }
        pb := pb + [row];
      }
      TotalLengthStep(toks, s);
    }
    assert toks[..|toks|] == toks;
    LastRowsRead(ctx.net, ctx.kv, pb, toks, lastRow);
    ok := ctx.Decode(pb);
  }

  lemma EmptyBatch<L>(net: seq<int> -> L, kv: seq<seq<int>>, toks: seq<seq<int>>)
    ensures Consecutive(kv, []) && After(kv, []) == kv && LastRows(net, kv, [], toks, []) && TotalLength(toks[..0]) == 0
  {
  }

  lemma TotalLengthStep(toks: seq<seq<int>>, s: nat)
    requires s < |toks|
    ensures TotalLength(toks[..s + 1]) == TotalLength(toks[..s]) + |toks[s]|
  {
    assert toks[..s + 1][..s] == toks[..s];
  }

  lemma LastRowsRead<L>(net: seq<int> -> L, kv: seq<seq<int>>, pb: seq<Row>, toks: seq<seq<int>>, lastRow: seq<nat>)
    requires LastRows(net, kv, pb, toks, lastRow)
    ensures |After(kv, pb)| == |kv|
    ensures forall s :: 0 <= s < |lastRow| ==> lastRow[s] < |pb| && HostRows(net, kv, pb)[lastRow[s]] == Some(net(toks[s]))
  {
  }

  // ---- the shared-prefix pass ----

  ghost predicate IsCommon(toks: seq<seq<int>>, c: nat) {
    |toks| > 0 && c < |toks[0]| && forall s :: 0 <= s < |toks| ==> c < |toks[s]| && toks[s][..c] == toks[0][..c]
  }

  lemma CommonAgrees(toks: seq<seq<int>>, c: nat, s: nat, i: nat)
    requires IsCommon(toks, c) && s < |toks| && i < c
    ensures toks[s][i] == toks[0][i]
  {
    assert toks[s][..c][i] == toks[0][..c][i];
  }

  /** The longest prefix common to all prompts that leaves each its last token. */
  method CommonPrefix(toks: seq<seq<int>>) returns (common: nat)
    requires Prompts(toks) && |toks| > 0
    ensures IsCommon(toks, common)
    ensures forall c: nat :: IsCommon(toks, c) ==> c <= common
  {
    common := |toks[0]| - 1;
    for s := 1 to |toks|
      invariant common < |toks[0]|
      invariant forall t :: 0 <= t < s ==> common < |toks[t]| && toks[t][..common] == toks[0][..common]
      invariant forall c: nat :: IsCommon(toks, c) ==> c <= common
    {
      ghost var before := common;
      if |toks[s]| - 1 < common { common := |toks[s]| - 1; }
      var i := 0;
      while i < common && toks[s][i] == toks[0][i]
        invariant 0 <= i <= common && toks[s][..i] == toks[0][..i]
      {
        i := i + 1;
      }
      forall c: nat | IsCommon(toks, c)
        ensures c <= i
      {
        if i < c { CommonAgrees(toks, c, s, i); }
      }
      forall t | 0 <= t < s
        ensures toks[t][..i] == toks[0][..i]
      {
        assert toks[t][..i] == toks[t][..before][..i] && toks[0][..i] == toks[0][..before][..i];
      }
      common := i;
    }
  }

  /** Only sequence 0 has been fed, its first `i` tokens. */
  ghost predicate OnlyFirst(kv: seq<seq<int>>, toks: seq<seq<int>>, i: nat) {
    0 < |toks| <= |kv| && i <= |toks[0]| && kv[0] == toks[0][..i] && forall t :: 0 < t < |kv| ==> kv[t] == []
  }

  /** Feeds the common prefix to sequence 0 in batches of at most `cap` tokens and copies it to the
      other sequences. */
  method FeedPrefix<L(!new)>(ctx: Context<L>, toks: seq<seq<int>>, common: nat, cap: nat) returns (ok: bool)
    requires 0 < |toks| <= |ctx.kv| && ctx.kv == seq(|ctx.kv|, _ => []) && IsCommon(toks, common) && cap > 0
    modifies ctx
    ensures ok && |ctx.kv| == |old(ctx.kv)| && ctx.skipCopy == old(ctx.skipCopy)
    ensures forall t :: 0 <= t < |toks| ==> ctx.kv[t] == toks[t][..common]
    ensures ctx.evaluated == old(ctx.evaluated) + common && (ctx.skipCopy ==> ctx.host == old(ctx.host))
  {
    hide After, Consecutive, OutputRows, HostRows, LastRows;
    var pb: seq<Row> := [];
    EmptyBatch(ctx.net, ctx.kv, toks);
    for i := 0 to common
      invariant ctx.skipCopy ==> ctx.host == old(ctx.host)
      invariant |ctx.kv| == |old(ctx.kv)| && ctx.skipCopy == old(ctx.skipCopy) && |pb| < cap
      invariant Consecutive(ctx.kv, pb) && OnlyFirst(After(ctx.kv, pb), toks, i)
      invariant ctx.evaluated + |pb| == old(ctx.evaluated) + i
      invariant i == common ==> pb == []
    {
      var row := Row(toks[0][i], i, 0, false);
      Extend(ctx.kv, pb, row);
      assert toks[0][..i + 1] == toks[0][..i] + [toks[0][i]];
      pb := pb + [row];
      if |pb| == cap || i + 1 == common {
        ok := ctx.Decode(pb);
        if !ok { return; }
        pb := [];
        EmptyBatch(ctx.net, ctx.kv, toks);
      }
    }
    EmptyBatch(ctx.net, ctx.kv, toks);
    if common > 0 {
      for s := 1 to |toks|
        invariant |ctx.kv| == |old(ctx.kv)| && ctx.skipCopy == old(ctx.skipCopy) && (ctx.skipCopy ==> ctx.host == old(ctx.host))
        invariant ctx.evaluated == old(ctx.evaluated) + common
        invariant forall t :: 0 <= t < s ==> ctx.kv[t] == toks[t][..common]
        invariant forall t :: s <= t < |ctx.kv| ==> ctx.kv[t] == []
      {
        ctx.SeqCopy(0, s);
      }
    }
    ok := true;
  }

  /** Rows of the open batch whose logits are still to be copied out: stream and row. */
  ghost predicate Pending<L>(net: seq<int> -> L, kv: seq<seq<int>>, pb: seq<Row>, toks: seq<seq<int>>, outputs: seq<(nat, nat)>) {
    forall j :: 0 <= j < |outputs| ==>
      outputs[j].0 < |toks| && outputs[j].1 < |pb| && pb[outputs[j].1].output
      && RowLogits(net, kv, pb, outputs[j].1) == net(toks[outputs[j].0])
  }

  ghost predicate Awaited(outputs: seq<(nat, nat)>, t: nat) {
    exists j :: 0 <= j < |outputs| && outputs[j].0 == t
  }

  /** When the host copy is made, each of the first `n` streams has its logits, or has them pending. */
  ghost predicate Delivered<L>(net: seq<int> -> L, toks: seq<seq<int>>, logits: seq<Option<L>>,
                               outputs: seq<(nat, nat)>, n: nat, copied: bool) {
    |logits| == |toks| && n <= |toks|
    && (copied ==> forall t :: 0 <= t < n ==> logits[t] == Some(net(toks[t])) || Awaited(outputs, t))
  }

  method Flush<L(!new)>(ctx: Context<L>, pb: seq<Row>, outputs: seq<(nat, nat)>, promptLogits: seq<Option<L>>,
                        ghost toks: seq<seq<int>>, ghost n: nat)
    returns (ok: bool, logits: seq<Option<L>>)
    requires Pending(ctx.net, ctx.kv, pb, toks, outputs)
    requires Delivered(ctx.net, toks, promptLogits, outputs, n, !ctx.skipCopy)
    modifies ctx
    ensures ok <==> Consecutive(old(ctx.kv), pb)
    ensures ok ==> ctx.kv == After(old(ctx.kv), pb) && ctx.evaluated == old(ctx.evaluated) + |pb|
    ensures ctx.skipCopy == old(ctx.skipCopy) && (ctx.skipCopy ==> ctx.host == old(ctx.host))
    ensures ok ==> Delivered(ctx.net, toks, logits, [], n, !ctx.skipCopy)
  {
    hide After, Consecutive, RowLogits;
    logits := promptLogits;
    EmptyBatch(ctx.net, ctx.kv, toks);
    if |pb| == 0 { return true, logits; }
    ok := ctx.Decode(pb);
    if !ok { return; }
    for j := 0 to |outputs|
      invariant ctx.kv == After(old(ctx.kv), pb) && ctx.evaluated == old(ctx.evaluated) + |pb|
                && ctx.skipCopy == old(ctx.skipCopy)
      invariant ctx.host == if ctx.skipCopy then old(ctx.host) else HostRows(ctx.net, old(ctx.kv), pb)
      invariant Delivered(ctx.net, toks, logits, outputs[j..], n, !ctx.skipCopy)
    {
      ghost var before := logits;
      logits := logits[outputs[j].0 := if outputs[j].1 < |ctx.host| then ctx.host[outputs[j].1] else None];
      forall t | 0 <= t < n && !ctx.skipCopy
        ensures logits[t] == Some(ctx.net(toks[t])) || Awaited(outputs[j + 1..], t)
      {
        if before[t] != Some(ctx.net(toks[t])) && t != outputs[j].0 {
          var l :| 0 <= l < |outputs[j..]| && outputs[j..][l].0 == t;
          assert outputs[j + 1..][l - 1].0 == t;
        }
      }
    }
    assert outputs[|outputs|..] == [];
  }

  lemma PendingStep<L>(net: seq<int> -> L, kv: seq<seq<int>>, pb: seq<Row>, toks: seq<seq<int>>,
                       outputs: seq<(nat, nat)>, row: Row)
    requires Pending(net, kv, pb, toks, outputs)
    ensures Pending(net, kv, pb + [row], toks, outputs)
  {
    hide After, Consecutive, RowLogits;
    forall j | 0 <= j < |outputs|
      ensures (pb + [row])[outputs[j].1] == pb[outputs[j].1]
      ensures RowLogits(net, kv, pb + [row], outputs[j].1) == net(toks[outputs[j].0])
    {
      RowStable(net, kv, pb, row, outputs[j].1);
    }
  }

  lemma PendingAppend<L>(net: seq<int> -> L, kv: seq<seq<int>>, pb: seq<Row>, toks: seq<seq<int>>,
                         outputs: seq<(nat, nat)>, row: Row)
    requires Pending(net, kv, pb + [row], toks, outputs) && row.seqId < |kv| && row.seqId < |toks| && row.output
    requires After(kv, pb + [row])[row.seqId] == toks[row.seqId]
    ensures Pending(net, kv, pb + [row], toks, outputs + [(row.seqId, |pb|)])
  {
    hide After, RowLogits, Consecutive;
    NewRow(net, kv, pb, row);
  }

  lemma DeliveredAppend<L>(net: seq<int> -> L, toks: seq<seq<int>>, logits: seq<Option<L>>, outputs: seq<(nat, nat)>,
                           n: nat, r: nat,
                             copied: bool)
    requires Delivered(net, toks, logits, outputs, n, copied) && n < |toks|
    ensures Delivered(net, toks, logits, outputs + [(n, r)], n + 1, copied)
  {
    var outputs' := outputs + [(n, r)];
    forall t | 0 <= t < n + 1 && copied
      ensures logits[t] == Some(net(toks[t])) || Awaited(outputs', t)
    {
      if t == n {
        assert outputs'[|outputs|].0 == t;
      } else if Awaited(outputs, t) {
        var j :| 0 <= j < |outputs| && outputs[j].0 == t;
        assert outputs'[j].0 == t;
      }
    }
  }

  /** Tokens of the first `n` prompts beyond their common prefix. */
  ghost function SuffixLength(toks: seq<seq<int>>, common: nat, n: nat): nat
    requires n <= |toks| && forall s :: 0 <= s < |toks| ==> common <= |toks[s]|
  {
    if n == 0 then 0 else SuffixLength(toks, common, n - 1) + (|toks[n - 1]| - common)
  }

  /** Evaluates the common prefix once, every suffix token once, and copies out each stream's
      last logits, whatever the batch capacity. With the host copy skipped the host still holds what
      it held before. */
  method PromptShared<L(!new)>(ctx: Context<L>, toks: seq<seq<int>>, cap: nat) returns (ok: bool, promptLogits: seq<Option<L>>)
    requires Prompts(toks) && 0 < |toks| <= |ctx.kv| && ctx.kv == seq(|ctx.kv|, _ => []) && cap > 0
    modifies ctx
    ensures ok && Holds(ctx.kv, toks) && |ctx.kv| == |old(ctx.kv)| && ctx.skipCopy == old(ctx.skipCopy)
    ensures |promptLogits| == |toks| && (ctx.skipCopy ==> ctx.host == old(ctx.host))
    ensures !ctx.skipCopy ==> forall s :: 0 <= s < |toks| ==> promptLogits[s] == Some(ctx.net(toks[s]))
    ensures exists c: nat :: IsCommon(toks, c) && (forall d: nat :: IsCommon(toks, d) ==> d <= c)
              && ctx.evaluated == old(ctx.evaluated) + c + SuffixLength(toks, c, |toks|)
  {
    hide After, Consecutive, RowLogits, Pending, Delivered;
    var common := CommonPrefix(toks);
    ok := FeedPrefix(ctx, toks, common, cap);
    var pb: seq<Row>, outputs: seq<(nat, nat)> := [], [];
    promptLogits := seq(|toks|, _ => None);
    NothingPending(ctx.net, ctx.kv, toks, promptLogits, !ctx.skipCopy);
    for s := 0 to |toks|
      invariant |ctx.kv| == |old(ctx.kv)| && ctx.skipCopy == old(ctx.skipCopy)
                && (ctx.skipCopy ==> ctx.host == old(ctx.host)) && |pb| < cap
      invariant Consecutive(ctx.kv, pb) && Filled(After(ctx.kv, pb), toks, s, common, common)
      invariant Pending(ctx.net, ctx.kv, pb, toks, outputs) && Delivered(ctx.net, toks, promptLogits, outputs, s, !ctx.skipCopy)
      invariant ctx.evaluated + |pb| == old(ctx.evaluated) + common + SuffixLength(toks, common, s)
    {
      for i := common to |toks[s]|
        invariant |ctx.kv| == |old(ctx.kv)| && ctx.skipCopy == old(ctx.skipCopy)
                  && (ctx.skipCopy ==> ctx.host == old(ctx.host)) && |pb| < cap
        invariant Consecutive(ctx.kv, pb) && Filled(After(ctx.kv, pb), toks, s, i, common)
        invariant Pending(ctx.net, ctx.kv, pb, toks, outputs)
        invariant Delivered(ctx.net, toks, promptLogits, outputs, if i < |toks[s]| then s else s + 1, !ctx.skipCopy)
        invariant ctx.evaluated + |pb| == old(ctx.evaluated) + common + SuffixLength(toks, common, s) + (i - common)
      {
        var row := Row(toks[s][i], i, s, i + 1 == |toks[s]|);
        FilledStep(ctx.kv, pb, toks, s, i, common, row.output);
        PendingStep(ctx.net, ctx.kv, pb, toks, outputs, row);
        if row.output {
          PendingAppend(ctx.net, ctx.kv, pb, toks, outputs, row);
          DeliveredAppend(ctx.net, toks, promptLogits, outputs, s, |pb|, !ctx.skipCopy);
          outputs := outputs + [(s, |pb|)];
        }
        pb := pb + [row];
        if |pb| == cap {
          ok, promptLogits := Flush(ctx, pb, outputs, promptLogits, toks, if row.output then s + 1 else s);
          if !ok { return; }
          pb, outputs := [], [];
          NothingPending(ctx.net, ctx.kv, toks, promptLogits, !ctx.skipCopy);
        }
      }
    }
    ok, promptLogits := Flush(ctx, pb, outputs, promptLogits, toks, |toks|);
    if !ctx.skipCopy { AllDelivered(ctx.net, toks, promptLogits); } else { DeliveredCount(ctx.net, toks, promptLogits); }
  }

  lemma NothingPending<L>(net: seq<int> -> L, kv: seq<seq<int>>, toks: seq<seq<int>>, logits: seq<Option<L>>, copied: bool)
    ensures Pending(net, kv, [], toks, []) && Consecutive(kv, []) && After(kv, []) == kv
    ensures |logits| == |toks| ==> Delivered(net, toks, logits, [], 0, copied)
  {
  }

  lemma DeliveredCount<L>(net: seq<int> -> L, toks: seq<seq<int>>, logits: seq<Option<L>>)
    requires Delivered(net, toks, logits, [], |toks|, false)
    ensures |logits| == |toks|
  {
  }

  lemma AllDelivered<L>(net: seq<int> -> L, toks: seq<seq<int>>, logits: seq<Option<L>>)
    requires Delivered(net, toks, logits, [], |toks|, true)
    ensures |logits| == |toks| && forall s :: 0 <= s < |toks| ==> logits[s] == Some(net(toks[s]))
  {
    forall s | 0 <= s < |toks|
      ensures !Awaited([], s)
    {
    }
  }
}
