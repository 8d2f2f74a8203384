/** What a window is, step by step and spelled out, apart from the reference that computes it. */
module Traces {
  import opened Llama
  import opened Decoding
  import opened Stepwise

  /** Sampler states, contexts and chosen tokens of a window so far. */
  datatype Trace<S> = Trace(states: seq<S>, contexts: seq<seq<seq<int>>>, chosen: seq<seq<int>>)

  /** The sampler is shown every stream's logits of its own context, answers with one token for each,
      none negative, and every context grows by its own token. */
  ghost predicate Advances<S, L>(net: seq<int> -> L, step: Sampler<S, L>, st: S, ctxv: seq<seq<int>>, chosen: seq<int>,
                                 st': S, ctxv': seq<seq<int>>)
  {
    step(st, seq(|ctxv|, s requires 0 <= s < |ctxv| => net(ctxv[s])), ctxv) == (st', Some(chosen))
    && |chosen| == |ctxv'| == |ctxv|
    && forall s :: 0 <= s < |ctxv| ==> chosen[s] >= 0 && ctxv'[s] == ctxv[s] + [chosen[s]]
  }

  ghost predicate IsTrace<S, L>(net: seq<int> -> L, step: Sampler<S, L>, st: S, toks: seq<seq<int>>, t: Trace<S>) {
    |t.states| == |t.contexts| == |t.chosen| + 1 && t.states[0] == st && t.contexts[0] == toks
    && forall j :: 0 <= j < |t.chosen| ==>
         Advances(net, step, t.states[j], t.contexts[j], t.chosen[j], t.states[j + 1], t.contexts[j + 1])
  }

  /** No list of tokens, one of the wrong length, or one with a negative token. */
  predicate Unusable(r: Option<seq<int>>, streams: nat) {
    r.None? || |r.value| != streams || exists s :: 0 <= s < |r.value| && r.value[s] < 0
  }

  ghost function LastReply<S, L>(net: seq<int> -> L, step: Sampler<S, L>, st: S, ctxv: seq<seq<int>>): (S, Option<seq<int>>) {
    step(st, seq(|ctxv|, s requires 0 <= s < |ctxv| => net(ctxv[s])), ctxv)
  }

  lemma SameShown<L>(net: seq<int> -> L, ctxv: seq<seq<int>>)
    ensures seq(|ctxv|, s requires 0 <= s < |ctxv| => net(ctxv[s])) == Logits(net, ctxv)
  {
  }

  lemma AcceptedIsUsable(r: Option<seq<int>>, streams: nat)
    ensures Accepted(r, streams) <==> !Unusable(r, streams)
  {
  }

  /** Every window follows a trace, to its end or to the first unusable reply. */
  lemma {:induction false} WindowTrace<S, L>(net: seq<int> -> L, step: Sampler<S, L>, st: S, toks: seq<seq<int>>, n: nat, k: nat)
    returns (t: Trace<S>)
    ensures IsTrace(net, step, st, toks, t) && |t.chosen| <= n
    ensures var m := |t.chosen|;
            if m == n then
              Generate(net, step, st, toks, n) == (t.states[n], Some(t.contexts[n])) && Refusal(net, step, st, toks, n, k).None?
            else
              var r := LastReply(net, step, t.states[m], t.contexts[m]);
              Unusable(r.1, |toks|) && |t.contexts[m]| == |toks| && Generate(net, step, st, toks, n) == (r.0, None)
              && Refusal(net, step, st, toks, n, k) == Some((k + m, r.1.Some?))
    decreases n
  {
    hide Unusable, Accepted;
    SameShown(net, toks);
    t := Trace([st], [toks], []);
    if n > 0 {
      var r := step(st, Logits(net, toks), toks);
      AcceptedIsUsable(r.1, |toks|);
      OneStep(net, step, st, toks, n, k);
      if Accepted(r.1, |toks|) {
        AcceptedParts(r.1, |toks|);
        var rest := WindowTrace(net, step, r.0, Push(toks, r.1.value), n - 1, k + 1);
        t := Trace([st] + rest.states, [toks] + rest.contexts, [r.1.value] + rest.chosen);
        Prepended(net, step, st, toks, r.1.value, rest, t);
      }
    } else {
      OneStep(net, step, st, toks, 0, k);
    }
  }

  lemma AcceptedParts(r: Option<seq<int>>, streams: nat)
    requires Accepted(r, streams)
    ensures r.Some? && |r.value| == streams && forall s :: 0 <= s < streams ==> r.value[s] >= 0
  {
  }

  lemma Prepended<S, L>(net: seq<int> -> L, step: Sampler<S, L>, st: S, toks: seq<seq<int>>, chosen: seq<int>,
                        rest: Trace<S>, t: Trace<S>)
    requires |chosen| == |toks| && (forall s :: 0 <= s < |toks| ==> chosen[s] >= 0)
    requires |rest.states| > 0 && step(st, Logits(net, toks), toks) == (rest.states[0], Some(chosen))
    requires IsTrace(net, step, rest.states[0], Push(toks, chosen), rest)
    requires t == Trace([st] + rest.states, [toks] + rest.contexts, [chosen] + rest.chosen)
    ensures IsTrace(net, step, st, toks, t)
  {
    SameShown(net, toks);
    assert Advances(net, step, st, toks, chosen, rest.states[0], Push(toks, chosen));
    hide Advances;
    forall j | 0 <= j < |t.chosen|
      ensures Advances(net, step, t.states[j], t.contexts[j], t.chosen[j], t.states[j + 1], t.contexts[j + 1])
    {
      if j > 0 {
        assert Advances(net, step, rest.states[j - 1], rest.contexts[j - 1], rest.chosen[j - 1], rest.states[j],
                        rest.contexts[j]);
      }
    }
  }

  /** Traces of one window agree as far as both go. */
  lemma {:induction false} TracesAgree<S, L>(net: seq<int> -> L, step: Sampler<S, L>, st: S, toks: seq<seq<int>>,
                                             t: Trace<S>, u: Trace<S>, j: nat)
    requires IsTrace(net, step, st, toks, t) && IsTrace(net, step, st, toks, u) && j <= |t.chosen| && j <= |u.chosen|
    ensures t.states[j] == u.states[j] && t.contexts[j] == u.contexts[j] && |t.contexts[j]| == |toks|
    ensures j > 0 ==> t.chosen[j - 1] == u.chosen[j - 1]
  {
    if j > 0 {
      TracesAgree(net, step, st, toks, t, u, j - 1);
      assert Advances(net, step, t.states[j - 1], t.contexts[j - 1], t.chosen[j - 1], t.states[j], t.contexts[j]);
      assert Advances(net, step, u.states[j - 1], u.contexts[j - 1], u.chosen[j - 1], u.states[j], u.contexts[j]);
    }
  }

  /** An unusable reply is where a trace ends. */
  lemma EndsThere<S, L>(net: seq<int> -> L, step: Sampler<S, L>, st: S, toks: seq<seq<int>>, t: Trace<S>, u: Trace<S>)
    requires IsTrace(net, step, st, toks, t) && IsTrace(net, step, st, toks, u)
    requires Unusable(LastReply(net, step, t.states[|t.chosen|], t.contexts[|t.chosen|]).1, |toks|)
    ensures |u.chosen| <= |t.chosen|
  {
    hide Unusable, Advances;
    var m := |t.chosen|;
    if |u.chosen| > m {
      TracesAgree(net, step, st, toks, t, u, m);
      AdvancesUsably(net, step, u.states[m], u.contexts[m], u.chosen[m], u.states[m + 1], u.contexts[m + 1]);
    }
  }

  lemma AdvancesUsably<S, L>(net: seq<int> -> L, step: Sampler<S, L>, st: S, ctxv: seq<seq<int>>, chosen: seq<int>,
                             st': S, ctxv': seq<seq<int>>)
    requires Advances(net, step, st, ctxv, chosen, st', ctxv')
    ensures !Unusable(LastReply(net, step, st, ctxv).1, |ctxv|)
  {
  }

  /** A window completes exactly when there is a trace of its length, and then ends as the trace does. */
  lemma CompletesExactly<S, L>(net: seq<int> -> L, step: Sampler<S, L>, st: S, toks: seq<seq<int>>, n: nat)
    ensures Generate(net, step, st, toks, n).1.Some? <==> exists t: Trace<S> :: IsTrace(net, step, st, toks, t) && |t.chosen| == n
    ensures forall t: Trace<S> :: IsTrace(net, step, st, toks, t) && |t.chosen| == n ==>
              Generate(net, step, st, toks, n) == (t.states[n], Some(t.contexts[n]))
  {
    hide Generate, Unusable, Advances;
    var t := WindowTrace(net, step, st, toks, n, 0);
    forall u: Trace<S> | IsTrace(net, step, st, toks, u) && |u.chosen| == n
      ensures |t.chosen| == n && Generate(net, step, st, toks, n) == (u.states[n], Some(u.contexts[n]))
    {
      if |t.chosen| < n { EndsThere(net, step, st, toks, t, u); }
      TracesAgree(net, step, st, toks, t, u, n);
    }
  }

  /** It is refused exactly when a shorter trace ends in an unusable reply, at that step and in that way. */
  lemma RefusedExactly<S, L>(net: seq<int> -> L, step: Sampler<S, L>, st: S, toks: seq<seq<int>>, n: nat, k: nat)
    ensures Refusal(net, step, st, toks, n, k).Some?
            <==> exists t: Trace<S> :: Stopped(net, step, st, toks, t) && |t.chosen| < n
    ensures forall t: Trace<S> :: Stopped(net, step, st, toks, t) && |t.chosen| < n ==>
              Refusal(net, step, st, toks, n, k)
              == Some((k + |t.chosen|, LastReply(net, step, t.states[|t.chosen|], t.contexts[|t.chosen|]).1.Some?))
  {
    hide Refusal, Generate, Unusable, Advances;
    var t := WindowTrace(net, step, st, toks, n, k);
    assert |t.chosen| < n ==> Stopped(net, step, st, toks, t);
    forall u: Trace<S> | Stopped(net, step, st, toks, u) && |u.chosen| < n
      ensures |u.chosen| == |t.chosen| < n && u.states[|u.chosen|] == t.states[|u.chosen|]
              && u.contexts[|u.chosen|] == t.contexts[|u.chosen|]
    {
      EndsThere(net, step, st, toks, u, t);
      if |t.chosen| < n { EndsThere(net, step, st, toks, t, u); }
      TracesAgree(net, step, st, toks, t, u, |t.chosen|);
    }
  }

  ghost predicate Stopped<S, L>(net: seq<int> -> L, step: Sampler<S, L>, st: S, toks: seq<seq<int>>, t: Trace<S>) {
    IsTrace(net, step, st, toks, t) && Unusable(LastReply(net, step, t.states[|t.chosen|], t.contexts[|t.chosen|]).1, |toks|)
  }

  /** A sampler that always has one token for each stream, none negative, completes every window. */
  lemma FullSamplersComplete<S(!new), L(!new)>(net: seq<int> -> L, step: Sampler<S, L>, st: S, toks: seq<seq<int>>, n: nat)
    requires forall s, logits, ctxv :: step(s, logits, ctxv).1.Some? && |step(s, logits, ctxv).1.value| == |ctxv|
    requires forall s, logits, ctxv, i :: 0 <= i < |ctxv| && |step(s, logits, ctxv).1.value| == |ctxv| ==>
               step(s, logits, ctxv).1.value[i] >= 0
    ensures Generate(net, step, st, toks, n).1.Some?
  {
    hide Generate, Advances;
    var t := WindowTrace(net, step, st, toks, n, 0);
  }
}
